/**
 What a reader of JSON arrays of strings makes of the text that marshalJSONArray prints: the grammar of
 sections 5 and 7 of RFC 8259, with the two escapes that the printer uses and without white space.
 */
module JsonReader {
  import opened Options
  import opened Sequences
  import opened ArrayCodec

  /** A value and the text after it. */
  datatype Read<T> = Read(value: T, rest: string)

  function Before(ch: char, r: Option<Read<string>>): Option<Read<string>> {
    if r.Some? then Some(Read([ch] + r.value.value, r.value.rest)) else None
  }

  /** The characters up to the quote that ends a string: control characters have to be escaped. */
  function ReadChars(s: string): (r: Option<Read<string>>)
    ensures r.Some? ==> |r.value.rest| < |s|
  {
    if s == "" then None
    else if s[0] == '\"' then Some(Read("", s[1..]))
    else if s[0] == '\\' then
      if |s| >= 2 && (s[1] == '\"' || s[1] == '\\') then Before(s[1], ReadChars(s[2..])) else None
    else if s[0] < ' ' then None
    else Before(s[0], ReadChars(s[1..]))
  }

  function ReadString(s: string): (r: Option<Read<string>>)
    ensures r.Some? ==> |r.value.rest| < |s|
  {
    if s != "" && s[0] == '\"' then ReadChars(s[1..]) else None
  }

  /** What follows a value: the end of the array, or a comma and another value. */
  function ReadMore(s: string): Option<seq<string>>
    decreases |s|
  {
    if s == "]" then Some([])
    else if s != "" && s[0] == ',' then ReadValues(s[1..])
    else None
  }

  function ReadValues(s: string): Option<seq<string>>
    decreases |s|
  {
    var first := ReadString(s);
    if first.None? then None
    else
      var more := ReadMore(first.value.rest);
      if more.None? then None else Some([first.value.value] + more.value)
  }

  function ReadArray(s: string): Option<seq<string>> {
    if s == "[]" then Some([]) else if s != "" && s[0] == '[' then ReadValues(s[1..]) else None
  }

  predicate Printable(s: string) {
    forall i :: 0 <= i < |s| ==> s[i] >= ' '
  }

  predicate AllPrintable(xs: seq<string>) {
    forall i :: 0 <= i < |xs| ==> Printable(xs[i])
  }

  /** One printed character. */
  lemma {:induction false} CharReadsBack(ch: char, tail: string)
    requires ch < 128 as char
    ensures ReadChars(EscapeChar(ch) + tail) == if ch < ' ' then None else Before(ch, ReadChars(tail))
  {
    if ch == QUOTE || ch == BACKSLASH {
      var s := [BACKSLASH, ch] + tail;
      assert s[0] == BACKSLASH && s[1] == ch && s[2..] == tail;
      assert ReadChars(s) == Before(ch, ReadChars(tail));
    } else {
      var s := [ch] + tail;
      assert s[0] == ch && s[1..] == tail;
      assert ReadChars(s) == if ch < ' ' then None else Before(ch, ReadChars(tail));
    }
  }

  lemma {:induction false} CharsReadBack(s: string, rest: string)
    requires Ascii(s)
    ensures ReadChars(Escape(s) + ([QUOTE] + rest)) == if Printable(s) then Some(Read(s, rest)) else None
  {
    if s == "" {
      assert Escape(s) + ([QUOTE] + rest) == [QUOTE] + rest && ([QUOTE] + rest)[1..] == rest;
    } else {
      CharsReadBack(s[1..], rest);
      Assoc(EscapeChar(s[0]), Escape(s[1..]), [QUOTE] + rest);
      CharReadsBack(s[0], Escape(s[1..]) + ([QUOTE] + rest));
      assert s == [s[0]] + s[1..];
      assert Printable(s) <==> s[0] >= ' ' && Printable(s[1..]);
    }
  }

  lemma StringReadsBack(s: string, rest: string)
    requires Ascii(s)
    ensures ReadString(Quoted(s) + rest) == if Printable(s) then Some(Read(s, rest)) else None
  {
    CharsReadBack(s, rest);
    assert (Quoted(s) + rest)[1..] == Escape(s) + ([QUOTE] + rest);
  }

  /** What is left after a first value. */
  lemma {:induction false} MoreReadsBack(xs: seq<string>)
    requires AllAscii(xs)
    ensures ReadMore(Items(xs, true) + "]") == if AllPrintable(xs) then Some(xs) else None
    decreases |xs|
  {
    var s := Items(xs, true) + "]";
    if xs != [] {
      ValuesReadBack(xs);
      assert s[0] == ',' && s[1..] == Items(xs, false) + "]" && |s| > 1;
    }
  }

  lemma {:induction false} ValuesReadBack(xs: seq<string>)
    requires xs != [] && AllAscii(xs)
    ensures ReadValues(Items(xs, false) + "]") == if AllPrintable(xs) then Some(xs) else None
    decreases |xs|, 0
  {
    var rest := Items(xs[1..], true) + "]";
    assert Items(xs, false) + "]" == Quoted(xs[0]) + rest;
    StringReadsBack(xs[0], rest);
    MoreReadsBack(xs[1..]);
    assert xs == [xs[0]] + xs[1..];
    PrintableFirst(xs);
  }

  lemma PrintableFirst(xs: seq<string>)
    requires xs != []
    ensures AllPrintable(xs) <==> Printable(xs[0]) && AllPrintable(xs[1..])
  {
  }

  /**
   The printer is right where the store's own parser is not: for every list of ASCII strings, backslashes
   at their ends included, a reader of JSON gets exactly these strings, unless one of them holds a control
   character, which the printer does not escape and the grammar does not allow.
   */
  lemma PrintsJsonExact(xs: seq<string>)
    requires AllAscii(xs)
    ensures ReadArray(Marshal(xs)) == if AllPrintable(xs) then Some(xs) else None
  {
    if xs != [] {
      ValuesReadBack(xs);
      assert Marshal(xs)[1..] == Items(xs, false) + "]";
      assert |Items(xs, false)| >= 2;
    }
  }
}
