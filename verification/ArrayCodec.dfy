/**
 The hand-written JSON string-array codec of the store: marshalJSONArray prints, and
 parseJSONStringArray reads back by splitting at quotes that no backslash precedes.
 The escapes are the fragment \" and \\ of section 7 of RFC 8259.
 */
module ArrayCodec {
  import opened Sequences

  const QUOTE := '\"'
  const BACKSLASH := '\\'

  // ---- What the two directions compute --------------------------------------------

  /** byte(ch) keeps the low eight bits of a code point. */
  function Byte(ch: char): char {
    (ch as int % 256) as char
  }

  lemma LowByte(ch: char)
    ensures Byte(ch) < 256 as char && (ch as int - Byte(ch) as int) % 256 == 0
  {
  }

  function EscapeChar(ch: char): string {
    if ch == QUOTE then [BACKSLASH, QUOTE]
    else if ch == BACKSLASH then [BACKSLASH, BACKSLASH]
    else [Byte(ch)]
  }

  function Escape(s: string): string {
    if s == "" then "" else EscapeChar(s[0]) + Escape(s[1..])
  }

  function Quoted(s: string): string {
    [QUOTE] + Escape(s) + [QUOTE]
  }

  /** The quoted items, separated by commas; a leading comma if something came before. */
  function Items(xs: seq<string>, comma: bool): string {
    if xs == [] then "" else (if comma then "," else "") + Quoted(xs[0]) + Items(xs[1..], true)
  }

  function Marshal(xs: seq<string>): string {
    if xs == [] then "[]" else "[" + Items(xs, false) + "]"
  }

  /**
   splitJSON from some point on: `prev` is the byte before, and `cur` what has been read of the
   part that is open when `inStr` holds.
   */
  function Scan(s: string, prev: char, inStr: bool, cur: string): seq<string> {
    if s == "" then []
    else if s[0] == QUOTE && prev != BACKSLASH then
      if inStr then [cur + [QUOTE]] + Scan(s[1..], QUOTE, false, "")
      else Scan(s[1..], QUOTE, true, [QUOTE])
    else Scan(s[1..], s[0], inStr, if inStr then cur + [s[0]] else "")
  }

  function Split(s: string): seq<string> {
    Scan(s, '[', false, "")
  }

  function Unescape(s: string): string {
    if s == "" then ""
    else if s[0] == BACKSLASH && |s| > 1 then [s[1]] + Unescape(s[2..])
    else [s[0]] + Unescape(s[1..])
  }

  function Unquote(s: string): string {
    if |s| >= 2 && s[0] == QUOTE && s[|s| - 1] == QUOTE then s[1..|s| - 1] else s
  }

  function UnescapeAll(parts: seq<string>): seq<string> {
    if parts == [] then [] else [Unescape(Unquote(parts[0]))] + UnescapeAll(parts[1..])
  }

  /** Slicing the brackets off a one-byte string would panic. */
  function Parse(s: string): seq<string>
    requires |s| != 1
  {
    if s == "" || s == "[]" || |s| == 2 then [] else UnescapeAll(Split(s[1..|s| - 1]))
  }

  // ---- The loops ------------------------------------------------------------------

  lemma {:induction false} EscapeSnoc(s: string, ch: char)
    ensures Escape(s + [ch]) == Escape(s) + EscapeChar(ch)
  {
    if s == "" {
      assert (s + [ch])[1..] == "";
    } else {
      assert (s + [ch])[1..] == s[1..] + [ch];
      EscapeSnoc(s[1..], ch);
    }
  }

  lemma {:induction false} ItemsSnoc(xs: seq<string>, comma: bool, x: string)
    ensures Items(xs + [x], comma) == Items(xs, comma) + (if comma || xs != [] then "," else "") + Quoted(x)
  {
    if xs == [] {
      assert xs + [x] == [x] && [x][1..] == [];
    } else {
      assert (xs + [x])[1..] == xs[1..] + [x];
      ItemsSnoc(xs[1..], true, x);
    }
  }

  /** The same, in the order the bytes are appended. */
  lemma {:induction false} AppendedItem(xs: seq<string>, x: string, comma: string, b: string)
    requires comma == if xs != [] then "," else ""
    requires b == "[" + Items(xs, false)
    ensures b + comma + [QUOTE] + Escape(x) + [QUOTE] == "[" + Items(xs + [x], false)
  {
    ItemsSnoc(xs, false, x);
    var items, escaped := Items(xs, false), Escape(x);
    Assoc("[", items, comma);
    Assoc("[", items + comma, Quoted(x));
    Assoc(b + comma, [QUOTE], escaped);
    Assoc(b + comma, [QUOTE] + escaped, [QUOTE]);
  }

  /** The inner loop of marshalJSONArray. */
  method AppendEscaped(buffer: string, s: string) returns (b: string)
    ensures b == buffer + Escape(s)
  {
    b := buffer;
    for j := 0 to |s|
      invariant b == buffer + Escape(s[..j])
    {
      assert s[..j + 1] == s[..j] + [s[j]];
      EscapeSnoc(s[..j], s[j]);
      if s[j] == QUOTE {
        b := b + [BACKSLASH, QUOTE];
      } else if s[j] == BACKSLASH {
        b := b + [BACKSLASH, BACKSLASH];
      } else {
        b := b + [Byte(s[j])];
      }
    }
    assert s[..|s|] == s;
  }

  method MarshalJSONArray(items: seq<string>) returns (b: string)
    ensures b == Marshal(items)
  {
    if |items| == 0 {
      return "[]";
    }
    b := "[";
    for i := 0 to |items|
      invariant b == "[" + Items(items[..i], false)
    {
      AppendedItem(items[..i], items[i], if i > 0 then "," else "", b);
      assert items[..i + 1] == items[..i] + [items[i]];
      b := b + if i > 0 then "," else "";
      b := b + [QUOTE];
      b := AppendEscaped(b, items[i]);
      b := b + [QUOTE];
    }
    assert items[..|items|] == items;
    b := b + "]";
  }

  method SplitJSON(s: string) returns (parts: seq<string>)
    ensures parts == Split(s)
  {
    parts := [];
    var start, inStr := 0, false;
    for i := 0 to |s|
      invariant 0 <= start <= i
      invariant parts + Scan(s[i..], if i == 0 then '[' else s[i - 1], inStr, if inStr then s[start..i] else "") == Split(s)
    {
      var ch := s[i];
      assert s[i..][1..] == s[i + 1..];
      if ch == QUOTE && (i == 0 || s[i - 1] != BACKSLASH) {
        inStr := !inStr;
        if !inStr {
          assert s[start..i + 1] == s[start..i] + [QUOTE];
          ghost var rest := Scan(s[i + 1..], ch, false, "");
          assert parts + ([s[start..i + 1]] + rest) == (parts + [s[start..i + 1]]) + rest;
          parts := parts + [s[start..i + 1]];
        } else {
          start := i;
          assert s[start..i + 1] == [QUOTE];
        }
      } else if inStr {
        assert s[start..i + 1] == s[start..i] + [ch];
      }
    }
  }

  /** One turn of the unescaping loop. */
  lemma UnescapeFrom(s: string, i: nat)
    requires i < |s|
    ensures var j := if s[i] == BACKSLASH && i + 1 < |s| then i + 1 else i;
            Unescape(s[i..]) == [s[j]] + Unescape(s[j + 1..])
  {
    if s[i] == BACKSLASH && i + 1 < |s| {
      assert s[i..][2..] == s[i + 2..];
    } else {
      assert s[i..][1..] == s[i + 1..];
    }
  }

  method UnescapeJSON(p: string) returns (out: string)
    ensures out == Unescape(Unquote(p))
  {
    var s := p;
    if |s| >= 2 && s[0] == QUOTE && s[|s| - 1] == QUOTE {
      s := s[1..|s| - 1];
    }
    out := "";
    var i := 0;
    while i < |s|
      invariant 0 <= i <= |s|
      invariant out + Unescape(s[i..]) == Unescape(s)
    {
      UnescapeFrom(s, i);
      if s[i] == BACKSLASH && i + 1 < |s| {
        i := i + 1;
      }
      Assoc(out, [s[i]], Unescape(s[i + 1..]));
      out := out + [s[i]];
      i := i + 1;
    }
  }

  method ParseJSONStringArray(s: string) returns (out: seq<string>)
    requires |s| != 1
    ensures out == Parse(s)
  {
    if s == "" || s == "[]" {
      return [];
    }
    var inner := s[1..|s| - 1];
    if inner == "" {
      return [];
    }
    var parts := SplitJSON(inner);
    out := [];
    for i := 0 to |parts|
      invariant out + UnescapeAll(parts[i..]) == UnescapeAll(parts)
    {
      assert parts[i..][1..] == parts[i + 1..];
      var p := UnescapeJSON(parts[i]);
      Assoc(out, [p], UnescapeAll(parts[i + 1..]));
      out := out + [p];
    }
  }

  // ---- Reading back what was printed ------------------------------------------------

  predicate Ascii(s: string) {
    forall i :: 0 <= i < |s| ==> s[i] < 128 as char
  }

  predicate AllAscii(xs: seq<string>) {
    forall i :: 0 <= i < |xs| ==> Ascii(xs[i])
  }

  predicate EndsInBackslash(s: string) {
    s != "" && s[|s| - 1] == BACKSLASH
  }

  /** How many of the strings end in a backslash. */
  function BackslashEnds(xs: seq<string>): nat {
    if xs == [] then 0 else (if EndsInBackslash(xs[0]) then 1 else 0) + BackslashEnds(xs[1..])
  }

  function LastOr(s: string, prev: char): char {
    if s == "" then prev else s[|s| - 1]
  }

  lemma {:induction false} UnescapeEscape(s: string)
    requires Ascii(s)
    ensures Unescape(Escape(s)) == s
  {
    if s != "" {
      UnescapeEscape(s[1..]);
      var e, tail := EscapeChar(s[0]), Escape(s[1..]);
      assert s == [s[0]] + s[1..];
      assert Escape(s) == e + tail;
      assert (e + tail)[|e|..] == tail;
      if s[0] == QUOTE || s[0] == BACKSLASH {
        assert Unescape(e + tail) == [s[0]] + Unescape(tail);
      } else {
        assert (e + tail)[0] == s[0];
        assert Unescape(e + tail) == [s[0]] + Unescape(tail);
      }
    }
  }

  lemma {:induction false} EscapeEnd(s: string)
    requires Ascii(s)
    ensures LastOr(Escape(s), QUOTE) == BACKSLASH <==> EndsInBackslash(s)
  {
    if s != "" {
      EscapeEnd(s[1..]);
      assert s[1..] == "" ==> Escape(s) == EscapeChar(s[0]);
      assert s[1..] != "" ==> Escape(s[1..]) != "";
    }
  }

  lemma {:induction false} ScanPastChar(ch: char, tail: string, prev: char, inStr: bool, cur: string)
    requires ch < 128 as char && (!inStr ==> cur == "")
    ensures var e := EscapeChar(ch);
            Scan(e + tail, prev, inStr, cur) == Scan(tail, e[|e| - 1], inStr, if inStr then cur + e else "")
  {
    var e := EscapeChar(ch);
    assert (e + tail)[1..] == e[1..] + tail;
    if |e| == 2 {
      assert (e[1..] + tail)[1..] == tail;
      assert (cur + [e[0]]) + [e[1]] == cur + e;
    } else {
      assert e[1..] + tail == tail;
    }
  }

  /** No quote inside a printed item opens or closes a part. */
  lemma {:induction false} ScanPastItem(s: string, rest: string, prev: char, inStr: bool, cur: string)
    requires Ascii(s) && (!inStr ==> cur == "")
    ensures Scan(Escape(s) + rest, prev, inStr, cur)
            == Scan(rest, LastOr(Escape(s), prev), inStr, if inStr then cur + Escape(s) else "")
  {
    if s == "" {
      assert Escape(s) + rest == rest && cur + Escape(s) == cur;
    } else {
      var e, tail := EscapeChar(s[0]), Escape(s[1..]) + rest;
      assert Escape(s) + rest == e + tail;
      ScanPastChar(s[0], tail, prev, inStr, cur);
      var cur' := if inStr then cur + e else "";
      ScanPastItem(s[1..], rest, e[|e| - 1], inStr, cur');
      assert (cur + e) + Escape(s[1..]) == cur + Escape(s);
    }
  }

  /** Outside a part, an item is one part, unless its closing quote follows a backslash. */
  lemma {:induction false} ScanItemOutside(s: string, rest: string, prev: char)
    requires Ascii(s) && prev != BACKSLASH
    ensures Scan(Quoted(s) + rest, prev, false, "")
            == if EndsInBackslash(s) then Scan(rest, QUOTE, true, Quoted(s)) else [Quoted(s)] + Scan(rest, QUOTE, false, "")
  {
    var tail := [QUOTE] + rest;
    assert (Quoted(s) + rest)[1..] == Escape(s) + tail;
    ScanPastItem(s, tail, QUOTE, true, [QUOTE]);
    EscapeEnd(s);
    assert tail[1..] == rest;
  }

  /** Inside a part, an item's opening quote closes the part. */
  lemma {:induction false} ScanItemInside(s: string, rest: string, prev: char, cur: string)
    requires Ascii(s) && prev != BACKSLASH
    ensures Scan(Quoted(s) + rest, prev, true, cur)
            == [cur + [QUOTE]] + (if EndsInBackslash(s) then Scan(rest, QUOTE, false, "") else Scan(rest, QUOTE, true, [QUOTE]))
  {
    var tail := [QUOTE] + rest;
    assert (Quoted(s) + rest)[1..] == Escape(s) + tail;
    ScanPastItem(s, tail, QUOTE, false, "");
    EscapeEnd(s);
    assert tail[1..] == rest;
  }

  lemma {:induction false} ScanComma(rest: string, inStr: bool, cur: string)
    ensures Scan("," + rest, QUOTE, inStr, cur) == Scan(rest, ',', inStr, if inStr then cur + "," else "")
  {
    assert ("," + rest)[1..] == rest;
  }

  /** The scan of a list goes past the comma and starts on the first item. */
  lemma ScanHead(xs: seq<string>, comma: bool, prev: char, inStr: bool, cur: string)
    returns (prev': char, cur': string)
    requires xs != [] && (if comma then prev == QUOTE else prev == '[') && (!inStr ==> cur == "")
    ensures Scan(Items(xs, comma), prev, inStr, cur) == Scan(Quoted(xs[0]) + Items(xs[1..], true), prev', inStr, cur')
    ensures prev' != BACKSLASH && (!inStr ==> cur' == "")
  {
    var body := Quoted(xs[0]) + Items(xs[1..], true);
    if comma {
      assert Items(xs, comma) == "," + body;
      ScanComma(body, inStr, cur);
      prev', cur' := ',', if inStr then cur + "," else "";
    } else {
      assert Items(xs, comma) == body;
      prev', cur' := prev, cur;
    }
  }

  /** Each string contributes two quotes that count, or one if it ends in a backslash; two make a part. */
  lemma {:induction false} CountParts(xs: seq<string>, comma: bool, prev: char, inStr: bool, cur: string)
    requires AllAscii(xs) && (if comma then prev == QUOTE else prev == '[') && (!inStr ==> cur == "")
    ensures |Scan(Items(xs, comma), prev, inStr, cur)|
            == (2 * |xs| - BackslashEnds(xs) + (if inStr then 1 else 0)) / 2
    decreases |xs|
  {
    if xs != [] {
      var prev', cur' := ScanHead(xs, comma, prev, inStr, cur);
      var rest := Items(xs[1..], true);
      assert AllAscii(xs[1..]);
      if inStr {
        ScanItemInside(xs[0], rest, prev', cur');
        if EndsInBackslash(xs[0]) {
          CountParts(xs[1..], true, QUOTE, false, "");
        } else {
          CountParts(xs[1..], true, QUOTE, true, [QUOTE]);
        }
      } else {
        ScanItemOutside(xs[0], rest, prev');
        if EndsInBackslash(xs[0]) {
          CountParts(xs[1..], true, QUOTE, true, Quoted(xs[0]));
        } else {
          CountParts(xs[1..], true, QUOTE, false, "");
        }
      }
    }
  }

  lemma {:induction false} UnescapeQuoted(x: string, more: seq<string>)
    requires Ascii(x)
    ensures UnescapeAll([Quoted(x)] + more) == [x] + UnescapeAll(more)
  {
    assert Unquote(Quoted(x)) == Escape(x);
    UnescapeEscape(x);
    assert ([Quoted(x)] + more)[1..] == more;
  }

  /** Without a string that ends in a backslash, the parts are the items. */
  lemma {:induction false} PartsAreItems(xs: seq<string>, comma: bool, prev: char)
    requires AllAscii(xs) && (if comma then prev == QUOTE else prev == '[') && BackslashEnds(xs) == 0
    ensures UnescapeAll(Scan(Items(xs, comma), prev, false, "")) == xs
    decreases |xs|
  {
    if xs != [] {
      var prev', cur' := ScanHead(xs, comma, prev, false, "");
      var rest := Items(xs[1..], true);
      ScanItemOutside(xs[0], rest, prev');
      assert AllAscii(xs[1..]);
      PartsAreItems(xs[1..], true, QUOTE);
      UnescapeQuoted(xs[0], Scan(rest, QUOTE, false, ""));
    }
  }

  lemma {:induction false} UnescapeAllLength(parts: seq<string>)
    ensures |UnescapeAll(parts)| == |parts|
  {
    if parts != [] {
      UnescapeAllLength(parts[1..]);
    }
  }

  lemma {:induction false} FewerThanItems(xs: seq<string>)
    ensures BackslashEnds(xs) <= |xs|
  {
    if xs != [] {
      FewerThanItems(xs[1..]);
    }
  }

  /**
   Of n ASCII strings of which k end in a backslash, n - ceil(k / 2) come back, and they are the
   strings that went in exactly when k is zero.
   */
  lemma {:induction false} ArrayCodecExact(xs: seq<string>)
    requires AllAscii(xs)
    ensures |Marshal(xs)| != 1
    ensures |Parse(Marshal(xs))| == |xs| - (BackslashEnds(xs) + 1) / 2
    ensures Parse(Marshal(xs)) == xs <==> BackslashEnds(xs) == 0
  {
    if xs != [] {
      var s := Marshal(xs);
      assert s[1..|s| - 1] == Items(xs, false);
      assert |Items(xs, false)| >= 2;
      UnescapeAllLength(Split(Items(xs, false)));
      CountParts(xs, false, '[', false, "");
      FewerThanItems(xs);
      if BackslashEnds(xs) == 0 {
        PartsAreItems(xs, false, '[');
      }
    }
  }
}
