/** formatBytes: the unit a byte count is printed in. */
module FormatBytes {
  import opened Integers

  const UNIT: nat := 1024

  const LETTERS := "KMGTPE"

  /** Printed as so many bytes, or as the quotient b / div in the letter's unit. */
  datatype Text = Bytes(b: u64) | Quotient(b: u64, div: u64, letter: char)

  function Pow1024(e: nat): nat {
    if e == 0 then 1 else UNIT * Pow1024(e - 1)
  }

  /** The letter stands for the largest power of 1024 that b reaches. */
  ghost predicate Fits(b: u64, div: u64, exp: nat) {
    exp < |LETTERS| && div == Pow1024(exp + 1) && div <= b < UNIT * div
  }

  lemma {:induction false} PowGrows(e: nat)
    ensures Pow1024(e) >= 1
  {
    if e > 0 {
      PowGrows(e - 1);
    }
  }

  lemma {:induction false} PowMonotone(d: nat, e: nat)
    requires d <= e
    ensures Pow1024(d) <= Pow1024(e)
  {
    if d < e {
      PowMonotone(d, e - 1);
      PowGrows(e - 1);
    }
  }

  lemma {:induction false} PowReaches64(e: nat)
    requires e >= 7
    ensures Pow1024(e) >= TWO_64
  {
    PowMonotone(7, e);
    assert Pow1024(7) == UNIT * (UNIT * (UNIT * Pow1024(4)));
    assert Pow1024(4) == UNIT * (UNIT * (UNIT * Pow1024(1)));
  }

  /** The unit is the only one that fits. */
  lemma FitIsUnique(b: u64, div: u64, exp: nat, div': u64, exp': nat)
    requires Fits(b, div, exp) && Fits(b, div', exp')
    ensures exp == exp' && div == div'
  {
    if exp < exp' {
      PowMonotone(exp + 2, exp' + 1);
    } else if exp' < exp {
      PowMonotone(exp' + 2, exp + 1);
    }
  }

  /** n is b / div. */
  ghost predicate Divides(b: nat, div: nat, n: nat) {
    div * n <= b < div * (n + 1)
  }

  lemma MulUnit(d: nat, x: nat)
    ensures d * (UNIT * x) == (UNIT * d) * x
  {
  }

  lemma DivideAgain(b: nat, div: nat, n: nat)
    requires Divides(b, div, n)
    ensures Divides(b, UNIT * div, n / UNIT)
  {
    var q := n / UNIT;
    assert UNIT * q <= n && n + 1 <= UNIT * (q + 1);
    MulMonotone(div, UNIT * q, n);
    MulMonotone(div, n + 1, UNIT * (q + 1));
    MulUnit(div, q);
    MulUnit(div, q + 1);
  }

  lemma DividesBounds(b: nat, div: nat, n: nat)
    requires Divides(b, div, n) && n >= 1
    ensures div <= b
    ensures n < UNIT ==> b < UNIT * div
  {
    MulMonotone(div, 1, n);
    if n < UNIT {
      MulMonotone(div, n + 1, UNIT);
    }
  }

  /** The binary prefixes, as powers of two. */
  predicate Stands(letter: char, div: u64) {
    || (letter == 'K' && div == 0x400)
    || (letter == 'M' && div == 0x10_0000)
    || (letter == 'G' && div == 0x4000_0000)
    || (letter == 'T' && div == 0x100_0000_0000)
    || (letter == 'P' && div == 0x4_0000_0000_0000)
    || (letter == 'E' && div == 0x1000_0000_0000_0000)
  }

  /** The table's letters are in the order of the powers. */
  lemma LettersStand(b: u64, div: u64, exp: nat)
    requires Fits(b, div, exp)
    ensures Stands(LETTERS[exp], div)
  {
    assert Pow1024(1) == 0x400;
    assert Pow1024(2) == UNIT * Pow1024(1);
    assert Pow1024(3) == UNIT * Pow1024(2);
    assert Pow1024(4) == UNIT * Pow1024(3);
    assert Pow1024(5) == UNIT * Pow1024(4);
    assert Pow1024(6) == UNIT * Pow1024(5);
  }

  /** uint64 arithmetic: div never leaves the type, and the letter's index is in range. */
  method Format(b: u64) returns (text: Text)
    ensures b < UNIT ==> text == Bytes(b)
    ensures b >= UNIT ==> text.Quotient? && text.b == b
                          && exists exp: nat :: Fits(b, text.div, exp) && text.letter == LETTERS[exp]
      ensures b >= UNIT ==> text.div <= b < 1024 * text.div
      ensures b >= UNIT ==> Stands(text.letter, text.div)
  {
    if b < UNIT {
      return Bytes(b);
    }
    var div: u64, exp: nat := UNIT, 0;
    var n: u64 := b / UNIT;
    assert Pow1024(1) == UNIT;
    while n >= UNIT
      invariant div == Pow1024(exp + 1) && n >= 1 && Divides(b, div, n)
      decreases n
    {
      DivideAgain(b, div, n);
      n := n / UNIT;
      DividesBounds(b, UNIT * div, n);
      div := div * UNIT;
      exp := exp + 1;
    }
    DividesBounds(b, div, n);
    if exp + 1 >= 7 {
      PowReaches64(exp + 1);
      assert false;
    }
    assert Fits(b, div, exp);
    LettersStand(b, div, exp);
    text := Quotient(b, div, LETTERS[exp]);
  }
}
