/** Decimal text: printed numbers, six-digit codes and the value of a run of digits. */
module Decimal {
  predicate IsDigit(c: char) { '0' <= c <= '9' }

  predicate AllDigits(s: string) { forall i :: 0 <= i < |s| ==> IsDigit(s[i]) }

  function Digit(d: nat): (c: char)
    requires d < 10
    ensures IsDigit(c) && DigitValue(c) == d
  {
    '0' + d as char
  }

  function DigitValue(c: char): (d: nat)
    requires IsDigit(c)
    ensures d < 10
  {
    (c - '0') as nat
  }

  /** Read left to right, ten times what came before plus the next digit. */
  function Value(s: string): nat
    requires AllDigits(s)
  {
    if s == [] then 0 else Value(s[..|s| - 1]) * 10 + DigitValue(s[|s| - 1])
  }

  /** Printed with no leading zero, as %ld and {} do. */
  function Print(n: nat): (s: string)
    ensures s != [] && AllDigits(s)
  {
    if n < 10 then [Digit(n)] else Print(n / 10) + [Digit(n % 10)]
  }

  /** Printed with exactly w digits, as {:06} does. */
  function Fixed(n: nat, w: nat): (s: string)
    ensures |s| == w && AllDigits(s)
  {
    if w == 0 then [] else Fixed(n / 10, w - 1) + [Digit(n % 10)]
  }

  function Pow10(w: nat): (p: nat)
    ensures p > 0
  {
    if w == 0 then 1 else 10 * Pow10(w - 1)
  }

  lemma {:induction false} ValueOfPrint(n: nat)
    ensures Value(Print(n)) == n
  {
    if n < 10 {
      assert Print(n)[..0] == [];
    } else {
      ValueOfPrint(n / 10);
      assert Print(n)[..|Print(n)| - 1] == Print(n / 10);
    }
  }

  lemma DropDigit(n: nat, p: nat)
    requires n < 10 * p
    ensures n / 10 < p && n == n / 10 * 10 + n % 10
  {
  }

  lemma {:induction false} ValueOfFixed(n: nat, w: nat)
    requires n < Pow10(w)
    ensures Value(Fixed(n, w)) == n
  {
    if w > 0 {
      DropDigit(n, Pow10(w - 1));
      ValueOfFixed(n / 10, w - 1);
      var s := Fixed(n, w);
      assert s[..w - 1] == Fixed(n / 10, w - 1) && s[w - 1] == Digit(n % 10);
    }
  }

  lemma {:induction false} FixedOfValue(s: string)
    requires AllDigits(s)
    ensures Value(s) < Pow10(|s|)
    ensures Fixed(Value(s), |s|) == s
  {
    if s != [] {
      var t := s[..|s| - 1];
      FixedOfValue(t);
      assert Value(s) / 10 == Value(t);
      assert s == t + [s[|s| - 1]];
    }
  }

  /** A printed number of at most w digits is below ten to the w. */
  lemma {:induction false} PrintLength(n: nat, w: nat)
    requires w > 0
    ensures n < Pow10(w) <==> |Print(n)| <= w
  {
    if n >= 10 {
      if w == 1 {
        assert |Print(n / 10)| >= 1;
        assert Pow10(1) == 10 * Pow10(0);
      } else {
        PrintLength(n / 10, w - 1);
      }
    } else {
      assert Pow10(w) >= 10 by { assert Pow10(w - 1) >= 1; }
    }
  }

  /** The code both screens show: six digits with leading zeros. */
  function FormatCode(code: nat): (s: string)
    ensures |s| == 6 && AllDigits(s)
  {
    Fixed(code % 1_000_000, 6)
  }

  lemma SixDigits()
    ensures Pow10(6) == 1_000_000
  {
  }

  lemma FixedIsUnique(text: string, w: nat, n: nat)
    requires n < Pow10(w)
    ensures (|text| == w && AllDigits(text) && Value(text) == n) <==> text == Fixed(n, w)
  {
  }

  /** A typed text counts as the code exactly when it is the text on the computer. */
  lemma TypedIsShown(text: string, code: nat)
    requires code < 1_000_000
    ensures (|text| == 6 && AllDigits(text) && Value(text) == code) <==> text == FormatCode(code)
  {
    SixDigits();
    FixedIsUnique(text, 6, code);
    assert code % 1_000_000 == code;
  }
}
