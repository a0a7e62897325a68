/**
 * Decimal digit strings: the zero-padded fields of a `YYYY-MM-DD` key and the
 * digits of `toFixed`. Value reads a digit string back, so that each rendering
 * has an inverse.
 */
module Decimal {
  import Lexical

  predicate IsDigit(c: char) {
    '0' <= c <= '9'
  }

  predicate AllDigits(s: string) {
    forall i :: 0 <= i < |s| ==> IsDigit(s[i])
  }

  function Digit(k: nat): (c: char)
    requires k < 10
    ensures IsDigit(c)
  {
    ('0' as int + k) as char
  }

  function DigitValue(c: char): (k: nat)
    requires IsDigit(c)
    ensures k < 10 && Digit(k) == c
  {
    c as int - '0' as int
  }

  function Pow10(w: nat): (p: nat)
    ensures p >= 1
  {
    if w == 0 then 1 else 10 * Pow10(w - 1)
  }

  /** The value of a string of decimal digits (most significant first). */
  function Value(s: string): nat
    requires AllDigits(s)
  {
    if s == [] then 0 else Value(s[..|s| - 1]) * 10 + DigitValue(s[|s| - 1])
  }

  /** The last `w` decimal digits of `n`, zero-padded to width `w` (`format`'s `yyyy`, `MM`, `dd`). */
  function Pad(n: nat, w: nat): (s: string)
    ensures |s| == w && AllDigits(s)
  {
    if w == 0 then [] else Pad(n / 10, w - 1) + [Digit(n % 10)]
  }

  /** Shortest decimal rendering of a natural number, as JavaScript writes an integer. */
  function NatToString(n: nat): (s: string)
    ensures |s| >= 1 && AllDigits(s)
  {
    if n < 10 then [Digit(n)] else NatToString(n / 10) + [Digit(n % 10)]
  }

  lemma {:induction false} PadValue(n: nat, w: nat)
    requires n < Pow10(w)
    ensures Value(Pad(n, w)) == n
  {
    if w > 0 {
      var s := Pad(n, w);
      assert s[..|s| - 1] == Pad(n / 10, w - 1);
      PadValue(n / 10, w - 1);
    }
  }

  lemma {:induction false} ValuePad(s: string)
    requires AllDigits(s)
    ensures Value(s) < Pow10(|s|)
    ensures Pad(Value(s), |s|) == s
  {
    if s != [] {
      var init := s[..|s| - 1];
      ValuePad(init);
      var v := Value(s);
      assert v / 10 == Value(init) && v % 10 == DigitValue(s[|s| - 1]);
      assert s == init + [s[|s| - 1]];
    }
  }

  lemma {:induction false} NatToStringValue(n: nat)
    ensures Value(NatToString(n)) == n
  {
    if n >= 10 {
      var s := NatToString(n);
      assert s[..|s| - 1] == NatToString(n / 10);
      NatToStringValue(n / 10);
    }
  }

  lemma PadInjective(n: nat, m: nat, w: nat)
    requires n < Pow10(w) && m < Pow10(w)
    requires Pad(n, w) == Pad(m, w)
    ensures n == m
  {
    PadValue(n, w);
    PadValue(m, w);
  }

  /** Zero-padded fields of equal width compare lexically exactly as their values compare. */
  lemma {:induction false} PadLess(n: nat, m: nat, w: nat)
    requires n < Pow10(w) && m < Pow10(w)
    ensures Lexical.Less(Pad(n, w), Pad(m, w)) <==> n < m
  {
    if w == 0 {
    } else {
      var hn, hm := Pad(n / 10, w - 1), Pad(m / 10, w - 1);
      Lexical.BlockwiseLess(hn, [Digit(n % 10)], hm, [Digit(m % 10)]);
      PadLess(n / 10, m / 10, w - 1);
      if hn == hm {
        PadInjective(n / 10, m / 10, w - 1);
      }
      assert Lexical.Less([Digit(n % 10)], [Digit(m % 10)]) <==> n % 10 < m % 10;
    }
  }
}
