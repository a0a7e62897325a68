/**
 * `Number.prototype.toFixed(2)` on an exact amount: the amount rounded to the
 * nearest hundredth (the larger one on a tie), written with at least one
 * integer digit and exactly two decimals, a leading `-` for a negative amount.
 * From 10^21 up, toFixed falls back to the number's ordinary string form,
 * which is the parameter `show`.
 */
module Fixed {
  import Decimal

  const Limit: real := 1000000000000000000000.0

  /** The whole number of hundredths nearest to `x`. */
  function Cents(x: real): nat
    requires x >= 0.0
  {
    (100.0 * x + 0.5).Floor
  }

  /** Rounding half up: the count of hundredths is off by at most half a hundredth. */
  lemma CentsNearest(x: real)
    requires x >= 0.0
    ensures -0.5 < Cents(x) as real - 100.0 * x <= 0.5
  {
  }

  function Unsigned(x: real, show: real -> string): string
    requires x >= 0.0
  {
    if x >= Limit then show(x)
    else
      var n := Cents(x);
      Decimal.NatToString(n / 100) + ['.'] + Decimal.Pad(n % 100, 2)
  }

  function ToFixed2(x: real, show: real -> string): string {
    if x < 0.0 then ['-'] + Unsigned(-x, show) else Unsigned(x, show)
  }

  // ---- reading a two-decimal number back ---------------------------------

  /** Digits, a point, then exactly two digits. */
  predicate UnsignedForm(t: string) {
    |t| >= 4 && t[|t| - 3] == '.'
    && Decimal.AllDigits(t[..|t| - 3]) && Decimal.AllDigits(t[|t| - 2..])
  }

  /** An optional leading `-`, then an unsigned two-decimal number. */
  predicate Form(s: string) {
    if |s| >= 1 && s[0] == '-' then UnsignedForm(s[1..]) else UnsignedForm(s)
  }

  function UnsignedValue(t: string): real
    requires UnsignedForm(t)
  {
    Decimal.Value(t[..|t| - 3]) as real + Decimal.Value(t[|t| - 2..]) as real / 100.0
  }

  /** The amount a two-decimal string denotes. */
  function ValueOf(s: string): real
    requires Form(s)
  {
    if |s| >= 1 && s[0] == '-' then -UnsignedValue(s[1..]) else UnsignedValue(s)
  }

  lemma UnsignedRounds(x: real, show: real -> string)
    requires 0.0 <= x < Limit
    ensures UnsignedForm(Unsigned(x, show))
    ensures Unsigned(x, show)[0] != '-'
    ensures UnsignedValue(Unsigned(x, show)) == Cents(x) as real / 100.0
    ensures -0.005 < UnsignedValue(Unsigned(x, show)) - x <= 0.005
  {
    var n := Cents(x);
    CentsNearest(x);
    var q, r := Decimal.NatToString(n / 100), Decimal.Pad(n % 100, 2);
    var t := q + ['.'] + r;
    assert t[..|t| - 3] == q;
    assert t[|t| - 2..] == r;
    assert t[0] == q[0];
    Decimal.NatToStringValue(n / 100);
    Decimal.PadValue(n % 100, 2);
    assert UnsignedValue(t) == (n / 100) as real + (n % 100) as real / 100.0;
    assert (n / 100) * 100 + n % 100 == n;
    assert UnsignedValue(t) == n as real / 100.0;
  }

  /**
   * Below 10^21 in size, toFixed(2) writes a two-decimal number that reads
   * back within half a hundredth of the amount, with a `-` exactly when the
   * amount is negative.
   */
  lemma ToFixed2Rounds(x: real, show: real -> string)
    requires -Limit < x < Limit
    ensures Form(ToFixed2(x, show))
    ensures ToFixed2(x, show)[0] == '-' <==> x < 0.0
    ensures -0.005 <= ValueOf(ToFixed2(x, show)) - x <= 0.005
  {
    var s := ToFixed2(x, show);
    if x < 0.0 {
      UnsignedRounds(-x, show);
      Negative(x, show);
    } else {
      UnsignedRounds(x, show);
    }
  }

  /** A zero amount, such as a missing payment, is written `0.00`. */
  lemma ZeroWritten(show: real -> string)
    ensures ToFixed2(0.0, show) == "0.00"
  {
    assert Cents(0.0) == 0;
    assert Decimal.Pad(0, 2) == "00";
  }

  /** A negative amount is written as `-` and its magnitude. */
  lemma Negative(x: real, show: real -> string)
    requires x < 0.0 && UnsignedForm(Unsigned(-x, show))
    ensures Form(ToFixed2(x, show)) && ToFixed2(x, show)[0] == '-'
    ensures ValueOf(ToFixed2(x, show)) == -UnsignedValue(Unsigned(-x, show))
  {
    var s := ToFixed2(x, show);
    assert s[1..] == Unsigned(-x, show);
  }

  /** A whole number of hundredths, from zero up, is written exactly. */
  lemma UnsignedExact(k: nat, show: real -> string)
    requires k < 100000000000000000000000
    ensures UnsignedForm(Unsigned(k as real / 100.0, show))
    ensures Unsigned(k as real / 100.0, show)[0] != '-'
    ensures UnsignedValue(Unsigned(k as real / 100.0, show)) == k as real / 100.0
  {
    CentsWhole(k);
    UnsignedRounds(k as real / 100.0, show);
  }

  lemma CentsWhole(k: nat)
    ensures Cents(k as real / 100.0) == k
  {
    var x := k as real / 100.0;
    assert 100.0 * x + 0.5 == k as real + 0.5;
  }
}
