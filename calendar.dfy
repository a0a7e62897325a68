/**
 * Calendar dates and their `YYYY-MM-DD` keys: the part of date-fns the ledger
 * relies on (`format(day, 'yyyy-MM-dd')`, `parseISO`, `eachDayOfInterval`, and
 * the comparison of parsed dates), over the proleptic Gregorian calendar.
 */
module Calendar {
  import opened Wrappers
  import Decimal
  import Lexical

  datatype Date = Date(year: int, month: int, day: int)

  predicate IsLeapYear(y: int) {
    y % 4 == 0 && (y % 100 != 0 || y % 400 == 0)
  }

  function DaysInMonth(y: int, m: int): (n: int)
    requires 1 <= m <= 12
    ensures 28 <= n <= 31
  {
    if m == 2 then (if IsLeapYear(y) then 29 else 28)
    else if m == 4 || m == 6 || m == 9 || m == 11 then 30
    else 31
  }

  function DaysInYear(y: int): int {
    if IsLeapYear(y) then 366 else 365
  }

  /** A real calendar day with a four-digit year. */
  predicate Valid(d: Date) {
    0 <= d.year <= 9999 && 1 <= d.month <= 12 && 1 <= d.day <= DaysInMonth(d.year, d.month)
  }

  function DaysBeforeYear(y: nat): nat {
    if y == 0 then 0 else DaysBeforeYear(y - 1) + DaysInYear(y - 1)
  }

  /** Days of year `y` before the first of month `m` (`m == 13` gives the whole year). */
  function DaysBeforeMonth(y: int, m: int): (n: nat)
    requires 1 <= m <= 13
    ensures m == 13 ==> n == DaysInYear(y)
  {
    var leap := if IsLeapYear(y) && m > 2 then 1 else 0;
    [0, 31, 59, 90, 120, 151, 181, 212, 243, 273, 304, 334, 365][m - 1] + leap
  }

  lemma DaysBeforeNextMonth(y: int, m: int)
    requires 1 <= m <= 12
    ensures DaysBeforeMonth(y, m) + DaysInMonth(y, m) == DaysBeforeMonth(y, m + 1)
  {
  }

  /** Days since 0000-01-01: the position of the date on the time line. */
  function Ordinal(d: Date): int
    requires Valid(d)
  {
    DaysBeforeYear(d.year) + DaysBeforeMonth(d.year, d.month) + d.day - 1
  }

  /** Year, then month, then day. */
  predicate Before(a: Date, b: Date) {
    a.year < b.year
    || (a.year == b.year && a.month < b.month)
    || (a.year == b.year && a.month == b.month && a.day < b.day)
  }

  lemma {:induction false} DaysBeforeYearGrows(y1: nat, y2: nat)
    requires y1 < y2
    ensures DaysBeforeYear(y1) + DaysInYear(y1) <= DaysBeforeYear(y2)
    decreases y2
  {
    if y1 < y2 - 1 { DaysBeforeYearGrows(y1, y2 - 1); }
  }

  lemma {:induction false} DaysBeforeMonthGrows(y: int, m1: int, m2: int)
    requires 1 <= m1 < m2 <= 13
    ensures DaysBeforeMonth(y, m1) + DaysInMonth(y, m1) <= DaysBeforeMonth(y, m2)
    decreases m2
  {
    DaysBeforeNextMonth(y, m1);
    if m1 < m2 - 1 {
      DaysBeforeMonthGrows(y, m1, m2 - 1);
      DaysBeforeNextMonth(y, m2 - 1);
    }
  }

  /** The time line orders valid dates by year, month and day. */
  lemma OrdinalOrder(a: Date, b: Date)
    requires Valid(a) && Valid(b)
    ensures Ordinal(a) < Ordinal(b) <==> Before(a, b)
    ensures Ordinal(a) == Ordinal(b) <==> a == b
  {
    DaysBeforeMonthGrows(a.year, a.month, 13);
    DaysBeforeMonthGrows(b.year, b.month, 13);
    if a.year < b.year {
      DaysBeforeYearGrows(a.year, b.year);
    } else if b.year < a.year {
      DaysBeforeYearGrows(b.year, a.year);
    } else if a.month < b.month {
      DaysBeforeMonthGrows(a.year, a.month, b.month);
    } else if b.month < a.month {
      DaysBeforeMonthGrows(a.year, b.month, a.month);
    }
  }

  /** The calendar day after `d` (`addDays(d, 1)`). */
  function NextDay(d: Date): (n: Date)
    requires Valid(d) && d != Date(9999, 12, 31)
    ensures Valid(n) && Ordinal(n) == Ordinal(d) + 1
  {
    DaysBeforeNextMonth(d.year, d.month);
    if d.day < DaysInMonth(d.year, d.month) then Date(d.year, d.month, d.day + 1)
    else if d.month < 12 then Date(d.year, d.month + 1, 1)
    else Date(d.year + 1, 1, 1)
  }

  /**
   * `eachDayOfInterval({ start, end })`: every day from `start` to `end`, both
   * included, in order.
   */
  function Days(start: Date, end: Date): (ds: seq<Date>)
    requires Valid(start) && Valid(end) && Ordinal(start) <= Ordinal(end)
    ensures |ds| == Ordinal(end) - Ordinal(start) + 1
    ensures forall i :: 0 <= i < |ds| ==> Valid(ds[i]) && Ordinal(ds[i]) == Ordinal(start) + i
    decreases Ordinal(end) - Ordinal(start)
  {
    if Ordinal(start) == Ordinal(end) then [start]
    else
      OrdinalOrder(start, end);
      OrdinalOrder(end, Date(9999, 12, 31));
      [start] + Days(NextDay(start), end)
  }

  /** A day belongs to the interval exactly when it lies between its ends. */
  lemma DaysMembership(start: Date, end: Date, d: Date)
    requires Valid(start) && Valid(end) && Ordinal(start) <= Ordinal(end)
    requires Valid(d)
    ensures d in Days(start, end) <==> Ordinal(start) <= Ordinal(d) <= Ordinal(end)
  {
    var ds := Days(start, end);
    if Ordinal(start) <= Ordinal(d) <= Ordinal(end) {
      var i := Ordinal(d) - Ordinal(start);
      OrdinalOrder(ds[i], d);
    }
  }

  // ---- keys -------------------------------------------------------------

  /** `format(d, 'yyyy-MM-dd')` */
  function Key(d: Date): (s: string)
    requires Valid(d)
    ensures |s| == 10
  {
    Decimal.Pad(d.year, 4) + MonthDay(d)
  }

  function MonthDay(d: Date): string
    requires Valid(d)
  {
    (['-'] + Decimal.Pad(d.month, 2)) + (['-'] + Decimal.Pad(d.day, 2))
  }

  /** `parseISO` restricted to `YYYY-MM-DD` keys: `None` stands for an Invalid Date. */
  function ParseKey(s: string): Option<Date> {
    if |s| == 10 && s[4] == '-' && s[7] == '-'
       && Decimal.AllDigits(s[..4]) && Decimal.AllDigits(s[5..7]) && Decimal.AllDigits(s[8..])
    then
      var d := Date(Decimal.Value(s[..4]), Decimal.Value(s[5..7]), Decimal.Value(s[8..]));
      if Valid(d) then Some(d) else None
    else None
  }

  /** Reading back a formatted key gives the date back. */
  lemma KeyRoundTrip(d: Date)
    requires Valid(d)
    ensures ParseKey(Key(d)) == Some(d)
  {
    var s := Key(d);
    assert s[..4] == Decimal.Pad(d.year, 4);
    assert s[5..7] == Decimal.Pad(d.month, 2);
    assert s[8..] == Decimal.Pad(d.day, 2);
    Decimal.PadValue(d.year, 4);
    Decimal.PadValue(d.month, 2);
    Decimal.PadValue(d.day, 2);
  }

  /** A string that parses is the key of the date it parses to: keys are canonical. */
  lemma ParseKeyCanonical(s: string)
    requires ParseKey(s).Some?
    ensures Valid(ParseKey(s).value) && Key(ParseKey(s).value) == s
  {
    Decimal.ValuePad(s[..4]);
    Decimal.ValuePad(s[5..7]);
    Decimal.ValuePad(s[8..]);
    assert s == s[..4] + ((s[4..5] + s[5..7]) + (s[7..8] + s[8..]));
  }

  lemma KeyInjective(a: Date, b: Date)
    requires Valid(a) && Valid(b) && Key(a) == Key(b)
    ensures a == b
  {
    KeyRoundTrip(a);
    KeyRoundTrip(b);
  }

  /**
   * On well-formed keys, JavaScript's string order is the order of the dates on the
   * time line, so sorting keys as strings sorts them as `Date.getTime()` would.
   */
  lemma KeyOrderIsChronological(a: Date, b: Date)
    requires Valid(a) && Valid(b)
    ensures Lexical.Less(Key(a), Key(b)) <==> Ordinal(a) < Ordinal(b)
  {
    OrdinalOrder(a, b);
    var ya, yb := Decimal.Pad(a.year, 4), Decimal.Pad(b.year, 4);
    var ma, mb := ['-'] + Decimal.Pad(a.month, 2), ['-'] + Decimal.Pad(b.month, 2);
    var da, db := ['-'] + Decimal.Pad(a.day, 2), ['-'] + Decimal.Pad(b.day, 2);
    Lexical.BlockwiseLess(ya, ma + da, yb, mb + db);
    Lexical.BlockwiseLess(ma, da, mb, db);
    Lexical.BlockwiseLess(['-'], Decimal.Pad(a.month, 2), ['-'], Decimal.Pad(b.month, 2));
    Lexical.BlockwiseLess(['-'], Decimal.Pad(a.day, 2), ['-'], Decimal.Pad(b.day, 2));
    Lexical.Irreflexive(['-']);
    Decimal.PadLess(a.year, b.year, 4);
    Decimal.PadLess(a.month, b.month, 2);
    Decimal.PadLess(a.day, b.day, 2);
    if ya == yb { Decimal.PadInjective(a.year, b.year, 4); }
    if ma == mb {
      assert ma[1..] == Decimal.Pad(a.month, 2) && mb[1..] == Decimal.Pad(b.month, 2);
      Decimal.PadInjective(a.month, b.month, 2);
    }
  }
}
