/**
 * The dashboard figures: the month's totals (a `reduce` over the records of
 * the displayed month) and the all-time balance (a `reduce` over every record).
 * A missing payment counts as 0.
 */
module Aggregates {
  import opened Wrappers
  import opened Records
  import Calendar

  datatype Stats = Stats(totalQuantity: real, totalCost: real, totalPaid: real, balance: real)

  const Zero: Stats := Stats(0.0, 0.0, 0.0, 0.0)

  /** One step of the month fold. */
  function Step(acc: Stats, r: Record): Stats {
    Stats(acc.totalQuantity + r.quantity, acc.totalCost + Cost(r),
          acc.totalPaid + Paid(r), acc.balance + (Cost(r) - Paid(r)))
  }

  /** `reduce`: records are folded in from first to last. */
  function Fold(acc: Stats, rs: seq<Record>): Stats
    decreases |rs|
  {
    if rs == [] then acc else Fold(Step(acc, rs[0]), rs[1..])
  }

  /** The figures for a list of records. */
  function MonthStats(rs: seq<Record>): Stats {
    Fold(Zero, rs)
  }

  // ---- reference sums -----------------------------------------------------

  function TotalQuantity(rs: seq<Record>): real {
    if rs == [] then 0.0 else rs[0].quantity + TotalQuantity(rs[1..])
  }

  function TotalCost(rs: seq<Record>): real {
    if rs == [] then 0.0 else Cost(rs[0]) + TotalCost(rs[1..])
  }

  function TotalPaid(rs: seq<Record>): real {
    if rs == [] then 0.0 else Paid(rs[0]) + TotalPaid(rs[1..])
  }

  /** Folding from any start adds the sums of the records to it, field by field. */
  lemma {:induction false} FoldAddsSums(acc: Stats, rs: seq<Record>)
    decreases |rs|
    ensures Fold(acc, rs) == Stats(acc.totalQuantity + TotalQuantity(rs), acc.totalCost + TotalCost(rs),
                                   acc.totalPaid + TotalPaid(rs), acc.balance + (TotalCost(rs) - TotalPaid(rs)))
  {
    if rs != [] {
      FoldAddsSums(Step(acc, rs[0]), rs[1..]);
    }
  }

  /**
   * The month figures are the sums of quantity, cost and payment over the
   * records, and the balance is total cost minus total paid.
   */
  lemma MonthStatsAreSums(rs: seq<Record>)
    ensures var s := MonthStats(rs);
      && s.totalQuantity == TotalQuantity(rs)
      && s.totalCost == TotalCost(rs)
      && s.totalPaid == TotalPaid(rs)
      && s.balance == s.totalCost - s.totalPaid
  {
    FoldAddsSums(Zero, rs);
  }

  /** Each step of the fold keeps `balance == totalCost - totalPaid`, so every intermediate total does. */
  lemma {:induction false} FoldKeepsBalance(acc: Stats, rs: seq<Record>)
    requires acc.balance == acc.totalCost - acc.totalPaid
    ensures Fold(acc, rs).balance == Fold(acc, rs).totalCost - Fold(acc, rs).totalPaid
    decreases |rs|
  {
    if rs != [] {
      FoldKeepsBalance(Step(acc, rs[0]), rs[1..]);
    }
  }

  // ---- the displayed month ---------------------------------------------------

  /** The record's date key falls in the given month (1 to 12) of the given year. */
  predicate InMonth(r: Record, year: int, month: int) {
    match Calendar.ParseKey(r.date)
    case Some(d) => d.year == year && d.month == month
    case None => false
  }

  /** `rs.filter(keep)`: the records that pass `keep`, in list order. */
  function Filter(rs: seq<Record>, keep: Record -> bool): (r: seq<Record>)
    ensures forall x :: x in r <==> x in rs && keep(x)
  {
    if rs == [] then []
    else (if keep(rs[0]) then [rs[0]] else []) + Filter(rs[1..], keep)
  }

  /** The test of currentMonthRecords: the record is dated in the given month. */
  function MonthTest(year: int, month: int): Record -> bool {
    r => InMonth(r, year, month)
  }

  /** Its complement: the record is dated outside that month (or has no valid date). */
  function OtherTest(year: int, month: int): Record -> bool {
    r => !InMonth(r, year, month)
  }

  /** currentMonthRecords: the records of one month, in list order. */
  function MonthRecords(rs: seq<Record>, year: int, month: int): (r: seq<Record>)
    ensures forall x :: x in r <==> x in rs && InMonth(x, year, month)
  {
    Filter(rs, MonthTest(year, month))
  }

  /** The records outside that month, in list order. */
  function OtherRecords(rs: seq<Record>, year: int, month: int): (r: seq<Record>)
    ensures forall x :: x in r <==> x in rs && !InMonth(x, year, month)
  {
    Filter(rs, OtherTest(year, month))
  }

  lemma FilterOfOne(r: Record, keep: Record -> bool)
    ensures Filter([r], keep) == if keep(r) then [r] else []
  {
    assert [r][1..] == [];
  }

  /** A filter keeps records in list order, each as often as it occurs: it distributes over concatenation. */
  lemma {:induction false} FilterAppend(a: seq<Record>, b: seq<Record>, keep: Record -> bool)
    ensures Filter(a + b, keep) == Filter(a, keep) + Filter(b, keep)
    decreases |a|
  {
    if a == [] {
      assert a + b == b;
    } else {
      var ab := a + b;
      assert ab[0] == a[0] && ab[1..] == a[1..] + b;
      FilterAppend(a[1..], b, keep);
    }
  }

  /** A filter and its complement share out the records: each lands in exactly one part, as often as it occurs. */
  lemma {:induction false} FilterSplit(rs: seq<Record>, keep: Record -> bool, drop: Record -> bool)
    requires forall x :: drop(x) == !keep(x)
    ensures multiset(Filter(rs, keep)) + multiset(Filter(rs, drop)) == multiset(rs)
    decreases |rs|
  {
    if rs != [] {
      var h, t := rs[0], rs[1..];
      FilterSplit(t, keep, drop);
      assert rs == [h] + t;
      var inside, outside := Filter(t, keep), Filter(t, drop);
      if keep(h) {
        assert Filter(rs, keep) == [h] + inside && Filter(rs, drop) == outside;
        assert multiset([h] + inside) == multiset{h} + multiset(inside);
      } else {
        assert Filter(rs, drop) == [h] + outside && Filter(rs, keep) == inside;
        assert multiset([h] + outside) == multiset{h} + multiset(outside);
      }
      assert multiset(rs) == multiset{h} + multiset(t);
    }
  }

  /** Cost and payment totals split the same way. */
  lemma {:induction false} FilterSums(rs: seq<Record>, keep: Record -> bool, drop: Record -> bool)
    requires forall x :: drop(x) == !keep(x)
    ensures TotalCost(rs) == TotalCost(Filter(rs, keep)) + TotalCost(Filter(rs, drop))
    ensures TotalPaid(rs) == TotalPaid(Filter(rs, keep)) + TotalPaid(Filter(rs, drop))
    decreases |rs|
  {
    if rs != [] {
      FilterSums(rs[1..], keep, drop);
      var inside, outside := Filter(rs[1..], keep), Filter(rs[1..], drop);
      if keep(rs[0]) {
        assert Filter(rs, keep) == [rs[0]] + inside && Filter(rs, drop) == outside;
        assert ([rs[0]] + inside)[1..] == inside;
      } else {
        assert Filter(rs, drop) == [rs[0]] + outside && Filter(rs, keep) == inside;
        assert ([rs[0]] + outside)[1..] == outside;
      }
    }
  }

  /** A single record is kept by exactly one of the two month filters. */
  lemma MonthRecordsOfOne(r: Record, year: int, month: int)
    ensures MonthRecords([r], year, month) == if InMonth(r, year, month) then [r] else []
    ensures OtherRecords([r], year, month) == if InMonth(r, year, month) then [] else [r]
  {
    FilterOfOne(r, MonthTest(year, month));
    FilterOfOne(r, OtherTest(year, month));
  }

  /** Both month filters keep the records in list order, each as often as it occurs. */
  lemma MonthRecordsAppend(a: seq<Record>, b: seq<Record>, year: int, month: int)
    ensures MonthRecords(a + b, year, month) == MonthRecords(a, year, month) + MonthRecords(b, year, month)
    ensures OtherRecords(a + b, year, month) == OtherRecords(a, year, month) + OtherRecords(b, year, month)
  {
    FilterAppend(a, b, MonthTest(year, month));
    FilterAppend(a, b, OtherTest(year, month));
  }

  /** The displayed month and the rest together hold every record exactly as often as the list does. */
  lemma MonthSplitMultiset(rs: seq<Record>, year: int, month: int)
    ensures multiset(MonthRecords(rs, year, month)) + multiset(OtherRecords(rs, year, month)) == multiset(rs)
  {
    FilterSplit(rs, MonthTest(year, month), OtherTest(year, month));
  }

  // ---- all time -------------------------------------------------------------

  /** globalBalance: `reduce` of cost minus payment over every record. */
  function BalanceFold(bal: real, rs: seq<Record>): real
    decreases |rs|
  {
    if rs == [] then bal else BalanceFold(bal + (Cost(rs[0]) - Paid(rs[0])), rs[1..])
  }

  function GlobalBalance(rs: seq<Record>): real {
    BalanceFold(0.0, rs)
  }

  lemma {:induction false} BalanceFoldAdds(bal: real, rs: seq<Record>)
    decreases |rs|
    ensures BalanceFold(bal, rs) == bal + TotalCost(rs) - TotalPaid(rs)
  {
    if rs != [] {
      BalanceFoldAdds(bal + (Cost(rs[0]) - Paid(rs[0])), rs[1..]);
    }
  }

  /** The all-time balance is everything owed minus everything paid. */
  lemma GlobalBalanceIsCostMinusPaid(rs: seq<Record>)
    ensures GlobalBalance(rs) == TotalCost(rs) - TotalPaid(rs)
  {
    BalanceFoldAdds(0.0, rs);
  }

  /**
   * The all-time balance splits into the displayed month's balance and the
   * balance of all other records, whichever month is displayed.
   */
  lemma {:induction false} GlobalBalanceSplits(rs: seq<Record>, year: int, month: int)
    ensures GlobalBalance(rs) == MonthStats(MonthRecords(rs, year, month)).balance
                                 + GlobalBalance(OtherRecords(rs, year, month))
  {
    SumsSplit(rs, year, month);
    GlobalBalanceIsCostMinusPaid(rs);
    GlobalBalanceIsCostMinusPaid(OtherRecords(rs, year, month));
    MonthStatsAreSums(MonthRecords(rs, year, month));
  }

  lemma SumsSplit(rs: seq<Record>, year: int, month: int)
    ensures TotalCost(rs) == TotalCost(MonthRecords(rs, year, month)) + TotalCost(OtherRecords(rs, year, month))
    ensures TotalPaid(rs) == TotalPaid(MonthRecords(rs, year, month)) + TotalPaid(OtherRecords(rs, year, month))
  {
    FilterSums(rs, MonthTest(year, month), OtherTest(year, month));
  }
}
