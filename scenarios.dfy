/**
 * A worked example on concrete figures: two litres at 60 entered for
 * 1 March 2024, first unpaid and then paid in full.
 */
module Scenarios {
  import opened Wrappers
  import opened Records
  import App
  import Aggregates
  import Calendar
  import Decimal

  /** 1 March 2024, as the calendar keys it. */
  const March1: string := Calendar.Key(Calendar.Date(2024, 3, 1))

  lemma March1IsInMarch()
    ensures Calendar.ParseKey(March1) == Some(Calendar.Date(2024, 3, 1))
  {
    Calendar.KeyRoundTrip(Calendar.Date(2024, 3, 1));
  }

  /** The key is written `2024-03-01`. */
  lemma March1Text()
    ensures March1 == "2024-03-01"
  {
    YearDigits();
    MonthDayDigits();
    assert March1 == "2024" + (['-'] + "03") + (['-'] + "01");
  }

  lemma YearDigits()
    ensures Decimal.Pad(2024, 4) == "2024"
  {
    assert Decimal.Pad(2, 1) == "2";
    assert Decimal.Pad(20, 2) == "20";
    assert Decimal.Pad(202, 3) == "202";
  }

  lemma MonthDayDigits()
    ensures Decimal.Pad(3, 2) == "03" && Decimal.Pad(1, 2) == "01"
  {
    assert Decimal.Pad(0, 1) == "0";
  }

  /** A one-record list of a March record: March's figures are a single fold step from zero. */
  lemma MarchOfOne(r: Record)
    requires r.date == March1
    ensures Aggregates.MonthStats(Aggregates.MonthRecords([r], 2024, 3)) == Aggregates.Step(Aggregates.Zero, r)
  {
    March1IsInMarch();
    assert Aggregates.InMonth(r, 2024, 3);
    Aggregates.MonthRecordsOfOne(r, 2024, 3);
    assert [r][1..] == [];
    assert Aggregates.Fold(Aggregates.Zero, [r]) == Aggregates.Fold(Aggregates.Step(Aggregates.Zero, r), []);
  }

  /** Saving a day onto a list that holds at most that day leaves exactly the entered record. */
  lemma SaveOnto(rs: seq<Record>, qty: real, price: real, payment: real)
    requires rs == [] || (|rs| == 1 && rs[0].date == March1 && rs[0].notes == None)
    requires qty != 0.0
    ensures App.SaveEntryResult(rs, March1, qty, price, payment) == [App.EntryRecord(March1, qty, price, payment)]
  {
    if rs != [] {
      assert rs[0].date in Dates(rs);
    }
  }

  /** Two litres at 60 with nothing paid: March owes 120. */
  lemma FirstEntryOwed()
    ensures var first := [App.EntryRecord(March1, 2.0, 60.0, 0.0)];
      Aggregates.MonthStats(Aggregates.MonthRecords(first, 2024, 3)) == Aggregates.Stats(2.0, 120.0, 0.0, 120.0)
  {
    var r := App.EntryRecord(March1, 2.0, 60.0, 0.0);
    assert r == Record(March1, March1, 2.0, 60.0, false, Some(0.0), None);
    MarchOfOne(r);
    OwedStep(r);
  }

  lemma OwedStep(r: Record)
    requires r.quantity == 2.0 && r.pricePerUnit == 60.0 && r.paymentAmount == Some(0.0)
    ensures Aggregates.Step(Aggregates.Zero, r) == Aggregates.Stats(2.0, 120.0, 0.0, 120.0)
  {
    assert Cost(r) == 120.0 && Paid(r) == 0.0;
  }

  /** Entering the payment of 120 on the same day marks it paid and clears March's balance. */
  lemma SecondEntryPaid()
    ensures var second := App.SaveEntryResult([App.EntryRecord(March1, 2.0, 60.0, 0.0)], March1, 2.0, 60.0, 120.0);
      && |second| == 1 && second[0].isPaid && second[0].paymentAmount == Some(120.0)
      && Aggregates.MonthStats(Aggregates.MonthRecords(second, 2024, 3)).balance == 0.0
  {
    SaveOnto([App.EntryRecord(March1, 2.0, 60.0, 0.0)], 2.0, 60.0, 120.0);
    var r := App.EntryRecord(March1, 2.0, 60.0, 120.0);
    assert r == Record(March1, March1, 2.0, 60.0, true, Some(120.0), None);
    MarchOfOne(r);
    assert Cost(r) == 120.0 && Paid(r) == 120.0;
  }

  /**
   * On an empty ledger, the entry shows in March's totals as owed in full; after
   * the payment is entered the day is paid and March's balance is 0.
   */
  lemma MarchExample()
    ensures var first := App.SaveEntryResult([], March1, 2.0, 60.0, 0.0);
      && Aggregates.MonthStats(Aggregates.MonthRecords(first, 2024, 3)) == Aggregates.Stats(2.0, 120.0, 0.0, 120.0)
      && var second := App.SaveEntryResult(first, March1, 2.0, 60.0, 120.0);
      && |second| == 1 && second[0].isPaid && second[0].paymentAmount == Some(120.0)
      && Aggregates.MonthStats(Aggregates.MonthRecords(second, 2024, 3)).balance == 0.0
  {
    SaveOnto([], 2.0, 60.0, 0.0);
    FirstEntryOwed();
    SecondEntryPaid();
  }
}
