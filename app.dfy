/**
 * The App component's ledger handlers: saving or clearing one day, filling a
 * date range, settling a date range, and the "last used" quantity and price
 * that prefill a new entry.
 */
module App {
  import opened Wrappers
  import opened Records
  import opened Ledger
  import C = Calendar
  import S = StorageService
  import DayCell
  import Lexical

  // ---- one day -----------------------------------------------------------------

  /**
   * The record handleSaveEntry writes for day `key`: it counts as paid exactly
   * when the calendar cell would show it as fully paid.
   */
  function EntryRecord(key: string, qty: real, price: real, payment: real): (r: Record)
    ensures r.id == key && r.date == key
  {
    Record(key, key, qty, price, Covers(payment, qty * price) && qty > 0.0, Some(payment), None)
  }

  /** The saved record is marked paid exactly when the calendar shows it fully paid. */
  lemma EntryRecordPaid(key: string, qty: real, price: real, payment: real)
    ensures var r := EntryRecord(key, qty, price, payment);
      r.isPaid <==> DayCell.StatusOf(DayCell.ViewOf(Some(r))) == DayCell.FullyPaid
  {
  }

  /** What handleSaveEntry does to the list: clear the day when nothing is entered, otherwise save it. */
  function SaveEntryResult(rs: seq<Record>, key: string, qty: real, price: real, payment: real): seq<Record> {
    if qty == 0.0 && payment == 0.0 then RemoveId(rs, key) else Upsert(rs, EntryRecord(key, qty, price, payment))
  }

  /**
   * After a save, looking up the day gives nothing when quantity and payment
   * were both 0, otherwise the entered figures with the day's notes kept;
   * every other day is as before.
   */
  lemma SaveEntryFind(rs: seq<Record>, key: string, qty: real, price: real, payment: real, d: string)
    requires IdsAreDates(rs)
    ensures Find(SaveEntryResult(rs, key, qty, price, payment), d) ==
      if d != key then Find(rs, d)
      else if qty == 0.0 && payment == 0.0 then None
      else Some(EntryRecord(key, qty, price, payment).(notes := if Find(rs, key).Some? then Find(rs, key).value.notes else None))
  {
    if qty == 0.0 && payment == 0.0 {
      RemoveIdFind(rs, key, d);
    } else {
      UpsertFind(rs, EntryRecord(key, qty, price, payment), d);
    }
  }

  /** Saving a day keeps one record per date, each with its date as id. */
  lemma SaveEntryKeepsShape(rs: seq<Record>, key: string, qty: real, price: real, payment: real)
    requires DistinctDates(rs) && IdsAreDates(rs)
    ensures var r := SaveEntryResult(rs, key, qty, price, payment);
      DistinctDates(r) && IdsAreDates(r)
  {
    if qty == 0.0 && payment == 0.0 {
      RemoveIdKeepsDatesDistinct(rs, key);
      RemoveIdFind(rs, key, key);
    } else {
      UpsertKeepsDatesDistinct(rs, EntryRecord(key, qty, price, payment));
    }
  }

  /** A save or a clear keeps every record carrying a payment. */
  lemma SaveEntryMigrated(rs: seq<Record>, key: string, qty: real, price: real, payment: real)
    requires AllMigrated(rs)
    ensures AllMigrated(SaveEntryResult(rs, key, qty, price, payment))
  {
  }

  // ---- a date range ---------------------------------------------------------------

  /** The payment already recorded for a day, 0 when there is none. */
  function PaidOn(rs: seq<Record>, key: string): real {
    match Find(rs, key)
    case Some(e) => Paid(e)
    case None => 0.0
  }

  /**
   * handleBulkAdd's record for day `k`: the given quantity and price, the day's
   * existing payment carried over, and the paid flag compared without tolerance.
   */
  function Filled(rs: seq<Record>, k: string, qty: real, price: real): Record {
    Record(k, k, qty, price, PaidOn(rs, k) >= qty * price, Some(PaidOn(rs, k)), None)
  }

  /** The records handleBulkAdd builds, one per day of `days`, in order. */
  function Fill(rs: seq<Record>, days: seq<C.Date>, qty: real, price: real): (f: seq<Record>)
    requires forall i :: 0 <= i < |days| ==> C.Valid(days[i])
    ensures |f| == |days|
    ensures forall i :: 0 <= i < |days| ==> f[i] == Filled(rs, C.Key(days[i]), qty, price)
  {
    seq(|days|, i requires 0 <= i < |days| => Filled(rs, C.Key(days[i]), qty, price))
  }

  /** A key names a valid day between `start` and `end`, inclusive. */
  predicate InRangeKey(k: string, start: C.Date, end: C.Date)
    requires C.Valid(start) && C.Valid(end)
  {
    match C.ParseKey(k)
    case Some(d) => C.Ordinal(start) <= C.Ordinal(d) <= C.Ordinal(end)
    case None => false
  }

  /** What handleBulkAdd does to the list. */
  function BulkFill(rs: seq<Record>, start: C.Date, end: C.Date, qty: real, price: real): seq<Record>
    requires C.Valid(start) && C.Valid(end) && C.Ordinal(start) <= C.Ordinal(end)
  {
    SaveAll(rs, Fill(rs, C.Days(start, end), qty, price))
  }

  /** The filled records are keyed by the days of the range, once each. */
  lemma FillDates(rs: seq<Record>, start: C.Date, end: C.Date, qty: real, price: real)
    requires C.Valid(start) && C.Valid(end) && C.Ordinal(start) <= C.Ordinal(end)
    ensures var f := Fill(rs, C.Days(start, end), qty, price);
      && DistinctDates(f)
      && (forall k :: k in Dates(f) <==> InRangeKey(k, start, end))
  {
    FillDatesDistinct(rs, start, end, qty, price);
    var f := Fill(rs, C.Days(start, end), qty, price);
    forall k
      ensures k in Dates(f) <==> InRangeKey(k, start, end)
    {
      FillDateInRange(rs, start, end, qty, price, k);
    }
  }

  lemma FillDatesDistinct(rs: seq<Record>, start: C.Date, end: C.Date, qty: real, price: real)
    requires C.Valid(start) && C.Valid(end) && C.Ordinal(start) <= C.Ordinal(end)
    ensures DistinctDates(Fill(rs, C.Days(start, end), qty, price))
  {
    var days := C.Days(start, end);
    var f := Fill(rs, days, qty, price);
    forall i, j | 0 <= i < j < |f|
      ensures f[i].date != f[j].date
    {
      if f[i].date == f[j].date {
        C.KeyInjective(days[i], days[j]);
      }
    }
  }

  lemma FillDateInRange(rs: seq<Record>, start: C.Date, end: C.Date, qty: real, price: real, k: string)
    requires C.Valid(start) && C.Valid(end) && C.Ordinal(start) <= C.Ordinal(end)
    ensures k in Dates(Fill(rs, C.Days(start, end), qty, price)) <==> InRangeKey(k, start, end)
  {
    if k in Dates(Fill(rs, C.Days(start, end), qty, price)) {
      FilledDayInRange(rs, start, end, qty, price, k);
    }
    if InRangeKey(k, start, end) {
      DayInRangeFilled(rs, start, end, qty, price, k);
    }
  }

  lemma FilledDayInRange(rs: seq<Record>, start: C.Date, end: C.Date, qty: real, price: real, k: string)
    requires C.Valid(start) && C.Valid(end) && C.Ordinal(start) <= C.Ordinal(end)
    requires k in Dates(Fill(rs, C.Days(start, end), qty, price))
    ensures InRangeKey(k, start, end)
  {
    var days := C.Days(start, end);
    var f := Fill(rs, days, qty, price);
    var i :| 0 <= i < |f| && f[i].date == k;
    assert k == C.Key(days[i]);
    C.KeyRoundTrip(days[i]);
  }

  lemma DayInRangeFilled(rs: seq<Record>, start: C.Date, end: C.Date, qty: real, price: real, k: string)
    requires C.Valid(start) && C.Valid(end) && C.Ordinal(start) <= C.Ordinal(end)
    requires InRangeKey(k, start, end)
    ensures k in Dates(Fill(rs, C.Days(start, end), qty, price))
  {
    var days := C.Days(start, end);
    var f := Fill(rs, days, qty, price);
    var d := C.ParseKey(k).value;
    C.ParseKeyCanonical(k);
    C.DaysMembership(start, end, d);
    var i :| 0 <= i < |days| && days[i] == d;
    assert f[i].date == k;
  }

  /**
   * After a range fill over a list with one record per date, every day of the
   * range holds one record with the given quantity and price, its date as id,
   * and the payment it had before (0 if none); every other date is as before.
   */
  lemma BulkFillFind(rs: seq<Record>, start: C.Date, end: C.Date, qty: real, price: real, k: string)
    requires DistinctDates(rs)
    requires C.Valid(start) && C.Valid(end) && C.Ordinal(start) <= C.Ordinal(end)
    ensures Find(BulkFill(rs, start, end, qty, price), k) ==
      if InRangeKey(k, start, end) then Some(Filled(rs, k, qty, price)) else Find(rs, k)
  {
    var f := Fill(rs, C.Days(start, end), qty, price);
    FillDates(rs, start, end, qty, price);
    SaveAllFind(rs, f, k);
    if InRangeKey(k, start, end) {
      var i :| 0 <= i < |f| && f[i].date == k;
      LastWithDateOfDistinct(f, i);
    }
  }

  /** A range fill keeps one record per date and adds exactly the range's missing days. */
  lemma BulkFillDates(rs: seq<Record>, start: C.Date, end: C.Date, qty: real, price: real)
    requires C.Valid(start) && C.Valid(end) && C.Ordinal(start) <= C.Ordinal(end)
    ensures var r := BulkFill(rs, start, end, qty, price);
      && DistinctDates(r)
      && forall k :: k in Dates(r) <==> k in Dates(rs) || InRangeKey(k, start, end)
  {
    FillDates(rs, start, end, qty, price);
    SaveAllDates(rs, Fill(rs, C.Days(start, end), qty, price));
  }

  /**
   * Filling the same range twice, whatever the prices, leaves every day of the
   * range with the payment it had before the first fill.
   */
  lemma BulkFillTwiceKeepsPayments(rs: seq<Record>, start: C.Date, end: C.Date,
                                   qty1: real, price1: real, qty2: real, price2: real, k: string)
    requires DistinctDates(rs)
    requires C.Valid(start) && C.Valid(end) && C.Ordinal(start) <= C.Ordinal(end)
    requires InRangeKey(k, start, end)
    ensures var once := BulkFill(rs, start, end, qty1, price1);
      Find(BulkFill(once, start, end, qty2, price2), k) == Some(Filled(rs, k, qty2, price2))
  {
    var once := BulkFill(rs, start, end, qty1, price1);
    BulkFillFind(rs, start, end, qty1, price1, k);
    assert PaidOn(once, k) == PaidOn(rs, k);
    BulkFillDates(rs, start, end, qty1, price1);
    BulkFillFind(once, start, end, qty2, price2, k);
  }

  /** A range fill keeps every record keyed by its date: each record's id is its date. */
  lemma BulkFillIdsAreDates(rs: seq<Record>, start: C.Date, end: C.Date, qty: real, price: real)
    requires IdsAreDates(rs)
    requires C.Valid(start) && C.Valid(end) && C.Ordinal(start) <= C.Ordinal(end)
    ensures IdsAreDates(BulkFill(rs, start, end, qty, price))
  {
    var f := Fill(rs, C.Days(start, end), qty, price);
    var r := SaveAll(rs, f);
    SaveAllMembers(rs, f);
    forall i | 0 <= i < |r|
      ensures r[i].id == r[i].date
    {
      if r[i] in rs {
        var j :| 0 <= j < |rs| && rs[j] == r[i];
      } else {
        var j :| 0 <= j < |f| && f[j] == r[i];
      }
    }
  }

  lemma BulkFillMigrated(rs: seq<Record>, start: C.Date, end: C.Date, qty: real, price: real)
    requires AllMigrated(rs)
    requires C.Valid(start) && C.Valid(end) && C.Ordinal(start) <= C.Ordinal(end)
    ensures AllMigrated(BulkFill(rs, start, end, qty, price))
  {
    var f := Fill(rs, C.Days(start, end), qty, price);
    var r := SaveAll(rs, f);
    SaveAllMembers(rs, f);
    forall i | 0 <= i < |r|
      ensures r[i].paymentAmount.Some?
    {
      assert r[i] in rs || r[i] in f;
    }
  }

  // ---- settling a range -------------------------------------------------------------

  /** handleBulkPay's filter: the record's date lies between the two range keys. */
  predicate InRange(r: Record, startKey: string, endKey: string) {
    match (C.ParseKey(r.date), C.ParseKey(startKey), C.ParseKey(endKey))
    case (Some(d), Some(s), Some(e)) => C.Ordinal(s) <= C.Ordinal(d) <= C.Ordinal(e)
    case _ => false
  }

  /** The ids of the records in the range, in list order. */
  function RangeIds(rs: seq<Record>, startKey: string, endKey: string): (ids: seq<string>)
    ensures forall i :: 0 <= i < |rs| && InRange(rs[i], startKey, endKey) ==> rs[i].id in ids
    ensures forall id :: id in ids ==> exists i :: 0 <= i < |rs| && InRange(rs[i], startKey, endKey) && rs[i].id == id
  {
    if rs == [] then []
    else
      var rest := RangeIds(rs[1..], startKey, endKey);
      assert forall i :: 1 <= i < |rs| ==> rs[i] == rs[1..][i - 1];
      (if InRange(rs[0], startKey, endKey) then [rs[0].id] else []) + rest
  }

  /** A record is in the range of two date keys exactly when its key names a day between the dates. */
  lemma InRangeOfKeys(r: Record, start: C.Date, end: C.Date)
    requires C.Valid(start) && C.Valid(end)
    ensures InRange(r, C.Key(start), C.Key(end)) <==> InRangeKey(r.date, start, end)
  {
    C.KeyRoundTrip(start);
    C.KeyRoundTrip(end);
  }

  /** What handleBulkPay does to the list. */
  function BulkSettle(rs: seq<Record>, startKey: string, endKey: string): seq<Record> {
    MarkPaid(rs, RangeIds(rs, startKey, endKey))
  }

  /**
   * Settling a range touches only records already in it: nothing is created,
   * each record dated in the range is paid its cost, every other record is
   * unchanged.
   */
  lemma BulkSettleEffect(rs: seq<Record>, startKey: string, endKey: string)
    requires IdsAreDates(rs)
    ensures var r := BulkSettle(rs, startKey, endKey);
      && |r| == |rs| && Dates(r) == Dates(rs)
      && (forall i :: 0 <= i < |rs| && InRange(rs[i], startKey, endKey) ==> r[i] == Settle(rs[i]))
      && (forall i :: 0 <= i < |rs| && !InRange(rs[i], startKey, endKey) ==> r[i] == rs[i])
  {
    var ids := RangeIds(rs, startKey, endKey);
    var r := MarkPaid(rs, ids);
    forall i | 0 <= i < |rs|
      ensures r[i].date == rs[i].date
    {
      assert r[i].(isPaid := rs[i].isPaid, paymentAmount := rs[i].paymentAmount) == rs[i];
    }
  }

  /** Settling a range keeps one record per date, each with its date as id. */
  lemma BulkSettleKeepsShape(rs: seq<Record>, startKey: string, endKey: string)
    requires DistinctDates(rs) && IdsAreDates(rs)
    ensures var r := BulkSettle(rs, startKey, endKey);
      DistinctDates(r) && IdsAreDates(r)
  {
    var r := BulkSettle(rs, startKey, endKey);
    MarkPaidKeepsKeys(rs, RangeIds(rs, startKey, endKey));
    assert forall i :: 0 <= i < |r| ==> r[i].id == Ids(rs)[i] && r[i].date == Dates(rs)[i];
  }

  /** With no record dated in the range, settling it changes nothing. */
  lemma BulkSettleEmptyRange(rs: seq<Record>, startKey: string, endKey: string)
    requires forall i :: 0 <= i < |rs| ==> !InRange(rs[i], startKey, endKey)
    ensures BulkSettle(rs, startKey, endKey) == rs
  {
    var ids := RangeIds(rs, startKey, endKey);
    assert forall id :: id !in ids;
  }

  /** A payment-only record dated in a settled range ends with a payment of 0, its cost. */
  lemma BulkSettleZeroesPaymentOnly(rs: seq<Record>, startKey: string, endKey: string, i: int)
    requires IdsAreDates(rs) && 0 <= i < |rs|
    requires InRange(rs[i], startKey, endKey) && rs[i].quantity == 0.0
    ensures BulkSettle(rs, startKey, endKey)[i].paymentAmount == Some(0.0)
    ensures BulkSettle(rs, startKey, endKey)[i].quantity == 0.0
  {
    BulkSettleEffect(rs, startKey, endKey);
  }

  /**
   * On an empty ledger, filling a range gives one record per day with the given
   * cost and nothing paid; settling the same range then pays every one of them
   * its cost.
   */
  lemma FillThenSettle(start: C.Date, end: C.Date, qty: real, price: real)
    requires C.Valid(start) && C.Valid(end) && C.Ordinal(start) <= C.Ordinal(end)
    ensures var filled := BulkFill([], start, end, qty, price);
      && |filled| == C.Ordinal(end) - C.Ordinal(start) + 1
      && (forall i :: 0 <= i < |filled| ==>
            && Cost(filled[i]) == qty * price && filled[i].paymentAmount == Some(0.0)
            && filled[i].isPaid == (qty * price <= 0.0))
      && var settled := BulkSettle(filled, C.Key(start), C.Key(end));
      && |settled| == |filled|
      && forall i :: 0 <= i < |settled| ==>
            settled[i].isPaid && settled[i].paymentAmount == Some(qty * price)
  {
    var filled := BulkFill([], start, end, qty, price);
    FillEmptyLedger(start, end, qty, price);
    SettleWholeRange(filled, C.Key(start), C.Key(end), qty * price);
  }

  /** Settling a range that holds every record, each of the same cost, pays each that cost. */
  lemma SettleWholeRange(rs: seq<Record>, startKey: string, endKey: string, cost: real)
    requires IdsAreDates(rs)
    requires forall i :: 0 <= i < |rs| ==> InRange(rs[i], startKey, endKey) && Cost(rs[i]) == cost
    ensures var settled := BulkSettle(rs, startKey, endKey);
      && |settled| == |rs|
      && forall i :: 0 <= i < |settled| ==>
            settled[i].isPaid && settled[i].paymentAmount == Some(cost)
  {
    BulkSettleEffect(rs, startKey, endKey);
  }

  /** The records of a fill on an empty ledger: one per day, nothing paid, all within the range. */
  lemma FillEmptyLedger(start: C.Date, end: C.Date, qty: real, price: real)
    requires C.Valid(start) && C.Valid(end) && C.Ordinal(start) <= C.Ordinal(end)
    ensures var filled := BulkFill([], start, end, qty, price);
      && |filled| == C.Ordinal(end) - C.Ordinal(start) + 1
      && IdsAreDates(filled)
      && forall i :: 0 <= i < |filled| ==>
            && Cost(filled[i]) == qty * price && filled[i].paymentAmount == Some(0.0)
            && filled[i].isPaid == (qty * price <= 0.0)
            && InRange(filled[i], C.Key(start), C.Key(end))
  {
    var f := Fill([], C.Days(start, end), qty, price);
    var filled := SaveAll([], f);
    FillEmptyCount(start, end, qty, price);
    SaveAllMembers([], f);
    forall i | 0 <= i < |filled|
      ensures filled[i].id == filled[i].date
      ensures Cost(filled[i]) == qty * price && filled[i].paymentAmount == Some(0.0)
      ensures filled[i].isPaid == (qty * price <= 0.0)
      ensures InRange(filled[i], C.Key(start), C.Key(end))
    {
      assert filled[i] in f;
      var j :| 0 <= j < |f| && f[j] == filled[i];
      FilledDayOfEmpty(start, end, qty, price, j);
    }
  }

  lemma FilledDayOfEmpty(start: C.Date, end: C.Date, qty: real, price: real, j: int)
    requires C.Valid(start) && C.Valid(end) && C.Ordinal(start) <= C.Ordinal(end)
    requires 0 <= j < |C.Days(start, end)|
    ensures Fill([], C.Days(start, end), qty, price)[j].id == Fill([], C.Days(start, end), qty, price)[j].date
    ensures Cost(Fill([], C.Days(start, end), qty, price)[j]) == qty * price
    ensures Fill([], C.Days(start, end), qty, price)[j].paymentAmount == Some(0.0)
    ensures Fill([], C.Days(start, end), qty, price)[j].isPaid == (qty * price <= 0.0)
    ensures InRange(Fill([], C.Days(start, end), qty, price)[j], C.Key(start), C.Key(end))
  {
    var days := C.Days(start, end);
    var day := days[j];
    var r := Fill([], days, qty, price)[j];
    assert r == Filled([], C.Key(day), qty, price);
    CostIs(r, qty, price);
    assert Find([], C.Key(day)) == None;
    assert r.date == C.Key(day);
    C.KeyRoundTrip(day);
    C.KeyRoundTrip(start);
    C.KeyRoundTrip(end);
    assert C.Ordinal(start) <= C.Ordinal(day) <= C.Ordinal(end);
  }

  lemma CostIs(r: Record, qty: real, price: real)
    requires r.quantity == qty && r.pricePerUnit == price
    ensures Cost(r) == qty * price
  {
  }

  lemma FillEmptyCount(start: C.Date, end: C.Date, qty: real, price: real)
    requires C.Valid(start) && C.Valid(end) && C.Ordinal(start) <= C.Ordinal(end)
    ensures |BulkFill([], start, end, qty, price)| == C.Ordinal(end) - C.Ordinal(start) + 1
  {
    var f := Fill([], C.Days(start, end), qty, price);
    FillDates([], start, end, qty, price);
    SaveAllDates([], f);
    DistinctCard(Dates(f));
    assert (set d | d in Dates([])) + (set d | d in Dates(f)) == (set d | d in Dates(f));
  }

  // ---- the latest record ------------------------------------------------------------

  /**
   * The record a descending, stable sort by date puts first: no record has a
   * later date, and every record before it has an earlier one.
   */
  function LatestIndex(rs: seq<Record>): (k: nat)
    requires rs != []
    ensures k < |rs|
    ensures forall j :: 0 <= j < |rs| ==> !Lexical.Less(rs[k].date, rs[j].date)
    ensures forall j :: 0 <= j < k ==> Lexical.Less(rs[j].date, rs[k].date)
    decreases |rs|
  {
    if |rs| == 1 then Lexical.Irreflexive(rs[0].date); 0
    else
      var k := 1 + LatestIndex(rs[1..]);
      LatestStep(rs, k);
      if Lexical.Less(rs[0].date, rs[k].date) then k else 0
  }

  lemma LatestStep(rs: seq<Record>, k: int)
    requires 1 <= k < |rs|
    requires forall j :: 1 <= j < |rs| ==> !Lexical.Less(rs[k].date, rs[j].date)
    requires forall j :: 1 <= j < k ==> Lexical.Less(rs[j].date, rs[k].date)
    ensures Lexical.Less(rs[0].date, rs[k].date) ==>
      (forall j :: 0 <= j < |rs| ==> !Lexical.Less(rs[k].date, rs[j].date))
      && forall j :: 0 <= j < k ==> Lexical.Less(rs[j].date, rs[k].date)
    ensures !Lexical.Less(rs[0].date, rs[k].date) ==>
      forall j :: 0 <= j < |rs| ==> !Lexical.Less(rs[0].date, rs[j].date)
  {
    if Lexical.Less(rs[0].date, rs[k].date) {
      Lexical.Asymmetric(rs[0].date, rs[k].date);
    } else {
      forall j | 0 <= j < |rs|
        ensures !Lexical.Less(rs[0].date, rs[j].date)
      {
        if j == 0 {
          Lexical.Irreflexive(rs[0].date);
        } else if Lexical.Less(rs[0].date, rs[j].date) {
          Lexical.Total(rs[k].date, rs[j].date);
          Lexical.Total(rs[0].date, rs[k].date);
          if Lexical.Less(rs[k].date, rs[0].date) {
            Lexical.Transitive(rs[k].date, rs[0].date, rs[j].date);
          }
        }
      }
    }
  }

  /** The quantity and price of the latest record, if any: how a fresh session prefills an entry. */
  function InitialConfig(rs: seq<Record>): Option<EntryConfig> {
    if rs == [] then None
    else Some(EntryConfig(rs[LatestIndex(rs)].quantity, rs[LatestIndex(rs)].pricePerUnit))
  }

  // ---- the component's state ----------------------------------------------------------

  class LedgerApp {
    var records: seq<Record>
    var lastEntryConfig: Option<EntryConfig>
    const store: S.LedgerStore

    /** The shown list is what the store would load. */
    ghost predicate Synced()
      reads this, store
    {
      records == store.Load()
    }

    /** The shown list is the store's, with one record per date and each date as its id. */
    ghost predicate Valid()
      reads this, store
    {
      Synced() && DistinctDates(records) && IdsAreDates(records)
    }

    /** The first load: the stored list, and the latest record's quantity and price. */
    constructor(store: S.LedgerStore)
      requires DistinctDates(store.Load()) && IdsAreDates(store.Load())
      ensures this.store == store && Valid()
      ensures lastEntryConfig == InitialConfig(records)
    {
      this.store := store;
      records := store.Load();
      lastEntryConfig := InitialConfig(store.Load());
    }

    /**
     * handleSaveEntry for the selected day: remembers quantity and price when
     * the quantity is positive, then clears the day if quantity and payment are
     * both 0 and saves it otherwise. Without a selected day nothing happens.
     */
    method SaveEntry(selected: Option<C.Date>, qty: real, price: real, payment: real)
      requires Valid() && (selected.Some? ==> C.Valid(selected.value))
      modifies this, store
      ensures Valid()
      ensures selected.None? ==>
        records == old(records) && lastEntryConfig == old(lastEntryConfig) && store.records == old(store.records)
      ensures selected.Some? ==>
        && records == SaveEntryResult(old(records), C.Key(selected.value), qty, price, payment)
        && lastEntryConfig == if qty > 0.0 then Some(EntryConfig(qty, price)) else old(lastEntryConfig)
    {
      if selected.None? {
        return;
      }
      var key := C.Key(selected.value);
      if qty > 0.0 {
        lastEntryConfig := Some(EntryConfig(qty, price));
      }
      var updated;
      if qty == 0.0 && payment == 0.0 {
        updated := store.DeleteRecord(key);
      } else {
        updated := store.SaveRecord(EntryRecord(key, qty, price, payment));
      }
      assert updated == SaveEntryResult(old(records), key, qty, price, payment);
      SaveEntryKeepsShape(old(records), key, qty, price, payment);
      SaveEntryMigrated(old(records), key, qty, price, payment);
      MigrateIdempotent(updated);
      records := updated;
    }

    /**
     * handleBulkAdd for the range from `startKey` to `endKey`: saves one filled
     * record per day and remembers quantity and price.
     */
    method BulkAdd(startKey: string, endKey: string, qty: real, price: real)
      requires Valid()
      requires C.ParseKey(startKey).Some? && C.ParseKey(endKey).Some?
      requires C.Ordinal(C.ParseKey(startKey).value) <= C.Ordinal(C.ParseKey(endKey).value)
      modifies this, store
      ensures Valid()
      ensures records == BulkFill(old(records), C.ParseKey(startKey).value, C.ParseKey(endKey).value, qty, price)
      ensures lastEntryConfig == Some(EntryConfig(qty, price))
    {
      var start, end := C.ParseKey(startKey).value, C.ParseKey(endKey).value;
      C.ParseKeyCanonical(startKey);
      C.ParseKeyCanonical(endKey);
      var days := C.Days(start, end);
      var newRecords := Fill(records, days, qty, price);
      var updated := store.SaveRecords(newRecords);
      BulkFillMigrated(old(records), start, end, qty, price);
      BulkFillDates(old(records), start, end, qty, price);
      BulkFillIdsAreDates(old(records), start, end, qty, price);
      MigrateIdempotent(updated);
      records := updated;
      lastEntryConfig := Some(EntryConfig(qty, price));
    }

    /** handleBulkPay for the range from `startKey` to `endKey`: settles the records dated in it. */
    method BulkPay(startKey: string, endKey: string)
      requires Valid()
      modifies this, store
      ensures Valid()
      ensures records == BulkSettle(old(records), startKey, endKey)
      ensures lastEntryConfig == old(lastEntryConfig)
    {
      var ids := RangeIds(records, startKey, endKey);
      var updated := store.MarkRangeAsPaid(ids);
      BulkSettleKeepsShape(old(records), startKey, endKey);
      MigrateIdempotent(updated);
      records := updated;
    }
  }
}
