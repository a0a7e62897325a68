/**
 * The ledger entry of types.ts: one record per calendar day, identified by its
 * `YYYY-MM-DD` date (which the app also stores as `id`).
 */
module Records {
  import opened Wrappers

  /** Tolerance that absorbs floating-point rounding in the "paid in full" test. */
  const Tolerance: real := 0.1

  datatype Record = Record(
    id: string,
    date: string,
    quantity: real,
    pricePerUnit: real,
    isPaid: bool,                 // kept for backward compatibility
    paymentAmount: Option<real>,  // absent in records written before payments existed
    notes: Option<string>)

  /** Last values used for quick entry (App.tsx `lastEntryConfig`). */
  datatype EntryConfig = EntryConfig(qty: real, price: real)

  /** `quantity * pricePerUnit` */
  function Cost(r: Record): real {
    r.quantity * r.pricePerUnit
  }

  /** `r.paymentAmount || 0` */
  function Paid(r: Record): real {
    r.paymentAmount.GetOr(0.0)
  }

  /** `Math.abs` */
  function Abs(x: real): (m: real)
    ensures m >= 0.0 && (m == x || m == -x)
  {
    if x < 0.0 then -x else x
  }

  /** The tolerant sufficiency test `paid >= cost - 0.1`. */
  predicate Covers(paid: real, cost: real) {
    paid >= cost - Tolerance
  }

  /** The dates of a record list, in list order. */
  function Dates(rs: seq<Record>): (ds: seq<string>)
    ensures |ds| == |rs|
    ensures forall i :: 0 <= i < |rs| ==> ds[i] == rs[i].date
  {
    seq(|rs|, i requires 0 <= i < |rs| => rs[i].date)
  }

  /** The ids of a record list, in list order. */
  function Ids(rs: seq<Record>): (ids: seq<string>)
    ensures |ids| == |rs|
    ensures forall i :: 0 <= i < |rs| ==> ids[i] == rs[i].id
  {
    seq(|rs|, i requires 0 <= i < |rs| => rs[i].id)
  }

  /** At most one record per date: the ledger's key invariant. */
  predicate DistinctDates(rs: seq<Record>) {
    forall i, j :: 0 <= i < j < |rs| ==> rs[i].date != rs[j].date
  }

  /** Every record uses its date as its id, as every record the app writes does. */
  predicate IdsAreDates(rs: seq<Record>) {
    forall i :: 0 <= i < |rs| ==> rs[i].id == rs[i].date
  }

  /** Every record carries an explicit payment amount (migration has run). */
  predicate AllMigrated(rs: seq<Record>) {
    forall i :: 0 <= i < |rs| ==> rs[i].paymentAmount.Some?
  }

  /** `records.findIndex(r => r.date === d)`: the first position holding date `d`, or -1. */
  function IndexOfDate(rs: seq<Record>, d: string): (i: int)
    ensures -1 <= i < |rs|
    ensures i >= 0 ==> rs[i].date == d && forall j :: 0 <= j < i ==> rs[j].date != d
    ensures i < 0 ==> d !in Dates(rs)
  {
    if rs == [] then -1
    else if rs[0].date == d then 0
    else
      var k := IndexOfDate(rs[1..], d);
      if k < 0 then -1 else k + 1
  }

  /** `records.find(r => r.date === d)`: the first record with date `d`. */
  function Find(rs: seq<Record>, d: string): (f: Option<Record>)
    ensures f.Some? <==> d in Dates(rs)
    ensures f.Some? ==> f.value in rs && f.value.date == d
  {
    var i := IndexOfDate(rs, d);
    if i >= 0 then Some(rs[i]) else None
  }

  /** A position holding `d` with none before it is where `Find` looks. */
  lemma FindAt(rs: seq<Record>, d: string, i: int)
    requires 0 <= i < |rs| && rs[i].date == d
    requires forall j :: 0 <= j < i ==> rs[j].date != d
    ensures IndexOfDate(rs, d) == i && Find(rs, d) == Some(rs[i])
  {
  }

  /** With one record per date, `Find` returns the record at any position holding the date. */
  lemma FindDistinct(rs: seq<Record>, i: int)
    requires DistinctDates(rs) && 0 <= i < |rs|
    ensures Find(rs, rs[i].date) == Some(rs[i])
  {
    FindAt(rs, rs[i].date, i);
  }

  lemma FindAbsent(rs: seq<Record>, d: string)
    requires d !in Dates(rs)
    ensures Find(rs, d) == None
  {
  }
}
