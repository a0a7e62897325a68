/**
 * The record-list operations behind the storage service
 * (services/storageService.ts): the migration applied on every load, single
 * and batch upsert, delete by id and "mark as paid". Each takes the loaded list
 * and gives the list that is persisted and returned.
 */
module Ledger {
  import opened Wrappers
  import opened Records
  import M = InsertionMap

  // ---- migration (getRecords) -------------------------------------------

  function MigrateRecord(r: Record): Record {
    var payment :=
      if r.paymentAmount.Some? then r.paymentAmount.value
      else if r.isPaid then Cost(r) else 0.0;
    r.(paymentAmount := Some(payment))
  }

  /**
   * Every loaded record carries a payment: an existing amount is kept, a missing
   * one becomes the full cost for a record flagged paid and 0 otherwise, and no
   * other field changes.
   */
  function Migrate(rs: seq<Record>): (ms: seq<Record>)
    ensures |ms| == |rs| && AllMigrated(ms)
    ensures forall i :: 0 <= i < |rs| && rs[i].paymentAmount.Some? ==> ms[i] == rs[i]
    ensures forall i :: 0 <= i < |rs| && rs[i].paymentAmount.None? ==>
              Paid(ms[i]) == (if rs[i].isPaid then Cost(rs[i]) else 0.0)
    ensures forall i :: 0 <= i < |rs| ==> ms[i].(paymentAmount := rs[i].paymentAmount) == rs[i]
  {
    seq(|rs|, i requires 0 <= i < |rs| => MigrateRecord(rs[i]))
  }

  /** A list that already carries every payment is left as it is, so migrating twice is migrating once. */
  lemma MigrateIdempotent(rs: seq<Record>)
    ensures AllMigrated(rs) ==> Migrate(rs) == rs
    ensures Migrate(Migrate(rs)) == Migrate(rs)
  {
  }

  // ---- saveRecord --------------------------------------------------------

  /** `{ ...prev, ...next }`: the new record's fields win; optional fields it lacks survive. */
  function Merge(prev: Record, next: Record): Record {
    next.(paymentAmount := if next.paymentAmount.Some? then next.paymentAmount else prev.paymentAmount,
          notes := if next.notes.Some? then next.notes else prev.notes)
  }

  /**
   * saveRecord: the first record with the new record's date is overridden by it
   * in place, or, when no record has that date, the new record is appended.
   */
  function Upsert(rs: seq<Record>, rec: Record): (r: seq<Record>)
    ensures rec.date in Dates(rs) ==>
      var i := IndexOfDate(rs, rec.date);
      && |r| == |rs|
      && r[i] == Merge(rs[i], rec)
      && forall j :: 0 <= j < |rs| && j != i ==> r[j] == rs[j]
    ensures rec.date !in Dates(rs) ==> r == rs + [rec]
  {
    var i := IndexOfDate(rs, rec.date);
    if i >= 0 then rs[i := Merge(rs[i], rec)] else rs + [rec]
  }

  /**
   * Seen as a lookup by date, an upsert stores the merge of the old and new record
   * (or the new record) under the new date and changes no other date.
   */
  lemma UpsertFind(rs: seq<Record>, rec: Record, d: string)
    ensures Find(Upsert(rs, rec), d) ==
      if d != rec.date then Find(rs, d)
      else if Find(rs, d).Some? then Some(Merge(Find(rs, d).value, rec))
      else Some(rec)
  {
    var r := Upsert(rs, rec);
    var i := IndexOfDate(rs, rec.date);
    var k := IndexOfDate(rs, d);
    if d == rec.date {
      if i >= 0 { FindAt(r, d, i); } else { FindAt(r, d, |rs|); }
    } else if k >= 0 {
      FindAt(r, d, k);
    } else {
      assert forall j :: 0 <= j < |r| ==> r[j].date != d;
      FindAbsent(r, d);
    }
  }

  /** Saving the same record twice gives the list that saving it once gives. */
  lemma UpsertIdempotent(rs: seq<Record>, rec: Record)
    ensures Upsert(Upsert(rs, rec), rec) == Upsert(rs, rec)
  {
    var r := Upsert(rs, rec);
    var i := IndexOfDate(rs, rec.date);
    if i >= 0 {
      FindAt(r, rec.date, i);
    } else {
      FindAt(r, rec.date, |rs|);
    }
  }

  /** An upsert never creates a second record for a date. */
  lemma UpsertKeepsDatesDistinct(rs: seq<Record>, rec: Record)
    requires DistinctDates(rs)
    ensures DistinctDates(Upsert(rs, rec))
  {
  }

  // ---- saveRecords -------------------------------------------------------

  /** `records.map(r => [r.date, r])` */
  function Pairs(rs: seq<Record>): (kvs: seq<(string, Record)>)
    ensures |kvs| == |rs|
    ensures forall i :: 0 <= i < |rs| ==> kvs[i] == (rs[i].date, rs[i])
  {
    seq(|rs|, i requires 0 <= i < |rs| => (rs[i].date, rs[i]))
  }

  lemma KeysOfPairs(rs: seq<Record>)
    ensures M.KeysOf(Pairs(rs)) == Dates(rs)
  {
  }

  /** `new Map(records.map(r => [r.date, r]))` */
  function DateMap(rs: seq<Record>): M.OrderedMap<Record> {
    M.SetAll(M.Empty(), Pairs(rs))
  }

  /**
   * saveRecords: every input record is set into the map of the loaded records,
   * keyed by date, and the map's values are the new list.
   */
  function SaveAll(prev: seq<Record>, input: seq<Record>): seq<Record> {
    M.SetAllKeys(M.Empty(), Pairs(prev));
    M.SetAllKeys(DateMap(prev), Pairs(input));
    M.Values(M.SetAll(DateMap(prev), Pairs(input)))
  }

  /** The last record of the list with date `d`. */
  function LastWithDate(rs: seq<Record>, d: string): (r: Record)
    requires d in Dates(rs)
    ensures r in rs && r.date == d
    decreases |rs|
  {
    var last := rs[|rs| - 1];
    if last.date == d then last
    else
      assert Dates(rs) == Dates(rs[..|rs| - 1]) + [last.date];
      LastWithDate(rs[..|rs| - 1], d)
  }

  lemma {:induction false} LastWithDateIsLastValue(rs: seq<Record>, d: string)
    requires d in Dates(rs)
    ensures d in M.KeysOf(Pairs(rs)) && M.LastValue(Pairs(rs), d) == LastWithDate(rs, d)
    decreases |rs|
  {
    KeysOfPairs(rs);
    var init := rs[..|rs| - 1];
    assert Pairs(rs)[..|rs| - 1] == Pairs(init);
    if rs[|rs| - 1].date != d {
      assert Dates(rs) == Dates(init) + [rs[|rs| - 1].date];
      LastWithDateIsLastValue(init, d);
    }
  }

  /** With one record per date, the date map lists the dates in order and maps each to its record. */
  lemma DateMapOfDistinct(rs: seq<Record>)
    requires DistinctDates(rs)
    ensures M.Valid(DateMap(rs))
    ensures DateMap(rs).keys == Dates(rs)
    ensures forall i :: 0 <= i < |rs| ==> DateMap(rs).entries[rs[i].date] == rs[i]
  {
    DateMapKeys(rs);
    DateMapEntries(rs);
  }

  lemma {:induction false} DateMapKeys(rs: seq<Record>)
    requires DistinctDates(rs)
    ensures M.Valid(DateMap(rs)) && DateMap(rs).keys == Dates(rs)
    decreases |rs|
  {
    if rs != [] {
      var init := rs[..|rs| - 1];
      var last := rs[|rs| - 1];
      DateMapKeys(init);
      DateMapSnoc(rs);
      assert DistinctDates(init);
      assert last.date !in Dates(init) by {
        forall j | 0 <= j < |init|
          ensures Dates(init)[j] != last.date
        {
          assert rs[j] == init[j];
        }
      }
      assert last.date !in DateMap(init).entries;
      M.SetKeys(DateMap(init), last.date, last);
      assert DateMap(rs).keys == Dates(init) + [last.date];
      assert Dates(rs) == Dates(init) + [last.date];
    }
  }

  lemma {:induction false} DateMapEntries(rs: seq<Record>)
    requires DistinctDates(rs)
    ensures forall i :: 0 <= i < |rs| ==>
      rs[i].date in DateMap(rs).entries && DateMap(rs).entries[rs[i].date] == rs[i]
    decreases |rs|
  {
    if rs != [] {
      var init := rs[..|rs| - 1];
      var last := rs[|rs| - 1];
      DateMapEntries(init);
      DateMapSnoc(rs);
      assert DistinctDates(init);
      forall i | 0 <= i < |rs|
        ensures rs[i].date in DateMap(rs).entries && DateMap(rs).entries[rs[i].date] == rs[i]
      {
        if i < |rs| - 1 {
          assert rs[i] == init[i] && rs[i].date != last.date;
        }
      }
    }
  }

  /** The date map of a longer list is the shorter list's map with the last record set. */
  lemma DateMapSnoc(rs: seq<Record>)
    requires rs != []
    ensures DateMap(rs) == M.Set(DateMap(rs[..|rs| - 1]), rs[|rs| - 1].date, rs[|rs| - 1])
  {
    assert Pairs(rs)[..|rs| - 1] == Pairs(rs[..|rs| - 1]);
  }

  lemma {:induction false} DistinctCard(s: seq<string>)
    requires forall i, j :: 0 <= i < j < |s| ==> s[i] != s[j]
    ensures |set x | x in s| == |s|
    decreases |s|
  {
    if s != [] {
      var init := s[..|s| - 1];
      DistinctCard(init);
      assert (set x | x in s) == (set x | x in init) + {s[|s| - 1]};
    }
  }

  /** Every entry is stored under its own date. */
  ghost predicate KeyedByDate(m: M.OrderedMap<Record>) {
    forall k :: k in m.entries ==> m.entries[k].date == k
  }

  lemma {:induction false} SetAllKeyedByDate(m: M.OrderedMap<Record>, rs: seq<Record>)
    requires KeyedByDate(m)
    ensures KeyedByDate(M.SetAll(m, Pairs(rs)))
    decreases |rs|
  {
    if rs != [] {
      assert Pairs(rs)[..|rs| - 1] == Pairs(rs[..|rs| - 1]);
      SetAllKeyedByDate(m, rs[..|rs| - 1]);
    }
  }

  /** The map behind a batch save is well formed, keyed by date, and lists the saved dates. */
  lemma SaveAllShape(prev: seq<Record>, input: seq<Record>)
    ensures var m := M.SetAll(DateMap(prev), Pairs(input));
      && M.Valid(m) && KeyedByDate(m)
      && SaveAll(prev, input) == M.Values(m)
      && Dates(SaveAll(prev, input)) == m.keys
      && (forall d :: d in m.keys <==> d in Dates(prev) || d in Dates(input))
  {
    var m0 := DateMap(prev);
    M.SetAllKeys(M.Empty(), Pairs(prev));
    M.SetAllKeys(m0, Pairs(input));
    SetAllKeyedByDate(M.Empty(), prev);
    SetAllKeyedByDate(m0, input);
    KeysOfPairs(prev);
    KeysOfPairs(input);
  }

  /**
   * After a batch save the list holds one record per date, exactly for the dates
   * that were loaded or given, so its length is the number of those dates.
   */
  lemma SaveAllDates(prev: seq<Record>, input: seq<Record>)
    ensures var r := SaveAll(prev, input);
      && DistinctDates(r)
      && (forall d :: d in Dates(r) <==> d in Dates(prev) || d in Dates(input))
      && |r| == |(set d | d in Dates(prev)) + (set d | d in Dates(input))|
  {
    SaveAllShape(prev, input);
    var m := M.SetAll(DateMap(prev), Pairs(input));
    DistinctCard(m.keys);
    assert (set d | d in m.keys) == (set d | d in Dates(prev)) + (set d | d in Dates(input));
  }

  /** Each date holds the last input record with that date, or else the last loaded one. */
  lemma SaveAllValues(prev: seq<Record>, input: seq<Record>, i: int)
    requires 0 <= i < |SaveAll(prev, input)|
    ensures var r := SaveAll(prev, input);
      if r[i].date in Dates(input) then r[i] == LastWithDate(input, r[i].date)
      else r[i].date in Dates(prev) && r[i] == LastWithDate(prev, r[i].date)
  {
    SaveAllShape(prev, input);
    var m0 := DateMap(prev);
    var m := M.SetAll(m0, Pairs(input));
    var d := m.keys[i];
    KeysOfPairs(prev);
    KeysOfPairs(input);
    M.SetAllEntries(m0, Pairs(input), d);
    if d in Dates(input) {
      LastWithDateIsLastValue(input, d);
    } else {
      M.SetAllEntries(M.Empty(), Pairs(prev), d);
      LastWithDateIsLastValue(prev, d);
    }
  }

  /**
   * Over a list with one record per date, a batch save keeps the loaded records in
   * their order, replacing wholesale (no field merge) each one whose date is given,
   * and appends the new dates in the order they first appear in the input.
   */
  lemma SaveAllOrder(prev: seq<Record>, input: seq<Record>)
    requires DistinctDates(prev)
    ensures var r := SaveAll(prev, input);
      && |prev| <= |r|
      && (forall i :: 0 <= i < |prev| ==>
            r[i] == if prev[i].date in Dates(input) then LastWithDate(input, prev[i].date) else prev[i])
      && (forall i :: |prev| <= i < |r| ==> r[i].date !in Dates(prev) && r[i].date in Dates(input))
      && (forall i, j :: |prev| <= i < j < |r| ==>
            M.FirstIndex(Dates(input), r[i].date) < M.FirstIndex(Dates(input), r[j].date))
  {
    var m0 := DateMap(prev);
    DateMapOfDistinct(prev);
    SaveAllShape(prev, input);
    M.SetAllKeys(m0, Pairs(input));
    M.SetAllNewKeyOrder(m0, Pairs(input));
    KeysOfPairs(input);
    var m := M.SetAll(m0, Pairs(input));
    var r := SaveAll(prev, input);
    forall i | 0 <= i < |prev|
      ensures r[i] == if prev[i].date in Dates(input) then LastWithDate(input, prev[i].date) else prev[i]
    {
      assert m.keys[i] == prev[i].date;
      SaveAllValues(prev, input, i);
      if prev[i].date !in Dates(input) {
        M.SetAllEntries(m0, Pairs(input), prev[i].date);
      }
    }
    forall i | |prev| <= i < |r|
      ensures r[i].date !in Dates(prev) && r[i].date in Dates(input)
    {
      M.PastPrefixIsNew(m, m0.keys, i);
    }
  }

  /** A batch save holds only records that were loaded or given. */
  lemma SaveAllMembers(prev: seq<Record>, input: seq<Record>)
    ensures forall x :: x in SaveAll(prev, input) ==> x in prev || x in input
  {
    var r := SaveAll(prev, input);
    forall x | x in r
      ensures x in prev || x in input
    {
      var i :| 0 <= i < |r| && r[i] == x;
      SaveAllValues(prev, input, i);
    }
  }

  /**
   * Seen as a lookup by date over a list with one record per date, a batch save
   * answers each given date with the last input record for it and every other
   * date as before.
   */
  lemma SaveAllFind(prev: seq<Record>, input: seq<Record>, d: string)
    requires DistinctDates(prev)
    ensures Find(SaveAll(prev, input), d) ==
      if d in Dates(input) then Some(LastWithDate(input, d)) else Find(prev, d)
  {
    var r := SaveAll(prev, input);
    SaveAllDates(prev, input);
    if d in Dates(r) {
      var i :| 0 <= i < |r| && r[i].date == d;
      FindDistinct(r, i);
      SaveAllValues(prev, input, i);
      if d !in Dates(input) {
        var k :| 0 <= k < |prev| && prev[k].date == d;
        FindDistinct(prev, k);
        LastWithDateOfDistinct(prev, k);
      }
    } else {
      FindAbsent(r, d);
      FindAbsent(prev, d);
    }
  }

  /** With one record per date, the last record with a date is the only one. */
  lemma {:induction false} LastWithDateOfDistinct(rs: seq<Record>, k: int)
    requires DistinctDates(rs) && 0 <= k < |rs|
    ensures LastWithDate(rs, rs[k].date) == rs[k]
    decreases |rs|
  {
    if k < |rs| - 1 {
      LastWithDateOfDistinct(rs[..|rs| - 1], k);
    }
  }

  // ---- deleteRecord ------------------------------------------------------

  /** `records.filter(r => r.id !== id)` */
  function RemoveId(rs: seq<Record>, id: string): (r: seq<Record>)
    ensures forall x :: x in r <==> x in rs && x.id != id
    ensures id !in Ids(rs) ==> r == rs
    ensures |r| <= |rs|
  {
    if rs == [] then []
    else
      assert Ids(rs) == [rs[0].id] + Ids(rs[1..]);
      (if rs[0].id == id then [] else [rs[0]]) + RemoveId(rs[1..], id)
  }

  /** Removal never creates a second record for a date. */
  lemma {:induction false} RemoveIdKeepsDatesDistinct(rs: seq<Record>, id: string)
    requires DistinctDates(rs)
    ensures DistinctDates(RemoveId(rs, id))
    decreases |rs|
  {
    if rs != [] {
      var tail := RemoveId(rs[1..], id);
      RemoveIdKeepsDatesDistinct(rs[1..], id);
      if rs[0].id != id {
        HeadDateUnique(rs);
        ConsDistinct(rs[0], tail);
      }
    }
  }

  lemma HeadDateUnique(rs: seq<Record>)
    requires DistinctDates(rs) && rs != []
    ensures DistinctDates(rs[1..])
    ensures forall y :: y in rs[1..] ==> y.date != rs[0].date
  {
    forall y | y in rs[1..]
      ensures y.date != rs[0].date
    {
      var k :| 0 <= k < |rs| - 1 && rs[1..][k] == y;
      assert rs[k + 1] == y;
    }
  }

  lemma ConsDistinct(x: Record, tail: seq<Record>)
    requires DistinctDates(tail) && forall y :: y in tail ==> y.date != x.date
    ensures DistinctDates([x] + tail)
  {
    var r := [x] + tail;
    forall i, j | 0 <= i < j < |r|
      ensures r[i].date != r[j].date
    {
      assert r[j] == tail[j - 1];
      if i > 0 {
        assert r[i] == tail[i - 1];
      }
    }
  }

  /** Removal keeps the surviving records in their order: it distributes over concatenation. */
  lemma {:induction false} RemoveIdAppend(a: seq<Record>, b: seq<Record>, id: string)
    ensures RemoveId(a + b, id) == RemoveId(a, id) + RemoveId(b, id)
    decreases |a|
  {
    if a != [] {
      var head := if a[0].id == id then [] else [a[0]];
      assert (a + b)[0] == a[0] && (a + b)[1..] == a[1..] + b;
      assert RemoveId(a + b, id) == head + RemoveId(a[1..] + b, id);
      assert RemoveId(a, id) == head + RemoveId(a[1..], id);
      RemoveIdAppend(a[1..], b, id);
    } else {
      assert a + b == b;
    }
  }

  /**
   * When records use their dates as ids, deleting by a date removes that date and
   * answers every other date as before.
   */
  lemma {:induction false} RemoveIdFind(rs: seq<Record>, id: string, d: string)
    requires IdsAreDates(rs)
    ensures IdsAreDates(RemoveId(rs, id))
    ensures Find(RemoveId(rs, id), d) == if d == id then None else Find(rs, d)
    decreases |rs|
  {
    if rs != [] {
      RemoveIdFind(rs[1..], id, d);
      var rest := RemoveId(rs[1..], id);
      if rs[0].id != id {
        assert RemoveId(rs, id) == [rs[0]] + rest;
        if rs[0].date == d {
          FindAt([rs[0]] + rest, d, 0);
          FindAt(rs, d, 0);
        } else {
          FindShift(rs[0], rest, d);
          FindShift(rs[0], rs[1..], d);
          assert [rs[0]] + rs[1..] == rs;
        }
      } else {
        assert RemoveId(rs, id) == rest;
        if d != id {
          FindShift(rs[0], rs[1..], d);
          assert [rs[0]] + rs[1..] == rs;
        }
      }
    } else {
      FindAbsent([], d);
    }
  }

  lemma FindShift(x: Record, rs: seq<Record>, d: string)
    requires x.date != d
    ensures Find([x] + rs, d) == Find(rs, d)
  {
    var s := [x] + rs;
    assert s[1..] == rs;
    var k := IndexOfDate(rs, d);
    assert IndexOfDate(s, d) == if k < 0 then -1 else k + 1;
  }

  // ---- markRangeAsPaid ---------------------------------------------------

  /** `{ ...r, isPaid: true, paymentAmount: r.quantity * r.pricePerUnit }` */
  function Settle(r: Record): Record {
    r.(isPaid := true, paymentAmount := Some(Cost(r)))
  }

  /**
   * markRangeAsPaid: every record whose id is listed gets a payment equal to its
   * cost and the paid flag; only those two fields change, and nothing else changes.
   */
  function MarkPaid(rs: seq<Record>, ids: seq<string>): (r: seq<Record>)
    ensures |r| == |rs|
    ensures forall i :: 0 <= i < |rs| && rs[i].id in ids ==>
              r[i].isPaid && r[i].paymentAmount == Some(Cost(rs[i]))
    ensures forall i :: 0 <= i < |rs| && rs[i].id !in ids ==> r[i] == rs[i]
    ensures forall i :: 0 <= i < |rs| ==>
              r[i].(isPaid := rs[i].isPaid, paymentAmount := rs[i].paymentAmount) == rs[i]
  {
    seq(|rs|, i requires 0 <= i < |rs| => if rs[i].id in ids then Settle(rs[i]) else rs[i])
  }

  /** Marking the same ids paid twice gives what marking them once gives. */
  lemma MarkPaidIdempotent(rs: seq<Record>, ids: seq<string>)
    ensures MarkPaid(MarkPaid(rs, ids), ids) == MarkPaid(rs, ids)
  {
    var once := MarkPaid(rs, ids);
    forall i | 0 <= i < |rs|
      ensures MarkPaid(once, ids)[i] == once[i]
    {
      assert once[i].id == rs[i].id;
      if rs[i].id in ids {
        assert Cost(once[i]) == Cost(rs[i]);
        assert Settle(once[i]) == once[i];
      }
    }
  }

  /** Marking records paid keeps every record's id and date where they were. */
  lemma MarkPaidKeepsKeys(rs: seq<Record>, ids: seq<string>)
    ensures Ids(MarkPaid(rs, ids)) == Ids(rs) && Dates(MarkPaid(rs, ids)) == Dates(rs)
  {
    var r := MarkPaid(rs, ids);
    forall i | 0 <= i < |rs|
      ensures r[i].id == rs[i].id && r[i].date == rs[i].date
    {
      assert r[i].(isPaid := rs[i].isPaid, paymentAmount := rs[i].paymentAmount) == rs[i];
    }
  }

  /** A payment-only record (no quantity) that is marked paid ends with a payment of 0. */
  lemma MarkPaidZeroesPaymentOnly(rs: seq<Record>, ids: seq<string>, i: int)
    requires 0 <= i < |rs| && rs[i].id in ids && rs[i].quantity == 0.0
    ensures MarkPaid(rs, ids)[i].paymentAmount == Some(0.0)
  {
  }
}
