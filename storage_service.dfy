/**
 * StorageService: the persisted record list and the operations that rewrite
 * it. `records` stands for what localStorage holds under the records key;
 * every read goes through the legacy-payment migration.
 */
module StorageService {
  import opened Wrappers
  import opened Records
  import opened Ledger
  import M = InsertionMap
  import Export

  class LedgerStore {
    /** The persisted list, possibly written by an older version without payments. */
    var records: seq<Record>

    constructor(persisted: seq<Record>)
      ensures records == persisted
    {
      records := persisted;
    }

    /** getRecords: the persisted list with missing payments filled in. */
    function Load(): seq<Record>
      reads this
    {
      Migrate(records)
    }

    /** The position of the first loaded record with `rec`'s date, or -1 (`findIndex`). */
    method FindIndex(rs: seq<Record>, date: string) returns (index: int)
      ensures index == IndexOfDate(rs, date)
    {
      index := 0;
      while index < |rs| && rs[index].date != date
        invariant 0 <= index <= |rs|
        invariant forall j :: 0 <= j < index ==> rs[j].date != date
      {
        index := index + 1;
      }
      if index < |rs| {
        FindAt(rs, date, index);
      } else {
        index := -1;
      }
    }

    /**
     * saveRecord: overrides the record with the same date, field by field, in a
     * copy of the loaded list, or appends the record; the copy is persisted and returned.
     */
    method SaveRecord(rec: Record) returns (updated: seq<Record>)
      modifies this
      ensures updated == Upsert(old(Load()), rec)
      ensures records == updated
    {
      var loaded := Load();
      var existingIndex := FindIndex(loaded, rec.date);
      if existingIndex >= 0 {
        var copy := new Record[|loaded|](i requires 0 <= i < |loaded| => loaded[i]);
        copy[existingIndex] := Merge(copy[existingIndex], rec);
        updated := copy[..];
        assert updated == loaded[existingIndex := Merge(loaded[existingIndex], rec)];
      } else {
        updated := loaded + [rec];
      }
      records := updated;
    }

    /**
     * saveRecords: loads the list into a map keyed by date, sets every given
     * record into it in turn, and persists and returns the map's values.
     */
    method SaveRecords(input: seq<Record>) returns (updated: seq<Record>)
      modifies this
      ensures updated == SaveAll(old(Load()), input)
      ensures records == updated
    {
      var loaded := Load();
      var recordMap := DateMap(loaded);
      var i := 0;
      while i < |input|
        invariant 0 <= i <= |input|
        invariant recordMap == M.SetAll(DateMap(loaded), Pairs(input[..i]))
      {
        assert Pairs(input[..i + 1]) == Pairs(input[..i]) + [(input[i].date, input[i])];
        recordMap := M.Set(recordMap, input[i].date, input[i]);
        i := i + 1;
      }
      assert input[..i] == input;
      M.SetAllKeys(M.Empty(), Pairs(loaded));
      M.SetAllKeys(DateMap(loaded), Pairs(input));
      updated := M.Values(recordMap);
      records := updated;
    }

    /** deleteRecord: drops every record with the given id. */
    method DeleteRecord(id: string) returns (updated: seq<Record>)
      modifies this
      ensures updated == RemoveId(old(Load()), id)
      ensures records == updated
    {
      updated := RemoveId(Load(), id);
      records := updated;
    }

    /** markRangeAsPaid: settles every record whose id is listed. */
    method MarkRangeAsPaid(ids: seq<string>) returns (updated: seq<Record>)
      modifies this
      ensures updated == MarkPaid(old(Load()), ids)
      ensures records == updated
    {
      updated := MarkPaid(Load(), ids);
      records := updated;
    }

    /**
     * exportToCSV: sorts a loaded copy by date in place and renders it. The
     * text is the export of some date-sorted ordering of the loaded records;
     * when their dates are distinct that ordering is unique (Export.SortedUnique).
     */
    method ExportToCsv(show: real -> string) returns (csv: string)
      ensures exists s :: Export.SortedByDate(s) && multiset(s) == multiset(Load()) && csv == Export.Render(s, show)
    {
      var loaded := Load();
      var a := new Record[|loaded|](i requires 0 <= i < |loaded| => loaded[i]);
      assert a[..] == loaded;
      Export.SortByDate(a);
      csv := Export.Render(a[..], show);
    }
  }
}
