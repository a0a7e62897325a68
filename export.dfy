/**
 * exportToCSV: the stored records sorted by date, rendered as a header line
 * and one line per record.
 */
module Export {
  import opened Wrappers
  import opened Records
  import Lexical
  import Csv
  import Fixed

  const Header: seq<string> := ["Date", "Quantity", "Price/Unit", "Total Cost", "Amount Paid", "Notes"]

  /** Notes as the export writes them: quoted when present and non-empty, otherwise an empty cell. */
  function NotesCell(notes: Option<string>): string {
    if notes.Some? && notes.value != [] then Csv.Quote(notes.value) else []
  }

  /** The text a reader recovers from the notes cell. */
  function NotesText(notes: Option<string>): string {
    if notes.Some? then notes.value else []
  }

  /** One record's cells; `show` is the number-to-string conversion for quantity and price. */
  function Cells(r: Record, show: real -> string): seq<string> {
    [r.date, show(r.quantity), show(r.pricePerUnit),
     Fixed.ToFixed2(Cost(r), show), Fixed.ToFixed2(Paid(r), show), NotesCell(r.notes)]
  }

  /** What one exported line stands for, cell by cell. */
  function Values(r: Record, show: real -> string): seq<string> {
    [r.date, show(r.quantity), show(r.pricePerUnit),
     Fixed.ToFixed2(Cost(r), show), Fixed.ToFixed2(Paid(r), show), NotesText(r.notes)]
  }

  /** One row per record, in the order of `rs`. */
  function Rows(rs: seq<Record>, row: Record -> seq<string>): (t: seq<seq<string>>)
    ensures |t| == |rs| && forall i :: 0 <= i < |rs| ==> t[i] == row(rs[i])
  {
    seq(|rs|, i requires 0 <= i < |rs| => row(rs[i]))
  }

  function Table(rs: seq<Record>, show: real -> string): seq<seq<string>> {
    [Header] + Rows(rs, r => Cells(r, show))
  }

  /** The exported text of records already in export order. */
  function Render(rs: seq<Record>, show: real -> string): string {
    Csv.Render(Table(rs, show))
  }

  predicate SortedByDate(rs: seq<Record>) {
    forall i, j :: 0 <= i < j < |rs| ==> Lexical.LessEq(rs[i].date, rs[j].date)
  }

  /** The sort in exportToCSV: ascending by date, in place. */
  method SortByDate(a: array<Record>)
    modifies a
    ensures SortedByDate(a[..])
    ensures multiset(a[..]) == old(multiset(a[..]))
  {
    var i := 0;
    while i < a.Length
      invariant 0 <= i <= a.Length
      invariant SortedByDate(a[..i])
      invariant multiset(a[..]) == old(multiset(a[..]))
    {
      InsertLast(a, i);
      i := i + 1;
    }
    assert a[..] == a[..a.Length];
  }

  /** One insertion step: moves `a[i]` left past every later date, so that `a[..i+1]` is sorted. */
  method InsertLast(a: array<Record>, i: int)
    requires 0 <= i < a.Length && SortedByDate(a[..i])
    modifies a
    ensures SortedByDate(a[..i + 1])
    ensures multiset(a[..]) == old(multiset(a[..]))
  {
    var j := i;
    assert SortedExcept(a[..i + 1], i);
    while j > 0 && Lexical.Less(a[j].date, a[j - 1].date)
      invariant 0 <= j <= i
      invariant SortedExcept(a[..i + 1], j)
      invariant forall k :: j < k <= i ==> Lexical.Less(a[j].date, a[k].date)
      invariant multiset(a[..]) == old(multiset(a[..]))
    {
      ghost var before := a[..];
      Swap(a, j - 1, j);
      SwapStep(before[..i + 1], a[..i + 1], j);
      j := j - 1;
    }
    if j > 0 {
      Lexical.Total(a[j].date, a[j - 1].date);
    }
    InsertionDone(a[..i + 1], j);
  }

  /** Exchanges two slots of the array. */
  method Swap(a: array<Record>, p: int, q: int)
    requires 0 <= p < a.Length && 0 <= q < a.Length
    modifies a
    ensures a[..] == old(a[..])[p := old(a[q])][q := old(a[p])]
    ensures multiset(a[..]) == old(multiset(a[..]))
  {
    a[p], a[q] := a[q], a[p];
  }

  /** Swapping the moving record with an earlier one whose date is later keeps the insertion invariants. */
  lemma SwapStep(s: seq<Record>, t: seq<Record>, j: int)
    requires 0 < j < |s| && |t| == |s|
    requires t == s[j - 1 := s[j]][j := s[j - 1]]
    requires SortedExcept(s, j) && Lexical.Less(s[j].date, s[j - 1].date)
    requires forall k :: j < k < |s| ==> Lexical.Less(s[j].date, s[k].date)
    ensures SortedExcept(t, j - 1)
    ensures forall k :: j - 1 < k < |t| ==> Lexical.Less(t[j - 1].date, t[k].date)
  {
    forall k | j - 1 < k < |t|
      ensures Lexical.Less(t[j - 1].date, t[k].date)
    {
      if k == j {
        assert t[k] == s[j - 1];
      } else {
        assert t[k] == s[k];
      }
    }
    forall p, q | 0 <= p < q < |t| && p != j - 1 && q != j - 1
      ensures Lexical.LessEq(t[p].date, t[q].date)
    {
      if p == j {
        assert t[p] == s[j - 1] && t[q] == s[q];
      } else if q == j {
        assert t[q] == s[j - 1] && t[p] == s[p];
      } else {
        assert t[p] == s[p] && t[q] == s[q];
      }
    }
  }

  /** Sorted apart from position `j`. */
  predicate SortedExcept(s: seq<Record>, j: int) {
    forall p, q :: 0 <= p < q < |s| && p != j && q != j ==> Lexical.LessEq(s[p].date, s[q].date)
  }

  lemma InsertionDone(s: seq<Record>, j: int)
    requires 0 <= j < |s| && SortedExcept(s, j)
    requires forall k :: j < k < |s| ==> Lexical.Less(s[j].date, s[k].date)
    requires j == 0 || Lexical.LessEq(s[j - 1].date, s[j].date)
    ensures SortedByDate(s)
  {
    forall p, q | 0 <= p < q < |s|
      ensures Lexical.LessEq(s[p].date, s[q].date)
    {
      if q == j && p < j - 1 && Lexical.Less(s[p].date, s[j - 1].date) && Lexical.Less(s[j - 1].date, s[j].date) {
        Lexical.Transitive(s[p].date, s[j - 1].date, s[j].date);
      }
    }
  }

  // ---- what the exported text holds -----------------------------------------

  /** toFixed(2) of `x` needs no quoting: always so below 10^21, otherwise as `show` writes it. */
  predicate PlainFixed(x: real, show: real -> string) {
    Abs(x) < Fixed.Limit || Csv.Plain(show(Abs(x)))
  }

  /** The cells of `r` written unquoted carry no comma, quote or line break. */
  predicate PlainRecord(r: Record, show: real -> string) {
    Csv.Plain(r.date) && Csv.Plain(show(r.quantity)) && Csv.Plain(show(r.pricePerUnit))
    && PlainFixed(Cost(r), show) && PlainFixed(Paid(r), show)
  }

  predicate PlainCells(rs: seq<Record>, show: real -> string) {
    forall i :: 0 <= i < |rs| ==> PlainRecord(rs[i], show)
  }

  lemma ToFixed2Plain(x: real, show: real -> string)
    requires PlainFixed(x, show)
    ensures Csv.Plain(Fixed.ToFixed2(x, show))
  {
    var ax := Abs(x);
    var u := Fixed.Unsigned(ax, show);
    if ax < Fixed.Limit {
      Fixed.UnsignedRounds(ax, show);
      assert u == u[..|u| - 3] + ['.'] + u[|u| - 2..];
      assert forall k :: 0 <= k < |u| ==> u[k] == '.' || '0' <= u[k] <= '9';
    }
    assert Csv.Plain(u);
    assert Csv.Plain(['-']);
  }

  /** A line of six cells, each the encoding of the matching value. */
  predicate RowEncodes(cells: seq<string>, values: seq<string>) {
    |cells| == |values| == 6 && forall k :: 0 <= k < 6 ==> Csv.Encodes(cells[k], values[k])
  }

  lemma ValuesEncoded(r: Record, show: real -> string)
    requires PlainRecord(r, show)
    ensures RowEncodes(Cells(r, show), Values(r, show))
  {
    ToFixed2Plain(Cost(r), show);
    ToFixed2Plain(Paid(r), show);
    assert Csv.Plain([]);
  }

  /** The lines a reader recovers from the export of `rs`. */
  function Lines(rs: seq<Record>, show: real -> string): seq<seq<string>> {
    [Header] + Rows(rs, r => Values(r, show))
  }

  lemma HeaderPlain()
    ensures forall i :: 0 <= i < |Header| ==> Csv.Plain(Header[i])
  {
  }

  /** Whatever the rows, a header over rows that encode their values reads back as those values. */
  lemma RowsReadBack(rs: seq<Record>, cellsOf: Record -> seq<string>, valuesOf: Record -> seq<string>)
    requires forall i :: 0 <= i < |rs| ==> RowEncodes(cellsOf(rs[i]), valuesOf(rs[i]))
    ensures Csv.Read(Csv.Render([Header] + Rows(rs, cellsOf))) == [Header] + Rows(rs, valuesOf)
  {
    var cells, values := [Header] + Rows(rs, cellsOf), [Header] + Rows(rs, valuesOf);
    forall k | 0 <= k < |cells|
      ensures |cells[k]| == |values[k]| >= 1
      ensures forall i :: 0 <= i < |cells[k]| ==> Csv.Encodes(cells[k][i], values[k][i])
    {
      if k == 0 {
        HeaderPlain();
      } else {
        assert RowEncodes(cells[k], values[k]);
      }
    }
    Csv.ReadRender(cells, values);
  }

  /**
   * Read back, the export is the header line followed by one line per record,
   * in order: date, quantity, price, cost and payment to two decimals (a
   * missing payment as 0.00), and the notes text, quotes and all.
   */
  lemma ExportReadsBack(rs: seq<Record>, show: real -> string)
    requires PlainCells(rs, show)
    ensures Csv.Read(Render(rs, show)) == Lines(rs, show)
  {
    var cellsOf, valuesOf := r => Cells(r, show), r => Values(r, show);
    forall i | 0 <= i < |rs|
      ensures RowEncodes(cellsOf(rs[i]), valuesOf(rs[i]))
    {
      ValuesEncoded(rs[i], show);
    }
    RowsReadBack(rs, cellsOf, valuesOf);
  }

  /** Sorted records export as lines in ascending date order, one per record after the header. */
  lemma ExportLinesAscending(rs: seq<Record>, show: real -> string)
    requires PlainCells(rs, show) && SortedByDate(rs)
    ensures var lines := Csv.Read(Render(rs, show));
      && |lines| == |rs| + 1
      && lines[0] == Header
      && (forall i :: 1 <= i < |lines| ==> |lines[i]| == 6 && lines[i][0] == rs[i - 1].date)
      && (forall i, j :: 1 <= i < j < |lines| ==> Lexical.LessEq(lines[i][0], lines[j][0]))
  {
    ExportReadsBack(rs, show);
    var valuesOf := r => Values(r, show);
    forall r | r in rs
      ensures |valuesOf(r)| == 6 && valuesOf(r)[0] == r.date
    {
    }
    RowsAscending(rs, valuesOf);
  }

  /** Rows that lead with their record's date, over date-sorted records, are in ascending date order. */
  lemma RowsAscending(rs: seq<Record>, valuesOf: Record -> seq<string>)
    requires SortedByDate(rs)
    requires forall r :: r in rs ==> |valuesOf(r)| == 6 && valuesOf(r)[0] == r.date
    ensures var lines := [Header] + Rows(rs, valuesOf);
      && |lines| == |rs| + 1
      && lines[0] == Header
      && (forall i :: 1 <= i < |lines| ==> |lines[i]| == 6 && lines[i][0] == rs[i - 1].date)
      && (forall i, j :: 1 <= i < j < |lines| ==> Lexical.LessEq(lines[i][0], lines[j][0]))
  {
    var lines := [Header] + Rows(rs, valuesOf);
    forall i | 1 <= i < |lines|
      ensures |lines[i]| == 6 && lines[i][0] == rs[i - 1].date
    {
      assert lines[i] == valuesOf(rs[i - 1]);
    }
  }

  /** Each line after the header is `date,quantity,price,cost,paid,notes`: no trailing line break. */
  lemma RenderAppend(rs: seq<Record>, r: Record, show: real -> string)
    ensures Render(rs + [r], show) == Render(rs, show) + ['\n'] + Csv.Join(',', Cells(r, show))
  {
    var cellsOf := x => Cells(x, show);
    RowsSnoc(rs, r, cellsOf);
    assert Table(rs + [r], show) == Table(rs, show) + [Cells(r, show)];
    Csv.RenderSnoc(Table(rs, show), Cells(r, show));
  }

  lemma RowsSnoc(rs: seq<Record>, r: Record, row: Record -> seq<string>)
    ensures Rows(rs + [r], row) == Rows(rs, row) + [row(r)]
  {
  }

  // ---- the sorted order is determined -------------------------------------

  lemma CountDistinct(s: seq<Record>, x: Record)
    requires DistinctDates(s) && x in s
    ensures multiset(s)[x] == 1
  {
    if s[0] == x {
      assert x !in s[1..];
    } else {
      CountDistinct(s[1..], x);
    }
    assert s == [s[0]] + s[1..];
  }

  lemma CountTwice(t: seq<Record>, i: int, j: int)
    requires 0 <= i < j < |t| && t[i] == t[j]
    ensures multiset(t)[t[i]] >= 2
  {
    assert t == t[..j] + t[j..];
    assert t[i] in t[..j];
    assert t[j] in t[j..];
  }

  /** Reordering keeps dates distinct. */
  lemma PermutationDistinct(s: seq<Record>, t: seq<Record>)
    requires DistinctDates(s) && multiset(s) == multiset(t)
    ensures DistinctDates(t)
  {
    forall i, j | 0 <= i < j < |t|
      ensures t[i].date != t[j].date
    {
      assert t[i] in multiset(s) && t[j] in multiset(s);
      if t[i] == t[j] {
        CountTwice(t, i, j);
        CountDistinct(s, t[i]);
      }
    }
  }

  /** With distinct dates, the first record of a sorted list has the strictly earliest date. */
  lemma HeadEarliest(s: seq<Record>, k: int)
    requires DistinctDates(s) && SortedByDate(s) && 0 < k < |s|
    ensures Lexical.Less(s[0].date, s[k].date)
  {
    assert Lexical.LessEq(s[0].date, s[k].date);
  }

  /** Two date-sorted orderings of the same records with distinct dates are the same list. */
  lemma {:induction false} SortedUnique(s: seq<Record>, t: seq<Record>)
    requires DistinctDates(s) && SortedByDate(s) && SortedByDate(t)
    requires multiset(s) == multiset(t)
    ensures s == t
    decreases |s|
  {
    PermutationDistinct(s, t);
    assert |t| == |multiset(t)| == |s|;
    if |s| > 0 {
      SameHead(s, t);
      DropHead(s, t);
      SortedUnique(s[1..], t[1..]);
      assert s == [s[0]] + s[1..] && t == [t[0]] + t[1..];
    }
  }

  lemma SameHead(s: seq<Record>, t: seq<Record>)
    requires DistinctDates(s) && SortedByDate(s) && DistinctDates(t) && SortedByDate(t)
    requires multiset(s) == multiset(t) && |s| > 0
    ensures |t| > 0 && s[0] == t[0]
  {
    assert s[0] in multiset(t);
    var j :| 0 <= j < |t| && t[j] == s[0];
    assert t[0] in multiset(s);
    var i :| 0 <= i < |s| && s[i] == t[0];
    if j > 0 {
      HeadEarliest(t, j);
      if i > 0 {
        HeadEarliest(s, i);
        Lexical.Asymmetric(s[0].date, s[i].date);
      } else {
        Lexical.Irreflexive(s[0].date);
      }
    }
  }

  lemma DropHead(s: seq<Record>, t: seq<Record>)
    requires DistinctDates(s) && SortedByDate(s) && SortedByDate(t)
    requires multiset(s) == multiset(t) && |s| > 0 && |t| > 0 && s[0] == t[0]
    ensures DistinctDates(s[1..]) && SortedByDate(s[1..]) && SortedByDate(t[1..])
    ensures multiset(s[1..]) == multiset(t[1..])
  {
    TailSorted(s);
    TailSorted(t);
    TailMultiset(s);
    TailMultiset(t);
  }

  lemma TailSorted(s: seq<Record>)
    requires |s| > 0 && SortedByDate(s)
    ensures SortedByDate(s[1..])
    ensures DistinctDates(s) ==> DistinctDates(s[1..])
  {
    forall i, j | 0 <= i < j < |s| - 1
      ensures Lexical.LessEq(s[1..][i].date, s[1..][j].date)
    {
      assert s[1..][i] == s[i + 1] && s[1..][j] == s[j + 1];
    }
  }

  lemma TailMultiset(s: seq<Record>)
    requires |s| > 0
    ensures multiset(s[1..]) == multiset(s) - multiset{s[0]}
  {
    assert s == [s[0]] + s[1..];
  }
}
