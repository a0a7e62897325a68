/**
 * Comma-separated text as exportToCSV writes it: cells joined by `,`, lines
 * joined by `\n` with no trailing newline, and a text cell wrapped in `"` with
 * each inner `"` doubled. `Read` is a reader that honours that quoting; it is
 * the inverse the writer is proved against.
 */
module Csv {

  /** `parts.join(sep)` */
  function Join(sep: char, parts: seq<string>): string {
    if parts == [] then ""
    else if |parts| == 1 then parts[0]
    else parts[0] + [sep] + Join(sep, parts[1..])
  }

  /** A cell that can be written as it is: no comma, quote or line break. */
  predicate Plain(s: string) {
    forall i :: 0 <= i < |s| ==> s[i] != ',' && s[i] != '"' && s[i] != '\n'
  }

  /** `s.replace(/"/g, '""')` */
  function Escape(s: string): string {
    if s == [] then []
    else (if s[0] == '"' then ['"', '"'] else [s[0]]) + Escape(s[1..])
  }

  /** `"${Escape(s)}"` */
  function Quote(s: string): string {
    ['"'] + Escape(s) + ['"']
  }

  /** Lines of cells, as text. */
  function Render(table: seq<seq<string>>): string {
    Join('\n', seq(|table|, k requires 0 <= k < |table| => Join(',', table[k])))
  }

  // ---- reading ----------------------------------------------------------

  predicate EndsCell(rest: string) {
    rest == [] || rest[0] == ',' || rest[0] == '\n'
  }

  /** An unquoted cell: everything up to the next comma or line break. */
  function ReadPlain(s: string): (r: (string, string))
    ensures |r.1| <= |s|
  {
    if s == [] || s[0] == ',' || s[0] == '\n' then ([], s)
    else
      var (v, rest) := ReadPlain(s[1..]);
      ([s[0]] + v, rest)
  }

  /** A quoted cell after its opening quote: `""` stands for `"`, a lone `"` closes it. */
  function ReadQuoted(s: string): (r: (string, string))
    ensures |r.1| < |s| || (s == [] && r.1 == [])
  {
    if s == [] then ([], [])
    else if s[0] == '"' then
      if |s| > 1 && s[1] == '"' then
        var (v, rest) := ReadQuoted(s[2..]);
        (['"'] + v, rest)
      else ([], s[1..])
    else
      var (v, rest) := ReadQuoted(s[1..]);
      ([s[0]] + v, rest)
  }

  function ReadCell(s: string): (r: (string, string))
    ensures |r.1| <= |s|
  {
    if s != [] && s[0] == '"' then ReadQuoted(s[1..]) else ReadPlain(s)
  }

  /** The cells of one line, and the text after it. */
  function ReadLine(s: string): (r: (seq<string>, string))
    ensures |r.1| <= |s|
    decreases |s|
  {
    var (cell, rest) := ReadCell(s);
    if rest != [] && rest[0] == ',' then
      var (cells, after) := ReadLine(rest[1..]);
      ([cell] + cells, after)
    else ([cell], rest)
  }

  /** All lines of a document. */
  function Read(s: string): seq<seq<string>>
    decreases |s|
  {
    var (cells, rest) := ReadLine(s);
    if rest != [] && rest[0] == '\n' then [cells] + Read(rest[1..]) else [cells]
  }

  // ---- writing then reading gives the cells back ---------------------------

  /** `cell` is how the writer renders `value`: as it is, or quoted. */
  predicate Encodes(cell: string, value: string) {
    (Plain(value) && cell == value) || cell == Quote(value)
  }

  lemma {:induction false} ReadPlainOf(v: string, rest: string)
    requires Plain(v) && EndsCell(rest)
    ensures ReadPlain(v + rest) == (v, rest)
    decreases |v|
  {
    if v == [] {
      assert v + rest == rest;
    } else {
      assert (v + rest)[1..] == v[1..] + rest;
      ReadPlainOf(v[1..], rest);
      assert v == [v[0]] + v[1..];
    }
  }

  lemma {:induction false} ReadQuotedOf(v: string, rest: string)
    requires rest == [] || rest[0] != '"'
    ensures ReadQuoted(Escape(v) + ['"'] + rest) == (v, rest)
    decreases |v|
  {
    var s := Escape(v) + ['"'] + rest;
    if v == [] {
      assert s == ['"'] + rest;
      assert s[1..] == rest;
    } else {
      ReadQuotedOf(v[1..], rest);
      assert v == [v[0]] + v[1..];
      if v[0] == '"' {
        assert s == ['"', '"'] + (Escape(v[1..]) + ['"'] + rest);
        assert s[2..] == Escape(v[1..]) + ['"'] + rest;
      } else {
        assert s == [v[0]] + (Escape(v[1..]) + ['"'] + rest);
        assert s[1..] == Escape(v[1..]) + ['"'] + rest;
      }
    }
  }

  /** A rendered cell followed by a separator (or nothing) reads back as its value. */
  lemma ReadCellOf(cell: string, value: string, rest: string)
    requires Encodes(cell, value) && EndsCell(rest)
    ensures ReadCell(cell + rest) == (value, rest)
  {
    if Plain(value) && cell == value {
      ReadPlainOf(value, rest);
      if cell != [] { assert (cell + rest)[0] == cell[0]; }
    } else {
      var s := cell + rest;
      assert s == ['"'] + (Escape(value) + ['"'] + rest);
      assert s[1..] == Escape(value) + ['"'] + rest;
      ReadQuotedOf(value, rest);
    }
  }

  /** A rendered line followed by a line break (or nothing) reads back as its values. */
  lemma {:induction false} ReadLineOf(cells: seq<string>, values: seq<string>, rest: string)
    requires |cells| == |values| >= 1
    requires forall i :: 0 <= i < |cells| ==> Encodes(cells[i], values[i])
    requires rest == [] || rest[0] == '\n'
    ensures ReadLine(Join(',', cells) + rest) == (values, rest)
    decreases |cells|
  {
    if |cells| == 1 {
      assert Join(',', cells) == cells[0];
      ReadCellOf(cells[0], values[0], rest);
      assert values == [values[0]];
    } else {
      var tail := Join(',', cells[1..]) + rest;
      assert Join(',', cells) + rest == cells[0] + ([','] + tail);
      ReadCellOf(cells[0], values[0], [','] + tail);
      assert ([','] + tail)[1..] == tail;
      ReadLineOf(cells[1..], values[1..], rest);
      assert values == [values[0]] + values[1..];
    }
  }

  /**
   * Reading a rendered table gives back every line's values: one line per row,
   * in order, whatever the quoted cells contain (commas, quotes, line breaks).
   */
  lemma {:induction false} ReadRender(cells: seq<seq<string>>, values: seq<seq<string>>)
    requires |cells| == |values| >= 1
    requires forall k :: 0 <= k < |cells| ==> |cells[k]| == |values[k]| >= 1
    requires forall k, i :: 0 <= k < |cells| && 0 <= i < |cells[k]| ==> Encodes(cells[k][i], values[k][i])
    ensures Read(Render(cells)) == values
    decreases |cells|
  {
    var lines := seq(|cells|, k requires 0 <= k < |cells| => Join(',', cells[k]));
    if |cells| == 1 {
      assert Render(cells) == Join(',', cells[0]) + [];
      ReadLineOf(cells[0], values[0], []);
    } else {
      var tail := Render(cells[1..]);
      assert lines[1..] == seq(|cells[1..]|, k requires 0 <= k < |cells[1..]| => Join(',', cells[1..][k]));
      assert Render(cells) == Join(',', cells[0]) + (['\n'] + tail);
      ReadLineOf(cells[0], values[0], ['\n'] + tail);
      assert (['\n'] + tail)[1..] == tail;
      ReadRender(cells[1..], values[1..]);
      assert values == [values[0]] + values[1..];
    }
  }

  /** Appending a line adds one line break and that line: the text never ends in a line break of its own. */
  lemma RenderSnoc(table: seq<seq<string>>, line: seq<string>)
    requires table != []
    ensures Render(table + [line]) == Render(table) + ['\n'] + Join(',', line)
  {
    var lines := seq(|table|, k requires 0 <= k < |table| => Join(',', table[k]));
    var t := table + [line];
    var lines' := seq(|t|, k requires 0 <= k < |t| => Join(',', t[k]));
    assert lines' == lines + [Join(',', line)];
    JoinSnoc('\n', lines, Join(',', line));
  }

  lemma {:induction false} JoinSnoc(sep: char, parts: seq<string>, x: string)
    requires parts != []
    ensures Join(sep, parts + [x]) == Join(sep, parts) + [sep] + x
    decreases |parts|
  {
    if |parts| == 1 {
      assert parts + [x] == [parts[0], x];
    } else {
      assert (parts + [x])[1..] == parts[1..] + [x];
      JoinSnoc(sep, parts[1..], x);
    }
  }
}
