/** Query results as a text table: the row cap, masked columns, and the layout. */
module TableRender {
  import opened Common

  /** A value as the renderer distinguishes them; `Other` carries its JSON text. */
  datatype Value = Null | Str(s: string) | Other(json: string)

  /** A result row: an object with its keys in order, or a bare value. */
  datatype Row = Object(fields: seq<(string, Value)>) | Bare

  datatype Rendered = Rendered(text: string, rowCount: nat)

  const MAX_CELL_CHARS := 500
  const REDACTED := "<redacted>"

  // ----- The row cap ------------------------------------------------------------------

  /** Over-fetched rows: at most `maxRows` are kept, and whether there were more. */
  method ParseRows(fetched: seq<Result<Row, string>>, maxRows: nat) returns (r: Result<(seq<Row>, bool), string>)
    ensures r.Ok? <==> forall i | 0 <= i < Min(|fetched|, maxRows) :: fetched[i].Ok?
    ensures r.Ok? ==>
      && |r.value.0| == Min(|fetched|, maxRows)
      && (forall i | 0 <= i < |r.value.0| :: fetched[i] == Ok(r.value.0[i]))
      && (r.value.1 <==> |fetched| > maxRows)
    ensures r.Err? ==>
      exists i :: 0 <= i < Min(|fetched|, maxRows) && fetched[i] == Err(r.error)
        && forall j | 0 <= j < i :: fetched[j].Ok?
  {
    var rows: seq<Row> := [];
    var truncated := false;
    var i := 0;
    while i < |fetched|
      invariant i == |rows| <= Min(|fetched|, maxRows) && !truncated
      invariant forall k | 0 <= k < i :: fetched[k] == Ok(rows[k])
    {
      if i >= maxRows {
        truncated := true;
        break;
      }
      if fetched[i].Err? {
        return Err(fetched[i].error);
      }
      rows := rows + [fetched[i].value];
      i := i + 1;
    }
    return Ok((rows, truncated));
  }

  // ----- Cells ------------------------------------------------------------------------

  function Truncated(s: string): string {
    if |s| > MAX_CELL_CHARS then s[..MAX_CELL_CHARS] + "\U{2026}" else s
  }

  method TruncateCell(s: string) returns (cell: string)
    ensures cell == Truncated(s)
    ensures |s| <= 500 ==> cell == s
    ensures |s| > 500 ==> |cell| == 501 && cell[..500] == s[..500] && cell[500..] == "\U{2026}"
  {
    var count := 0;
    while count < |s|
      invariant count <= |s| && count <= MAX_CELL_CHARS
    {
      if count + 1 > MAX_CELL_CHARS {
        return s[..count] + "\U{2026}";
      }
      count := count + 1;
    }
    return s;
  }

  function CellOf(v: Value): string {
    match v
    case Null => "NULL"
    case Str(s) => Truncated(s)
    case Other(json) => Truncated(json)
  }

  function Field(fields: seq<(string, Value)>, name: string): Option<Value> {
    if fields == [] then None
    else if fields[0].0 == name then Some(fields[0].1)
    else Field(fields[1..], name)
  }

  function CellIn(r: Row, column: string): string {
    match r
    case Bare => "NULL"
    case Object(fields) =>
      var v := Field(fields, column);
      if v.Some? then CellOf(v.value) else "NULL"
  }

  lemma CellsAreShort(r: Row, column: string)
    ensures |CellIn(r, column)| <= MAX_CELL_CHARS + 1
  {
  }

  /** A cell is `NULL` for a bare row, an absent key and a null; otherwise the text of the first field of that name, cut. */
  lemma CellIs(r: Row, column: string)
    ensures r.Bare? ==> CellIn(r, column) == "NULL"
    ensures r.Object? && (forall i | 0 <= i < |r.fields| :: r.fields[i].0 != column) ==> CellIn(r, column) == "NULL"
    ensures r.Object? ==>
      forall i | 0 <= i < |r.fields| && r.fields[i].0 == column && (forall j | 0 <= j < i :: r.fields[j].0 != column) ::
        var v := r.fields[i].1;
        && (v.Null? ==> CellIn(r, column) == "NULL")
        && (v.Str? ==> CellIn(r, column) == Truncated(v.s))
        && (v.Other? ==> CellIn(r, column) == Truncated(v.json))
  {
    if r.Object? { FieldIs(r.fields, column); }
  }

  lemma {:induction false} FieldIs(fields: seq<(string, Value)>, name: string)
    ensures Field(fields, name).None? <==> forall i | 0 <= i < |fields| :: fields[i].0 != name
    ensures forall i | 0 <= i < |fields| && fields[i].0 == name && (forall j | 0 <= j < i :: fields[j].0 != name) ::
              Field(fields, name) == Some(fields[i].1)
  {
    if fields != [] && fields[0].0 != name {
      var rest := fields[1..];
      FieldIs(rest, name);
      assert forall i | 0 <= i < |rest| :: rest[i] == fields[i + 1];
      forall i | 0 <= i < |fields| && fields[i].0 == name && (forall j | 0 <= j < i :: fields[j].0 != name)
        ensures Field(fields, name) == Some(fields[i].1)
      {
        assert rest[i - 1].0 == name && forall j | 0 <= j < i - 1 :: rest[j].0 != name;
      }
    }
  }

  /** The keys of the first row. */
  function ColumnsOf(rows: seq<Row>): seq<string> {
    if rows == [] then []
    else
      match rows[0]
      case Bare => ["?column?"]
      case Object(fields) => seq(|fields|, i requires 0 <= i < |fields| => fields[i].0)
  }

  function RowCells(r: Row, columns: seq<string>): seq<string> {
    seq(|columns|, i requires 0 <= i < |columns| => CellIn(r, columns[i]))
  }

  function Cells(rows: seq<Row>): seq<seq<string>> {
    seq(|rows|, i requires 0 <= i < |rows| => RowCells(rows[i], ColumnsOf(rows)))
  }

  /** The columns are the keys of the first row, in order, and each cell is that row's value of its column. */
  lemma PivotIs(rows: seq<Row>)
    ensures rows == [] ==> ColumnsOf(rows) == []
    ensures rows != [] && rows[0].Bare? ==> ColumnsOf(rows) == ["?column?"]
    ensures rows != [] && rows[0].Object? ==>
              |ColumnsOf(rows)| == |rows[0].fields|
              && forall i | 0 <= i < |rows[0].fields| :: ColumnsOf(rows)[i] == rows[0].fields[i].0
    ensures |Cells(rows)| == |rows| && forall i | 0 <= i < |rows| :: |Cells(rows)[i]| == |ColumnsOf(rows)|
    ensures forall i, j | 0 <= i < |rows| && 0 <= j < |ColumnsOf(rows)| ::
              Cells(rows)[i][j] == CellIn(rows[i], ColumnsOf(rows)[j])
  {
  }

  // ----- Masking ------------------------------------------------------------------------

  predicate EndsWith(s: string, suffix: string) { |suffix| <= |s| && s[|s| - |suffix|..] == suffix }

  predicate MatchesColumn(column: string, pattern: string) {
    Lower(column) == Lower(pattern) || EndsWith(Lower(column), "." + Lower(pattern))
  }

  predicate Sensitive(column: string, patterns: seq<string>) {
    exists i :: 0 <= i < |patterns| && MatchesColumn(column, patterns[i])
  }

  /** `p` is `c`, or what follows some dot in it. */
  predicate NamesAfterDot(c: string, p: string) { exists k :: 0 <= k <= |c| && c[k..] == p && (k == 0 || c[k - 1] == '.') }

  /** A column is sensitive when some pattern is its name, or what follows a dot in it, in whatever case. */
  lemma SensitiveIff(column: string, patterns: seq<string>)
    ensures Sensitive(column, patterns) <==>
              exists i :: 0 <= i < |patterns| && NamesAfterDot(Lower(column), Lower(patterns[i]))
  {
    forall i | 0 <= i < |patterns|
      ensures MatchesColumn(column, patterns[i]) <==> NamesAfterDot(Lower(column), Lower(patterns[i]))
    {
      MatchesIff(Lower(column), Lower(patterns[i]));
    }
  }

  lemma MatchesIff(c: string, p: string)
    ensures c == p || EndsWith(c, "." + p) <==> NamesAfterDot(c, p)
  {
    assert c[0..] == c;
    if EndsWith(c, "." + p) {
      var k := |c| - |p|;
      assert c[k - 1..][1..] == c[k..];
      assert c[k..] == p && c[k - 1] == ("." + p)[0];
    }
    if k :| 0 < k <= |c| && c[k..] == p && c[k - 1] == '.' {
      assert c[k - 1..] == "." + p;
    }
  }

  function MaskedRow(columns: seq<string>, cells: seq<string>, patterns: seq<string>): seq<string> {
    seq(|cells|, i requires 0 <= i < |cells| =>
      if i < |columns| && Sensitive(columns[i], patterns) then REDACTED else cells[i])
  }

  function Masked(columns: seq<string>, cells: seq<seq<string>>, patterns: seq<string>): seq<seq<string>> {
    if patterns == [] then cells
    else seq(|cells|, i requires 0 <= i < |cells| => MaskedRow(columns, cells[i], patterns))
  }

  /** Sensitive columns hold the mark and nothing else; every other cell is as it was. */
  lemma MaskingIsExact(columns: seq<string>, cells: seq<seq<string>>, patterns: seq<string>)
    ensures |Masked(columns, cells, patterns)| == |cells|
    ensures forall i | 0 <= i < |cells| :: |Masked(columns, cells, patterns)[i]| == |cells[i]|
    ensures forall i, j | 0 <= i < |cells| && 0 <= j < |cells[i]| ::
      Masked(columns, cells, patterns)[i][j]
        == if j < |columns| && Sensitive(columns[j], patterns) then REDACTED else cells[i][j]
  {
    if patterns == [] {
      assert forall c :: !Sensitive(c, patterns);
    }
  }

  // ----- Layout ---------------------------------------------------------------------------

  /** The longest cell of column `i`. */
  function WidestCell(rows: seq<seq<string>>, i: nat): nat {
    if rows == [] then 0
    else
      var w := if i < |rows[0]| then |rows[0][i]| else 0;
      var rest := WidestCell(rows[1..], i);
      if w >= rest then w else rest
  }

  function Widths(columns: seq<string>, rows: seq<seq<string>>): seq<nat> {
    seq(|columns|, i requires 0 <= i < |columns| =>
      if |columns[i]| >= WidestCell(rows, i) then |columns[i]| else WidestCell(rows, i))
  }

  /** A column is as wide as its name or its longest cell. */
  lemma WidthsAre(columns: seq<string>, rows: seq<seq<string>>, i: nat)
    requires i < |columns|
    ensures var w := Widths(columns, rows)[i];
      && |columns[i]| <= w && (forall k | 0 <= k < |rows| && i < |rows[k]| :: |rows[k][i]| <= w)
      && (w == |columns[i]| || exists k :: 0 <= k < |rows| && i < |rows[k]| && |rows[k][i]| == w)
  {
    WidestIs(rows, i);
  }

  lemma {:induction false} WidestIs(rows: seq<seq<string>>, i: nat)
    ensures forall k | 0 <= k < |rows| && i < |rows[k]| :: |rows[k][i]| <= WidestCell(rows, i)
    ensures WidestCell(rows, i) == 0 || exists k :: 0 <= k < |rows| && i < |rows[k]| && |rows[k][i]| == WidestCell(rows, i)
  {
    if rows != [] {
      var rest := rows[1..];
      WidestIs(rest, i);
      assert forall k | 0 < k < |rows| :: rows[k] == rest[k - 1];
      if WidestCell(rest, i) > 0 {
        var k :| 0 <= k < |rest| && i < |rest[k]| && |rest[k][i]| == WidestCell(rest, i);
        assert rows[k + 1] == rest[k];
      }
    }
  }

  function PaddedCells(cells: seq<string>, widths: seq<nat>): seq<string> {
    seq(Min(|cells|, |widths|), i requires 0 <= i < Min(|cells|, |widths|) => Padded(cells[i], widths[i]))
  }

  function RowLine(cells: seq<string>, widths: seq<nat>): string { Joined(PaddedCells(cells, widths), " | ") }

  function Dashes(widths: seq<nat>): seq<string> {
    seq(|widths|, i requires 0 <= i < |widths| => seq(widths[i], _ => '-'))
  }

  function SeparatorLine(widths: seq<nat>): string { Joined(Dashes(widths), "-+-") }

  function RowLines(rows: seq<seq<string>>, widths: seq<nat>): string {
    if rows == [] then "" else RowLines(rows[..|rows| - 1], widths) + (RowLine(rows[|rows| - 1], widths) + "\n")
  }

  function Footer(count: nat, truncated: bool, cap: nat): string {
    "\n(" + Digits(count) + " rows)" + (if truncated then " \U{2014} truncated at " + Digits(cap) else "")
  }

  function Table(columns: seq<string>, rows: seq<seq<string>>, truncated: bool, cap: nat): string {
    if rows == [] then "(0 rows)\ncolumns: " + Joined(columns, ", ")
    else
      var widths := Widths(columns, rows);
      RowLine(columns, widths) + "\n" + (SeparatorLine(widths) + "\n") + RowLines(rows, widths)
      + Footer(|rows|, truncated, cap)
  }

  method FormatRow(out: string, cells: seq<string>, widths: seq<nat>) returns (longer: string)
    ensures longer == out + (RowLine(cells, widths) + "\n")
  {
    var parts: seq<string> := [];
    var i := 0;
    while i < |cells| && i < |widths|
      invariant i <= Min(|cells|, |widths|) && parts == PaddedCells(cells, widths)[..i]
    {
      parts := parts + [Padded(cells[i], widths[i])];
      i := i + 1;
    }
    assert parts == PaddedCells(cells, widths);
    var line := Join(parts, " | ");
    longer := out + (line + "\n");
  }

  lemma RowAdded(head: string, out: string, rows: seq<seq<string>>, widths: seq<nat>, i: nat)
    requires i < |rows| && out == head + RowLines(rows[..i], widths)
    ensures out + (RowLine(rows[i], widths) + "\n") == head + RowLines(rows[..i + 1], widths)
  {
    assert rows[..i + 1][..i] == rows[..i];
    Associative(head, RowLines(rows[..i], widths), RowLine(rows[i], widths) + "\n");
  }

  lemma TableIs(columns: seq<string>, rows: seq<seq<string>>, truncated: bool, cap: nat, widths: seq<nat>, head: string)
    requires rows != [] && widths == Widths(columns, rows)
    requires head == RowLine(columns, widths) + "\n" + (SeparatorLine(widths) + "\n")
    ensures Table(columns, rows, truncated, cap) == head + RowLines(rows, widths) + Footer(|rows|, truncated, cap)
  {
  }

  method RenderTable(columns: seq<string>, rows: seq<seq<string>>, truncated: bool, cap: nat) returns (out: string)
    ensures out == Table(columns, rows, truncated, cap)
    ensures rows == [] ==> out == "(0 rows)\ncolumns: " + Joined(columns, ", ")
  {
    if rows == [] {
      var names := Join(columns, ", ");
      return "(0 rows)\ncolumns: " + names;
    }
    var widths := Widths(columns, rows);
    out := FormatRow("", columns, widths);
    var separator := Join(Dashes(widths), "-+-");
    out := out + (separator + "\n");
    ghost var head := out;
    assert head == RowLine(columns, widths) + "\n" + (SeparatorLine(widths) + "\n");
    var i := 0;
    while i < |rows|
      invariant i <= |rows| && out == head + RowLines(rows[..i], widths)
    {
      RowAdded(head, out, rows, widths, i);
      out := FormatRow(out, rows[i], widths);
      i := i + 1;
    }
    assert rows[..i] == rows;
    TableIs(columns, rows, truncated, cap, widths, head);
    out := out + Footer(|rows|, truncated, cap);
  }

  method FormatTable(rows: seq<Row>, patterns: seq<string>, truncated: bool, cap: nat) returns (r: Rendered)
    ensures r == Rendered(Table(ColumnsOf(rows), Masked(ColumnsOf(rows), Cells(rows), patterns), truncated, cap), |rows|)
  {
    var columns, cells := ColumnsOf(rows), Cells(rows);
    var text := RenderTable(columns, Masked(columns, cells, patterns), truncated, cap);
    r := Rendered(text, |cells|);
  }
}
