/** Properties of rendered tables: columns line up, and masked values leave no trace. */
module TableLayout {
  import opened Common
  import opened TableRender

  // ----- Lengths and offsets ------------------------------------------------------------

  function Sum(widths: seq<nat>): nat {
    if widths == [] then 0 else widths[0] + Sum(widths[1..])
  }

  /** Where column `i` starts in a line. */
  function Offset(widths: seq<nat>, i: nat): nat
    requires i <= |widths|
  {
    Sum(widths[..i]) + 3 * i
  }

  /** Parts of the given widths. */
  predicate Sized(parts: seq<string>, widths: seq<nat>) {
    |parts| == |widths| && forall i | 0 <= i < |parts| :: |parts[i]| == widths[i]
  }

  lemma {:induction false} JoinedLength(parts: seq<string>, sep: string, widths: seq<nat>)
    requires Sized(parts, widths) && parts != [] && |sep| == 3
    ensures |Joined(parts, sep)| == Sum(widths) + 3 * (|parts| - 1)
  {
    if |parts| > 1 {
      JoinedLength(parts[1..], sep, widths[1..]);
    } else {
      assert widths[1..] == [];
    }
  }

  lemma {:induction false} SumSnoc(widths: seq<nat>, i: nat)
    requires i < |widths|
    ensures Sum(widths[..i + 1]) == Sum(widths[..i]) + widths[i]
  {
    if i == 0 {
      assert widths[..1][1..] == [];
    } else {
      SumSnoc(widths[1..], i - 1);
      assert widths[..i + 1][1..] == widths[1..][..i] && widths[..i][1..] == widths[1..][..i - 1];
    }
  }

  lemma ShiftedSlice(a: string, b: string, k: nat, n: nat)
    requires k + n <= |b|
    ensures (a + b)[|a| + k..|a| + k + n] == b[k..k + n]
  {
  }

  lemma OffsetTail(widths: seq<nat>, i: nat)
    requires 0 < i <= |widths|
    ensures Offset(widths, i) == widths[0] + 3 + Offset(widths[1..], i - 1)
  {
    assert widths[..i][1..] == widths[1..][..i - 1];
  }

  /** Column `i` of a joined line is part `i`, at the offset the widths give it. */
  lemma {:induction false} PartAtOffset(parts: seq<string>, sep: string, widths: seq<nat>, i: nat)
    requires Sized(parts, widths) && |sep| == 3 && i < |parts|
    ensures Offset(widths, i) + widths[i] <= |Joined(parts, sep)|
    ensures Joined(parts, sep)[Offset(widths, i)..Offset(widths, i) + widths[i]] == parts[i]
  {
    if i == 0 {
      assert widths[..0] == [];
      if |parts| == 1 {
        assert Joined(parts, sep) == parts[0];
      } else {
        FirstSlice(parts[0], sep + Joined(parts[1..], sep));
      }
    } else {
      PartAtOffset(parts[1..], sep, widths[1..], i - 1);
      OffsetTail(widths, i);
      var rest := Joined(parts[1..], sep);
      Associative(parts[0], sep, rest);
      ShiftedSlice(parts[0] + sep, rest, Offset(widths[1..], i - 1), widths[i]);
    }
  }

  lemma FirstSlice(a: string, b: string)
    ensures (a + b)[0..|a|] == a
  {
  }

  /** Between columns `i` and `i + 1` of a joined line stands the separator. */
  lemma {:induction false} SeparatorAtOffset(parts: seq<string>, sep: string, widths: seq<nat>, i: nat, at: nat)
    requires Sized(parts, widths) && |sep| == 3 && i + 1 < |parts| && at == Offset(widths, i) + widths[i]
    ensures at + 3 <= |Joined(parts, sep)| && Joined(parts, sep)[at..at + 3] == sep
  {
    var rest := Joined(parts[1..], sep);
    Associative(parts[0], sep, rest);
    if i == 0 {
      assert widths[..0] == [];
      assert (parts[0] + sep + rest)[|parts[0]|..|parts[0]| + 3] == sep;
    } else {
      OffsetTail(widths, i);
      SeparatorAtOffset(parts[1..], sep, widths[1..], i - 1, at - widths[0] - 3);
      ShiftedSlice(parts[0] + sep, rest, at - widths[0] - 3, 3);
    }
  }

  lemma {:induction false} WidestCellCovers(rows: seq<seq<string>>, i: nat, k: nat)
    requires k < |rows| && i < |rows[k]|
    ensures |rows[k][i]| <= WidestCell(rows, i)
  {
    if k > 0 {
      WidestCellCovers(rows[1..], i, k - 1);
    }
  }

  lemma {:induction false} WidestCellIsBounded(rows: seq<seq<string>>, i: nat, bound: nat)
    requires forall k | 0 <= k < |rows| && i < |rows[k]| :: |rows[k][i]| <= bound
    ensures WidestCell(rows, i) <= bound
  {
    if rows != [] {
      forall k | 0 <= k < |rows[1..]| && i < |rows[1..][k]|
        ensures |rows[1..][k][i]| <= bound
      {
        assert rows[1..][k] == rows[k + 1];
      }
      WidestCellIsBounded(rows[1..], i, bound);
    }
  }

  lemma PaddedIsSized(cells: seq<string>, widths: seq<nat>)
    requires |cells| == |widths| && forall i | 0 <= i < |cells| :: |cells[i]| <= widths[i]
    ensures Sized(PaddedCells(cells, widths), widths)
  {
  }

  lemma CellsFit(columns: seq<string>, rows: seq<seq<string>>, k: nat)
    requires k < |rows| && |rows[k]| == |columns|
    ensures Sized(PaddedCells(rows[k], Widths(columns, rows)), Widths(columns, rows))
  {
    forall i | 0 <= i < |rows[k]|
      ensures |rows[k][i]| <= Widths(columns, rows)[i]
    {
      WidestCellCovers(rows, i, k);
    }
    PaddedIsSized(rows[k], Widths(columns, rows));
  }

  /** Header, separator and every row have the same length, and column `i` stands at the same place in each. */
  lemma ColumnsLineUp(columns: seq<string>, rows: seq<seq<string>>, k: nat, i: nat)
    requires k < |rows| && |rows[k]| == |columns| && i < |columns|
    ensures var w := Widths(columns, rows);
      var from := Offset(w, i);
      && |RowLine(columns, w)| == |SeparatorLine(w)| == |RowLine(rows[k], w)| == Sum(w) + 3 * (|columns| - 1)
      && from + w[i] <= Sum(w) + 3 * (|columns| - 1)
      && RowLine(columns, w)[from..from + w[i]] == Padded(columns[i], w[i])
      && RowLine(rows[k], w)[from..from + w[i]] == Padded(rows[k][i], w[i])
      && SeparatorLine(w)[from..from + w[i]] == Dashes(w)[i]
  {
    var w := Widths(columns, rows);
    PaddedIsSized(columns, w);
    CellsFit(columns, rows, k);
    JoinedLength(PaddedCells(columns, w), " | ", w);
    JoinedLength(PaddedCells(rows[k], w), " | ", w);
    JoinedLength(Dashes(w), "-+-", w);
    PartAtOffset(PaddedCells(columns, w), " | ", w, i);
    PartAtOffset(PaddedCells(rows[k], w), " | ", w, i);
    PartAtOffset(Dashes(w), "-+-", w, i);
  }

  /** Between two columns stands a bar in the header and the rows, and a crossing in the separator, each at the same place. */
  lemma BarsLineUp(columns: seq<string>, rows: seq<seq<string>>, k: nat, i: nat, w: seq<nat>, at: nat)
    requires k < |rows| && |rows[k]| == |columns| && i + 1 < |columns|
    requires w == Widths(columns, rows) && at == Offset(w, i) + w[i]
    ensures at + 3 <= |RowLine(columns, w)| && RowLine(columns, w)[at..at + 3] == " | "
    ensures at + 3 <= |RowLine(rows[k], w)| && RowLine(rows[k], w)[at..at + 3] == " | "
    ensures at + 3 <= |SeparatorLine(w)| && SeparatorLine(w)[at..at + 3] == "-+-"
  {
    PaddedIsSized(columns, w);
    CellsFit(columns, rows, k);
    SeparatorAtOffset(PaddedCells(columns, w), " | ", w, i, at);
    SeparatorAtOffset(PaddedCells(rows[k], w), " | ", w, i, at);
    SeparatorAtOffset(Dashes(w), "-+-", w, i, at);
  }

  // ----- The lines of the text ---------------------------------------------------------------

  /** The text between line feeds. */
  function Pieces(text: string): seq<string>
    decreases |text|
  {
    var n := LineLength(text);
    if n == |text| then [text] else [text[..n]] + Pieces(text[n + 1..])
  }

  function Feeds(text: string): nat {
    if text == "" then 0 else (if text[0] == '\n' then 1 else 0) + Feeds(text[1..])
  }

  lemma {:induction false} FeedsJoin(a: string, b: string)
    ensures Feeds(a + b) == Feeds(a) + Feeds(b)
  {
    if a == "" {
      assert a + b == b;
    } else {
      assert (a + b)[1..] == a[1..] + b;
      FeedsJoin(a[1..], b);
    }
  }

  lemma {:induction false} FeedsCount(text: string)
    ensures Feeds(text) == 0 <==> '\n' !in text
  {
    if text != "" {
      FeedsCount(text[1..]);
      assert text == [text[0]] + text[1..];
    }
  }

  lemma {:induction false} PiecesCount(text: string)
    ensures |Pieces(text)| == 1 + Feeds(text)
    decreases |text|
  {
    var n := LineLength(text);
    FeedsCount(text[..n]);
    if n == |text| {
      assert text[..n] == text;
    } else {
      var rest := text[n + 1..];
      PiecesCount(rest);
      assert text == text[..n] + ("\n" + rest);
      FeedsJoin(text[..n], "\n" + rest);
      assert ("\n" + rest)[1..] == rest;
    }
  }

  lemma PiecesOfFirst(line: string, rest: string)
    requires '\n' !in line
    ensures Pieces(line + ("\n" + rest)) == [line] + Pieces(rest)
  {
    LineLengthOf(line, rest);
    var text := line + ("\n" + rest);
    assert text[..|line|] == line && text[|line| + 1..] == rest;
  }

  lemma PiecesOfLast(last: string)
    requires '\n' !in last
    ensures Pieces(last) == [last]
  {
  }

  predicate NoFeeds(lines: seq<string>) { forall i | 0 <= i < |lines| :: '\n' !in lines[i] }

  lemma {:induction false} PiecesOfLines(lines: seq<string>, last: string, text: string)
    requires NoFeeds(lines) && '\n' !in last && text == FlatMap(Ended, lines) + last
    ensures Pieces(text) == lines + [last]
  {
    if lines == [] {
      PiecesOfLast(last);
      assert text == last;
    } else {
      var rest := FlatMap(Ended, lines[1..]) + last;
      NoFeedsInTail(lines);
      EndedFirst(lines[0], FlatMap(Ended, lines[1..]), last);
      PiecesOfFirst(lines[0], rest);
      PiecesOfLines(lines[1..], last, rest);
      Associative([lines[0]], lines[1..], [last]);
    }
  }

  lemma NoFeedsInTail(lines: seq<string>)
    requires lines != [] && NoFeeds(lines)
    ensures NoFeeds(lines[1..]) && '\n' !in lines[0]
  {
  }

  lemma EndedFirst(line: string, more: string, last: string)
    ensures Ended(line) + more + last == line + ("\n" + (more + last))
  {
  }

  lemma {:induction false} ManyFeeds(lines: seq<string>)
    ensures Feeds(FlatMap(Ended, lines)) >= |lines|
    ensures Feeds(FlatMap(Ended, lines)) == |lines| <==> NoFeeds(lines)
  {
    if lines != [] {
      ManyFeeds(lines[1..]);
      FeedsJoin(Ended(lines[0]), FlatMap(Ended, lines[1..]));
      FeedsJoin(lines[0], "\n");
      FeedsCount(lines[0]);
      assert Feeds("\n") == 1 by { assert "\n"[1..] == ""; }
      assert forall i | 0 < i < |lines| :: lines[i] == lines[1..][i - 1];
      assert forall i | 0 <= i < |lines[1..]| :: lines[1..][i] == lines[i + 1];
    }
  }

  /** Joined lines split back into themselves if and only if none of them has a line feed. */
  lemma LinesSplitBackIff(lines: seq<string>, last: string)
    requires '\n' !in last
    ensures Pieces(FlatMap(Ended, lines) + last) == lines + [last] <==> NoFeeds(lines)
  {
    var text := FlatMap(Ended, lines) + last;
    ManyFeeds(lines);
    FeedsJoin(FlatMap(Ended, lines), last);
    FeedsCount(last);
    PiecesCount(text);
    if NoFeeds(lines) {
      PiecesOfLines(lines, last, text);
    }
  }

  lemma {:induction false} FeedInJoined(parts: seq<string>, sep: string)
    requires '\n' !in sep
    ensures '\n' in Joined(parts, sep) <==> !NoFeeds(parts)
  {
    if |parts| > 1 {
      FeedInJoined(parts[1..], sep);
      assert forall i | 0 < i < |parts| :: parts[i] == parts[1..][i - 1];
      assert forall i | 0 <= i < |parts[1..]| :: parts[1..][i] == parts[i + 1];
    }
  }

  lemma FeedInRow(cells: seq<string>, widths: seq<nat>)
    requires |cells| == |widths|
    ensures '\n' in RowLine(cells, widths) <==> !NoFeeds(cells)
  {
    var parts := PaddedCells(cells, widths);
    FeedInJoined(parts, " | ");
    forall i | 0 <= i < |cells|
      ensures '\n' in parts[i] <==> '\n' in cells[i]
    {
      FeedInPadded(cells[i], widths[i]);
    }
  }

  lemma FeedInPadded(s: string, width: nat)
    ensures '\n' in Padded(s, width) <==> '\n' in s
  {
    if |s| < width {
      var blanks := Blanks(width - |s|);
      assert forall i | 0 <= i < |blanks| :: blanks[i] == ' ';
    }
  }

  lemma NoFeedInSeparator(widths: seq<nat>)
    ensures '\n' !in SeparatorLine(widths)
  {
    FeedInJoined(Dashes(widths), "-+-");
  }

  function RowStrings(rows: seq<seq<string>>, widths: seq<nat>): seq<string> {
    seq(|rows|, i requires 0 <= i < |rows| => RowLine(rows[i], widths))
  }

  lemma {:induction false} RowLinesAreEnded(rows: seq<seq<string>>, widths: seq<nat>)
    ensures RowLines(rows, widths) == FlatMap(Ended, RowStrings(rows, widths))
  {
    if rows != [] {
      var init, last := rows[..|rows| - 1], rows[|rows| - 1];
      RowLinesAreEnded(init, widths);
      assert RowStrings(rows, widths) == RowStrings(init, widths) + [RowLine(last, widths)];
      FlatMapSnoc(Ended, RowStrings(init, widths), RowLine(last, widths));
    }
  }

  /** What follows the blank line at the end. */
  function Summary(count: nat, truncated: bool, cap: nat): string {
    "(" + Digits(count) + " rows)" + (if truncated then " \U{2014} truncated at " + Digits(cap) else "")
  }

  lemma {:induction false} NoFeedInDigits(n: nat)
    ensures '\n' !in Digits(n)
  {
    if n >= 10 {
      NoFeedInDigits(n / 10);
    }
  }

  lemma NoFeedInSummary(count: nat, truncated: bool, cap: nat)
    ensures '\n' !in Summary(count, truncated, cap)
    ensures Footer(count, truncated, cap) == Ended("") + Summary(count, truncated, cap)
  {
    NoFeedInDigits(count);
    NoFeedInDigits(cap);
  }

  /** The lines a table is meant to have before its summary. */
  function TableLines(columns: seq<string>, rows: seq<seq<string>>): seq<string> {
    var w := Widths(columns, rows);
    [RowLine(columns, w), SeparatorLine(w)] + RowStrings(rows, w) + [""]
  }

  lemma TableIsItsLines(columns: seq<string>, rows: seq<seq<string>>, truncated: bool, cap: nat)
    requires rows != []
    ensures Table(columns, rows, truncated, cap)
         == FlatMap(Ended, TableLines(columns, rows)) + Summary(|rows|, truncated, cap)
  {
    var w := Widths(columns, rows);
    var head, body := [RowLine(columns, w), SeparatorLine(w)], RowStrings(rows, w);
    RowLinesAreEnded(rows, w);
    FlatMapOne(Ended, RowLine(columns, w));
    FlatMapSnoc(Ended, [RowLine(columns, w)], SeparatorLine(w));
    assert [RowLine(columns, w)] + [SeparatorLine(w)] == head;
    FlatMapAppend(Ended, head, body);
    FlatMapSnoc(Ended, head + body, "");
    NoFeedInSummary(|rows|, truncated, cap);
    Associative(FlatMap(Ended, head + body), Ended(""), Summary(|rows|, truncated, cap));
  }

  predicate NoFeedsInCells(columns: seq<string>, rows: seq<seq<string>>) {
    NoFeeds(columns) && forall k | 0 <= k < |rows| :: NoFeeds(rows[k])
  }

  /**
   The lines of a rendered table are its header, its separator, its rows, a blank
   line and the summary if and only if no column name and no cell has a line feed.
   */
  lemma LinesOfTableIff(columns: seq<string>, rows: seq<seq<string>>, truncated: bool, cap: nat)
    requires rows != [] && forall k | 0 <= k < |rows| :: |rows[k]| == |columns|
    ensures NoFeedsInCells(columns, rows) <==>
      Pieces(Table(columns, rows, truncated, cap)) == TableLines(columns, rows) + [Summary(|rows|, truncated, cap)]
  {
    TableIsItsLines(columns, rows, truncated, cap);
    NoFeedInSummary(|rows|, truncated, cap);
    LinesSplitBackIff(TableLines(columns, rows), Summary(|rows|, truncated, cap));
    FeedsInTableLines(columns, rows);
  }

  lemma FeedsInTableLines(columns: seq<string>, rows: seq<seq<string>>)
    requires forall k | 0 <= k < |rows| :: |rows[k]| == |columns|
    ensures NoFeeds(TableLines(columns, rows)) <==> NoFeedsInCells(columns, rows)
  {
    var w, lines := Widths(columns, rows), TableLines(columns, rows);
    FeedInRow(columns, w);
    NoFeedInSeparator(w);
    assert lines[0] == RowLine(columns, w) && lines[1] == SeparatorLine(w) && lines[|lines| - 1] == "";
    forall k | 0 <= k < |rows|
      ensures '\n' in lines[k + 2] <==> !NoFeeds(rows[k])
    {
      FeedInRow(rows[k], w);
      assert lines[k + 2] == RowLine(rows[k], w);
    }
    if NoFeedsInCells(columns, rows) {
      forall i | 0 <= i < |lines|
        ensures '\n' !in lines[i]
      {
        assert i < 2 || i == |lines| - 1 || NoFeeds(rows[i - 2]);
      }
    }
  }

  // ----- What masking hides ---------------------------------------------------------------

  /** The same columns, and the same values outside the sensitive ones. */
  predicate AgreeInPublic(a: seq<Row>, b: seq<Row>, patterns: seq<string>) {
    && |a| == |b| && ColumnsOf(a) == ColumnsOf(b)
    && (forall i, j | 0 <= i < |a| && 0 <= j < |ColumnsOf(a)| && !Sensitive(ColumnsOf(a)[j], patterns) ::
          CellIn(a[i], ColumnsOf(a)[j]) == CellIn(b[i], ColumnsOf(a)[j]))
  }

  /** Values in sensitive columns leave no trace in the rendered table, not even in its widths. */
  lemma MaskedValuesLeaveNoTrace(a: seq<Row>, b: seq<Row>, patterns: seq<string>, truncated: bool, cap: nat)
    requires AgreeInPublic(a, b, patterns)
    ensures Table(ColumnsOf(a), Masked(ColumnsOf(a), Cells(a), patterns), truncated, cap)
         == Table(ColumnsOf(b), Masked(ColumnsOf(b), Cells(b), patterns), truncated, cap)
  {
    SameMasked(a, b, patterns);
  }

  lemma SameMasked(a: seq<Row>, b: seq<Row>, patterns: seq<string>)
    requires AgreeInPublic(a, b, patterns)
    ensures Masked(ColumnsOf(a), Cells(a), patterns) == Masked(ColumnsOf(b), Cells(b), patterns)
  {
    var columns := ColumnsOf(a);
    MaskingIsExact(columns, Cells(a), patterns);
    MaskingIsExact(columns, Cells(b), patterns);
    var x, y := Masked(columns, Cells(a), patterns), Masked(columns, Cells(b), patterns);
    forall i | 0 <= i < |a|
      ensures x[i] == y[i]
    {
      forall j | 0 <= j < |columns|
        ensures x[i][j] == y[i][j]
      {
        assert Cells(a)[i][j] == CellIn(a[i], columns[j]) && Cells(b)[i][j] == CellIn(b[i], columns[j]);
      }
    }
  }

  /** No column of a rendered result is wider than its name or the longest cell there can be. */
  lemma WidthsAreBounded(rows: seq<Row>, patterns: seq<string>, i: nat)
    requires i < |ColumnsOf(rows)|
    ensures Widths(ColumnsOf(rows), Masked(ColumnsOf(rows), Cells(rows), patterns))[i]
         <= Max(|ColumnsOf(rows)[i]|, MAX_CELL_CHARS + 1)
  {
    var columns := ColumnsOf(rows);
    var masked := Masked(columns, Cells(rows), patterns);
    MaskingIsExact(columns, Cells(rows), patterns);
    forall k | 0 <= k < |masked| && i < |masked[k]|
      ensures |masked[k][i]| <= MAX_CELL_CHARS + 1
    {
      assert Cells(rows)[k][i] == CellIn(rows[k], columns[i]);
      CellsAreShort(rows[k], columns[i]);
    }
    WidestCellIsBounded(masked, i, MAX_CELL_CHARS + 1);
  }
}
