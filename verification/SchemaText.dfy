/**
 The schema dump in its two forms, and the scan that reads the schema names
 back out of either.
 */
module SchemaText {
  import opened Common

  datatype ColumnRow = ColumnRow(
    schema: string, table: string, column: string, dataType: string, notNull: bool, comment: string)

  datatype TableKey = TableKey(schema: string, table: string)

  type Comments = seq<(TableKey, string)>

  function KeyOf(r: ColumnRow): TableKey { TableKey(r.schema, r.table) }

  // ----- Order of first appearance ------------------------------------------------

  function FirstSeen<T(==)>(xs: seq<T>): seq<T> {
    if xs == [] then []
    else
      var before := FirstSeen(xs[..|xs| - 1]);
      if xs[|xs| - 1] in before then before else before + [xs[|xs| - 1]]
  }

  /** The same elements, each once. */
  lemma {:induction false} FirstSeenIsSet<T>(xs: seq<T>)
    ensures forall x :: x in FirstSeen(xs) <==> x in xs
    ensures forall i, j | 0 <= i < j < |FirstSeen(xs)| :: FirstSeen(xs)[i] != FirstSeen(xs)[j]
  {
    if xs != [] {
      FirstSeenIsSet(xs[..|xs| - 1]);
      assert xs == xs[..|xs| - 1] + [xs[|xs| - 1]];
    }
  }

  lemma FirstSeenSnoc<T>(xs: seq<T>, x: T)
    ensures FirstSeen(xs + [x]) == if x in FirstSeen(xs) then FirstSeen(xs) else FirstSeen(xs) + [x]
  {
    assert (xs + [x])[..|xs|] == xs;
  }

  // ----- Lines ------------------------------------------------------------------------

  function Unlines(lines: seq<string>): string { FlatMap(Ended, lines) }

  function WithoutCr(line: string): string {
    if line != "" && line[|line| - 1] == '\r' then line[..|line| - 1] else line
  }

  function Lines(text: string): seq<string>
    decreases |text|
  {
    if text == "" then []
    else
      var n := LineLength(text);
      if n == |text| then [text] else [WithoutCr(text[..n])] + Lines(text[n + 1..])
  }

  predicate OneLine(s: string) { '\n' !in s && '\r' !in s }

  lemma LinesOfFirst(line: string, rest: string)
    requires OneLine(line)
    ensures Lines(line + ("\n" + rest)) == [line] + Lines(rest)
  {
    LineLengthOf(line, rest);
    var text := line + ("\n" + rest);
    assert text[..|line|] == line && text[|line| + 1..] == rest;
  }

  lemma {:induction false} LinesOfUnlines(lines: seq<string>)
    requires forall i | 0 <= i < |lines| :: OneLine(lines[i])
    ensures Lines(Unlines(lines)) == lines
  {
    if lines != [] {
      var rest := Unlines(lines[1..]);
      LinesOfUnlines(lines[1..]);
      Regroup(lines[0], "\n", rest);
      LinesOfFirst(lines[0], rest);
    }
  }

  lemma Regroup(a: string, b: string, c: string)
    ensures a + b + c == a + (b + c)
  {
  }

  // ----- The scan --------------------------------------------------------------------------

  function TrimStart(s: string): string {
    if s != "" && IsWhite(s[0]) then TrimStart(s[1..]) else s
  }

  /** How far the first word reaches. */
  function WordLength(s: string): (n: nat)
    ensures n <= |s|
  {
    if s == "" || IsWhite(s[0]) then 0 else 1 + WordLength(s[1..])
  }

  function FirstWord(s: string): string {
    var t := TrimStart(s);
    t[..WordLength(t)]
  }

  function FirstDot(s: string): (n: nat)
    ensures n <= |s| && (n < |s| ==> s[n] == '.') && '.' !in s[..n]
  {
    if s == "" || s[0] == '.' then 0 else 1 + FirstDot(s[1..])
  }

  /** The part of a word before its first dot, when there is something on both sides of that. */
  function Qualifier(word: string): seq<string> {
    var n := FirstDot(word);
    if 0 < n < |word| - 1 then [word[..n]] else []
  }

  const TABLE_PREFIX := "TABLE "

  function Candidate(line: string): string {
    var t := TrimStart(line);
    if TABLE_PREFIX <= t then t[|TABLE_PREFIX|..] else t
  }

  /** The schema a line names, if any. */
  function SchemaIn(line: string): seq<string> { Qualifier(FirstWord(Candidate(line))) }

  function Scan(text: string): seq<string> { FirstSeen(FlatMap(SchemaIn, Lines(text))) }

  function Noted(seen: seq<string>, found: seq<string>): seq<string> {
    if found == [] || found[0] in seen then seen else seen + found
  }

  lemma NoteLine(lines: seq<string>, i: nat)
    requires i < |lines|
    ensures FirstSeen(FlatMap(SchemaIn, lines[..i + 1]))
         == Noted(FirstSeen(FlatMap(SchemaIn, lines[..i])), SchemaIn(lines[i]))
  {
    assert lines[..i + 1] == lines[..i] + [lines[i]];
    FlatMapSnoc(SchemaIn, lines[..i], lines[i]);
    var before, found := FlatMap(SchemaIn, lines[..i]), SchemaIn(lines[i]);
    if found == [] {
      assert before + found == before;
    } else {
      assert found == [found[0]];
      FirstSeenSnoc(before, found[0]);
    }
  }

  /** The schema and the rest of a token with a dot. */
  method SplitOnce(token: string) returns (r: Option<(string, string)>)
    ensures Qualifier(token) == if r.Some? && r.value.0 != "" && r.value.1 != "" then [r.value.0] else []
  {
    var dot := FirstDot(token);
    r := if dot < |token| then Some((token[..dot], token[dot + 1..])) else None;
  }

  method DistinctSchemas(text: string) returns (seen: seq<string>)
    ensures seen == Scan(text)
  {
    seen := [];
    var lines := Lines(text);
    var i := 0;
    while i < |lines|
      invariant i <= |lines|
      invariant seen == FirstSeen(FlatMap(SchemaIn, lines[..i]))
    {
      NoteLine(lines, i);
      var split := SplitOnce(FirstWord(Candidate(lines[i])));
      if split.Some? && split.value.0 != "" && split.value.1 != "" {
        var schema := split.value.0;
        if schema !in seen {
          seen := seen + [schema];
        }
      }
      i := i + 1;
    }
    assert lines[..i] == lines;
  }

  // ----- The full dump -------------------------------------------------------------------------

  const NO_TABLES := "(no user-visible tables found)"

  function CommentOn(comments: Comments, key: TableKey): Option<string> {
    if comments == [] then None
    else if comments[|comments| - 1].0 == key then Some(comments[|comments| - 1].1)
    else CommentOn(comments[..|comments| - 1], key)
  }

  function Remark(comment: Option<string>): string { if comment.Some? then " -- " + comment.value else "" }

  function Name(key: TableKey): string { key.schema + "." + key.table }

  function TableLine(key: TableKey, comments: Comments): string {
    TABLE_PREFIX + Name(key) + Remark(CommentOn(comments, key))
  }

  /** What follows a column's name and a blank. */
  function Details(r: ColumnRow): string {
    r.dataType + (if r.notNull then " NOT NULL" else "") + (if r.comment != "" then "  -- " + r.comment else "")
  }

  function ColumnLine(r: ColumnRow): string { "  " + r.column + " " + Details(r) }

  /** Does the last row start a table? */
  predicate StartsTable(rows: seq<ColumnRow>)
    requires rows != []
  {
    |rows| == 1 || KeyOf(rows[|rows| - 1]) != KeyOf(rows[|rows| - 2])
  }

  /** The lines the last row adds: a blank one between tables, the table's name when it changes, the column. */
  function LinesOfLast(rows: seq<ColumnRow>, comments: Comments): seq<string>
    requires rows != []
  {
    var r := rows[|rows| - 1];
    (if |rows| > 1 && StartsTable(rows) then [""] else [])
    + (if StartsTable(rows) then [TableLine(KeyOf(r), comments)] else [])
    + [ColumnLine(r)]
  }

  function FullLines(rows: seq<ColumnRow>, comments: Comments): seq<string> {
    if rows == [] then [] else FullLines(rows[..|rows| - 1], comments) + LinesOfLast(rows, comments)
  }

  function Full(rows: seq<ColumnRow>, comments: Comments): string {
    if rows == [] then NO_TABLES else Unlines(FullLines(rows, comments))
  }

  lemma UnlinesSnoc(lines: seq<string>, line: string)
    ensures Unlines(lines + [line]) == Unlines(lines) + (line + "\n")
  {
    FlatMapSnoc(Ended, lines, line);
  }

  lemma FullLinesSnoc(rows: seq<ColumnRow>, i: nat, comments: Comments)
    requires i < |rows|
    ensures FullLines(rows[..i + 1], comments) == FullLines(rows[..i], comments) + LinesOfLast(rows[..i + 1], comments)
  {
    assert rows[..i + 1][..i] == rows[..i];
  }

  lemma Three(lines: seq<string>, blank: seq<string>, head: seq<string>, column: seq<string>)
    ensures lines + (blank + head + column) == lines + blank + head + column
  {
  }

  /** A blank line when a table came before, then the line of the new one. */
  method OpenTable(out: string, ghost lines: seq<string>, between: bool, key: TableKey, comments: Comments)
      returns (longer: string)
    requires out == Unlines(lines)
    ensures longer == Unlines(lines + (if between then [""] else []) + [TableLine(key, comments)])
  {
    longer := out;
    if between {
      UnlinesSnoc(lines, "");
      longer := longer + "\n";
    }
    ghost var begun := lines + if between then [""] else [];
    assert !between ==> begun == lines;
    UnlinesSnoc(begun, TableLine(key, comments));
    longer := longer + (TableLine(key, comments) + "\n");
  }

  method RenderFull(rows: seq<ColumnRow>, comments: Comments) returns (out: string)
    ensures out == Full(rows, comments)
  {
    if rows == [] {
      return NO_TABLES;
    }
    out := "";
    var current: Option<TableKey> := None;
    var i := 0;
    while i < |rows|
      invariant i <= |rows|
      invariant current == if i == 0 then None else Some(KeyOf(rows[i - 1]))
      invariant out == Unlines(FullLines(rows[..i], comments))
    {
      var key := TableKey(rows[i].schema, rows[i].table);
      ghost var lines := FullLines(rows[..i], comments);
      ghost var between := current.Some? && current != Some(key);
      ghost var blank := if between then [""] else [];
      ghost var head := if current != Some(key) then [TableLine(key, comments)] else [];
      FullLinesSnoc(rows, i, comments);
      Three(lines, blank, head, [ColumnLine(rows[i])]);
      if current != Some(key) {
        out := OpenTable(out, lines, current.Some?, key, comments);
        current := Some(key);
      } else {
        assert lines + blank + head == lines;
      }
      UnlinesSnoc(lines + blank + head, ColumnLine(rows[i]));
      out := out + (ColumnLine(rows[i]) + "\n");
      i := i + 1;
    }
    assert rows[..i] == rows;
  }

  // ----- The compact dump ------------------------------------------------------------------------

  const COMPACT_HEADER := "TABLES (use describe_table for columns):"

  function Keys(rows: seq<ColumnRow>): seq<TableKey> { seq(|rows|, i requires 0 <= i < |rows| => KeyOf(rows[i])) }

  /** How many of `keys` are `key`. */
  function Count(keys: seq<TableKey>, key: TableKey): nat {
    if keys == [] then 0
    else Count(keys[..|keys| - 1], key) + if keys[|keys| - 1] == key then 1 else 0
  }

  function Widest(keys: seq<TableKey>): nat {
    if keys == [] then 0
    else Max(Widest(keys[..|keys| - 1]), |keys[|keys| - 1].schema| + 1 + |keys[|keys| - 1].table|)
  }

  function CompactLine(key: TableKey, width: nat, count: nat, comments: Comments): string {
    "  " + Padded(Name(key), width) + "  (" + Digits(count) + " columns)" + Remark(CommentOn(comments, key))
  }

  function CompactLines(tables: seq<TableKey>, width: nat, keys: seq<TableKey>, comments: Comments): seq<string> {
    seq(|tables|, i requires 0 <= i < |tables| => CompactLine(tables[i], width, Count(keys, tables[i]), comments))
  }

  /** One line a table, in order of first appearance, with the number of its rows. */
  function Compact(rows: seq<ColumnRow>, comments: Comments): string {
    if rows == [] then NO_TABLES
    else
      var tables := FirstSeen(Keys(rows));
      Unlines([COMPACT_HEADER] + CompactLines(tables, Widest(tables), Keys(rows), comments))
  }

  lemma {:induction false} CountIsPositive(keys: seq<TableKey>, key: TableKey)
    ensures Count(keys, key) > 0 <==> key in keys
  {
    if keys != [] {
      CountIsPositive(keys[..|keys| - 1], key);
      assert keys == keys[..|keys| - 1] + [keys[|keys| - 1]];
    }
  }

  lemma CountSnoc(keys: seq<TableKey>, key: TableKey, k: TableKey)
    ensures Count(keys + [key], k) == Count(keys, k) + if k == key then 1 else 0
  {
    assert (keys + [key])[..|keys|] == keys;
  }

  ghost predicate Tallied(counts: map<TableKey, nat>, keys: seq<TableKey>) {
    && (forall k :: k in counts <==> k in keys)
    && (forall k | k in counts :: counts[k] == Count(keys, k))
  }

  function Tally(counts: map<TableKey, nat>, key: TableKey): nat { if key in counts then counts[key] else 0 }

  lemma TallyOne(counts: map<TableKey, nat>, keys: seq<TableKey>, key: TableKey)
    requires Tallied(counts, keys)
    ensures Tallied(counts[key := Tally(counts, key) + 1], keys + [key])
    ensures Tally(counts, key) == 0 <==> key !in keys
  {
    CountIsPositive(keys, key);
    forall k {
      CountSnoc(keys, key, k);
    }
  }

  method CountColumns(rows: seq<ColumnRow>) returns (order: seq<TableKey>, counts: map<TableKey, nat>)
    ensures order == FirstSeen(Keys(rows)) && Tallied(counts, Keys(rows))
    ensures forall k | k in order :: k in Keys(rows)
  {
    order, counts := [], map[];
    var i := 0;
    while i < |rows|
      invariant i <= |rows|
      invariant order == FirstSeen(Keys(rows)[..i])
      invariant Tallied(counts, Keys(rows)[..i])
    {
      var key := KeyOf(rows[i]);
      assert Keys(rows)[..i + 1] == Keys(rows)[..i] + [key];
      FirstSeenSnoc(Keys(rows)[..i], key);
      FirstSeenIsSet(Keys(rows)[..i]);
      TallyOne(counts, Keys(rows)[..i], key);
      var entry := Tally(counts, key);
      if entry == 0 {
        order := order + [key];
      }
      counts := counts[key := entry + 1];
      i := i + 1;
    }
    assert Keys(rows)[..i] == Keys(rows);
    FirstSeenIsSet(Keys(rows));
  }

  method MaxNameWidth(order: seq<TableKey>) returns (width: nat)
    ensures width == Widest(order)
  {
    width := 0;
    var i := 0;
    while i < |order|
      invariant i <= |order| && width == Widest(order[..i])
    {
      assert order[..i + 1][..i] == order[..i];
      width := Max(width, |order[i].schema| + 1 + |order[i].table|);
      i := i + 1;
    }
    assert order[..i] == order;
  }

  lemma CompactLinesSnoc(lines: seq<string>, tables: seq<TableKey>, i: nat, width: nat, keys: seq<TableKey>,
                         comments: Comments)
    requires i < |tables|
    ensures Unlines(lines + CompactLines(tables[..i + 1], width, keys, comments))
         == Unlines(lines + CompactLines(tables[..i], width, keys, comments))
            + (CompactLine(tables[i], width, Count(keys, tables[i]), comments) + "\n")
  {
    var before := CompactLines(tables[..i], width, keys, comments);
    var line := CompactLine(tables[i], width, Count(keys, tables[i]), comments);
    assert CompactLines(tables[..i + 1], width, keys, comments) == before + [line];
    Associative(lines, before, [line]);
    UnlinesSnoc(lines + before, line);
  }

  method EmitTables(header: string, order: seq<TableKey>, counts: map<TableKey, nat>, width: nat,
                    ghost keys: seq<TableKey>, comments: Comments)
      returns (out: string)
    requires Tallied(counts, keys) && forall k | k in order :: k in keys
    ensures out == Unlines([header] + CompactLines(order, width, keys, comments))
  {
    out := header + "\n";
    FlatMapOne(Ended, header);
    var i := 0;
    assert [header] + CompactLines(order[..0], width, keys, comments) == [header];
    while i < |order|
      invariant i <= |order|
      invariant out == Unlines([header] + CompactLines(order[..i], width, keys, comments))
    {
      CompactLinesSnoc([header], order, i, width, keys, comments);
      out := out + (CompactLine(order[i], width, counts[order[i]], comments) + "\n");
      i := i + 1;
    }
    assert order[..i] == order;
  }

  method RenderCompact(rows: seq<ColumnRow>, comments: Comments) returns (out: string)
    ensures out == Compact(rows, comments)
  {
    if rows == [] {
      return NO_TABLES;
    }
    var order, counts := CountColumns(rows);
    var width := MaxNameWidth(order);
    out := EmitTables(COMPACT_HEADER, order, counts, width, Keys(rows), comments);
  }
}
