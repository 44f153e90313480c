/** What the scan of a schema dump finds: the schemas, and when it finds more. */
module SchemaScan {
  import opened Common
  import opened SchemaText

  predicate NoWhite(s: string) { forall i | 0 <= i < |s| :: !IsWhite(s[i]) }

  predicate TidyKey(k: TableKey) {
    k.schema != "" && NoWhite(k.schema) && '.' !in k.schema && k.table != "" && NoWhite(k.table)
  }

  predicate TidyRow(r: ColumnRow) {
    TidyKey(KeyOf(r)) && r.column != "" && NoWhite(r.column) && OneLine(r.dataType) && OneLine(r.comment)
  }

  predicate TidyRows(rows: seq<ColumnRow>) { forall i | 0 <= i < |rows| :: TidyRow(rows[i]) }

  predicate TidyComments(comments: Comments) { forall i | 0 <= i < |comments| :: OneLine(comments[i].1) }

  function Schemas(rows: seq<ColumnRow>): seq<string> { seq(|rows|, i requires 0 <= i < |rows| => rows[i].schema) }

  // ----- Words ------------------------------------------------------------------

  predicate Blank(rest: string) { rest == "" || IsWhite(rest[0]) }

  lemma {:induction false} WordLengthOf(word: string, rest: string)
    requires NoWhite(word) && Blank(rest)
    ensures WordLength(word + rest) == |word|
  {
    if word == "" {
      assert word + rest == rest;
    } else {
      assert (word + rest)[1..] == word[1..] + rest;
      WordLengthOf(word[1..], rest);
    }
  }

  lemma FirstWordOf(word: string, rest: string)
    requires word != "" && NoWhite(word) && Blank(rest)
    ensures TrimStart(word + rest) == word + rest && FirstWord(word + rest) == word
  {
    assert (word + rest)[0] == word[0];
    WordLengthOf(word, rest);
  }

  lemma {:induction false} FirstDotOf(a: string, b: string)
    requires '.' !in a
    ensures FirstDot(a + ("." + b)) == |a|
  {
    if a == "" {
      assert a + ("." + b) == "." + b;
    } else {
      assert (a + ("." + b))[1..] == a[1..] + ("." + b);
      FirstDotOf(a[1..], b);
    }
  }

  lemma QualifierOf(a: string, b: string)
    requires '.' !in a && a != "" && b != ""
    ensures Qualifier(a + ("." + b)) == [a]
  {
    FirstDotOf(a, b);
    assert (a + ("." + b))[..|a|] == a;
  }

  lemma NoQualifier(word: string)
    requires '.' !in word
    ensures Qualifier(word) == []
  {
  }

  lemma {:induction false} TrimStartIsSuffix(s: string) returns (k: nat)
    ensures k <= |s| && TrimStart(s) == s[k..]
  {
    if s != "" && IsWhite(s[0]) {
      var rest := TrimStartIsSuffix(s[1..]);
      k := rest + 1;
    } else {
      k := 0;
    }
  }

  /** A line without a dot names no schema. */
  lemma NoDotNoSchema(line: string)
    requires '.' !in line
    ensures SchemaIn(line) == []
  {
    var k := TrimStartIsSuffix(line);
    var c := Candidate(line);
    assert forall i | 0 <= i < |c| :: c[i] in line;
    var m := TrimStartIsSuffix(c);
    assert forall i | 0 <= i < |FirstWord(c)| :: FirstWord(c)[i] in c;
    NoQualifier(FirstWord(c));
  }

  lemma NoWhiteIsOneLine(s: string)
    requires NoWhite(s)
    ensures OneLine(s)
  {
  }

  lemma OneLineJoin(a: string, b: string)
    requires OneLine(a) && OneLine(b)
    ensures OneLine(a + b)
  {
  }

  // ----- Table lines ------------------------------------------------------------------

  lemma {:induction false} CommentIsOneLine(comments: Comments, key: TableKey)
    requires TidyComments(comments)
    ensures OneLine(Remark(CommentOn(comments, key))) && Blank(Remark(CommentOn(comments, key)))
  {
    if comments != [] && comments[|comments| - 1].0 != key {
      CommentIsOneLine(comments[..|comments| - 1], key);
    } else if comments != [] {
      OneLineJoin(" -- ", comments[|comments| - 1].1);
    }
  }

  lemma NameIsWord(key: TableKey)
    requires TidyKey(key)
    ensures Name(key) != "" && NoWhite(Name(key)) && '.' in Name(key) && Qualifier(Name(key)) == [key.schema]
  {
    QualifierOf(key.schema, key.table);
    assert Name(key) == key.schema + ("." + key.table);
    assert Name(key)[|key.schema|] == '.' && !IsWhite('.');
  }

  lemma TableLineScan(key: TableKey, comments: Comments)
    requires TidyKey(key) && TidyComments(comments)
    ensures SchemaIn(TableLine(key, comments)) == [key.schema] && OneLine(TableLine(key, comments))
  {
    var remark := Remark(CommentOn(comments, key));
    CommentIsOneLine(comments, key);
    NameIsWord(key);
    NoWhiteIsOneLine(Name(key));
    OneLineJoin(TABLE_PREFIX, Name(key));
    OneLineJoin(TABLE_PREFIX + Name(key), remark);
    FirstWordOf(Name(key), remark);
    AfterPrefix(Name(key) + remark);
    Associative(TABLE_PREFIX, Name(key), remark);
  }

  lemma AfterPrefix(rest: string)
    ensures Candidate(TABLE_PREFIX + rest) == rest
  {
    var line := TABLE_PREFIX + rest;
    assert line[0] == 'T' && line[..6] == TABLE_PREFIX && line[6..] == rest;
  }

  lemma Indented(rest: string)
    ensures TrimStart("  " + rest) == TrimStart(rest)
  {
    assert ("  " + rest)[1..] == " " + rest && (" " + rest)[1..] == rest;
  }

  // ----- Column lines -------------------------------------------------------------------

  /** The schema the scan takes a column's line to name. */
  function Leak(r: ColumnRow): seq<string> {
    Qualifier(if r.column == "TABLE" then FirstWord(Details(r)) else r.column)
  }

  lemma OnlyTable(column: string, rest: string)
    requires NoWhite(column) && Blank(rest)
    ensures TABLE_PREFIX <= column + rest <==> column == "TABLE" && rest != "" && rest[0] == ' '
  {
    var t := column + rest;
    if TABLE_PREFIX <= t {
      assert t[5] == TABLE_PREFIX[5] == ' ';
      assert forall i | 0 <= i < 5 :: t[i] == TABLE_PREFIX[i];
      assert |column| <= 5;
      assert |column| < |t| ==> t[|column|] == rest[0];
      assert column == t[..5] == TABLE_PREFIX[..5];
    }
    if column == "TABLE" && rest != "" && rest[0] == ' ' {
      assert t == TABLE_PREFIX + rest[1..];
    }
  }

  lemma ColumnLineScan(r: ColumnRow)
    requires TidyRow(r)
    ensures SchemaIn(ColumnLine(r)) == Leak(r)
  {
    var rest := " " + Details(r);
    IndentedColumn(r.column, Details(r));
    Indented(r.column + rest);
    FirstWordOf(r.column, rest);
    OnlyTable(r.column, rest);
    if r.column == "TABLE" {
      AfterPrefix(Details(r));
    }
  }

  lemma IndentedColumn(column: string, details: string)
    ensures "  " + column + " " + details == "  " + (column + (" " + details))
    ensures column == "TABLE" ==> column + (" " + details) == TABLE_PREFIX + details
  {
  }

  lemma ColumnLineIsOneLine(r: ColumnRow)
    requires TidyRow(r)
    ensures OneLine(ColumnLine(r))
  {
    NoWhiteIsOneLine(r.column);
    DetailsAreOneLine(r);
    OneLineJoin("  ", r.column);
    OneLineJoin("  " + r.column, " ");
    OneLineJoin("  " + r.column + " ", Details(r));
  }

  lemma DetailsAreOneLine(r: ColumnRow)
    requires OneLine(r.dataType) && OneLine(r.comment)
    ensures OneLine(Details(r))
  {
    var a, b := if r.notNull then " NOT NULL" else "", if r.comment != "" then "  -- " + r.comment else "";
    OneLineJoin("  -- ", r.comment);
    OneLineJoin(r.dataType, a);
    OneLineJoin(r.dataType + a, b);
  }

  // ----- Any rendered line ------------------------------------------------------------------

  /** What a rendered line is taken to name. It may have line breaks in it, from a name or a comment. */
  function Names(line: string): seq<string> { FlatMap(SchemaIn, Lines(Ended(line))) }

  lemma AtBreak(a: string, n: nat)
    requires n < |a| && a[n] == '\n'
    ensures a == a[..n] + ("\n" + a[n + 1..])
  {
  }

  lemma Regrouped(line: string, rest: string, tail: string)
    ensures line + ("\n" + rest) + tail == line + ("\n" + (rest + tail))
  {
  }

  /** A line feed separates whatever stands around it. */
  lemma {:induction false} LinesJoin(a: string, b: string)
    ensures Lines(a + ("\n" + b)) == Lines(a + "\n") + Lines(b)
    decreases |a|, 1
  {
    var n := LineLength(a);
    if n == |a| {
      LinesAtFeed(a, b);
      LinesAtFeed(a, "");
      assert "\n" + "" == "\n" && a[..n] == a;
    } else {
      AtBreak(a, n);
      LinesJoinAfter(a, a[..n], a[n + 1..], b);
    }
  }

  lemma {:induction false} LinesJoinAfter(a: string, line: string, rest: string, b: string)
    requires a == line + ("\n" + rest) && '\n' !in line
    ensures Lines(a + ("\n" + b)) == Lines(a + "\n") + Lines(b)
    decreases |a|, 0
  {
    LinesJoin(rest, b);
    Regrouped(line, rest, "\n" + b);
    Regrouped(line, rest, "\n");
    LinesAtFeed(line, rest + ("\n" + b));
    LinesAtFeed(line, rest + "\n");
    Associative([WithoutCr(line)], Lines(rest + "\n"), Lines(b));
  }

  lemma LinesAtFeed(line: string, rest: string)
    requires '\n' !in line
    ensures Lines(line + ("\n" + rest)) == [WithoutCr(line)] + Lines(rest)
  {
    LineLengthOf(line, rest);
    var text := line + ("\n" + rest);
    assert text[..|line|] == line && text[|line| + 1..] == rest;
  }

  lemma {:induction false} ScanOfLines(lines: seq<string>)
    ensures FlatMap(SchemaIn, Lines(Unlines(lines))) == FlatMap(Names, lines)
  {
    if lines != [] {
      var rest := Unlines(lines[1..]);
      ScanOfLines(lines[1..]);
      Regroup(lines[0], "\n", rest);
      LinesJoin(lines[0], rest);
      FlatMapAppend(SchemaIn, Lines(Ended(lines[0])), Lines(rest));
    }
  }

  lemma NamesOfOneLine(line: string)
    requires OneLine(line)
    ensures Names(line) == SchemaIn(line)
  {
    LinesOfFirst(line, "");
    assert line + ("\n" + "") == Ended(line);
    FlatMapOne(SchemaIn, line);
  }

  lemma NamesOfBlank()
    ensures Names("") == []
  {
    NamesOfOneLine("");
    NoDotNoSchema("");
  }

  // ----- The full dump ----------------------------------------------------------------------

  /** What the lines of row `i` are taken to name. */
  function NamesAt(rows: seq<ColumnRow>, i: nat, comments: Comments): seq<string> {
    if i >= |rows| then []
    else
      (if i == 0 || KeyOf(rows[i]) != KeyOf(rows[i - 1]) then Names(TableLine(KeyOf(rows[i]), comments)) else [])
      + Names(ColumnLine(rows[i]))
  }

  function Flat<T>(parts: seq<seq<T>>): seq<T> {
    if parts == [] then [] else Flat(parts[..|parts| - 1]) + parts[|parts| - 1]
  }

  lemma {:induction false} FlatMembers<T>(parts: seq<seq<T>>, x: T)
    ensures x in Flat(parts) <==> exists i :: 0 <= i < |parts| && x in parts[i]
  {
    if parts != [] {
      FlatMembers(parts[..|parts| - 1], x);
    }
  }

  function PerRow(rows: seq<ColumnRow>, comments: Comments): seq<seq<string>> {
    seq(|rows|, i requires 0 <= i < |rows| => NamesAt(rows, i, comments))
  }

  /** What the lines of the full dump are taken to name, in order. */
  function Named(rows: seq<ColumnRow>, comments: Comments): seq<string> { Flat(PerRow(rows, comments)) }

  lemma NamedSnoc(rows: seq<ColumnRow>, comments: Comments)
    requires rows != []
    ensures Named(rows, comments) == Named(rows[..|rows| - 1], comments) + NamesAt(rows, |rows| - 1, comments)
  {
    var n := |rows| - 1;
    assert PerRow(rows, comments)[..n] == PerRow(rows[..n], comments);
  }

  lemma ThreeParts(blank: seq<string>, head: seq<string>, column: string)
    requires blank == [] || blank == [""]
    ensures FlatMap(Names, blank + head + [column]) == FlatMap(Names, head) + Names(column)
  {
    NamesOfBlank();
    FlatMapOne(Names, "");
    FlatMapOne(Names, column);
    FlatMapAppend(Names, blank, head);
    FlatMapAppend(Names, blank + head, [column]);
    assert [] + FlatMap(Names, head) == FlatMap(Names, head);
  }

  lemma LastRowNames(rows: seq<ColumnRow>, comments: Comments)
    requires rows != []
    ensures FlatMap(Names, LinesOfLast(rows, comments)) == NamesAt(rows, |rows| - 1, comments)
  {
    var r := rows[|rows| - 1];
    FlatMapOne(Names, TableLine(KeyOf(r), comments));
    ThreeParts(if |rows| > 1 && StartsTable(rows) then [""] else [],
               if StartsTable(rows) then [TableLine(KeyOf(r), comments)] else [], ColumnLine(r));
  }

  lemma {:induction false} FullNames(rows: seq<ColumnRow>, comments: Comments)
    ensures FlatMap(Names, FullLines(rows, comments)) == Named(rows, comments)
  {
    if rows != [] {
      FullNames(rows[..|rows| - 1], comments);
      NamedSnoc(rows, comments);
      LastRowNames(rows, comments);
      FlatMapAppend(Names, FullLines(rows[..|rows| - 1], comments), LinesOfLast(rows, comments));
    }
  }

  lemma ScanOfNothing()
    ensures Scan(NO_TABLES) == []
  {
    assert '\n' !in NO_TABLES && '.' !in NO_TABLES;
    assert Lines(NO_TABLES) == [NO_TABLES];
    NoDotNoSchema(NO_TABLES);
    FlatMapOne(SchemaIn, NO_TABLES);
  }

  /** For any rows and comments, exactly what the scan of the full dump finds. */
  lemma FullScan(rows: seq<ColumnRow>, comments: Comments)
    ensures Scan(Full(rows, comments)) == FirstSeen(Named(rows, comments))
  {
    if rows == [] {
      ScanOfNothing();
    } else {
      FullNames(rows, comments);
      ScanOfLines(FullLines(rows, comments));
    }
  }

  /** The same for tidy rows: the table schemas, and what columns are mistaken for. */
  function Found(rows: seq<ColumnRow>): seq<string> {
    if rows == [] then []
    else
      var r := rows[|rows| - 1];
      Found(rows[..|rows| - 1]) + ((if StartsTable(rows) then [r.schema] else []) + Leak(r))
  }

  lemma {:induction false} TidyNames(rows: seq<ColumnRow>, comments: Comments)
    requires TidyRows(rows) && TidyComments(comments)
    ensures Named(rows, comments) == Found(rows)
  {
    if rows != [] {
      TidyNames(rows[..|rows| - 1], comments);
      NamedSnoc(rows, comments);
      TidyNamesAt(rows, |rows| - 1, comments);
    }
  }

  /** Exactly what the scan of the full dump of tidy rows finds. */
  lemma TidyScan(rows: seq<ColumnRow>, comments: Comments)
    requires TidyRows(rows) && TidyComments(comments)
    ensures Scan(Full(rows, comments)) == FirstSeen(Found(rows))
  {
    FullScan(rows, comments);
    TidyNames(rows, comments);
  }

  lemma FoundSnoc(rows: seq<ColumnRow>)
    requires rows != [] && Leak(rows[|rows| - 1]) == []
    ensures Found(rows)
         == if StartsTable(rows) then Found(rows[..|rows| - 1]) + [rows[|rows| - 1].schema] else Found(rows[..|rows| - 1])
  {
  }

  lemma SchemasSnoc(rows: seq<ColumnRow>)
    requires rows != []
    ensures Schemas(rows) == Schemas(rows[..|rows| - 1]) + [rows[|rows| - 1].schema]
  {
  }

  lemma {:induction false} FoundWithoutLeaks(rows: seq<ColumnRow>)
    requires forall i | 0 <= i < |rows| :: Leak(rows[i]) == []
    ensures FirstSeen(Found(rows)) == FirstSeen(Schemas(rows))
    ensures rows != [] ==> rows[|rows| - 1].schema in FirstSeen(Found(rows))
  {
    if rows != [] {
      var init, schema := rows[..|rows| - 1], rows[|rows| - 1].schema;
      FoundWithoutLeaks(init);
      FoundSnoc(rows);
      SchemasSnoc(rows);
      FirstSeenSnoc(Schemas(init), schema);
      FirstSeenSnoc(Found(init), schema);
      assert !StartsTable(rows) ==> init[|init| - 1].schema == schema;
    }
  }

  predicate CleanRow(r: ColumnRow) { TidyRow(r) && '.' !in r.column && r.column != "TABLE" }

  predicate CleanRows(rows: seq<ColumnRow>) { forall i | 0 <= i < |rows| :: CleanRow(rows[i]) }

  lemma CleanLeaksNothing(r: ColumnRow)
    requires CleanRow(r)
    ensures Leak(r) == []
  {
    NoQualifier(r.column);
  }

  // ----- The compact dump --------------------------------------------------------------------

  lemma CompactLineScan(key: TableKey, width: nat, count: nat, comments: Comments)
    requires TidyKey(key)
    ensures SchemaIn(CompactLine(key, width, count, comments)) == [key.schema]
  {
    var name := Name(key);
    var pad := if |name| < width then Blanks(width - |name|) else "";
    var rest := pad + ("  (" + (Digits(count) + (" columns)" + Remark(CommentOn(comments, key)))));
    CompactLineParts(key, width, count, comments, pad);
    assert rest[0] == ' ';
    NameIsWord(key);
    IndentedName(name, rest);
  }

  lemma IndentedName(name: string, rest: string)
    requires name != "" && NoWhite(name) && '.' in name && rest != "" && rest[0] == ' '
    ensures SchemaIn("  " + (name + rest)) == Qualifier(name)
  {
    Indented(name + rest);
    FirstWordOf(name, rest);
    OnlyTable(name, rest);
    assert '.' !in "TABLE";
  }

  lemma CompactLineIsOneLine(key: TableKey, width: nat, count: nat, comments: Comments)
    requires TidyKey(key) && TidyComments(comments)
    ensures OneLine(CompactLine(key, width, count, comments))
  {
    var name := Name(key);
    var padded := Padded(name, width);
    NameIsWord(key);
    NoWhiteIsOneLine(name);
    CommentIsOneLine(comments, key);
    DigitsAreOneLine(count);
    OneLineJoin(name, if |name| < width then Blanks(width - |name|) else "");
    OneLineJoin("  ", padded);
    OneLineJoin("  " + padded, "  (");
    OneLineJoin("  " + padded + "  (", Digits(count));
    OneLineJoin("  " + padded + "  (" + Digits(count), " columns)");
    OneLineJoin("  " + padded + "  (" + Digits(count) + " columns)", Remark(CommentOn(comments, key)));
  }

  lemma CompactLineParts(key: TableKey, width: nat, count: nat, comments: Comments, pad: string)
    requires pad == if |Name(key)| < width then Blanks(width - |Name(key)|) else ""
    ensures CompactLine(key, width, count, comments)
         == "  " + (Name(key) + (pad + ("  (" + (Digits(count) + (" columns)" + Remark(CommentOn(comments, key)))))))
  {
    assert Padded(Name(key), width) == Name(key) + pad;
  }

  lemma {:induction false} DigitsAreOneLine(n: nat)
    ensures OneLine(Digits(n))
  {
    if n >= 10 {
      DigitsAreOneLine(n / 10);
    }
  }

  function SchemasOf(keys: seq<TableKey>): seq<string> { seq(|keys|, i requires 0 <= i < |keys| => keys[i].schema) }

  lemma {:induction false} OneEach(lines: seq<string>, names: seq<string>)
    requires |lines| == |names| && forall i | 0 <= i < |lines| :: Names(lines[i]) == [names[i]]
    ensures FlatMap(Names, lines) == names
  {
    if lines != [] {
      OneEach(lines[1..], names[1..]);
      assert names == [names[0]] + names[1..];
    }
  }

  lemma CompactLinesScan(tables: seq<TableKey>, width: nat, keys: seq<TableKey>, comments: Comments)
    requires TidyComments(comments) && forall i | 0 <= i < |tables| :: TidyKey(tables[i])
    ensures FlatMap(Names, CompactLines(tables, width, keys, comments)) == SchemasOf(tables)
  {
    var lines := CompactLines(tables, width, keys, comments);
    forall i | 0 <= i < |tables|
      ensures Names(lines[i]) == [SchemasOf(tables)[i]]
    {
      CompactLineScan(tables[i], width, Count(keys, tables[i]), comments);
      CompactLineIsOneLine(tables[i], width, Count(keys, tables[i]), comments);
      NamesOfOneLine(lines[i]);
    }
    OneEach(lines, SchemasOf(tables));
  }

  /** Schemas in order of first appearance, whether read off the rows or off the tables. */
  lemma {:induction false} SchemasOfTables(keys: seq<TableKey>)
    ensures FirstSeen(SchemasOf(FirstSeen(keys))) == FirstSeen(SchemasOf(keys))
  {
    if keys != [] {
      var init, k := keys[..|keys| - 1], keys[|keys| - 1];
      var tables := FirstSeen(init);
      SchemasOfTables(init);
      assert SchemasOf(keys) == SchemasOf(init) + [k.schema];
      FirstSeenSnoc(SchemasOf(init), k.schema);
      if k in tables {
        SchemaOfMember(tables, k);
      } else {
        assert SchemasOf(tables + [k]) == SchemasOf(tables) + [k.schema];
        FirstSeenSnoc(SchemasOf(tables), k.schema);
      }
    }
  }

  lemma SchemaOfMember(tables: seq<TableKey>, k: TableKey)
    requires k in tables
    ensures k.schema in FirstSeen(SchemasOf(tables))
  {
    FirstSeenIsSet(SchemasOf(tables));
    var i :| 0 <= i < |tables| && tables[i] == k;
    assert SchemasOf(tables)[i] == k.schema;
  }

  lemma HeaderHasNoDot()
    ensures '.' !in COMPACT_HEADER
  {
  }

  lemma HeaderIsOneLine()
    ensures OneLine(COMPACT_HEADER)
  {
  }

  lemma HeaderNamesNothing()
    ensures SchemaIn(COMPACT_HEADER) == []
  {
    HeaderHasNoDot();
    NoDotNoSchema(COMPACT_HEADER);
  }

  /** For any rows and comments, exactly what the scan of the compact dump finds. */
  lemma CompactScan(rows: seq<ColumnRow>, comments: Comments)
    ensures var tables := FirstSeen(Keys(rows));
      Scan(Compact(rows, comments))
        == FirstSeen(FlatMap(Names, CompactLines(tables, Widest(tables), Keys(rows), comments)))
  {
    var tables := FirstSeen(Keys(rows));
    if rows == [] {
      ScanOfNothing();
    } else {
      HeaderIsOneLine();
      HeaderNamesNothing();
      HeadedScan(COMPACT_HEADER, CompactLines(tables, Widest(tables), Keys(rows), comments));
    }
  }

  lemma HeadedScan(header: string, lines: seq<string>)
    requires OneLine(header) && SchemaIn(header) == []
    ensures Scan(Unlines([header] + lines)) == FirstSeen(FlatMap(Names, lines))
  {
    ScanOfLines([header] + lines);
    NamesOfOneLine(header);
    FlatMapOne(Names, header);
    FlatMapAppend(Names, [header], lines);
    assert [] + FlatMap(Names, lines) == FlatMap(Names, lines);
  }

  lemma TablesAreTidy(rows: seq<ColumnRow>)
    requires forall i | 0 <= i < |rows| :: TidyKey(KeyOf(rows[i]))
    ensures forall i | 0 <= i < |FirstSeen(Keys(rows))| :: TidyKey(FirstSeen(Keys(rows))[i])
  {
    var tables := FirstSeen(Keys(rows));
    FirstSeenIsSet(Keys(rows));
    forall i | 0 <= i < |tables|
      ensures TidyKey(tables[i])
    {
      assert tables[i] in Keys(rows);
    }
  }

  /** With tidy table names the scan of the compact dump finds the schemas, whatever the columns are called. */
  lemma TidyCompactScan(rows: seq<ColumnRow>, comments: Comments)
    requires TidyComments(comments) && forall i | 0 <= i < |rows| :: TidyKey(KeyOf(rows[i]))
    ensures Scan(Compact(rows, comments)) == FirstSeen(Schemas(rows))
  {
    var tables := FirstSeen(Keys(rows));
    TablesAreTidy(rows);
    CompactScan(rows, comments);
    CompactLinesScan(tables, Widest(tables), Keys(rows), comments);
    SchemasOfTables(Keys(rows));
    assert SchemasOf(Keys(rows)) == Schemas(rows);
  }

  // ----- The two dumps ---------------------------------------------------------------------------

  /** With clean names both dumps give back the schemas, in order of first appearance. */
  lemma ScansAgree(rows: seq<ColumnRow>, comments: Comments)
    requires CleanRows(rows) && TidyComments(comments)
    ensures Scan(Full(rows, comments)) == Scan(Compact(rows, comments)) == FirstSeen(Schemas(rows))
  {
    forall i | 0 <= i < |rows|
      ensures TidyRow(rows[i]) && Leak(rows[i]) == []
    {
      CleanLeaksNothing(rows[i]);
    }
    TidyScan(rows, comments);
    FoundWithoutLeaks(rows);
    TidyCompactScan(rows, comments);
  }

  predicate AllIn(names: seq<string>, schemas: seq<string>) { forall name | name in names :: name in schemas }

  lemma AllInFlat(parts: seq<seq<string>>, schemas: seq<string>)
    ensures AllIn(FirstSeen(Flat(parts)), schemas) <==> forall i | 0 <= i < |parts| :: AllIn(parts[i], schemas)
  {
    FirstSeenIsSet(Flat(parts));
    forall name {
      FlatMembers(parts, name);
    }
  }

  /** For any rows: the scan of the full dump finds nothing but schemas iff no row's lines name anything else. */
  lemma OnlySchemasIff(rows: seq<ColumnRow>, comments: Comments)
    ensures AllIn(Scan(Full(rows, comments)), Schemas(rows)) <==>
              forall i | 0 <= i < |rows| :: AllIn(PerRow(rows, comments)[i], Schemas(rows))
  {
    FullScan(rows, comments);
    AllInFlat(PerRow(rows, comments), Schemas(rows));
  }

  lemma TidyNamesAt(rows: seq<ColumnRow>, i: nat, comments: Comments)
    requires i < |rows| && TidyRow(rows[i]) && TidyComments(comments)
    ensures NamesAt(rows, i, comments)
         == (if i == 0 || KeyOf(rows[i]) != KeyOf(rows[i - 1]) then [rows[i].schema] else []) + Leak(rows[i])
  {
    ColumnLineScan(rows[i]);
    ColumnLineIsOneLine(rows[i]);
    NamesOfOneLine(ColumnLine(rows[i]));
    TableLineScan(KeyOf(rows[i]), comments);
    NamesOfOneLine(TableLine(KeyOf(rows[i]), comments));
  }

  lemma AllInJoin(head: seq<string>, leak: seq<string>, schemas: seq<string>)
    requires AllIn(head, schemas)
    ensures AllIn(head + leak, schemas) <==> AllIn(leak, schemas)
  {
    forall name | name in leak
      ensures name in head + leak
    {
    }
  }

  lemma TidyRowNames(rows: seq<ColumnRow>, i: nat, comments: Comments)
    requires i < |rows| && TidyRow(rows[i]) && TidyComments(comments)
    ensures AllIn(NamesAt(rows, i, comments), Schemas(rows)) <==> AllIn(Leak(rows[i]), Schemas(rows))
  {
    TidyNamesAt(rows, i, comments);
    assert Schemas(rows)[i] == rows[i].schema;
    AllInJoin(if i == 0 || KeyOf(rows[i]) != KeyOf(rows[i - 1]) then [rows[i].schema] else [], Leak(rows[i]), Schemas(rows));
  }

  /** For tidy rows: iff no column is mistaken for anything else. */
  lemma OnlySchemasIfNoLeak(rows: seq<ColumnRow>, comments: Comments)
    requires TidyRows(rows) && TidyComments(comments)
    ensures AllIn(Scan(Full(rows, comments)), Schemas(rows)) <==>
              forall i | 0 <= i < |rows| :: AllIn(Leak(rows[i]), Schemas(rows))
  {
    OnlySchemasIff(rows, comments);
    forall i | 0 <= i < |rows|
      ensures AllIn(PerRow(rows, comments)[i], Schemas(rows)) <==> AllIn(Leak(rows[i]), Schemas(rows))
    {
      TidyRowNames(rows, i, comments);
    }
  }

  /** A column with a dot in its name does: its first half is taken for a schema. */
  lemma DottedColumnLeaks(r: ColumnRow, a: string, b: string, comments: Comments)
    requires TidyRow(r) && TidyComments(comments)
    requires r.column == a + ("." + b) && '.' !in a && a != "" && b != "" && a != r.schema
    ensures Scan(Full([r], comments)) == [r.schema, a]
  {
    TidyScan([r], comments);
    DottedLeak(r, a, b);
    FoundOne(r, a);
    FirstSeenPair(r.schema, a);
  }

  lemma FoundOne(r: ColumnRow, a: string)
    requires Leak(r) == [a]
    ensures Found([r]) == [r.schema] + [a]
  {
    assert [r][..0] == [];
  }

  lemma FirstSeenPair(x: string, y: string)
    requires x != y
    ensures FirstSeen([x] + [y]) == [x, y]
  {
    FirstSeenSnoc([], x);
    FirstSeenSnoc([x], y);
    assert [] + [x] == [x];
  }

  lemma DottedLeak(r: ColumnRow, a: string, b: string)
    requires r.column == a + ("." + b) && '.' !in a && a != "" && b != ""
    ensures Leak(r) == [a]
  {
    QualifierOf(a, b);
    assert r.column[|a|] == '.' && '.' !in "TABLE";
  }
}
