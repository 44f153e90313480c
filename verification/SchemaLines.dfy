/** The schema dumps and the scan in terms of rows, lines and words alone. */
module SchemaLines {
  import opened Common
  import opened SchemaText

  // ----- Order of first appearance, counts, widths -----------------------------------

  /** Of two elements the earlier in the list is the one that appeared first. */
  lemma {:induction false} FirstSeenInOrder<T>(xs: seq<T>, i: nat, j: nat, k: nat)
    requires i < j < |FirstSeen(xs)| && k < |xs| && xs[k] == FirstSeen(xs)[j]
    ensures FirstSeen(xs)[i] in xs[..k]
    decreases |xs|
  {
    var init, last := xs[..|xs| - 1], xs[|xs| - 1];
    var before := FirstSeen(init);
    FirstSeenIsSet(init);
    if k < |init| { assert init[k] in FirstSeen(init); }
    if k == |init| {
      Member(init, before[i]);
      assert xs[..k] == init;
      assert FirstSeen(xs)[i] == before[i];
    } else if j < |before| {
      FirstSeenInOrder(init, i, j, k);
      assert init[..k] == xs[..k];
    }
  }

  lemma Member<T>(xs: seq<T>, x: T)
    requires x in FirstSeen(xs)
    ensures x in xs
  {
    FirstSeenIsSet(xs);
  }

  lemma {:induction false} CountIs(keys: seq<TableKey>, key: TableKey)
    ensures Count(keys, key) == |set i | 0 <= i < |keys| && keys[i] == key|
  {
    var all := set i | 0 <= i < |keys| && keys[i] == key;
    if keys == [] {
      assert all == {};
    } else {
      var n := |keys| - 1;
      CountIs(keys[..n], key);
      var before := set i | 0 <= i < |keys[..n]| && keys[..n][i] == key;
      assert all == before + if keys[n] == key then {n} else {};
    }
  }

  lemma {:induction false} WidestIs(keys: seq<TableKey>)
    ensures forall i | 0 <= i < |keys| :: |keys[i].schema| + 1 + |keys[i].table| <= Widest(keys)
    ensures Widest(keys) == 0 || exists i :: 0 <= i < |keys| && |keys[i].schema| + 1 + |keys[i].table| == Widest(keys)
  {
    if keys != [] {
      var init := keys[..|keys| - 1];
      WidestIs(init);
      if Widest(init) == Widest(keys) && Widest(init) > 0 {
        var i :| 0 <= i < |init| && |init[i].schema| + 1 + |init[i].table| == Widest(init);
        assert keys[i] == init[i];
      }
    }
  }

  /** The `i`-th comment is the last one given for the table. */
  predicate LastComment(comments: Comments, key: TableKey, i: nat) {
    i < |comments| && comments[i].0 == key && forall j | i < j < |comments| :: comments[j].0 != key
  }

  /** The comment of a table is the last one given for it. */
  lemma {:induction false} CommentIs(comments: Comments, key: TableKey) returns (i: nat)
    ensures if exists k :: 0 <= k < |comments| && comments[k].0 == key
            then LastComment(comments, key, i) && CommentOn(comments, key) == Some(comments[i].1)
            else CommentOn(comments, key) == None
  {
    i := 0;
    if comments != [] {
      var n := |comments| - 1;
      if comments[n].0 == key {
        i := n;
      } else {
        i := CommentIs(comments[..n], key);
        assert forall j | 0 <= j < n :: comments[j] == comments[..n][j];
      }
    }
  }

  // ----- The full dump -------------------------------------------------------------------

  function Comment(text: Option<string>): string { if text.Some? then " -- " + text.value else "" }

  /** The lines of row `i`: a blank one and the table's when the table is another than before, and the column's. */
  function LinesOfRow(rows: seq<ColumnRow>, comments: Comments, i: nat): seq<string>
    requires i < |rows|
  {
    var r := rows[i];
    var first := i == 0 || rows[i - 1].schema != r.schema || rows[i - 1].table != r.table;
    (if first && i > 0 then [""] else [])
    + (if first then ["TABLE " + r.schema + "." + r.table + Comment(CommentOn(comments, TableKey(r.schema, r.table)))]
       else [])
    + ["  " + r.column + " " + r.dataType + (if r.notNull then " NOT NULL" else "")
       + (if |r.comment| > 0 then "  -- " + r.comment else "")]
  }

  function LinesOfRows(rows: seq<ColumnRow>, comments: Comments, n: nat): seq<string>
    requires n <= |rows|
  {
    if n == 0 then [] else LinesOfRows(rows, comments, n - 1) + LinesOfRow(rows, comments, n - 1)
  }

  lemma LastLines(rows: seq<ColumnRow>, comments: Comments, i: nat)
    requires i < |rows|
    ensures LinesOfLast(rows[..i + 1], comments) == LinesOfRow(rows, comments, i)
  {
    var r := rows[i];
    var key := TableKey(r.schema, r.table);
    HeadLine(r.schema, r.table, Comment(CommentOn(comments, key)));
    RowLine(r.column, r.dataType, if r.notNull then " NOT NULL" else "", if |r.comment| > 0 then "  -- " + r.comment else "");
  }

  lemma HeadLine(schema: string, table: string, comment: string)
    ensures "TABLE " + (schema + "." + table) + comment == "TABLE " + schema + "." + table + comment
  {
  }

  lemma RowLine(column: string, dataType: string, mark: string, comment: string)
    ensures "  " + column + " " + (dataType + mark + comment) == "  " + column + " " + dataType + mark + comment
  {
  }

  lemma OneRowMore(rows: seq<ColumnRow>, comments: Comments, n: nat)
    requires n < |rows|
    ensures FullLines(rows[..n + 1], comments) == FullLines(rows[..n], comments) + LinesOfRow(rows, comments, n)
  {
    FullLinesSnoc(rows, n, comments);
    LastLines(rows, comments, n);
  }

  lemma {:induction false} FullLinesAre(rows: seq<ColumnRow>, comments: Comments, n: nat, part: seq<ColumnRow>)
    requires n <= |rows| && part == rows[..n]
    ensures FullLines(part, comments) == LinesOfRows(rows, comments, n)
  {
    if n > 0 {
      FullLinesAre(rows, comments, n - 1, rows[..n - 1]);
      OneRowMore(rows, comments, n - 1);
    }
  }

  /** The full dump is the lines of its rows, in order. */
  lemma FullDumpIs(rows: seq<ColumnRow>, comments: Comments)
    ensures Full(rows, comments) == if |rows| == 0 then "(no user-visible tables found)"
                                    else Unlines(LinesOfRows(rows, comments, |rows|))
  {
    FullLinesAre(rows, comments, |rows|, rows);
  }

  // ----- The compact dump ---------------------------------------------------------------------

  /**
   The compact dump: a header, and for each table, in order of first appearance, its
   name padded to the widest, the number of its rows, and its comment.
   */
  lemma CompactDumpIs(rows: seq<ColumnRow>, comments: Comments) returns (tables: seq<TableKey>, lines: seq<string>)
    requires rows != []
    ensures Compact(rows, comments) == Unlines(lines) && |lines| == |tables| + 1
    ensures tables == FirstSeen(seq(|rows|, i requires 0 <= i < |rows| => TableKey(rows[i].schema, rows[i].table)))
    ensures lines[0] == "TABLES (use describe_table for columns):"
    ensures forall k | 0 <= k < |tables| ::
              var name := tables[k].schema + "." + tables[k].table;
              lines[k + 1] == "  " + Padded(name, Widest(tables)) + "  ("
                              + Digits(|set i | 0 <= i < |rows| && TableKey(rows[i].schema, rows[i].table) == tables[k]|)
                              + " columns)" + Comment(CommentOn(comments, tables[k]))
  {
    tables := FirstSeen(Keys(rows));
    lines := [COMPACT_HEADER] + CompactLines(tables, Widest(tables), Keys(rows), comments);
    forall k | 0 <= k < |tables|
      ensures Count(Keys(rows), tables[k])
           == |set i | 0 <= i < |rows| && TableKey(rows[i].schema, rows[i].table) == tables[k]|
    {
      CountIs(Keys(rows), tables[k]);
      assert (set i | 0 <= i < |rows| && TableKey(rows[i].schema, rows[i].table) == tables[k])
          == (set i | 0 <= i < |Keys(rows)| && Keys(rows)[i] == tables[k]);
    }
    assert Keys(rows) == seq(|rows|, i requires 0 <= i < |rows| => TableKey(rows[i].schema, rows[i].table));
  }

  // ----- The scan -------------------------------------------------------------------------------

  predicate AllWhite(s: string) { forall i | 0 <= i < |s| :: IsWhite(s[i]) }

  predicate NoneWhite(s: string) { forall i | 0 <= i < |s| :: !IsWhite(s[i]) }

  predicate StartsWhite(s: string) { s == "" || IsWhite(s[0]) }

  lemma {:induction false} TrimStartIs(s: string) returns (lead: string)
    ensures s == lead + TrimStart(s) && AllWhite(lead)
    ensures TrimStart(s) != "" ==> !IsWhite(TrimStart(s)[0])
  {
    if s != "" && IsWhite(s[0]) {
      var rest := TrimStartIs(s[1..]);
      lead := [s[0]] + rest;
      assert s == [s[0]] + (rest + TrimStart(s));
    } else {
      lead := "";
    }
  }

  lemma {:induction false} WordLengthIs(s: string)
    ensures NoneWhite(s[..WordLength(s)]) && StartsWhite(s[WordLength(s)..])
  {
    if s != "" && !IsWhite(s[0]) {
      var rest := s[1..];
      WordLengthIs(rest);
      assert s[..WordLength(s)] == [s[0]] + rest[..WordLength(rest)];
      assert s[WordLength(s)..] == rest[WordLength(rest)..];
    }
  }

  lemma {:induction false} NoFeedAtAll(a: string)
    requires '\n' !in a
    ensures LineLength(a) == |a|
  {
    if a != "" { NoFeedAtAll(a[1..]); }
  }

  /** A line ends at a line feed, or at a carriage return before one. */
  lemma FirstLineIs(line: string, ending: string, rest: string, text: string)
    requires '\n' !in line && text == line + ending + rest
    requires (ending == "\n" && (line == "" || line[|line| - 1] != '\r')) || ending == "\r\n"
    ensures Lines(text) == [line] + Lines(rest)
  {
    var whole := if ending == "\n" then line else line + "\r";
    assert text == whole + ("\n" + rest);
    LineLengthOf(whole, rest);
    assert text[..|whole|] == whole && text[|whole| + 1..] == rest;
    assert whole[..|line|] == line;
  }

  /** The last line needs no ending. */
  lemma LastLineIs(line: string)
    requires '\n' !in line && line != ""
    ensures Lines(line) == [line]
  {
    NoFeedAtAll(line);
  }

  /**
   The scan of a line passes over white space, over the prefix `TABLE ` if it comes
   next, and over more white space; of the word there it takes what precedes the first
   dot, if that is something and something follows.
   */
  lemma SchemaInIs(line: string) returns (lead: string, prefix: string, gap: string, word: string, rest: string)
    ensures line == lead + (prefix + (gap + (word + rest)))
    ensures AllWhite(lead) && AllWhite(gap) && NoneWhite(word) && StartsWhite(rest) && (word == "" ==> rest == "")
    ensures prefix == "TABLE " || (prefix == "" && gap == "" && !("TABLE " <= word + rest))
    ensures forall n: nat | n < |word| && word[n] == '.' && (forall i | 0 <= i < n :: word[i] != '.') ::
              SchemaIn(line) == if 0 < n < |word| - 1 then [word[..n]] else []
    ensures (forall i | 0 <= i < |word| :: word[i] != '.') ==> SchemaIn(line) == []
  {
    lead, prefix, gap, word, rest := PartsOfLine(line);
    DotIs(word);
  }

  lemma PartsOfLine(line: string) returns (lead: string, prefix: string, gap: string, word: string, rest: string)
    ensures line == lead + (prefix + (gap + (word + rest)))
    ensures AllWhite(lead) && AllWhite(gap) && NoneWhite(word) && StartsWhite(rest) && (word == "" ==> rest == "")
    ensures prefix == TABLE_PREFIX || (prefix == "" && gap == "" && !(TABLE_PREFIX <= word + rest))
    ensures SchemaIn(line) == Qualifier(word)
  {
    lead := TrimStartIs(line);
    var t, candidate := TrimStart(line), Candidate(line);
    prefix := if TABLE_PREFIX <= t then TABLE_PREFIX else "";
    CandidateIs(t, prefix, candidate);
    var inner := TrimStartIs(candidate);
    var trimmed := TrimStart(candidate);
    gap := if prefix == "" then "" else inner;
    WordLengthIs(trimmed);
    word, rest := trimmed[..WordLength(trimmed)], trimmed[WordLength(trimmed)..];
    WordIsNotCut(trimmed, word, rest);
  }

  lemma WordIsNotCut(trimmed: string, word: string, rest: string)
    requires trimmed == "" || !IsWhite(trimmed[0])
    requires word == trimmed[..WordLength(trimmed)] && rest == trimmed[WordLength(trimmed)..]
    ensures trimmed == word + rest && (word == "" ==> rest == "")
  {
  }

  lemma CandidateIs(t: string, prefix: string, candidate: string)
    requires t == "" || !IsWhite(t[0])
    requires prefix == if TABLE_PREFIX <= t then TABLE_PREFIX else ""
    requires candidate == if TABLE_PREFIX <= t then t[|TABLE_PREFIX|..] else t
    ensures t == prefix + candidate && (prefix == "" ==> candidate == t && TrimStart(candidate) == candidate)
  {
  }

  lemma DotIs(word: string)
    ensures forall n: nat | n < |word| && word[n] == '.' && (forall i | 0 <= i < n :: word[i] != '.') ::
              Qualifier(word) == if 0 < n < |word| - 1 then [word[..n]] else []
    ensures (forall i | 0 <= i < |word| :: word[i] != '.') ==> Qualifier(word) == []
  {
    NoDotBefore(word);
  }

  lemma NoDotBefore(word: string)
    ensures forall i | 0 <= i < FirstDot(word) :: word[i] != '.'
  {
    forall i | 0 <= i < FirstDot(word) ensures word[i] != '.' { assert word[..FirstDot(word)][i] == word[i]; }
  }
}
