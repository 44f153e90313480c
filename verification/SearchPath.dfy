/** The `search_path` value built from a schema dump, and what the SQL tokenizer makes of it. */
module SearchPath {
  import opened Common
  import opened SqlLexer
  import opened SqlLexerLaws
  import opened SchemaText
  import opened SchemaScan

  function Quoted(s: string): string { ['"'] + Doubled(s, '"') + ['"'] }

  const PUBLIC := "public"

  function QuotedAll(names: seq<string>): seq<string> {
    seq(|names|, i requires 0 <= i < |names| => Quoted(names[i]))
  }

  /** The schemas, and `public` after them unless it is among them. */
  function WithPublic(names: seq<string>): seq<string> { if PUBLIC in names then names else names + [PUBLIC] }

  function Clause(text: string): string {
    if Scan(text) == [] then "" else Joined(QuotedAll(WithPublic(Scan(text))), ", ")
  }

  // ----- Quoting ------------------------------------------------------------------

  /** Every doubled quote back to one. */
  function Undoubled(s: string): string
    decreases |s|
  {
    if s == "" then ""
    else if s[0] == '"' && |s| > 1 && s[1] == '"' then ['"'] + Undoubled(s[2..])
    else [s[0]] + Undoubled(s[1..])
  }

  lemma {:induction false} UndoubleDoubled(s: string)
    ensures Undoubled(Doubled(s, '"')) == s
  {
    if s != "" {
      UndoubleDoubled(s[1..]);
      var rest := Doubled(s[1..], '"');
      if s[0] == '"' {
        assert ("\"\"" + rest)[2..] == rest;
      } else {
        assert ([s[0]] + rest)[1..] == rest;
      }
    }
  }

  lemma {:induction false} DoubledIsPaired(s: string)
    ensures Paired(Doubled(s, '"'), '"')
  {
    if s != "" {
      DoubledIsPaired(s[1..]);
      var rest := Doubled(s[1..], '"');
      if s[0] == '"' {
        assert ("\"\"" + rest)[2..] == rest;
      } else {
        assert ([s[0]] + rest)[1..] == rest;
      }
    }
  }

  lemma QuotedIsInjective(a: string, b: string)
    requires Quoted(a) == Quoted(b)
    ensures a == b
  {
    assert Quoted(a)[1..|Quoted(a)| - 1] == Doubled(a, '"');
    assert Quoted(b)[1..|Quoted(b)| - 1] == Doubled(b, '"');
    UndoubleDoubled(a);
    UndoubleDoubled(b);
  }

  lemma QuotedMembers(names: seq<string>, name: string)
    ensures Quoted(name) in QuotedAll(names) <==> name in names
  {
    var parts := QuotedAll(names);
    if Quoted(name) in parts {
      var i :| 0 <= i < |parts| && parts[i] == Quoted(name);
      QuotedIsInjective(names[i], name);
    }
    if name in names {
      var i :| 0 <= i < |names| && names[i] == name;
      assert parts[i] == Quoted(name);
    }
  }

  // ----- Building -----------------------------------------------------------------------

  method Quote(s: string) returns (q: string)
    ensures q == Quoted(s)
  {
    var body: string := "";
    var i := 0;
    while i < |s|
      invariant i <= |s| && body + Doubled(s[i..], '"') == Doubled(s, '"')
    {
      var next := if s[i] == '"' then "\"\"" else [s[i]];
      assert s[i..][1..] == s[i + 1..];
      Associative(body, next, Doubled(s[i + 1..], '"'));
      body := body + next;
      i := i + 1;
    }
    assert body == Doubled(s, '"');
    q := ['"'] + body + ['"'];
  }

  lemma QuotedSnoc(names: seq<string>, i: nat)
    requires i < |names|
    ensures QuotedAll(names[..i + 1]) == QuotedAll(names[..i]) + [Quoted(names[i])]
  {
  }

  method SearchPathClause(text: string) returns (clause: string)
    ensures clause == Clause(text)
  {
    var names := DistinctSchemas(text);
    var parts: seq<string> := [];
    var i := 0;
    while i < |names|
      invariant i <= |names| && parts == QuotedAll(names[..i])
    {
      var q := Quote(names[i]);
      QuotedSnoc(names, i);
      parts := parts + [q];
      i := i + 1;
    }
    assert names[..i] == names;
    if parts == [] {
      return "";
    }
    var public := Quote(PUBLIC);
    QuotedMembers(names, PUBLIC);
    if public !in parts {
      QuotedSnoc(names + [PUBLIC], |names|);
      assert (names + [PUBLIC])[..|names|] == names && (names + [PUBLIC])[..|names| + 1] == names + [PUBLIC];
      parts := parts + [public];
    }
    clause := Join(parts, ", ");
  }

  // ----- Reading it back ------------------------------------------------------------------

  /** Quoted identifiers with commas between them. */
  function Listed(names: seq<string>): seq<Token> {
    if names == [] then []
    else [QuotedIdent(Doubled(names[0], '"'))] + (if |names| == 1 then [] else [Comma]) + Listed(names[1..])
  }

  /** The identifiers a list of tokens names, with their quotes undoubled. */
  function Identifiers(ts: seq<Token>): seq<string> {
    if ts == [] then []
    else (if ts[0].QuotedIdent? then [Undoubled(ts[0].text)] else []) + Identifiers(ts[1..])
  }

  lemma LexOfQuoted(name: string, rest: string)
    requires rest == "" || rest[0] != '"'
    ensures Lex(Quoted(name) + rest) == [QuotedIdent(Doubled(name, '"'))] + Lex(rest)
  {
    DoubledIsPaired(name);
    FirstOfQuoted(Doubled(name, '"'), rest);
    LexOfFirst(Quoted(name) + rest, Quoted(name), rest);
  }

  lemma LexOfSeparator(rest: string)
    ensures Lex(", " + rest) == [Comma] + Lex(rest)
  {
    var s := "," + (" " + rest);
    assert s == ", " + rest && First(s) == Lexeme(1, Some(Comma));
    LexOfFirst(s, ",", " " + rest);
    LexOfBlank(rest);
  }

  lemma JoinedFirst(name: string, names: seq<string>, rest: string)
    requires names != [] && rest == Joined(QuotedAll(names), ", ")
    ensures Joined(QuotedAll([name] + names), ", ") == Quoted(name) + (", " + rest)
  {
    var parts := QuotedAll([name] + names);
    assert parts[0] == Quoted(name) && parts[1..] == QuotedAll(names);
  }

  lemma {:induction false} LexOfJoined(names: seq<string>)
    requires names != []
    ensures Lex(Joined(QuotedAll(names), ", ")) == Listed(names)
  {
    if |names| == 1 {
      LexOfQuoted(names[0], "");
      assert Quoted(names[0]) + "" == Quoted(names[0]) && QuotedAll(names)[0] == Quoted(names[0]);
    } else {
      var rest := Joined(QuotedAll(names[1..]), ", ");
      LexOfJoined(names[1..]);
      assert names == [names[0]] + names[1..];
      JoinedFirst(names[0], names[1..], rest);
      LexOfSeparator(rest);
      LexOfQuoted(names[0], ", " + rest);
    }
  }

  lemma IdentifiersOfFirst(t: Token, rest: seq<Token>)
    ensures Identifiers([t] + rest) == (if t.QuotedIdent? then [Undoubled(t.text)] else []) + Identifiers(rest)
  {
    assert ([t] + rest)[1..] == rest;
  }

  lemma {:induction false} IdentifiersOfListed(names: seq<string>)
    ensures Identifiers(Listed(names)) == names
  {
    if names != [] {
      var ident, rest := QuotedIdent(Doubled(names[0], '"')), Listed(names[1..]);
      IdentifiersOfListed(names[1..]);
      UndoubleDoubled(names[0]);
      IdentifiersOfFirst(ident, rest);
      IdentifiersOfFirst(ident, [Comma] + rest);
      IdentifiersOfFirst(Comma, rest);
      Associative([ident], [Comma], rest);
      assert names == [names[0]] + names[1..];
      assert |names| == 1 ==> Listed(names) == [ident] + rest;
    }
  }

  /**
   The clause is empty when the dump names no schema. Otherwise the tokenizer reads
   it as quoted identifiers separated by commas, and these are the schemas in order
   of first appearance, with `public` at the end unless it is among them.
   */
  lemma ClauseNamesTheSchemas(text: string)
    ensures Clause(text) == "" <==> Scan(text) == []
    ensures Scan(text) != [] ==>
      && Lex(Clause(text)) == Listed(WithPublic(Scan(text)))
      && Identifiers(Lex(Clause(text))) == if "public" in Scan(text) then Scan(text) else Scan(text) + ["public"]
  {
    var names := WithPublic(Scan(text));
    LexOfJoined(names);
    IdentifiersOfListed(names);
    assert Lex("") == [] && Listed(names) != [];
  }

  /** From the catalog rows to the session's search path, through either dump. */
  lemma SearchPathOfDumps(rows: seq<ColumnRow>, comments: Comments)
    requires CleanRows(rows) && TidyComments(comments) && rows != []
    ensures Clause(Full(rows, comments)) == Clause(Compact(rows, comments))
    ensures var schemas := FirstSeen(Schemas(rows));
      Identifiers(Lex(Clause(Full(rows, comments)))) == if "public" in schemas then schemas else schemas + ["public"]
  {
    ScansAgree(rows, comments);
    ClauseNamesTheSchemas(Full(rows, comments));
    FirstSeenIsSet(Schemas(rows));
    assert Schemas(rows)[0] in Schemas(rows);
  }
}
