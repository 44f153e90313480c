/**
 Comments that nest. SQL's do and the tokenizer's do not; this module says when
 that makes no difference, and gives a statement on which it decides the verdict.
 */
module SqlComments {
  import opened Common
  import opened SqlLexer
  import opened SqlLexerLaws
  import opened SqlLexerCuts
  import opened SqlGuard
  import SqlReader

  predicate OpensBefore(s: string, n: int) { exists i :: 0 <= i < n && i + 1 < |s| && s[i] == '/' && s[i + 1] == '*' }

  lemma NestedIsLong(s: string, depth: nat)
    requires depth > 0
    ensures SqlReader.NestedEnd(s, depth) >= Min(2, |s|)
  {
  }

  /** A nesting scan ends no earlier than the first closer, and later if it is deeper there. */
  lemma {:induction false} NestedIsLater(s: string, depth: nat)
    requires depth > 0
    ensures SqlReader.NestedEnd(s, depth) >= BlockEnd(s)
    ensures depth > 1 && BlockEnd(s) < |s| ==> SqlReader.NestedEnd(s, depth) > BlockEnd(s)
    decreases |s|
  {
    if |s| >= 2 {
      if s[0] == '/' && s[1] == '*' {
        assert s[1..][1..] == s[2..];
        NestedIsLater(s[2..], depth + 1);
        NestedIsLong(s[2..], depth + 1);
      } else if s[0] == '*' && s[1] == '/' {
        if depth > 1 { NestedIsLong(s[2..], depth - 1); }
      } else {
        NestedIsLater(s[1..], depth);
      }
    }
  }

  /**
   Skipping a comment to its first closer is as good as minding nested comments if
   and only if no comment is opened before that closer, or nothing follows it.
   */
  lemma {:induction false} FirstCloserIsEnoughIff(s: string)
    ensures BlockEnd(s) == SqlReader.NestedEnd(s, 1) <==> BlockEnd(s) == |s| || !OpensBefore(s, BlockEnd(s) - 2)
    decreases |s|
  {
    NestedIsLater(s, 1);
    if |s| >= 2 {
      if s[0] == '/' && s[1] == '*' {
        NestedIsLater(s[2..], 2);
        NestedIsLong(s[2..], 2);
        assert s[1..][1..] == s[2..];
        assert BlockEnd(s) < |s| ==> OpensBefore(s, BlockEnd(s) - 2);
      } else if !(s[0] == '*' && s[1] == '/') {
        FirstCloserIsEnoughIff(s[1..]);
        OpensLater(s, BlockEnd(s) - 2);
      }
    }
  }

  lemma OpensLater(s: string, n: int)
    requires |s| >= 2 && !(s[0] == '/' && s[1] == '*') && n >= -1
    ensures n >= 1 ==> (OpensBefore(s, n) <==> OpensBefore(s[1..], n - 1))
    ensures n == 0 ==> !OpensBefore(s, 0)
  {
    if n >= 1 && OpensBefore(s, n) {
      var i :| 0 <= i < n && i + 1 < |s| && s[i] == '/' && s[i + 1] == '*';
      assert s[1..][i - 1] == '/' && s[1..][i] == '*';
    }
    if n >= 1 && OpensBefore(s[1..], n - 1) {
      var i :| 0 <= i < n - 1 && i + 1 < |s[1..]| && s[1..][i] == '/' && s[1..][i + 1] == '*';
      assert s[i + 1] == '/' && s[i + 2] == '*';
    }
  }

  // ----- A statement on which it is not enough ---------------------------------------------

  lemma {:induction false} AlreadyLower(s: string)
    requires forall i | 0 <= i < |s| :: LowerChar(s[i]) == s[i]
    ensures Lower(s) == s
  {
    if s != "" { AlreadyLower(s[..|s| - 1]); }
  }

  lemma {:induction false} NoDots(s: string)
    requires '.' !in s
    ensures Leaf(s) == s
  {
    if s != "" { NoDots(s[..|s| - 1]); }
  }

  lemma {:induction false} NoQuotes(s: string, q: char)
    requires q !in s
    ensures Paired(s, q)
  {
    if s != "" { NoQuotes(s[1..], q); }
  }

  /** The comment of which the tokenizer sees but the beginning. */
  lemma NestedComment(c: string, rest: string)
    requires c == "/**/'*/"
    ensures SqlReader.NestedEnd(c + rest, 1) == |c| && BlockEnd(c + rest) == 4
  {
    var s := c + rest;
    var t := s[2..];
    assert t[2..] == s[4..] && s[4..][1..] == s[5..];
    assert SqlReader.NestedEnd(s[5..], 1) == 2;
    assert SqlReader.NestedEnd(s[4..], 1) == 3;
    assert SqlReader.NestedEnd(t, 2) == 5;
    assert s[1..][1..] == t;
    assert BlockEnd(t) == 2;
  }

  lemma BlockThenString(s: string, body: string)
    requires s == "/*" + "/*" + "*/" + (['\''] + body + ['\'']) && '\'' !in body
    ensures Lex(s) == [StringLit]
  {
    var o, more := Block("/*"), ['\''] + body + ['\''];
    var b := "/*" + "*/";
    assert b[1..][1..] == "*/";
    assert BlockEnd(b[1..]) == 3;
    PieceThenMore(o, s, more);
    NoQuotes(body, '\'');
    FirstOfString(body, "");
    assert more + "" == more;
    LexAs(more, Lexeme(|more|, Some(StringLit)), "");
    assert [] + [StringLit] == [StringLit];
  }

  lemma WordThenBlank(w: string, rest: string)
    requires WellFormed(Word(w))
    ensures Lex(w + (" " + rest)) == [Word(w)] + Lex(rest)
  {
    FirstOfWord(w, " " + rest);
    assert (w + (" " + rest))[|w|..] == " " + rest;
    LexAs(w + (" " + rest), Lexeme(|w|, Some(Word(w))), " " + rest);
    LexOfBlank(rest);
  }

  lemma WordThenParen(w: string, rest: string)
    requires WellFormed(Word(w))
    ensures Lex(w + ("(" + rest)) == [Word(w)] + ([LParen] + Lex(rest))
  {
    var s, more := w + ("(" + rest), "(" + rest;
    assert s[1..] == w[1..] + more;
    RunOfPrefix(w[1..], more, IsWordCont);
    assert s[..|w|] == w && s[|w|..] == more && more[1..] == rest;
    LexAs(s, Lexeme(|w|, Some(Word(w))), more);
    LexAs(more, Lexeme(1, Some(LParen)), rest);
  }

  lemma SelectPasses(ts: seq<Token>, verb: string)
    requires verb == "select" && ts == [Word(verb), StringLit]
    ensures Passes(STANDARD, ts, Readonly)
  {
    AlreadyLower(verb);
    assert FirstWord(ts) == Some(verb);
    assert verb in STANDARD.readonlyVerbs && verb[0] != "copy"[0];
  }

  lemma SleepIsBanned(ts: seq<Token>, name: string, tail: seq<Token>)
    requires name == "pg_sleep" && ts == [Word(name)] + ([LParen] + tail)
    ensures BannedCallAt(STANDARD, ts, 0)
  {
    AlreadyLower(name);
    NoDots(name);
    assert name in STANDARD.banned;
  }

  lemma StatementPasses(s: string, verb: string, rest: string, body: string)
    requires verb == "select" && rest == "/*" + "/*" + "*/" + (['\''] + body + ['\'']) && '\'' !in body
    requires s == verb + (" " + rest)
    ensures Lex(s) == [Word(verb), StringLit] && Passes(STANDARD, Lex(s), Readonly)
  {
    BlockThenString(rest, body);
    WordThenBlank(verb, rest);
    SelectPasses(Lex(s), verb);
  }

  lemma CallIsBanned(call: string, name: string, rest: string)
    requires name == "pg_sleep" && call == name + ("(" + rest)
    ensures BannedCallAt(STANDARD, Lex(call), 0)
  {
    WordThenParen(name, rest);
    SleepIsBanned(Lex(call), name, Lex(rest));
  }

  lemma Parts(s: string, comment: string, call: string) returns (verb: string, name: string, body: string, rest: string)
    requires s == "select /*" + comment + call && comment == "/**/'*/" && call == "pg_sleep(1)--'"
    ensures verb == "select" && name == "pg_sleep" && call == name + ("(" + "1)--'") && s == verb + (" " + rest)
    ensures rest == "/*" + "/*" + "*/" + (['\''] + body + ['\'']) && '\'' !in body
  {
    verb, name, body := "select", "pg_sleep", "*/pg_sleep(1)--";
    rest := "/*" + "/*" + "*/" + (['\''] + body + ['\'']);
  }

  /**
   After the comment as SQL reads it stands a banned call; to the tokenizer the call
   is in a string, and the statement passes.
   */
  lemma NestingDecides(s: string, comment: string, call: string)
    requires s == "select /*" + comment + call && comment == "/**/'*/" && call == "pg_sleep(1)--'"
    ensures SqlReader.NestedEnd(comment + call, 1) == |comment| && BannedCallAt(STANDARD, Lex(call), 0)
    ensures Lex(s) == [Word("select"), StringLit] && Passes(STANDARD, Lex(s), Readonly)
  {
    NestedComment(comment, call);
    var verb, name, body, rest := Parts(s, comment, call);
    CallIsBanned(call, name, "1)--'");
    StatementPasses(s, verb, rest, body);
  }
}
