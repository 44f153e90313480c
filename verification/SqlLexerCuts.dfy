/**
 Cutting the tokenizer's input. A lexeme that ends before the end of the input
 does not depend on what follows it, beyond the one byte that ended it. So the
 contents of a closed literal or comment never reach the surrounding tokens.
 */
module SqlLexerCuts {
  import opened Common
  import opened SqlLexer
  import opened SqlLexerLaws

  predicate HasCloser(s: string, tag: string) {
    |s| >= |tag| && (tag <= s || (s != "" && HasCloser(s[1..], tag)))
  }

  /** A dollar-quoted literal at the start of `s` is closed in `s`. */
  predicate Closes(s: string)
    requires s != ""
  {
    s[0] == '$' && TagLength(s).Some? ==> HasCloser(s[TagLength(s).value..], s[..TagLength(s).value])
  }

  /** The lexemes of `p` followed by `c` end exactly where `p` ends, all closed. */
  predicate Clean(p: string, c: char)
    decreases |p|
  {
    p == "" ||
    (First(p + [c]).len <= |p| && Closes(p + [c]) && Clean(p[First(p + [c]).len..], c))
  }

  // ----- Each scan stops for good once it stops early ---------------------------

  lemma {:induction false} SkipUntilLocal(u: string, c: char, x: string, target: char)
    requires SkipUntil(u + [c], target) <= |u|
    ensures SkipUntil(u + [c] + x, target) == SkipUntil(u + [c], target) == SkipUntil(u, target)
  {
    if u == "" {
      assert false;
    } else {
      assert (u + [c])[1..] == u[1..] + [c] && (u + [c] + x)[1..] == u[1..] + [c] + x;
      if u[0] != target { SkipUntilLocal(u[1..], c, x, target); }
    }
  }

  lemma {:induction false} BlockEndLocal(u: string, c: char, x: string)
    ensures BlockEnd(u + [c]) <= |u| ==> BlockEnd(u + [c] + x) == BlockEnd(u + [c]) == BlockEnd(u)
  {
    assert u != "" ==> (u + [c])[1..] == u[1..] + [c] && (u + [c] + x)[1..] == u[1..] + [c] + x;
    if |u| >= 2 && !(u[0] == '*' && u[1] == '/') { BlockEndLocal(u[1..], c, x); }
    if |u| == 1 { assert (u + [c])[1..] == [c]; }
  }

  lemma {:induction false} QuoteEndLocal(u: string, c: char, x: string, q: char)
    requires QuoteEnd(u + [c], q) < |u|
    ensures QuoteEnd(u + [c] + x, q) == QuoteEnd(u + [c], q) == QuoteEnd(u, q)
    decreases |u|
  {
    if u[0] != q {
      assert (u + [c])[1..] == u[1..] + [c] && (u + [c] + x)[1..] == u[1..] + [c] + x;
      QuoteEndLocal(u[1..], c, x, q);
    } else if |u| > 1 && u[1] == q {
      assert (u + [c])[2..] == u[2..] + [c] && (u + [c] + x)[2..] == u[2..] + [c] + x;
      QuoteEndLocal(u[2..], c, x, q);
    }
  }

  lemma {:induction false} RunLocal(u: string, c: char, x: string, keep: char -> bool)
    requires Run(u + [c], keep) <= |u|
    ensures Run(u + [c] + x, keep) == Run(u + [c], keep) == Run(u, keep)
  {
    if u != "" {
      assert (u + [c])[1..] == u[1..] + [c] && (u + [c] + x)[1..] == u[1..] + [c] + x;
      if keep(u[0]) { RunLocal(u[1..], c, x, keep); }
    }
  }

  lemma PrefixOfLonger(tag: string, s: string, r: string)
    requires |tag| <= |s|
    ensures tag <= s + r <==> tag <= s
  {
    assert (s + r)[..|tag|] == s[..|tag|];
  }

  lemma {:induction false} CloserIsReached(s: string, tag: string)
    requires HasCloser(s, tag)
    ensures CloseEnd(s, tag) >= |tag|
  {
    if !(tag <= s) { CloserIsReached(s[1..], tag); }
  }

  lemma {:induction false} CloseEndLocal(u: string, c: char, x: string, tag: string)
    requires tag != "" && HasCloser(u + [c], tag) && CloseEnd(u + [c], tag) <= |u|
    ensures CloseEnd(u + [c] + x, tag) == CloseEnd(u + [c], tag) == CloseEnd(u, tag)
    ensures HasCloser(u, tag)
  {
    var s := u + [c];
    CloserIsReached(s, tag);
    PrefixOfLonger(tag, s, x);
    if tag <= s {
      PrefixOfLonger(tag, u, [c]);
    } else {
      assert s[1..] == u[1..] + [c] && (s + x)[1..] == u[1..] + [c] + x;
      CloserIsReached(s[1..], tag);
      CloseEndLocal(u[1..], c, x, tag);
      PrefixOfLonger(tag, u, [c]);
    }
  }

  // ----- The first lexeme --------------------------------------------------------

  /** The lexeme at the start of `p`, when it ends within `p`, is the same alone and in any context. */
  lemma FirstLocal(p: string, c: char, x: string)
    requires p != "" && !IsTagChar(c) && First(p + [c]).len <= |p| && Closes(p + [c])
    ensures First(p + [c] + x) == First(p + [c]) == First(p)
  {
    if IsSpace(p[0]) {
    } else if p[0] == '\'' {
      FirstLocalString(p, c, x);
    } else if p[0] == '"' {
      FirstLocalQuoted(p, c, x);
    } else if p[0] == '$' {
      FirstLocalDollar(p, c, x);
    } else if IsWordStart(p[0]) {
      FirstLocalWord(p, c, x);
    } else {
      FirstLocalComment(p, c, x);
    }
  }

  lemma FirstLocalString(p: string, c: char, x: string)
    requires p != "" && p[0] == '\'' && First(p + [c]).len <= |p|
    ensures First(p + [c] + x) == First(p + [c]) == First(p)
  {
    var s, t := p + [c], p + [c] + x;
    assert s[1..] == p[1..] + [c] && t[1..] == p[1..] + [c] + x;
    QuoteEndLocal(p[1..], c, x, '\'');
  }

  lemma FirstLocalWord(p: string, c: char, x: string)
    requires p != "" && IsWordStart(p[0]) && First(p + [c]).len <= |p|
    ensures First(p + [c] + x) == First(p + [c]) == First(p)
  {
    var s, t := p + [c], p + [c] + x;
    assert s[1..] == p[1..] + [c] && t[1..] == p[1..] + [c] + x;
    RunLocal(p[1..], c, x, IsWordCont);
    var n := First(s).len;
    assert s[..n] == t[..n] == p[..n];
  }

  lemma FirstLocalComment(p: string, c: char, x: string)
    requires p != "" && p[0] !in "'\"$" && !IsWordStart(p[0]) && First(p + [c]).len <= |p|
    ensures First(p + [c] + x) == First(p + [c]) == First(p)
  {
    var s, t := p + [c], p + [c] + x;
    if |p| > 1 {
      assert s[2..] == p[2..] + [c] && t[2..] == p[2..] + [c] + x;
      if p[0] == '-' && p[1] == '-' {
        SkipUntilLocal(p[2..], c, x, '\n');
      } else if p[0] == '/' && p[1] == '*' {
        BlockEndLocal(p[2..], c, x);
      }
    }
  }

  lemma FirstLocalQuoted(p: string, c: char, x: string)
    requires p != "" && p[0] == '"' && First(p + [c]).len <= |p|
    ensures First(p + [c] + x) == First(p + [c]) == First(p)
  {
    var s, t := p + [c], p + [c] + x;
    assert s[1..] == p[1..] + [c] && t[1..] == p[1..] + [c] + x;
    QuoteEndLocal(p[1..], c, x, '"');
    var e := 1 + QuoteEnd(p[1..], '"');
    assert s[1..e] == t[1..e] == p[1..e];
  }

  lemma FirstIsDollar(s: string, n: nat)
    requires s != "" && s[0] == '$' && TagLength(s) == Some(n)
    ensures First(s) == Lexeme(n + CloseEnd(s[n..], s[..n]), Some(StringLit))
  {
  }

  lemma FirstLocalDollar(p: string, c: char, x: string)
    requires p != "" && p[0] == '$' && !IsTagChar(c) && First(p + [c]).len <= |p| && Closes(p + [c])
    ensures First(p + [c] + x) == First(p + [c]) == First(p)
  {
    var s, t := p + [c], p + [c] + x;
    TagLengthLocal(p, c, x);
    if TagLength(s).Some? {
      var n := TagLength(s).value;
      FirstIsDollar(s, n);
      assert s[n..] == p[n..] + [c] && t[n..] == p[n..] + [c] + x;
      assert s[..n] == p[..n] && t[..n] == p[..n];
      CloseEndLocal(p[n..], c, x, p[..n]);
      FirstIsDollar(t, n);
      FirstIsDollar(p, n);
    }
  }

  lemma TagLengthLocal(p: string, c: char, x: string)
    requires p != "" && p[0] == '$' && !IsTagChar(c)
    requires TagLength(p + [c]).Some? ==> TagLength(p + [c]).value <= |p|
    ensures TagLength(p + [c] + x) == TagLength(p + [c]) == TagLength(p)
  {
    var s, t := p + [c], p + [c] + x;
    assert s[1..] == p[1..] + [c] && t[1..] == p[1..] + [c] + x;
    assert (p[1..] + [c])[|p| - 1] == c;
    RunLocal(p[1..], c, x, IsTagChar);
  }

  // ----- Cutting -------------------------------------------------------------------

  /** The tokenizer can be resumed at a clean boundary. */
  lemma {:induction false} LexOfCut(p: string, r: string)
    requires r != "" && !IsTagChar(r[0]) && Clean(p, r[0])
    ensures Lex(p + r) == Lex(p) + Lex(r)
    decreases |p|
  {
    if p == "" {
      assert p + r == r;
    } else {
      var l, left := CutOnce(p, r);
      LexOfCut(left, r);
      LexAs(p, l, left);
      LexAs(p + r, l, left + r);
      Joins(Emitted(l.token), Lex(left), Lex(r), Lex(left + r), Lex(p), Lex(p + r));
    }
  }

  lemma CutOnce(p: string, r: string) returns (l: Lexeme, left: string)
    requires p != "" && r != "" && !IsTagChar(r[0]) && Clean(p, r[0])
    ensures First(p) == l && First(p + r) == l && left == p[l.len..] && left + r == (p + r)[l.len..]
    ensures Clean(left, r[0])
  {
    var c, x := r[0], r[1..];
    assert p + r == p + [c] + x;
    FirstLocal(p, c, x);
    l := First(p);
    left := p[l.len..];
    assert (p + r)[l.len..] == left + r;
  }

  lemma LexAs(s: string, l: Lexeme, rest: string)
    requires s != "" && First(s) == l && rest == s[l.len..]
    ensures Lex(s) == Emitted(l.token) + Lex(rest)
  {
  }

  lemma Joins<T>(head: seq<T>, left: seq<T>, right: seq<T>, rest: seq<T>, whole: seq<T>, all: seq<T>)
    requires rest == left + right && whole == head + left && all == head + rest
    ensures all == whole + right
  {
  }

  // ----- Opaque pieces -----------------------------------------------------------------

  datatype Piece =
    | Quoted(body: string)
    | Dollar(name: string, body: string)
    | Line(body: string)
    | Block(body: string)

  function Opener(o: Piece): char {
    match o case Quoted(_) => '\'' case Dollar(_, _) => '$' case Line(_) => '-' case Block(_) => '/'
  }

  function Tag(name: string): string { ['$'] + name + ['$'] }

  function Text(o: Piece): string {
    match o
    case Quoted(body) => ['\''] + body + ['\'']
    case Dollar(name, body) => Tag(name) + body + Tag(name)
    case Line(body) => "--" + body + "\n"
    case Block(body) => "/*" + body + "*/"
  }

  /** What the piece leaves of itself: a string token, or nothing. */
  function Trace(o: Piece): seq<Token> {
    if o.Quoted? || o.Dollar? then [StringLit] else []
  }

  /** The closer of the piece is the first one in it. */
  predicate ClosedPiece(o: Piece) {
    match o
    case Quoted(body) => Paired(body, '\'')
    case Dollar(name, body) =>
      && (forall i | 0 <= i < |name| :: IsTagChar(name[i]))
      && CloseEnd(body + Tag(name), Tag(name)) == |body| + |name| + 2
    case Line(body) => SkipUntil(body + "\n", '\n') == |body| + 1
    case Block(body) => BlockEnd(body + "*/") == |body| + 2
  }

  lemma {:induction false} SkipUntilExtends(u: string, target: char, r: string)
    requires SkipUntil(u + [target], target) == |u| + 1
    ensures SkipUntil(u + [target] + r, target) == |u| + 1
  {
    if u != "" {
      assert (u + [target])[1..] == u[1..] + [target] && (u + [target] + r)[1..] == u[1..] + [target] + r;
      SkipUntilExtends(u[1..], target, r);
    }
  }

  lemma {:induction false} BlockEndExtends(u: string, r: string)
    requires BlockEnd(u + "*/") == |u| + 2
    ensures BlockEnd(u + "*/" + r) == |u| + 2
  {
    if u != "" {
      assert (u + "*/")[1..] == u[1..] + "*/" && (u + "*/" + r)[1..] == u[1..] + "*/" + r;
      assert (u + "*/" + r)[..2] == (u + "*/")[..2];
      BlockEndExtends(u[1..], r);
    }
  }

  lemma {:induction false} CloseEndExtends(u: string, tag: string, r: string)
    requires tag != "" && CloseEnd(u + tag, tag) == |u| + |tag|
    ensures CloseEnd(u + tag + r, tag) == |u| + |tag|
  {
    var s := u + tag;
    if u == "" {
      assert s == tag && tag <= tag + r;
    } else {
      PrefixOfLonger(tag, s, r);
      assert s[1..] == u[1..] + tag && (s + r)[1..] == u[1..] + tag + r;
      CloseEndExtends(u[1..], tag, r);
    }
  }

  lemma TagLengthOfTag(name: string, r: string)
    requires forall i | 0 <= i < |name| :: IsTagChar(name[i])
    ensures TagLength(Tag(name) + r) == Some(|name| + 2)
  {
    var s := Tag(name) + r;
    assert s[1..] == name + (['$'] + r);
    RunOfPrefix(name, ['$'] + r, IsTagChar);
  }

  predicate IsOneLexeme(o: Piece, r: string) {
    First(Text(o) + r).len == |Text(o)| && Emitted(First(Text(o) + r).token) == Trace(o)
  }

  lemma FirstOfDollar(name: string, body: string, r: string)
    requires ClosedPiece(Dollar(name, body))
    ensures IsOneLexeme(Dollar(name, body), r)
  {
    var tag, rest := Tag(name), body + Tag(name) + r;
    assert Text(Dollar(name, body)) + r == tag + rest;
    TagLengthOfTag(name, rest);
    CloseEndExtends(body, tag, r);
    FirstOfTag(tag, rest, |body| + |tag|);
  }

  lemma FirstOfTag(tag: string, rest: string, e: nat)
    requires tag != "" && tag[0] == '$' && TagLength(tag + rest) == Some(|tag|) && CloseEnd(rest, tag) == e
    ensures First(tag + rest) == Lexeme(|tag| + e, Some(StringLit))
  {
    assert (tag + rest)[..|tag|] == tag && (tag + rest)[|tag|..] == rest;
    FirstIsDollar(tag + rest, |tag|);
  }

  lemma FirstOfLine(body: string, r: string)
    requires ClosedPiece(Line(body))
    ensures IsOneLexeme(Line(body), r)
  {
    assert (Text(Line(body)) + r)[2..] == body + "\n" + r;
    SkipUntilExtends(body, '\n', r);
  }

  lemma FirstOfBlock(body: string, r: string)
    requires ClosedPiece(Block(body))
    ensures IsOneLexeme(Block(body), r)
  {
    assert (Text(Block(body)) + r)[2..] == body + "*/" + r;
    BlockEndExtends(body, r);
  }

  /** A closed piece is one lexeme, whatever follows it; a quoted literal must not be continued by `''`. */
  lemma FirstOfPiece(o: Piece, r: string)
    requires ClosedPiece(o) && (o.Quoted? ==> r == "" || r[0] != '\'')
    ensures IsOneLexeme(o, r)
  {
    match o
    case Quoted(body) => FirstOfString(body, r);
    case Dollar(name, body) => FirstOfDollar(name, body, r);
    case Line(body) => FirstOfLine(body, r);
    case Block(body) => FirstOfBlock(body, r);
  }

  lemma PieceThenMore(o: Piece, t: string, more: string)
    requires ClosedPiece(o) && !o.Quoted? && t == Text(o) + more
    ensures Lex(t) == Trace(o) + Lex(more)
  {
    FirstOfPiece(o, more);
    assert t[|Text(o)|..] == more;
    LexAs(t, First(t), more);
  }

  /**
   The surrounding tokens are those of the surrounding text: of a closed
   literal only a string token remains, of a closed comment nothing.
   */
  lemma ContentsAreOpaque(p: string, o: Piece, r: string)
    requires ClosedPiece(o) && (o.Quoted? ==> r == "" || r[0] != '\'')
    requires Clean(p, Opener(o))
    ensures Lex(p + Text(o) + r) == Lex(p) + Trace(o) + Lex(r)
  {
    var s := Text(o) + r;
    FirstOfPiece(o, r);
    assert s[|Text(o)|..] == r;
    LexAs(s, First(s), r);
    assert p + Text(o) + r == p + s;
    LexOfCut(p, s);
    Nested(Lex(p), Trace(o), Lex(r), Lex(s), Lex(p + s));
  }

  lemma Nested<T>(a: seq<T>, b: seq<T>, c: seq<T>, bc: seq<T>, all: seq<T>)
    requires bc == b + c && all == a + bc
    ensures all == a + b + c
  {
  }

  /** An unclosed dollar literal is not skipped to the end: its last |tag| - 1 bytes are lexed. */
  lemma {:induction false} UnclosedDollarTail(s: string, tag: string)
    requires tag != "" && !HasCloser(s, tag)
    ensures CloseEnd(s, tag) == if |s| < |tag| then 0 else |s| - (|tag| - 1)
  {
    if |s| >= |tag| {
      UnclosedDollarTail(s[1..], tag);
    }
  }

  /** So a boundary that is not clean does not cut: a letter before it becomes a token or not. */
  lemma UnclosedDollarDoesNotCut()
    ensures First("$$ab" + [' ']).len == |"$$ab"| && !Clean("$$ab", ' ')
    ensures Lex("$$ab" + [' ']) == [StringLit]
    ensures Lex("$$ab") == [StringLit, Word("b")]
  {
    NoCloserInLetters("ab ");
    UnclosedLexeme("ab ", 2);
    assert "$$" + "ab " == "$$ab" + [' '];
    LexAs("$$ab" + [' '], Lexeme(4, Some(StringLit)), " ");
    LexAs(" ", Lexeme(1, None), "");
    UnclosedAlone();
  }

  lemma UnclosedAlone()
    ensures Lex("$$ab") == [StringLit, Word("b")]
  {
    NoCloserInLetters("ab");
    UnclosedLexeme("ab", 1);
    assert "$$" + "ab" == "$$ab" && "b" + "" == "b";
    FirstOfWord("b", "");
    LexAs("b", Lexeme(1, Some(Word("b"))), "");
    LexAs("$$ab", Lexeme(3, Some(StringLit)), "b");
  }

  lemma {:induction false} NoCloserInLetters(s: string)
    requires forall i | 0 <= i < |s| :: s[i] != '$'
    ensures !HasCloser(s, "$$")
  {
    if s != "" {
      assert s[0] != "$$"[0];
      NoCloserInLetters(s[1..]);
    }
  }

  lemma UnclosedLexeme(s: string, n: nat)
    requires !HasCloser(s, "$$") && |s| == n + 1
    ensures First("$$" + s) == Lexeme(2 + n, Some(StringLit)) && !Closes("$$" + s)
  {
    UnclosedDollarTail(s, "$$");
    assert ("$$" + s)[1..] == "$" + s;
    assert ("$$" + s)[..2] == "$$" && ("$$" + s)[2..] == s;
    FirstOfTag("$$", s, n);
  }
}
