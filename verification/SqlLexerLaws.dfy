/**
 What the tokenizer guarantees: printing and lexing are inverse on tokens, the
 input may be cut at a clean token boundary, and the contents of a closed
 literal or comment never reach the surrounding tokens.
 */
module SqlLexerLaws {
  import opened Common
  import opened SqlLexer

  // ----- Printing -------------------------------------------------------------

  function Print(t: Token): string {
    match t
    case Word(w) => w
    case StringLit => "''"
    case QuotedIdent(w) => "\"" + w + "\""
    case LParen => "("
    case RParen => ")"
    case Comma => ","
    case Semicolon => ";"
    case Punct(c) => [c]
  }

  /** Separated by single blanks. */
  function PrintAll(ts: seq<Token>): string {
    if ts == [] then "" else if |ts| == 1 then Print(ts[0]) else Print(ts[0]) + " " + PrintAll(ts[1..])
  }

  /** Every `q` in `body` is doubled. */
  predicate Paired(body: string, q: char) {
    QuoteEnd(body, q) == |body|
  }

  predicate WellFormed(t: Token) {
    match t
    case Word(w) => w != "" && IsWordStart(w[0]) && forall i | 0 <= i < |w| :: IsWordCont(w[i])
    case QuotedIdent(w) => Paired(w, '"')
    case Punct(c) => !IsSpace(c) && !IsWordStart(c) && c !in "'\"(),;"
    case _ => true
  }

  predicate AllWellFormed(ts: seq<Token>) {
    forall i | 0 <= i < |ts| :: WellFormed(ts[i])
  }

  // ----- Facts about the scans ----------------------------------------------------

  lemma {:induction false} RunOfPrefix(s: string, r: string, keep: char -> bool)
    requires forall i | 0 <= i < |s| :: keep(s[i])
    requires r == "" || !keep(r[0])
    ensures Run(s + r, keep) == |s|
  {
    if s == "" {
      assert s + r == r;
    } else {
      assert (s + r)[1..] == s[1..] + r;
      RunOfPrefix(s[1..], r, keep);
    }
  }

  /** A doubled body ends at the first quote that follows it. */
  lemma {:induction false} PairedBodyEnds(body: string, q: char, r: string)
    requires Paired(body, q) && (r == "" || r[0] != q)
    ensures QuoteEnd(body + [q] + r, q) == |body|
    decreases |body|
  {
    var s := body + [q] + r;
    if body == "" {
      assert s == [q] + r;
    } else if body[0] != q {
      assert s[1..] == body[1..] + [q] + r;
      PairedBodyEnds(body[1..], q, r);
    } else {
      assert s[2..] == body[2..] + [q] + r;
      PairedBodyEnds(body[2..], q, r);
    }
  }

  lemma {:induction false} ScannedIsPaired(s: string, q: char)
    ensures Paired(s[..QuoteEnd(s, q)], q)
    decreases |s|
  {
    var e := QuoteEnd(s, q);
    if s != "" && s[0] != q {
      ScannedIsPaired(s[1..], q);
      assert s[..e][1..] == s[1..][..e - 1];
    } else if |s| > 1 && s[1] == q {
      ScannedIsPaired(s[2..], q);
      assert s[..e][2..] == s[2..][..e - 2];
    }
  }

  /** Every `q` written twice. */
  function Doubled(s: string, q: char): string {
    if s == "" then "" else (if s[0] == q then [q, q] else [s[0]]) + Doubled(s[1..], q)
  }

  /** The scan stops at the first quote that does not belong to a doubled one: what it passes is some text, doubled. */
  lemma {:induction false} QuoteEndIs(s: string, q: char) returns (body: string)
    ensures s[..QuoteEnd(s, q)] == Doubled(body, q)
    ensures var n := QuoteEnd(s, q); n == |s| || (s[n] == q && (n + 1 == |s| || s[n + 1] != q))
    decreases |s|
  {
    var n := QuoteEnd(s, q);
    if n == 0 {
      body := "";
    } else if s[0] != q {
      var rest := QuoteEndIs(s[1..], q);
      body := [s[0]] + rest;
      assert body[1..] == rest && s[..n] == [s[0]] + s[1..][..n - 1];
    } else {
      var rest := QuoteEndIs(s[2..], q);
      body := [q] + rest;
      assert body[1..] == rest && s[..n] == [q, q] + s[2..][..n - 2];
    }
  }

  /** An opener is a `$`, letters, digits and underscores, and the next `$`. */
  lemma TagLengthIs(s: string)
    requires s != "" && s[0] == '$'
    ensures match TagLength(s)
            case Some(n) => 2 <= n <= |s| && s[n - 1] == '$' && forall k | 1 <= k < n - 1 :: IsTagChar(s[k])
            case None => forall e | 1 <= e < |s| && s[e] == '$' :: exists k :: 1 <= k < e && !IsTagChar(s[k])
  {
    var k := Run(s[1..], IsTagChar);
    if TagLength(s).None? && 1 + k < |s| {
      assert !IsTagChar(s[1..][k]) && s[1..][k] == s[1 + k];
      forall e | 1 <= e < |s| && s[e] == '$' ensures exists k :: 1 <= k < e && !IsTagChar(s[k]) {
        assert e > 1 + k;
      }
    }
  }

  predicate At(s: string, tag: string, k: nat) { k + |tag| <= |s| && s[k..k + |tag|] == tag }

  lemma AtShift(s: string, tag: string, k: nat)
    requires k > 0 && s != ""
    ensures At(s, tag, k) <==> At(s[1..], tag, k - 1)
  {
    if k + |tag| <= |s| { assert s[k..k + |tag|] == s[1..][k - 1..k - 1 + |tag|]; }
  }

  lemma CloseEndStep(s: string, tag: string)
    requires |s| >= |tag| > 0
    ensures CloseEnd(s, tag) == if At(s, tag, 0) then |tag| else 1 + CloseEnd(s[1..], tag)
  {
    assert At(s, tag, 0) <==> tag <= s;
  }

  /** No tag before `k`. */
  ghost predicate NoTagBefore(s: string, tag: string, k: int) { forall i: nat | i < k :: !At(s, tag, i) }

  lemma NoTagBeforeStep(s: string, tag: string, k: int)
    requires s != "" && k > 0
    ensures NoTagBefore(s, tag, k) <==> !At(s, tag, 0) && NoTagBefore(s[1..], tag, k - 1)
  {
    forall i: nat | 0 < i < k ensures At(s, tag, i) <==> At(s[1..], tag, i - 1) { AtShift(s, tag, i); }
    if !At(s, tag, 0) && NoTagBefore(s[1..], tag, k - 1) {
      forall i: nat | i < k ensures !At(s, tag, i) { assert i > 0 ==> !At(s[1..], tag, i - 1); }
    }
    if NoTagBefore(s, tag, k) {
      forall i: nat | i < k - 1 ensures !At(s[1..], tag, i) { assert !At(s, tag, i + 1); }
    }
  }

  /** A dollar-quoted body ends just past the first recurrence of the tag; without one, where it no longer fits. */
  lemma {:induction false} CloseEndIs(s: string, tag: string, e: nat)
    requires tag != "" && e == CloseEnd(s, tag)
    ensures if e >= |tag| && At(s, tag, e - |tag|) then NoTagBefore(s, tag, e - |tag|)
            else e == Max(0, |s| - |tag| + 1) && NoTagBefore(s, tag, |s|)
  {
    if |s| >= |tag| {
      CloseEndStep(s, tag);
      if !At(s, tag, 0) {
        CloseEndIs(s[1..], tag, e - 1);
        NoTagBeforeStep(s, tag, |s|);
        if e > |tag| {
          AtShift(s, tag, e - |tag|);
          NoTagBeforeStep(s, tag, e - |tag|);
        }
      }
    }
  }

  // ----- Lexing what was printed ----------------------------------------------------

  lemma FirstOfWord(w: string, r: string)
    requires WellFormed(Word(w)) && (r == "" || r[0] == ' ')
    ensures First(w + r) == Lexeme(|w|, Some(Word(w)))
  {
    var s := w + r;
    assert s[1..] == w[1..] + r;
    RunOfPrefix(w[1..], r, IsWordCont);
    assert s[..|w|] == w;
  }

  lemma FirstOfQuoted(w: string, r: string)
    requires Paired(w, '"') && (r == "" || r[0] != '"')
    ensures First(['"'] + w + ['"'] + r) == Lexeme(|w| + 2, Some(QuotedIdent(w)))
  {
    var s := ['"'] + w + ['"'] + r;
    assert s[1..] == w + ['"'] + r;
    PairedBodyEnds(w, '"', r);
    assert s[1..1 + |w|] == w;
  }

  lemma FirstOfString(body: string, r: string)
    requires Paired(body, '\'') && (r == "" || r[0] != '\'')
    ensures First(['\''] + body + ['\''] + r) == Lexeme(|body| + 2, Some(StringLit))
  {
    var s := ['\''] + body + ['\''] + r;
    assert s[1..] == body + ['\''] + r;
    PairedBodyEnds(body, '\'', r);
  }

  lemma FirstOfPunct(c: char, r: string)
    requires !IsSpace(c) && !IsWordStart(c) && c != '\'' && c != '"' && (r == "" || r[0] == ' ')
    ensures First([c] + r) == Lexeme(1, Some(Punctuation(c)))
  {
    assert ([c] + r)[1..] == r;
  }

  /** A printed token is lexed back when a blank or the end of the input follows. */
  lemma FirstOfPrinted(t: Token, r: string)
    requires WellFormed(t) && (r == "" || r[0] == ' ')
    ensures Print(t) + r != "" && First(Print(t) + r) == Lexeme(|Print(t)|, Some(t))
  {
    match t
    case Word(w) => FirstOfWord(w, r);
    case StringLit =>
      assert Print(t) + r == ['\''] + "" + ['\''] + r;
      FirstOfString("", r);
    case QuotedIdent(w) =>
      assert Print(t) + r == ['"'] + w + ['"'] + r;
      FirstOfQuoted(w, r);
    case Punct(c) => FirstOfPunct(c, r);
    case LParen => FirstOfPunct('(', r);
    case RParen => FirstOfPunct(')', r);
    case Comma => FirstOfPunct(',', r);
    case Semicolon => FirstOfPunct(';', r);
  }

  lemma LexOfFirst(s: string, t: string, r: string)
    requires s != "" && s == t + r && First(s).len == |t|
    ensures Lex(s) == Emitted(First(s).token) + Lex(r)
  {
    assert s[|t|..] == r;
  }

  lemma LexOfBlank(r: string)
    ensures Lex(" " + r) == Lex(r)
  {
    LexOfFirst(" " + r, " ", r);
  }

  /** Lexing undoes printing. */
  lemma {:induction false} LexOfPrint(ts: seq<Token>)
    requires AllWellFormed(ts)
    ensures Lex(PrintAll(ts)) == ts
    decreases |ts|
  {
    if ts != [] {
      var t := ts[0];
      if |ts| == 1 {
        FirstOfPrinted(t, "");
        assert Print(t) + "" == Print(t);
        LexOfFirst(Print(t), Print(t), "");
        assert Lex(Print(t)) == [t] + Lex("");
      } else {
        var rest := " " + PrintAll(ts[1..]);
        FirstOfPrinted(t, rest);
        assert PrintAll(ts) == Print(t) + rest;
        LexOfFirst(PrintAll(ts), Print(t), rest);
        LexOfBlank(PrintAll(ts[1..]));
        LexOfPrint(ts[1..]);
      }
    }
  }

  lemma FirstIsWellFormed(s: string)
    requires s != "" && First(s).token.Some?
    ensures WellFormed(First(s).token.value)
  {
    if s[0] == '"' {
      ScannedIsPaired(s[1..], '"');
      assert s[1..][..QuoteEnd(s[1..], '"')] == s[1..1 + QuoteEnd(s[1..], '"')];
    }
  }

  /** Whatever the input, unterminated literals included, the tokens are well-formed. */
  lemma {:induction false} LexedIsWellFormed(s: string)
    ensures AllWellFormed(Lex(s))
    decreases |s|
  {
    if s != "" {
      var l := First(s);
      LexedIsWellFormed(s[l.len..]);
      if l.token.Some? {
        FirstIsWellFormed(s);
      }
    }
  }

  /** Lex, print, lex again: a normal form. */
  lemma LexPrintLex(s: string)
    ensures Lex(PrintAll(Lex(s))) == Lex(s)
  {
    LexedIsWellFormed(s);
    LexOfPrint(Lex(s));
  }
}
