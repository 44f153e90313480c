/**
 Letter case in the text of a statement. The rules ignore the case of tokens; the
 tokens ignore the case of the text, except that a dollar tag is closed by itself
 alone. Lower-casing a text can so move the end of a literal, and with it the
 verdict; this module says for which texts it does not.
 */
module SqlCase {
  import opened Common
  import opened SqlLexer
  import opened SqlLexerCuts
  import opened SqlGuard

  predicate Lowered(s: string, t: string) {
    |t| == |s| && forall i | 0 <= i < |s| :: t[i] == LowerChar(s[i])
  }

  lemma LowerIsLowered(s: string)
    ensures Lowered(s, Lower(s))
  {
    forall i | 0 <= i < |s| ensures Lower(s)[i] == LowerChar(s[i]) { LowerAt(s, i); }
  }

  lemma LoweredIsLower(s: string, t: string)
    requires Lowered(s, t)
    ensures t == Lower(s)
  {
    LowerIsLowered(s);
  }

  lemma LoweredSlice(s: string, t: string, a: nat, b: nat)
    requires Lowered(s, t) && a <= b <= |s|
    ensures Lowered(s[a..b], t[a..b]) && Lowered(s[a..], t[a..])
  {
  }

  lemma LowerTail(s: string, n: nat)
    requires n <= |s|
    ensures Lower(s)[n..] == Lower(s[n..])
  {
    LowerIsLowered(s);
    LoweredSlice(s, Lower(s), n, |s|);
    LoweredIsLower(s[n..], Lower(s)[n..]);
  }

  // ----- The scans do not mind ------------------------------------------------------

  lemma {:induction false} SkipUntilOfLowered(s: string, t: string, target: char)
    requires Lowered(s, t) && !IsAlpha(target)
    ensures SkipUntil(t, target) == SkipUntil(s, target)
  {
    if s != "" { SkipUntilOfLowered(s[1..], t[1..], target); }
  }

  lemma {:induction false} BlockEndOfLowered(s: string, t: string)
    requires Lowered(s, t)
    ensures BlockEnd(t) == BlockEnd(s)
  {
    if |s| >= 2 { BlockEndOfLowered(s[1..], t[1..]); }
  }

  lemma {:induction false} QuoteEndOfLowered(s: string, t: string, q: char)
    requires Lowered(s, t) && !IsAlpha(q)
    ensures QuoteEnd(t, q) == QuoteEnd(s, q)
    decreases |s|
  {
    if s != "" {
      QuoteEndOfLowered(s[1..], t[1..], q);
      if |s| > 1 { QuoteEndOfLowered(s[2..], t[2..], q); }
    }
  }

  predicate Caseless(keep: char -> bool) {
    forall c: char :: keep(c) <==> keep(LowerChar(c))
  }

  lemma {:induction false} RunOfLowered(s: string, t: string, keep: char -> bool)
    requires Lowered(s, t) && Caseless(keep)
    ensures Run(t, keep) == Run(s, keep)
  {
    if s != "" { RunOfLowered(s[1..], t[1..], keep); }
  }

  lemma TagLengthOfLowered(s: string, t: string)
    requires Lowered(s, t) && s != "" && s[0] == '$'
    ensures t[0] == '$' && TagLength(t) == TagLength(s)
  {
    LoweredSlice(s, t, 1, |s|);
    RunOfLowered(s[1..], t[1..], IsTagChar);
  }

  // ----- But for the tag of a dollar-quoted literal -----------------------------------

  /** The text starts with the tag, in whatever case. */
  predicate StartsLike(s: string, tag: string) {
    |tag| <= |s| && forall i | 0 <= i < |tag| :: LowerChar(s[i]) == LowerChar(tag[i])
  }

  /** The first tag in whatever case, if there is one, ends at `e`. */
  predicate FirstTagEndsAt(s: string, tag: string, e: int) {
    |s| < |tag| || (if StartsLike(s, tag) then e == |tag| else s == "" || FirstTagEndsAt(s[1..], tag, e - 1))
  }

  /** A dollar-quoted literal at the start ends at the first tag in whatever case, if there is one. */
  predicate ClosesAlike(s: string)
    requires s != ""
  {
    s[0] == '$' && TagLength(s).Some? ==>
      var n := TagLength(s).value;
      FirstTagEndsAt(s[n..], s[..n], CloseEnd(s[n..], s[..n]))
  }

  /** Every dollar-quoted literal met on the way does. */
  predicate CaseSafe(s: string)
    decreases |s|
  {
    s == "" || (ClosesAlike(s) && CaseSafe(s[First(s).len..]))
  }

  lemma StartsLikeLowered(s: string, t: string, tag: string, low: string)
    requires Lowered(s, t) && Lowered(tag, low) && |tag| <= |s|
    ensures low <= t <==> StartsLike(s, tag)
  {
    if StartsLike(s, tag) {
      assert forall i | 0 <= i < |low| :: t[i] == low[i];
    }
  }

  lemma CloseEndUnfold(s: string, tag: string)
    requires 0 < |tag| <= |s|
    ensures CloseEnd(s, tag) == if tag <= s then |tag| else 1 + CloseEnd(s[1..], tag)
  {
  }

  lemma FirstTagUnfold(s: string, tag: string, e: int)
    requires 0 < |tag| <= |s|
    ensures FirstTagEndsAt(s, tag, e) <==> (if StartsLike(s, tag) then e == |tag| else FirstTagEndsAt(s[1..], tag, e - 1))
  {
  }

  /** One character of the two scans. */
  lemma ScansInStep(s: string, t: string, tag: string, low: string)
    requires t == Lower(s) && low == Lower(tag) && 0 < |tag| <= |s|
    ensures |t| == |s| && |low| == |tag| && t[1..] == Lower(s[1..])
    ensures low <= t <==> StartsLike(s, tag)
    ensures tag <= s ==> StartsLike(s, tag)
  {
    LowerIsLowered(s);
    LowerIsLowered(tag);
    LowerTail(s, 1);
    StartsLikeLowered(s, t, tag, low);
  }

  /** With the case ignored the literal ends where it did iff that is where the first tag in whatever case ends. */
  lemma {:induction false} CloseEndOfLoweredIff(s: string, t: string, tag: string, low: string, e: nat)
    requires t == Lower(s) && low == Lower(tag) && tag != "" && e == CloseEnd(s, tag)
    ensures CloseEnd(t, low) == e <==> FirstTagEndsAt(s, tag, e)
  {
    if |s| >= |tag| {
      ScansInStep(s, t, tag, low);
      CloseEndUnfold(s, tag);
      CloseEndUnfold(t, low);
      FirstTagUnfold(s, tag, e);
      if !(tag <= s) && !StartsLike(s, tag) {
        CloseEndOfLoweredIff(s[1..], t[1..], tag, low, e - 1);
      }
    }
  }

  predicate NoneBefore(s: string, tag: string, k: int)
    requires k <= |s|
  {
    forall i | 0 <= i < k :: !StartsLike(s[i..], tag)
  }

  lemma NoneBeforeStep(s: string, tag: string, k: int)
    requires 0 < k <= |s|
    ensures NoneBefore(s, tag, k) <==> !StartsLike(s, tag) && NoneBefore(s[1..], tag, k - 1)
  {
    assert s[0..] == s;
    assert forall i | 0 <= i < k - 1 :: s[1..][i..] == s[i + 1..];
    if !StartsLike(s, tag) && NoneBefore(s[1..], tag, k - 1) {
      forall i | 0 <= i < k ensures !StartsLike(s[i..], tag) {
        if i > 0 { assert s[1..][i - 1..] == s[i..]; }
      }
    }
  }

  lemma OneFurther(s: string, tag: string, e: nat)
    requires 0 < |tag| <= |s| && !(tag <= s) && e == CloseEnd(s, tag)
    ensures e >= 1 && e - 1 == CloseEnd(s[1..], tag)
    ensures FirstTagEndsAt(s, tag, e) <==> (if StartsLike(s, tag) then e == |tag| else FirstTagEndsAt(s[1..], tag, e - 1))
  {
    CloseEndUnfold(s, tag);
    FirstTagUnfold(s, tag, e);
  }

  lemma ClosedLater(s: string, tag: string, e: nat)
    requires 0 < |tag| <= e <= |s| && s[e - |tag|..e] == tag && !(tag <= s)
    ensures e - 1 >= |tag| && s[1..][e - 1 - |tag|..e - 1] == tag
  {
    assert s[..|tag|] != tag;
    assert s[1..][e - 1 - |tag|..e - 1] == s[e - |tag|..e];
  }

  lemma ClosedAtOnce(s: string, tag: string, e: nat)
    requires 0 < |tag| && e == CloseEnd(s, tag) && tag <= s
    ensures e == |tag| && FirstTagEndsAt(s, tag, e) && NoneBefore(s, tag, e - |tag|)
  {
    assert StartsLike(s, tag);
  }

  /** In a closed literal: iff no tag in whatever case stands before the closing one. */
  lemma {:induction false} ClosedLiteralIff(s: string, tag: string, e: nat)
    requires 0 < |tag| <= e && e == CloseEnd(s, tag) && s[e - |tag|..e] == tag
    ensures FirstTagEndsAt(s, tag, e) <==> NoneBefore(s, tag, e - |tag|)
  {
    if tag <= s {
      ClosedAtOnce(s, tag, e);
    } else {
      ClosedLater(s, tag, e);
      OneFurther(s, tag, e);
      ClosedLiteralIff(s[1..], tag, e - 1);
      NoneBeforeStep(s, tag, e - |tag|);
    }
  }

  function LowerLexeme(l: Lexeme): Lexeme {
    Lexeme(l.len, match l.token case None => None case Some(t) => Some(LowerToken(t)))
  }

  lemma FirstIsPlain(s: string, t: string)
    requires Lowered(s, t) && s != "" && s[0] !in "'\"$" && !IsWordStart(s[0])
    ensures First(t) == LowerLexeme(First(s))
  {
    if |s| > 1 && s[0] == '-' && s[1] == '-' {
      SkipUntilOfLowered(s[2..], t[2..], '\n');
    } else if |s| > 1 && s[0] == '/' && s[1] == '*' {
      BlockEndOfLowered(s[2..], t[2..]);
    }
  }

  lemma FirstIsQuoted(s: string, t: string)
    requires Lowered(s, t) && s != "" && (s[0] == '\'' || s[0] == '"')
    ensures First(t) == LowerLexeme(First(s))
  {
    QuoteEndOfLowered(s[1..], t[1..], s[0]);
    var e := 1 + QuoteEnd(s[1..], s[0]);
    LoweredSlice(s, t, 1, e);
    LoweredIsLower(s[1..e], t[1..e]);
  }

  lemma FirstIsWord(s: string, t: string)
    requires Lowered(s, t) && s != "" && IsWordStart(s[0])
    ensures First(t) == LowerLexeme(First(s))
  {
    RunOfLowered(s[1..], t[1..], IsWordCont);
    var n := 1 + Run(s[1..], IsWordCont);
    LoweredSlice(s, t, 0, n);
    LoweredIsLower(s[..n], t[..n]);
  }

  lemma FirstIsLiteral(s: string, t: string)
    requires Lowered(s, t) && s != "" && s[0] == '$'
    ensures First(t).token == LowerLexeme(First(s)).token
    ensures First(t).len == First(s).len <==> ClosesAlike(s)
  {
    TagLengthOfLowered(s, t);
    if TagLength(s).Some? {
      var n := TagLength(s).value;
      LoweredSlice(s, t, 0, n);
      LoweredSlice(s, t, n, |s|);
      LoweredIsLower(s[n..], t[n..]);
      LoweredIsLower(s[..n], t[..n]);
      CloseEndOfLoweredIff(s[n..], t[n..], s[..n], t[..n], CloseEnd(s[n..], s[..n]));
    }
  }

  /** The first lexeme is the same in lower case, and ends at the same place iff its tag closes alike. */
  lemma FirstOfLower(s: string)
    requires s != ""
    ensures First(Lower(s)) == LowerLexeme(First(s)) <==> ClosesAlike(s)
  {
    var t := Lower(s);
    LowerIsLowered(s);
    if s[0] == '$' {
      FirstIsLiteral(s, t);
    } else if s[0] == '\'' || s[0] == '"' {
      FirstIsQuoted(s, t);
    } else if IsWordStart(s[0]) {
      FirstIsWord(s, t);
    } else {
      FirstIsPlain(s, t);
    }
  }

  // ----- All lexemes --------------------------------------------------------------------

  function Lexemes(s: string): seq<Lexeme>
    decreases |s|
  {
    if s == "" then [] else [First(s)] + Lexemes(s[First(s).len..])
  }

  function LowerLexemes(ls: seq<Lexeme>): seq<Lexeme> {
    if ls == [] then [] else [LowerLexeme(ls[0])] + LowerLexemes(ls[1..])
  }

  function Emits(l: Lexeme): seq<Token> { Emitted(l.token) }

  /** The tokens of a text are those its lexemes emit. */
  lemma {:induction false} LexIsLexemes(s: string)
    ensures Lex(s) == FlatMap(Emits, Lexemes(s))
    decreases |s|
  {
    if s != "" {
      var rest := s[First(s).len..];
      LexIsLexemes(rest);
      assert Lexemes(s)[1..] == Lexemes(rest);
    }
  }

  lemma {:induction false} TokensOfLower(ls: seq<Lexeme>)
    ensures FlatMap(Emits, LowerLexemes(ls)) == LowerAll(FlatMap(Emits, ls))
  {
    if ls != [] {
      TokensOfLower(ls[1..]);
      assert LowerLexemes(ls)[1..] == LowerLexemes(ls[1..]);
    }
  }

  /** Lower-casing a text lower-cases its lexemes and moves none, if and only if it is case-safe. */
  lemma {:induction false} LexemesOfLowerIff(s: string)
    ensures Lexemes(Lower(s)) == LowerLexemes(Lexemes(s)) <==> CaseSafe(s)
    decreases |s|
  {
    if s != "" {
      var t, n := Lower(s), First(s).len;
      FirstOfLower(s);
      LowerTail(s, n);
      LexemesOfLowerIff(s[n..]);
      HeadAndTail(First(t), Lexemes(t[First(t).len..]), LowerLexeme(First(s)), LowerLexemes(Lexemes(s[n..])));
      assert Lexemes(s)[1..] == Lexemes(s[n..]);
    }
  }

  lemma HeadAndTail<T>(a: T, r: seq<T>, b: T, q: seq<T>)
    ensures [a] + r == [b] + q <==> a == b && r == q
  {
    if [a] + r == [b] + q {
      assert ([a] + r)[0] == ([b] + q)[0] && ([a] + r)[1..] == ([b] + q)[1..];
    }
  }

  /** The case of a case-safe text never changes its tokens but for theirs, nor the verdict. */
  lemma VerdictIgnoresCaseOfText(policy: Policy, s: string, mode: Mode)
    requires CaseSafe(s)
    ensures Lex(Lower(s)) == LowerAll(Lex(s))
    ensures Passes(policy, Lex(Lower(s)), mode) <==> Passes(policy, Lex(s), mode)
  {
    LexemesOfLowerIff(s);
    LexIsLexemes(s);
    LexIsLexemes(Lower(s));
    TokensOfLower(Lexemes(s));
    VerdictIgnoresCase(policy, Lex(s), mode);
  }

  lemma {:induction false} WithoutDollars(s: string)
    requires '$' !in s
    ensures CaseSafe(s)
    decreases |s|
  {
    if s != "" {
      WithoutDollars(s[First(s).len..]);
    }
  }

  /** A text on which case does change the verdict: in lower case the literal closes at its second tag. */
  lemma CaseMovesALiteral() returns (s: string)
    ensures s == "$A$$a$;;$A$" && !CaseSafe(s)
    ensures OneStatement(Lex(s)) && !OneStatement(Lex(Lower(s)))
  {
    s := "$A$" + "$a$;;$A$";
    var more := ";;" + "$a$";
    InLowerCase(s, more);
    UpperClosesLate(s, "$A$", "$a$;;$A$");
    LowerClosesEarly(Lower(s), "$a$", more);
  }

  lemma InLowerCase(s: string, more: string)
    requires s == "$A$$a$;;$A$" && more == ";;$a$"
    ensures Lower(s) == "$a$$a$" + more
  {
    LoweredIsLower(s, "$a$$a$" + more);
  }

  lemma UpperClosesLate(s: string, tag: string, rest: string)
    requires s == tag + rest && tag == "$A$" && rest == "$a$;;$A$"
    ensures !CaseSafe(s) && OneStatement(Lex(s))
  {
    LastTagCloses(rest, tag);
    TagLengthOfTag("A", rest);
    assert Tag("A") == tag;
    FirstOfTag(tag, rest, 8);
    LexAs(s, Lexeme(11, Some(StringLit)), "");
    AnotherTagFirst(s, tag, rest, 8);
  }

  lemma AnotherTagFirst(s: string, tag: string, rest: string, e: nat)
    requires tag != "" && tag[0] == '$' && s == tag + rest && TagLength(s) == Some(|tag|) && CloseEnd(rest, tag) == e
    requires StartsLike(rest, tag) && e > |tag|
    ensures !CaseSafe(s)
  {
    assert s[..|tag|] == tag && s[|tag|..] == rest;
  }

  lemma LastTagCloses(s: string, tag: string)
    requires s == "$a$;;$A$" && tag == "$A$"
    ensures CloseEnd(s, tag) == 8
  {
    CloseLater(s, tag, 1);
    CloseLater(s[1..], tag, 0);
    CloseLater(s[2..], tag, 1);
    CloseLater(s[3..], tag, 0);
    CloseLater(s[4..], tag, 0);
    assert s[5..] == tag;
  }

  lemma CloseLater(s: string, tag: string, i: nat)
    requires i < |tag| <= |s| && s[i] != tag[i]
    ensures s != "" && CloseEnd(s, tag) == 1 + CloseEnd(s[1..], tag)
    ensures forall k: nat | k + 1 <= |s| :: s[1..][k..] == s[k + 1..]
  {
  }

  lemma LowerClosesEarly(t: string, tag: string, more: string)
    requires tag == "$a$" && more == ";;" + tag && t == "$a$$a$" + more
    ensures !OneStatement(Lex(t))
  {
    EmptyLiteral(t, more);
    TwoSemicolons(more, tag);
    OpenTag(tag);
    SemicolonThenLiteral(Lex(t), Lex(more));
  }

  lemma EmptyLiteral(t: string, more: string)
    requires t == "$a$$a$" + more
    ensures Lex(t) == [StringLit] + Lex(more)
  {
    EmptyBodyCloses("a", Tag("a"));
    assert Text(Dollar("a", "")) == "$a$$a$";
    PieceThenMore(Dollar("a", ""), t, more);
  }

  lemma EmptyBodyCloses(name: string, tag: string)
    requires tag == Tag(name) && forall i | 0 <= i < |name| :: IsTagChar(name[i])
    ensures ClosedPiece(Dollar(name, ""))
  {
    assert "" + tag == tag;
  }

  lemma TwoSemicolons(more: string, rest: string)
    requires more == ";;" + rest
    ensures Lex(more) == [Semicolon] + ([Semicolon] + Lex(rest))
  {
    assert more[1..] == ";" + rest && (";" + rest)[1..] == rest;
    LexAs(more, Lexeme(1, Some(Semicolon)), ";" + rest);
    LexAs(";" + rest, Lexeme(1, Some(Semicolon)), rest);
  }

  lemma OpenTag(tag: string)
    requires tag == "$a$"
    ensures Lex(tag) == [StringLit]
  {
    assert Tag("a") + "" == tag && tag + "" == tag;
    TagLengthOfTag("a", "");
    FirstOfTag(tag, "", 0);
    LexAs(tag, Lexeme(3, Some(StringLit)), "");
  }

  lemma SemicolonThenLiteral(ts: seq<Token>, tail: seq<Token>)
    requires ts == [StringLit] + tail && tail == [Semicolon] + ([Semicolon] + [StringLit])
    ensures !OneStatement(ts)
  {
    assert ts[1].Semicolon? && ts[3].StringLit?;
  }
}
