/**
 The guard's SQL tokenizer, over bytes: a string here is a sequence of bytes,
 each written as the character of that code. The index loops are methods; what
 they compute is given by functions on the rest of the input.
 */
module SqlLexer {
  import opened Common

  datatype Token =
    | Word(text: string)
    | StringLit
    | QuotedIdent(text: string)
    | LParen | RParen | Comma | Semicolon
    | Punct(c: char)

  // ----- Byte classes -------------------------------------------------------

  predicate IsSpace(c: char) { c == ' ' || c == '\t' || c == '\n' || c == '\r' || c == 12 as char }

  predicate IsAlpha(c: char) { 'a' <= c <= 'z' || 'A' <= c <= 'Z' }

  predicate IsTagChar(c: char) { IsAlpha(c) || '0' <= c <= '9' || c == '_' }

  predicate IsWordStart(c: char) { IsAlpha(c) || c == '_' }

  predicate IsWordCont(c: char) { IsTagChar(c) || c == '$' || c == '.' }

  /** The classes, spelled out. */
  lemma ByteClasses(c: char)
    ensures IsWordStart(c) <==> c in "ABCDEFGHIJKLMNOPQRSTUVWXYZ" || c in "abcdefghijklmnopqrstuvwxyz" || c == '_'
    ensures IsTagChar(c) <==> IsWordStart(c) || c in "0123456789"
    ensures IsWordCont(c) <==> IsTagChar(c) || c == '$' || c == '.'
  {
    Capitals(c);
    Smalls(c);
    Numerals(c);
  }

  // ----- How far each mode reaches ------------------------------------------

  /** Just past the first `target`, or the end. */
  function SkipUntil(s: string, target: char): (n: nat)
    ensures n <= |s|
  {
    if s == "" then 0 else if s[0] == target then 1 else 1 + SkipUntil(s[1..], target)
  }

  /** Just past the first `*` `/`, or the end. */
  function BlockEnd(s: string): (n: nat)
    ensures n <= |s|
  {
    if |s| < 2 then |s| else if s[0] == '*' && s[1] == '/' then 2 else 1 + BlockEnd(s[1..])
  }

  /** The first `q` that is not doubled, or the end. */
  function QuoteEnd(s: string, q: char): (n: nat)
    ensures n <= |s|
    ensures n < |s| ==> s[n] == q && (n + 1 < |s| ==> s[n + 1] != q)
  {
    if s == "" then 0
    else if s[0] != q then 1 + QuoteEnd(s[1..], q)
    else if |s| > 1 && s[1] == q then 2 + QuoteEnd(s[2..], q)
    else 0
  }

  function Run(s: string, keep: char -> bool): (n: nat)
    ensures n <= |s|
    ensures forall i | 0 <= i < n :: keep(s[i])
    ensures n < |s| ==> !keep(s[n])
  {
    if s == "" || !keep(s[0]) then 0 else 1 + Run(s[1..], keep)
  }

  /** The length of the `$tag$` opener that `s` starts with. */
  function TagLength(s: string): (n: Option<nat>)
    requires s != "" && s[0] == '$'
    ensures n.Some? ==> 2 <= n.value <= |s| && s[n.value - 1] == '$'
    ensures n.Some? ==> forall i | 1 <= i < n.value - 1 :: IsTagChar(s[i])
  {
    var k := Run(s[1..], IsTagChar);
    if 1 + k < |s| && s[1 + k] == '$' then Some(k + 2) else None
  }

  /**
   Just past the first `tag`. Without one, the scan stops where `tag` no longer
   fits: up to |tag| - 1 bytes before the end.
   */
  function CloseEnd(s: string, tag: string): (n: nat)
    ensures n <= |s|
  {
    if |s| < |tag| then 0 else if tag <= s then |tag| else 1 + CloseEnd(s[1..], tag)
  }

  // ----- One lexeme, all lexemes ---------------------------------------------

  datatype Lexeme = Lexeme(len: nat, token: Option<Token>)

  function Punctuation(c: char): Token {
    if c == '(' then LParen else if c == ')' then RParen
    else if c == ',' then Comma else if c == ';' then Semicolon else Punct(c)
  }

  function First(s: string): (l: Lexeme)
    requires s != ""
    ensures 1 <= l.len <= |s|
  {
    if IsSpace(s[0]) then Lexeme(1, None)
    else if s[0] == '-' && |s| > 1 && s[1] == '-' then Lexeme(2 + SkipUntil(s[2..], '\n'), None)
    else if s[0] == '/' && |s| > 1 && s[1] == '*' then Lexeme(2 + BlockEnd(s[2..]), None)
    else if s[0] == '\'' then
      var e := 1 + QuoteEnd(s[1..], '\'');
      Lexeme(if e < |s| then e + 1 else e, Some(StringLit))
    else if s[0] == '$' && TagLength(s).Some? then
      var n := TagLength(s).value;
      Lexeme(n + CloseEnd(s[n..], s[..n]), Some(StringLit))
    else if s[0] == '"' then
      var e := 1 + QuoteEnd(s[1..], '"');
      Lexeme(if e < |s| then e + 1 else e, Some(QuotedIdent(s[1..e])))
    else if IsWordStart(s[0]) then
      var n := 1 + Run(s[1..], IsWordCont);
      Lexeme(n, Some(Word(s[..n])))
    else Lexeme(1, Some(Punctuation(s[0])))
  }

  function Emitted(t: Option<Token>): seq<Token> {
    match t case None => [] case Some(token) => [token]
  }

  function Lex(s: string): seq<Token>
    decreases |s|
  {
    if s == "" then [] else Emitted(First(s).token) + Lex(s[First(s).len..])
  }

  /** `out` is what lexing has produced when `rest` of the input is still to come. */
  ghost predicate Produced(out: seq<Token>, rest: string, all: seq<Token>) {
    out + Lex(rest) == all
  }

  /** Where the lexeme at `start` ends and which token it emits. */
  ghost predicate IsLexeme(bytes: string, start: nat, i: nat, token: Option<Token>)
    requires start < |bytes|
  {
    i == start + First(bytes[start..]).len && token == First(bytes[start..]).token
  }

  lemma ProduceOne(out: seq<Token>, bytes: string, i: nat, j: nat, token: Option<Token>, all: seq<Token>)
    requires i < |bytes| && Produced(out, bytes[i..], all)
    requires IsLexeme(bytes, i, j, token)
    ensures j <= |bytes| && Produced(out + Emitted(token), bytes[j..], all)
  {
    LexUnfold(bytes[i..], First(bytes[i..]).len);
    assert bytes[i..][First(bytes[i..]).len..] == bytes[j..];
    Associative(out, Emitted(token), Lex(bytes[j..]));
  }

  lemma LexUnfold(s: string, n: nat)
    requires s != "" && n == First(s).len
    ensures Lex(s) == Emitted(First(s).token) + Lex(s[n..])
  {
  }

  // ----- The index loops -------------------------------------------------------

  method SkipUntilFrom(bytes: string, start: nat, target: char) returns (i: nat)
    requires start <= |bytes|
    ensures i == start + SkipUntil(bytes[start..], target)
    ensures start <= i <= |bytes|
    ensures if i > start && bytes[i - 1] == target then forall k | start <= k < i - 1 :: bytes[k] != target
            else i == |bytes| && forall k | start <= k < i :: bytes[k] != target
  {
    i := start;
    while i < |bytes| && bytes[i] != target
      invariant start <= i <= |bytes|
      invariant i + SkipUntil(bytes[i..], target) == start + SkipUntil(bytes[start..], target)
      invariant forall k | start <= k < i :: bytes[k] != target
    {
      assert bytes[i..][1..] == bytes[i + 1..];
      i := i + 1;
    }
    if i < |bytes| {
      i := i + 1;
    }
  }

  method SkipBlockComment(bytes: string, start: nat) returns (i: nat)
    requires start <= |bytes|
    ensures i == start + BlockEnd(bytes[start..])
    ensures start <= i <= |bytes|
    ensures if i >= start + 2 && bytes[i - 2] == '*' && bytes[i - 1] == '/'
            then forall k, l | start <= k && l == k + 1 < i - 1 :: !(bytes[k] == '*' && bytes[l] == '/')
            else i == |bytes| && forall k, l | start <= k && l == k + 1 < i :: !(bytes[k] == '*' && bytes[l] == '/')
  {
    i := start;
    while i + 1 < |bytes| && !(bytes[i] == '*' && bytes[i + 1] == '/')
      invariant start <= i <= |bytes|
      invariant i + BlockEnd(bytes[i..]) == start + BlockEnd(bytes[start..])
      invariant forall k, l | start <= k < i && l == k + 1 < |bytes| :: !(bytes[k] == '*' && bytes[l] == '/')
    {
      assert bytes[i..][1..] == bytes[i + 1..];
      i := i + 1;
    }
    i := Min(i + 2, |bytes|);
  }

  /** To the quote that ends the literal, or to the end of the input. */
  method FindQuote(bytes: string, start: nat, q: char) returns (i: nat)
    requires start <= |bytes|
    ensures i == start + QuoteEnd(bytes[start..], q)
  {
    i := start;
    while i < |bytes|
      invariant start <= i <= |bytes|
      invariant i + QuoteEnd(bytes[i..], q) == start + QuoteEnd(bytes[start..], q)
    {
      if bytes[i] == q {
        if i + 1 < |bytes| && bytes[i + 1] == q {
          assert bytes[i..][2..] == bytes[i + 2..];
          i := i + 2;
          continue;
        }
        break;
      }
      assert bytes[i..][1..] == bytes[i + 1..];
      i := i + 1;
    }
  }

  method ReadDollarTag(bytes: string, i: nat) returns (end: Option<nat>)
    requires i < |bytes| && bytes[i] == '$'
    ensures end.Some? <==> TagLength(bytes[i..]).Some?
    ensures end.Some? ==> end.value == i + TagLength(bytes[i..]).value
  {
    var j := i + 1;
    assert bytes[i..][1..] == bytes[i + 1..];
    while j < |bytes| && IsTagChar(bytes[j])
      invariant i + 1 <= j <= |bytes|
      invariant j + Run(bytes[j..], IsTagChar) == i + 1 + Run(bytes[i + 1..], IsTagChar)
    {
      assert bytes[j..][1..] == bytes[j + 1..];
      j := j + 1;
    }
    if j >= |bytes| || bytes[j] != '$' {
      return None;
    }
    end := Some(j + 1);
  }

  method SkipDollarBody(bytes: string, start: nat, tag: string) returns (j: nat)
    requires start <= |bytes| && tag != ""
    ensures j == start + CloseEnd(bytes[start..], tag)
  {
    j := start;
    while j + |tag| <= |bytes|
      invariant start <= j <= |bytes|
      invariant j + CloseEnd(bytes[j..], tag) == start + CloseEnd(bytes[start..], tag)
    {
      assert bytes[j..][..|tag|] == bytes[j..j + |tag|];
      if bytes[j..j + |tag|] == tag {
        assert tag <= bytes[j..];
        j := j + |tag|;
        return;
      }
      assert bytes[j..][1..] == bytes[j + 1..];
      j := j + 1;
    }
  }

  method SkipWord(bytes: string, start: nat) returns (i: nat)
    requires start <= |bytes|
    ensures i == start + Run(bytes[start..], IsWordCont)
    ensures start <= i <= |bytes| && (forall k | start <= k < i :: IsWordCont(bytes[k]))
    ensures i < |bytes| ==> !IsWordCont(bytes[i])
  {
    i := start;
    while i < |bytes| && IsWordCont(bytes[i])
      invariant start <= i <= |bytes|
      invariant i + Run(bytes[i..], IsWordCont) == start + Run(bytes[start..], IsWordCont)
      invariant forall k | start <= k < i :: IsWordCont(bytes[k])
    {
      assert bytes[i..][1..] == bytes[i + 1..];
      i := i + 1;
    }
  }

  method LexLineComment(bytes: string, start: nat) returns (i: nat)
    requires start + 1 < |bytes| && bytes[start] == '-' && bytes[start + 1] == '-'
    ensures IsLexeme(bytes, start, i, None)
  {
    assert bytes[start..][2..] == bytes[start + 2..];
    i := SkipUntilFrom(bytes, start + 2, '\n');
  }

  method LexBlockComment(bytes: string, start: nat) returns (i: nat)
    requires start + 1 < |bytes| && bytes[start] == '/' && bytes[start + 1] == '*'
    ensures IsLexeme(bytes, start, i, None)
  {
    assert bytes[start..][2..] == bytes[start + 2..];
    i := SkipBlockComment(bytes, start + 2);
  }

  method LexString(bytes: string, start: nat) returns (i: nat)
    requires start < |bytes| && bytes[start] == '\''
    ensures IsLexeme(bytes, start, i, Some(StringLit))
  {
    assert bytes[start..][1..] == bytes[start + 1..];
    i := FindQuote(bytes, start + 1, '\'');
    if i < |bytes| {
      i := i + 1;
    }
  }

  /** Nothing when the `$` does not open a dollar-quoted literal. */
  method LexDollar(bytes: string, start: nat) returns (i: Option<nat>)
    requires start < |bytes| && bytes[start] == '$'
    ensures i.Some? ==> IsLexeme(bytes, start, i.value, Some(StringLit))
    ensures i.None? ==> IsLexeme(bytes, start, start + 1, Some(Punct('$')))
  {
    var end := ReadDollarTag(bytes, start);
    if end.None? {
      return None;
    }
    ghost var rest := bytes[start..];
    var tag := bytes[start..end.value];
    assert tag == rest[..end.value - start] && rest[end.value - start..] == bytes[end.value..];
    var j := SkipDollarBody(bytes, end.value, tag);
    i := Some(j);
  }

  method LexQuotedIdent(bytes: string, start: nat) returns (i: nat, token: Token)
    requires start < |bytes| && bytes[start] == '"'
    ensures IsLexeme(bytes, start, i, Some(token))
  {
    assert bytes[start..][1..] == bytes[start + 1..];
    i := FindQuote(bytes, start + 1, '"');
    assert bytes[start..][1..i - start] == bytes[start + 1..i];
    token := QuotedIdent(bytes[start + 1..i]);
    if i < |bytes| {
      i := i + 1;
    }
  }

  method LexWord(bytes: string, start: nat) returns (i: nat, token: Token)
    requires start < |bytes| && IsWordStart(bytes[start])
    ensures IsLexeme(bytes, start, i, Some(token))
  {
    assert bytes[start..][1..] == bytes[start + 1..];
    i := SkipWord(bytes, start + 1);
    assert bytes[start..][..i - start] == bytes[start..i];
    token := Word(bytes[start..i]);
  }

  method NextLexeme(bytes: string, start: nat) returns (i: nat, token: Option<Token>)
    requires start < |bytes|
    ensures IsLexeme(bytes, start, i, token)
    ensures start < i <= |bytes|
    ensures var b := bytes[start];
      var pair := if start + 1 < |bytes| then bytes[start..start + 2] else [b];
      && (token == None <==> b in [' ', '\t', '\n', '\r', 12 as char] || pair == "--" || pair == "/*")
      && (token == None && b != '-' && b != '/' ==> i == start + 1)
      && (token.Some? ==>
            && (token.value.QuotedIdent? <==> b == '"')
            && (token.value.Word? <==> b == '_' || IsAlpha(b))
            && (token.value.Word? ==> token.value.text == bytes[start..i])
            && (token.value.QuotedIdent? ==> token.value.text <= bytes[start + 1..i] && i <= start + 2 + |token.value.text|)
            && (token.value == LParen <==> b == '(') && (token.value == RParen <==> b == ')')
            && (token.value == Comma <==> b == ',') && (token.value == Semicolon <==> b == ';')
            && (token.value == StringLit ==> b == '\'' || b == '$') && (b == '\'' ==> token.value == StringLit)
            && (token.value.Punct? ==> token.value == Punct(b)))
  {
    var b := bytes[start];
    token := None;
    if IsSpace(b) {
      i := start + 1;
    } else if b == '-' && start + 1 < |bytes| && bytes[start + 1] == '-' {
      i := LexLineComment(bytes, start);
    } else if b == '/' && start + 1 < |bytes| && bytes[start + 1] == '*' {
      i := LexBlockComment(bytes, start);
    } else if b == '\'' {
      i := LexString(bytes, start);
      token := Some(StringLit);
    } else {
      if b == '$' {
        var end := LexDollar(bytes, start);
        if end.Some? {
          return end.value, Some(StringLit);
        }
      }
      var t;
      if b == '"' {
        i, t := LexQuotedIdent(bytes, start);
      } else if IsWordStart(b) {
        i, t := LexWord(bytes, start);
      } else {
        i, t := start + 1, Punctuation(b);
      }
      token := Some(t);
    }
  }

  /** One turn of the loop: the index strictly advances and stays in bounds on every input. */
  method Advance(bytes: string, start: nat, ghost out: seq<Token>, ghost all: seq<Token>)
    returns (i: nat, token: Option<Token>)
    requires start < |bytes| && Produced(out, bytes[start..], all)
    ensures start < i <= |bytes|
    ensures Produced(out + Emitted(token), bytes[i..], all)
  {
    i, token := NextLexeme(bytes, start);
    ProduceOne(out, bytes, start, i, token, all);
  }

  method Tokenize(bytes: string) returns (out: seq<Token>)
    ensures out == Lex(bytes)
  {
    ghost var all := Lex(bytes);
    assert bytes[0..] == bytes;
    out := [];
    var i := 0;
    while i < |bytes|
      invariant i <= |bytes| && Produced(out, bytes[i..], all)
    {
      var token;
      i, token := Advance(bytes, i, out, all);
      out := out + Emitted(token);
    }
  }
}
