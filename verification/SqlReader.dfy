/**
 How PostgreSQL reads a statement, as far as it takes to find the parameters in
 it (sections 4.1.1, 4.1.2, 4.1.5 and 4.2.2 of its manual): comments nest,
 string constants double their quotes, escape string constants know backslashes,
 dollar quotes run to their own tag, `$` in a word belongs to the word, and `$`
 followed by a digit is a parameter. What is left open reaches to the end.
 */
module SqlReader {
  import opened Common
  import opened SqlLexer

  predicate IsDigit(c: char) { '0' <= c <= '9' }

  /** Letters, digits, underscores and everything beyond ASCII. */
  predicate IsNameChar(c: char) { IsTagChar(c) || c as int >= 128 }

  predicate IsNameStart(c: char) { IsNameChar(c) && !IsDigit(c) }

  predicate IsIdentCont(c: char) { IsNameChar(c) || c == '$' }

  predicate IsNumberCont(c: char) { IsTagChar(c) || c == '.' }

  predicate NotLineEnd(c: char) { c != '\n' && c != '\r' }

  // ----- How far each kind of lexeme reaches ---------------------------------------

  /** Just past the closer of a comment opened `depth` times, or the end. */
  function NestedEnd(s: string, depth: nat): (n: nat)
    requires depth > 0
    ensures n <= |s|
    decreases |s|
  {
    if |s| < 2 then |s|
    else if s[0] == '/' && s[1] == '*' then 2 + NestedEnd(s[2..], depth + 1)
    else if s[0] == '*' && s[1] == '/' then if depth == 1 then 2 else 2 + NestedEnd(s[2..], depth - 1)
    else 1 + NestedEnd(s[1..], depth)
  }

  /** Just past the first `q` that is not doubled, or the end. */
  function ConstantEnd(s: string, q: char): (n: nat)
    ensures n <= |s|
    decreases |s|
  {
    if s == "" then 0
    else if s[0] != q then 1 + ConstantEnd(s[1..], q)
    else if |s| > 1 && s[1] == q then 2 + ConstantEnd(s[2..], q)
    else 1
  }

  /** The same for an escape string constant, in which a backslash takes the next character with it. */
  function EscapeEnd(s: string): (n: nat)
    ensures n <= |s|
    decreases |s|
  {
    if s == "" then 0
    else if s[0] == '\\' then if |s| == 1 then 1 else 2 + EscapeEnd(s[2..])
    else if s[0] != '\'' then 1 + EscapeEnd(s[1..])
    else if |s| > 1 && s[1] == '\'' then 2 + EscapeEnd(s[2..])
    else 1
  }

  /** Just past the first `tag`, or the end. */
  function BodyEnd(s: string, tag: string): (n: nat)
    ensures n <= |s|
    decreases |s|
  {
    if |s| < |tag| || s == "" then |s| else if tag <= s then |tag| else 1 + BodyEnd(s[1..], tag)
  }

  /** A parameter, a dollar-quoted constant or a lone `$`. */
  function DollarLength(s: string): (n: nat)
    requires s != "" && s[0] == '$'
    ensures 1 <= n <= |s|
  {
    var k := Run(s[1..], IsDigit);
    var m := Run(s[1..], IsNameChar);
    if k > 0 then 1 + k
    else if 1 + m < |s| && s[1 + m] == '$' then m + 2 + BodyEnd(s[m + 2..], s[..m + 2])
    else 1
  }

  /** The length of the first lexeme; blanks and operators are taken one character at a time. */
  function Length(s: string): (n: nat)
    requires s != ""
    ensures 1 <= n <= |s|
  {
    if s[0] == '$' then DollarLength(s)
    else if s[0] == '\'' || s[0] == '"' then 1 + ConstantEnd(s[1..], s[0])
    else if IsNameStart(s[0]) then
      if (s[0] == 'e' || s[0] == 'E') && |s| > 1 && s[1] == '\'' then 2 + EscapeEnd(s[2..])
      else 1 + Run(s[1..], IsIdentCont)
    else if IsDigit(s[0]) then 1 + Run(s[1..], IsNumberCont)
    else if |s| > 1 && s[0] == '-' && s[1] == '-' then 2 + Run(s[2..], NotLineEnd)
    else if |s| > 1 && s[0] == '/' && s[1] == '*' then 2 + NestedEnd(s[2..], 1)
    else 1
  }

  // ----- A lexeme does not look past the character that ended it --------------------------

  /** What each scan has in common: stopped early it is stopped for good, and otherwise it goes on. */
  predicate Local(u: string, x: string, alone: nat, before: nat, within: nat) {
    && (before <= |u| ==> alone == before == within)
    && (before > |u| ==> within > |u|)
  }

  lemma Tails(u: string, x: string)
    requires u != ""
    ensures (u + "$")[1..] == u[1..] + "$" && (u + "$" + x)[1..] == u[1..] + "$" + x
    ensures |u| > 1 ==> (u + "$")[2..] == u[2..] + "$" && (u + "$" + x)[2..] == u[2..] + "$" + x
  {
  }

  lemma {:induction false} RunIsLocal(u: string, x: string, keep: char -> bool)
    ensures Local(u, x, Run(u, keep), Run(u + "$", keep), Run(u + "$" + x, keep))
  {
    if u == "" {
      assert u + "$" == "$" && u + "$" + x == "$" + x;
      assert ("$" + x)[0] == '$';
    } else {
      Tails(u, x);
      RunIsLocal(u[1..], x, keep);
    }
  }

  lemma {:induction false} NestedIsLocal(u: string, x: string, depth: nat)
    requires depth > 0
    ensures Local(u, x, NestedEnd(u, depth), NestedEnd(u + "$", depth), NestedEnd(u + "$" + x, depth))
    decreases |u|
  {
    var s, t := u + "$", u + "$" + x;
    if u == "" {
      assert s == "$" && t[0] == '$';
    } else {
      Tails(u, x);
      if |u| > 1 && u[0] == '/' && u[1] == '*' {
        NestedIsLocal(u[2..], x, depth + 1);
      } else if |u| > 1 && u[0] == '*' && u[1] == '/' {
        if depth > 1 { NestedIsLocal(u[2..], x, depth - 1); }
      } else {
        NestedIsLocal(u[1..], x, depth);
      }
    }
  }

  lemma {:induction false} ConstantIsLocal(u: string, x: string, q: char)
    requires q != '$'
    ensures Local(u, x, ConstantEnd(u, q), ConstantEnd(u + "$", q), ConstantEnd(u + "$" + x, q))
    decreases |u|
  {
    var s, t := u + "$", u + "$" + x;
    if u == "" {
      assert s == "$" && s[1..] == "" && t[0] == '$';
    } else {
      Tails(u, x);
      if u[0] != q {
        ConstantIsLocal(u[1..], x, q);
      } else if |u| > 1 && u[1] == q {
        ConstantIsLocal(u[2..], x, q);
      }
    }
  }

  lemma {:induction false} EscapeIsLocal(u: string, x: string)
    ensures Local(u, x, EscapeEnd(u), EscapeEnd(u + "$"), EscapeEnd(u + "$" + x))
    decreases |u|
  {
    var s, t := u + "$", u + "$" + x;
    if u == "" {
      assert s == "$" && s[1..] == "" && t[0] == '$';
    } else {
      Tails(u, x);
      if u[0] == '\\' {
        if |u| > 1 { EscapeIsLocal(u[2..], x); } else { assert s[2..] == ""; }
      } else if u[0] != '\'' {
        EscapeIsLocal(u[1..], x);
      } else if |u| > 1 && u[1] == '\'' {
        EscapeIsLocal(u[2..], x);
      }
    }
  }

  lemma PrefixOfMore(tag: string, s: string, r: string)
    requires |tag| <= |s|
    ensures tag <= s + r <==> tag <= s
  {
    assert (s + r)[..|tag|] == s[..|tag|];
  }

  lemma {:induction false} BodyIsLocal(u: string, x: string, tag: string)
    requires tag != ""
    ensures Local(u, x, BodyEnd(u, tag), BodyEnd(u + "$", tag), BodyEnd(u + "$" + x, tag))
    decreases |u|
  {
    var s, t := u + "$", u + "$" + x;
    if |u| >= |tag| {
      PrefixOfMore(tag, u, "$");
      PrefixOfMore(tag, u, "$" + x);
      assert u + ("$" + x) == t;
      if !(tag <= u) {
        Tails(u, x);
        BodyIsLocal(u[1..], x, tag);
      }
    } else {
      BodyReachesOver(u, x, tag);
    }
  }

  /** A body shorter than the tag is not closed in it, nor one character later but for a tag that ends there. */
  lemma {:induction false} BodyReachesOver(u: string, x: string, tag: string)
    requires |u| < |tag|
    ensures BodyEnd(u + "$", tag) > |u| && BodyEnd(u + "$" + x, tag) > |u|
    decreases |u|
  {
    var t := u + "$" + x;
    if u != "" && |t| >= |tag| && !(tag <= t) {
      Tails(u, x);
      BodyReachesOver(u[1..], x, tag);
    }
    if u != "" && |u + "$"| >= |tag| && !(tag <= u + "$") {
      Tails(u, x);
      BodyReachesOver(u[1..], x, tag);
    }
  }

  lemma StopsAtDollar(u: string, keep: char -> bool)
    requires !keep('$')
    ensures Run(u + "$", keep) <= |u|
  {
    assert (u + "$")[|u|] == '$';
  }

  /** A tag that opens within `p`. */
  lemma TagIsLocal(p: string, x: string, n: nat)
    requires 2 <= n <= |p| && p[0] == '$'
    ensures Local(p, x, n + BodyEnd(p[n..], p[..n]), n + BodyEnd((p + "$")[n..], (p + "$")[..n]),
                  n + BodyEnd((p + "$" + x)[n..], (p + "$" + x)[..n]))
  {
    var s, t := p + "$", p + "$" + x;
    assert s[..n] == t[..n] == p[..n];
    assert s[n..] == p[n..] + "$" && t[n..] == p[n..] + "$" + x;
    BodyIsLocal(p[n..], x, p[..n]);
  }

  lemma DollarIsLocal(p: string, x: string)
    requires p != "" && p[0] == '$'
    ensures Local(p, x, DollarLength(p), DollarLength(p + "$"), DollarLength(p + "$" + x))
  {
    var u := p[1..];
    Tails(p, x);
    RunIsLocal(u, x, IsDigit);
    RunIsLocal(u, x, IsNameChar);
    StopsAtDollar(u, IsNameChar);
    StopsAtDollar(u, IsDigit);
    var m := Run(u, IsNameChar);
    if 1 + m < |p| && p[1 + m] == '$' {
      TagIsLocal(p, x, m + 2);
    }
  }

  lemma LengthIsLocal(p: string, x: string)
    requires p != ""
    ensures Local(p, x, Length(p), Length(p + "$"), Length(p + "$" + x))
  {
    var c, u := p[0], p[1..];
    Tails(p, x);
    if c == '$' {
      DollarIsLocal(p, x);
    } else if c == '\'' || c == '"' {
      ConstantIsLocal(u, x, c);
    } else if IsNameStart(c) {
      if |p| > 1 && p[1] == '\'' { EscapeIsLocal(p[2..], x); }
      RunIsLocal(u, x, IsIdentCont);
    } else if IsDigit(c) {
      RunIsLocal(u, x, IsNumberCont);
    } else if |p| > 1 && c == '-' && p[1] == '-' {
      RunIsLocal(p[2..], x, NotLineEnd);
    } else if |p| > 1 && c == '/' && p[1] == '*' {
      NestedIsLocal(p[2..], x, 1);
    }
  }
}
