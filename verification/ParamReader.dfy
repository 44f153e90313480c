/**
 Reading the parameters of a statement, over any lexer that does not look past
 the character that ends a lexeme; and when parameters written between texts are
 read back.
 */
module ParamReader {
  import opened Common
  import opened SqlLexer
  import opened SqlReader

  /** The length of the first lexeme, and its number if it is a parameter. */
  datatype Lexer = Lexer(length: string -> nat, param: string -> Option<nat>)

  /** A parameter as read: where its `$` stands, and its number. */
  datatype Reading = Reading(at: nat, n: nat)

  function Step(lexer: Lexer, s: string): (n: nat)
    requires s != ""
    ensures 1 <= n <= |s|
  {
    if 1 <= lexer.length(s) <= |s| then lexer.length(s) else 1
  }

  function ReadFirst(lexer: Lexer, s: string, at: nat): seq<Reading> {
    var n := lexer.param(s);
    if n.Some? then [Reading(at, n.value)] else []
  }

  /** The parameters of a statement whose first character is at `at`, from left to right. */
  function Read(lexer: Lexer, s: string, at: nat): seq<Reading>
    decreases |s|
  {
    if s == "" then [] else ReadFirst(lexer, s, at) + Read(lexer, s[Step(lexer, s)..], at + Step(lexer, s))
  }

  /** No parameter is read in the text. */
  predicate Silent(lexer: Lexer, s: string)
    decreases |s|
  {
    s == "" || (lexer.param(s).None? && Silent(lexer, s[Step(lexer, s)..]))
  }

  /** With a `$` after it, the lexemes of the text end where it ends. */
  predicate Clean(lexer: Lexer, p: string)
    decreases |p|
  {
    p == "" || (Step(lexer, p + "$") <= |p| && Clean(lexer, p[Step(lexer, p + "$")..]))
  }

  predicate StartsWithDigit(s: string) { s != "" && IsDigit(s[0]) }

  // ----- What is asked of a lexer ---------------------------------------------------------

  predicate LocalAt(lexer: Lexer, p: string, x: string) {
    p != "" ==>
      && Local(p, x, Step(lexer, p), Step(lexer, p + "$"), Step(lexer, p + "$" + x))
      && (Step(lexer, p + "$") <= |p| ==> lexer.param(p + "$" + x) == lexer.param(p))
  }

  /** `$` and a number is a parameter with that number, unless more digits follow. */
  predicate ReadsParam(lexer: Lexer, n: nat, rest: string) {
    var s := "$" + (Digits(n) + rest);
    if StartsWithDigit(rest) then lexer.param(s).Some? && lexer.param(s).value != n
    else lexer.param(s) == Some(n) && Step(lexer, s) == 1 + |Digits(n)|
  }

  ghost predicate Lawful(lexer: Lexer) {
    && (forall p: string, x: string :: LocalAt(lexer, p, x))
    && (forall n: nat, rest: string :: n >= 1 ==> ReadsParam(lexer, n, rest))
  }

  // ----- Reading across a boundary ----------------------------------------------------------

  lemma {:induction false} SilentIff(lexer: Lexer, s: string, at: nat)
    ensures Silent(lexer, s) <==> Read(lexer, s, at) == []
    decreases |s|
  {
    if s != "" {
      SilentIff(lexer, s[Step(lexer, s)..], at + Step(lexer, s));
    }
  }

  lemma Rest(p: string, x: string, n: nat)
    requires n <= |p|
    ensures (p + "$" + x)[n..] == p[n..] + "$" + x
  {
  }

  lemma ReadUnfold(lexer: Lexer, s: string, n: nat, rest: string, at: nat)
    requires s != "" && n == Step(lexer, s) && rest == s[n..]
    ensures Read(lexer, s, at) == ReadFirst(lexer, s, at) + Read(lexer, rest, at + n)
  {
  }

  /** Reading can be resumed at a clean boundary. */
  lemma {:induction false} ReadOfCut(lexer: Lexer, p: string, x: string, at: nat, whole: string, tail: string, from: nat)
    requires Lawful(lexer) && Clean(lexer, p)
    requires tail == "$" + x && whole == p + "$" + x && from == at + |p|
    ensures Read(lexer, whole, at) == Read(lexer, p, at) + Read(lexer, tail, from)
    decreases |p|
  {
    if p == "" {
      assert whole == tail;
    } else {
      var n := Step(lexer, p + "$");
      assert LocalAt(lexer, p, x);
      Rest(p, x, n);
      ReadOfCut(lexer, p[n..], x, at + n, whole[n..], tail, from);
      ReadUnfold(lexer, whole, n, whole[n..], at);
      ReadUnfold(lexer, p, n, p[n..], at);
      Associative(ReadFirst(lexer, p, at), Read(lexer, p[n..], at + n), Read(lexer, tail, from));
    }
  }

  predicate NoneAt(rs: seq<Reading>, at: nat) { forall i | 0 <= i < |rs| :: rs[i].at != at }

  predicate AllWithin(rs: seq<Reading>, from: nat, to: nat) { forall i | 0 <= i < |rs| :: from <= rs[i].at < to }

  lemma {:induction false} ReadIsWithin(lexer: Lexer, s: string, at: nat)
    ensures AllWithin(Read(lexer, s, at), at, at + |s|)
    decreases |s|
  {
    if s != "" {
      ReadIsWithin(lexer, s[Step(lexer, s)..], at + Step(lexer, s));
    }
  }

  /** At a boundary that is not clean nothing is read. */
  lemma {:induction false} NothingReadAtUnclean(lexer: Lexer, p: string, x: string, at: nat, whole: string, end: nat)
    requires Lawful(lexer) && !Clean(lexer, p) && whole == p + "$" + x && end == at + |p|
    ensures NoneAt(Read(lexer, whole, at), end)
    decreases |p|
  {
    var n := Step(lexer, whole);
    assert LocalAt(lexer, p, x);
    ReadUnfold(lexer, whole, n, whole[n..], at);
    if Step(lexer, p + "$") <= |p| {
      Rest(p, x, n);
      NothingReadAtUnclean(lexer, p[n..], x, at + n, whole[n..], end);
    } else {
      ReadIsWithin(lexer, whole[n..], at + n);
    }
  }

  // ----- Texts with parameters between them -----------------------------------------------

  /** The texts with `$` and a number between each two. */
  function Text(us: seq<string>, ns: seq<nat>): string
    requires |us| == |ns| + 1
  {
    if ns == [] then us[0] else us[0] + "$" + (Digits(ns[0]) + Text(us[1..], ns[1..]))
  }

  /** The parameters as meant, where they stand. */
  function Meant(us: seq<string>, ns: seq<nat>, at: nat): seq<Reading>
    requires |us| == |ns| + 1
  {
    if ns == [] then []
    else [Reading(at + |us[0]|, ns[0])] + Meant(us[1..], ns[1..], at + |us[0]| + 1 + |Digits(ns[0])|)
  }

  /** No parameter is read in any text, each but the last ends cleanly, and none after the first starts with a digit. */
  predicate Legible(lexer: Lexer, us: seq<string>) {
    us != [] ==>
      && Silent(lexer, us[0])
      && (|us| > 1 ==> Clean(lexer, us[0]) && !StartsWithDigit(us[1]) && Legible(lexer, us[1..]))
  }

  lemma TextStarts(us: seq<string>, ns: seq<nat>)
    requires |us| == |ns| + 1
    ensures StartsWithDigit(Text(us, ns)) <==> StartsWithDigit(us[0])
  {
  }

  lemma OneMore(before: seq<Reading>, read: Reading, more: seq<Reading>, meant: Reading, expected: seq<Reading>)
    requires AllWithin(before, 0, read.at) && read.at == meant.at
    ensures before + ([read] + more) == [meant] + expected <==> before == [] && read == meant && more == expected
  {
    var all, want := before + ([read] + more), [meant] + expected;
    if before == [] {
      assert all == [read] + more;
      assert all[0] == read && all[1..] == more && want[0] == meant && want[1..] == expected;
    } else {
      assert all[0] == before[0] && want[0] == meant;
    }
  }

  lemma NotFirst(rs: seq<Reading>, meant: Reading, expected: seq<Reading>)
    requires NoneAt(rs, meant.at)
    ensures rs != [meant] + expected
  {
    assert ([meant] + expected)[0] == meant;
  }

  /** A parameter at the start: what is read of it and after it. */
  lemma ReadParam(lexer: Lexer, n: nat, d: string, rest: string, at: nat) returns (read: Reading, more: seq<Reading>)
    requires Lawful(lexer) && n >= 1 && d == Digits(n)
    ensures Read(lexer, "$" + (d + rest), at) == [read] + more && read.at == at
    ensures if StartsWithDigit(rest) then read.n != n
            else read.n == n && more == Read(lexer, rest, at + 1 + |d|)
  {
    var s := "$" + (d + rest);
    assert ReadsParam(lexer, n, rest);
    read := Reading(at, lexer.param(s).value);
    more := Read(lexer, s[Step(lexer, s)..], at + Step(lexer, s));
    assert s[1 + |d|..] == rest;
  }

  /** One text and the parameter after it: read as meant iff the text is plain, no digit follows and the rest is right. */
  lemma OneText(lexer: Lexer, u: string, n: nat, d: string, rest: string, at: nat, expected: seq<Reading>, whole: string)
    requires Lawful(lexer) && n >= 1 && d == Digits(n) && whole == u + "$" + (d + rest)
    ensures Read(lexer, whole, at) == [Reading(at + |u|, n)] + expected <==>
              && Silent(lexer, u) && Clean(lexer, u) && !StartsWithDigit(rest)
              && Read(lexer, rest, at + |u| + 1 + |d|) == expected
  {
    if Clean(lexer, u) {
      var read, more := ReadParam(lexer, n, d, rest, at + |u|);
      ReadOfCut(lexer, u, d + rest, at, whole, "$" + (d + rest), at + |u|);
      SilentIff(lexer, u, at);
      ReadIsWithin(lexer, u, at);
      OneMore(Read(lexer, u, at), read, more, Reading(at + |u|, n), expected);
    } else {
      NothingReadAtUnclean(lexer, u, d + rest, at, whole, at + |u|);
      NotFirst(Read(lexer, whole, at), Reading(at + |u|, n), expected);
    }
  }

  /**
   Of the texts with their parameters between them exactly the parameters meant are
   read, each where it stands, if and only if the texts are legible.
   */
  lemma {:induction false} ReadBackIff(lexer: Lexer, us: seq<string>, ns: seq<nat>, at: nat, text: string)
    requires Lawful(lexer) && |us| == |ns| + 1 && forall i | 0 <= i < |ns| :: ns[i] >= 1
    requires text == Text(us, ns)
    ensures Read(lexer, text, at) == Meant(us, ns, at) <==> Legible(lexer, us)
    decreases |ns|
  {
    if ns == [] {
      SilentIff(lexer, us[0], at);
    } else {
      var d, rest := Digits(ns[0]), Text(us[1..], ns[1..]);
      var next := at + |us[0]| + 1 + |d|;
      var more := Meant(us[1..], ns[1..], next);
      MeantUnfold(us, ns, at, next, more);
      LegibleUnfold(lexer, us);
      OneText(lexer, us[0], ns[0], d, rest, at, more, text);
      TextStarts(us[1..], ns[1..]);
      ReadBackIff(lexer, us[1..], ns[1..], next, rest);
    }
  }

  lemma MeantUnfold(us: seq<string>, ns: seq<nat>, at: nat, next: nat, more: seq<Reading>)
    requires |us| == |ns| + 1 && ns != [] && next == at + |us[0]| + 1 + |Digits(ns[0])|
    requires more == Meant(us[1..], ns[1..], next)
    ensures Meant(us, ns, at) == [Reading(at + |us[0]|, ns[0])] + more
  {
  }

  lemma LegibleUnfold(lexer: Lexer, us: seq<string>)
    requires |us| > 1
    ensures Legible(lexer, us) <==>
              Silent(lexer, us[0]) && Clean(lexer, us[0]) && !StartsWithDigit(us[1]) && Legible(lexer, us[1..])
  {
  }
}
