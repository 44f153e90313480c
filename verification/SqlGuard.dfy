/** The guard's rules over the token stream, and what they can and cannot notice. */
module SqlGuard {
  import opened Common
  import opened SqlLexer
  import opened SqlLexerLaws
  import opened SqlLexerCuts

  datatype Mode = Readonly | Writable

  datatype Rejection = MultiStatement | NoVerb | CopyNotPermitted | VerbNotAllowed(verb: string) | Banned(name: string)

  /** The lists the rules consult, in lower case. */
  datatype Policy = Policy(readonlyVerbs: set<string>, writeVerbs: set<string>, banned: set<string>)

  const STANDARD: Policy := Policy(
    {"select", "with", "table", "explain", "values", "show"},
    {"insert", "update", "delete", "merge", "truncate", "create", "alter", "drop", "grant",
     "revoke", "comment", "refresh", "vacuum", "analyze", "reindex", "cluster", "lock"},
    {"pg_sleep", "pg_sleep_for", "pg_sleep_until",
     "pg_read_file", "pg_read_binary_file", "pg_read_server_files", "pg_ls_dir", "pg_stat_file",
     "lo_import", "lo_export", "lo_get", "lo_put",
     "dblink", "dblink_connect", "dblink_exec", "dblink_send_query",
     "pg_terminate_backend", "pg_cancel_backend", "pg_reload_conf", "pg_promote",
     "pg_logfile_rotate", "pg_rotate_logfile",
     "set_config"})

  /** What follows the last dot. */
  function Leaf(name: string): string {
    if name == "" || name[|name| - 1] == '.' then ""
    else Leaf(name[..|name| - 1]) + [name[|name| - 1]]
  }

  lemma LeafOfAppend(init: string, c: char)
    ensures Leaf(init + [c]) == if c == '.' then "" else Leaf(init) + [c]
  {
    assert (init + [c])[..|init|] == init;
  }

  /** The leaf is the text after the last dot, or all of it. */
  lemma {:induction false} LeafIsLastSegment(name: string) returns (before: string)
    ensures '.' !in Leaf(name)
    ensures name == before + Leaf(name)
    ensures before != "" ==> before[|before| - 1] == '.'
  {
    if name == "" || name[|name| - 1] == '.' {
      before := name;
      assert name == before + "";
    } else {
      var init, c := name[..|name| - 1], name[|name| - 1];
      assert name == init + [c];
      LeafOfAppend(init, c);
      before := LeafIsLastSegment(init);
    }
  }

  // ----- What each rule says about a statement --------------------------------

  /** Nothing but semicolons follows the first semicolon. */
  ghost predicate OneStatement(ts: seq<Token>) {
    forall i, j | 0 <= i < j < |ts| && ts[i].Semicolon? :: ts[j].Semicolon?
  }

  function FirstWord(ts: seq<Token>): Option<string> {
    if ts == [] then None else if ts[0].Word? then Some(ts[0].text) else FirstWord(ts[1..])
  }

  /** The verb is the first word token; quoted identifiers are passed over. */
  lemma {:induction false} FirstWordIff(ts: seq<Token>, w: string)
    ensures FirstWord(ts) == Some(w) <==>
              exists i :: 0 <= i < |ts| && ts[i] == Word(w) && forall j | 0 <= j < i :: !ts[j].Word?
    ensures FirstWord(ts) == None <==> forall i | 0 <= i < |ts| :: !ts[i].Word?
  {
    if ts != [] {
      var rest := ts[1..];
      FirstWordIff(rest, w);
      assert forall i | 0 <= i < |rest| :: rest[i] == ts[i + 1];
      assert forall i | 0 < i < |ts| :: ts[i] == rest[i - 1];
      if !ts[0].Word? && FirstWord(rest) == Some(w) {
        var i :| 0 <= i < |rest| && rest[i] == Word(w) && forall j | 0 <= j < i :: !rest[j].Word?;
        assert ts[i + 1] == Word(w) && forall j | 0 <= j < i + 1 :: !ts[j].Word?;
      }
    }
  }

  /** `copy` is refused whatever the lists say. */
  predicate AllowedVerb(policy: Policy, verb: string, mode: Mode) {
    Lower(verb) != "copy"
    && (Lower(verb) in policy.readonlyVerbs || (mode.Writable? && Lower(verb) in policy.writeVerbs))
  }

  predicate Named(t: Token) { t.Word? || t.QuotedIdent? }

  predicate BannedName(policy: Policy, name: string) { Lower(Leaf(name)) in policy.banned }

  /** A banned name directly before an opening parenthesis. */
  predicate BannedCall(policy: Policy, name: Token, next: Token) {
    Named(name) && next.LParen? && BannedName(policy, name.text)
  }

  predicate BannedCallAt(policy: Policy, ts: seq<Token>, i: nat) {
    i + 1 < |ts| && BannedCall(policy, ts[i], ts[i + 1])
  }

  ghost predicate NoBannedCall(policy: Policy, ts: seq<Token>) {
    forall i: nat :: !BannedCallAt(policy, ts, i)
  }

  // ----- The rules ----------------------------------------------------------------

  method SingleStatement(ts: seq<Token>) returns (r: Option<Rejection>)
    ensures r == if OneStatement(ts) then None else Some(MultiStatement)
  {
    var seenOther, seenSemi := false, false;
    for i := 0 to |ts|
      invariant !seenOther
      invariant seenSemi <==> exists k :: 0 <= k < i && ts[k].Semicolon?
      invariant forall k, j | 0 <= k < j < i && ts[k].Semicolon? :: ts[j].Semicolon?
    {
      if ts[i].Semicolon? {
        seenSemi := true;
        continue;
      }
      if seenSemi {
        seenOther := true;
        break;
      }
    }
    r := if seenOther then Some(MultiStatement) else None;
  }

  function StartsWithAllowedVerb(policy: Policy, ts: seq<Token>, mode: Mode): (r: Option<Rejection>)
    ensures r.None? <==> FirstWord(ts).Some? && AllowedVerb(policy, FirstWord(ts).value, mode)
  {
    match FirstWord(ts)
    case None => Some(NoVerb)
    case Some(first) =>
      var lower := Lower(first);
      if lower == "copy" then Some(CopyNotPermitted)
      else
        var allowed := match mode
          case Readonly => lower in policy.readonlyVerbs
          case Writable => lower in policy.readonlyVerbs || lower in policy.writeVerbs;
        if allowed then None else Some(VerbNotAllowed(first))
  }

  method NoBannedFunctions(policy: Policy, ts: seq<Token>) returns (r: Option<Rejection>)
    ensures r.None? <==> NoBannedCall(policy, ts)
    ensures r.Some? ==> exists i: nat :: BannedCallAt(policy, ts, i) && r.value == Banned(ts[i].text)
                                         && forall j: nat | j < i :: !BannedCallAt(policy, ts, j)
  {
    var i := 0;
    while i + 1 < |ts|
      invariant forall j: nat | j < i :: !BannedCallAt(policy, ts, j)
    {
      if BannedCall(policy, ts[i], ts[i + 1]) {
        assert BannedCallAt(policy, ts, i);
        return Some(Banned(ts[i].text));
      }
      i := i + 1;
    }
    r := None;
  }

  // ----- The verdict of all three ----------------------------------------------------

  ghost predicate Passes(policy: Policy, ts: seq<Token>, mode: Mode) {
    && OneStatement(ts)
    && StartsWithAllowedVerb(policy, ts, mode).None?
    && NoBannedCall(policy, ts)
  }

  /** The rejection is that of the first rule that fails, in the order of the fallback path. */
  ghost predicate IsVerdict(policy: Policy, ts: seq<Token>, mode: Mode, r: Option<Rejection>) {
    if !OneStatement(ts) then r == Some(MultiStatement)
    else if StartsWithAllowedVerb(policy, ts, mode).Some? then r == StartsWithAllowedVerb(policy, ts, mode)
    else if NoBannedCall(policy, ts) then r == None
    else
      exists i: nat :: BannedCallAt(policy, ts, i) && r == Some(Banned(ts[i].text))
                       && forall j: nat | j < i :: !BannedCallAt(policy, ts, j)
  }

  /** The rules together, on the tokens. */
  lemma PassesIff(policy: Policy, ts: seq<Token>, mode: Mode)
    ensures Passes(policy, ts, mode) <==>
              && (forall i, j | 0 <= i < j < |ts| && ts[i] == Semicolon :: ts[j] == Semicolon)
              && (exists i :: 0 <= i < |ts| && ts[i].Word? && (forall j | 0 <= j < i :: !ts[j].Word?)
                              && Lower(ts[i].text) != "copy"
                              && (Lower(ts[i].text) in policy.readonlyVerbs
                                  || (mode == Writable && Lower(ts[i].text) in policy.writeVerbs)))
              && (forall i, k | 0 <= i < |ts| && k == i + 1 < |ts| && ts[k] == LParen
                                && (ts[i].Word? || ts[i].QuotedIdent?) ::
                    Lower(Leaf(ts[i].text)) !in policy.banned)
  {
    forall i | 0 <= i < |ts| && ts[i].Word? && forall j | 0 <= j < i :: !ts[j].Word?
      ensures FirstWord(ts) == Some(ts[i].text)
    {
      FirstWordIff(ts, ts[i].text);
    }
    if FirstWord(ts).Some? {
      FirstWordIff(ts, FirstWord(ts).value);
    }
    assert forall i: nat | i + 1 < |ts| :: BannedCallAt(policy, ts, i) <==> BannedCall(policy, ts[i], ts[i + 1]);
  }

  /** Which rejection it is: the first in this order. */
  lemma RejectionIs(policy: Policy, ts: seq<Token>, mode: Mode, r: Option<Rejection>)
    requires IsVerdict(policy, ts, mode, r)
    ensures r == Some(MultiStatement) <==> exists i, j :: 0 <= i < j < |ts| && ts[i] == Semicolon && ts[j] != Semicolon
    ensures r == Some(NoVerb) ==> forall i | 0 <= i < |ts| :: !ts[i].Word?
    ensures r == Some(CopyNotPermitted) ==>
              exists i :: 0 <= i < |ts| && ts[i].Word? && (forall j | 0 <= j < i :: !ts[j].Word?)
                          && Lower(ts[i].text) == "copy"
    ensures r.Some? && r.value.VerbNotAllowed? ==>
              exists i :: 0 <= i < |ts| && ts[i] == Word(r.value.verb) && (forall j | 0 <= j < i :: !ts[j].Word?)
                          && Lower(ts[i].text) !in policy.readonlyVerbs
                          && (mode == Writable ==> Lower(ts[i].text) !in policy.writeVerbs)
    ensures r.Some? && r.value.Banned? ==>
              exists i, k :: 0 <= i < k < |ts| && k == i + 1 && ts[k] == LParen && Lower(Leaf(r.value.name)) in policy.banned
                             && (ts[i] == Word(r.value.name) || ts[i] == QuotedIdent(r.value.name))
  {
    if FirstWord(ts).Some? {
      FirstWordIff(ts, FirstWord(ts).value);
    } else {
      FirstWordIff(ts, "");
    }
    if r.Some? && r.value.Banned? {
      var i: nat :| BannedCallAt(policy, ts, i) && r == Some(Banned(ts[i].text));
      assert ts[i + 1] == LParen;
    }
  }

  /** The token rules in the order of the fallback path. */
  method CheckWith(policy: Policy, bytes: string, mode: Mode) returns (r: Option<Rejection>)
    ensures IsVerdict(policy, Lex(bytes), mode, r)
    ensures r.None? <==> Passes(policy, Lex(bytes), mode)
    ensures r.None? <==>
              var ts := Lex(bytes);
              && (forall i, j | 0 <= i < j < |ts| && ts[i] == Semicolon :: ts[j] == Semicolon)
              && (exists i :: 0 <= i < |ts| && ts[i].Word? && (forall j | 0 <= j < i :: !ts[j].Word?)
                              && Lower(ts[i].text) != "copy"
                              && (Lower(ts[i].text) in policy.readonlyVerbs
                                  || (mode == Writable && Lower(ts[i].text) in policy.writeVerbs)))
              && (forall i, k | 0 <= i < |ts| && k == i + 1 < |ts| && ts[k] == LParen
                                && (ts[i].Word? || ts[i].QuotedIdent?) ::
                    Lower(Leaf(ts[i].text)) !in policy.banned)
  {
    var ts := Tokenize(bytes);
    PassesIff(policy, ts, mode);
    r := SingleStatement(ts);
    if r.None? {
      r := StartsWithAllowedVerb(policy, ts, mode);
    }
    if r.None? {
      r := NoBannedFunctions(policy, ts);
    }
  }

  method Check(bytes: string, mode: Mode) returns (r: Option<Rejection>)
    ensures IsVerdict(STANDARD, Lex(bytes), mode, r)
    ensures r.None? <==> Passes(STANDARD, Lex(bytes), mode)
    ensures r.None? <==>
              var ts := Lex(bytes);
              && (forall i, j | 0 <= i < j < |ts| && ts[i] == Semicolon :: ts[j] == Semicolon)
              && (exists i :: 0 <= i < |ts| && ts[i].Word? && (forall j | 0 <= j < i :: !ts[j].Word?)
                              && Lower(ts[i].text) != "copy"
                              && (Lower(ts[i].text) in STANDARD.readonlyVerbs
                                  || (mode == Writable && Lower(ts[i].text) in STANDARD.writeVerbs)))
              && (forall i, k | 0 <= i < |ts| && k == i + 1 < |ts| && ts[k] == LParen
                                && (ts[i].Word? || ts[i].QuotedIdent?) ::
                    Lower(Leaf(ts[i].text)) !in STANDARD.banned)
  {
    r := CheckWith(STANDARD, bytes, mode);
  }

  /** What a closed literal or comment contains never changes the verdict. */
  lemma VerdictIgnoresContents(policy: Policy, p: string, a: Piece, b: Piece, r: string, mode: Mode)
    requires ClosedPiece(a) && ClosedPiece(b) && Trace(a) == Trace(b)
    requires (a.Quoted? || b.Quoted?) ==> r == "" || r[0] != '\''
    requires Clean(p, Opener(a)) && Clean(p, Opener(b))
    ensures Lex(p + Text(a) + r) == Lex(p + Text(b) + r)
    ensures Passes(policy, Lex(p + Text(a) + r), mode) <==> Passes(policy, Lex(p + Text(b) + r), mode)
  {
    ContentsAreOpaque(p, a, r);
    ContentsAreOpaque(p, b, r);
  }

  /** A comment where the text could be cut is as good as nothing, for instance before a parenthesis. */
  lemma VerdictIgnoresComments(policy: Policy, p: string, c: Piece, r: string, mode: Mode)
    requires ClosedPiece(c) && (c.Line? || c.Block?)
    requires Clean(p, Opener(c)) && r != "" && !IsTagChar(r[0]) && Clean(p, r[0])
    ensures Lex(p + Text(c) + r) == Lex(p + r)
    ensures Passes(policy, Lex(p + Text(c) + r), mode) <==> Passes(policy, Lex(p + r), mode)
  {
    ContentsAreOpaque(p, c, r);
    LexOfCut(p, r);
    NothingBetween(Lex(p), Trace(c), Lex(r));
  }

  lemma NothingBetween<T>(a: seq<T>, nothing: seq<T>, b: seq<T>)
    requires nothing == []
    ensures a + nothing + b == a + b
  {
  }

  // ----- Case ---------------------------------------------------------------------------

  function LowerToken(t: Token): Token {
    match t
    case Word(w) => Word(Lower(w))
    case QuotedIdent(w) => QuotedIdent(Lower(w))
    case _ => t
  }

  function LowerAll(ts: seq<Token>): (us: seq<Token>)
    ensures |us| == |ts| && forall i | 0 <= i < |ts| :: us[i] == LowerToken(ts[i])
  {
    seq(|ts|, i requires 0 <= i < |ts| => LowerToken(ts[i]))
  }

  lemma LowerOfAppend(init: string, c: char)
    ensures Lower(init + [c]) == Lower(init) + [LowerChar(c)]
  {
    assert (init + [c])[..|init|] == init;
  }

  /** Capitals become the small letter at the same place of the alphabet; nothing else changes. */
  lemma LowerLetters(s: string, i: nat)
    requires i < |s|
    ensures |Lower(s)| == |s|
    ensures var capitals, smalls := "ABCDEFGHIJKLMNOPQRSTUVWXYZ", "abcdefghijklmnopqrstuvwxyz";
      if s[i] in capitals then exists k :: 0 <= k < 26 && s[i] == capitals[k] && Lower(s)[i] == smalls[k]
      else Lower(s)[i] == s[i]
  {
    LowerAt(s, i);
    var capitals, smalls := "ABCDEFGHIJKLMNOPQRSTUVWXYZ", "abcdefghijklmnopqrstuvwxyz";
    if 'A' <= s[i] <= 'Z' {
      var k := s[i] as int - 65;
      assert capitals[k] == s[i] && smalls[k] == LowerChar(s[i]);
    }
  }

  lemma {:induction false} LowerAt(s: string, i: nat)
    requires i < |s|
    ensures Lower(s)[i] == LowerChar(s[i])
  {
    if i < |s| - 1 { LowerAt(s[..|s| - 1], i); }
  }

  lemma {:induction false} LowerTwice(s: string)
    ensures Lower(Lower(s)) == Lower(s)
  {
    if s != "" {
      var init, c := s[..|s| - 1], s[|s| - 1];
      LowerTwice(init);
      assert s == init + [c];
      LowerOfAppend(init, c);
      LowerOfAppend(Lower(init), LowerChar(c));
    }
  }

  lemma {:induction false} LeafOfLower(name: string)
    ensures Leaf(Lower(name)) == Lower(Leaf(name))
  {
    if name != "" {
      var init, c := name[..|name| - 1], name[|name| - 1];
      LeafOfLower(init);
      assert name == init + [c];
      LowerOfAppend(init, c);
      LeafOfAppend(init, c);
      LeafOfAppend(Lower(init), LowerChar(c));
      LowerOfAppend(Leaf(init), c);
    }
  }

  lemma {:induction false} FirstWordOfLower(ts: seq<Token>)
    ensures FirstWord(LowerAll(ts)) == match FirstWord(ts) case None => None case Some(w) => Some(Lower(w))
  {
    if ts != [] {
      assert LowerAll(ts)[1..] == LowerAll(ts[1..]);
      FirstWordOfLower(ts[1..]);
    }
  }

  lemma BannedNameOfLower(policy: Policy, name: string)
    ensures BannedName(policy, Lower(name)) <==> BannedName(policy, name)
  {
    LeafOfLower(name);
    LowerTwice(Leaf(name));
  }

  lemma BannedPairOfLower(policy: Policy, name: Token, next: Token)
    ensures BannedCall(policy, LowerToken(name), LowerToken(next)) <==> BannedCall(policy, name, next)
  {
    if Named(name) {
      BannedNameOfLower(policy, name.text);
    }
  }

  lemma BannedCallOfLower(policy: Policy, ts: seq<Token>, i: nat)
    ensures BannedCallAt(policy, LowerAll(ts), i) <==> BannedCallAt(policy, ts, i)
  {
    if i + 1 < |ts| {
      BannedPairOfLower(policy, ts[i], ts[i + 1]);
    }
  }

  lemma OneStatementOfLower(ts: seq<Token>)
    ensures OneStatement(LowerAll(ts)) <==> OneStatement(ts)
  {
    assert forall i | 0 <= i < |ts| :: LowerAll(ts)[i].Semicolon? <==> ts[i].Semicolon?;
  }

  /** The letter case of tokens never changes the verdict. */
  lemma VerdictIgnoresCase(policy: Policy, ts: seq<Token>, mode: Mode)
    ensures Passes(policy, LowerAll(ts), mode) <==> Passes(policy, ts, mode)
  {
    FirstWordOfLower(ts);
    if FirstWord(ts).Some? {
      LowerTwice(FirstWord(ts).value);
    }
    forall i: nat ensures BannedCallAt(policy, LowerAll(ts), i) <==> BannedCallAt(policy, ts, i) {
      BannedCallOfLower(policy, ts, i);
    }
    OneStatementOfLower(ts);
  }
}
