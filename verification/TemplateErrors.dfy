/** Which templates and arguments are refused, and with what; and what is bound for an argument. */
module TemplateErrors {
  import opened Common
  import opened TemplatePlan
  import opened TemplateMeaning

  // ----- Keys -----------------------------------------------------------------------

  predicate AllWhite(s: string) { forall i | 0 <= i < |s| :: IsWhite(s[i]) }

  /** Trimming takes white space off both ends and nothing else. */
  lemma {:induction false} TrimTakesWhite(s: string, t: string) returns (before: string, after: string)
    requires t == Trim(s)
    ensures s == before + t + after && AllWhite(before) && AllWhite(after)
    decreases |s|
  {
    if s == t {
      before, after := "", "";
    } else if IsWhite(s[0]) {
      var rest;
      rest, after := TrimTakesWhite(s[1..], t);
      before := [s[0]] + rest;
      OneInFront(s[0], rest, t, after, s[1..]);
    } else {
      var rest, last := "", s[|s| - 1];
      before, rest := TrimTakesWhite(s[..|s| - 1], t);
      after := rest + [last];
      OneBehind(before, t, rest, last, s[..|s| - 1]);
    }
  }

  lemma OneInFront(c: char, a: string, t: string, b: string, s: string)
    requires s == a + t + b
    ensures [c] + s == ([c] + a) + t + b
    ensures IsWhite(c) && AllWhite(a) ==> AllWhite([c] + a)
  {
  }

  lemma OneBehind(a: string, t: string, b: string, c: char, s: string)
    requires s == a + t + b
    ensures s + [c] == a + t + (b + [c])
    ensures IsWhite(c) && AllWhite(b) ==> AllWhite(b + [c])
  {
  }

  // ----- Templates that do not parse ---------------------------------------------------

  predicate PairAt(s: string, c: char, i: nat) { i + 1 < |s| && s[i] == c && s[i + 1] == c }

  /** `c` stands twice at `at` and nowhere before. */
  ghost predicate FirstPair(s: string, c: char, at: nat) {
    PairAt(s, c, at) && forall i: nat | i < at :: !PairAt(s, c, i)
  }

  ghost predicate NoPair(s: string, c: char) { forall i: nat :: !PairAt(s, c, i) }

  /** The text opens a hole, at the first pair of braces, and never closes it. */
  ghost predicate OpensForGood(s: string) {
    exists at: nat :: FirstPair(s, '{', at) && NoPair(s[at + 2..], '}')
  }

  ghost predicate BlankBeforePair(s: string) { exists close: nat :: FirstPair(s, '}', close) && AllWhite(s[..close]) }

  /** The first hole of the text has nothing but white space in it. */
  ghost predicate OpensBlank(s: string) { exists at: nat :: FirstPair(s, '{', at) && BlankBeforePair(s[at + 2..]) }

  lemma PairFound(s: string, c: char)
    ensures match FindPair(s, c) case Some(at) => FirstPair(s, c, at) case None => NoPair(s, c)
  {
  }

  lemma BlankKey(raw: string)
    ensures Key(raw) == "" <==> AllWhite(raw)
  {
    var before, after := TrimTakesWhite(raw, Trim(raw));
    if Trim(raw) == "" {
      assert forall i | 0 <= i < |raw| :: raw[i] == if i < |before| then before[i] else after[i - |before|];
    } else {
      assert raw[|before|] == Trim(raw)[0];
    }
  }

  lemma FirstPairOnce(s: string, c: char, a: nat, b: nat)
    requires FirstPair(s, c, a) && FirstPair(s, c, b)
    ensures a == b
  {
  }

  lemma ClosingIs(after: string)
    ensures match FindPair(after, '}')
            case None => NoPair(after, '}') && !BlankBeforePair(after)
            case Some(close) => !NoPair(after, '}') && (Key(after[..close]) == "" <==> BlankBeforePair(after))
  {
    PairFound(after, '}');
    if FindPair(after, '}').Some? {
      var close := FindPair(after, '}').value;
      BlankKey(after[..close]);
      forall b: nat | FirstPair(after, '}', b) ensures b == close { FirstPairOnce(after, '}', close, b); }
    }
  }

  /** What the scan finds in the rest of a template. */
  lemma NextHoleIs(s: string)
    ensures NextHole(s).NoHole? <==> NoPair(s, '{')
    ensures NextHole(s) == Bad(Unterminated) <==> OpensForGood(s)
    ensures NextHole(s) == Bad(EmptyPlaceholder) <==> OpensBlank(s)
  {
    PairFound(s, '{');
    if FindPair(s, '{').Some? {
      var at := FindPair(s, '{').value;
      ClosingIs(s[at + 2..]);
      forall b: nat | FirstPair(s, '{', b) ensures b == at { FirstPairOnce(s, '{', at, b); }
    }
  }

  /** A parsed template has no hole in its last literal, and each piece ends at the first pair of braces after it. */
  ghost predicate Proper(pieces: seq<Piece>)
    decreases |pieces|
  {
    match |pieces|
    case 0 => true
    case 1 => pieces[0].Lit? && NoPair(pieces[0].text, '{')
    case _ =>
      && pieces[0].Lit? && pieces[1].Hole? && !AllWhite(pieces[1].raw)
      && FirstPair(pieces[0].text + "{{", '{', |pieces[0].text|)
      && FirstPair(pieces[1].raw + "}}", '}', |pieces[1].raw|)
      && Proper(pieces[2..])
  }

  lemma PairInPrefix(s: string, c: char, at: nat, pair: string)
    requires FirstPair(s, c, at) && pair == [c, c]
    ensures FirstPair(s[..at] + pair, c, at)
  {
    var p := s[..at] + pair;
    assert p == s[..at + 2];
    forall i: nat | i < at ensures !PairAt(p, c, i) { assert !PairAt(s, c, i); }
  }

  /** The pieces of a template that parses, and, after some proper pieces, the first bad hole of one that does not. */
  lemma {:induction false} ParseIsExact(template: string) returns (before: seq<Piece>, rest: string)
    ensures Parse(template).Ok? ==> Proper(Parse(template).value) && Source(Parse(template).value) == template
    ensures Parse(template).Err? ==> template == Source(before) + rest
    ensures Parse(template) == Err(Unterminated) <==> Parse(template).Err? && OpensForGood(rest)
    ensures Parse(template) == Err(EmptyPlaceholder) <==> Parse(template).Err? && OpensBlank(rest)
    ensures Parse(template).Err? ==> Parse(template).error in {Unterminated, EmptyPlaceholder}
    decreases |template|
  {
    before, rest := [], template;
    NextHoleIs(template);
    match NextHole(template)
    case NoHole => ParseIsFaithful(template);
    case Bad(_) => assert Source([]) + template == template;
    case Found(lit, raw, tail) =>
      var inner, left := ParseIsExact(tail);
      HoleIsFaithful(template, NextHole(template));
      if Parse(tail).Ok? {
        ParseIsFaithful(template);
        FoundIsProper(template, lit, raw, tail, Parse(tail).value);
      } else {
        before, rest := [Lit(lit), Hole(raw)] + inner, left;
        SourceOfTwo(lit, raw, inner);
        SourceGoesOn(lit, raw, Source(inner), left);
      }
  }

  lemma SourceGoesOn(lit: string, raw: string, source: string, left: string)
    ensures lit + ("{{" + (raw + ("}}" + (source + left)))) == lit + ("{{" + (raw + ("}}" + source))) + left
  {
  }

  lemma FoundIsProper(s: string, lit: string, raw: string, tail: string, pieces: seq<Piece>)
    requires NextHole(s) == Found(lit, raw, tail) && Proper(pieces) && pieces != []
    ensures Proper([Lit(lit), Hole(raw)] + pieces)
  {
    HoleIndices(s, NextHole(s));
    var after := s[|lit| + 2..];
    PairFound(s, '{');
    PairFound(after, '}');
    PairInPrefix(s, '{', |lit|, "{{");
    PairInPrefix(after, '}', |raw|, "}}");
    BlankKey(raw);
    assert ([Lit(lit), Hole(raw)] + pieces)[2..] == pieces;
  }

  // ----- Arguments that are missing -------------------------------------------------------

  lemma {:induction false} FirstMissingIs(order: seq<string>, fields: map<string, Json>)
    ensures match FirstMissing(order, fields)
            case None => forall k | 0 <= k < |order| :: order[k] in fields
            case Some(key) =>
              exists k :: 0 <= k < |order| && order[k] == key && key !in fields && forall j | 0 <= j < k :: order[j] in fields
  {
    if order != [] && order[0] in fields {
      FirstMissingIs(order[1..], fields);
      if FirstMissing(order[1..], fields).Some? {
        var k :| 0 <= k < |order| - 1 && order[1..][k] == FirstMissing(order, fields).value
                 && forall j | 0 <= j < k :: order[1..][j] in fields;
        assert order[k + 1] == FirstMissing(order, fields).value;
        forall j | 0 <= j < k + 1 ensures order[j] in fields { assert j > 0 ==> order[j] == order[1..][j - 1]; }
      }
    }
  }

  /** The `i`-th piece is the first hole that has no argument. */
  ghost predicate FirstUnfilled(pieces: seq<Piece>, fields: map<string, Json>, i: nat) {
    && i < |pieces| && pieces[i].Hole? && Key(pieces[i].raw) !in fields
    && forall j | 0 <= j < i && pieces[j].Hole? :: Key(pieces[j].raw) in fields
  }

  /** A template that parses is refused exactly for the first hole, in the text, whose key is no argument. */
  lemma MissingArgumentIff(template: string, fields: map<string, Json>, key: string, pieces: seq<Piece>)
    requires Parse(template) == Ok(pieces)
    ensures PlanForObject(template, fields) == Err(MissingArgument(key)) <==>
              exists i: nat :: FirstUnfilled(pieces, fields, i) && Key(pieces[i].raw) == key
    ensures PlanForObject(template, fields).Ok? <==> forall i: nat :: !FirstUnfilled(pieces, fields, i)
  {
    var order := KeysFrom([], pieces);
    var found := FirstUnfilledIs(pieces, fields, order);
    if found.Some? {
      forall i: nat | FirstUnfilled(pieces, fields, i) ensures i == found.value {
        UnfilledOnce(pieces, fields, i, found.value);
      }
    }
  }

  lemma UnfilledOnce(pieces: seq<Piece>, fields: map<string, Json>, i: nat, j: nat)
    requires FirstUnfilled(pieces, fields, i) && FirstUnfilled(pieces, fields, j)
    ensures i == j
  {
  }

  /** The first key without an argument is that of the first hole without one. */
  lemma FirstUnfilledIs(pieces: seq<Piece>, fields: map<string, Json>, order: seq<string>) returns (found: Option<nat>)
    requires order == KeysFrom([], pieces)
    ensures match found
            case None => FirstMissing(order, fields) == None && forall i: nat :: !FirstUnfilled(pieces, fields, i)
            case Some(i) => FirstUnfilled(pieces, fields, i) && FirstMissing(order, fields) == Some(Key(pieces[i].raw))
  {
    KeysAreCollected([], pieces);
    var at := KeysInOrder([], [], pieces, []);
    assert [] + pieces == pieces;
    FirstMissingIs(order, fields);
    if FirstMissing(order, fields).Some? {
      var k :| 0 <= k < |order| && order[k] == FirstMissing(order, fields).value && order[k] !in fields
               && forall j | 0 <= j < k :: order[j] in fields;
      UnfilledAt(order, pieces, at, fields, k);
      found := Some(at[k]);
    } else {
      AllFilled(order, pieces, fields);
      found := None;
    }
  }

  lemma AllFilled(order: seq<string>, pieces: seq<Piece>, fields: map<string, Json>)
    requires KeysIn(pieces, order) && forall k | 0 <= k < |order| :: order[k] in fields
    ensures forall i: nat :: !FirstUnfilled(pieces, fields, i)
  {
    forall i | 0 <= i < |pieces| && pieces[i].Hole? ensures Key(pieces[i].raw) in fields {
      var m :| 0 <= m < |order| && order[m] == Key(pieces[i].raw);
    }
  }

  lemma UnfilledAt(order: seq<string>, pieces: seq<Piece>, at: seq<nat>, fields: map<string, Json>, k: nat)
    requires FirstUses(order, pieces, at) && KeysIn(pieces, order) && k < |order|
    requires order[k] !in fields && forall j | 0 <= j < k :: order[j] in fields
    ensures FirstUnfilled(pieces, fields, at[k]) && Key(pieces[at[k]].raw) == order[k]
  {
    forall j | 0 <= j < at[k] && pieces[j].Hole?
      ensures Key(pieces[j].raw) in fields
    {
      var m :| 0 <= m < |order| && order[m] == Key(pieces[j].raw);
      assert at[m] <= j;
      Earlier(order, pieces, at, m, k);
    }
  }

  lemma Earlier(order: seq<string>, pieces: seq<Piece>, at: seq<nat>, m: nat, k: nat)
    requires FirstUses(order, pieces, at) && m < |at| && k < |at| && at[m] < at[k]
    ensures m < k
  {
  }

  /** Arguments that are no object are refused exactly when the template opens a hole; otherwise it is taken as it is. */
  lemma NonObjectIff(template: string, args: Json)
    requires !args.JObject?
    ensures PlanFor(template, args) == if exists i: nat :: PairAt(template, '{', i)
                                       then Err(NonObjectArguments) else Ok(Plan(template, []))
  {
    PairFound(template, '{');
  }

  // ----- What is bound for an argument ------------------------------------------------------

  /** The value bound for each kind of argument: a number as an integer if it is one, else as a float, else as its text. */
  ghost predicate BoundAs(v: Json, b: Bound) {
    && (v.JNull? ==> b == Null)
    && (v.JBool? ==> b == Bool(v.b))
    && (v.JNumber? && v.asI64.Some? ==> b == Int(v.asI64.value))
    && (v.JNumber? && v.asI64.None? && v.asF64.Some? ==> b == Float(v.asF64.value))
    && (v.JNumber? && v.asI64.None? && v.asF64.None? ==> b == Text(v.lexeme))
    && (v.JString? ==> b == Text(v.s))
    && (v.JArray? ==> b == Jsonb(v.text))
    && (v.JObject? ==> b == Jsonb(v.text))
  }

  /**
   Every hole of a plan stands for the value bound for the argument it names, whose
   parameter is `$2` or later; composites, and they alone, are cast.
   */
  lemma ArgumentsAreBound(template: string, fields: map<string, Json>, plan: Plan)
    returns (pieces: seq<Piece>, segments: seq<Segment>)
    requires PlanForObject(template, fields) == Ok(plan)
    ensures Parse(template) == Ok(pieces) && |segments| == |pieces| && plan.rewritten == Flatten(segments)
    ensures forall i | 0 <= i < |pieces| && pieces[i].Lit? :: segments[i] == SqlText(pieces[i].text)
    ensures forall i | 0 <= i < |pieces| && pieces[i].Hole? ::
              var key := Key(pieces[i].raw);
              && segments[i].Param? && 2 <= segments[i].n < |plan.bindings| + 2 && key in fields
              && BoundAs(fields[key], plan.bindings[segments[i].n - 2])
              && (segments[i].cast <==> fields[key].JArray? || fields[key].JObject?)
  {
    pieces, segments := SegmentsAreFaithful(template, fields, plan);
    forall i | 0 <= i < |pieces| && pieces[i].Hole?
      ensures
        var key := Key(pieces[i].raw);
        && segments[i].Param? && 2 <= segments[i].n < |plan.bindings| + 2 && key in fields
        && BoundAs(fields[key], plan.bindings[segments[i].n - 2])
        && (segments[i].cast <==> fields[key].JArray? || fields[key].JObject?)
    {
      assert Faithful(pieces[i], segments[i], fields, plan.bindings);
    }
    forall i | 0 <= i < |pieces| && pieces[i].Lit?
      ensures segments[i] == SqlText(pieces[i].text)
    {
      assert Faithful(pieces[i], segments[i], fields, plan.bindings);
    }
  }
}
