/**
 User-defined tools: the body of a tool is a template whose `{{key}}` holes
 become numbered SQL parameters, and whose arguments become bind values.
 */
module TemplatePlan {
  import opened Common

  // ----- Arguments and bind values ---------------------------------------------

  /** A JSON value; composites carry their serialised text, numbers what their accessors answer. */
  datatype Json =
    | JNull
    | JBool(b: bool)
    | JNumber(lexeme: string, asI64: Option<int>, asF64: Option<real>)
    | JString(s: string)
    | JArray(text: string)
    | JObject(text: string, fields: map<string, Json>)

  datatype Bound =
    | Text(s: string)
    | Int(i: int)
    | Float(f: real)
    | Bool(b: bool)
    | Null
    | Jsonb(text: string)

  function JsonToBound(v: Json): (b: Bound)
    ensures b.Jsonb? <==> v.JArray? || v.JObject?
  {
    match v
    case JNull => Null
    case JBool(b) => Bool(b)
    case JNumber(lexeme, asI64, asF64) =>
      if asI64.Some? then Int(asI64.value) else if asF64.Some? then Float(asF64.value) else Text(lexeme)
    case JString(s) => Text(s)
    case JArray(text) => Jsonb(text)
    case JObject(text, _) => Jsonb(text)
  }

  datatype Plan = Plan(rewritten: string, bindings: seq<Bound>)

  datatype PlanError = NonObjectArguments | Unterminated | EmptyPlaceholder | MissingArgument(key: string)

  // ----- Text --------------------------------------------------------------------

  function Trim(s: string): (t: string)
    ensures t != "" ==> !IsWhite(t[0]) && !IsWhite(t[|t| - 1])
    decreases |s|
  {
    if s == "" then ""
    else if IsWhite(s[0]) then Trim(s[1..])
    else if IsWhite(s[|s| - 1]) then Trim(s[..|s| - 1])
    else s
  }

  /** The first place where `c` stands twice in a row: `find("{{")`, `find("}}")`. */
  function FindPair(s: string, c: char): (at: Option<nat>)
    ensures at.Some? ==> at.value + 2 <= |s| && s[at.value] == c && s[at.value + 1] == c
    ensures at.Some? ==> forall i | 0 <= i < at.value :: !(s[i] == c && s[i + 1] == c)
    ensures at.None? ==> forall i | 0 <= i < |s| - 1 :: !(s[i] == c && s[i + 1] == c)
  {
    if |s| < 2 then None
    else if s[0] == c && s[1] == c then Some(0)
    else match FindPair(s[1..], c) case None => None case Some(i) => Some(i + 1)
  }

  // ----- The template as pieces ------------------------------------------------------

  /** Literal text, or a hole with what is written between its braces. */
  datatype Piece = Lit(text: string) | Hole(raw: string)

  function Key(raw: string): string { Trim(raw) }

  /** The next hole of `s`: the text before it, what is between its braces, and what is left. */
  datatype Scan = NoHole | Bad(error: PlanError) | Found(lit: string, raw: string, rest: string)

  function NextHole(s: string): (h: Scan)
    ensures h.Found? ==> |h.rest| < |s|
    ensures h.Found? ==> Key(h.raw) != ""
  {
    match FindPair(s, '{')
    case None => NoHole
    case Some(open) =>
      var after := s[open + 2..];
      match FindPair(after, '}')
      case None => Bad(Unterminated)
      case Some(close) =>
        if Key(after[..close]) == "" then Bad(EmptyPlaceholder)
        else Found(s[..open], after[..close], after[close + 2..])
  }

  lemma SplitAtPair(s: string, at: nat, pair: string)
    requires |pair| == 2 && at + 2 <= |s| && s[at] == pair[0] && s[at + 1] == pair[1]
    ensures s == s[..at] + (pair + s[at + 2..])
  {
  }

  lemma HoleIndices(s: string, h: Scan)
    requires h == NextHole(s) && h.Found?
    ensures |h.lit| + 2 <= |s| && s[|h.lit|] == '{' && s[|h.lit| + 1] == '{' && h.lit == s[..|h.lit|]
    ensures var after := s[|h.lit| + 2..];
            && |h.raw| + 2 <= |after| && after[|h.raw|] == '}' && after[|h.raw| + 1] == '}'
            && h.raw == after[..|h.raw|] && h.rest == after[|h.raw| + 2..]
  {
  }

  lemma HoleIsFaithful(s: string, h: Scan)
    requires h == NextHole(s) && h.Found?
    ensures s == h.lit + ("{{" + (h.raw + ("}}" + h.rest)))
  {
    HoleIndices(s, h);
    var after := s[|h.lit| + 2..];
    assert s == h.lit + ("{{" + after) by { SplitAtPair(s, |h.lit|, "{{"); }
    assert after == h.raw + ("}}" + h.rest) by { SplitAtPair(after, |h.raw|, "}}"); }
  }

  function Parse(template: string): Result<seq<Piece>, PlanError>
    decreases |template|
  {
    match NextHole(template)
    case NoHole => Ok([Lit(template)])
    case Bad(e) => Err(e)
    case Found(lit, raw, rest) =>
      match Parse(rest)
      case Err(e) => Err(e)
      case Ok(pieces) => Ok([Lit(lit), Hole(raw)] + pieces)
  }

  /** The text the pieces were read from. */
  function Source(pieces: seq<Piece>): string {
    if pieces == [] then ""
    else
      match pieces[0]
      case Lit(t) => t + Source(pieces[1..])
      case Hole(raw) => "{{" + (raw + ("}}" + Source(pieces[1..])))
  }

  /** Parsing loses nothing of the template. */
  lemma {:induction false} ParseIsFaithful(template: string)
    requires Parse(template).Ok?
    ensures Source(Parse(template).value) == template
    decreases |template|
  {
    match NextHole(template)
    case NoHole => SourceOfOne(template);
    case Found(lit, raw, rest) =>
      HoleIsFaithful(template, NextHole(template));
      ParseIsFaithful(rest);
      SourceOfTwo(lit, raw, Parse(rest).value);
  }

  lemma SourceOfOne(text: string)
    ensures Source([Lit(text)]) == text
  {
    assert [Lit(text)][1..] == [] && text + "" == text;
  }

  lemma SourceOfTwo(lit: string, raw: string, pieces: seq<Piece>)
    ensures Source([Lit(lit), Hole(raw)] + pieces) == lit + ("{{" + (raw + ("}}" + Source(pieces))))
  {
    var ps := [Lit(lit), Hole(raw)] + pieces;
    assert ps[1..] == [Hole(raw)] + pieces && ps[1..][1..] == pieces;
  }

  function AddKey(order: seq<string>, key: string): seq<string> {
    if key in order then order else order + [key]
  }

  /** Keys in the order in which they first appear, after those of `order`. */
  function KeysFrom(order: seq<string>, pieces: seq<Piece>): seq<string>
    decreases |pieces|
  {
    if pieces == [] then order
    else if pieces[0].Lit? then KeysFrom(order, pieces[1..])
    else KeysFrom(AddKey(order, Key(pieces[0].raw)), pieces[1..])
  }

  function IndexOf(order: seq<string>, key: string): (i: nat)
    requires key in order
    ensures i < |order| && order[i] == key && key !in order[..i]
  {
    if order[0] == key then 0 else 1 + IndexOf(order[1..], key)
  }

  function FirstMissing(order: seq<string>, fields: map<string, Json>): (missing: Option<string>)
    ensures missing.None? <==> forall i | 0 <= i < |order| :: order[i] in fields
  {
    if order == [] then None
    else if order[0] !in fields then Some(order[0])
    else FirstMissing(order[1..], fields)
  }

  function Bindings(order: seq<string>, fields: map<string, Json>): (bs: seq<Bound>)
    requires forall i | 0 <= i < |order| :: order[i] in fields
    ensures |bs| == |order| && forall i | 0 <= i < |order| :: bs[i] == JsonToBound(fields[order[i]])
  {
    seq(|order|, i requires 0 <= i < |order| => JsonToBound(fields[order[i]]))
  }

  // ----- The rewritten statement as segments ------------------------------------------

  datatype Segment = SqlText(text: string) | Param(n: nat, cast: bool)

  function Rendered(g: Segment): string {
    match g
    case SqlText(t) => t
    case Param(n, cast) => if cast then "($" + Digits(n) + "::jsonb)" else "$" + Digits(n)
  }

  function Flatten(segments: seq<Segment>): string {
    if segments == [] then "" else Rendered(segments[0]) + Flatten(segments[1..])
  }

  predicate KeysIn(pieces: seq<Piece>, order: seq<string>) {
    forall i | 0 <= i < |pieces| :: pieces[i].Hole? ==> Key(pieces[i].raw) in order
  }

  function SegmentOf(p: Piece, order: seq<string>, bindings: seq<Bound>): Segment
    requires (p.Hole? ==> Key(p.raw) in order) && |bindings| == |order|
  {
    match p
    case Lit(t) => SqlText(t)
    case Hole(raw) =>
      var i := IndexOf(order, Key(raw));
      Param(i + 2, bindings[i].Jsonb?)
  }

  function Segments(pieces: seq<Piece>, order: seq<string>, bindings: seq<Bound>): (gs: seq<Segment>)
    requires KeysIn(pieces, order) && |bindings| == |order|
    ensures |gs| == |pieces|
    ensures forall i | 0 <= i < |pieces| :: gs[i] == SegmentOf(pieces[i], order, bindings)
  {
    if pieces == [] then [] else [SegmentOf(pieces[0], order, bindings)] + Segments(pieces[1..], order, bindings)
  }

  lemma {:induction false} KeysAreCollected(order: seq<string>, pieces: seq<Piece>)
    ensures KeysIn(pieces, KeysFrom(order, pieces))
    ensures forall k | k in order :: k in KeysFrom(order, pieces)
    decreases |pieces|
  {
    if pieces != [] {
      var next := if pieces[0].Lit? then order else AddKey(order, Key(pieces[0].raw));
      KeysAreCollected(next, pieces[1..]);
      forall i | 0 <= i < |pieces| && pieces[i].Hole?
        ensures Key(pieces[i].raw) in KeysFrom(order, pieces)
      {
        if i > 0 { assert pieces[i] == pieces[1..][i - 1]; }
      }
    }
  }

  // ----- What the plan is ---------------------------------------------------------------

  function PlanForObject(template: string, fields: map<string, Json>): Result<Plan, PlanError> {
    match Parse(template)
    case Err(e) => Err(e)
    case Ok(pieces) =>
      var order := KeysFrom([], pieces);
      match FirstMissing(order, fields)
      case Some(key) => Err(MissingArgument(key))
      case None =>
        KeysAreCollected([], pieces);
        var bindings := Bindings(order, fields);
        Ok(Plan(Flatten(Segments(pieces, order, bindings)), bindings))
  }

  function PlanFor(template: string, args: Json): Result<Plan, PlanError> {
    if args.JObject? then PlanForObject(template, args.fields)
    else if FindPair(template, '{').Some? then Err(NonObjectArguments)
    else Ok(Plan(template, []))
  }

  // ----- The two passes ------------------------------------------------------------------

  lemma HolePosition(s: string, h: Scan)
    requires h == NextHole(s) && h.Found?
    ensures |h.lit| + |h.raw| + 4 <= |s| && s[|h.lit| + |h.raw| + 4..] == h.rest
  {
    DropDrop(s, |h.lit| + 2, |h.raw| + 2);
  }

  /** The next hole after `cursor`, and the index just past it. */
  method HoleAt(template: string, cursor: nat) returns (h: Scan, next: nat)
    requires cursor <= |template|
    ensures h == NextHole(template[cursor..])
    ensures h.Found? ==> cursor < next <= |template| && template[next..] == h.rest
  {
    h, next := NextHole(template[cursor..]), cursor;
    if h.Found? {
      HolePosition(template[cursor..], h);
      next := cursor + |h.lit| + |h.raw| + 4;
      DropDrop(template, cursor, |h.lit| + |h.raw| + 4);
    }
  }

  /** What the first pass makes of `s`, with the keys of `order` already collected. */
  function Collected(order: seq<string>, s: string): Result<seq<string>, PlanError> {
    match Parse(s) case Err(e) => Err(e) case Ok(pieces) => Ok(KeysFrom(order, pieces))
  }

  lemma CollectStep(order: seq<string>, s: string, h: Scan)
    requires h == NextHole(s)
    ensures match h
            case NoHole => Collected(order, s) == Ok(order)
            case Bad(e) => Collected(order, s) == Err(e)
            case Found(_, raw, rest) => Collected(order, s) == Collected(AddKey(order, Key(raw)), rest)
  {
    match h
    case NoHole => KeysOfOne(order, s);
    case Bad(_) =>
    case Found(lit, raw, rest) =>
      if Parse(rest).Ok? {
        KeysOfTwo(order, Lit(lit), Hole(raw), Parse(rest).value);
      }
  }

  lemma KeysOfOne(order: seq<string>, text: string)
    ensures KeysFrom(order, [Lit(text)]) == order
  {
    assert [Lit(text)][1..] == [];
  }

  lemma KeysOfTwo(order: seq<string>, lit: Piece, hole: Piece, pieces: seq<Piece>)
    requires lit.Lit? && hole.Hole?
    ensures KeysFrom(order, [lit, hole] + pieces) == KeysFrom(AddKey(order, Key(hole.raw)), pieces)
  {
    var ps := [lit, hole] + pieces;
    assert ps[1..] == [hole] + pieces && ps[1..][1..] == pieces;
  }

  /** First pass: every key once, in order of appearance. */
  method CollectKeys(template: string) returns (r: Result<seq<string>, PlanError>)
    ensures r == Collected([], template)
  {
    var order: seq<string> := [];
    var cursor := 0;
    ghost var rest := template;
    while true
      invariant cursor <= |template| && rest == template[cursor..]
      invariant Collected([], template) == Collected(order, rest)
      decreases |template| - cursor
    {
      var h, next := HoleAt(template, cursor);
      CollectStep(order, rest, h);
      match h {
        case NoHole => return Ok(order);
        case Bad(e) => return Err(e);
        case Found(_, raw, after) =>
          var key := Trim(raw);
          if key !in order {
            order := order + [key];
          }
          cursor := next;
          rest := after;
      }
    }
  }

  /** What the second pass appends for `s`. */
  function Rewritten(s: string, order: seq<string>, bindings: seq<Bound>): string
    requires Parse(s).Ok? && KeysIn(Parse(s).value, order) && |bindings| == |order|
  {
    Flatten(Segments(Parse(s).value, order, bindings))
  }

  lemma RewriteStep(s: string, h: Scan, order: seq<string>, bindings: seq<Bound>)
    requires h == NextHole(s) && Parse(s).Ok? && KeysIn(Parse(s).value, order) && |bindings| == |order|
    ensures !h.Bad?
    ensures h.NoHole? ==> Rewritten(s, order, bindings) == s
    ensures h.Found? ==>
              && Parse(h.rest).Ok? && KeysIn(Parse(h.rest).value, order) && Key(h.raw) in order
              && Rewritten(s, order, bindings)
                 == h.lit + (Rendered(SegmentOf(Hole(h.raw), order, bindings)) + Rewritten(h.rest, order, bindings))
  {
    match h
    case NoHole => SegmentsOfOne(s, order, bindings);
    case Found(lit, raw, rest) =>
      KeysInTail(lit, raw, Parse(rest).value, order);
      SegmentsOfTwo(lit, raw, Parse(rest).value, order, bindings);
  }

  lemma KeysInTail(lit: string, raw: string, pieces: seq<Piece>, order: seq<string>)
    requires KeysIn([Lit(lit), Hole(raw)] + pieces, order)
    ensures Key(raw) in order && KeysIn(pieces, order)
  {
    var ps := [Lit(lit), Hole(raw)] + pieces;
    assert ps[1] == Hole(raw);
    forall i | 0 <= i < |pieces| && pieces[i].Hole? ensures Key(pieces[i].raw) in order {
      assert ps[i + 2] == pieces[i];
    }
  }

  lemma SegmentsOfOne(lit: string, order: seq<string>, bindings: seq<Bound>)
    requires |bindings| == |order|
    ensures Flatten(Segments([Lit(lit)], order, bindings)) == lit
  {
    assert [Lit(lit)][1..] == [];
    var gs := Segments([Lit(lit)], order, bindings);
    assert gs == [SqlText(lit)] && gs[1..] == [] && lit + "" == lit;
  }

  lemma SegmentsOfTwo(lit: string, raw: string, pieces: seq<Piece>, order: seq<string>, bindings: seq<Bound>)
    requires Key(raw) in order && KeysIn(pieces, order) && |bindings| == |order|
    requires KeysIn([Lit(lit), Hole(raw)] + pieces, order)
    ensures Flatten(Segments([Lit(lit), Hole(raw)] + pieces, order, bindings))
            == lit + (Rendered(SegmentOf(Hole(raw), order, bindings)) + Flatten(Segments(pieces, order, bindings)))
  {
    var ps := [Lit(lit), Hole(raw)] + pieces;
    assert ps[1..] == [Hole(raw)] + pieces && ps[1..][1..] == pieces;
    var gs := Segments(ps, order, bindings);
    assert gs == [SqlText(lit)] + Segments(ps[1..], order, bindings);
    assert gs[1..] == Segments(ps[1..], order, bindings);
    assert gs[1..][1..] == Segments(pieces, order, bindings);
  }

  /** Second pass: one linear scan; neither of its lookups can fail on a template the first pass accepted. */
  method Rewrite(template: string, order: seq<string>, bindings: seq<Bound>) returns (out: string)
    requires Parse(template).Ok? && KeysIn(Parse(template).value, order) && |bindings| == |order|
    ensures out == Rewritten(template, order, bindings)
  {
    out := "";
    var cursor := 0;
    ghost var rest := template;
    ghost var all := Rewritten(template, order, bindings);
    while true
      invariant cursor <= |template| && rest == template[cursor..]
      invariant Parse(rest).Ok? && KeysIn(Parse(rest).value, order)
      invariant all == out + Rewritten(rest, order, bindings)
      decreases |template| - cursor
    {
      var h, next := HoleAt(template, cursor);
      RewriteStep(rest, h, order, bindings);
      match h {
        case NoHole =>
          return out + template[cursor..];
        case Found(lit, raw, after) =>
          var i := IndexOf(order, Trim(raw));
          var param := if bindings[i].Jsonb? then "($" + Digits(i + 2) + "::jsonb)" else "$" + Digits(i + 2);
          RewriteAppends(out, lit, param, Rewritten(after, order, bindings));
          out := out + lit + param;
          cursor := next;
          rest := after;
      }
    }
  }

  lemma RewriteAppends(out: string, lit: string, param: string, rest: string)
    ensures out + (lit + (param + rest)) == out + lit + param + rest
  {
  }

  method BuildPlan(template: string, args: Json) returns (r: Result<Plan, PlanError>)
    ensures r == PlanFor(template, args)
  {
    if !args.JObject? {
      var open := FindPair(template, '{');
      return if open.Some? then Err(NonObjectArguments) else Ok(Plan(template, []));
    }
    var keys := CollectKeys(template);
    if keys.Err? {
      return Err(keys.error);
    }
    var order := keys.value;
    var bindings: seq<Bound> := [];
    for i := 0 to |order|
      invariant forall k | 0 <= k < i :: order[k] in args.fields
      invariant |bindings| == i && forall k | 0 <= k < i :: bindings[k] == JsonToBound(args.fields[order[k]])
    {
      if order[i] !in args.fields {
        FirstMissingAt(order, args.fields, i);
        return Err(MissingArgument(order[i]));
      }
      bindings := bindings + [JsonToBound(args.fields[order[i]])];
    }
    KeysAreCollected([], Parse(template).value);
    assert bindings == Bindings(order, args.fields);
    var rewritten := Rewrite(template, order, bindings);
    r := Ok(Plan(rewritten, bindings));
  }

  lemma {:induction false} FirstMissingAt(order: seq<string>, fields: map<string, Json>, i: nat)
    requires i < |order| && order[i] !in fields && forall k | 0 <= k < i :: order[k] in fields
    ensures FirstMissing(order, fields) == Some(order[i])
  {
    if i > 0 {
      FirstMissingAt(order[1..], fields, i - 1);
    }
  }
}
