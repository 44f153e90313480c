/** What a built plan means: its bindings stand where the arguments stood in the template. */
module TemplateMeaning {
  import opened Common
  import opened TemplatePlan

  /** A statement with its values in place: text that is parsed as SQL, and values that are not. */
  datatype Item = Sql(text: string) | Value(v: Bound)

  predicate Fillable(p: Piece, fields: map<string, Json>) {
    p.Hole? ==> Key(p.raw) in fields
  }

  function Filled(p: Piece, fields: map<string, Json>): Item
    requires Fillable(p, fields)
  {
    match p
    case Lit(t) => Sql(t)
    case Hole(raw) => Value(JsonToBound(fields[Key(raw)]))
  }

  /** The template with `args` in its holes. */
  function Substituted(pieces: seq<Piece>, fields: map<string, Json>): (items: seq<Item>)
    requires forall i | 0 <= i < |pieces| :: Fillable(pieces[i], fields)
    ensures |items| == |pieces| && forall i | 0 <= i < |pieces| :: items[i] == Filled(pieces[i], fields)
  {
    if pieces == [] then [] else [Filled(pieces[0], fields)] + Substituted(pieces[1..], fields)
  }

  predicate InRange(g: Segment, bindings: seq<Bound>) {
    g.Param? ==> 2 <= g.n < |bindings| + 2
  }

  function WithValue(g: Segment, bindings: seq<Bound>): Item
    requires InRange(g, bindings)
  {
    match g
    case SqlText(t) => Sql(t)
    case Param(n, _) => Value(bindings[n - 2])
  }

  /** The rewritten statement with `bindings[n - 2]` for `$n`; `$1` is the row cap. */
  function Bind(segments: seq<Segment>, bindings: seq<Bound>): (items: seq<Item>)
    requires forall i | 0 <= i < |segments| :: InRange(segments[i], bindings)
    ensures |items| == |segments| && forall i | 0 <= i < |segments| :: items[i] == WithValue(segments[i], bindings)
  {
    if segments == [] then [] else [WithValue(segments[0], bindings)] + Bind(segments[1..], bindings)
  }

  /** The parts of a successful plan. */
  ghost predicate Built(template: string, fields: map<string, Json>, plan: Plan,
                        pieces: seq<Piece>, order: seq<string>)
  {
    && Parse(template) == Ok(pieces) && order == KeysFrom([], pieces)
    && KeysIn(pieces, order) && FirstMissing(order, fields).None?
    && plan.bindings == Bindings(order, fields)
    && plan.rewritten == Flatten(Segments(pieces, order, plan.bindings))
  }

  lemma PlanParts(template: string, fields: map<string, Json>, plan: Plan)
    returns (pieces: seq<Piece>, order: seq<string>)
    requires PlanForObject(template, fields) == Ok(plan)
    ensures Built(template, fields, plan, pieces, order)
  {
    pieces := Parse(template).value;
    order := KeysFrom([], pieces);
    KeysAreCollected([], pieces);
  }

  predicate Composite(v: Json) { v.JArray? || v.JObject? }

  /** What one piece becomes stands for what stood in the template. */
  ghost predicate Faithful(p: Piece, g: Segment, fields: map<string, Json>, bindings: seq<Bound>) {
    && Fillable(p, fields) && InRange(g, bindings)
    && WithValue(g, bindings) == Filled(p, fields)
    && (p.Hole? ==> g.Param? && (g.cast <==> Composite(fields[Key(p.raw)])))
  }

  lemma PieceIsFaithful(p: Piece, order: seq<string>, fields: map<string, Json>, bindings: seq<Bound>)
    requires p.Hole? ==> Key(p.raw) in order
    requires forall k | 0 <= k < |order| :: order[k] in fields
    requires bindings == Bindings(order, fields)
    ensures Faithful(p, SegmentOf(p, order, bindings), fields, bindings)
  {
    if p.Hole? {
      BoundAt(order, fields, IndexOf(order, Key(p.raw)));
    }
  }

  lemma BoundAt(order: seq<string>, fields: map<string, Json>, k: nat)
    requires forall i | 0 <= i < |order| :: order[i] in fields
    requires k < |order|
    ensures Bindings(order, fields)[k] == JsonToBound(fields[order[k]])
  {
  }

  /** The segments of a successful plan, each faithful to its piece. */
  lemma SegmentsAreFaithful(template: string, fields: map<string, Json>, plan: Plan)
    returns (pieces: seq<Piece>, segments: seq<Segment>)
    requires PlanForObject(template, fields) == Ok(plan)
    ensures Parse(template) == Ok(pieces) && |segments| == |pieces| && plan.rewritten == Flatten(segments)
    ensures forall i | 0 <= i < |pieces| :: Faithful(pieces[i], segments[i], fields, plan.bindings)
  {
    var order;
    pieces, order := PlanParts(template, fields, plan);
    segments := Segments(pieces, order, plan.bindings);
    forall i | 0 <= i < |pieces| ensures Faithful(pieces[i], segments[i], fields, plan.bindings) {
      PieceIsFaithful(pieces[i], order, fields, plan.bindings);
    }
  }

  /**
   The plan preserves meaning: binding its values to its numbered parameters
   gives, piece by piece, the template with the arguments in its holes; and a
   parameter is cast exactly when its argument is an array or an object.
   */
  lemma PlanPreservesMeaning(template: string, fields: map<string, Json>, plan: Plan)
    returns (pieces: seq<Piece>, segments: seq<Segment>)
    requires PlanForObject(template, fields) == Ok(plan)
    ensures Parse(template) == Ok(pieces) && Source(pieces) == template && |segments| == |pieces|
    ensures plan.rewritten == Flatten(segments)
    ensures forall i | 0 <= i < |pieces| :: Faithful(pieces[i], segments[i], fields, plan.bindings)
    ensures forall i | 0 <= i < |pieces| :: Fillable(pieces[i], fields) && InRange(segments[i], plan.bindings)
    ensures Bind(segments, plan.bindings) == Substituted(pieces, fields)
  {
    ParseIsFaithful(template);
    pieces, segments := SegmentsAreFaithful(template, fields, plan);
    BindIsSubstituted(pieces, segments, fields, plan.bindings);
  }

  lemma BindIsSubstituted(pieces: seq<Piece>, segments: seq<Segment>, fields: map<string, Json>, bindings: seq<Bound>)
    requires |segments| == |pieces|
    requires forall i | 0 <= i < |pieces| :: Faithful(pieces[i], segments[i], fields, bindings)
    ensures forall i | 0 <= i < |pieces| :: Fillable(pieces[i], fields) && InRange(segments[i], bindings)
    ensures Bind(segments, bindings) == Substituted(pieces, fields)
  {
    assert forall i | 0 <= i < |pieces| :: Faithful(pieces[i], segments[i], fields, bindings);
  }

  // ----- Numbering -----------------------------------------------------------------

  predicate Distinct(order: seq<string>) {
    forall i, j | 0 <= i < j < |order| :: order[i] != order[j]
  }

  /** `at[k]` is the hole that first names the k-th key. */
  ghost predicate FirstUses(order: seq<string>, pieces: seq<Piece>, at: seq<nat>) {
    && |at| == |order|
    && (forall k | 0 <= k < |at| ::
          at[k] < |pieces| && pieces[at[k]].Hole? && Key(pieces[at[k]].raw) == order[k])
    && (forall k, i | 0 <= k < |at| && 0 <= i < at[k] && pieces[i].Hole? :: Key(pieces[i].raw) != order[k])
    && (forall j, k | 0 <= j < k < |at| :: at[j] < at[k])
  }

  lemma {:induction false} KeysInOrder(order: seq<string>, done: seq<Piece>, pieces: seq<Piece>, at: seq<nat>)
    returns (at': seq<nat>)
    requires Distinct(order) && FirstUses(order, done, at) && KeysIn(done, order)
    ensures Distinct(KeysFrom(order, pieces))
    ensures FirstUses(KeysFrom(order, pieces), done + pieces, at')
    decreases |pieces|
  {
    if pieces == [] {
      at' := at;
      assert done + pieces == done;
    } else {
      var p := pieces[0];
      assert done + pieces == (done + [p]) + pieces[1..];
      if p.Lit? || Key(p.raw) in order {
        at' := KeysInOrder(order, done + [p], pieces[1..], at);
      } else {
        assert forall k | 0 <= k < |at| :: (done + [p])[at[k]] == done[at[k]];
        at' := KeysInOrder(order + [Key(p.raw)], done + [p], pieces[1..], at + [|done|]);
      }
    }
  }

  /** Keys are numbered 2, 3, ... by first appearance, each key once, and every number is used. */
  lemma NumberingIsByFirstAppearance(template: string, fields: map<string, Json>, plan: Plan)
    returns (pieces: seq<Piece>, order: seq<string>, at: seq<nat>)
    requires PlanForObject(template, fields) == Ok(plan)
    ensures Built(template, fields, plan, pieces, order)
    ensures Distinct(order) && FirstUses(order, pieces, at) && |plan.bindings| == |order|
    ensures forall k | 0 <= k < |order| :: NumberedAt(pieces[at[k]], order, plan.bindings, k)
  {
    pieces, order := PlanParts(template, fields, plan);
    at := KeysInOrder([], [], pieces, []);
    assert [] + pieces == pieces;
    forall k | 0 <= k < |order| ensures NumberedAt(pieces[at[k]], order, plan.bindings, k) {
      NumberOf(pieces[at[k]], order, plan.bindings, k);
    }
  }

  predicate NumberedAt(p: Piece, order: seq<string>, bindings: seq<Bound>, k: nat)
    requires |bindings| == |order| && k < |order|
  {
    (p.Hole? ==> Key(p.raw) in order) && SegmentOf(p, order, bindings) == Param(k + 2, bindings[k].Jsonb?)
  }

  lemma NumberOf(p: Piece, order: seq<string>, bindings: seq<Bound>, k: nat)
    requires Distinct(order) && |bindings| == |order| && k < |order|
    requires p.Hole? && Key(p.raw) == order[k]
    ensures NumberedAt(p, order, bindings, k)
  {
    assert IndexOf(order, order[k]) == k;
  }

  // ----- The text does not depend on the values ----------------------------------------

  /** Both argument objects have the template's keys, with composites at the same ones. */
  predicate SameShape(order: seq<string>, a: map<string, Json>, b: map<string, Json>) {
    forall i | 0 <= i < |order| ::
      order[i] in a && order[i] in b && (Composite(a[order[i]]) <==> Composite(b[order[i]]))
  }

  /** The rewritten SQL depends on the template and on which arguments are composite, on no value. */
  lemma TextDependsOnShapeOnly(template: string, a: map<string, Json>, b: map<string, Json>)
    requires Parse(template).Ok? && SameShape(KeysFrom([], Parse(template).value), a, b)
    ensures PlanForObject(template, a).Ok? && PlanForObject(template, b).Ok?
    ensures PlanForObject(template, a).value.rewritten == PlanForObject(template, b).value.rewritten
  {
    var pieces := Parse(template).value;
    var order := KeysFrom([], pieces);
    KeysAreCollected([], pieces);
    var x, y := Bindings(order, a), Bindings(order, b);
    forall i | 0 <= i < |pieces| ensures SegmentOf(pieces[i], order, x) == SegmentOf(pieces[i], order, y) {
    }
    assert Segments(pieces, order, x) == Segments(pieces, order, y);
  }
}
