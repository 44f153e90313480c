/**
 The subtransaction wrapper. The backend keeps a stack of frames of pending
 writes, a current memory context and a current resource owner; beginning and
 ending a subtransaction moves both, and the end of a subtransaction frees the
 context that belongs to it.
 */
module Subtxn {
  import opened Common

  type Handle = nat
  type Row = string

  datatype Ended = Returned(r: Result<string, string>) | Raised(message: string)

  /** What a body does. The result of a nested run decides how the body goes on. */
  datatype Body =
    | End(ended: Ended)
    | Insert(row: Row, next: Body)
    | Nested(inner: Body, onOk: Body, onErr: Body)

  // ----- What bodies mean -------------------------------------------------------

  /** The writes of a body that its frame holds when it ends, and its end. */
  datatype Effect = Effect(rows: seq<Row>, ended: Ended)

  function Meaning(b: Body): Effect
    decreases b, 0
  {
    match b
    case End(e) => Effect([], e)
    case Insert(row, next) =>
      var rest := Meaning(next);
      Effect([row] + rest.rows, rest.ended)
    case Nested(inner, onOk, onErr) =>
      var run := RunMeaning(inner);
      var rest := if run.ended.r.Ok? then Meaning(onOk) else Meaning(onErr);
      Effect(run.rows + rest.rows, rest.ended)
  }

  /** A body run in a subtransaction: a raise leaves nothing and comes back as an error. */
  function RunMeaning(b: Body): (run: Effect)
    ensures run.ended.Returned?
    decreases b, 1
  {
    var e := Meaning(b);
    match e.ended
    case Returned(_) => e
    case Raised(message) => Effect([], Returned(Err(message)))
  }

  // ----- Which writes survive -----------------------------------------------------

  /** A write that was made, and how each of the subtransactions around it ended, innermost first. */
  datatype Made = Made(row: Row, around: seq<Ended>)

  function Within(made: seq<Made>, ended: Ended): seq<Made> {
    seq(|made|, i requires 0 <= i < |made| => Made(made[i].row, made[i].around + [ended]))
  }

  /** Every write a body makes, in order, whatever becomes of it. */
  function AllWrites(b: Body): seq<Made> {
    match b
    case End(_) => []
    case Insert(row, next) => [Made(row, [])] + AllWrites(next)
    case Nested(inner, onOk, onErr) =>
      var ended := Meaning(inner).ended;
      Within(AllWrites(inner), ended) + AllWrites(if ended.Returned? && ended.r.Ok? then onOk else onErr)
  }

  predicate Survives(m: Made) { forall i | 0 <= i < |m.around| :: m.around[i].Returned? }

  function Surviving(made: seq<Made>): seq<Row> {
    if made == [] then []
    else (if Survives(made[0]) then [made[0].row] else []) + Surviving(made[1..])
  }

  lemma {:induction false} SurvivingJoin(a: seq<Made>, b: seq<Made>)
    ensures Surviving(a + b) == Surviving(a) + Surviving(b)
  {
    if a == [] {
      assert a + b == b;
    } else {
      assert (a + b)[1..] == a[1..] + b;
      SurvivingJoin(a[1..], b);
    }
  }

  lemma SurvivesWithin(m: Made, ended: Ended)
    ensures Survives(Made(m.row, m.around + [ended])) <==> Survives(m) && ended.Returned?
  {
    var longer := Made(m.row, m.around + [ended]);
    assert longer.around[|m.around|] == ended;
    if Survives(longer) {
      forall i | 0 <= i < |m.around|
        ensures m.around[i].Returned?
      {
        assert longer.around[i].Returned?;
      }
    }
  }

  lemma {:induction false} SurvivingWithin(made: seq<Made>, ended: Ended)
    ensures Surviving(Within(made, ended)) == if ended.Returned? then Surviving(made) else []
  {
    if made != [] {
      SurvivingWithin(made[1..], ended);
      SurvivesWithin(made[0], ended);
      assert Within(made, ended)[1..] == Within(made[1..], ended);
    }
  }

  /** Of all writes a body makes exactly those survive around which no subtransaction raised, in order. */
  lemma {:induction false} OnlyRaisedWritesAreLost(b: Body)
    ensures Meaning(b).rows == Surviving(AllWrites(b))
  {
    match b
    case End(_) =>
    case Insert(row, next) =>
      OnlyRaisedWritesAreLost(next);
      assert ([Made(row, [])] + AllWrites(next))[1..] == AllWrites(next);
    case Nested(inner, onOk, onErr) =>
      var ended := Meaning(inner).ended;
      var next := if ended.Returned? && ended.r.Ok? then onOk else onErr;
      OnlyRaisedWritesAreLost(inner);
      OnlyRaisedWritesAreLost(next);
      SurvivingWithin(AllWrites(inner), ended);
      SurvivingJoin(Within(AllWrites(inner), ended), AllWrites(next));
  }

  /** How a nested run ended decides how the body goes on; a raise counts as an error. */
  lemma NestedResultDecides(inner: Body, onOk: Body, onErr: Body)
    ensures var ended := Meaning(inner).ended;
      Meaning(Nested(inner, onOk, onErr)).ended
        == (if ended.Raised? || ended.r.Err? then Meaning(onErr).ended else Meaning(onOk).ended)
  {
  }

  /** A body that returns an error keeps its writes; the wrapper's description says they are rolled back. */
  lemma ReturnedErrorKeepsWrites(row: Row, error: string)
    ensures RunMeaning(Insert(row, End(Returned(Err(error))))) == Effect([row], Returned(Err(error)))
    ensures RunMeaning(Insert(row, End(Raised(error)))) == Effect([], Returned(Err(error)))
  {
    assert Meaning(End(Returned(Err(error)))) == Effect([], Returned(Err(error)));
    assert Meaning(End(Raised(error))) == Effect([], Raised(error));
    assert [row] + [] == [row];
  }

  // ----- The backend --------------------------------------------------------------

  /** A subtransaction's own context and owner, and the writes pending in it. */
  datatype Frame = Frame(context: Handle, owner: Handle, rows: seq<Row>)

  class Backend {
    var frames: seq<Frame>
    var context: Handle
    var owner: Handle
    /** The memory contexts that have not been freed. */
    var live: set<Handle>
    /** Does the server's rollback make the context of the frame below current? */
    const rollbackMoves: bool

    predicate Valid()
      reads this
    {
      && frames != []
      && context in live
      && (forall i | 0 <= i < |frames| :: frames[i].context in live)
      && (forall i, j | 0 <= i < j < |frames| :: frames[i].context != frames[j].context)
    }

    function Top(): Frame
      reads this
      requires frames != []
    {
      frames[|frames| - 1]
    }

    constructor (context: Handle, owner: Handle, rollbackMoves: bool)
      ensures Valid() && frames == [Frame(context, owner, [])] && live == {context}
      ensures this.context == context && this.owner == owner && this.rollbackMoves == rollbackMoves
    {
      frames := [Frame(context, owner, [])];
      this.context, this.owner, live, this.rollbackMoves := context, owner, {context}, rollbackMoves;
    }

    /** Pushes a frame and moves to a context and an owner of its own. */
    method Begin(newContext: Handle, newOwner: Handle)
      requires Valid() && newContext !in live
      modifies this
      ensures Valid()
      ensures frames == old(frames) + [Frame(newContext, newOwner, [])]
      ensures live == old(live) + {newContext} && context == newContext && owner == newOwner
    {
      frames := frames + [Frame(newContext, newOwner, [])];
      live, context, owner := live + {newContext}, newContext, newOwner;
    }

    method SwitchTo(to: Handle)
      requires Valid() && to in live
      modifies this`context
      ensures Valid() && context == to
    {
      context := to;
    }

    method RestoreOwner(to: Handle)
      modifies this`owner
      ensures owner == to
    {
      owner := to;
    }

    /** Commits the innermost frame into the one below and moves to that one's context and owner. */
    method Release()
      requires Valid() && |frames| > 1
      modifies this
      ensures Valid()
      ensures var n := |old(frames)|;
        && frames == old(frames)[..n - 2] + [old(frames)[n - 2].(rows := old(frames)[n - 2].rows + old(Top()).rows)]
        && live == old(live) - {old(Top()).context}
        && context == old(frames)[n - 2].context && owner == old(frames)[n - 2].owner
    {
      var n := |frames|;
      var below := frames[n - 2];
      live := live - {frames[n - 1].context};
      frames := frames[..n - 2] + [below.(rows := below.rows + frames[n - 1].rows)];
      context, owner := below.context, below.owner;
    }

    /** Drops the innermost frame. Must not be called from inside the context this frees. */
    method RollbackAndRelease()
      requires Valid() && |frames| > 1 && context != Top().context
      modifies this
      ensures Valid()
      ensures frames == old(frames)[..|old(frames)| - 1]
      ensures live == old(live) - {old(Top()).context}
      ensures owner == Top().owner && context == if rollbackMoves then Top().context else old(context)
    {
      var n := |frames|;
      live := live - {frames[n - 1].context};
      frames := frames[..n - 1];
      owner := frames[n - 2].owner;
      if rollbackMoves {
        context := frames[n - 2].context;
      }
    }

    /** A body may leave any live context and any owner current. */
    method Execute(body: Body) returns (ended: Ended)
      requires Valid()
      modifies this
      ensures Valid() && live == old(live)
      ensures ended == Meaning(body).ended
      ensures frames == old(frames)[..|old(frames)| - 1] + [old(Top()).(rows := old(Top()).rows + Meaning(body).rows)]
      decreases body, 1
    {
      match body
      case End(e) =>
        var left :| left in live;
        context, owner := left, *;
        ended := e;
        assert Top().rows + [] == Top().rows;
      case Insert(row, next) =>
        ghost var rows := Top().rows;
        frames := frames[..|frames| - 1] + [Top().(rows := Top().rows + [row])];
        ended := Execute(next);
        Associative(rows, [row], Meaning(next).rows);
      case Nested(inner, onOk, onErr) =>
        ghost var rows := Top().rows;
        var r := RunInSubtransaction(inner);
        ended := Execute(if r.Ok? then onOk else onErr);
        Associative(rows, RunMeaning(inner).rows, Meaning(if r.Ok? then onOk else onErr).rows);
    }

    /** After a raise: leave the context that is about to be freed, roll back, restore the owner. */
    method Abandon(oldContext: Handle, oldOwner: Handle)
      requires Valid() && |frames| > 1 && oldContext in live && oldContext != Top().context
      modifies this
      ensures Valid()
      ensures frames == old(frames)[..|old(frames)| - 1] && live == old(live) - {old(Top()).context}
      ensures owner == oldOwner && context == if rollbackMoves then Top().context else oldContext
    {
      SwitchTo(oldContext);
      RollbackAndRelease();
      RestoreOwner(oldOwner);
    }

    /** After a normal return, be it of a value or of an error: commit, restore context and owner. */
    method Keep(oldContext: Handle, oldOwner: Handle)
      requires Valid() && |frames| > 1 && oldContext in live && oldContext != Top().context
      modifies this
      ensures Valid()
      ensures var n := |old(frames)|;
        frames == old(frames)[..n - 2] + [old(frames)[n - 2].(rows := old(frames)[n - 2].rows + old(Top()).rows)]
      ensures live == old(live) - {old(Top()).context}
      ensures owner == oldOwner && context == oldContext
    {
      Release();
      SwitchTo(oldContext);
      RestoreOwner(oldOwner);
    }

    /**
     Runs `body` in a subtransaction of its own: the stack and the current owner come
     back as they were, and the frame gains the writes of the body unless it raised.
     So does the current context, with one exception: after a raise nothing switches
     back once the rollback is done, so it stays where the rollback leaves it.
     */
    method RunInSubtransaction(body: Body) returns (outcome: Result<string, string>)
      requires Valid()
      modifies this
      ensures Valid() && live == old(live)
      ensures owner == old(owner)
      ensures context == if Meaning(body).ended.Raised? && rollbackMoves then old(Top()).context else old(context)
      ensures outcome == (if Meaning(body).ended.Raised? then Err(Meaning(body).ended.message) else Meaning(body).ended.r)
      ensures frames == old(frames)[..|old(frames)| - 1] + [old(Top()).(rows :=
                          old(Top()).rows + (if Meaning(body).ended.Raised? then [] else Meaning(body).rows))]
      decreases body, 2
    {
      var oldContext, oldOwner := context, owner;
      var newContext := FreshHandle();
      var newOwner: Handle := *;
      Begin(newContext, newOwner);
      SwitchTo(oldContext);
      ghost var base, top := frames[..|frames| - 2], frames[|frames| - 2];
      var completed := false;
      var ended := Execute(body);
      assert frames == base + [top] + [Frame(newContext, newOwner, [] + Meaning(body).rows)];
      assert [] + Meaning(body).rows == Meaning(body).rows && top.rows + [] == top.rows;
      match ended {
        case Returned(r) =>
          completed := true;
          outcome := r;
        case Raised(message) =>
          Abandon(oldContext, oldOwner);
          outcome := Err(message);
      }
      if completed {
        Keep(oldContext, oldOwner);
      }
    }

    /** A handle that names no live context. */
    method FreshHandle() returns (h: Handle)
      ensures h !in live
    {
      h := 0;
      var rest := live;
      while rest != {}
        invariant rest <= live && forall x | x in live && x !in rest :: x < h
        decreases |rest|
      {
        var c :| c in rest;
        if h <= c {
          h := c + 1;
        }
        rest := rest - {c};
      }
    }
  }
}
