/**
 Flood control of the event outbox under concurrency.

 Transactions have a fixed start time, which is the timestamp of every row they
 insert, and may overlap freely: rows appear in the table in any timestamp
 order. A row is visible to its own writer at once and to everybody else when
 the writer commits. An advisory lock is held until its transaction, or the
 savepoint it was taken under, ends. Each statement of `_outbox_emit` reads
 what is committed when that statement starts (READ COMMITTED).
 */
module Outbox {
  import opened Common

  type Id = nat
  type TxId = nat
  type LockId = int
  /** Microseconds since the epoch. */
  type Time = int

  const MINUTE: Time := 60_000_000

  datatype Row = Row(ts: Time, emitter: string, event: string, payload: string,
                     processedAt: Option<Time>,
                     /** The open transaction that wrote the row; none once it is committed. */
                     writer: Option<TxId>)

  /** The two settings, the lock hash of (emitter, event) and the payload digest. */
  datatype Guards = Guards(cap: int, dedupMs: int,
                           lockOf: (string, string) -> LockId, digest: string -> int)
  {
    predicate On() { cap > 0 || dedupMs > 0 }
    function Window(): Time { 1000 * dedupMs }
  }

  /** Where a call of `_outbox_emit` stands. */
  datatype Call =
    | NoCall
    | Entered(event: string, payload: string)
    | Locked(event: string, payload: string)
    | NotDuplicate(event: string, payload: string)
    | UnderCap(event: string, payload: string)

  datatype Txn = Txn(now: Time, user: string, locks: set<LockId>, call: Call)

  datatype State = State(rows: map<Id, Row>, open: map<TxId, Txn>)

  datatype Step =
    | Begin(tx: TxId, user: string, now: Time)
    | Enter(tx: TxId, event: string, payload: string)
    | TakeLock(tx: TxId)
    | CheckDuplicate(tx: TxId)
    | CheckRate(tx: TxId)
    | Insert(tx: TxId, id: Id)
    | Commit(tx: TxId)
    | Abort(tx: TxId)
    /** Back to a savepoint: rows written and locks taken since then are gone. */
    | RollbackTo(tx: TxId, keepRows: set<Id>, keepLocks: set<LockId>)
    | MarkProcessed(id: Id, now: Time)
    | Prune(removed: set<Id>)

  // ----- What a statement sees -------------------------------------------------

  predicate Visible(r: Row, tx: TxId) {
    r.writer.None? || r.writer == Some(tx)
  }

  predicate SameKey(r: Row, emitter: string, event: string) {
    r.emitter == emitter && r.event == event
  }

  /** `emitter = session_user AND event = trimmed AND ts > since`, with no upper bound on `ts`. */
  function Recent(rows: map<Id, Row>, tx: TxId, emitter: string, event: string, since: Time): set<Id> {
    set id | id in rows && Visible(rows[id], tx) && SameKey(rows[id], emitter, event) && rows[id].ts > since
  }

  predicate HasDuplicate(g: Guards, rows: map<Id, Row>, tx: TxId, t: Txn, event: string, payload: string) {
    exists id :: id in Recent(rows, tx, t.user, event, t.now - g.Window())
                 && g.digest(rows[id].payload) == g.digest(payload)
  }

  predicate OverCap(g: Guards, rows: map<Id, Row>, tx: TxId, t: Txn, event: string) {
    |Recent(rows, tx, t.user, event, t.now - MINUTE)| >= g.cap
  }

  // ----- Steps -------------------------------------------------------------------

  predicate Enabled(g: Guards, s: State, step: Step) {
    match step
    case Begin(tx, _, _) => tx !in s.open && forall id | id in s.rows :: s.rows[id].writer != Some(tx)
    case Enter(tx, _, _) => tx in s.open && s.open[tx].call.NoCall?
    case TakeLock(tx) =>
      && tx in s.open && s.open[tx].call.Entered?
      && (g.On() ==>
            forall other | other in s.open && other != tx ::
              g.lockOf(s.open[tx].user, s.open[tx].call.event) !in s.open[other].locks)
    case CheckDuplicate(tx) => tx in s.open && s.open[tx].call.Locked?
    case CheckRate(tx) => tx in s.open && s.open[tx].call.NotDuplicate?
    case Insert(tx, id) => tx in s.open && s.open[tx].call.UnderCap? && id !in s.rows
    case Commit(tx) => tx in s.open && s.open[tx].call.NoCall?
    case Abort(tx) => tx in s.open
    case RollbackTo(tx, keepRows, keepLocks) =>
      && tx in s.open && keepLocks <= s.open[tx].locks
      && (g.On() ==>
            forall id | id in keepRows && id in s.rows && s.rows[id].writer == Some(tx) ::
              g.lockOf(s.rows[id].emitter, s.rows[id].event) in keepLocks)
    case MarkProcessed(id, _) => id in s.rows && s.rows[id].writer.None?
    case Prune(removed) =>
      forall id | id in removed :: id in s.rows && s.rows[id].writer.None? && s.rows[id].processedAt.Some?
  }

  function AtCall(s: State, tx: TxId, call: Call): map<TxId, Txn>
    requires tx in s.open
  {
    s.open[tx := s.open[tx].(call := call)]
  }

  function Apply(g: Guards, s: State, step: Step): State
    requires Enabled(g, s, step)
  {
    match step
    case Begin(tx, user, now) => s.(open := s.open[tx := Txn(now, user, {}, NoCall)])
    case Enter(tx, event, payload) => s.(open := AtCall(s, tx, Entered(event, payload)))
    case TakeLock(tx) =>
      var t := s.open[tx];
      var locks := if g.On() then t.locks + {g.lockOf(t.user, t.call.event)} else t.locks;
      s.(open := s.open[tx := t.(locks := locks, call := Locked(t.call.event, t.call.payload))])
    case CheckDuplicate(tx) =>
      var t := s.open[tx];
      if g.dedupMs > 0 && HasDuplicate(g, s.rows, tx, t, t.call.event, t.call.payload)
      then s.(open := AtCall(s, tx, NoCall))
      else s.(open := AtCall(s, tx, NotDuplicate(t.call.event, t.call.payload)))
    case CheckRate(tx) =>
      var t := s.open[tx];
      if g.cap > 0 && OverCap(g, s.rows, tx, t, t.call.event)
      then s.(open := AtCall(s, tx, NoCall))
      else s.(open := AtCall(s, tx, UnderCap(t.call.event, t.call.payload)))
    case Insert(tx, id) =>
      var t := s.open[tx];
      State(s.rows[id := Row(t.now, t.user, t.call.event, t.call.payload, None, Some(tx))], AtCall(s, tx, NoCall))
    case Commit(tx) =>
      State(map id | id in s.rows ::
              if s.rows[id].writer == Some(tx) then s.rows[id].(writer := None) else s.rows[id],
            s.open - {tx})
    case Abort(tx) =>
      State(map id | id in s.rows && s.rows[id].writer != Some(tx) :: s.rows[id], s.open - {tx})
    case RollbackTo(tx, keepRows, keepLocks) =>
      State(map id | id in s.rows && (s.rows[id].writer != Some(tx) || id in keepRows) :: s.rows[id],
            s.open[tx := s.open[tx].(locks := keepLocks, call := NoCall)])
    case MarkProcessed(id, now) =>
      if s.rows[id].processedAt.None?
      then s.(rows := s.rows[id := s.rows[id].(processedAt := Some(now))])
      else s
    case Prune(removed) => s.(rows := s.rows - removed)
  }

  const EMPTY := State(map[], map[])

  function After(g: Guards, steps: seq<Step>): Option<State>
    decreases |steps|
  {
    if steps == [] then Some(EMPTY)
    else
      match After(g, steps[..|steps| - 1])
      case None => None
      case Some(s) =>
        var step := steps[|steps| - 1];
        if Enabled(g, s, step) then Some(Apply(g, s, step)) else None
  }

  // ----- The invariant -------------------------------------------------------------

  /** A row that is not yet committed belongs to an open transaction, which holds its lock. */
  predicate RowInv(g: Guards, s: State, id: Id)
    requires id in s.rows
  {
    var r := s.rows[id];
    r.writer.Some? ==>
      && r.writer.value in s.open
      && (g.On() ==> g.lockOf(r.emitter, r.event) in s.open[r.writer.value].locks)
  }

  predicate Exclusive(s: State, a: TxId, b: TxId) {
    a in s.open && b in s.open && a != b ==> s.open[a].locks !! s.open[b].locks
  }

  /** What the checks of a call found still holds when the next statement runs. */
  predicate CallInv(g: Guards, s: State, tx: TxId)
    requires tx in s.open
  {
    var t := s.open[tx];
    var c := t.call;
    && (g.On() && (c.Locked? || c.NotDuplicate? || c.UnderCap?) ==> g.lockOf(t.user, c.event) in t.locks)
    && (g.dedupMs > 0 && (c.NotDuplicate? || c.UnderCap?) ==>
          !HasDuplicate(g, s.rows, tx, t, c.event, c.payload))
    && (g.cap > 0 && c.UnderCap? ==> !OverCap(g, s.rows, tx, t, c.event))
  }

  /** The rows of one (emitter, event) with `t - 1 min < ts <= t`, committed or not. */
  function InMinute(rows: map<Id, Row>, emitter: string, event: string, t: Time): set<Id> {
    set id | id in rows && SameKey(rows[id], emitter, event) && t - MINUTE < rows[id].ts <= t
  }

  predicate CapInv(g: Guards, s: State, emitter: string, event: string, t: Time) {
    g.cap > 0 ==> |InMinute(s.rows, emitter, event, t)| <= g.cap
  }

  predicate ApartInv(g: Guards, s: State, a: Id, b: Id)
    requires a in s.rows && b in s.rows
  {
    var p, q := s.rows[a], s.rows[b];
    g.dedupMs > 0 && a != b && SameKey(p, q.emitter, q.event) && g.digest(p.payload) == g.digest(q.payload)
    ==> p.ts <= q.ts - g.Window() || q.ts <= p.ts - g.Window()
  }

  ghost predicate Inv(g: Guards, s: State) {
    && (forall id | id in s.rows :: RowInv(g, s, id))
    && (forall a, b :: Exclusive(s, a, b))
    && (forall tx | tx in s.open :: CallInv(g, s, tx))
    && (forall emitter, event, t :: CapInv(g, s, emitter, event, t))
    && (forall a, b | a in s.rows && b in s.rows :: ApartInv(g, s, a, b))
  }

  // ----- Every step keeps it ---------------------------------------------------------

  lemma RowInvKept(g: Guards, s: State, step: Step, id: Id)
    requires Inv(g, s) && Enabled(g, s, step) && id in Apply(g, s, step).rows
    ensures RowInv(g, Apply(g, s, step), id)
  {
    assert id in s.rows ==> RowInv(g, s, id);
    if step.Insert? {
      assert CallInv(g, s, step.tx);
    }
  }

  lemma ExclusiveKept(g: Guards, s: State, step: Step, a: TxId, b: TxId)
    requires Inv(g, s) && Enabled(g, s, step)
    ensures Exclusive(Apply(g, s, step), a, b)
  {
    assert Exclusive(s, a, b);
  }

  /** A row some other transaction can see, or has just written, that a lock holder cannot. */
  lemma LockHidesNothing(g: Guards, s: State, tx: TxId, emitter: string, event: string, id: Id)
    requires Inv(g, s) && g.On() && tx in s.open && g.lockOf(emitter, event) in s.open[tx].locks
    requires id in s.rows && SameKey(s.rows[id], emitter, event)
    ensures Visible(s.rows[id], tx)
  {
    assert RowInv(g, s, id);
    if s.rows[id].writer.Some? {
      assert Exclusive(s, tx, s.rows[id].writer.value);
    }
  }

  /** While a transaction is between its checks, no other step shows it more rows of its key. */
  lemma SeesNoMore(g: Guards, s: State, step: Step, tx: TxId, since: Time)
    requires Inv(g, s) && Enabled(g, s, step) && g.On()
    requires tx in s.open && tx in Apply(g, s, step).open && Apply(g, s, step).open[tx].call == s.open[tx].call
    requires s.open[tx].call.NotDuplicate? || s.open[tx].call.UnderCap?
    ensures var t := s.open[tx]; var u := Apply(g, s, step);
            && Recent(u.rows, tx, t.user, t.call.event, since) <= Recent(s.rows, tx, t.user, t.call.event, since)
            && forall id :: id in Recent(u.rows, tx, t.user, t.call.event, since) ==>
                              u.rows[id].payload == s.rows[id].payload
  {
    var t, u := s.open[tx], Apply(g, s, step);
    assert CallInv(g, s, tx);
    forall id | id in Recent(u.rows, tx, t.user, t.call.event, since)
      ensures id in Recent(s.rows, tx, t.user, t.call.event, since) && u.rows[id].payload == s.rows[id].payload
    {
      if id in s.rows {
        LockHidesNothing(g, s, tx, t.user, t.call.event, id);
      }
    }
  }

  /** What a check found does not depend on rows that are gone. */
  lemma FewerRowsPassToo(g: Guards, rows: map<Id, Row>, rows': map<Id, Row>, tx: TxId, t: Txn,
                         event: string, payload: string)
    requires var since := t.now - g.Window();
             && Recent(rows', tx, t.user, event, since) <= Recent(rows, tx, t.user, event, since)
             && forall id :: id in Recent(rows', tx, t.user, event, since) ==> rows'[id].payload == rows[id].payload
    requires Recent(rows', tx, t.user, event, t.now - MINUTE) <= Recent(rows, tx, t.user, event, t.now - MINUTE)
    ensures !HasDuplicate(g, rows, tx, t, event, payload) ==> !HasDuplicate(g, rows', tx, t, event, payload)
    ensures !OverCap(g, rows, tx, t, event) ==> !OverCap(g, rows', tx, t, event)
  {
    SubsetSize(Recent(rows', tx, t.user, event, t.now - MINUTE), Recent(rows, tx, t.user, event, t.now - MINUTE));
  }

  predicate StepOf(step: Step, tx: TxId) {
    && !step.MarkProcessed? && !step.Prune? && step.tx == tx
  }

  lemma OwnCallKept(g: Guards, s: State, step: Step, tx: TxId)
    requires Inv(g, s) && Enabled(g, s, step) && tx in Apply(g, s, step).open && StepOf(step, tx)
    ensures CallInv(g, Apply(g, s, step), tx)
  {
    if tx in s.open {
      assert CallInv(g, s, tx);
    }
  }

  lemma OthersLeaveTxnAlone(g: Guards, s: State, step: Step, tx: TxId)
    requires Enabled(g, s, step) && tx in Apply(g, s, step).open && !StepOf(step, tx)
    ensures tx in s.open && Apply(g, s, step).open[tx] == s.open[tx]
  {
  }

  lemma CallInvKept(g: Guards, s: State, step: Step, tx: TxId)
    requires Inv(g, s) && Enabled(g, s, step) && tx in Apply(g, s, step).open
    ensures CallInv(g, Apply(g, s, step), tx)
  {
    if StepOf(step, tx) {
      OwnCallKept(g, s, step, tx);
    } else {
      OthersLeaveTxnAlone(g, s, step, tx);
      assert CallInv(g, s, tx);
      var u, t := Apply(g, s, step), s.open[tx];
      if g.On() && (t.call.NotDuplicate? || t.call.UnderCap?) {
        SeesNoMore(g, s, step, tx, t.now - g.Window());
        SeesNoMore(g, s, step, tx, t.now - MINUTE);
        FewerRowsPassToo(g, s.rows, u.rows, tx, t, t.call.event, t.call.payload);
      }
    }
  }

  /** The heart of the cap: what the writer counted includes the whole minute it joins. */
  lemma InsertKeepsCap(g: Guards, s: State, tx: TxId, id: Id, t: Time)
    requires Inv(g, s) && Enabled(g, s, Insert(tx, id)) && g.cap > 0
    requires t - MINUTE < s.open[tx].now <= t
    ensures |InMinute(s.rows, s.open[tx].user, s.open[tx].call.event, t)| < g.cap
  {
    var w := s.open[tx];
    assert CallInv(g, s, tx);
    var counted := Recent(s.rows, tx, w.user, w.call.event, w.now - MINUTE);
    forall other | other in InMinute(s.rows, w.user, w.call.event, t) ensures other in counted {
      LockHidesNothing(g, s, tx, w.user, w.call.event, other);
    }
    SubsetSize(InMinute(s.rows, w.user, w.call.event, t), counted);
  }

  lemma OnlyInsertsAddRows(g: Guards, s: State, step: Step, emitter: string, event: string, t: Time)
    requires Enabled(g, s, step) && !step.Insert?
    ensures InMinute(Apply(g, s, step).rows, emitter, event, t) <= InMinute(s.rows, emitter, event, t)
  {
  }

  lemma InsertAddsOneRow(g: Guards, s: State, tx: TxId, id: Id, emitter: string, event: string, t: Time)
    requires Enabled(g, s, Insert(tx, id))
    ensures var w := s.open[tx];
            InMinute(Apply(g, s, Insert(tx, id)).rows, emitter, event, t)
            == InMinute(s.rows, emitter, event, t)
               + if w.user == emitter && w.call.event == event && t - MINUTE < w.now <= t then {id} else {}
  {
  }

  lemma CapInvKept(g: Guards, s: State, step: Step, emitter: string, event: string, t: Time)
    requires Inv(g, s) && Enabled(g, s, step)
    ensures CapInv(g, Apply(g, s, step), emitter, event, t)
  {
    assert CapInv(g, s, emitter, event, t);
    if g.cap > 0 {
      if step.Insert? {
        var w := s.open[step.tx];
        InsertAddsOneRow(g, s, step.tx, step.id, emitter, event, t);
        if w.user == emitter && w.call.event == event && t - MINUTE < w.now <= t {
          InsertKeepsCap(g, s, step.tx, step.id, t);
        }
      } else {
        OnlyInsertsAddRows(g, s, step, emitter, event, t);
        SubsetSize(InMinute(Apply(g, s, step).rows, emitter, event, t), InMinute(s.rows, emitter, event, t));
      }
    }
  }

  lemma ApartInvKept(g: Guards, s: State, step: Step, a: Id, b: Id)
    requires Inv(g, s) && Enabled(g, s, step)
    requires a in Apply(g, s, step).rows && b in Apply(g, s, step).rows
    ensures ApartInv(g, Apply(g, s, step), a, b)
  {
    if a in s.rows && b in s.rows {
      assert ApartInv(g, s, a, b);
    } else if step.Insert? && g.dedupMs > 0 {
      assert CallInv(g, s, step.tx);
      var w := s.open[step.tx];
      var other := if a == step.id then b else a;
      if other in s.rows && SameKey(s.rows[other], w.user, w.call.event) {
        LockHidesNothing(g, s, step.tx, w.user, w.call.event, other);
        assert other in Recent(s.rows, step.tx, w.user, w.call.event, w.now - g.Window())
               || s.rows[other].ts <= w.now - g.Window();
      }
    }
  }

  lemma InvKept(g: Guards, s: State, step: Step)
    requires Inv(g, s) && Enabled(g, s, step)
    ensures Inv(g, Apply(g, s, step))
  {
    var u := Apply(g, s, step);
    forall id | id in u.rows ensures RowInv(g, u, id) { RowInvKept(g, s, step, id); }
    forall a, b ensures Exclusive(u, a, b) { ExclusiveKept(g, s, step, a, b); }
    forall tx | tx in u.open ensures CallInv(g, u, tx) { CallInvKept(g, s, step, tx); }
    forall emitter, event, t ensures CapInv(g, u, emitter, event, t) {
      CapInvKept(g, s, step, emitter, event, t);
    }
    forall a, b | a in u.rows && b in u.rows ensures ApartInv(g, u, a, b) { ApartInvKept(g, s, step, a, b); }
  }

  lemma {:induction false} InvAlways(g: Guards, steps: seq<Step>)
    requires After(g, steps).Some?
    ensures Inv(g, After(g, steps).value)
    decreases |steps|
  {
    if steps == [] {
      forall emitter, event, t ensures CapInv(g, EMPTY, emitter, event, t) {
        assert InMinute(map[], emitter, event, t) == {};
      }
    } else {
      InvAlways(g, steps[..|steps| - 1]);
      InvKept(g, After(g, steps[..|steps| - 1]).value, steps[|steps| - 1]);
    }
  }

  // ----- The two guarantees ------------------------------------------------------------

  /** In every minute, of every run, one (emitter, event) has at most `cap` rows, committed or pending. */
  lemma NeverMoreThanCapPerMinute(g: Guards, steps: seq<Step>, emitter: string, event: string, t: Time)
    requires After(g, steps).Some? && g.cap > 0
    ensures |InMinute(After(g, steps).value.rows, emitter, event, t)| <= g.cap
  {
    InvAlways(g, steps);
    assert CapInv(g, After(g, steps).value, emitter, event, t);
  }

  /** Two rows with the same emitter, event and payload digest are at least the dedup window apart. */
  lemma DuplicatesAreApart(g: Guards, steps: seq<Step>, a: Id, b: Id)
    requires After(g, steps).Some? && g.dedupMs > 0
    requires var rows := After(g, steps).value.rows;
             && a in rows && b in rows && a != b
             && SameKey(rows[a], rows[b].emitter, rows[b].event)
             && g.digest(rows[a].payload) == g.digest(rows[b].payload)
    ensures var rows := After(g, steps).value.rows;
            rows[a].ts - rows[b].ts >= 1000 * g.dedupMs || rows[b].ts - rows[a].ts >= 1000 * g.dedupMs
  {
    InvAlways(g, steps);
    assert ApartInv(g, After(g, steps).value, a, b);
  }

  // ----- What becomes of a row ---------------------------------------------------------------

  /** A transaction that has ended holds nothing; one back at a savepoint holds what it is left with, and is in no call. */
  lemma EndsFreeLocks(g: Guards, s: State, step: Step)
    requires Enabled(g, s, step)
    ensures step.Commit? || step.Abort? ==> step.tx !in Apply(g, s, step).open
    ensures step.RollbackTo? ==>
              && step.tx in Apply(g, s, step).open && Apply(g, s, step).open[step.tx].locks == step.keepLocks
              && Apply(g, s, step).open[step.tx].call == NoCall
    ensures forall tx | tx in Apply(g, s, step).open && tx in s.open :: Apply(g, s, step).open[tx].now == s.open[tx].now
  {
  }

  /** What each step makes of a row, and which rows there are afterwards. */
  lemma StepsTakeEffect(g: Guards, s: State, step: Step, id: Id)
    requires Enabled(g, s, step)
    ensures var rows, after := s.rows, Apply(g, s, step).rows;
      match step
      case Insert(tx, added) =>
        var t := s.open[tx];
        if id == added then id in after && after[id] == Row(t.now, t.user, t.call.event, t.call.payload, None, Some(tx))
        else (id in after <==> id in rows) && (id in rows ==> after[id] == rows[id])
      case Commit(tx) =>
        && (id in after <==> id in rows)
        && (id in rows ==> after[id] == if rows[id].writer == Some(tx) then rows[id].(writer := None) else rows[id])
      case Abort(tx) =>
        && (id in after <==> id in rows && rows[id].writer != Some(tx)) && (id in after ==> after[id] == rows[id])
      case RollbackTo(tx, kept, _) =>
        && (id in after <==> id in rows && (rows[id].writer != Some(tx) || id in kept))
        && (id in after ==> after[id] == rows[id])
      case MarkProcessed(marked, now) =>
        && (id in after <==> id in rows)
        && (id in rows ==> after[id] == if id == marked && rows[id].processedAt == None
                                        then rows[id].(processedAt := Some(now)) else rows[id])
      case Prune(removed) =>
        && (id in after <==> id in rows && id !in removed) && (id in after ==> after[id] == rows[id])
        && (id in removed ==> rows[id].writer == None && rows[id].processedAt.Some?)
      case _ => after == rows
  {
  }

  /** `a` as it was committed, perhaps marked since. */
  predicate SameEvent(a: Row, b: Row) {
    b.(processedAt := a.processedAt) == a && (a.processedAt.Some? ==> b == a)
  }

  lemma EventKept(g: Guards, was: Row, s: State, step: Step, id: Id)
    requires Enabled(g, s, step) && id in s.rows && was.writer.None? && SameEvent(was, s.rows[id])
    ensures if step.Prune? && id in step.removed then s.rows[id].processedAt.Some?
            else id in Apply(g, s, step).rows && SameEvent(was, Apply(g, s, step).rows[id])
  {
    StepsTakeEffect(g, s, step, id);
  }

  /**
   No event is lost: over any run a committed row stays as it is but for being marked
   processed, until a prune removes it, and that only when it has been marked.
   */
  lemma {:induction false} NoEventIsLost(g: Guards, steps: seq<Step>, n: nat, id: Id) returns (m: nat)
    requires n <= |steps| && After(g, steps).Some? && After(g, steps[..n]).Some?
    requires id in After(g, steps[..n]).value.rows && After(g, steps[..n]).value.rows[id].writer.None?
    ensures n <= m <= |steps| && After(g, steps[..m]).Some? && id in After(g, steps[..m]).value.rows
    ensures SameEvent(After(g, steps[..n]).value.rows[id], After(g, steps[..m]).value.rows[id])
    ensures m == |steps| || (steps[m].Prune? && id in steps[m].removed
                             && After(g, steps[..m]).value.rows[id].processedAt.Some?)
    decreases |steps|
  {
    if n == |steps| {
      m := n;
    } else {
      var init, step := steps[..|steps| - 1], steps[|steps| - 1];
      assert init[..n] == steps[..n];
      m := NoEventIsLost(g, init, n, id);
      assert init[..m] == steps[..m];
      if m == |init| {
        assert init[..m] == init;
        EventKept(g, After(g, steps[..n]).value.rows[id], After(g, init).value, step, id);
        if !(step.Prune? && id in step.removed) {
          m := |steps|;
          assert steps[..m] == steps;
        }
      }
    }
  }

  // ----- One call, in place ----------------------------------------------------------------

  datatype Emission = Disabled | Invalid | Duplicate | RateLimited | Appended(id: Id)

  predicate NameStart(c: char) { 'A' <= c <= 'Z' || 'a' <= c <= 'z' || '0' <= c <= '9' }

  predicate NameChar(c: char) { NameStart(c) || c in "._:-" }

  /** The characters of a name, spelled out. */
  lemma NameCharacters(c: char)
    ensures NameStart(c) <==>
              c in "ABCDEFGHIJKLMNOPQRSTUVWXYZ" || c in "abcdefghijklmnopqrstuvwxyz" || c in "0123456789"
    ensures NameChar(c) <==> NameStart(c) || c == '.' || c == '_' || c == ':' || c == '-'
  {
    Capitals(c);
    Smalls(c);
    Numerals(c);
    var marks := "._:-";
    assert marks[0] == '.' && marks[1] == '_' && marks[2] == ':' && marks[3] == '-';
  }

  /** Does a call that sees these rows append, and if not, which guard stops it first? */
  function Verdict(g: Guards, rows: map<Id, Row>, tx: TxId, t: Txn, event: string, payload: string, newId: Id)
    : Emission
  {
    if g.dedupMs > 0 && HasDuplicate(g, rows, tx, t, event, payload) then Duplicate
    else if g.cap > 0 && OverCap(g, rows, tx, t, event) then RateLimited
    else Appended(newId)
  }

  /** The verdict, on the rows of this emitter and event that the transaction can see. */
  lemma VerdictIs(g: Guards, rows: map<Id, Row>, tx: TxId, t: Txn, event: string, payload: string, newId: Id)
    ensures var mine := map id | id in rows && rows[id].emitter == t.user && rows[id].event == event
                                 && (rows[id].writer == None || rows[id].writer == Some(tx)) :: rows[id];
      var verdict := Verdict(g, rows, tx, t, event, payload, newId);
      if g.dedupMs > 0 && exists id :: id in mine && mine[id].ts > t.now - 1000 * g.dedupMs
                                       && g.digest(mine[id].payload) == g.digest(payload)
      then verdict == Duplicate
      else if g.cap > 0 && |set id | id in mine && mine[id].ts > t.now - 60_000_000| >= g.cap
      then verdict == RateLimited
      else verdict == Appended(newId)
  {
    var mine := map id | id in rows && rows[id].emitter == t.user && rows[id].event == event
                         && (rows[id].writer == None || rows[id].writer == Some(tx)) :: rows[id];
    assert (set id | id in mine && mine[id].ts > t.now - 60_000_000) == Recent(rows, tx, t.user, event, t.now - MINUTE);
    if g.dedupMs > 0 && HasDuplicate(g, rows, tx, t, event, payload) {
      var id :| id in Recent(rows, tx, t.user, event, t.now - g.Window()) && g.digest(rows[id].payload) == g.digest(payload);
      assert id in mine;
    }
    if id :| id in mine && mine[id].ts > t.now - 1000 * g.dedupMs && g.digest(mine[id].payload) == g.digest(payload) {
      assert id in Recent(rows, tx, t.user, event, t.now - g.Window());
    }
  }

  /** The `ask._outbox` table and the `pg_ask_events` channel, as one transaction `tx` uses them. */
  class OutboxStore {
    var rows: map<Id, Row>
    var notified: seq<Id>

    constructor ()
      ensures rows == map[] && notified == []
    {
      rows, notified := map[], [];
    }

    /**
     A name matches `^[A-Za-z0-9][A-Za-z0-9._:-]*$` on at most 127 characters.
     The guards in their order, on the rows the transaction can see: a row of this emitter
     and event with an equal digest that is younger than the window makes the call a
     duplicate; `cap` rows of the last minute make it one too many; otherwise it appends.
     `event` is already trimmed, `payload` is its normalised text; sizes are in bytes.
     */
    method Emit(enabled: bool, g: Guards, maxPayload: int, tx: TxId, t: Txn,
                event: string, payload: string, payloadBytes: nat, summaryBytes: Option<nat>, newId: Id)
      returns (r: Emission)
      requires newId !in rows
      modifies this
      ensures r == if !enabled then Disabled
                   else if !(1 <= |event| <= 127 && NameStart(event[0]) && forall i | 0 <= i < |event| :: NameChar(event[i]))
                           || (summaryBytes.Some? && summaryBytes.value > 8192)
                           || (maxPayload > 0 && payloadBytes > maxPayload) then Invalid
                   else Verdict(g, old(rows), tx, t, event, payload, newId)
      ensures enabled && r != Invalid && (summaryBytes.None? || summaryBytes.value <= 8192)
              && (maxPayload <= 0 || payloadBytes <= maxPayload) ==>
                var mine := map id | id in old(rows) && old(rows)[id].emitter == t.user && old(rows)[id].event == event
                                     && (old(rows)[id].writer == None || old(rows)[id].writer == Some(tx)) :: old(rows)[id];
                if g.dedupMs > 0 && exists id :: id in mine && mine[id].ts > t.now - 1000 * g.dedupMs
                                                 && g.digest(mine[id].payload) == g.digest(payload)
                then r == Duplicate
                else if g.cap > 0 && |set id | id in mine && mine[id].ts > t.now - 60_000_000| >= g.cap
                then r == RateLimited
                else r == Appended(newId)
      ensures r.Appended? ==>
                && rows == old(rows)[newId := Row(t.now, t.user, event, payload, None, Some(tx))]
                && notified == old(notified) + [newId]
      ensures !r.Appended? ==> rows == old(rows) && notified == old(notified)
    {
      if !enabled {
        return Disabled;
      }
      if event == "" || |event| > 127 {
        return Invalid;
      }
      if !NameStart(event[0]) || !(forall i | 0 <= i < |event| :: NameChar(event[i])) {
        return Invalid;
      }
      if summaryBytes.Some? && summaryBytes.value > 8192 {
        return Invalid;
      }
      if maxPayload > 0 && payloadBytes > maxPayload {
        return Invalid;
      }
      VerdictIs(g, rows, tx, t, event, payload, newId);
      if g.dedupMs > 0 {
        if exists id | id in rows ::
             && Visible(rows[id], tx) && rows[id].emitter == t.user && rows[id].event == event
             && rows[id].ts > t.now - g.Window() && g.digest(rows[id].payload) == g.digest(payload) {
          assert exists id :: id in Recent(rows, tx, t.user, event, t.now - g.Window())
                              && g.digest(rows[id].payload) == g.digest(payload);
          return Duplicate;
        }
      }
      if g.cap > 0 {
        var counted := Recent(rows, tx, t.user, event, t.now - MINUTE);
        if |counted| >= g.cap {
          return RateLimited;
        }
      }
      rows := rows[newId := Row(t.now, t.user, event, payload, None, Some(tx))];
      notified := notified + [newId];
      r := Appended(newId);
    }
  }

  /** The statements of one call, when no other transaction comes between them. */
  function CallSteps(tx: TxId, event: string, payload: string, verdict: Emission): seq<Step> {
    Opening(tx, event, payload)
    + (if verdict.Duplicate? then [] else [CheckRate(tx)])
    + (if verdict.Appended? then [Insert(tx, verdict.id)] else [])
  }

  /**
   An uninterrupted call, taken step by step after any run in which nobody
   else holds its lock, does to the table what `Emit` does.
   */
  lemma CallIsItsSteps(g: Guards, steps: seq<Step>, tx: TxId, event: string, payload: string, newId: Id)
    requires After(g, steps).Some? && tx in After(g, steps).value.open
    requires var s := After(g, steps).value;
             && s.open[tx].call.NoCall? && newId !in s.rows
             && forall other | other in s.open && other != tx ::
                  g.lockOf(s.open[tx].user, event) !in s.open[other].locks
    ensures var s := After(g, steps).value; var t := s.open[tx];
            var verdict := Verdict(g, s.rows, tx, t, event, payload, newId);
            var end := After(g, steps + CallSteps(tx, event, payload, verdict));
            && end.Some? && tx in end.value.open && end.value.open[tx].call.NoCall?
            && end.value.rows == if verdict.Appended?
                                 then s.rows[newId := Row(t.now, t.user, event, payload, None, Some(tx))]
                                 else s.rows
  {
    var s := After(g, steps).value;
    var verdict := Verdict(g, s.rows, tx, s.open[tx], event, payload, newId);
    var s3 := FirstStatements(g, steps, tx, event, payload);
    CallStepsSplit(steps, tx, event, payload, verdict);
    if !verdict.Duplicate? {
      LastStatements(g, steps + Opening(tx, event, payload), s3, tx, event, payload, newId);
    }
  }

  function Opening(tx: TxId, event: string, payload: string): seq<Step> {
    [Enter(tx, event, payload), TakeLock(tx), CheckDuplicate(tx)]
  }

  lemma CallStepsSplit(steps: seq<Step>, tx: TxId, event: string, payload: string, verdict: Emission)
    ensures verdict.Duplicate? ==>
      steps + CallSteps(tx, event, payload, verdict) == steps + Opening(tx, event, payload)
    ensures !verdict.Duplicate? && !verdict.Appended? ==>
      steps + CallSteps(tx, event, payload, verdict) == steps + Opening(tx, event, payload) + [CheckRate(tx)]
    ensures verdict.Appended? ==>
      steps + CallSteps(tx, event, payload, verdict)
        == steps + Opening(tx, event, payload) + [CheckRate(tx)] + [Insert(tx, verdict.id)]
  {
  }

  lemma FirstStatements(g: Guards, steps: seq<Step>, tx: TxId, event: string, payload: string)
    returns (s3: State)
    requires After(g, steps).Some? && tx in After(g, steps).value.open
    requires var s := After(g, steps).value;
             && s.open[tx].call.NoCall?
             && forall other | other in s.open && other != tx ::
                  g.lockOf(s.open[tx].user, event) !in s.open[other].locks
    ensures var s := After(g, steps).value; var t := s.open[tx];
            && After(g, steps + Opening(tx, event, payload)) == Some(s3)
            && s3.rows == s.rows && tx in s3.open
            && s3.open[tx].now == t.now && s3.open[tx].user == t.user
            && s3.open[tx].call == if g.dedupMs > 0 && HasDuplicate(g, s.rows, tx, t, event, payload)
                                   then NoCall else NotDuplicate(event, payload)
  {
    var s1 := OneMore(g, steps, Enter(tx, event, payload));
    var s2 := OneMore(g, steps + [Enter(tx, event, payload)], TakeLock(tx));
    s3 := OneMore(g, steps + [Enter(tx, event, payload)] + [TakeLock(tx)], CheckDuplicate(tx));
    assert steps + [Enter(tx, event, payload)] + [TakeLock(tx)] + [CheckDuplicate(tx)]
           == steps + Opening(tx, event, payload);
  }

  lemma LastStatements(g: Guards, steps: seq<Step>, s: State, tx: TxId, event: string, payload: string, newId: Id)
    requires After(g, steps) == Some(s) && tx in s.open
    requires s.open[tx].call == NotDuplicate(event, payload) && newId !in s.rows
    ensures var t := s.open[tx];
            if g.cap > 0 && OverCap(g, s.rows, tx, t, event)
            then
              var end := After(g, steps + [CheckRate(tx)]);
              && end.Some? && end.value.rows == s.rows
              && tx in end.value.open && end.value.open[tx].call.NoCall?
            else
              var end := After(g, steps + [CheckRate(tx)] + [Insert(tx, newId)]);
              && end.Some?
              && end.value.rows == s.rows[newId := Row(t.now, t.user, event, payload, None, Some(tx))]
              && tx in end.value.open && end.value.open[tx].call.NoCall?
  {
    var s4 := OneMore(g, steps, CheckRate(tx));
    if !(g.cap > 0 && OverCap(g, s.rows, tx, s.open[tx], event)) {
      var s5 := OneMore(g, steps + [CheckRate(tx)], Insert(tx, newId));
    }
  }

  lemma OneMore(g: Guards, steps: seq<Step>, step: Step) returns (next: State)
    requires After(g, steps).Some? && Enabled(g, After(g, steps).value, step)
    ensures next == Apply(g, After(g, steps).value, step)
    ensures After(g, steps + [step]) == Some(next)
  {
    next := Apply(g, After(g, steps).value, step);
    assert (steps + [step])[..|steps + [step]| - 1] == steps;
  }
}
