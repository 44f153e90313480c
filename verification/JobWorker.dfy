/**
 One pass of the background worker, with no other actor: it recovers orphans,
 then claims and runs jobs, each claim and each run in a transaction of its own.
 Unlike the synchronous drain it does not remember which jobs it has run.
 */
module JobWorker {
  import opened Common
  import opened JobTable
  import opened JobDrain
  import opened JobProgress

  /** `clock` gives the start of each transaction; SIGTERM is noticed before turn `stopAt`. */
  datatype Shift = Shift(
    enabled: bool, db: string, pid: Pid, agent: Agent, maxAttempts: int, timeoutMs: int, batch: int,
    clock: nat -> Time, stopAt: nat)

  // ----- One turn --------------------------------------------------------------

  function RunAt(rows: Rows, id: Id, w: Shift, turn: nat): Job
    requires id in rows
  {
    Settled(ClaimedBy(rows[id], w.pid, w.clock(2 * turn + 1)), w.agent(id, rows[id].attempts + 1), w.maxAttempts,
            w.clock(2 * turn + 2))
  }

  lemma NextIsUnique(rows: Rows, db: string, a: Id, b: Id)
    requires IsNext(rows, db, {}, a) && IsNext(rows, db, {}, b)
    ensures a == b
  {
  }

  ghost predicate SomeoneWaits(rows: Rows, db: string) { exists id :: IsNext(rows, db, {}, id) }

  ghost function Head(rows: Rows, db: string): (id: Id)
    requires SomeoneWaits(rows, db)
    ensures IsNext(rows, db, {}, id)
  {
    var id :| IsNext(rows, db, {}, id); id
  }

  ghost function Turn(rows: Rows, w: Shift, turn: nat): Rows {
    if turn >= w.stopAt || !SomeoneWaits(rows, w.db) then rows
    else rows[Head(rows, w.db) := RunAt(rows, Head(rows, w.db), w, turn)]
  }

  /** The table after `n` turns from turn `turn` on. */
  ghost function Worked(rows: Rows, w: Shift, turn: nat, n: nat): Rows
    decreases n
  {
    if n == 0 then rows else Worked(Turn(rows, w, turn), w, turn + 1, n - 1)
  }

  /** The done-notice of a turn. */
  ghost function Finished(rows: Rows, w: Shift, turn: nat): seq<Id> {
    if turn >= w.stopAt || !SomeoneWaits(rows, w.db) then []
    else
      var id := Head(rows, w.db);
      if RunAt(rows, id, w, turn).status in {Done, Failed} then [id] else []
  }

  /** The wake-up of a turn: a job was put back. */
  ghost function Retried(rows: Rows, w: Shift, turn: nat): seq<Id> {
    if turn >= w.stopAt || !SomeoneWaits(rows, w.db) then []
    else
      var id := Head(rows, w.db);
      if RunAt(rows, id, w, turn).status == Pending then [id] else []
  }

  ghost function Notices(rows: Rows, w: Shift, turn: nat, n: nat): seq<Id>
    decreases n
  {
    if n == 0 then [] else Finished(rows, w, turn) + Notices(Turn(rows, w, turn), w, turn + 1, n - 1)
  }

  ghost function Wakes(rows: Rows, w: Shift, turn: nat, n: nat): seq<Id>
    decreases n
  {
    if n == 0 then [] else Retried(rows, w, turn) + Wakes(Turn(rows, w, turn), w, turn + 1, n - 1)
  }

  function Turns(w: Shift): nat { if w.batch > 1 then w.batch else 1 }

  /** The table as the turns of a pass find it. */
  function AtStart(rows: Rows, w: Shift): Rows { Recovered(rows, w.db, w.timeoutMs, w.clock(0)) }

  ghost function AfterPass(rows: Rows, w: Shift): Rows {
    if w.enabled then Worked(AtStart(rows, w), w, 0, Turns(w)) else rows
  }

  lemma TurnTaken(rows: Rows, w: Shift, turn: nat, id: Id)
    requires turn < w.stopAt && IsNext(rows, w.db, {}, id)
    ensures Turn(rows, w, turn) == rows[id := RunAt(rows, id, w, turn)]
  {
    NextIsUnique(rows, w.db, id, Head(rows, w.db));
  }

  lemma TurnReported(rows: Rows, w: Shift, turn: nat, id: Id)
    requires turn < w.stopAt && IsNext(rows, w.db, {}, id)
    ensures Finished(rows, w, turn) == if RunAt(rows, id, w, turn).status in {Done, Failed} then [id] else []
    ensures Retried(rows, w, turn) == if RunAt(rows, id, w, turn).status == Pending then [id] else []
  {
    NextIsUnique(rows, w.db, id, Head(rows, w.db));
  }

  /** A turn runs the oldest pending job of the database and changes no other row; with none, or after a stop, nothing. */
  lemma TurnRunsTheOldest(rows: Rows, w: Shift, turn: nat) returns (id: Option<Id>)
    ensures var after := Turn(rows, w, turn);
      && (id.None? <==>
            turn >= w.stopAt || forall o | o in rows :: rows[o].status != Pending || rows[o].db != w.db)
      && (id.None? ==> after == rows)
      && (id.Some? ==>
            && id.value in rows && rows[id.value].status == Pending && rows[id.value].db == w.db
            && (forall o | o in rows && rows[o].status == Pending && rows[o].db == w.db ::
                  && rows[id.value].ts <= rows[o].ts
                  && (rows[id.value].ts == rows[o].ts ==> id.value <= o))
            && id.value in after && after == rows[id.value := after[id.value]]
            && RanOnce(rows[id.value], after[id.value], w.agent(id.value, rows[id.value].attempts + 1), w.maxAttempts, 0))
  {
    if turn >= w.stopAt || !SomeoneWaits(rows, w.db) {
      id := None;
      if turn < w.stopAt && Waiting(rows, w.db, {}) != {} {
        NextExists(rows, w.db, {});
      }
      assert forall o | o in rows && Claimable(rows, w.db, {}, o) :: o in Waiting(rows, w.db, {});
    } else {
      var head := Head(rows, w.db);
      id := Some(head);
      forall o | o in rows && Claimable(rows, w.db, {}, o)
        ensures rows[head].ts <= rows[o].ts && (rows[head].ts == rows[o].ts ==> head <= o)
      {
        assert NotAfter(rows, head, o);
      }
    }
  }

  /** Once the worker stops, or nobody waits, nothing more happens. */
  lemma {:induction false} PassEnds(rows: Rows, w: Shift, turn: nat, n: nat)
    requires turn >= w.stopAt || !SomeoneWaits(rows, w.db)
    ensures Worked(rows, w, turn, n) == rows && Notices(rows, w, turn, n) == [] && Wakes(rows, w, turn, n) == []
    decreases n
  {
    if n > 0 {
      PassEnds(rows, w, turn + 1, n - 1);
    }
  }

  /** The settings of turn `turn`'s second transaction. */
  function PassOf(w: Shift, turn: nat): Pass {
    Pass(w.db, w.pid, w.clock(2 * turn + 2), w.agent, w.maxAttempts, Turns(w))
  }

  /** Claims and runs one job, unless the worker is to stop or nobody waits. */
  method TakeTurn(store: JobStore, w: Shift, turn: nat) returns (worked: bool)
    modifies store`rows, store`done, store`wake
    ensures store.rows == Turn(old(store.rows), w, turn)
    ensures store.done == old(store.done) + Finished(old(store.rows), w, turn)
    ensures store.wake == old(store.wake) + Retried(old(store.rows), w, turn)
    ensures !worked ==> turn >= w.stopAt || !SomeoneWaits(store.rows, w.db)
  {
    if turn >= w.stopAt {
      return false;
    }
    ghost var now := store.rows;
    var claimed := store.Claim(w.db, {}, w.pid, w.clock(2 * turn + 1));
    if claimed.None? {
      assert !SomeoneWaits(now, w.db);
      return false;
    }
    var id := claimed.value;
    TurnTaken(now, w, turn, id);
    TurnReported(now, w, turn, id);
    ExecuteClaimed(store, id, w.agent(id, store.rows[id].attempts), PassOf(w, turn));
    assert store.rows == now[id := RunAt(now, id, w, turn)];
    return true;
  }

  method DrainOnce(store: JobStore, w: Shift)
    modifies store`rows, store`done, store`wake
    ensures store.rows == AfterPass(old(store.rows), w)
    ensures store.done
         == old(store.done) + if w.enabled then Notices(AtStart(old(store.rows), w), w, 0, Turns(w)) else []
    ensures store.wake
         == old(store.wake) + if w.enabled then Wakes(AtStart(old(store.rows), w), w, 0, Turns(w)) else []
  {
    if !w.enabled {
      return;
    }
    var _ := store.RecoverOrphans(w.db, w.timeoutMs, w.clock(0));
    ghost var start, sent, woken := store.rows, store.done, store.wake;
    var max := if w.batch > 1 then w.batch else 1;
    StartOfPass(start, sent, woken, w, max);
    for turn := 0 to max
      invariant OnCourse(start, sent, woken, w, max, store.rows, store.done, store.wake, turn)
    {
      ghost var rows, done, wake := store.rows, store.done, store.wake;
      var worked := TakeTurn(store, w, turn);
      OneTurn(start, sent, woken, w, max, rows, done, wake, turn, store.rows, store.done, store.wake);
      if !worked {
        PassEnds(store.rows, w, turn + 1, max - turn - 1);
        return;
      }
    }
  }

  /** From the table and the channels as they are, the `max - turn` turns left lead where all of them lead from the start. */
  ghost predicate OnCourse(start: Rows, sent: seq<Id>, woken: seq<Id>, w: Shift, max: nat,
                           rows: Rows, done: seq<Id>, wake: seq<Id>, turn: nat)
  {
    && turn <= max
    && Worked(start, w, 0, max) == Worked(rows, w, turn, max - turn)
    && sent + Notices(start, w, 0, max) == done + Notices(rows, w, turn, max - turn)
    && woken + Wakes(start, w, 0, max) == wake + Wakes(rows, w, turn, max - turn)
  }

  lemma StartOfPass(start: Rows, sent: seq<Id>, woken: seq<Id>, w: Shift, max: nat)
    ensures OnCourse(start, sent, woken, w, max, start, sent, woken, 0)
  {
  }

  lemma OneTurn(start: Rows, sent: seq<Id>, woken: seq<Id>, w: Shift, max: nat, rows: Rows, done: seq<Id>, wake: seq<Id>,
                turn: nat, rows': Rows, done': seq<Id>, wake': seq<Id>)
    requires OnCourse(start, sent, woken, w, max, rows, done, wake, turn) && turn < max
    requires rows' == Turn(rows, w, turn)
    requires done' == done + Finished(rows, w, turn) && wake' == wake + Retried(rows, w, turn)
    ensures OnCourse(start, sent, woken, w, max, rows', done', wake', turn + 1)
  {
    Associative(done, Finished(rows, w, turn), Notices(rows', w, turn + 1, max - turn - 1));
    Associative(wake, Retried(rows, w, turn), Wakes(rows', w, turn + 1, max - turn - 1));
  }

  // ----- The head of the queue ------------------------------------------------------

  /** The run after `attempts` claims fails with attempts left. */
  predicate FailsForNow(id: Id, attempts: nat, w: Shift) {
    w.agent(id, attempts + 1).Failure? && attempts + 1 < w.maxAttempts
  }

  /** How many runs bring a job to a terminal state. */
  function RunsNeeded(id: Id, attempts: nat, w: Shift): (n: nat)
    ensures n >= 1
    decreases w.maxAttempts - attempts
  {
    if FailsForNow(id, attempts, w) then 1 + RunsNeeded(id, attempts + 1, w) else 1
  }

  /** A job put back for a retry keeps its place at the head. */
  lemma HeadStays(rows: Rows, w: Shift, turn: nat, id: Id)
    requires IsNext(rows, w.db, {}, id) && FailsForNow(id, rows[id].attempts, w)
    ensures IsNext(rows[id := RunAt(rows, id, w, turn)], w.db, {}, id)
    ensures RunAt(rows, id, w, turn).attempts == rows[id].attempts + 1
  {
    var now := rows[id := RunAt(rows, id, w, turn)];
    forall other | other in now && Claimable(now, w.db, {}, other)
      ensures NotAfter(now, id, other)
    {
      assert other == id || Claimable(rows, w.db, {}, other);
    }
  }

  predicate NoStop(w: Shift, turn: nat, n: nat) { turn + n <= w.stopAt }

  /** Only the job's own row has changed, by `n` more attempts. */
  predicate Stayed(a: Rows, b: Rows, id: Id, n: nat) {
    OnlyChanged(a, b, id) && id in a && id in b && b[id].attempts == a[id].attempts + n
  }

  /**
   The worker stays with the job at the head until it is finished: while the turns
   last no longer than the runs the job needs, no other row changes.
   */
  lemma {:induction false} StaysWithTheHead(rows: Rows, w: Shift, turn: nat, n: nat, id: Id)
    requires IsNext(rows, w.db, {}, id) && NoStop(w, turn, n)
    requires n <= RunsNeeded(id, rows[id].attempts, w)
    ensures Stayed(rows, Worked(rows, w, turn, n), id, n)
    ensures Worked(rows, w, turn, n)[id].status in {Done, Failed} <==> n == RunsNeeded(id, rows[id].attempts, w)
    decreases n
  {
    if n > 0 {
      var next := Turn(rows, w, turn);
      HeadTurn(rows, w, turn, id);
      if FailsForNow(id, rows[id].attempts, w) {
        StaysWithTheHead(next, w, turn + 1, n - 1, id);
        StayedOn(rows, next, Worked(next, w, turn + 1, n - 1), id, n - 1);
      }
    }
  }

  /** One run of the head: it is finished, or first in line again. */
  lemma HeadTurn(rows: Rows, w: Shift, turn: nat, id: Id)
    requires IsNext(rows, w.db, {}, id) && turn < w.stopAt
    ensures Stayed(rows, Turn(rows, w, turn), id, 1)
    ensures if FailsForNow(id, rows[id].attempts, w) then IsNext(Turn(rows, w, turn), w.db, {}, id)
            else Turn(rows, w, turn)[id].status in {Done, Failed}
  {
    TurnTaken(rows, w, turn, id);
    if FailsForNow(id, rows[id].attempts, w) {
      HeadStays(rows, w, turn, id);
    }
  }

  lemma StayedOn(rows: Rows, next: Rows, after: Rows, id: Id, n: nat)
    requires Stayed(rows, next, id, 1) && Stayed(next, after, id, n)
    ensures Stayed(rows, after, id, n + 1)
  {
  }

  /** A pass goes on from where any part of it has led: once the head is finished, with the others. */
  lemma {:induction false} PassGoesOn(rows: Rows, w: Shift, turn: nat, n: nat, k: nat)
    requires k <= n
    ensures Worked(rows, w, turn, n) == Worked(Worked(rows, w, turn, k), w, turn + k, n - k)
    decreases k
  {
    if k > 0 {
      PassGoesOn(Turn(rows, w, turn), w, turn + 1, n - 1, k - 1);
    }
  }

  lemma {:induction false} FailingRuns(id: Id, attempts: nat, w: Shift)
    requires forall a: nat :: w.agent(id, a).Failure?
    ensures RunsNeeded(id, attempts, w) == if attempts < w.maxAttempts then w.maxAttempts - attempts else 1
    decreases w.maxAttempts - attempts
  {
    if attempts + 1 < w.maxAttempts {
      FailingRuns(id, attempts + 1, w);
    }
  }

  lemma {:induction false} AttemptsGrow(rows: Rows, w: Shift, turn: nat, n: nat, id: Id)
    requires id in rows
    ensures id in Worked(rows, w, turn, n) && Worked(rows, w, turn, n)[id].attempts >= rows[id].attempts
    decreases n
  {
    if n > 0 {
      AttemptsGrow(Turn(rows, w, turn), w, turn + 1, n - 1, id);
    }
  }

  /** When somebody waits and the worker goes on, some waiting row changes for good. */
  lemma SomeRowMoves(rows: Rows, w: Shift, turn: nat, n: nat, other: Id) returns (head: Id)
    requires Claimable(rows, w.db, {}, other) && turn < w.stopAt && n > 0
    ensures Claimable(rows, w.db, {}, head) && head in Worked(rows, w, turn, n)
    ensures Worked(rows, w, turn, n)[head].attempts > rows[head].attempts
  {
    assert other in Waiting(rows, w.db, {});
    NextExists(rows, w.db, {});
    head := Head(rows, w.db);
    AttemptsGrow(Turn(rows, w, turn), w, turn + 1, n - 1, head);
  }

  /**
   With somebody waiting behind the head, the pass touches no other row if and only
   if it has no more turns than the head needs runs.
   */
  lemma OthersWaitIff(rows: Rows, w: Shift, turn: nat, n: nat, id: Id, other: Id)
    requires IsNext(rows, w.db, {}, id) && NoStop(w, turn, n)
    requires other != id && Claimable(rows, w.db, {}, other)
    ensures OnlyChanged(rows, Worked(rows, w, turn, n), id) <==> n <= RunsNeeded(id, rows[id].attempts, w)
  {
    var k := RunsNeeded(id, rows[id].attempts, w);
    if n <= k {
      StaysWithTheHead(rows, w, turn, n, id);
    } else {
      StaysWithTheHead(rows, w, turn, k, id);
      PassGoesOn(rows, w, turn, n, k);
      var head := SomeRowMoves(Worked(rows, w, turn, k), w, turn + k, n - k, other);
      assert head != id && rows[head] == Worked(rows, w, turn, k)[head];
    }
  }

  /**
   A job at the head that always fails, with others waiting, takes the whole pass
   if and only if the batch is no larger than the attempts it has left, or is 1.
   */
  lemma FailingHeadTakesThePass(rows: Rows, w: Shift, id: Id, other: Id)
    requires IsNext(rows, w.db, {}, id) && forall a: nat :: w.agent(id, a).Failure?
    requires other != id && Claimable(rows, w.db, {}, other) && NoStop(w, 0, Turns(w))
    ensures OnlyChanged(rows, Worked(rows, w, 0, Turns(w)), id) <==>
              w.batch <= 1 || rows[id].attempts + w.batch <= w.maxAttempts
  {
    FailingRuns(id, rows[id].attempts, w);
    OthersWaitIff(rows, w, 0, Turns(w), id, other);
  }

  /** The worker gives a job that always fails exactly as many runs as its limit allows. */
  lemma FreshFailingJob(rows: Rows, w: Shift, turn: nat, id: Id)
    requires IsNext(rows, w.db, {}, id) && forall a: nat :: w.agent(id, a).Failure?
    requires rows[id].attempts == 0 && w.maxAttempts >= 1 && NoStop(w, turn, w.maxAttempts)
    ensures forall n: nat | n <= w.maxAttempts ::
              && id in Worked(rows, w, turn, n)
              && Worked(rows, w, turn, n)[id].status == if n < w.maxAttempts then Pending else Failed
  {
    FailingRuns(id, 0, w);
    forall n: nat | n <= w.maxAttempts
      ensures id in Worked(rows, w, turn, n)
      ensures Worked(rows, w, turn, n)[id].status == if n < w.maxAttempts then Pending else Failed
    {
      StaysWithTheHead(rows, w, turn, n, id);
      FailedNotDone(rows, w, turn, n, id);
    }
  }

  lemma {:induction false} FailedNotDone(rows: Rows, w: Shift, turn: nat, n: nat, id: Id)
    requires id in rows && rows[id].status in {Pending, Failed} && forall a: nat :: w.agent(id, a).Failure?
    ensures id in Worked(rows, w, turn, n) && Worked(rows, w, turn, n)[id].status in {Pending, Failed}
    decreases n
  {
    if n > 0 {
      FailedNotDone(Turn(rows, w, turn), w, turn + 1, n - 1, id);
    }
  }

  // ----- What a pass leaves alone, and what it leaves behind -----------------------------

  predicate NoneRunningFor(rows: Rows, pid: Pid) { forall id | id in rows :: !OwnedBy(rows[id], pid) }

  lemma {:induction false} TurnsAreClean(rows: Rows, w: Shift, turn: nat, n: nat)
    requires NoneRunningFor(rows, w.pid)
    ensures var after := Worked(rows, w, turn, n);
      && NoneRunningFor(after, w.pid) && after.Keys == rows.Keys
      && (forall id | id in rows && !Claimable(rows, w.db, {}, id) :: after[id] == rows[id])
    decreases n
  {
    if n > 0 {
      TurnsAreClean(Turn(rows, w, turn), w, turn + 1, n - 1);
    }
  }

  /**
   A pass leaves no row running under its own pid, and touches only rows that were
   pending in its database or overdue there.
   */
  lemma PassIsClean(rows: Rows, w: Shift)
    requires NoneRunningFor(rows, w.pid)
    ensures var after := AfterPass(rows, w);
      && NoneRunningFor(after, w.pid) && after.Keys == rows.Keys
      && (forall id | id in rows :: after[id] != rows[id] ==>
            Claimable(rows, w.db, {}, id) || Orphaned(rows[id], w.db, w.timeoutMs, w.clock(0)))
  {
    var start := AtStart(rows, w);
    RecoveredRows(rows, w.db, w.timeoutMs, w.clock(0));
    assert NoneRunningFor(start, w.pid) by {
      forall id | id in start
        ensures !OwnedBy(start[id], w.pid)
      {
        assert !OwnedBy(rows[id], w.pid);
      }
    }
    TurnsAreClean(start, w, 0, Turns(w));
  }

  lemma {:induction false} NoneLeftRunning(rows: Rows, w: Shift, turn: nat, n: nat, id: Id)
    requires id in rows && rows[id].status != Running
    ensures id in Worked(rows, w, turn, n) && Worked(rows, w, turn, n)[id].status != Running
    decreases n
  {
    if n > 0 { NoneLeftRunning(Turn(rows, w, turn), w, turn + 1, n - 1, id); }
  }

  /** A job overdue when the pass begins waits or is finished when it ends: the pass recovers before it claims. */
  lemma OverdueIsRecovered(rows: Rows, w: Shift, id: Id)
    requires w.enabled && id in rows && rows[id].status == Running && rows[id].db == w.db
    requires rows[id].startedAt.Some? && w.clock(0) - rows[id].startedAt.value > 1000 * w.timeoutMs
    ensures id in AfterPass(rows, w) && AfterPass(rows, w)[id].status != Running
    ensures AtStart(rows, w)[id] == rows[id].(status := Pending, startedAt := None, workerPid := None)
  {
    NoneLeftRunning(AtStart(rows, w), w, 0, Turns(w), id);
  }

  predicate Reported(j: Job) { j.status in {Done, Failed} }

  function CountOf(ids: seq<Id>, id: Id): nat { multiset(ids)[id] }

  lemma CountOfJoin(a: seq<Id>, b: seq<Id>, id: Id)
    ensures CountOf(a + b, id) == CountOf(a, id) + CountOf(b, id)
  {
    assert multiset(a + b) == multiset(a) + multiset(b);
  }

  /** One if the job was finished between the two tables, none otherwise. */
  function Finishing(a: Rows, b: Rows, id: Id): nat {
    if id in a && id in b && !Reported(a[id]) && Reported(b[id]) then 1 else 0
  }

  lemma TurnNotice(rows: Rows, w: Shift, turn: nat, id: Id)
    ensures var after := Turn(rows, w, turn);
      && CountOf(Finished(rows, w, turn), id) == Finishing(rows, after, id)
      && after.Keys == rows.Keys && (id in rows && Reported(rows[id]) ==> Reported(after[id]))
  {
  }

  lemma {:induction false} ReportedStays(rows: Rows, w: Shift, turn: nat, n: nat, id: Id)
    ensures var after := Worked(rows, w, turn, n);
      after.Keys == rows.Keys && (id in rows && Reported(rows[id]) ==> Reported(after[id]))
    decreases n
  {
    if n > 0 {
      TurnNotice(rows, w, turn, id);
      ReportedStays(Turn(rows, w, turn), w, turn + 1, n - 1, id);
    }
  }

  /** Done-notices are exact: one for each job the turns finish, none for any other. */
  lemma {:induction false} NoticesAreExact(rows: Rows, w: Shift, turn: nat, n: nat, id: Id)
    ensures CountOf(Notices(rows, w, turn, n), id) == Finishing(rows, Worked(rows, w, turn, n), id)
    decreases n
  {
    if n > 0 {
      var next := Turn(rows, w, turn);
      TurnNotice(rows, w, turn, id);
      ReportedStays(next, w, turn + 1, n - 1, id);
      NoticesAreExact(next, w, turn + 1, n - 1, id);
      CountOfJoin(Finished(rows, w, turn), Notices(next, w, turn + 1, n - 1), id);
    }
  }
}
