/**
 The synchronous drain: one backend, one transaction, no other actor. It claims
 and runs pending jobs one after the other and stops at the first job that it
 is handed a second time.

 The agent is any function of the job and of the attempt that runs it.
 */
module JobDrain {
  import opened Common
  import opened JobTable

  type Agent = (Id, nat) -> Outcome

  /** What stays fixed during one drain; `now()` is the start of its transaction. */
  datatype Pass = Pass(db: string, pid: Pid, now: Time, agent: Agent, maxAttempts: int, batch: nat)

  // ----- The queue, oldest first ---------------------------------------------

  predicate Sorted(q: seq<Id>, rows: Rows)
    requires forall i | 0 <= i < |q| :: q[i] in rows
  {
    forall i, j | 0 <= i < j < |q| :: NotAfter(rows, q[i], q[j]) && q[i] != q[j]
  }

  /** `q` lists the claimable jobs of `db` in (ts, id) order, each once. */
  predicate IsQueue(q: seq<Id>, rows: Rows, db: string) {
    && (forall i | 0 <= i < |q| :: q[i] in rows && rows[q[i]].status == Pending && rows[q[i]].db == db)
    && (forall id | id in rows && rows[id].status == Pending && rows[id].db == db :: id in q)
    && Sorted(q, rows)
  }

  lemma {:induction false} QueueExists(rows: Rows, db: string, locked: set<Id>) returns (q: seq<Id>)
    ensures forall i | 0 <= i < |q| :: q[i] in rows && Claimable(rows, db, locked, q[i])
    ensures forall id | id in rows && Claimable(rows, db, locked, id) :: id in q
    ensures Sorted(q, rows)
    decreases |Waiting(rows, db, locked)|
  {
    assert forall id | id in rows && Claimable(rows, db, locked, id) :: id in Waiting(rows, db, locked);
    if Waiting(rows, db, locked) == {} {
      q := [];
    } else {
      NextExists(rows, db, locked);
      var id :| IsNext(rows, db, locked, id);
      assert Waiting(rows, db, locked + {id}) == Waiting(rows, db, locked) - {id};
      assert id in Waiting(rows, db, locked);
      var rest := QueueExists(rows, db, locked + {id});
      q := [id] + rest;
      forall other | other in rows && Claimable(rows, db, locked, other) ensures other in q {
        if other != id {
          assert Claimable(rows, db, locked + {id}, other);
          assert other in rest;
        }
      }
      forall i, j | 0 <= i < j < |q| ensures NotAfter(rows, q[i], q[j]) && q[i] != q[j] {
        assert q[j] == rest[j - 1];
        assert i > 0 ==> q[i] == rest[i - 1];
      }
    }
  }

  ghost function Queue(rows: Rows, db: string): (q: seq<Id>)
    ensures IsQueue(q, rows, db)
  {
    assert exists q :: IsQueue(q, rows, db) by {
      var q := QueueExists(rows, db, {});
      assert IsQueue(q, rows, db);
    }
    var q :| IsQueue(q, rows, db); q
  }

  /** The queue holds every pending job of the database once, by age, and by id among jobs of equal age. */
  lemma QueueIsOldestFirst(q: seq<Id>, rows: Rows, db: string)
    requires IsQueue(q, rows, db)
    ensures forall id :: id in q <==> id in rows && rows[id].status == Pending && rows[id].db == db
    ensures forall i, j | 0 <= i < j < |q| ::
              && rows[q[i]].ts <= rows[q[j]].ts
              && (rows[q[i]].ts == rows[q[j]].ts ==> q[i] < q[j])
  {
    forall i, j | 0 <= i < j < |q|
      ensures rows[q[i]].ts <= rows[q[j]].ts && (rows[q[i]].ts == rows[q[j]].ts ==> q[i] < q[j])
    {
      assert NotAfter(rows, q[i], q[j]);
    }
  }

  // ----- What one drain does ---------------------------------------------------

  /** A claimed and recorded job. */
  function RunOnce(rows: Rows, id: Id, p: Pass): Job
    requires id in rows
  {
    Settled(ClaimedBy(rows[id], p.pid, p.now), p.agent(id, rows[id].attempts + 1), p.maxAttempts, p.now)
  }

  /** The run of this job fails with attempts left. */
  predicate Retries(rows: Rows, id: Id, p: Pass)
    requires id in rows
  {
    p.agent(id, rows[id].attempts + 1).Failure? && rows[id].attempts + 1 < p.maxAttempts
  }

  /** `n` jobs of the queue are run: up to and including the first retry, `batch`, or all. */
  ghost predicate Stops(q: seq<Id>, rows: Rows, p: Pass, n: nat)
    requires IsQueue(q, rows, p.db)
  {
    && n <= |q| && n <= p.batch
    && (forall i | 0 <= i < n - 1 :: !Retries(rows, q[i], p))
    && (n == |q| || n == p.batch || (n > 0 && Retries(rows, q[n - 1], p)))
  }

  /** The last job run was put back and is handed out again, because the batch has room left. */
  predicate HandedBack(q: seq<Id>, rows: Rows, p: Pass, n: nat)
    requires IsQueue(q, rows, p.db) && n <= |q|
  {
    0 < n < p.batch && Retries(rows, q[n - 1], p)
  }

  function PositionOf(q: seq<Id>, id: Id): (i: nat)
    ensures i <= |q|
    ensures i < |q| ==> q[i] == id
    ensures i == |q| ==> id !in q
  {
    if q == [] then 0 else if q[0] == id then 0 else 1 + PositionOf(q[1..], id)
  }

  /**
   The table after a drain that ran `q[..n]`. A job handed back was claimed
   twice: the release returns it to the queue but keeps the attempt counted.
   */
  function Drained(rows: Rows, q: seq<Id>, p: Pass, n: nat, again: bool): Rows
    requires IsQueue(q, rows, p.db) && n <= |q|
  {
    map id | id in rows :: DrainedJob(rows, id, PositionOf(q, id), p, n, again)
  }

  function DrainedJob(rows: Rows, id: Id, position: nat, p: Pass, n: nat, again: bool): Job
    requires id in rows
  {
    if position + 1 == n && again then Requeued(ClaimedBy(RunOnce(rows, id, p), p.pid, p.now))
    else if position < n then RunOnce(rows, id, p)
    else rows[id]
  }

  lemma PositionInSorted(q: seq<Id>, rows: Rows, i: nat)
    requires i < |q| && (forall k | 0 <= k < |q| :: q[k] in rows) && Sorted(q, rows)
    ensures PositionOf(q, q[i]) == i
  {
  }

  /** The i-th job of the queue after `q[..n]` has been run. */
  lemma DrainedAt(rows: Rows, q: seq<Id>, p: Pass, n: nat, again: bool, i: nat)
    requires IsQueue(q, rows, p.db) && n <= |q| && i < |q|
    ensures var now := Drained(rows, q, p, n, again);
            && q[i] in now && now[q[i]] == DrainedJob(rows, q[i], i, p, n, again)
            && now[q[i]].ts == rows[q[i]].ts && now[q[i]].db == p.db
            && (!again ==> (now[q[i]].status == Pending <==> i >= n || Retries(rows, q[i], p)))
  {
    PositionInSorted(q, rows, i);
  }

  lemma EarlierIsFirst(rows: Rows, q: seq<Id>, db: string, a: nat, b: nat)
    requires IsQueue(q, rows, db) && a <= b < |q| && NotAfter(rows, q[b], q[a])
    ensures a == b
  {
  }

  /** Who is claimed next, once `q[..n]` has been run without a retry before the last. */
  lemma NextInLine(rows: Rows, q: seq<Id>, p: Pass, n: nat, id: Id)
    requires IsQueue(q, rows, p.db) && n <= |q|
    requires forall i | 0 <= i < n - 1 :: !Retries(rows, q[i], p)
    requires IsNext(Drained(rows, q, p, n, false), p.db, {}, id)
    ensures if n > 0 && Retries(rows, q[n - 1], p) then id == q[n - 1]
            else n < |q| && id == q[n]
  {
    var now := Drained(rows, q, p, n, false);
    var head := if n > 0 && Retries(rows, q[n - 1], p) then n - 1 else n;
    var k := PositionOf(q, id);
    DrainedAt(rows, q, p, n, false, k);
    DrainedAt(rows, q, p, n, false, head);
    assert Claimable(now, p.db, {}, q[head]);
    assert NotAfter(now, id, q[head]);
    EarlierIsFirst(rows, q, p.db, head, k);
  }

  /** While the queue is not used up, or its last job was put back, somebody is claimed. */
  lemma SomebodyInLine(rows: Rows, q: seq<Id>, p: Pass, n: nat)
    requires IsQueue(q, rows, p.db) && n <= |q|
    requires n < |q| || (n > 0 && Retries(rows, q[n - 1], p))
    ensures exists id :: Claimable(Drained(rows, q, p, n, false), p.db, {}, id)
  {
    var i := if n < |q| then n else n - 1;
    DrainedAt(rows, q, p, n, false, i);
    assert Claimable(Drained(rows, q, p, n, false), p.db, {}, q[i]);
  }

  /** Two drained tables differ at most in the job where their prefixes differ. */
  lemma DrainedElsewhere(rows: Rows, q: seq<Id>, p: Pass, n: nat, m: nat, again: bool, at: nat)
    requires IsQueue(q, rows, p.db) && n <= m <= |q| && at < |q|
    requires (n == at && m == at + 1 && !again) || n == m == at + 1
    ensures var now, more := Drained(rows, q, p, n, false), Drained(rows, q, p, m, again);
            q[at] in now && more == now[q[at] := DrainedJob(rows, q[at], at, p, m, again)]
  {
    PositionInSorted(q, rows, at);
    var job := DrainedJob(rows, q[at], at, p, m, again);
    var now, more := Drained(rows, q, p, n, false), Drained(rows, q, p, m, again);
    var one := now[q[at] := job];
    forall id | id in rows ensures more[id] == one[id] {
      DrainedJobElsewhere(rows, id, PositionOf(q, id), p, n, m, again, at);
    }
    assert more.Keys == one.Keys;
  }

  lemma DrainedJobElsewhere(rows: Rows, id: Id, k: nat, p: Pass, n: nat, m: nat, again: bool, at: nat)
    requires id in rows && ((n == at && m == at + 1 && !again) || n == m == at + 1)
    ensures k != at ==> DrainedJob(rows, id, k, p, m, again) == DrainedJob(rows, id, k, p, n, false)
  {
  }

  /** Running one more job extends the drained prefix. */
  lemma DrainedOneMore(rows: Rows, q: seq<Id>, p: Pass, n: nat)
    requires IsQueue(q, rows, p.db) && n < |q|
    ensures var now := Drained(rows, q, p, n, false);
            && q[n] in now && now[q[n]] == rows[q[n]]
            && Drained(rows, q, p, n + 1, false) == now[q[n] := RunOnce(rows, q[n], p)]
  {
    DrainedAt(rows, q, p, n, false, n);
    DrainedElsewhere(rows, q, p, n, n + 1, false, n);
  }

  /** Claiming and releasing the last job run. */
  lemma DrainedHandedBack(rows: Rows, q: seq<Id>, p: Pass, n: nat)
    requires IsQueue(q, rows, p.db) && 0 < n <= |q|
    ensures var now := Drained(rows, q, p, n, false); var id := q[n - 1];
            id in now && now[id := Requeued(ClaimedBy(now[id], p.pid, p.now))] == Drained(rows, q, p, n, true)
  {
    DrainedAt(rows, q, p, n, false, n - 1);
    DrainedElsewhere(rows, q, p, n, n, true, n - 1);
  }

  /** A claim followed by the recording of its run. */
  lemma RunOfClaim(now: Rows, rows: Rows, id: Id, p: Pass)
    requires id in now && id in rows && now[id] == rows[id]
    ensures var claimed := now[id := ClaimedBy(now[id], p.pid, p.now)];
            && claimed[id].attempts == rows[id].attempts + 1 && OwnedBy(claimed[id], p.pid)
            && JobTable.Record(claimed, id, p.pid, p.agent(id, claimed[id].attempts), p.maxAttempts, p.now)
               == now[id := RunOnce(rows, id, p)]
            && (RunOnce(rows, id, p).status in {Done, Failed} <==> !Retries(rows, id, p))
  {
  }

  lemma ReleaseOfClaim(now: Rows, id: Id, p: Pass)
    requires id in now
    ensures JobTable.Release(now[id := ClaimedBy(now[id], p.pid, p.now)], id, p.pid)
            == now[id := Requeued(ClaimedBy(now[id], p.pid, p.now))]
  {
  }

  /** Being handed a job of `q[..n]` again means that the last one was put back. */
  lemma SeenBefore(rows: Rows, q: seq<Id>, p: Pass, n: nat, id: Id)
    requires IsQueue(q, rows, p.db) && n <= |q| && exists k :: 0 <= k < n && id == q[k]
    requires if n > 0 && Retries(rows, q[n - 1], p) then id == q[n - 1] else n < |q| && id == q[n]
    ensures n > 0 && Retries(rows, q[n - 1], p) && id == q[n - 1]
  {
  }

  /** The jobs of `q[..n]` whose run was terminal, in order: one done-notice each. */
  function Finished(rows: Rows, q: seq<Id>, p: Pass, n: nat): seq<Id>
    requires IsQueue(q, rows, p.db) && n <= |q|
  {
    if n == 0 then []
    else Finished(rows, q, p, n - 1) + if Retries(rows, q[n - 1], p) then [] else [q[n - 1]]
  }

  method ExecuteClaimed(store: JobStore, id: Id, outcome: Outcome, p: Pass)
    modifies store`rows, store`done, store`wake
    ensures store.rows == Record(old(store.rows), id, p.pid, outcome, p.maxAttempts, p.now)
    ensures store.done == if id in old(store.rows) && OwnedBy(old(store.rows)[id], p.pid)
                             && store.rows[id].status in {Done, Failed}
                          then old(store.done) + [id] else old(store.done)
    ensures store.wake == if id in old(store.rows) && OwnedBy(old(store.rows)[id], p.pid)
                             && store.rows[id].status == Pending
                          then old(store.wake) + [id] else old(store.wake)
  {
    match outcome {
      case Success(answer, prompt, completion) =>
        var _ := store.Complete(id, answer, prompt, completion, p.pid, p.now);
      case Failure(message) =>
        var _ := store.Fail(id, message, p.maxAttempts, p.pid, p.now);
    }
  }

  /** Recording the run of the i-th job, just claimed: its row and its notice. */
  method RunClaimed(store: JobStore, p: Pass, id: Id,
                    ghost now: Rows, ghost rows: Rows, ghost q: seq<Id>, ghost i: nat, ghost sent: seq<Id>)
    requires IsQueue(q, rows, p.db) && i < |q| && id == q[i]
    requires id in now && now[id] == rows[id]
    requires store.rows == now[id := ClaimedBy(now[id], p.pid, p.now)]
    requires store.done == sent + Finished(rows, q, p, i)
    modifies store`rows, store`done, store`wake
    ensures store.rows == now[id := RunOnce(rows, id, p)]
    ensures store.done == sent + Finished(rows, q, p, i + 1)
  {
    RunOfClaim(now, rows, id, p);
    ExecuteClaimed(store, id, p.agent(id, store.rows[id].attempts), p);
  }

  /** How a drain that started from `rows` leaves the table after running `q[..n]`. */
  ghost predicate DrainedTo(rows: Rows, q: seq<Id>, p: Pass, n: nat, after: Rows)
    requires IsQueue(q, rows, p.db)
  {
    Stops(q, rows, p, n) && after == Drained(rows, q, p, n, HandedBack(q, rows, p, n))
  }

  /** Before turn `i`: `q[..i]` has been run, and no job of it but the last can have been put back. */
  ghost predicate AtTurn(rows: Rows, q: seq<Id>, p: Pass, i: nat, attempted: set<Id>, now: Rows)
    requires IsQueue(q, rows, p.db)
  {
    && i <= |q| && i <= p.batch
    && (forall k | 0 <= k < i - 1 :: !Retries(rows, q[k], p))
    && attempted == (set k | 0 <= k < i :: q[k])
    && now == Drained(rows, q, p, i, false)
  }

  lemma FirstTurn(rows: Rows, q: seq<Id>, p: Pass)
    requires IsQueue(q, rows, p.db)
    ensures AtTurn(rows, q, p, 0, {}, rows)
  {
    assert Drained(rows, q, p, 0, false) == rows;
  }

  lemma NextTurn(rows: Rows, q: seq<Id>, p: Pass, i: nat, attempted: set<Id>, now: Rows, id: Id)
    requires IsQueue(q, rows, p.db) && AtTurn(rows, q, p, i, attempted, now) && i < p.batch
    requires IsNext(now, p.db, {}, id) && id !in attempted
    ensures i < |q| && id == q[i] && id in now && now[id] == rows[id]
    ensures AtTurn(rows, q, p, i + 1, attempted + {id}, now[id := RunOnce(rows, id, p)])
  {
    NextInLine(rows, q, p, i, id);
    DrainedOneMore(rows, q, p, i);
  }

  lemma LastTurn(rows: Rows, q: seq<Id>, p: Pass, i: nat, attempted: set<Id>, now: Rows, id: Id)
    requires IsQueue(q, rows, p.db) && AtTurn(rows, q, p, i, attempted, now) && i < p.batch
    requires IsNext(now, p.db, {}, id) && id in attempted
    ensures id in now && DrainedTo(rows, q, p, i, now[id := Requeued(ClaimedBy(now[id], p.pid, p.now))])
  {
    NextInLine(rows, q, p, i, id);
    SeenBefore(rows, q, p, i, id);
    DrainedHandedBack(rows, q, p, i);
  }

  lemma EmptyTurn(rows: Rows, q: seq<Id>, p: Pass, i: nat, attempted: set<Id>, now: Rows)
    requires IsQueue(q, rows, p.db) && AtTurn(rows, q, p, i, attempted, now)
    requires i == p.batch || forall id :: !Claimable(now, p.db, {}, id)
    ensures DrainedTo(rows, q, p, i, now)
  {
    if i < p.batch && (i < |q| || (i > 0 && Retries(rows, q[i - 1], p))) {
      SomebodyInLine(rows, q, p, i);
      assert false;
    }
  }

  /**
   One turn of the loop: nothing when the queue is empty or when the job handed
   out was already attempted, in which case it is released and the drain stops.
   */
  method Turn(store: JobStore, p: Pass, attempted: set<Id>,
              ghost rows: Rows, ghost q: seq<Id>, ghost i: nat, ghost sent: seq<Id>)
    returns (run: Option<Id>)
    requires IsQueue(q, rows, p.db) && i < p.batch && AtTurn(rows, q, p, i, attempted, store.rows)
    requires store.done == sent + Finished(rows, q, p, i)
    modifies store`rows, store`done, store`wake
    ensures run.None? ==> DrainedTo(rows, q, p, i, store.rows) && store.done == old(store.done)
    ensures run.Some? ==>
              && run.value !in attempted && i < |q|
              && AtTurn(rows, q, p, i + 1, attempted + {run.value}, store.rows)
              && store.done == sent + Finished(rows, q, p, i + 1)
  {
    ghost var now := store.rows;
    run := store.Claim(p.db, {}, p.pid, p.now);
    if run.None? {
      EmptyTurn(rows, q, p, i, attempted, now);
    } else if run.value in attempted {
      LastTurn(rows, q, p, i, attempted, now, run.value);
      ReleaseOfClaim(now, run.value, p);
      var _ := store.ReleaseClaim(run.value, p.pid);
      run := None;
    } else {
      NextTurn(rows, q, p, i, attempted, now, run.value);
      RunClaimed(store, p, run.value, now, rows, q, i, sent);
    }
  }

  /**
   The drain runs exactly the jobs of the queue, in order, up to and including
   the first one that is put back for a retry, or `batch`, or all of them. Each
   is run once; no other row changes.
   */
  method Drain(store: JobStore, p: Pass) returns (processed: nat)
    modifies store`rows, store`done, store`wake
    ensures DrainedTo(old(store.rows), Queue(old(store.rows), p.db), p, processed, store.rows)
    ensures store.done == old(store.done)
                          + Finished(old(store.rows), Queue(old(store.rows), p.db), p, processed)
  {
    ghost var rows := store.rows;
    ghost var q := Queue(rows, p.db);
    ghost var sent := store.done;
    processed := 0;
    var attempted: set<Id> := {};
    FirstTurn(rows, q, p);
    for i := 0 to p.batch
      invariant processed == i && AtTurn(rows, q, p, processed, attempted, store.rows)
      invariant store.done == sent + Finished(rows, q, p, processed)
    {
      var run := Turn(store, p, attempted, rows, q, processed, sent);
      if run.None? {
        return;
      }
      attempted := attempted + {run.value};
      processed := processed + 1;
    }
    EmptyTurn(rows, q, p, processed, attempted, store.rows);
  }
}
