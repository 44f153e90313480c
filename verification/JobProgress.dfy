/**
 What repeated drains achieve: every drain that finds pending work uses up some
 of a finite budget, so a queue is drained to terminal states even if every
 agent run fails.
 */
module JobProgress {
  import opened Common
  import opened JobTable
  import opened JobDrain

  // ----- Nothing else moves ---------------------------------------------------

  /** Rows outside the jobs run are untouched, and no row is left running under the drain's pid. */
  lemma DrainTouchesOnlyItsJobs(rows: Rows, q: seq<Id>, p: Pass, n: nat, after: Rows, id: Id)
    requires IsQueue(q, rows, p.db) && DrainedTo(rows, q, p, n, after) && id in rows
    ensures id in after && after.Keys == rows.Keys
    ensures id !in q[..n] ==> after[id] == rows[id]
    ensures id in q[..n] ==> rows[id].status == Pending && after[id].status in {Pending, Done, Failed}
    ensures OwnedBy(after[id], p.pid) ==> OwnedBy(rows[id], p.pid) && after[id] == rows[id]
  {
    var i := PositionOf(q, id);
    if i < n {
      assert q[..n][i] == id;
    } else if id in q[..n] {
      var k :| 0 <= k < n && q[..n][k] == id;
      PositionInSorted(q, rows, k);
      assert false;
    }
  }

  /** A job once it was run at `attempts + 1` and, if it failed with attempts left, counted `again` times more. */
  ghost predicate RanOnce(before: Job, after: Job, run: Outcome, maxAttempts: int, again: nat) {
    && after.attempts == before.attempts + 1 + again
    && (run.Success? ==>
          && again == 0 && after.status == Done && after.answer == Some(run.answer) && after.error == None
          && after.promptTokens == Some(run.promptTokens) && after.completionTokens == Some(run.completionTokens))
    && (run.Failure? ==>
          && after.error == Some(run.message) && after.answer == before.answer
          && if before.attempts + 1 < maxAttempts
             then after.status == Pending && after.startedAt == None && after.workerPid == None
             else again == 0 && after.status == Failed)
    && (after.status == Pending || after.finishedAt.Some?)
  }

  /** The fate of the `k`-th of `n` jobs that a drain has run. */
  ghost predicate Fate(q: seq<Id>, rows: Rows, p: Pass, n: nat, after: Rows, k: nat)
    requires k < |q| && q[k] in rows
  {
    var j, run := rows[q[k]], p.agent(q[k], rows[q[k]].attempts + 1);
    var put := run.Failure? && j.attempts + 1 < p.maxAttempts;
    && q[k] in after && (put ==> k == n - 1)
    && RanOnce(j, after[q[k]], run, p.maxAttempts, if put && n < p.batch then 1 else 0)
  }

  lemma FateOfOne(q: seq<Id>, rows: Rows, p: Pass, n: nat, after: Rows, k: nat)
    requires IsQueue(q, rows, p.db) && DrainedTo(rows, q, p, n, after) && k < n
    ensures Fate(q, rows, p, n, after, k)
  {
    assert Retries(rows, q[k], p) ==> k == n - 1;
    DrainedAt(rows, q, p, n, HandedBack(q, rows, p, n), k);
  }

  /**
   What a drain of `n` jobs comes to, on the rows: all but the last are finished; the
   last one, if its run failed with attempts left, waits again, with one attempt more
   than its run if the batch had room; and the drain stops there, at the batch, or at
   the end of the queue.
   */
  lemma DrainOutcomes(q: seq<Id>, rows: Rows, p: Pass, n: nat, after: Rows)
    requires IsQueue(q, rows, p.db) && DrainedTo(rows, q, p, n, after)
    ensures n <= |q| && n <= p.batch && forall k | 0 <= k < n :: Fate(q, rows, p, n, after, k)
    ensures n == |q| || n == p.batch ||
            (n > 0 && p.agent(q[n - 1], rows[q[n - 1]].attempts + 1).Failure? && rows[q[n - 1]].attempts + 1 < p.maxAttempts)
  {
    forall k | 0 <= k < n ensures Fate(q, rows, p, n, after, k) { FateOfOne(q, rows, p, n, after, k); }
  }

  // ----- The budget -------------------------------------------------------------

  /** How many more runs a row may still be given, plus one; nothing once it is terminal. */
  function Weight(j: Job, maxAttempts: int): nat {
    if Terminal(j.status) then 0 else Max(0, maxAttempts - j.attempts) + 1
  }

  ghost function Budget(rows: Rows, maxAttempts: int): nat
    decreases |rows|
  {
    if rows == map[] then 0
    else
      var id :| id in rows;
      Weight(rows[id], maxAttempts) + Budget(rows - {id}, maxAttempts)
  }

  lemma {:induction false} BudgetSplit(rows: Rows, maxAttempts: int, id: Id)
    requires id in rows
    ensures Budget(rows, maxAttempts) == Weight(rows[id], maxAttempts) + Budget(rows - {id}, maxAttempts)
    decreases |rows|
  {
    var first :| id in rows && first in rows
                 && Budget(rows, maxAttempts)
                    == Weight(rows[first], maxAttempts) + Budget(rows - {first}, maxAttempts);
    if first != id {
      BudgetSplit(rows - {first}, maxAttempts, id);
      BudgetSplit(rows - {id}, maxAttempts, first);
      assert rows - {first} - {id} == rows - {id} - {first};
    }
  }

  lemma {:induction false} BudgetMonotone(rows: Rows, after: Rows, maxAttempts: int)
    requires rows.Keys == after.Keys
    requires forall id | id in rows :: Weight(after[id], maxAttempts) <= Weight(rows[id], maxAttempts)
    ensures Budget(after, maxAttempts) <= Budget(rows, maxAttempts)
    decreases |rows|
  {
    if rows == map[] {
      assert after == map[];
    } else {
      var id :| id in rows;
      BudgetSplit(rows, maxAttempts, id);
      BudgetSplit(after, maxAttempts, id);
      BudgetMonotone(rows - {id}, after - {id}, maxAttempts);
    }
  }

  lemma WeightDrops(rows: Rows, q: seq<Id>, p: Pass, n: nat, again: bool, i: nat)
    requires IsQueue(q, rows, p.db) && n <= |q| && i < n
    requires again ==> Retries(rows, q[n - 1], p)
    ensures Weight(DrainedJob(rows, q[i], i, p, n, again), p.maxAttempts) < Weight(rows[q[i]], p.maxAttempts)
  {
  }

  /** A drain that finds pending work strictly lowers the budget. */
  lemma DrainLowersBudget(rows: Rows, q: seq<Id>, p: Pass, n: nat, after: Rows)
    requires IsQueue(q, rows, p.db) && DrainedTo(rows, q, p, n, after)
    requires p.batch > 0 && q != []
    ensures Budget(after, p.maxAttempts) < Budget(rows, p.maxAttempts)
  {
    var again := HandedBack(q, rows, p, n);
    forall id | id in rows && PositionOf(q, id) < n
      ensures Weight(after[id], p.maxAttempts) < Weight(rows[id], p.maxAttempts)
    {
      WeightDrops(rows, q, p, n, again, PositionOf(q, id));
    }
    var id := q[0];
    PositionInSorted(q, rows, 0);
    assert n > 0;
    assert Weight(after[id], p.maxAttempts) < Weight(rows[id], p.maxAttempts);
    BudgetSplit(rows, p.maxAttempts, id);
    BudgetSplit(after, p.maxAttempts, id);
    BudgetMonotone(rows - {id}, after - {id}, p.maxAttempts);
  }

  // ----- Drains in a row ----------------------------------------------------------

  /** How many jobs a drain runs, given that the first `n` are run without a retry. */
  ghost function RunCount(q: seq<Id>, rows: Rows, p: Pass, n: nat): (m: nat)
    requires IsQueue(q, rows, p.db) && n <= |q| && n <= p.batch
    requires forall i | 0 <= i < n :: !Retries(rows, q[i], p)
    ensures Stops(q, rows, p, m)
    decreases |q| - n
  {
    if n == |q| || n == p.batch then n
    else if Retries(rows, q[n], p) then n + 1
    else RunCount(q, rows, p, n + 1)
  }

  /** The table after one drain. */
  ghost function AfterDrain(rows: Rows, p: Pass): (after: Rows)
    ensures DrainedTo(rows, Queue(rows, p.db), p, RunCount(Queue(rows, p.db), rows, p, 0), after)
  {
    var q := Queue(rows, p.db);
    var n := RunCount(q, rows, p, 0);
    var after := Drained(rows, q, p, n, HandedBack(q, rows, p, n));
    assert DrainedTo(rows, q, p, n, after);
    after
  }

  lemma StopsOnce(q: seq<Id>, rows: Rows, p: Pass, n: nat, m: nat)
    requires IsQueue(q, rows, p.db) && Stops(q, rows, p, n) && Stops(q, rows, p, m)
    ensures n <= m
  {
  }

  /** What `Drain` promises leaves no choice: its table is `AfterDrain`. */
  lemma DrainIsDeterministic(rows: Rows, p: Pass, n: nat, after: Rows)
    requires DrainedTo(rows, Queue(rows, p.db), p, n, after)
    ensures after == AfterDrain(rows, p)
  {
    var q := Queue(rows, p.db);
    var m := RunCount(q, rows, p, 0);
    StopsOnce(q, rows, p, n, m);
    StopsOnce(q, rows, p, m, n);
  }

  ghost function AfterDrains(rows: Rows, passes: seq<Pass>): Rows {
    if passes == [] then rows else AfterDrains(AfterDrain(rows, passes[0]), passes[1..])
  }

  /** All pending work is in `db`, and nothing is running. */
  predicate OnlyPendingIn(rows: Rows, db: string) {
    forall id | id in rows :: rows[id].status != Running && (rows[id].status == Pending ==> rows[id].db == db)
  }

  lemma DrainKeepsOnlyPending(rows: Rows, p: Pass)
    requires OnlyPendingIn(rows, p.db)
    ensures OnlyPendingIn(AfterDrain(rows, p), p.db)
  {
    var after := AfterDrain(rows, p);
    var q := Queue(rows, p.db);
    var n := RunCount(q, rows, p, 0);
    forall id | id in after
      ensures after[id].status != Running && (after[id].status == Pending ==> after[id].db == p.db)
    {
      assert id in rows;
      DrainTouchesOnlyItsJobs(rows, q, p, n, after, id);
    }
  }

  /** One drain of a non-empty queue costs some budget; a drain of an empty one changes nothing. */
  lemma DrainStep(rows: Rows, p: Pass)
    requires p.batch > 0
    ensures if Queue(rows, p.db) == [] then AfterDrain(rows, p) == rows
            else Budget(AfterDrain(rows, p), p.maxAttempts) < Budget(rows, p.maxAttempts)
  {
    var after := AfterDrain(rows, p);
    var q := Queue(rows, p.db);
    var n := RunCount(q, rows, p, 0);
    if q == [] {
      assert after == rows;
    } else {
      DrainLowersBudget(rows, q, p, n, after);
    }
  }

  predicate AllTerminal(rows: Rows) {
    forall id | id in rows :: Terminal(rows[id].status)
  }

  lemma NoBudgetNoWork(rows: Rows, db: string, maxAttempts: int)
    requires OnlyPendingIn(rows, db)
    requires Budget(rows, maxAttempts) == 0 || Queue(rows, db) == []
    ensures AllTerminal(rows)
  {
    forall id | id in rows ensures Terminal(rows[id].status) {
      BudgetSplit(rows, maxAttempts, id);
      assert rows[id].status == Pending ==> id in Queue(rows, db);
    }
  }

  /**
   However the agent behaves, as many drains of the database as the budget
   counts leave every job in a terminal state.
   */
  lemma {:induction false} DrainsReachTerminalStates(rows: Rows, passes: seq<Pass>, db: string, maxAttempts: int)
    requires forall p | p in passes :: p.db == db && p.maxAttempts == maxAttempts && p.batch > 0
    requires OnlyPendingIn(rows, db) && |passes| >= Budget(rows, maxAttempts)
    ensures AllTerminal(AfterDrains(rows, passes))
    decreases |passes|
  {
    if passes == [] {
      NoBudgetNoWork(rows, db, maxAttempts);
    } else {
      var p := passes[0];
      assert p in passes;
      DrainStep(rows, p);
      DrainKeepsOnlyPending(rows, p);
      if Queue(rows, db) == [] {
        NoBudgetNoWork(rows, db, maxAttempts);
        DrainedStays(rows, passes, db);
      } else {
        var rest := passes[1..];
        assert forall r | r in rest :: r in passes;
        DrainsReachTerminalStates(AfterDrain(rows, p), rest, db, maxAttempts);
        assert AfterDrains(rows, passes) == AfterDrains(AfterDrain(rows, p), rest);
      }
    }
  }

  /** Drains of an empty queue change nothing. */
  lemma {:induction false} DrainedStays(rows: Rows, passes: seq<Pass>, db: string)
    requires forall p | p in passes :: p.db == db && p.batch > 0
    requires Queue(rows, db) == []
    ensures AfterDrains(rows, passes) == rows
    decreases |passes|
  {
    if passes != [] {
      assert passes[0] in passes;
      DrainStep(rows, passes[0]);
      DrainedStays(rows, passes[1..], db);
    }
  }
}
