/**
 What a retry costs in drains. A drain with room left is handed the job it has
 just put back, releases it and stops; the claim stays counted as an attempt.
 */
module JobRetries {
  import opened Common
  import opened JobTable
  import opened JobDrain
  import opened JobProgress

  /** The job at position `i` is run by the drain: nobody before it retries, and the batch reaches it. */
  ghost predicate Reached(q: seq<Id>, rows: Rows, p: Pass, i: nat)
    requires IsQueue(q, rows, p.db)
  {
    i < |q| && i < p.batch && forall k | 0 <= k < i :: !Retries(rows, q[k], p)
  }

  lemma RunCountIs(q: seq<Id>, rows: Rows, p: Pass, n: nat)
    requires IsQueue(q, rows, p.db) && Stops(q, rows, p, n)
    ensures RunCount(q, rows, p, 0) == n
  {
    StopsOnce(q, rows, p, n, RunCount(q, rows, p, 0));
    StopsOnce(q, rows, p, RunCount(q, rows, p, 0), n);
  }

  /** The drain that puts a job back: what it did to that job. */
  lemma PutBack(rows: Rows, p: Pass, i: nat)
    requires Reached(Queue(rows, p.db), rows, p, i) && Retries(rows, Queue(rows, p.db)[i], p)
    ensures var id, after := Queue(rows, p.db)[i], AfterDrain(rows, p);
      && id in after && after[id].status == Pending && after[id].db == p.db && after[id].ts == rows[id].ts
      && after[id].attempts == rows[id].attempts + (if i + 1 < p.batch then 2 else 1)
  {
    var q := Queue(rows, p.db);
    RunCountIs(q, rows, p, i + 1);
    DrainedAt(rows, q, p, i + 1, HandedBack(q, rows, p, i + 1), i);
  }

  /** The jobs before it are finished. */
  lemma FinishedBefore(rows: Rows, p: Pass, i: nat, k: nat)
    requires Reached(Queue(rows, p.db), rows, p, i) && Retries(rows, Queue(rows, p.db)[i], p) && k < i
    ensures var q, after := Queue(rows, p.db), AfterDrain(rows, p);
      q[k] in after && Terminal(after[q[k]].status)
  {
    var q := Queue(rows, p.db);
    RunCountIs(q, rows, p, i + 1);
    DrainedAt(rows, q, p, i + 1, HandedBack(q, rows, p, i + 1), k);
  }

  /** Behind it nothing has changed. */
  lemma UnchangedBehind(rows: Rows, p: Pass, i: nat)
    requires Reached(Queue(rows, p.db), rows, p, i) && Retries(rows, Queue(rows, p.db)[i], p)
    ensures AfterDrain(rows, p).Keys == rows.Keys
    ensures forall id | id in rows && id !in Queue(rows, p.db)[..i + 1] :: AfterDrain(rows, p)[id] == rows[id]
  {
    var q, after := Queue(rows, p.db), AfterDrain(rows, p);
    RunCountIs(q, rows, p, i + 1);
    forall id | id in rows
      ensures id in after && (id !in q[..i + 1] ==> after[id] == rows[id])
    {
      DrainTouchesOnlyItsJobs(rows, q, p, i + 1, after, id);
    }
    assert after.Keys == rows.Keys;
  }

  lemma InPrefix<T>(q: seq<T>, n: nat)
    requires n <= |q|
    ensures forall k | 0 <= k < n :: q[k] in q[..n]
  {
    forall k | 0 <= k < n
      ensures q[k] in q[..n]
    {
      assert q[..n][k] == q[k];
    }
  }

  /** Who waits after that drain stood at or behind the job before it. */
  lemma StillQueued(rows: Rows, p: Pass, i: nat, other: Id) returns (k: nat)
    requires Reached(Queue(rows, p.db), rows, p, i) && Retries(rows, Queue(rows, p.db)[i], p)
    requires Claimable(AfterDrain(rows, p), p.db, {}, other)
    ensures i <= k < |Queue(rows, p.db)| && Queue(rows, p.db)[k] == other
    ensures other in rows && AfterDrain(rows, p)[other].ts == rows[other].ts
  {
    var q := Queue(rows, p.db);
    PutBack(rows, p, i);
    UnchangedBehind(rows, p, i);
    InPrefix(q, i + 1);
    forall k | 0 <= k < i
      ensures q[k] in AfterDrain(rows, p) && Terminal(AfterDrain(rows, p)[q[k]].status)
    {
      FinishedBefore(rows, p, i, k);
    }
    assert other in q;
    k :| 0 <= k < |q| && q[k] == other;
  }

  /** A job put back is the first in line for the next drain. */
  lemma PutBackIsNext(rows: Rows, p: Pass, i: nat)
    requires Reached(Queue(rows, p.db), rows, p, i) && Retries(rows, Queue(rows, p.db)[i], p)
    ensures IsNext(AfterDrain(rows, p), p.db, {}, Queue(rows, p.db)[i])
  {
    var q, after := Queue(rows, p.db), AfterDrain(rows, p);
    PutBack(rows, p, i);
    forall other | other in after && Claimable(after, p.db, {}, other)
      ensures NotAfter(after, q[i], other)
    {
      var k := StillQueued(rows, p, i, other);
      assert NotAfter(rows, q[i], q[k]);
    }
  }

  /** The drain in which the last granted run of a job fails. */
  lemma FailedForGood(rows: Rows, p: Pass, i: nat)
    requires Reached(Queue(rows, p.db), rows, p, i)
    requires var id := Queue(rows, p.db)[i];
      p.agent(id, rows[id].attempts + 1).Failure? && rows[id].attempts + 1 >= p.maxAttempts
    ensures var id := Queue(rows, p.db)[i];
      id in AfterDrain(rows, p) && AfterDrain(rows, p)[id].status == Failed
  {
    var q := Queue(rows, p.db);
    var n := RunCount(q, rows, p, 0);
    assert n > i;
    DrainedAt(rows, q, p, n, HandedBack(q, rows, p, n), i);
  }

  lemma HeadIsFirst(rows: Rows, db: string, id: Id)
    requires IsNext(rows, db, {}, id)
    ensures var q := Queue(rows, db); q != [] && q[0] == id
  {
    var q := Queue(rows, db);
    assert id in q;
    var k :| 0 <= k < |q| && q[k] == id;
    assert NotAfter(rows, id, q[0]);
    EarlierIsFirst(rows, q, db, 0, k);
  }

  /** Drains with the same settings, in all of which every run of `id` fails. */
  ghost predicate Failing(passes: seq<Pass>, db: string, maxAttempts: int, batch: nat, id: Id) {
    forall i | 0 <= i < |passes| ::
      && passes[i].db == db && passes[i].maxAttempts == maxAttempts && passes[i].batch == batch
      && AlwaysFails(passes[i].agent, id)
  }

  ghost predicate AlwaysFails(agent: Agent, id: Id) { forall a: nat :: agent(id, a).Failure? }

  /** The runs the head of the queue is given before it is failed for good. */
  function RunsUntilFailed(attempts: nat, maxAttempts: int, batch: nat): nat
    decreases maxAttempts - attempts
  {
    if attempts + 1 >= maxAttempts then 1
    else 1 + RunsUntilFailed(attempts + (if batch <= 1 then 1 else 2), maxAttempts, batch)
  }

  /**
   While the head of any queue fails, whatever waits behind it: drain after drain
   runs it once more and moves no other row, until it is failed for good.
   */
  lemma {:induction false} FailingHeadHoldsTheQueue(rows: Rows, id: Id, passes: seq<Pass>, db: string, maxAttempts: int,
                                                    batch: nat)
    requires IsNext(rows, db, {}, id) && batch > 0 && Failing(passes, db, maxAttempts, batch, id)
    requires |passes| <= RunsUntilFailed(rows[id].attempts, maxAttempts, batch)
    ensures id in AfterDrains(rows, passes)
    ensures AfterDrains(rows, passes)[id].status == Failed <==>
              |passes| == RunsUntilFailed(rows[id].attempts, maxAttempts, batch)
    ensures |passes| < RunsUntilFailed(rows[id].attempts, maxAttempts, batch) ==>
              OnlyChanged(rows, AfterDrains(rows, passes), id) && IsNext(AfterDrains(rows, passes), db, {}, id)
    decreases |passes|
  {
    if passes != [] {
      var p := passes[0];
      HeadIsFirst(rows, db, id);
      if rows[id].attempts + 1 >= maxAttempts {
        FailedForGood(rows, p, 0);
        assert passes[1..] == [];
      } else {
        PutBack(rows, p, 0);
        PutBackIsNext(rows, p, 0);
        HeadOnly(rows, p, id);
        FailingHeadHoldsTheQueue(AfterDrain(rows, p), id, passes[1..], db, maxAttempts, batch);
      }
    }
  }

  lemma HeadOnly(rows: Rows, p: Pass, id: Id)
    requires IsNext(rows, p.db, {}, id) && p.batch > 0 && Retries(rows, id, p)
    ensures OnlyChanged(rows, AfterDrain(rows, p), id)
  {
    HeadIsFirst(rows, p.db, id);
    UnchangedBehind(rows, p, 0);
    assert Queue(rows, p.db)[..1] == [id];
  }

  /** The runs granted to a job that the first drain reaches at position `i`. */
  function RunsGranted(attempts: nat, maxAttempts: int, batch: nat, i: nat): nat {
    if attempts + 1 >= maxAttempts then 1
    else 1 + RunsUntilFailed(attempts + (if i + 1 < batch then 2 else 1), maxAttempts, batch)
  }

  /**
   A job anywhere in the queue that always fails: so many drains, from the one that
   first reaches it, and no fewer, fail it for good; each runs it once.
   */
  lemma ReachedJobFailsAfter(rows: Rows, i: nat, passes: seq<Pass>, db: string, maxAttempts: int, batch: nat)
    requires passes != [] && passes[0].db == db && Reached(Queue(rows, db), rows, passes[0], i)
    requires Failing(passes, db, maxAttempts, batch, Queue(rows, db)[i])
    requires |passes| <= RunsGranted(rows[Queue(rows, db)[i]].attempts, maxAttempts, batch, i)
    ensures var id := Queue(rows, db)[i];
      && id in AfterDrains(rows, passes)
      && (AfterDrains(rows, passes)[id].status == Failed <==>
            |passes| == RunsGranted(rows[id].attempts, maxAttempts, batch, i))
  {
    var id, p := Queue(rows, db)[i], passes[0];
    if rows[id].attempts + 1 >= maxAttempts {
      FailedForGood(rows, p, i);
      assert passes[1..] == [];
    } else {
      PutBack(rows, p, i);
      PutBackIsNext(rows, p, i);
      FailingHeadHoldsTheQueue(AfterDrain(rows, p), id, passes[1..], db, maxAttempts, batch);
    }
  }

  lemma {:induction false} RunsInClosedForm(attempts: nat, maxAttempts: int, batch: nat)
    requires batch > 0 && attempts <= maxAttempts && maxAttempts >= 1
    requires batch == 1 ==> attempts < maxAttempts
    ensures RunsUntilFailed(attempts, maxAttempts, batch)
            == if batch == 1 then maxAttempts - attempts else (maxAttempts - attempts) / 2 + 1
    decreases maxAttempts - attempts
  {
    if attempts + 1 < maxAttempts {
      RunsInClosedForm(attempts + (if batch == 1 then 1 else 2), maxAttempts, batch);
    }
  }

  /**
   A fresh job that always fails is run as often as its limit says if and only if
   the batch is 1, or the limit is at most 2, or the limit is 3 and the job fills
   the batch of the drain that first reaches it.
   */
  lemma FreshJobRuns(rows: Rows, i: nat, passes: seq<Pass>, db: string, maxAttempts: int, batch: nat)
    requires passes != [] && passes[0].db == db && Reached(Queue(rows, db), rows, passes[0], i)
    requires Failing(passes, db, maxAttempts, batch, Queue(rows, db)[i])
    requires rows[Queue(rows, db)[i]].attempts == 0 && maxAttempts >= 1
    requires |passes| <= RunsGranted(0, maxAttempts, batch, i)
    ensures var id := Queue(rows, db)[i];
      && id in AfterDrains(rows, passes)
      && (AfterDrains(rows, passes)[id].status == Failed <==> |passes| == RunsGranted(0, maxAttempts, batch, i))
    ensures RunsGranted(0, maxAttempts, batch, i) == maxAttempts <==>
              batch == 1 || maxAttempts <= 2 || (maxAttempts == 3 && i + 1 == batch)
    ensures RunsGranted(0, maxAttempts, batch, i)
         == if batch == 1 then maxAttempts
            else if i + 1 < batch || maxAttempts == 1 then maxAttempts / 2 + 1
            else (maxAttempts - 1) / 2 + 2
  {
    ReachedJobFailsAfter(rows, i, passes, db, maxAttempts, batch);
    if maxAttempts > 1 {
      RunsInClosedForm(if i + 1 < batch then 2 else 1, maxAttempts, batch);
    }
  }
}
