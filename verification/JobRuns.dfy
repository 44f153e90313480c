/**
 That the queue under concurrency does its work: what each step does to a row, and
 the runs in which a job is answered, or answered after its worker was lost.
 */
module JobRuns {
  import opened Common
  import opened JobTable
  import opened JobProtocol
  import opened JobProgress

  /** What each step makes of the rows, column by column. */
  lemma StepsTakeEffect(s: State, step: Step, id: Id)
    requires Enabled(s, step) && id in s.rows
    ensures var j, after := s.rows[id], Apply(s, step).rows;
      match step
      case Submit(minted, owner, db, kind, question, now) =>
        after == s.rows[minted := Job(now, owner, db, kind, question, Pending, 0, None, None, None, None, None, None, None)]
      case Recover(db, timeoutMs, now) =>
        && id in after
        && after[id] ==
           if j.status == Running && j.db == db && j.startedAt.Some? && now - j.startedAt.value > 1000 * timeoutMs
           then j.(status := Pending, workerPid := None, startedAt := None) else j
      case Cancel(cancelled, caller, now) =>
        && id in after
        && after[id] == if id == cancelled && j.owner == caller && j.status in {Pending, Running}
                        then j.(status := Cancelled, finishedAt := Some(now)) else j
      case Release(pid) =>
        && id in after
        && after[id] == if WorkOf(s, pid).job == id && j.status == Running && j.workerPid == Some(pid)
                        then j.(status := Pending, workerPid := None, startedAt := None) else j
      case Prune(removed, cutoff) =>
        && (id in after <==> id !in removed) && (id in after ==> after[id] == j)
        && (id in removed ==> j.status in {Done, Failed, Cancelled} && j.finishedAt.Some? && j.finishedAt.value < cutoff)
      case Claim(pid, _, claimed, now) =>
        && id in after
        && after[id] == if id != claimed then j
                        else j.(status := Running, startedAt := Some(now), finishedAt := None, workerPid := Some(pid),
                                attempts := j.attempts + 1)
      case Record(pid, maxAttempts, now) =>
        var w := WorkOf(s, pid);
        && id in after
        && after[id] ==
           if w.job != id || j.status != Running || j.workerPid != Some(pid) then j
           else (
             match w.outcome
             case Success(answer, prompt, completion) =>
               j.(status := Done, answer := Some(answer), error := None, finishedAt := Some(now),
                  promptTokens := Some(prompt), completionTokens := Some(completion))
             case Failure(message) =>
               if j.attempts < maxAttempts
               then j.(status := Pending, error := Some(message), startedAt := None, workerPid := None)
               else j.(status := Failed, error := Some(message), finishedAt := Some(now)))
      case Connect(pid, db) => after == s.rows && Apply(s, step).backends == s.backends[pid := Backend(db, Idle)]
      case Vanish(pid) => after == s.rows && pid !in Apply(s, step).backends
      case _ => after == s.rows
  {
  }

  /** What is counted is what happens: claims, and the ways back to the queue other than a retry. */
  lemma CountersAreExact(s: State, step: Step, id: Id)
    requires Inv(s) && Enabled(s, step) && id in s.rows && id in Apply(s, step).rows
    ensures var t := Apply(s, step); var a, b := s.rows[id].status, t.rows[id].status;
      && t.claims[id] == s.claims[id] + (if a == Pending && b == Running then 1 else 0)
      && t.recoveries[id] == s.recoveries[id] + (if a == Running && b == Pending && step.Recover? then 1 else 0)
      && t.releases[id] == s.releases[id] + (if a == Running && b == Pending && step.Release? then 1 else 0)
      && (a == Running && b == Pending ==> step.Recover? || step.Release? || step.Record?)
  {
    assert RowInv(s, id);
    if step.Submit? { assert UnmintedInv(s, step.id); }
  }

  lemma OneMore(steps: seq<Step>, step: Step) returns (next: State)
    requires After(steps).Some? && Enabled(After(steps).value, step)
    ensures next == Apply(After(steps).value, step) && After(steps + [step]) == Some(next)
  {
    next := Apply(After(steps).value, step);
    assert (steps + [step])[..|steps|] == steps;
  }

  /** No other waiting job of the database is older, nor as old with a smaller id. */
  predicate Oldest(rows: Rows, db: string, id: Id) {
    && id in rows && rows[id].status == Pending && rows[id].db == db
    && forall o | o in rows && rows[o].status == Pending && rows[o].db == db ::
         rows[id].ts < rows[o].ts || (rows[id].ts == rows[o].ts && id <= o)
  }

  /** The steps of an idle backend that claims a job, runs it and records the outcome. */
  function WorkOn(pid: Pid, id: Id, claimedAt: Time, outcome: Outcome, maxAttempts: int, doneAt: Time): seq<Step> {
    [Claim(pid, {}, id, claimedAt), RunAgent(pid, outcome), Record(pid, maxAttempts, doneAt)]
  }

  /**
   After any run, an idle backend can claim the oldest job of its database, run it and
   record what came of it. That is then on the row; no other row has changed; and there
   is a done-notice exactly when the job is finished.
   */
  lemma JobIsRun(steps: seq<Step>, pid: Pid, id: Id, claimedAt: Time, outcome: Outcome, maxAttempts: int, doneAt: Time)
    requires After(steps).Some?
    requires var s := After(steps).value;
      pid in s.backends && s.backends[pid].work.Idle? && Oldest(s.rows, s.backends[pid].db, id)
    ensures var s := After(steps).value;
      var end := After(steps + WorkOn(pid, id, claimedAt, outcome, maxAttempts, doneAt));
      && end.Some? && id in end.value.rows
      && RanOnce(s.rows[id], end.value.rows[id], outcome, maxAttempts, 0)
      && end.value.rows == s.rows[id := end.value.rows[id]]
      && end.value.doneNotices == s.doneNotices
           + (if outcome.Success? || s.rows[id].attempts + 1 >= maxAttempts then multiset{id} else multiset{})
      && end.value.backends == s.backends
  {
    var s := After(steps).value;
    var claim, run, record := Claim(pid, {}, id, claimedAt), RunAgent(pid, outcome), Record(pid, maxAttempts, doneAt);
    assert IsNext(s.rows, s.backends[pid].db, {}, id);
    var s1 := OneMore(steps, claim);
    var s2 := OneMore(steps + [claim], run);
    var s3 := OneMore(steps + [claim] + [run], record);
    assert steps + [claim] + [run] + [record] == steps + WorkOn(pid, id, claimedAt, outcome, maxAttempts, doneAt);
    Worked(s, s1, s2, s3, claim, run, record);
  }

  lemma Worked(s: State, s1: State, s2: State, s3: State, claim: Step, run: Step, record: Step)
    requires claim.Claim? && Enabled(s, claim) && s1 == Apply(s, claim)
    requires run.RunAgent? && run.pid == claim.pid && Enabled(s1, run) && s2 == Apply(s1, run)
    requires record.Record? && record.pid == claim.pid && Enabled(s2, record) && s3 == Apply(s2, record)
    ensures claim.id in s3.rows && s3.rows == s.rows[claim.id := s3.rows[claim.id]]
    ensures RanOnce(s.rows[claim.id], s3.rows[claim.id], run.outcome, record.maxAttempts, 0)
    ensures s3.doneNotices == s.doneNotices
              + (if run.outcome.Success? || s.rows[claim.id].attempts + 1 >= record.maxAttempts
                 then multiset{claim.id} else multiset{})
    ensures s3.backends == s.backends
  {
  }

  /** The waiting jobs once overdue ones are back among them. */
  predicate WaitsOrIsOverdue(j: Job, db: string, timeoutMs: int, now: Time) {
    && j.db == db
    && (j.status == Pending
        || (j.status == Running && j.startedAt.Some? && now - j.startedAt.value > 1000 * timeoutMs))
  }

  /**
   A job whose worker is lost is run again: recovery puts it back with its attempts
   kept, another backend runs it, and what the lost worker may still record is ignored.
   */
  lemma LostJobIsRunAgain(steps: seq<Step>, lost: Pid, pid: Pid, id: Id, timeoutMs: int, now: Time,
                          claimedAt: Time, outcome: Outcome, maxAttempts: int, doneAt: Time, limit: int, late: Time)
    requires After(steps).Some?
    requires var s := After(steps).value;
      && pid in s.backends && s.backends[pid].work.Idle? && pid != lost
      && id in s.rows && WaitsOrIsOverdue(s.rows[id], s.backends[pid].db, timeoutMs, now)
      && s.rows[id].status == Running && s.rows[id].workerPid == Some(lost)
      && forall o | o in s.rows && WaitsOrIsOverdue(s.rows[o], s.backends[pid].db, timeoutMs, now) ::
           s.rows[id].ts < s.rows[o].ts || (s.rows[id].ts == s.rows[o].ts && id <= o)
    ensures var s := After(steps).value;
      var again := steps + [Recover(s.backends[pid].db, timeoutMs, now)];
      var end := After(again + WorkOn(pid, id, claimedAt, outcome, maxAttempts, doneAt));
      && end.Some? && id in end.value.rows
      && RanOnce(s.rows[id], end.value.rows[id], outcome, maxAttempts, 0)
      && (WorkOf(end.value, lost).Ran? ==>
            Apply(end.value, Record(lost, limit, late)).rows[id] == end.value.rows[id])
  {
    var s := After(steps).value;
    var db := s.backends[pid].db;
    var again := steps + [Recover(db, timeoutMs, now)];
    var back := OneMore(steps, Recover(db, timeoutMs, now));
    BackInLine(s, db, timeoutMs, now, id);
    JobIsRun(again, pid, id, claimedAt, outcome, maxAttempts, doneAt);
  }

  lemma BackInLine(s: State, db: string, timeoutMs: int, now: Time, id: Id)
    requires id in s.rows && WaitsOrIsOverdue(s.rows[id], db, timeoutMs, now)
    requires forall o | o in s.rows && WaitsOrIsOverdue(s.rows[o], db, timeoutMs, now) ::
               s.rows[id].ts < s.rows[o].ts || (s.rows[id].ts == s.rows[o].ts && id <= o)
    ensures var after := Recovered(s.rows, db, timeoutMs, now);
      && Oldest(after, db, id) && after[id].attempts == s.rows[id].attempts && after[id].answer == s.rows[id].answer
  {
    var after := Recovered(s.rows, db, timeoutMs, now);
    forall o | o in after && after[o].status == Pending && after[o].db == db
      ensures after[id].ts < after[o].ts || (after[id].ts == after[o].ts && id <= o)
    {
      assert WaitsOrIsOverdue(s.rows[o], db, timeoutMs, now);
    }
  }
}
