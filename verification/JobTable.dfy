/**
 The rows of the async job queue and the SQL helpers that move them, one
 function per UPDATE statement. Every helper of the queue is one statement on
 one row (or on a set of rows chosen by a WHERE clause), so each is a function
 on the table; class `JobStore` applies them in place.

 Clocks, ids, the session user, the backend pid and the database are
 parameters. A uuid is a natural number, which gives ids their total order.
 */
module JobTable {
  import opened Common

  type Id = nat
  type Pid = int
  /** Microseconds since the epoch. */
  type Time = int

  datatype Status = Pending | Running | Done | Failed | Cancelled

  datatype Job = Job(
    ts: Time, owner: string, db: string, kind: string, question: string,
    status: Status, attempts: nat,
    startedAt: Option<Time>, finishedAt: Option<Time>,
    answer: Option<string>, error: Option<string>,
    promptTokens: Option<int>, completionTokens: Option<int>,
    workerPid: Option<Pid>)

  type Rows = map<Id, Job>

  /** What an agent run ends with: an answer and its token counts, or an error text. */
  datatype Outcome =
    | Success(answer: string, promptTokens: int, completionTokens: int)
    | Failure(message: string)

  predicate Terminal(s: Status) {
    s == Done || s == Failed || s == Cancelled
  }

  /** `status = 'running' AND worker_pid = pg_backend_pid()`. */
  predicate OwnedBy(j: Job, pid: Pid) {
    j.status == Running && j.workerPid == Some(pid)
  }

  // ----- Row updates ------------------------------------------------------

  function Fresh(owner: string, db: string, kind: string, question: string, now: Time): Job {
    Job(now, owner, db, kind, question, Pending, 0, None, None, None, None, None, None, None)
  }

  function ClaimedBy(j: Job, pid: Pid, now: Time): Job {
    j.(status := Running, startedAt := Some(now), finishedAt := None,
       workerPid := Some(pid), attempts := j.attempts + 1)
  }

  function CompletedWith(j: Job, answer: string, prompt: int, completion: int, now: Time): Job {
    j.(status := Done, answer := Some(answer), error := None,
       promptTokens := Some(prompt), completionTokens := Some(completion),
       finishedAt := Some(now))
  }

  /** Back to the queue: the common part of retry, release and orphan recovery. */
  function Requeued(j: Job): Job {
    j.(status := Pending, startedAt := None, workerPid := None)
  }

  /** A retry is granted only while `attempts` is below the limit. */
  function FailedWith(j: Job, message: string, maxAttempts: int, now: Time): Job {
    if j.attempts >= maxAttempts then
      j.(status := Failed, error := Some(message), finishedAt := Some(now))
    else
      Requeued(j).(error := Some(message))
  }

  /** Recording the outcome of an agent run on the row it ran for. */
  function Settled(j: Job, outcome: Outcome, maxAttempts: int, now: Time): Job {
    match outcome
    case Success(a, p, c) => CompletedWith(j, a, p, c, now)
    case Failure(m) => FailedWith(j, m, maxAttempts, now)
  }

  // ----- Table updates ----------------------------------------------------

  /** Recording an outcome is claim-scoped: it acts only on a row the backend still owns. */
  function Record(rows: Rows, id: Id, pid: Pid, outcome: Outcome, maxAttempts: int, now: Time): Rows {
    if id in rows && OwnedBy(rows[id], pid)
    then rows[id := Settled(rows[id], outcome, maxAttempts, now)]
    else rows
  }

  function Release(rows: Rows, id: Id, pid: Pid): Rows {
    if id in rows && OwnedBy(rows[id], pid) then rows[id := Requeued(rows[id])] else rows
  }

  predicate CanCancel(rows: Rows, id: Id, caller: string) {
    id in rows && rows[id].owner == caller && !Terminal(rows[id].status)
  }

  function Cancel(rows: Rows, id: Id, caller: string, now: Time): Rows {
    if CanCancel(rows, id, caller)
    then rows[id := rows[id].(status := Cancelled, finishedAt := Some(now))]
    else rows
  }

  /** A comparison with a NULL `started_at` is not true, so such a row is not selected. */
  predicate Orphaned(j: Job, db: string, timeoutMs: int, now: Time) {
    && j.status == Running && j.db == db
    && j.startedAt.Some? && j.startedAt.value < now - 1000 * timeoutMs
  }

  function Orphans(rows: Rows, db: string, timeoutMs: int, now: Time): set<Id> {
    set id | id in rows && Orphaned(rows[id], db, timeoutMs, now)
  }

  function Recovered(rows: Rows, db: string, timeoutMs: int, now: Time): Rows {
    map id | id in rows ::
      if Orphaned(rows[id], db, timeoutMs, now) then Requeued(rows[id]) else rows[id]
  }

  /** Recovery changes exactly the overdue rows. */
  lemma RecoveredRows(rows: Rows, db: string, timeoutMs: int, now: Time)
    ensures var after := Recovered(rows, db, timeoutMs, now);
      && after.Keys == rows.Keys
      && Orphans(after, db, timeoutMs, now) == {}
      && (forall id | id in rows :: after[id] != rows[id] <==> id in Orphans(rows, db, timeoutMs, now))
      && Recovered(after, db, timeoutMs, now) == after
  {
    var after := Recovered(rows, db, timeoutMs, now);
    assert after.Keys == rows.Keys;
    forall id | id in rows
      ensures !Orphaned(after[id], db, timeoutMs, now)
      ensures after[id] != rows[id] <==> Orphaned(rows[id], db, timeoutMs, now)
    {
    }
  }

  predicate OnlyChanged(a: Rows, b: Rows, id: Id) {
    a.Keys == b.Keys && forall other | other in a && other != id :: b[other] == a[other]
  }

  /** The terminal rows that finished before `cutoff`: what a prune may remove. */
  function Prunable(rows: Rows, cutoff: Time): set<Id> {
    set id | id in rows && Terminal(rows[id].status)
             && rows[id].finishedAt.Some? && rows[id].finishedAt.value < cutoff
  }

  // ----- The claim order --------------------------------------------------

  /** Pending rows of this database that no other transaction has locked (SKIP LOCKED). */
  predicate Claimable(rows: Rows, db: string, locked: set<Id>, id: Id) {
    id in rows && rows[id].status == Pending && rows[id].db == db && id !in locked
  }

  /** `ORDER BY ts, id`. */
  predicate NotAfter(rows: Rows, a: Id, b: Id)
    requires a in rows && b in rows
  {
    rows[a].ts < rows[b].ts || (rows[a].ts == rows[b].ts && a <= b)
  }

  predicate IsNext(rows: Rows, db: string, locked: set<Id>, id: Id) {
    && Claimable(rows, db, locked, id)
    && forall other | other in rows && Claimable(rows, db, locked, other) :: NotAfter(rows, id, other)
  }

  function Waiting(rows: Rows, db: string, locked: set<Id>): set<Id> {
    set id | id in rows && Claimable(rows, db, locked, id)
  }

  lemma {:induction false} NextExists(rows: Rows, db: string, locked: set<Id>)
    requires Waiting(rows, db, locked) != {}
    ensures exists id :: IsNext(rows, db, locked, id)
    decreases |Waiting(rows, db, locked)|
  {
    var id :| id in Waiting(rows, db, locked);
    var rest := Waiting(rows, db, locked + {id});
    assert rest == Waiting(rows, db, locked) - {id};
    if rest == {} {
      forall other | Claimable(rows, db, locked, other) ensures NotAfter(rows, id, other) {
        assert other in Waiting(rows, db, locked);
      }
      assert IsNext(rows, db, locked, id);
    } else {
      NextExists(rows, db, locked + {id});
      var best :| IsNext(rows, db, locked + {id}, best);
      var winner := if NotAfter(rows, id, best) then id else best;
      forall other | Claimable(rows, db, locked, other) ensures NotAfter(rows, winner, other) {
        if other != id {
          assert Claimable(rows, db, locked + {id}, other);
        }
      }
      assert IsNext(rows, db, locked, winner);
    }
  }

  // ----- The helpers in place ---------------------------------------------

  datatype Submission = Disabled | Queued(id: Id) | BadKind | EmptyQuestion

  /** `btrim(question)`: blanks only. */
  function TrimBlanks(s: string): (t: string)
    ensures t != "" ==> t[0] != ' ' && t[|t| - 1] != ' '
    ensures t == "" <==> forall i :: 0 <= i < |s| ==> s[i] == ' '
    decreases |s|
  {
    if s == "" then s
    else if s[0] == ' ' then
      var t := TrimBlanks(s[1..]);
      assert t == "" ==> forall i :: 0 <= i < |s| ==> s[i] == ' ' by {
        if t == "" {
          forall i | 0 <= i < |s| ensures s[i] == ' ' {
            if i > 0 { assert s[1..][i - 1] == ' '; }
          }
        }
      }
      assert t != "" ==> exists i :: 0 <= i < |s| && s[i] != ' ' by {
        if t != "" {
          var i :| 0 <= i < |s[1..]| && s[1..][i] != ' ';
          assert s[i + 1] != ' ';
        }
      }
      t
    else if s[|s| - 1] == ' ' then
      var t := TrimBlanks(s[..|s| - 1]);
      assert s[..|s| - 1][0] != ' ';
      t
    else s
  }

  predicate Blank(s: string) { forall i | 0 <= i < |s| :: s[i] == ' ' }

  /** Trimming takes blanks off both ends and nothing else. */
  lemma {:induction false} TrimTakesBlanks(s: string, t: string) returns (before: string, after: string)
    requires t == TrimBlanks(s)
    ensures s == before + t + after && Blank(before) && Blank(after)
    decreases |s|
  {
    if s == t {
      before, after := "", "";
    } else if s[0] == ' ' {
      var rest;
      rest, after := TrimTakesBlanks(s[1..], t);
      before := [' '] + rest;
      assert s == [' '] + (rest + t + after);
    } else {
      var rest;
      before, rest := TrimTakesBlanks(s[..|s| - 1], t);
      after := rest + [' '];
      assert s == (before + t + rest) + [' '];
    }
  }

  /** What is left when all prunable rows are removed, in terms of the rows. */
  lemma PruneLeaves(rows: Rows, olderThan: int, now: Time, left: Rows)
    requires left == rows - Prunable(rows, now - olderThan)
    ensures forall id | id in rows ::
              var j := rows[id];
              id !in left <==> j.status in {Done, Failed, Cancelled}
                               && j.finishedAt.Some? && now - j.finishedAt.value > olderThan
    ensures (forall id | id in left :: id in rows && left[id] == rows[id])
    ensures |Prunable(rows, now - olderThan)| == |rows| - |left|
  {
    var gone := Prunable(rows, now - olderThan);
    assert left.Keys == rows.Keys - gone;
    assert |rows.Keys - gone| == |rows.Keys| - |gone|;
    assert |left| == |left.Keys| && |rows| == |rows.Keys|;
  }

  lemma PrunableAfter(rows: Rows, gone: set<Id>, cutoff: Time)
    ensures Prunable(rows - gone, cutoff) == Prunable(rows, cutoff) - gone
  {
  }

  lemma ChunkRemoved(all: Rows, rows: Rows, gone: set<Id>, chunk: set<Id>, cutoff: Time)
    requires gone <= Prunable(all, cutoff) && rows == all - gone && chunk <= Prunable(rows, cutoff)
    ensures gone + chunk <= Prunable(all, cutoff) && rows - chunk == all - (gone + chunk)
    ensures |gone + chunk| == |gone| + |chunk|
    ensures Prunable(rows - chunk, cutoff) == Prunable(rows, cutoff) - chunk
    ensures |Prunable(rows - chunk, cutoff)| == |Prunable(rows, cutoff)| - |chunk|
  {
    PrunableAfter(all, gone, cutoff);
    PrunableAfter(rows, chunk, cutoff);
    assert gone !! chunk;
  }

  lemma PruneEnds(all: Rows, gone: set<Id>, cutoff: Time)
    requires gone <= Prunable(all, cutoff) && Prunable(all - gone, cutoff) == {}
    ensures gone == Prunable(all, cutoff)
  {
    forall id | id in Prunable(all, cutoff) ensures id in gone {
      assert id !in gone ==> id in Prunable(all - gone, cutoff);
    }
  }

  /** The `ask._jobs` table with its two notification channels. */
  class JobStore {
    var rows: Rows
    /** Sent on `pg_ask_jobs`: a worker should wake. */
    var wake: seq<Id>
    /** Sent on `pg_ask_jobs_done`: a client waiting for this job should wake. */
    var done: seq<Id>

    constructor ()
      ensures rows == map[] && wake == [] && done == []
    {
      rows, wake, done := map[], [], [];
    }

    method Submit(enabled: bool, kind: Option<string>, question: Option<string>,
                  owner: string, db: string, now: Time, newId: Id)
      returns (r: Submission)
      requires newId !in rows
      modifies this`rows, this`wake
      ensures r.Disabled? <==> !enabled
      ensures r.BadKind? <==> enabled && !(kind.Some? && kind.value in {"ask", "sql"})
      ensures r.Queued? <==>
              && enabled && kind.Some? && kind.value in {"ask", "sql"}
              && question.Some? && exists i :: 0 <= i < |question.value| && question.value[i] != ' '
      ensures r.Queued? ==>
                && r.id == newId && wake == old(wake) + [newId]
                && rows == old(rows)[newId := Fresh(owner, db, kind.value, TrimBlanks(question.value), now)]
                && rows[newId] == Job(now, owner, db, kind.value, TrimBlanks(question.value), Pending, 0,
                                      None, None, None, None, None, None, None)
      ensures !r.Queued? ==> rows == old(rows) && wake == old(wake)
    {
      if !enabled {
        return Disabled;
      }
      if kind.None? || (kind.value != "ask" && kind.value != "sql") {
        return BadKind;
      }
      if question.None? || TrimBlanks(question.value) == "" {
        return EmptyQuestion;
      }
      rows := rows[newId := Fresh(owner, db, kind.value, TrimBlanks(question.value), now)];
      wake := wake + [newId];
      r := Queued(newId);
    }

    /**
     The oldest claimable row goes to this backend, the smallest id first among equal
     timestamps; no row when there is none.
     */
    method Claim(db: string, locked: set<Id>, pid: Pid, now: Time) returns (claimed: Option<Id>)
      modifies this`rows
      ensures claimed.None? ==>
                rows == old(rows) && forall id :: !Claimable(rows, db, locked, id)
      ensures claimed.Some? ==>
                && IsNext(old(rows), db, locked, claimed.value)
                && rows == old(rows)[claimed.value := ClaimedBy(old(rows)[claimed.value], pid, now)]
      ensures claimed.None? <==>
                forall o | o in old(rows) :: old(rows)[o].status != Pending || old(rows)[o].db != db || o in locked
      ensures claimed.Some? ==>
                var id := claimed.value;
                && id in old(rows) && id !in locked && old(rows)[id].status == Pending && old(rows)[id].db == db
                && (forall o | o in old(rows) && old(rows)[o].status == Pending && old(rows)[o].db == db && o !in locked ::
                      && old(rows)[id].ts <= old(rows)[o].ts
                      && (old(rows)[id].ts == old(rows)[o].ts ==> id <= o))
                && rows == old(rows)[id := old(rows)[id].(
                             status := Running, startedAt := Some(now), finishedAt := None,
                             workerPid := Some(pid), attempts := old(rows)[id].attempts + 1)]
    {
      if Waiting(rows, db, locked) == {} {
        assert forall id | id in rows :: Claimable(rows, db, locked, id) ==> id in Waiting(rows, db, locked);
        return None;
      }
      NextExists(rows, db, locked);
      var id :| id in rows && IsNext(rows, db, locked, id);
      rows := rows[id := ClaimedBy(rows[id], pid, now)];
      claimed := Some(id);
    }

    method Complete(id: Id, answer: string, prompt: int, completion: int, pid: Pid, now: Time)
      returns (ok: bool)
      modifies this`rows, this`done
      ensures ok <==> id in old(rows) && old(rows)[id].status == Running && old(rows)[id].workerPid == Some(pid)
      ensures rows == Record(old(rows), id, pid, Success(answer, prompt, completion), 0, now)
      ensures !ok ==> rows == old(rows)
      ensures ok ==>
                && rows == old(rows)[id := rows[id]]
                && rows[id] == old(rows)[id].(
                     status := Done, answer := Some(answer), error := None, finishedAt := Some(now),
                     promptTokens := Some(prompt), completionTokens := Some(completion))
      ensures done == if ok then old(done) + [id] else old(done)
    {
      ok := id in rows && rows[id].status == Running && rows[id].workerPid == Some(pid);
      if ok {
        rows := rows[id := rows[id].(status := Done, answer := Some(answer), error := None,
                                     promptTokens := Some(prompt), completionTokens := Some(completion),
                                     finishedAt := Some(now))];
        done := done + [id];
      }
    }

    /** The new status, or nothing when the row is no longer this backend's. */
    method Fail(id: Id, message: string, maxAttempts: int, pid: Pid, now: Time)
      returns (status: Option<Status>)
      modifies this`rows, this`done, this`wake
      ensures rows == Record(old(rows), id, pid, Failure(message), maxAttempts, now)
      ensures status.Some? <==>
                id in old(rows) && old(rows)[id].status == Running && old(rows)[id].workerPid == Some(pid)
      ensures status.None? ==> rows == old(rows)
      ensures status.Some? ==>
                && status.value == (if old(rows)[id].attempts < maxAttempts then Pending else Failed)
                && rows == old(rows)[id := rows[id]]
                && rows[id] ==
                   if old(rows)[id].attempts < maxAttempts
                   then old(rows)[id].(status := Pending, error := Some(message), startedAt := None, workerPid := None)
                   else old(rows)[id].(status := Failed, error := Some(message), finishedAt := Some(now))
      ensures done == if status == Some(Failed) then old(done) + [id] else old(done)
      ensures wake == if status == Some(Pending) then old(wake) + [id] else old(wake)
    {
      if id !in rows || rows[id].status != Running || rows[id].workerPid != Some(pid) {
        return None;
      }
      var j := rows[id];
      if j.attempts >= maxAttempts {
        rows := rows[id := j.(status := Failed, error := Some(message), finishedAt := Some(now))];
        done := done + [id];
        status := Some(Failed);
      } else {
        rows := rows[id := j.(status := Pending, error := Some(message),
                              startedAt := None, workerPid := None)];
        wake := wake + [id];
        status := Some(Pending);
      }
    }

    method ReleaseClaim(id: Id, pid: Pid) returns (ok: bool)
      modifies this`rows
      ensures ok <==> id in old(rows) && old(rows)[id].status == Running && old(rows)[id].workerPid == Some(pid)
      ensures rows == Release(old(rows), id, pid)
      ensures !ok ==> rows == old(rows)
      ensures ok ==> rows == old(rows)[id := old(rows)[id].(status := Pending, startedAt := None, workerPid := None)]
    {
      ok := id in rows && rows[id].status == Running && rows[id].workerPid == Some(pid);
      if ok {
        rows := rows[id := rows[id].(status := Pending, startedAt := None, workerPid := None)];
      }
    }

    method CancelJob(id: Id, caller: string, now: Time) returns (ok: bool)
      modifies this`rows
      ensures ok <==> id in old(rows) && old(rows)[id].owner == caller && old(rows)[id].status in {Pending, Running}
      ensures rows == Cancel(old(rows), id, caller, now)
      ensures !ok ==> rows == old(rows)
      ensures ok ==> rows == old(rows)[id := old(rows)[id].(status := Cancelled, finishedAt := Some(now))]
    {
      ok := id in rows && rows[id].owner == caller && rows[id].status in {Pending, Running};
      if ok {
        rows := rows[id := rows[id].(status := Cancelled, finishedAt := Some(now))];
      }
    }

    /**
     Overdue running rows of this database go back to the queue with their attempts
     kept; nothing else about them and no other row changes, no row is overdue
     afterwards, and the result counts exactly the rows that changed.
     */
    method RecoverOrphans(db: string, timeoutMs: int, now: Time) returns (n: nat)
      modifies this`rows
      ensures rows == Recovered(old(rows), db, timeoutMs, now)
      ensures rows.Keys == old(rows).Keys
      ensures forall id | id in rows ::
                rows[id] ==
                  var j := old(rows)[id];
                  if j.status == Running && j.db == db && j.startedAt.Some? && now - j.startedAt.value > 1000 * timeoutMs
                  then j.(status := Pending, workerPid := None, startedAt := None)
                  else j
      ensures Orphans(rows, db, timeoutMs, now) == {}
      ensures n == |set id | id in rows && rows[id] != old(rows)[id]|
    {
      var orphans := Orphans(rows, db, timeoutMs, now);
      RecoveredRows(rows, db, timeoutMs, now);
      n := |orphans|;
      rows := Recovered(rows, db, timeoutMs, now);
      assert orphans == set id | id in rows && rows[id] != old(rows)[id];
    }

    /**
     Retention. In batches it removes the same rows and returns the same count
     as the single DELETE, whatever rows each LIMIT happens to pick.
     */
    method Prune(olderThan: int, batchSize: Option<int>, now: Time) returns (total: nat)
      modifies this`rows
      ensures rows == old(rows) - Prunable(old(rows), now - olderThan)
      ensures total == |Prunable(old(rows), now - olderThan)|
      ensures forall id | id in old(rows) ::
                var j := old(rows)[id];
                id !in rows <==> j.status in {Done, Failed, Cancelled}
                                 && j.finishedAt.Some? && now - j.finishedAt.value > olderThan
      ensures (forall id | id in rows :: id in old(rows) && rows[id] == old(rows)[id]) && total == |old(rows)| - |rows|
    {
      var cutoff := now - olderThan;
      if batchSize.None? || batchSize.value <= 0 {
        total := |Prunable(rows, cutoff)|;
        rows := rows - Prunable(rows, cutoff);
      } else {
        total := PruneInBatches(cutoff, batchSize.value);
      }
      PruneLeaves(old(rows), olderThan, now, rows);
    }

    method PruneInBatches(cutoff: Time, batchSize: nat) returns (total: nat)
      requires batchSize > 0
      modifies this`rows
      ensures rows == old(rows) - Prunable(old(rows), cutoff) && total == |Prunable(old(rows), cutoff)|
    {
      total := 0;
      ghost var gone: set<Id> := {};
      var removed: nat := 1;
      while removed != 0
        invariant gone <= Prunable(old(rows), cutoff)
        invariant rows == old(rows) - gone && total == |gone|
        invariant removed == 0 ==> Prunable(rows, cutoff) == {}
        decreases |Prunable(rows, cutoff)|, removed
      {
        var candidates := Prunable(rows, cutoff);
        SubsetOfSize(candidates, Min(batchSize, |candidates|));
        var chunk: set<Id> :| chunk <= candidates && |chunk| == Min(batchSize, |candidates|);
        removed := |chunk|;
        ChunkRemoved(old(rows), rows, gone, chunk, cutoff);
        rows := rows - chunk;
        total := total + removed;
        gone := gone + chunk;
      }
      PruneEnds(old(rows), gone, cutoff);
    }
  }
}
