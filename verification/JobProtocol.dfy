/**
 The queue under concurrency. Any number of backends claim, run and record
 jobs; clients submit and cancel; orphan recovery and prunes happen at any
 moment; a backend may vanish at any moment and its pid may be reused. Each
 SQL helper is one atomic step, and claim, agent run and recording are
 separate steps of a backend, as in the background worker.

 `executions`, `claims`, `recoveries`, `releases` and `minted` are history:
 no step's effect on the table depends on them.
 */
module JobProtocol {
  import opened Common
  import opened JobTable

  /** What a backend is busy with. A backend claims only when it is idle. */
  datatype Work =
    | Idle
    | Holds(job: Id, gen: nat)
    | Ran(job: Id, gen: nat, outcome: Outcome)

  datatype Backend = Backend(db: string, work: Work)

  datatype State = State(
    rows: Rows,
    backends: map<Pid, Backend>,
    /** Notifications sent on `pg_ask_jobs_done`, with multiplicity. */
    doneNotices: multiset<Id>,
    /** The outcome of the agent run started by the `gen`-th claim of a job. */
    executions: map<(Id, nat), Outcome>,
    claims: multiset<Id>,
    recoveries: multiset<Id>,
    releases: multiset<Id>,
    minted: set<Id>)

  datatype Step =
    | Submit(id: Id, owner: string, sdb: string, kind: string, question: string, now: Time)
    | Connect(pid: Pid, cdb: string)
    | Vanish(pid: Pid)
    | Claim(pid: Pid, locked: set<Id>, id: Id, now: Time)
    | RunAgent(pid: Pid, outcome: Outcome)
    | Record(pid: Pid, maxAttempts: int, now: Time)
    | Release(pid: Pid)
    | Abandon(pid: Pid)
    | Recover(rdb: string, timeoutMs: int, now: Time)
    | Cancel(id: Id, caller: string, now: Time)
    | Prune(removed: set<Id>, cutoff: Time)

  function WorkOf(s: State, pid: Pid): Work {
    if pid in s.backends then s.backends[pid].work else Idle
  }

  predicate Enabled(s: State, step: Step) {
    match step
    case Submit(id, _, _, _, _, _) => id !in s.minted
    case Connect(pid, _) => pid !in s.backends
    case Vanish(pid) => pid in s.backends
    case Claim(pid, locked, id, _) =>
      && pid in s.backends && s.backends[pid].work.Idle?
      && IsNext(s.rows, s.backends[pid].db, locked, id)
    case RunAgent(pid, _) => WorkOf(s, pid).Holds?
    case Record(pid, _, _) => WorkOf(s, pid).Ran?
    case Release(pid) => WorkOf(s, pid).Holds?
    case Abandon(pid) => !WorkOf(s, pid).Idle?
    case Recover(_, _, _) => true
    case Cancel(_, _, _) => true
    case Prune(removed, cutoff) => removed <= Prunable(s.rows, cutoff)
  }

  function Working(s: State, pid: Pid, work: Work): map<Pid, Backend>
    requires pid in s.backends
  {
    s.backends[pid := s.backends[pid].(work := work)]
  }

  function Apply(s: State, step: Step): State
    requires Enabled(s, step)
  {
    match step
    case Submit(id, owner, db, kind, question, now) =>
      s.(rows := s.rows[id := Fresh(owner, db, kind, question, now)], minted := s.minted + {id})
    case Connect(pid, db) =>
      s.(backends := s.backends[pid := Backend(db, Idle)])
    case Vanish(pid) =>
      s.(backends := s.backends - {pid})
    case Claim(pid, _, id, now) =>
      s.(rows := s.rows[id := ClaimedBy(s.rows[id], pid, now)],
         backends := Working(s, pid, Holds(id, s.rows[id].attempts + 1)),
         claims := s.claims + multiset{id})
    case RunAgent(pid, outcome) =>
      var w := WorkOf(s, pid);
      s.(backends := Working(s, pid, Ran(w.job, w.gen, outcome)),
         executions := s.executions[(w.job, w.gen) := outcome])
    case Record(pid, maxAttempts, now) =>
      var w := WorkOf(s, pid);
      var rows' := JobTable.Record(s.rows, w.job, pid, w.outcome, maxAttempts, now);
      s.(rows := rows', backends := Working(s, pid, Idle),
         doneNotices := if NotifiesDone(s, w.job, pid, rows') then s.doneNotices + multiset{w.job}
                        else s.doneNotices)
    case Release(pid) =>
      var w := WorkOf(s, pid);
      s.(rows := JobTable.Release(s.rows, w.job, pid), backends := Working(s, pid, Idle),
         releases := if w.job in s.rows && OwnedBy(s.rows[w.job], pid)
                     then s.releases + multiset{w.job} else s.releases)
    case Abandon(pid) =>
      s.(backends := Working(s, pid, Idle))
    case Recover(db, timeoutMs, now) =>
      s.(rows := Recovered(s.rows, db, timeoutMs, now),
         recoveries := s.recoveries + multiset(Orphans(s.rows, db, timeoutMs, now)))
    case Cancel(id, caller, now) =>
      s.(rows := JobTable.Cancel(s.rows, id, caller, now))
    case Prune(removed, _) =>
      s.(rows := s.rows - removed)
  }

  /** `_job_complete` notifies when it changed the row, `_job_fail` only on a terminal failure. */
  predicate NotifiesDone(s: State, job: Id, pid: Pid, after: Rows) {
    && job in s.rows && OwnedBy(s.rows[job], pid)
    && job in after && after[job].status in {Done, Failed}
  }

  const EMPTY := State(map[], map[], multiset{}, map[], multiset{}, multiset{}, multiset{}, {})

  /** Where these steps lead from an empty queue, if each was enabled when it was taken. */
  function After(steps: seq<Step>): Option<State>
    decreases |steps|
  {
    if steps == [] then Some(EMPTY)
    else
      match After(steps[..|steps| - 1])
      case None => None
      case Some(s) =>
        var step := steps[|steps| - 1];
        if Enabled(s, step) then Some(Apply(s, step)) else None
  }

  // ----- The inductive invariant -------------------------------------------

  predicate RowOk(j: Job) {
    && (j.finishedAt.Some? <==> Terminal(j.status))
    && (j.status == Pending ==> j.workerPid.None? && j.startedAt.None?)
    && (j.status == Running ==> j.workerPid.Some? && j.startedAt.Some?)
  }

  predicate RowInv(s: State, id: Id)
    requires id in s.rows
  {
    id in s.minted && RowOk(s.rows[id]) && s.rows[id].attempts == s.claims[id]
  }

  /** The claim a busy backend works for. */
  predicate WorkInv(s: State, pid: Pid) {
    var w := WorkOf(s, pid);
    !w.Idle? ==>
      && w.job in s.minted
      && 1 <= w.gen <= s.claims[w.job]
      && (w.job in s.rows && OwnedBy(s.rows[w.job], pid) ==> w.gen == s.rows[w.job].attempts)
      && (w.Holds? ==> (w.job, w.gen) !in s.executions)
      && (w.Ran? ==> (w.job, w.gen) in s.executions && s.executions[(w.job, w.gen)] == w.outcome)
  }

  /** No two backends work for the same claim. */
  predicate Apart(s: State, p: Pid, q: Pid) {
    var v, w := WorkOf(s, p), WorkOf(s, q);
    p != q && !v.Idle? && !w.Idle? ==> v.job != w.job || v.gen != w.gen
  }

  /** A finished row holds what the run started by its latest claim produced. */
  predicate ResultInv(s: State, id: Id)
    requires id in s.rows
  {
    var j := s.rows[id];
    var run := (id, j.attempts);
    && (j.status == Done ==>
          && run in s.executions
          && j.answer.Some? && j.promptTokens.Some? && j.completionTokens.Some?
          && s.executions[run] == Success(j.answer.value, j.promptTokens.value, j.completionTokens.value)
          && j.error == None)
    && (j.status == Failed ==>
          && run in s.executions && j.error.Some? && s.executions[run] == Failure(j.error.value))
    && (j.status != Done ==> j.answer == None)
  }

  /** One notice for a done or failed job, none for any other. */
  predicate NoticeInv(s: State, id: Id) {
    && (id in s.rows ==> s.doneNotices[id] == if s.rows[id].status in {Done, Failed} then 1 else 0)
    && s.doneNotices[id] <= 1
  }

  predicate UnmintedInv(s: State, id: Id) {
    id !in s.minted ==>
      && id !in s.claims && id !in s.recoveries && id !in s.releases && id !in s.doneNotices
  }

  predicate ExecutionInv(s: State, e: (Id, nat)) {
    e in s.executions ==> e.0 in s.minted && 1 <= e.1 <= s.claims[e.0]
  }

  ghost predicate Inv(s: State) {
    && (forall id | id in s.rows :: RowInv(s, id) && ResultInv(s, id))
    && (forall pid :: WorkInv(s, pid))
    && (forall p, q :: Apart(s, p, q))
    && (forall id :: NoticeInv(s, id))
    && (forall id :: UnmintedInv(s, id))
    && (forall e :: ExecutionInv(s, e))
  }

  // ----- Every step keeps it -------------------------------------------------

  /** Steps of a backend at work on a job. */
  predicate OfBackend(step: Step) { step.Claim? || step.RunAgent? || step.Record? || step.Release? }

  lemma RowInvKeptByBackend(s: State, step: Step, id: Id)
    requires Inv(s) && Enabled(s, step) && id in Apply(s, step).rows && OfBackend(step)
    ensures RowInv(Apply(s, step), id)
  {
    assert RowInv(s, id);
  }

  lemma RowInvKeptByOther(s: State, step: Step, id: Id)
    requires Inv(s) && Enabled(s, step) && id in Apply(s, step).rows && !OfBackend(step)
    ensures RowInv(Apply(s, step), id)
  {
    assert UnmintedInv(s, id);
    assert id in s.rows ==> RowInv(s, id);
  }

  lemma ResultInvKeptByBackend(s: State, step: Step, id: Id)
    requires Inv(s) && Enabled(s, step) && id in Apply(s, step).rows && OfBackend(step)
    ensures ResultInv(Apply(s, step), id)
  {
    assert RowInv(s, id) && ResultInv(s, id);
    assert WorkInv(s, step.pid);
  }

  lemma ResultInvKeptByOther(s: State, step: Step, id: Id)
    requires Inv(s) && Enabled(s, step) && id in Apply(s, step).rows && !OfBackend(step)
    ensures ResultInv(Apply(s, step), id)
  {
    assert id in s.rows ==> RowInv(s, id) && ResultInv(s, id);
  }

  lemma WorkInvKeptByClaim(s: State, step: Step, pid: Pid)
    requires Inv(s) && Enabled(s, step) && step.Claim?
    ensures WorkInv(Apply(s, step), pid)
  {
    var w := WorkOf(s, pid);
    assert WorkInv(s, pid);
    assert !w.Idle? && w.job in s.rows ==> RowInv(s, w.job);
    assert RowInv(s, step.id);
    assert ExecutionInv(s, (step.id, s.rows[step.id].attempts + 1));
  }

  lemma WorkInvKeptByBackend(s: State, step: Step, pid: Pid)
    requires Inv(s) && Enabled(s, step) && OfBackend(step) && !step.Claim?
    ensures WorkInv(Apply(s, step), pid)
  {
    var w := WorkOf(s, pid);
    assert WorkInv(s, pid);
    assert !w.Idle? && w.job in s.rows ==> RowInv(s, w.job);
    assert step.RunAgent? ==> Apart(s, pid, step.pid);
  }

  lemma WorkInvKeptByOther(s: State, step: Step, pid: Pid)
    requires Inv(s) && Enabled(s, step) && !OfBackend(step)
    ensures WorkInv(Apply(s, step), pid)
  {
    var w := WorkOf(s, pid);
    assert WorkInv(s, pid);
    assert !w.Idle? && w.job in s.rows ==> RowInv(s, w.job);
    assert step.Submit? ==> UnmintedInv(s, step.id);
  }

  lemma ApartKept(s: State, step: Step, p: Pid, q: Pid)
    requires Inv(s) && Enabled(s, step)
    ensures Apart(Apply(s, step), p, q)
  {
    assert Apart(s, p, q);
    assert WorkInv(s, p) && WorkInv(s, q);
    if step.Claim? {
      assert RowInv(s, step.id);
    }
  }

  lemma NoticeInvKept(s: State, step: Step, id: Id)
    requires Inv(s) && Enabled(s, step)
    ensures NoticeInv(Apply(s, step), id)
  {
    assert NoticeInv(s, id);
    assert UnmintedInv(s, id);
    assert id in s.rows ==> RowInv(s, id);
  }

  lemma UnmintedInvKept(s: State, step: Step, id: Id)
    requires Inv(s) && Enabled(s, step)
    ensures UnmintedInv(Apply(s, step), id)
  {
    assert UnmintedInv(s, id);
    if step.Record? || step.Release? {
      assert WorkInv(s, step.pid);
    }
    assert id in s.rows ==> RowInv(s, id);
  }

  lemma ExecutionInvKept(s: State, step: Step, e: (Id, nat))
    requires Inv(s) && Enabled(s, step)
    ensures ExecutionInv(Apply(s, step), e)
  {
    assert ExecutionInv(s, e);
    if step.RunAgent? {
      assert WorkInv(s, step.pid);
    }
  }

  lemma InvKept(s: State, step: Step)
    requires Inv(s) && Enabled(s, step)
    ensures Inv(Apply(s, step))
  {
    var t := Apply(s, step);
    forall id | id in t.rows ensures RowInv(t, id) && ResultInv(t, id) {
      if OfBackend(step) {
        RowInvKeptByBackend(s, step, id);
        ResultInvKeptByBackend(s, step, id);
      } else {
        RowInvKeptByOther(s, step, id);
        ResultInvKeptByOther(s, step, id);
      }
    }
    forall pid ensures WorkInv(t, pid) {
      if step.Claim? {
        WorkInvKeptByClaim(s, step, pid);
      } else if OfBackend(step) {
        WorkInvKeptByBackend(s, step, pid);
      } else {
        WorkInvKeptByOther(s, step, pid);
      }
    }
    forall p, q ensures Apart(t, p, q) { ApartKept(s, step, p, q); }
    forall id ensures NoticeInv(t, id) && UnmintedInv(t, id) {
      NoticeInvKept(s, step, id);
      UnmintedInvKept(s, step, id);
    }
    forall e ensures ExecutionInv(t, e) { ExecutionInvKept(s, step, e); }
  }

  lemma {:induction false} InvAlways(steps: seq<Step>)
    requires After(steps).Some?
    ensures Inv(After(steps).value)
    decreases |steps|
  {
    if steps != [] {
      InvAlways(steps[..|steps| - 1]);
      InvKept(After(steps[..|steps| - 1]).value, steps[|steps| - 1]);
    }
  }

  // ----- What follows for every run -------------------------------------------

  /**
   A done job carries the answer and the token counts of the run that its
   latest claim started; a failed job carries that run's error.
   */
  lemma ResultComesFromLatestClaim(steps: seq<Step>, id: Id)
    requires After(steps).Some? && id in After(steps).value.rows
    ensures var s := After(steps).value; var j := s.rows[id];
            && j.attempts == s.claims[id]
            && (j.status == Done ==>
                  && (id, s.claims[id]) in s.executions
                  && j.answer.Some? && j.promptTokens.Some? && j.completionTokens.Some?
                  && s.executions[(id, s.claims[id])]
                     == Success(j.answer.value, j.promptTokens.value, j.completionTokens.value))
            && (j.status == Failed ==>
                  && (id, s.claims[id]) in s.executions
                  && j.error.Some? && s.executions[(id, s.claims[id])] == Failure(j.error.value))
  {
    InvAlways(steps);
    assert RowInv(After(steps).value, id) && ResultInv(After(steps).value, id);
  }

  /**
   A backend whose claim is no longer the latest one, or whose job is no
   longer running, can neither finish, retry nor release it, and wakes nobody.
   */
  lemma StaleBackendIsHarmless(steps: seq<Step>, step: Step)
    requires After(steps).Some? && Enabled(After(steps).value, step)
    requires step.Record? || step.Release?
    requires var s := After(steps).value; var w := WorkOf(s, step.pid);
             w.job in s.rows ==> s.rows[w.job].status != Running || s.rows[w.job].attempts != w.gen
    ensures var s := After(steps).value;
            Apply(s, step).rows == s.rows && Apply(s, step).doneNotices == s.doneNotices
  {
    InvAlways(steps);
    assert WorkInv(After(steps).value, step.pid);
  }

  /** Each claim is run at most once, and what it produced is never overwritten. */
  lemma RunsAreWrittenOnce(steps: seq<Step>, step: Step)
    requires After(steps).Some? && Enabled(After(steps).value, step)
    ensures var s := After(steps).value;
            && (step.RunAgent? ==> (WorkOf(s, step.pid).job, WorkOf(s, step.pid).gen) !in s.executions)
            && forall e :: e in s.executions ==>
                 e in Apply(s, step).executions && Apply(s, step).executions[e] == s.executions[e]
  {
    InvAlways(steps);
    if step.RunAgent? {
      assert WorkInv(After(steps).value, step.pid);
    }
  }

  /** Only a prune touches a terminal row, and a prune touches no other row. */
  lemma TerminalRowsAreFinal(s: State, step: Step, id: Id)
    requires Inv(s) && Enabled(s, step) && id in s.rows
    ensures Terminal(s.rows[id].status) && !step.Prune? ==>
              id in Apply(s, step).rows && Apply(s, step).rows[id] == s.rows[id]
    ensures !Terminal(s.rows[id].status) ==> id in Apply(s, step).rows
    ensures step.Prune? && id in Apply(s, step).rows ==> Apply(s, step).rows[id] == s.rows[id]
  {
    assert RowInv(s, id);
    if step.Submit? { assert UnmintedInv(s, step.id); }
  }

  /** A row is created by the one submission that mints its id, and by nothing else; a minted id stays minted. */
  lemma IdsAreMintedOnce(s: State, step: Step, id: Id)
    requires Enabled(s, step)
    ensures id in s.minted ==> id in Apply(s, step).minted
    ensures id !in s.rows && id in Apply(s, step).rows ==>
              && id !in s.minted
              && step.Submit? && step.id == id
              && Apply(s, step).rows[id] == Fresh(step.owner, step.sdb, step.kind, step.question, step.now)
    ensures id in Apply(s, step).minted ==> id in s.minted || (step.Submit? && step.id == id)
  {
  }

  lemma AfterLast(steps: seq<Step>)
    requires steps != [] && After(steps).Some?
    ensures var init := steps[..|steps| - 1];
            && After(init).Some? && Enabled(After(init).value, steps[|steps| - 1])
            && After(steps).value == Apply(After(init).value, steps[|steps| - 1])
  {
  }

  /** Once a job is terminal, its row never changes again: it stays or is pruned. */
  lemma {:induction false} FinishedForGood(steps: seq<Step>, n: nat, id: Id)
    requires n <= |steps| && After(steps).Some?
    requires After(steps[..n]).Some?
    requires id in After(steps[..n]).value.rows
    requires Terminal(After(steps[..n]).value.rows[id].status)
    ensures id in After(steps).value.minted
    ensures id in After(steps).value.rows ==>
              After(steps).value.rows[id] == After(steps[..n]).value.rows[id]
    decreases |steps|
  {
    InvAlways(steps[..n]);
    assert RowInv(After(steps[..n]).value, id);
    if n == |steps| {
      assert steps[..n] == steps;
    } else {
      var init := steps[..|steps| - 1];
      assert init[..n] == steps[..n];
      AfterLast(steps);
      FinishedForGood(init, n, id);
      InvAlways(init);
      IdsAreMintedOnce(After(init).value, steps[|steps| - 1], id);
      if id in After(init).value.rows {
        TerminalRowsAreFinal(After(init).value, steps[|steps| - 1], id);
      }
    }
  }

  /** No job is lost: a submitted job has a row until a prune removes it in a terminal state. */
  lemma {:induction false} NoJobIsLost(steps: seq<Step>, id: Id) returns (n: nat)
    requires After(steps).Some? && id in After(steps).value.minted && id !in After(steps).value.rows
    ensures n <= |steps| && After(steps[..n]).Some?
    ensures id in After(steps[..n]).value.rows && Terminal(After(steps[..n]).value.rows[id].status)
    decreases |steps|
  {
    var init, step := steps[..|steps| - 1], steps[|steps| - 1];
    var s := After(init).value;
    InvAlways(init);
    if id in s.rows {
      TerminalRowsAreFinal(s, step, id);
      n := |init|;
      assert steps[..n] == init;
    } else {
      n := NoJobIsLost(init, id);
      assert init[..n] == steps[..n];
    }
  }

  /** `pg_ask_jobs_done` is sent once for each done or failed job and never for any other. */
  lemma DoneNoticeIsExact(steps: seq<Step>, id: Id)
    requires After(steps).Some?
    ensures var s := After(steps).value;
            && (id in s.rows && s.rows[id].status in {Done, Failed} ==> s.doneNotices[id] == 1)
            && (id in s.rows && s.rows[id].status !in {Done, Failed} ==> s.doneNotices[id] == 0)
            && (id !in s.minted ==> s.doneNotices[id] == 0)
            && s.doneNotices[id] <= 1
  {
    InvAlways(steps);
    assert NoticeInv(After(steps).value, id) && UnmintedInv(After(steps).value, id);
  }

  // ----- How often a job can be claimed ----------------------------------------

  predicate BudgetInv(s: State, limit: nat, id: Id) {
    && s.claims[id] <= limit + s.recoveries[id] + s.releases[id]
    && (id in s.rows && s.rows[id].status == Pending ==>
          s.claims[id] < limit + s.recoveries[id] + s.releases[id])
  }

  lemma BudgetKept(s: State, step: Step, limit: nat, id: Id)
    requires Inv(s) && Enabled(s, step) && limit >= 1 && BudgetInv(s, limit, id)
    requires step.Record? ==> step.maxAttempts <= limit
    ensures BudgetInv(Apply(s, step), limit, id)
  {
    if id in s.rows {
      assert RowInv(s, id);
    }
    assert UnmintedInv(s, id);
  }

  /**
   While no recording grants more than `limit` attempts, a job is claimed at
   most `limit` times plus once for each orphan recovery and each release.
   */
  lemma {:induction false} ClaimsAreBounded(steps: seq<Step>, limit: nat, id: Id)
    requires After(steps).Some? && limit >= 1
    requires forall i | 0 <= i < |steps| :: steps[i].Record? ==> steps[i].maxAttempts <= limit
    ensures var s := After(steps).value;
            s.claims[id] <= limit + s.recoveries[id] + s.releases[id] && BudgetInv(s, limit, id)
    decreases |steps|
  {
    if steps != [] {
      var init := steps[..|steps| - 1];
      ClaimsAreBounded(init, limit, id);
      InvAlways(init);
      BudgetKept(After(init).value, steps[|steps| - 1], limit, id);
    }
  }
}
