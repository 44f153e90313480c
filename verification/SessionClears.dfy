/**
 That appends and clears do what they are for, whatever other transactions do in
 between: a committed clear removes what it saw, for good, and a committed append
 has all its messages in the log.
 */
module SessionClears {
  import opened Common
  import opened SessionStore
  import opened SessionLog

  // ----- The states of a run -------------------------------------------------------

  ghost predicate Leads(s: State, step: Step, s': State) { Enabled(s, step) && s' == Apply(s, step) }

  /** The states before, between and after the steps of a run. */
  ghost predicate RunOf(steps: seq<Step>, ss: seq<State>) {
    |ss| == |steps| + 1 && ss[0] == START && forall i | 0 <= i < |steps| :: Leads(ss[i], steps[i], ss[i + 1])
  }

  /** They are what the steps so far lead to, and have the invariant. */
  lemma {:induction false} RunIsAfter(steps: seq<Step>, ss: seq<State>, n: nat)
    requires RunOf(steps, ss) && n <= |steps|
    ensures After(steps[..n]) == Some(ss[n]) && Inv(ss[n])
  {
    var part := steps[..n];
    if n > 0 {
      RunIsAfter(steps, ss, n - 1);
      assert part[..|part| - 1] == steps[..n - 1] && part[|part| - 1] == steps[n - 1];
      assert Leads(ss[n - 1], steps[n - 1], ss[n - 1 + 1]);
    }
    InvAlways(part);
  }

  /** Every possible run has such states. */
  lemma {:induction false} RunExists(steps: seq<Step>) returns (ss: seq<State>)
    requires After(steps).Some?
    ensures RunOf(steps, ss) && ss[|steps|] == After(steps).value
  {
    if steps == [] {
      ss := [START];
    } else {
      var init := steps[..|steps| - 1];
      var before := RunExists(init);
      ss := before + [After(steps).value];
      forall i | 0 <= i < |steps| ensures Leads(ss[i], steps[i], ss[i + 1]) {
        if i < |init| { assert Leads(before[i], init[i], before[i + 1]); }
      }
    }
  }

  lemma {:induction false} NotIn(log: seq<Line>, gone: set<nat>, l: Line)
    ensures l in Without(log, gone) <==> l in log && l.batch !in gone
  {
    if log != [] {
      NotIn(log[1..], gone, l);
      assert log == [log[0]] + log[1..];
    }
  }

  /** Until it commits, nothing a transaction does is in the log; what it then changes are its own additions and deletions. */
  lemma OnlyCommitsWrite(s: State, step: Step, s': State, l: Line)
    requires Leads(s, step, s')
    ensures !step.Commit? ==> s'.log == s.log
    ensures step.Commit? ==>
              (l in s'.log <==> l in s.txns[step.txn].added || (l in s.log && l.batch !in s.txns[step.txn].deleted))
    ensures step.Commit? || step.Abort? ==> step.txn !in s'.txns && s'.lock != Some(step.txn)
  {
    if step.Commit? {
      NotIn(s.log, s.txns[step.txn].deleted, l);
    }
  }

  // ----- A clear removes what it saw ----------------------------------------------------

  lemma OtherStep(s: State, step: Step, s': State, t: TxnId)
    requires Leads(s, step, s') && step.txn != t && t in s.txns
    ensures t in s'.txns && s'.txns[t] == s.txns[t]
  {
  }

  /** While a clear waits, its transaction stays as it is. */
  lemma {:induction false} WaitsUnchanged(steps: seq<Step>, ss: seq<State>, n: nat, m: nat, t: TxnId)
    requires RunOf(steps, ss) && n <= m <= |steps| && t in ss[n].txns
    requires forall i | n <= i < m :: steps[i].txn != t
    ensures t in ss[m].txns && ss[m].txns[t] == ss[n].txns[t]
    decreases m - n
  {
    if n < m {
      WaitsUnchanged(steps, ss, n, m - 1, t);
      OtherStep(ss[m - 1], steps[m - 1], ss[m - 1 + 1], t);
    }
  }

  lemma BatchesGrow(s: State, step: Step, s': State)
    requires Leads(s, step, s')
    ensures |s.batches| <= |s'.batches|
  {
  }

  lemma {:induction false} KnownStays(steps: seq<Step>, ss: seq<State>, n: nat, m: nat)
    requires RunOf(steps, ss) && n <= m <= |steps|
    ensures |ss[n].batches| <= |ss[m].batches|
    decreases m - n
  {
    if n < m {
      KnownStays(steps, ss, n, m - 1);
      BatchesGrow(ss[m - 1], steps[m - 1], ss[m - 1 + 1]);
    }
  }

  /** The line is that of an earlier append, and its transaction has deleted it. */
  predicate Cleared(s: State, t: TxnId, l: Line) {
    t in s.txns && l.batch in s.txns[t].deleted && l.batch < |s.batches|
  }

  lemma SeenIsKnown(s: State, t: TxnId, l: Line)
    requires Inv(s) && t in s.txns && l in Visible(s, t)
    ensures l.batch < |s.batches| && l.batch in BatchesIn(Visible(s, t))
  {
    assert Holds(s, t);
    VisibleIsChain(s, t);
    var i :| 0 <= i < |Visible(s, t)| && Visible(s, t)[i] == l;
    assert Authentic(Visible(s, t)[i], s.batches);
  }

  lemma ClearBegins(s: State, t: TxnId, s': State)
    requires Leads(s, Clear(t), s')
    ensures t in s.txns && t in s'.txns && s'.txns[t].doing == Clearing(BatchesIn(Visible(s, t)))
  {
  }

  lemma ClearEnds(s: State, t: TxnId, s': State, l: Line)
    requires Leads(s, FinishClear(t), s') && l.batch in s.txns[t].doing.snapshot && l.batch < |s.batches|
    ensures Cleared(s', t, l) && l !in Visible(s', t)
  {
    NotIn(s.log, s'.txns[t].deleted, l);
    NotIn(s.txns[t].added, s.txns[t].doing.snapshot, l);
  }

  /**
   A clear, begun at step `n` and ended at step `m`, with the other transactions
   doing anything in between: no line its transaction saw when it began does it see
   when it has ended.
   */
  lemma ClearRemovesWhatItSaw(steps: seq<Step>, ss: seq<State>, n: nat, m: nat, t: TxnId, l: Line)
    requires RunOf(steps, ss) && n < m < |steps| && steps[n] == Clear(t) && steps[m] == FinishClear(t)
    requires forall i | n < i < m :: steps[i].txn != t
    requires t in ss[n].txns && l in Visible(ss[n], t)
    ensures t in ss[m + 1].txns && l !in Visible(ss[m + 1], t) && Cleared(ss[m + 1], t, l)
  {
    RunIsAfter(steps, ss, n);
    assert Leads(ss[n], steps[n], ss[n + 1]) && Leads(ss[m], steps[m], ss[m + 1]);
    ClearBegins(ss[n], t, ss[n + 1]);
    WaitsUnchanged(steps, ss, n + 1, m, t);
    SeenIsKnown(ss[n], t, l);
    KnownStays(steps, ss, n, m);
    ClearEnds(ss[m], t, ss[m + 1], l);
  }

  lemma StaysClearedStep(s: State, step: Step, s': State, t: TxnId, l: Line)
    requires Leads(s, step, s') && Cleared(s, t, l) && (step.txn == t ==> !step.Commit? && !step.Abort?)
    ensures Cleared(s', t, l)
  {
  }

  /** What a transaction has deleted stays deleted in it. */
  lemma {:induction false} StaysCleared(steps: seq<Step>, ss: seq<State>, n: nat, m: nat, t: TxnId, l: Line)
    requires RunOf(steps, ss) && n <= m <= |steps| && Cleared(ss[n], t, l)
    requires forall i | n <= i < m && steps[i].txn == t :: !steps[i].Commit? && !steps[i].Abort?
    ensures Cleared(ss[m], t, l)
    decreases m - n
  {
    if n < m {
      StaysCleared(steps, ss, n, m - 1, t, l);
      StaysClearedStep(ss[m - 1], steps[m - 1], ss[m - 1 + 1], t, l);
    }
  }

  /** The line is committed nowhere, and no transaction has written or is writing its append. */
  predicate Gone(s: State, l: Line) {
    && l.batch < |s.batches|
    && (forall i | 0 <= i < |s.log| :: s.log[i].batch != l.batch)
    && (forall t | t in s.txns :: Spares({l.batch}, s.txns[t]))
  }

  lemma {:induction false} BatchesLeft(log: seq<Line>, gone: set<nat>, b: nat)
    requires b in gone || forall i | 0 <= i < |log| :: log[i].batch != b
    ensures forall i | 0 <= i < |Without(log, gone)| :: Without(log, gone)[i].batch != b
  {
    if log != [] { BatchesLeft(log[1..], gone, b); }
  }

  lemma CommittedClear(s: State, t: TxnId, s': State, l: Line)
    requires Inv(s) && Leads(s, Commit(t), s') && Cleared(s, t, l)
    ensures Gone(s', l)
  {
    assert Holds(s, t);
    BatchesLeft(s.log, s.txns[t].deleted, l.batch);
    forall u | u in s'.txns
      ensures Spares({l.batch}, s'.txns[u])
    {
      assert Foreign(s, t, u);
    }
  }

  lemma GoneStays(s: State, step: Step, s': State, l: Line)
    requires Leads(s, step, s') && Gone(s, l)
    ensures Gone(s', l)
  {
    var t := step.txn;
    assert t in s.txns ==> Spares({l.batch}, s.txns[t]);
    if step.Commit? {
      BatchesLeft(s.log, s.txns[t].deleted, l.batch);
    }
    if step.FinishClear? {
      BatchesLeft(s.txns[t].added, s.txns[t].doing.snapshot, l.batch);
    }
    forall u | u in s'.txns
      ensures Spares({l.batch}, s'.txns[u])
    {
      assert u in s.txns ==> Spares({l.batch}, s.txns[u]);
    }
  }

  lemma {:induction false} GoneForGood(steps: seq<Step>, ss: seq<State>, n: nat, m: nat, l: Line)
    requires RunOf(steps, ss) && n <= m <= |steps| && Gone(ss[n], l)
    ensures Gone(ss[m], l)
    decreases m - n
  {
    if n < m {
      GoneForGood(steps, ss, n, m - 1, l);
      GoneStays(ss[m - 1], steps[m - 1], ss[m - 1 + 1], l);
    }
  }

  /**
   Once the transaction of the clear has committed, whatever it did in between, no
   line that the clear saw is in the log, then or at any later moment.
   */
  lemma CommittedClearIsFinal(steps: seq<Step>, ss: seq<State>, n: nat, m: nat, k: nat, t: TxnId, l: Line, later: nat)
    requires RunOf(steps, ss) && n < m < k < later <= |steps|
    requires steps[n] == Clear(t) && steps[m] == FinishClear(t) && steps[k] == Commit(t)
    requires forall i | n < i < m :: steps[i].txn != t
    requires forall i | m < i < k && steps[i].txn == t :: !steps[i].Commit? && !steps[i].Abort?
    requires t in ss[n].txns && l in Visible(ss[n], t)
    ensures l !in ss[later].log
  {
    ClearRemovesWhatItSaw(steps, ss, n, m, t, l);
    StaysCleared(steps, ss, m + 1, k, t, l);
    RunIsAfter(steps, ss, k);
    assert Leads(ss[k], steps[k], ss[k + 1]);
    CommittedClear(ss[k], t, ss[k + 1], l);
    GoneForGood(steps, ss, k + 1, later, l);
  }

  lemma OneMore(steps: seq<Step>, step: Step) returns (next: State)
    requires After(steps).Some? && Enabled(After(steps).value, step)
    ensures next == Apply(After(steps).value, step) && After(steps + [step]) == Some(next)
  {
    next := Apply(After(steps).value, step);
    assert (steps + [step])[..|steps|] == steps;
  }

  lemma ClearsAll(s: State, t: TxnId, s2: State, s3: State)
    requires t in s.txns && s.txns[t] == Txn(Nothing, {}, [])
    requires forall u | u in s.txns :: s.txns[u].deleted == {}
    requires s2 == Apply(s, Clear(t))
    ensures Enabled(s2, FinishClear(t))
    ensures s3 == Apply(s2, FinishClear(t)) ==> Enabled(s3, Commit(t)) && Apply(s3, Commit(t)).log == []
  {
    WithoutNone(s.log, {});
    assert Visible(s, t) == s.log;
    WithoutAll(s.log, BatchesIn(s.log));
    assert {} + BatchesIn(s.log) == BatchesIn(s.log);
  }

  /** With no other transaction's deletions pending, a new transaction can clear the session, and leaves it empty. */
  lemma ClearEmptiesTheLog(steps: seq<Step>, t: TxnId)
    requires After(steps).Some? && t !in After(steps).value.txns
    requires forall u | u in After(steps).value.txns :: After(steps).value.txns[u].deleted == {}
    ensures var end := After(steps + [Begin(t), Clear(t), FinishClear(t), Commit(t)]);
      end.Some? && end.value.log == []
  {
    var s1 := OneMore(steps, Begin(t));
    var s2 := OneMore(steps + [Begin(t)], Clear(t));
    ClearsAll(s1, t, s2, s2);
    var s3 := OneMore(steps + [Begin(t)] + [Clear(t)], FinishClear(t));
    ClearsAll(s1, t, s2, s3);
    var s4 := OneMore(steps + [Begin(t)] + [Clear(t)] + [FinishClear(t)], Commit(t));
    assert steps + [Begin(t)] + [Clear(t)] + [FinishClear(t)] + [Commit(t)]
        == steps + [Begin(t), Clear(t), FinishClear(t), Commit(t)];
  }

  // ----- An append is written -----------------------------------------------------------------

  predicate HasLine(log: seq<Line>, batch: nat, pos: nat, row: Row) {
    exists i :: 0 <= i < |log| && log[i].batch == batch && log[i].pos == pos && log[i].row == row
  }

  /** The transaction has written the first `k` rows of its append `batch`, and is at it or has written all. */
  predicate WrittenSoFar(s: State, t: TxnId, batch: nat, rows: seq<Row>, k: nat) {
    && t in s.txns && batch < |s.batches| && s.batches[batch] == rows && k <= |rows|
    && (k == |rows| || s.txns[t].doing == Appending(batch, k))
    && (s.txns[t].doing.Appending? && s.txns[t].doing.batch == batch ==> s.txns[t].doing == Appending(batch, k))
    && forall i | 0 <= i < k :: HasLine(s.txns[t].added, batch, i, rows[i])
  }

  lemma OwnLineStays(added: seq<Line>, line: Line, batch: nat, pos: nat, row: Row)
    requires HasLine(added, batch, pos, row)
    ensures HasLine(added + [line], batch, pos, row)
  {
    var i :| 0 <= i < |added| && added[i].batch == batch && added[i].pos == pos && added[i].row == row;
    assert (added + [line])[i] == added[i];
  }

  lemma WritesOn(s: State, step: Step, s': State, t: TxnId, batch: nat, rows: seq<Row>, k: nat) returns (k': nat)
    requires Leads(s, step, s') && WrittenSoFar(s, t, batch, rows, k)
    requires step.txn == t ==> step.Append? || step.Insert?
    ensures WrittenSoFar(s', t, batch, rows, k')
  {
    k' := k;
    if step.txn == t && step.Insert? {
      var line, d := NextLine(s, t), s.txns[t].doing;
      forall i | 0 <= i < k ensures HasLine(s'.txns[t].added, batch, i, rows[i]) {
        OwnLineStays(s.txns[t].added, line, batch, i, rows[i]);
      }
      if d == Appending(batch, k) {
        k' := k + 1;
        assert s'.txns[t].added[|s.txns[t].added|] == line;
      }
    }
  }

  lemma {:induction false} WritesOnUntil(steps: seq<Step>, ss: seq<State>, n: nat, m: nat, t: TxnId, batch: nat,
                                         rows: seq<Row>, k: nat)
    returns (k': nat)
    requires RunOf(steps, ss) && n <= m <= |steps| && WrittenSoFar(ss[n], t, batch, rows, k)
    requires forall i | n <= i < m && steps[i].txn == t :: steps[i].Append? || steps[i].Insert?
    ensures WrittenSoFar(ss[m], t, batch, rows, k')
    decreases m - n
  {
    if n == m {
      k' := k;
    } else {
      var k1 := WritesOnUntil(steps, ss, n, m - 1, t, batch, rows, k);
      k' := WritesOn(ss[m - 1], steps[m - 1], ss[m - 1 + 1], t, batch, rows, k1);
    }
  }

  /**
   An append begun at step `n` by a transaction that appends and then commits at step
   `m`, with the other transactions doing anything in between: after the commit each of
   its messages is in the log, as the message of that append at that position.
   */
  lemma CommittedAppendIsThere(steps: seq<Step>, ss: seq<State>, n: nat, m: nat, t: TxnId, rows: seq<Row>, i: nat)
    requires RunOf(steps, ss) && n < m < |steps| && steps[n] == Append(t, rows) && steps[m] == Commit(t)
    requires forall j | n < j < m && steps[j].txn == t :: steps[j].Append? || steps[j].Insert?
    requires i < |rows|
    ensures HasLine(ss[m + 1].log, |ss[n].batches|, i, rows[i])
  {
    assert Leads(ss[n], steps[n], ss[n + 1]) && Leads(ss[m], steps[m], ss[m + 1]);
    AppendBegins(ss[n], t, rows, ss[n + 1]);
    var k := WritesOnUntil(steps, ss, n + 1, m, t, |ss[n].batches|, rows, 0);
    OwnLinesCommitted(ss[m], t, ss[m + 1], |ss[n].batches|, i, rows[i]);
  }

  lemma AppendBegins(s: State, t: TxnId, rows: seq<Row>, s': State)
    requires Leads(s, Append(t, rows), s')
    ensures WrittenSoFar(s', t, |s.batches|, rows, 0)
  {
  }

  lemma OwnLinesCommitted(s: State, t: TxnId, s': State, batch: nat, pos: nat, row: Row)
    requires Leads(s, Commit(t), s') && HasLine(s.txns[t].added, batch, pos, row)
    ensures HasLine(s'.log, batch, pos, row)
  {
    var added, kept := s.txns[t].added, Without(s.log, s.txns[t].deleted);
    var j :| 0 <= j < |added| && added[j].batch == batch && added[j].pos == pos && added[j].row == row;
    assert s'.log == kept + added && s'.log[|kept| + j] == added[j];
  }
}
