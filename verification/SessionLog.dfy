/**
 A session's messages under concurrent transactions. An append takes the
 session's advisory lock, which is held to the end of the transaction, and then
 inserts its messages one statement at a time, each at one more than the largest
 index visible to it. A clear takes no such lock: it deletes what is visible when
 it starts, waiting for rows another transaction has deleted and not committed.
 Every statement sees what is committed at its start and its own work, as at the
 isolation level READ COMMITTED.

 `batches` is history: the rows each append was asked to write.
 */
module SessionLog {
  import opened Common
  import opened Wire
  import opened AgentLoop
  import opened AgentLaws
  import opened SessionStore

  type TxnId = nat

  /** A stored message with its origin: the `pos`-th message of the append `batch`. */
  datatype Line = Line(idx: nat, row: Row, batch: nat, pos: nat)

  datatype Doing =
    | Nothing
    | Appending(batch: nat, next: nat)
    | Clearing(snapshot: set<nat>)

  /** A transaction's uncommitted work. Deletions are named by the batch of the deleted lines. */
  datatype Txn = Txn(doing: Doing, deleted: set<nat>, added: seq<Line>)

  datatype State = State(log: seq<Line>, lock: Option<TxnId>, txns: map<TxnId, Txn>, batches: seq<seq<Row>>)

  datatype Step =
    | Begin(txn: TxnId)
    | Append(txn: TxnId, rows: seq<Row>)
    | Insert(txn: TxnId)
    | Clear(txn: TxnId)
    | FinishClear(txn: TxnId)
    | Commit(txn: TxnId)
    | Abort(txn: TxnId)

  function Without(log: seq<Line>, gone: set<nat>): seq<Line> {
    if log == [] then []
    else (if log[0].batch in gone then [] else [log[0]]) + Without(log[1..], gone)
  }

  function Visible(s: State, t: TxnId): seq<Line>
    requires t in s.txns
  {
    Without(s.log, s.txns[t].deleted) + s.txns[t].added
  }

  function BatchesIn(log: seq<Line>): set<nat> { set i | 0 <= i < |log| :: log[i].batch }

  function LineIdxs(log: seq<Line>): seq<nat> { seq(|log|, i requires 0 <= i < |log| => log[i].idx) }

  /** No other transaction has deleted, without having committed, a row that `t` wants to delete. */
  predicate Unblocked(s: State, t: TxnId, snapshot: set<nat>) {
    forall u | u in s.txns && u != t :: s.txns[u].deleted * snapshot * BatchesIn(s.log) == {}
  }

  predicate Enabled(s: State, step: Step) {
    var t := step.txn;
    if step.Begin? then t !in s.txns
    else
      && t in s.txns
      && match step
         case Append(_, rows) => s.txns[t].doing.Nothing? && rows != [] && (s.lock == None || s.lock == Some(t))
         case Insert(_) => s.txns[t].doing.Appending? && s.txns[t].doing.batch < |s.batches|
                           && s.txns[t].doing.next < |s.batches[s.txns[t].doing.batch]|
         case Clear(_) => s.txns[t].doing.Nothing?
         case FinishClear(_) => s.txns[t].doing.Clearing? && Unblocked(s, t, s.txns[t].doing.snapshot)
         case Commit(_) => s.txns[t].doing.Nothing?
         case _ => true
  }

  function Unlocked(s: State, t: TxnId): Option<TxnId> { if s.lock == Some(t) then None else s.lock }

  /** The line the next insert of `t` writes. */
  function NextLine(s: State, t: TxnId): Line
    requires Enabled(s, Insert(t))
  {
    var d := s.txns[t].doing;
    Line(NextIdx(LineIdxs(Visible(s, t))), s.batches[d.batch][d.next], d.batch, d.next)
  }

  function Inserted(s: State, t: TxnId): Txn
    requires Enabled(s, Insert(t))
  {
    var txn := s.txns[t];
    var d := txn.doing;
    Txn(if d.next + 1 == |s.batches[d.batch]| then Nothing else Appending(d.batch, d.next + 1), txn.deleted,
        txn.added + [NextLine(s, t)])
  }

  function Apply(s: State, step: Step): State
    requires Enabled(s, step)
  {
    var t := step.txn;
    match step
    case Begin(_) => s.(txns := s.txns[t := Txn(Nothing, {}, [])])
    case Append(_, rows) =>
      s.(lock := Some(t), batches := s.batches + [rows],
         txns := s.txns[t := s.txns[t].(doing := Appending(|s.batches|, 0))])
    case Insert(_) => s.(txns := s.txns[t := Inserted(s, t)])
    case Clear(_) => s.(txns := s.txns[t := s.txns[t].(doing := Clearing(BatchesIn(Visible(s, t))))])
    case FinishClear(_) =>
      var txn := s.txns[t];
      s.(txns := s.txns[t := Txn(Nothing, txn.deleted + txn.doing.snapshot, Without(txn.added, txn.doing.snapshot))])
    case Commit(_) => s.(log := Visible(s, t), lock := Unlocked(s, t), txns := s.txns - {t})
    case Abort(_) => s.(lock := Unlocked(s, t), txns := s.txns - {t})
  }

  const START := State([], None, map[], [])

  /** The state after `steps`, if each was possible. */
  function After(steps: seq<Step>): Option<State> {
    if steps == [] then Some(START)
    else
      match After(steps[..|steps| - 1])
      case None => None
      case Some(s) => if Enabled(s, steps[|steps| - 1]) then Some(Apply(s, steps[|steps| - 1])) else None
  }

  // ----- Whole logs ----------------------------------------------------------------

  /** The line is the message its batch has at that position. */
  predicate Authentic(l: Line, batches: seq<seq<Row>>) {
    l.batch < |batches| && l.pos < |batches[l.batch]| && l.row == batches[l.batch][l.pos]
  }

  predicate EndsBatch(l: Line, batches: seq<seq<Row>>) {
    l.batch < |batches| && l.pos + 1 == |batches[l.batch]|
  }

  /** `b` is the next index, and the next message of the same append or the first of a later one. */
  predicate Follows(a: Line, b: Line, batches: seq<seq<Row>>) {
    && b.idx == a.idx + 1
    && ((b.batch == a.batch && b.pos == a.pos + 1) || (a.batch < b.batch && EndsBatch(a, batches) && b.pos == 0))
  }

  predicate Chain(log: seq<Line>, batches: seq<seq<Row>>) {
    && (forall i | 0 <= i < |log| :: Authentic(log[i], batches))
    && (forall i | 0 <= i < |log| - 1 :: Follows(log[i], log[i + 1], batches))
    && (log != [] ==> log[0].pos == 0)
  }

  /** Consecutive indices, and nothing but whole batches in the order the appends got the lock. */
  predicate Whole(log: seq<Line>, batches: seq<seq<Row>>) {
    Chain(log, batches) && (log != [] ==> EndsBatch(log[|log| - 1], batches))
  }

  predicate DownClosed(log: seq<Line>, gone: set<nat>) {
    forall i, j | 0 <= i < j < |log| && log[j].batch in gone :: log[i].batch in gone
  }

  // ----- The invariant ---------------------------------------------------------------

  /** What a transaction has written so far. */
  predicate Progress(log: seq<Line>, batches: seq<seq<Row>>, txn: Txn) {
    && Chain(txn.added, batches)
    && (!txn.doing.Appending? ==> Whole(txn.added, batches))
    && (txn.doing.Appending? ==>
          var b, n := txn.doing.batch, txn.doing.next;
          && b < |batches| && n < |batches[b]|
          && (n == 0 ==> Whole(txn.added, batches) && (txn.added != [] ==> txn.added[|txn.added| - 1].batch < b))
          && (n > 0 ==> txn.added != [] && txn.added[|txn.added| - 1].batch == b && txn.added[|txn.added| - 1].pos == n - 1)
          && (log != [] ==> log[|log| - 1].batch < b))
  }

  /** The first added line comes right after the last committed one that the transaction sees. */
  predicate Linked(log: seq<Line>, txn: Txn) {
    txn.added != [] && log != [] ==>
      var last := log[|log| - 1];
      && last.batch < txn.added[0].batch
      && (last.batch !in txn.deleted ==> txn.added[0].idx == last.idx + 1)
  }

  predicate Known(gone: set<nat>, n: nat) { forall b | b in gone :: b < n }

  function Doomed(txn: Txn): set<nat> { if txn.doing.Clearing? then txn.doing.snapshot else {} }

  predicate Spares(gone: set<nat>, txn: Txn) {
    && (forall i | 0 <= i < |txn.added| :: txn.added[i].batch !in gone)
    && (txn.doing.Appending? ==> txn.doing.batch !in gone)
  }

  predicate Writes(txn: Txn) { txn.added != [] || txn.doing.Appending? }

  /** The transaction's own deletions leave its own work alone, until a clear of it ends. */
  predicate OwnWork(txn: Txn) {
    && Spares(txn.deleted, txn)
    && (txn.doing.Clearing? ==> forall i | 0 <= i < |txn.added| :: txn.added[i].batch in txn.doing.snapshot)
  }

  predicate TxnInv(log: seq<Line>, lock: Option<TxnId>, batches: seq<seq<Row>>, t: TxnId, txn: Txn) {
    && (Writes(txn) ==> lock == Some(t))
    && Progress(log, batches, txn) && Linked(log, txn)
    && DownClosed(log, txn.deleted) && DownClosed(log, txn.deleted + Doomed(txn))
    && Known(txn.deleted, |batches|) && Known(Doomed(txn), |batches|)
    && OwnWork(txn)
  }

  predicate Holds(s: State, t: TxnId)
    requires t in s.txns
  {
    TxnInv(s.log, s.lock, s.batches, t, s.txns[t])
  }

  /** What one transaction has deleted or will delete is nothing another is writing. */
  predicate Apart(a: Txn, b: Txn) { Spares(a.deleted, b) && Spares(Doomed(a), b) }

  predicate Foreign(s: State, t: TxnId, u: TxnId)
    requires t in s.txns && u in s.txns
  {
    t != u ==> Apart(s.txns[t], s.txns[u])
  }

  predicate Inv(s: State) {
    && Whole(s.log, s.batches)
    && (s.lock.Some? ==> s.lock.value in s.txns)
    && (forall t | t in s.txns :: Holds(s, t))
    && (forall t, u | t in s.txns && u in s.txns :: Foreign(s, t, u))
  }

  // ----- Facts about logs --------------------------------------------------------------

  lemma {:induction false} WithoutNone(log: seq<Line>, gone: set<nat>)
    requires forall i | 0 <= i < |log| :: log[i].batch !in gone
    ensures Without(log, gone) == log
  {
    if log != [] {
      WithoutNone(log[1..], gone);
    }
  }

  lemma {:induction false} WithoutAll(log: seq<Line>, gone: set<nat>)
    requires forall i | 0 <= i < |log| :: log[i].batch in gone
    ensures Without(log, gone) == []
  {
    if log != [] {
      WithoutAll(log[1..], gone);
    }
  }

  /** Deletions keep a suffix. */
  lemma {:induction false} WithoutIsSuffix(log: seq<Line>, gone: set<nat>) returns (k: nat)
    requires DownClosed(log, gone)
    ensures k <= |log| && Without(log, gone) == log[k..]
    ensures forall i | 0 <= i < k :: log[i].batch in gone
    ensures forall i | k <= i < |log| :: log[i].batch !in gone
  {
    if log == [] || log[0].batch !in gone {
      WithoutNone(log, gone);
      k := 0;
    } else {
      var rest := WithoutIsSuffix(log[1..], gone);
      k := rest + 1;
      assert log[1..][rest..] == log[k..];
      forall i | 0 <= i < k
        ensures log[i].batch in gone
      {
        assert i == 0 || log[1..][i - 1] == log[i];
      }
      forall i | k <= i < |log|
        ensures log[i].batch !in gone
      {
        assert log[1..][i - 1] == log[i];
      }
    }
  }

  lemma WithoutIsWhole(log: seq<Line>, gone: set<nat>, batches: seq<seq<Row>>)
    requires Whole(log, batches) && DownClosed(log, gone)
    ensures Whole(Without(log, gone), batches)
    ensures var rest := Without(log, gone);
      rest != [] ==> log != [] && rest[|rest| - 1] == log[|log| - 1] && log[|log| - 1].batch !in gone
    ensures log != [] && log[|log| - 1].batch !in gone ==> Without(log, gone) != []
  {
    var k := WithoutIsSuffix(log, gone);
    if 0 < k < |log| {
      assert Follows(log[k - 1], log[k], batches);
    }
    var rest := log[k..];
    forall i | 0 <= i < |rest| - 1
      ensures Follows(rest[i], rest[i + 1], batches)
    {
      assert Follows(log[k + i], log[k + i + 1], batches);
    }
  }

  lemma Join(a: seq<Line>, b: seq<Line>, batches: seq<seq<Row>>)
    requires Whole(a, batches) && Chain(b, batches)
    requires a != [] && b != [] ==> a[|a| - 1].idx + 1 == b[0].idx && a[|a| - 1].batch < b[0].batch
    ensures Chain(a + b, batches)
    ensures Whole(b, batches) ==> Whole(a + b, batches)
  {
    var c := a + b;
    forall i | 0 <= i < |c| - 1
      ensures Follows(c[i], c[i + 1], batches)
    {
      if i + 1 < |a| {
        assert Follows(a[i], a[i + 1], batches);
      } else if i >= |a| {
        assert Follows(b[i - |a|], b[i - |a| + 1], batches);
      }
    }
  }

  lemma {:induction false} BatchesRise(log: seq<Line>, batches: seq<seq<Row>>, i: nat, j: nat)
    requires Chain(log, batches) && i <= j < |log|
    ensures log[i].batch <= log[j].batch
    decreases j - i
  {
    if i < j {
      assert Follows(log[i], log[i + 1], batches);
      BatchesRise(log, batches, i + 1, j);
    }
  }

  lemma ChainGrows(log: seq<Line>, batches: seq<seq<Row>>, rows: seq<Row>)
    requires Chain(log, batches)
    ensures Chain(log, batches + [rows])
    ensures Whole(log, batches) ==> Whole(log, batches + [rows])
  {
    forall i | 0 <= i < |log| - 1
      ensures Follows(log[i], log[i + 1], batches + [rows])
    {
      assert Follows(log[i], log[i + 1], batches);
    }
  }

  /** What a transaction sees has consecutive indices. */
  lemma VisibleIsChain(s: State, t: TxnId)
    requires Whole(s.log, s.batches) && t in s.txns && Holds(s, t)
    ensures Chain(Visible(s, t), s.batches)
    ensures !s.txns[t].doing.Appending? ==> Whole(Visible(s, t), s.batches)
    ensures NextIdx(LineIdxs(Visible(s, t)))
         == if Visible(s, t) == [] then 0 else Visible(s, t)[|Visible(s, t)| - 1].idx + 1
  {
    var txn := s.txns[t];
    WithoutIsWhole(s.log, txn.deleted, s.batches);
    Join(Without(s.log, txn.deleted), txn.added, s.batches);
    ChainIsConsecutive(Visible(s, t), s.batches);
  }

  lemma ChainIsConsecutive(log: seq<Line>, batches: seq<seq<Row>>)
    requires Chain(log, batches)
    ensures Consecutive(LineIdxs(log))
    ensures NextIdx(LineIdxs(log)) == if log == [] then 0 else log[|log| - 1].idx + 1
  {
    forall i | 0 <= i < |LineIdxs(log)| - 1
      ensures LineIdxs(log)[i + 1] == LineIdxs(log)[i] + 1
    {
      assert Follows(log[i], log[i + 1], batches);
    }
    NextAfterConsecutive(LineIdxs(log));
  }

  // ----- Every step keeps the invariant -----------------------------------------------------

  lemma LockFreed(log: seq<Line>, lock: Option<TxnId>, lock': Option<TxnId>, batches: seq<seq<Row>>, t: TxnId, u: TxnId,
                  txn: Txn)
    requires TxnInv(log, lock, batches, u, txn) && t != u
    requires lock' == lock || (lock == Some(t) && lock' == None)
    ensures TxnInv(log, lock', batches, u, txn)
  {
  }

  /** A step that writes neither the log nor the history of batches keeps what holds of the others. */
  lemma OthersKept(s: State, s': State, t: TxnId)
    requires Inv(s) && s'.log == s.log && s'.batches == s.batches
    requires s'.lock == s.lock || (s.lock == Some(t) && s'.lock == None)
    requires forall u | u in s'.txns && u != t :: u in s.txns && s'.txns[u] == s.txns[u]
    ensures forall u | u in s'.txns && u != t :: Holds(s', u)
  {
    forall u | u in s'.txns && u != t
      ensures Holds(s', u)
    {
      assert Holds(s, u);
      LockFreed(s.log, s.lock, s'.lock, s.batches, t, u, s.txns[u]);
    }
  }

  /** The next line continues what `t` sees. */
  lemma NextLineContinues(s: State, t: TxnId)
    requires Whole(s.log, s.batches) && Enabled(s, Insert(t)) && Holds(s, t)
    ensures var txn, line := s.txns[t], NextLine(s, t);
      && (txn.added != [] ==> line.idx == txn.added[|txn.added| - 1].idx + 1)
      && (txn.added == [] && s.log != [] && s.log[|s.log| - 1].batch !in txn.deleted ==>
            line.idx == s.log[|s.log| - 1].idx + 1)
  {
    var txn := s.txns[t];
    VisibleIsChain(s, t);
    WithoutIsWhole(s.log, txn.deleted, s.batches);
    var seen := Visible(s, t);
    assert txn.added != [] ==> seen[|seen| - 1] == txn.added[|txn.added| - 1];
    assert txn.added == [] ==> seen == Without(s.log, txn.deleted);
  }

  lemma ChainExtends(added: seq<Line>, line: Line, batches: seq<seq<Row>>)
    requires Chain(added, batches) && Authentic(line, batches)
    requires if added == [] then line.pos == 0 else Follows(added[|added| - 1], line, batches)
    ensures Chain(added + [line], batches)
  {
    var longer := added + [line];
    forall i | 0 <= i < |longer| - 1
      ensures Follows(longer[i], longer[i + 1], batches)
    {
      assert i + 1 == |added| || Follows(added[i], added[i + 1], batches);
    }
  }

  lemma InsertedProgress(s: State, t: TxnId)
    requires Whole(s.log, s.batches) && Enabled(s, Insert(t)) && Holds(s, t)
    ensures Progress(s.log, s.batches, Inserted(s, t)) && Linked(s.log, Inserted(s, t))
  {
    var txn, line := s.txns[t], NextLine(s, t);
    NextLineContinues(s, t);
    ChainExtends(txn.added, line, s.batches);
  }

  lemma InsertedSpared(s: State, t: TxnId, gone: set<nat>)
    requires Enabled(s, Insert(t)) && Spares(gone, s.txns[t])
    ensures Spares(gone, Inserted(s, t))
  {
  }

  lemma InsertKept(s: State, t: TxnId)
    requires Inv(s) && Enabled(s, Insert(t))
    ensures Inv(Apply(s, Insert(t)))
  {
    var s' := Apply(s, Insert(t));
    assert Holds(s, t);
    InsertedProgress(s, t);
    InsertedSpared(s, t, s.txns[t].deleted);
    assert Doomed(Inserted(s, t)) == Doomed(s.txns[t]);
    OthersKept(s, s', t);
    forall u, v | u in s'.txns && v in s'.txns
      ensures Foreign(s', u, v)
    {
      assert Foreign(s, u, v);
      if v == t != u {
        InsertedSpared(s, t, s.txns[u].deleted);
        InsertedSpared(s, t, Doomed(s.txns[u]));
      }
    }
  }

  lemma ProgressGrows(log: seq<Line>, batches: seq<seq<Row>>, rows: seq<Row>, txn: Txn)
    requires Progress(log, batches, txn)
    ensures Progress(log, batches + [rows], txn)
  {
    ChainGrows(txn.added, batches, rows);
  }

  /** A new append of `t`: its batch comes after every committed and every written line. */
  lemma AppendBegun(log: seq<Line>, batches: seq<seq<Row>>, rows: seq<Row>, txn: Txn)
    requires Whole(log, batches) && Progress(log, batches, txn) && txn.doing.Nothing? && rows != []
    ensures Progress(log, batches + [rows], txn.(doing := Appending(|batches|, 0)))
  {
    ChainGrows(txn.added, batches, rows);
  }

  lemma AppendKept(s: State, t: TxnId, rows: seq<Row>)
    requires Inv(s) && Enabled(s, Append(t, rows))
    ensures Inv(Apply(s, Append(t, rows)))
  {
    var s' := Apply(s, Append(t, rows));
    ChainGrows(s.log, s.batches, rows);
    forall u | u in s'.txns
      ensures Holds(s', u)
    {
      assert Holds(s, u);
      if u == t {
        AppendBegun(s.log, s.batches, rows, s.txns[t]);
        assert Doomed(s'.txns[t]) == Doomed(s.txns[t]);
      } else {
        ProgressGrows(s.log, s.batches, rows, s.txns[u]);
      }
    }
    forall u, v | u in s'.txns && v in s'.txns
      ensures Foreign(s', u, v)
    {
      assert Foreign(s, u, v) && Holds(s, u);
    }
  }

  lemma InBatches(log: seq<Line>, b: nat) returns (i: nat)
    requires b in BatchesIn(log)
    ensures i < |log| && log[i].batch == b
  {
    i :| 0 <= i < |log| && log[i].batch == b;
  }

  /** The batches of what is left and what is added. */
  lemma BatchesSeen(log: seq<Line>, gone: set<nat>, added: seq<Line>)
    requires DownClosed(log, gone)
    ensures BatchesIn(log) <= gone + BatchesIn(Without(log, gone) + added)
    ensures BatchesIn(added) <= BatchesIn(Without(log, gone) + added)
    ensures BatchesIn(Without(log, gone) + added) <= BatchesIn(log) + BatchesIn(added)
  {
    var k := WithoutIsSuffix(log, gone);
    var seen := log[k..] + added;
    forall b | b in BatchesIn(log)
      ensures b in gone + BatchesIn(seen)
    {
      var i := InBatches(log, b);
      assert i < k || seen[i - k] == log[i];
    }
    forall b | b in BatchesIn(added)
      ensures b in BatchesIn(seen)
    {
      var i := InBatches(added, b);
      assert seen[|log| - k + i] == added[i];
    }
    forall b | b in BatchesIn(seen)
      ensures b in BatchesIn(log) + BatchesIn(added)
    {
      var i := InBatches(seen, b);
      if i < |log| - k {
        assert log[k + i].batch == b;
      } else {
        assert added[i - (|log| - k)].batch == b;
      }
    }
  }

  lemma BatchesKnown(log: seq<Line>, batches: seq<seq<Row>>)
    requires Chain(log, batches)
    ensures Known(BatchesIn(log), |batches|)
  {
    forall b | b in BatchesIn(log)
      ensures b < |batches|
    {
      var i := InBatches(log, b);
      assert Authentic(log[i], batches);
    }
  }

  /** What a transaction is writing is in no committed line. */
  lemma WritingIsNew(log: seq<Line>, batches: seq<seq<Row>>, txn: Txn)
    requires Whole(log, batches) && Progress(log, batches, txn) && Linked(log, txn)
    ensures Spares(BatchesIn(log), txn)
  {
    forall b | b in BatchesIn(log)
      ensures log != [] && b <= log[|log| - 1].batch
    {
      var j := InBatches(log, b);
      BatchesRise(log, batches, j, |log| - 1);
    }
    forall i | 0 <= i < |txn.added|
      ensures txn.added[i].batch !in BatchesIn(log)
    {
      BatchesRise(txn.added, batches, 0, i);
    }
  }

  lemma SnapshotCovers(log: seq<Line>, lock: Option<TxnId>, batches: seq<seq<Row>>, t: TxnId, txn: Txn, snapshot: set<nat>)
    requires TxnInv(log, lock, batches, t, txn) && txn.doing.Nothing?
    requires BatchesIn(log) <= txn.deleted + snapshot && BatchesIn(txn.added) <= snapshot && Known(snapshot, |batches|)
    ensures TxnInv(log, lock, batches, t, txn.(doing := Clearing(snapshot)))
  {
    assert forall i | 0 <= i < |log| :: log[i].batch in BatchesIn(log);
    assert forall i | 0 <= i < |txn.added| :: txn.added[i].batch in BatchesIn(txn.added);
  }

  /** Beginning a clear: the snapshot and what was deleted before cover the whole log. */
  lemma ClearBegun(s: State, t: TxnId)
    requires Whole(s.log, s.batches) && Enabled(s, Clear(t)) && Holds(s, t)
    ensures TxnInv(s.log, s.lock, s.batches, t, s.txns[t].(doing := Clearing(BatchesIn(Visible(s, t)))))
    ensures BatchesIn(Visible(s, t)) <= BatchesIn(s.log) + BatchesIn(s.txns[t].added)
  {
    var txn := s.txns[t];
    BatchesSeen(s.log, txn.deleted, txn.added);
    BatchesKnown(s.log, s.batches);
    BatchesKnown(txn.added, s.batches);
    SnapshotCovers(s.log, s.lock, s.batches, t, txn, BatchesIn(Visible(s, t)));
  }

  lemma ClearKept(s: State, t: TxnId)
    requires Inv(s) && Enabled(s, Clear(t))
    ensures Inv(Apply(s, Clear(t)))
  {
    var s' := Apply(s, Clear(t));
    assert Holds(s, t);
    ClearBegun(s, t);
    OthersKept(s, s', t);
    forall u, v | u in s'.txns && v in s'.txns
      ensures Foreign(s', u, v)
    {
      assert Foreign(s, u, v) && Holds(s, v);
      if u == t != v {
        WritingIsNew(s.log, s.batches, s.txns[v]);
        assert Writes(s.txns[v]) ==> s.txns[t].added == [];
        SparesMore(BatchesIn(s.log), BatchesIn(s.txns[t].added), Doomed(s'.txns[t]), s.txns[v]);
      }
    }
  }

  lemma SparesMore(seen: set<nat>, own: set<nat>, gone: set<nat>, txn: Txn)
    requires Spares(seen, txn) && gone <= seen + own && (Writes(txn) ==> own == {})
    ensures Spares(gone, txn)
  {
  }

  lemma ClearEnded(log: seq<Line>, lock: Option<TxnId>, batches: seq<seq<Row>>, t: TxnId, txn: Txn)
    requires TxnInv(log, lock, batches, t, txn) && txn.doing.Clearing?
    ensures Without(txn.added, txn.doing.snapshot) == []
    ensures TxnInv(log, lock, batches, t, Txn(Nothing, txn.deleted + txn.doing.snapshot, []))
  {
    WithoutAll(txn.added, txn.doing.snapshot);
    var ended := Txn(Nothing, txn.deleted + txn.doing.snapshot, []);
    assert ended.deleted + Doomed(ended) == ended.deleted;
  }

  lemma FinishClearKept(s: State, t: TxnId)
    requires Inv(s) && Enabled(s, FinishClear(t))
    ensures Inv(Apply(s, FinishClear(t)))
  {
    var s' := Apply(s, FinishClear(t));
    assert Holds(s, t);
    ClearEnded(s.log, s.lock, s.batches, t, s.txns[t]);
    OthersKept(s, s', t);
    forall u, v | u in s'.txns && v in s'.txns
      ensures Foreign(s', u, v)
    {
      assert Foreign(s, u, v);
    }
  }

  lemma CommitDownClosed(log: seq<Line>, gone: set<nat>, added: seq<Line>, other: set<nat>)
    requires DownClosed(log, gone) && DownClosed(log, other)
    requires forall i | 0 <= i < |added| :: added[i].batch !in other
    ensures DownClosed(Without(log, gone) + added, other)
  {
    var k := WithoutIsSuffix(log, gone);
    var log' := log[k..] + added;
    forall i, j | 0 <= i < j < |log'| && log'[j].batch in other
      ensures log'[i].batch in other
    {
      assert j < |log| - k;
      assert log'[j] == log[k + j] && log'[i] == log[k + i];
    }
  }

  /** For a writing transaction another's commit only drops lines from the front of the log. */
  lemma CommitBehind(log: seq<Line>, gone: set<nat>, batches: seq<seq<Row>>, txn: Txn)
    requires Whole(log, batches) && DownClosed(log, gone)
    requires Progress(log, batches, txn) && Linked(log, txn)
    ensures Progress(Without(log, gone), batches, txn) && Linked(Without(log, gone), txn)
  {
    WithoutIsWhole(log, gone, batches);
  }

  lemma IdleAnywhere(log: seq<Line>, log': seq<Line>, batches: seq<seq<Row>>, txn: Txn)
    requires Progress(log, batches, txn) && !Writes(txn)
    ensures Progress(log', batches, txn) && Linked(log', txn)
  {
  }

  lemma CommitSpares(s: State, t: TxnId, u: TxnId)
    requires Inv(s) && Enabled(s, Commit(t)) && u in s.txns && u != t
    ensures TxnInv(Visible(s, t), Unlocked(s, t), s.batches, u, s.txns[u])
  {
    var mine, txn := s.txns[t], s.txns[u];
    assert Holds(s, t) && Holds(s, u) && Foreign(s, u, t);
    CommitDownClosed(s.log, mine.deleted, mine.added, txn.deleted);
    CommitDownClosed(s.log, mine.deleted, mine.added, txn.deleted + Doomed(txn));
    if Writes(txn) {
      assert mine.added == [];
      assert Visible(s, t) == Without(s.log, mine.deleted);
      CommitBehind(s.log, mine.deleted, s.batches, txn);
    } else {
      IdleAnywhere(s.log, Visible(s, t), s.batches, txn);
    }
  }

  lemma CommitKept(s: State, t: TxnId)
    requires Inv(s) && Enabled(s, Commit(t))
    ensures Inv(Apply(s, Commit(t)))
  {
    var s' := Apply(s, Commit(t));
    assert Holds(s, t);
    VisibleIsChain(s, t);
    forall u | u in s'.txns
      ensures Holds(s', u)
    {
      CommitSpares(s, t, u);
    }
    forall u, v | u in s'.txns && v in s'.txns
      ensures Foreign(s', u, v)
    {
      assert Foreign(s, u, v);
    }
  }

  lemma EndsKept(s: State, step: Step)
    requires Inv(s) && Enabled(s, step) && (step.Begin? || step.Abort?)
    ensures Inv(Apply(s, step))
  {
    var s' := Apply(s, step);
    OthersKept(s, s', step.txn);
    assert Doomed(Txn(Nothing, {}, [])) == {};
    forall u, v | u in s'.txns && v in s'.txns
      ensures Foreign(s', u, v)
    {
      assert u in s.txns && v in s.txns ==> Foreign(s, u, v);
    }
  }

  lemma InvKept(s: State, step: Step)
    requires Inv(s) && Enabled(s, step)
    ensures Inv(Apply(s, step))
  {
    match step
    case Append(t, rows) => AppendKept(s, t, rows);
    case Insert(t) => InsertKept(s, t);
    case Clear(t) => ClearKept(s, t);
    case FinishClear(t) => FinishClearKept(s, t);
    case Commit(t) => CommitKept(s, t);
    case _ => EndsKept(s, step);
  }

  lemma {:induction false} InvAlways(steps: seq<Step>)
    requires After(steps).Some?
    ensures Inv(After(steps).value)
  {
    if steps != [] {
      InvAlways(steps[..|steps| - 1]);
      InvKept(After(steps[..|steps| - 1]).value, steps[|steps| - 1]);
    }
  }

  // ----- What the log consists of --------------------------------------------------------------

  function LogRows(log: seq<Line>): seq<Row> { seq(|log|, i requires 0 <= i < |log| => log[i].row) }

  /** The rows asked for by the appends `ids`, one append after the other. */
  function Written(ids: seq<nat>, batches: seq<seq<Row>>): seq<Row>
    requires forall i | 0 <= i < |ids| :: ids[i] < |batches|
  {
    if ids == [] then [] else Written(ids[..|ids| - 1], batches) + batches[ids[|ids| - 1]]
  }

  /** Going back from a line leads through its append to the append's first message. */
  lemma {:induction false} BackToStart(log: seq<Line>, batches: seq<seq<Row>>, j: nat, d: nat)
    requires Chain(log, batches) && j < |log| && d <= log[j].pos
    ensures d <= j && log[j - d].batch == log[j].batch && log[j - d].pos == log[j].pos - d
    decreases d
  {
    if d > 0 {
      BackToStart(log, batches, j, d - 1);
      assert j - (d - 1) > 0;
      assert Follows(log[j - d], log[j - d + 1], batches);
    }
  }

  lemma LastBatch(log: seq<Line>, batches: seq<seq<Row>>)
    requires Whole(log, batches) && log != []
    ensures var b := log[|log| - 1].batch;
      && b < |batches| && 0 < |batches[b]| <= |log|
      && var m := |log| - |batches[b]|;
         && Whole(log[..m], batches)
         && LogRows(log) == LogRows(log[..m]) + batches[b]
         && (m > 0 ==> log[m - 1].batch < b)
  {
    var n := |log|;
    var b := log[n - 1].batch;
    var size := |batches[b]|;
    BackToStart(log, batches, n - 1, size - 1);
    var m := n - size;
    forall i | 0 <= i < size
      ensures log[m + i].row == batches[b][i]
    {
      BackToStart(log, batches, n - 1, size - 1 - i);
      assert Authentic(log[m + i], batches);
    }
    assert LogRows(log) == LogRows(log[..m]) + batches[b];
    if m > 0 {
      assert Follows(log[m - 1], log[m], batches);
    }
    forall i | 0 <= i < m - 1
      ensures Follows(log[..m][i], log[..m][i + 1], batches)
    {
      assert Follows(log[i], log[i + 1], batches);
    }
  }

  predicate Rising(ids: seq<nat>) { forall i, j | 0 <= i < j < |ids| :: ids[i] < ids[j] }

  /** A whole log is the concatenation of appends, in the order they got the lock. */
  lemma {:induction false} LogIsBatches(log: seq<Line>, batches: seq<seq<Row>>) returns (ids: seq<nat>)
    requires Whole(log, batches)
    ensures forall i | 0 <= i < |ids| :: ids[i] < |batches|
    ensures Rising(ids) && LogRows(log) == Written(ids, batches)
    ensures if log == [] then ids == [] else ids != [] && ids[|ids| - 1] == log[|log| - 1].batch
    decreases |log|
  {
    if log == [] {
      ids := [];
    } else {
      LastBatch(log, batches);
      var b := log[|log| - 1].batch;
      var m := |log| - |batches[b]|;
      var before := LogIsBatches(log[..m], batches);
      ids := before + [b];
      assert ids[..|ids| - 1] == before;
    }
  }

  /**
   In every reachable state the committed messages have consecutive indices and are
   a concatenation of whole appends, in the order in which these got the lock; and
   reading them in index order gives just that order.
   */
  lemma CommittedIsWhole(steps: seq<Step>) returns (ids: seq<nat>)
    requires After(steps).Some?
    ensures var s := After(steps).value;
      && Consecutive(LineIdxs(s.log))
      && (forall i | 0 <= i < |ids| :: ids[i] < |s.batches|)
      && Rising(ids) && LogRows(s.log) == Written(ids, s.batches)
  {
    var s := After(steps).value;
    InvAlways(steps);
    ChainIsConsecutive(s.log, s.batches);
    ids := LogIsBatches(s.log, s.batches);
  }

  /** The inserted index is above every index the inserter sees, and nobody else has an uncommitted line. */
  lemma InsertsNeverCollide(steps: seq<Step>, t: TxnId)
    requires After(steps).Some? && Enabled(After(steps).value, Insert(t))
    ensures var s := After(steps).value;
      && (forall i | 0 <= i < |Visible(s, t)| :: Visible(s, t)[i].idx < NextLine(s, t).idx)
      && (forall u | u in s.txns && u != t :: s.txns[u].added == [])
  {
    var s := After(steps).value;
    InvAlways(steps);
    assert Holds(s, t);
    forall i | 0 <= i < |Visible(s, t)|
      ensures Visible(s, t)[i].idx < NextLine(s, t).idx
    {
      assert LineIdxs(Visible(s, t))[i] == Visible(s, t)[i].idx;
    }
    forall u | u in s.txns && u != t
      ensures s.txns[u].added == []
    {
      assert Holds(s, u);
    }
  }

  /** Deleting drops a prefix that ends where an append ends. */
  lemma DropsWholeAppends(log: seq<Line>, gone: set<nat>, batches: seq<seq<Row>>, added: seq<Line>) returns (k: nat)
    requires Whole(log, batches) && DownClosed(log, gone)
    ensures k <= |log|
    ensures forall i | 0 <= i < k :: log[i].batch in gone
    ensures gone == {} ==> k == 0
    ensures 0 < k < |log| ==> EndsBatch(log[k - 1], batches)
    ensures LogRows(Without(log, gone) + added) == LogRows(log[k..]) + LogRows(added)
  {
    k := WithoutIsSuffix(log, gone);
    if 0 < k < |log| {
      assert Follows(log[k - 1], log[k], batches);
    }
    assert k > 0 ==> log[0].batch in gone;
  }

  /**
   A commit in a reachable state drops a prefix of the log, made of whole appends
   the transaction saw when it cleared, and adds the transaction's own appends.
   */
  lemma CommitIsWholeAppends(s: State, t: TxnId) returns (k: nat, ids: seq<nat>)
    requires Inv(s) && Enabled(s, Commit(t))
    ensures
      && k <= |s.log|
      && (forall i | 0 <= i < k :: s.log[i].batch in s.txns[t].deleted)
      && (s.txns[t].deleted == {} ==> k == 0)
      && (0 < k < |s.log| ==> EndsBatch(s.log[k - 1], s.batches))
      && (forall i | 0 <= i < |ids| :: ids[i] < |s.batches|)
      && Rising(ids) && LogRows(s.txns[t].added) == Written(ids, s.batches)
      && LogRows(Apply(s, Commit(t)).log) == LogRows(s.log[k..]) + Written(ids, s.batches)
  {
    assert Holds(s, t);
    k := DropsWholeAppends(s.log, s.txns[t].deleted, s.batches, s.txns[t].added);
    ids := LogIsBatches(s.txns[t].added, s.batches);
  }

  /** Loading after a transaction that only appended: the history before its commit, then the new messages. */
  lemma LoadAfterCommit(jsonb: Jsonb, s: State, t: TxnId, messages: seq<Message>)
    requires Enabled(s, Commit(t)) && s.txns[t].deleted == {}
    requires LogRows(s.txns[t].added) == StoredRows(jsonb, messages)
    ensures History(LogRows(Apply(s, Commit(t)).log)) == History(LogRows(s.log)) + Normals(jsonb, messages)
  {
    WithoutNone(s.log, {});
    assert LogRows(s.log + s.txns[t].added) == LogRows(s.log) + LogRows(s.txns[t].added);
    LoadAfterAppend(jsonb, LogRows(s.log), messages);
  }

  // ----- Conversations ---------------------------------------------------------------------------

  /** The rows are the stored form of messages in which every call is answered, and which begin outside a turn. */
  ghost predicate WellFormedBatch(jsonb: Jsonb, rows: seq<Row>) {
    exists h :: rows == StoredRows(jsonb, h) && EveryCallReplied(h) && StartsOutsideATurn(h)
  }

  /** What a run of the agent adds is such a batch. */
  lemma RunsAddWellFormedBatches(jsonb: Jsonb, w: World, prior: seq<Message>, question: string, max: nat)
    requires RunResult(w, prior, question, max).Ok?
    ensures WellFormedBatch(jsonb, StoredRows(jsonb, RunResult(w, prior, question, max).value.newTurns))
  {
    HistoryIsWellFormed(w, prior, question, max);
  }

  lemma {:induction false} WrittenIsReplied(jsonb: Jsonb, ids: seq<nat>, batches: seq<seq<Row>>)
    requires forall i | 0 <= i < |ids| :: ids[i] < |batches|
    requires forall b | 0 <= b < |batches| :: WellFormedBatch(jsonb, batches[b])
    ensures EveryCallReplied(History(Written(ids, batches)))
  {
    if ids != [] {
      var init, last := ids[..|ids| - 1], batches[ids[|ids| - 1]];
      WrittenIsReplied(jsonb, init, batches);
      assert WellFormedBatch(jsonb, last);
      var h :| last == StoredRows(jsonb, h) && EveryCallReplied(h) && StartsOutsideATurn(h);
      LoadAfterAppend(jsonb, Written(init, batches), h);
      RepliesSurviveReload(jsonb, h);
      RepliedJoin(History(Written(init, batches)), Normals(jsonb, h));
    }
  }

  /**
   Whatever appends, clears, commits and aborts have happened: if every append was
   of messages in which each call is answered, such as what a run adds, then in
   the loaded history each call is answered.
   */
  lemma ConversationsStayWhole(jsonb: Jsonb, steps: seq<Step>)
    requires After(steps).Some?
    requires forall b | 0 <= b < |After(steps).value.batches| :: WellFormedBatch(jsonb, After(steps).value.batches[b])
    ensures EveryCallReplied(History(LogRows(After(steps).value.log)))
  {
    var ids := CommittedIsWhole(steps);
    WrittenIsReplied(jsonb, ids, After(steps).value.batches);
  }

  // ----- Runs without a clear ---------------------------------------------------------------------

  predicate NoClear(steps: seq<Step>) { forall i | 0 <= i < |steps| :: !steps[i].Clear? }

  predicate NothingDeleted(s: State) {
    forall t | t in s.txns :: s.txns[t].deleted == {} && !s.txns[t].doing.Clearing?
  }

  lemma {:induction false} WithoutClear(steps: seq<Step>)
    ensures After(steps).Some? && NoClear(steps) ==> NothingDeleted(After(steps).value)
  {
    if steps != [] && After(steps).Some? && NoClear(steps) {
      WithoutClear(steps[..|steps| - 1]);
    }
  }

  /** With no clear, what is committed stays, and stays where it is. */
  lemma {:induction false} CommittedStays(steps: seq<Step>, n: nat)
    requires n <= |steps|
    ensures After(steps).Some? && NoClear(steps) ==>
      After(steps[..n]).Some? && After(steps[..n]).value.log <= After(steps).value.log
    decreases |steps|
  {
    if n == |steps| {
      assert steps[..n] == steps;
    } else if After(steps).Some? && NoClear(steps) {
      var init, last := steps[..|steps| - 1], steps[|steps| - 1];
      assert init[..n] == steps[..n];
      CommittedStays(init, n);
      WithoutClear(init);
      if last.Commit? {
        WithoutNone(After(init).value.log, {});
      }
    }
  }
}
