/** Persisted conversations: how a message becomes a table row, and how the table gives a history back. */
module SessionStore {
  import opened Common
  import opened Wire
  import opened AgentLoop
  import opened AgentLaws

  /** A row of `_messages`, without its key. */
  datatype Row = Row(
    role: string, content: string, toolCalls: Option<seq<ToolCall>>, callId: Option<string>, isError: Option<bool>)

  datatype Entry = Entry(idx: nat, row: Row)

  datatype SessionError = NotFound

  /** What the jsonb column does to the JSON text of a call's arguments. */
  type Jsonb = string -> string

  // ----- One message ------------------------------------------------------------

  function OrEmpty(text: Option<string>): string { if text.Some? then text.value else "" }

  function Encode(m: Message): Row {
    match (m.role, m.content)
    case (User, Text(t)) => Row("user", t, None, None, None)
    case (Assistant, Text(t)) => Row("assistant", t, None, None, None)
    case (Assistant, WithTools(said, calls)) => Row("assistant", OrEmpty(said), Some(calls), None, None)
    case (Tool, ToolResult(id, output, isError)) => Row("tool", output, None, Some(id), Some(isError))
    case (System, Text(t)) => Row("assistant", t, None, None, None)
    case _ => Row("assistant", "", None, None, None)
  }

  /** Which columns hold what: the role is that of the content, the system's words are stored as the assistant's. */
  lemma EncodedColumns(m: Message)
    ensures var row := Encode(m);
      && (row.role == "user" <==> m.role == User && m.content.Text?)
      && (row.role == "tool" <==> m.role == Tool && m.content.ToolResult?)
      && (row.role == "user" || row.role == "tool" || row.role == "assistant")
      && (m.content.Text? && m.role != Tool ==> row.content == m.content.text)
      && (m.content.ToolResult? && m.role == Tool ==>
            row.content == m.content.output && row.callId == Some(m.content.callId) && row.isError == Some(m.content.isError))
      && (row.toolCalls.Some? <==> m.role == Assistant && m.content.WithTools?)
      && (row.toolCalls.Some? ==> row.toolCalls.value == m.content.calls)
  {
    assert "user"[0] != "tool"[0] && "user"[0] != "assistant"[0] && "tool"[0] != "assistant"[0];
  }

  function NormalCall(jsonb: Jsonb, c: ToolCall): ToolCall { c.(arguments := jsonb(c.arguments)) }

  function NormalCalls(jsonb: Jsonb, calls: seq<ToolCall>): seq<ToolCall> {
    seq(|calls|, i requires 0 <= i < |calls| => NormalCall(jsonb, calls[i]))
  }

  /** The row as the table keeps it. */
  function Kept(jsonb: Jsonb, r: Row): Row {
    if r.toolCalls.Some? then r.(toolCalls := Some(NormalCalls(jsonb, r.toolCalls.value))) else r
  }

  function Decode(r: Row): Option<Message> {
    if r.role == "user" then Some(Message(User, Text(r.content)))
    else if r.role == "assistant" then
      if r.toolCalls.Some? then
        Some(Message(Assistant, WithTools(if r.content == "" then None else Some(r.content), r.toolCalls.value)))
      else Some(Message(Assistant, Text(r.content)))
    else if r.role == "tool" then
      Some(Message(Tool, ToolResult(OrEmpty(r.callId), r.content, r.isError == Some(true))))
    else None
  }

  /** Does this role go with this content? */
  predicate WellRoled(m: Message) {
    match m.content
    case Text(_) => m.role != Tool
    case WithTools(_, _) => m.role == Assistant
    case ToolResult(_, _, _) => m.role == Tool
  }

  /** The message a reload gives for `m`. */
  function Normal(jsonb: Jsonb, m: Message): Message {
    if !WellRoled(m) then Says(Assistant, "")
    else
      match m.content
      case Text(t) => Says(if m.role == System then Assistant else m.role, t)
      case WithTools(said, calls) =>
        Message(Assistant, WithTools(if Spoken(said) then said else None, NormalCalls(jsonb, calls)))
      case ToolResult(_, _, _) => m
  }

  function Normals(jsonb: Jsonb, ms: seq<Message>): seq<Message> {
    seq(|ms|, i requires 0 <= i < |ms| => Normal(jsonb, ms[i]))
  }

  lemma DecodeOfEncode(jsonb: Jsonb, m: Message)
    ensures Decode(Kept(jsonb, Encode(m))) == Some(Normal(jsonb, m))
  {
  }

  /** A message survives a save and a reload unchanged exactly when it is in this form. */
  predicate Storable(jsonb: Jsonb, m: Message) {
    && WellRoled(m) && m.role != System
    && (m.content.WithTools? ==>
          && m.content.said != Some("")
          && forall i | 0 <= i < |m.content.calls| :: jsonb(m.content.calls[i].arguments) == m.content.calls[i].arguments)
  }

  lemma SurvivesIffStorable(jsonb: Jsonb, m: Message)
    ensures Decode(Kept(jsonb, Encode(m))) == Some(m) <==> Storable(jsonb, m)
  {
    if m.content.WithTools? {
      var calls := m.content.calls;
      var normal := NormalCalls(jsonb, calls);
      if Decode(Kept(jsonb, Encode(m))) == Some(m) {
        assert normal == calls;
        forall i | 0 <= i < |calls|
          ensures jsonb(calls[i].arguments) == calls[i].arguments
        {
          assert normal[i] == calls[i];
        }
      }
      if Storable(jsonb, m) {
        assert normal == calls;
      }
    }
  }

  /** A second save and reload changes nothing more. */
  lemma NormalIsStable(jsonb: Jsonb, m: Message)
    requires forall a :: jsonb(jsonb(a)) == jsonb(a)
    ensures Storable(jsonb, Normal(jsonb, m))
    ensures Normal(jsonb, Normal(jsonb, m)) == Normal(jsonb, m)
  {
    SurvivesIffStorable(jsonb, Normal(jsonb, m));
    DecodeOfEncode(jsonb, Normal(jsonb, m));
  }

  // ----- A whole history ------------------------------------------------------------

  function RowsOf(entries: seq<Entry>): seq<Row> { seq(|entries|, i requires 0 <= i < |entries| => entries[i].row) }

  function StoredRows(jsonb: Jsonb, ms: seq<Message>): seq<Row> {
    seq(|ms|, i requires 0 <= i < |ms| => Kept(jsonb, Encode(ms[i])))
  }

  /** The messages of a row: none for a role nobody writes. */
  function Shown(r: Row): seq<Message> { if Decode(r).Some? then [Decode(r).value] else [] }

  function History(rows: seq<Row>): seq<Message> { FlatMap(Shown, rows) }

  lemma {:induction false} HistoryOfStored(jsonb: Jsonb, ms: seq<Message>)
    ensures History(StoredRows(jsonb, ms)) == Normals(jsonb, ms)
  {
    if ms != [] {
      DecodeOfEncode(jsonb, ms[0]);
      assert StoredRows(jsonb, ms)[1..] == StoredRows(jsonb, ms[1..]);
      HistoryOfStored(jsonb, ms[1..]);
    }
  }

  /** What is loaded after an append: the history before it, then the new messages in normal form. */
  lemma LoadAfterAppend(jsonb: Jsonb, rows: seq<Row>, ms: seq<Message>)
    ensures History(rows + StoredRows(jsonb, ms)) == History(rows) + Normals(jsonb, ms)
  {
    FlatMapAppend(Shown, rows, StoredRows(jsonb, ms));
    HistoryOfStored(jsonb, ms);
  }

  /** Saving and reloading leaves every call with its replies. */
  lemma RepliesSurviveReload(jsonb: Jsonb, h: seq<Message>)
    requires EveryCallReplied(h)
    ensures EveryCallReplied(Normals(jsonb, h))
  {
    var normal := Normals(jsonb, h);
    forall i: nat | i < |normal| && normal[i].content.WithTools?
      ensures RepliedAt(normal, i)
    {
      assert RepliedAt(h, i);
      var calls := h[i].content.calls;
      forall k | 0 <= k < |calls|
        ensures IsReplyTo(normal[i + 1 + k], normal[i].content.calls[k])
      {
        assert IsReplyTo(h[i + 1 + k], calls[k]);
      }
    }
  }

  /**
   One chat turn on a stored session: the run starts from the loaded history, what
   it added is appended, and the next load gives a history in which again every
   call is answered and the last word is the answer.
   */
  lemma ChatTurn(jsonb: Jsonb, w: World, rows: seq<Row>, question: string, max: nat)
    requires EveryCallReplied(History(rows))
    requires RunResult(w, History(rows), question, max).Ok?
    ensures var o := RunResult(w, History(rows), question, max).value;
      var next := History(rows + StoredRows(jsonb, o.newTurns));
      && EveryCallReplied(next)
      && next == History(rows) + Normals(jsonb, o.newTurns)
      && next[|next| - 1] == Says(Assistant, o.text)
  {
    var o := RunResult(w, History(rows), question, max).value;
    HistoryIsWellFormed(w, History(rows), question, max);
    LoadAfterAppend(jsonb, rows, o.newTurns);
    RepliesSurviveReload(jsonb, o.newTurns);
    RepliedJoin(History(rows), Normals(jsonb, o.newTurns));
  }

  // ----- The table ---------------------------------------------------------------------

  /** One more than the largest index, or zero. */
  function NextIdx(idxs: seq<nat>): (n: nat)
    ensures forall i | 0 <= i < |idxs| :: idxs[i] < n
    ensures n > 0 ==> n - 1 in idxs
  {
    if idxs == [] then 0
    else
      var before := NextIdx(idxs[..|idxs| - 1]);
      if idxs[|idxs| - 1] < before then before else idxs[|idxs| - 1] + 1
  }

  function IdxsOf(entries: seq<Entry>): seq<nat> { seq(|entries|, i requires 0 <= i < |entries| => entries[i].idx) }

  predicate Consecutive(idxs: seq<nat>) {
    forall i | 0 <= i < |idxs| - 1 :: idxs[i + 1] == idxs[i] + 1
  }

  lemma {:induction false} NextAfterConsecutive(idxs: seq<nat>)
    requires Consecutive(idxs)
    ensures NextIdx(idxs) == if idxs == [] then 0 else idxs[|idxs| - 1] + 1
  {
    if |idxs| > 1 {
      NextAfterConsecutive(idxs[..|idxs| - 1]);
    }
  }

  lemma AppendedConsecutive(entries: seq<Entry>, e: Entry)
    requires Consecutive(IdxsOf(entries)) && e.idx == NextIdx(IdxsOf(entries))
    ensures Consecutive(IdxsOf(entries + [e]))
    ensures RowsOf(entries + [e]) == RowsOf(entries) + [e.row]
  {
    NextAfterConsecutive(IdxsOf(entries));
    assert IdxsOf(entries + [e]) == IdxsOf(entries) + [e.idx];
  }

  lemma {:induction false} ConsecutiveAt(idxs: seq<nat>, i: nat, j: nat)
    requires Consecutive(idxs) && i <= j < |idxs|
    ensures idxs[j] == idxs[i] + (j - i)
    decreases j - i
  {
    if i < j {
      ConsecutiveAt(idxs, i + 1, j);
    }
  }

  ghost predicate Sorted(entries: seq<Entry>) {
    forall i, j | 0 <= i < j < |entries| :: entries[i].idx <= entries[j].idx
  }

  /** Reading in index order gives the entries in the order of their insertion, and nothing else. */
  lemma {:induction false} OrderedByIdx(entries: seq<Entry>, ordered: seq<Entry>)
    requires Consecutive(IdxsOf(entries))
    requires multiset(ordered) == multiset(entries) && Sorted(ordered)
    ensures ordered == entries
    decreases |entries|
  {
    var n := |entries|;
    SameSize(ordered, entries);
    if n == 0 {
      assert ordered == [];
    } else {
      LastIsLargest(entries, ordered);
      WithoutLast(ordered, entries);
      assert IdxsOf(entries[..n - 1]) == IdxsOf(entries)[..n - 1];
      OrderedByIdx(entries[..n - 1], ordered[..n - 1]);
      assert entries == entries[..n - 1] + [entries[n - 1]];
      assert ordered == ordered[..n - 1] + [ordered[n - 1]];
    }
  }

  lemma SameSize<T>(a: seq<T>, b: seq<T>)
    requires multiset(a) == multiset(b)
    ensures |a| == |b|
  {
    assert |multiset(a)| == |a| && |multiset(b)| == |b|;
  }

  lemma WithoutLast<T>(a: seq<T>, b: seq<T>)
    requires multiset(a) == multiset(b) && a != [] && b != [] && a[|a| - 1] == b[|b| - 1]
    ensures multiset(a[..|a| - 1]) == multiset(b[..|b| - 1])
  {
    var x := a[|a| - 1];
    assert a == a[..|a| - 1] + [x] && b == b[..|b| - 1] + [x];
    assert multiset(a) == multiset(a[..|a| - 1]) + multiset{x};
    assert multiset(b) == multiset(b[..|b| - 1]) + multiset{x};
    assert multiset(a[..|a| - 1]) == multiset(a) - multiset{x};
    assert multiset(b[..|b| - 1]) == multiset(b) - multiset{x};
  }

  lemma LastIsLargest(entries: seq<Entry>, ordered: seq<Entry>)
    requires entries != [] && |ordered| == |entries|
    requires Consecutive(IdxsOf(entries))
    requires multiset(ordered) == multiset(entries) && Sorted(ordered)
    ensures ordered[|ordered| - 1] == entries[|entries| - 1]
  {
    var n := |entries|;
    var last := entries[n - 1];
    assert last in multiset(ordered);
    var i :| 0 <= i < n && ordered[i] == last;
    var top := ordered[n - 1];
    assert top in multiset(entries);
    var j :| 0 <= j < n && entries[j] == top;
    ConsecutiveAt(IdxsOf(entries), j, n - 1);
    assert IdxsOf(entries)[j] == top.idx && IdxsOf(entries)[n - 1] == last.idx;
    assert i == n - 1 || ordered[i].idx <= ordered[n - 1].idx;
    assert j == n - 1;
  }

  /** One session's messages, in the order of their insertion, seen by one backend at a time. */
  class MessageTable {
    const owner: string
    const jsonb: Jsonb
    var entries: seq<Entry>

    predicate Valid()
      reads this
    {
      Consecutive(IdxsOf(entries))
    }

    constructor (owner: string, jsonb: Jsonb)
      ensures Valid() && this.owner == owner && this.jsonb == jsonb && entries == []
    {
      this.owner, this.jsonb, entries := owner, jsonb, [];
    }

    /** `COALESCE(MAX(idx), -1) + 1` */
    method MaxPlusOne() returns (next: nat)
      ensures next == NextIdx(IdxsOf(entries))
    {
      next := 0;
      var i := 0;
      while i < |entries|
        invariant i <= |entries|
        invariant next == NextIdx(IdxsOf(entries)[..i])
      {
        assert IdxsOf(entries)[..i + 1][..i] == IdxsOf(entries)[..i];
        if next <= entries[i].idx {
          next := entries[i].idx + 1;
        }
        i := i + 1;
      }
      assert IdxsOf(entries)[..i] == IdxsOf(entries);
    }

    /** The helper checks ownership itself, and raises before it writes. */
    method AppendMessage(user: string, r: Row) returns (ok: bool)
      requires Valid()
      modifies this
      ensures Valid() && (ok <==> user == owner)
      ensures RowsOf(entries) == old(RowsOf(entries)) + if ok then [Kept(jsonb, r)] else []
      ensures old(entries) <= entries && (!ok ==> entries == old(entries))
    {
      if user != owner {
        return false;
      }
      var idx := MaxPlusOne();
      AppendedConsecutive(entries, Entry(idx, Kept(jsonb, r)));
      entries := entries + [Entry(idx, Kept(jsonb, r))];
      return true;
    }

    /** Nothing is written, not even an empty batch, by a caller who does not own the session. */
    method AppendMessages(user: string, messages: seq<Message>) returns (r: Result<(), SessionError>)
      requires Valid()
      modifies this
      ensures Valid()
      ensures r == if user == owner then Ok(()) else Err(NotFound)
      ensures r.Err? ==> entries == old(entries)
      ensures r.Ok? ==> RowsOf(entries) == old(RowsOf(entries)) + StoredRows(jsonb, messages)
      ensures r.Ok? ==> History(RowsOf(entries)) == old(History(RowsOf(entries))) + Normals(jsonb, messages)
      ensures old(entries) <= entries
    {
      if user != owner {
        return Err(NotFound);
      }
      ghost var was := RowsOf(entries);
      var i := 0;
      while i < |messages|
        invariant i <= |messages|
        invariant Valid() && old(entries) <= entries
        invariant RowsOf(entries) == was + StoredRows(jsonb, messages[..i])
      {
        var _ := AppendMessage(user, Encode(messages[i]));
        assert StoredRows(jsonb, messages[..i + 1])
            == StoredRows(jsonb, messages[..i]) + [Kept(jsonb, Encode(messages[i]))];
        i := i + 1;
      }
      assert messages[..i] == messages;
      LoadAfterAppend(jsonb, was, messages);
      return Ok(());
    }

    method LoadHistory(user: string) returns (r: Result<seq<Message>, SessionError>)
      ensures r == if user == owner then Ok(History(RowsOf(entries))) else Err(NotFound)
    {
      if user != owner {
        return Err(NotFound);
      }
      var history: seq<Message> := [];
      var i := 0;
      while i < |entries|
        invariant i <= |entries|
        invariant history == History(RowsOf(entries)[..i])
      {
        var m := Decode(entries[i].row);
        assert RowsOf(entries)[..i + 1] == RowsOf(entries)[..i] + [entries[i].row];
        FlatMapSnoc(Shown, RowsOf(entries)[..i], entries[i].row);
        if m.Some? {
          history := history + [m.value];
        }
        i := i + 1;
      }
      assert RowsOf(entries)[..i] == RowsOf(entries);
      return Ok(history);
    }

    method Clear(user: string) returns (r: Result<(), SessionError>)
      modifies this
      ensures r == if user == owner then Ok(()) else Err(NotFound)
      ensures entries == if user == owner then [] else old(entries)
    {
      if user != owner {
        return Err(NotFound);
      }
      entries := [];
      return Ok(());
    }
  }
}
