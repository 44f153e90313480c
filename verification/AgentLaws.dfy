/** What holds of every run, and how the run and the stream agree. */
module AgentLaws {
  import opened Common
  import opened Wire
  import opened AgentLoop

  // ----- Histories in which every call is answered -------------------------------

  predicate IsReplyTo(m: Message, call: ToolCall) {
    m.role == Tool && m.content.ToolResult? && m.content.callId == call.id
  }

  /** The calls at `i` are answered at once, in order, once each. */
  predicate RepliedAt(h: seq<Message>, i: nat)
    requires i < |h| && h[i].content.WithTools?
  {
    var calls := h[i].content.calls;
    && i + |calls| < |h|
    && (forall k | 0 <= k < |calls| :: IsReplyTo(h[i + 1 + k], calls[k]))
    && (i + 1 + |calls| < |h| ==> !h[i + 1 + |calls|].content.ToolResult?)
  }

  ghost predicate EveryCallReplied(h: seq<Message>) {
    forall i: nat | i < |h| && h[i].content.WithTools? :: RepliedAt(h, i)
  }

  predicate StartsOutsideATurn(h: seq<Message>) { h == [] || !h[0].content.ToolResult? }

  lemma RepliedJoin(a: seq<Message>, b: seq<Message>)
    requires EveryCallReplied(a) && EveryCallReplied(b) && StartsOutsideATurn(b)
    ensures EveryCallReplied(a + b)
  {
    var h := a + b;
    forall i: nat | i < |h| && h[i].content.WithTools?
      ensures RepliedAt(h, i)
    {
      if i < |a| {
        assert RepliedAt(a, i);
      } else {
        assert RepliedAt(b, i - |a|);
        var calls := h[i].content.calls;
        forall k | 0 <= k < |calls|
          ensures IsReplyTo(h[i + 1 + k], calls[k])
        {
          assert h[i + 1 + k] == b[i - |a| + 1 + k];
        }
      }
    }
  }

  lemma TurnReplied(t: Turn)
    ensures EveryCallReplied(RunMessages(t)) && StartsOutsideATurn(RunMessages(t))
  {
  }

  lemma {:induction false} TurnsReplied(turns: seq<Turn>)
    ensures EveryCallReplied(FlatMap(RunMessages, turns)) && StartsOutsideATurn(FlatMap(RunMessages, turns))
  {
    if turns != [] {
      TurnReplied(turns[0]);
      TurnsReplied(turns[1..]);
      RepliedJoin(RunMessages(turns[0]), FlatMap(RunMessages, turns[1..]));
    }
  }

  /** What every answer of the run looks like. */
  lemma AnswerShape(w: World, prior: seq<Message>, question: string, max: nat)
      returns (turns: seq<Turn>, closing: seq<Message>)
    requires RunResult(w, prior, question, max).Ok?
    ensures turns == RunCourse(w, prior, question, max).turns
    ensures closing == [] || (|closing| == 1 && closing[0].content == Text(STEP_LIMIT))
         || (|closing| == 1 && closing[0].content.WithTools? && closing[0].content.calls == [])
    ensures var o := RunResult(w, prior, question, max).value;
      && o.newTurns == [Says(User, question)] + FlatMap(RunMessages, turns) + closing + [Says(Assistant, o.text)]
      && o.toolCalls == FlatMap(Traces, turns)
      && o.iterations == Min(|turns| + 1, max)
  {
    var course := RunCourse(w, prior, question, max);
    turns := course.turns;
    closing := match course.end
      case SpokeWithoutCalls(text, _) => [Opening(Some(text), [])]
      case Exhausted => [Says(User, STEP_LIMIT)]
      case _ => [];
  }

  /**
   On success the turns added start with the question and end with the answer,
   every call in them is answered at once, and appending them to a prior history
   with that property keeps it.
   */
  lemma HistoryIsWellFormed(w: World, prior: seq<Message>, question: string, max: nat)
    requires RunResult(w, prior, question, max).Ok?
    ensures var o := RunResult(w, prior, question, max).value;
      && |o.newTurns| >= 2
      && o.newTurns[0] == Says(User, question)
      && o.newTurns[|o.newTurns| - 1] == Says(Assistant, o.text)
      && EveryCallReplied(o.newTurns)
      && (EveryCallReplied(prior) ==> EveryCallReplied(prior + o.newTurns))
      && o.iterations <= max
      && |RunCourse(w, prior, question, max).turns| + 1 <= max + 1
  {
    var turns, closing := AnswerShape(w, prior, question, max);
    var o := RunResult(w, prior, question, max).value;
    TurnsReplied(turns);
    var first, last := [Says(User, question)], [Says(Assistant, o.text)];
    RepliedJoin(first, FlatMap(RunMessages, turns));
    assert EveryCallReplied(closing);
    RepliedJoin(first + FlatMap(RunMessages, turns), closing);
    RepliedJoin(first + FlatMap(RunMessages, turns) + closing, last);
    if EveryCallReplied(prior) {
      RepliedJoin(prior, o.newTurns);
    }
  }

  // ----- Calls, results and traces, one for one --------------------------------------

  function Called(m: Message): seq<ToolCall> { if m.content.WithTools? then m.content.calls else [] }

  function Returned(m: Message): seq<Content> { if m.content.ToolResult? then [m.content] else [] }

  function CallsOf(h: seq<Message>): seq<ToolCall> { FlatMap(Called, h) }

  function ResultsOf(h: seq<Message>): seq<Content> { FlatMap(Returned, h) }

  predicate Records(t: Trace, call: ToolCall, result: Content) {
    && result.ToolResult? && result.callId == call.id
    && t.name == call.name && t.arguments == call.arguments
    && t.isError == result.isError && t.preview == Preview(result.output)
  }

  /** Traces, calls and results in step. */
  predicate InStep(traces: seq<Trace>, calls: seq<ToolCall>, results: seq<Content>) {
    && |traces| == |calls| == |results|
    && forall k | 0 <= k < |traces| :: Records(traces[k], calls[k], results[k])
  }

  lemma {:induction false} RepliesInStep(steps: seq<Step>)
    ensures CallsOf(Replies(steps)) == []
    ensures |ResultsOf(Replies(steps))| == |steps|
    ensures forall k | 0 <= k < |steps| :: ResultsOf(Replies(steps))[k] == Reply(steps[k]).content
  {
    if steps != [] {
      assert Replies(steps)[0] == Reply(steps[0]);
      assert Replies(steps)[1..] == Replies(steps[1..]);
      RepliesInStep(steps[1..]);
    }
  }

  lemma TurnInStep(t: Turn)
    ensures InStep(Traces(t), CallsOf(RunMessages(t)), ResultsOf(RunMessages(t)))
  {
    var nudge := Says(User, NUDGE);
    RepliesInStep(t.steps);
    FlatMapOne(Called, Request(t));
    FlatMapOne(Returned, Request(t));
    FlatMapOne(Called, nudge);
    FlatMapOne(Returned, nudge);
    var tail := if t.steps == [] then [nudge] else Replies(t.steps);
    assert RunMessages(t) == [Request(t)] + tail;
    FlatMapAppend(Called, [Request(t)], tail);
    FlatMapAppend(Returned, [Request(t)], tail);
  }

  lemma InStepJoin(t: seq<Trace>, c: seq<ToolCall>, r: seq<Content>, t': seq<Trace>, c': seq<ToolCall>, r': seq<Content>)
    requires InStep(t, c, r) && InStep(t', c', r')
    ensures InStep(t + t', c + c', r + r')
  {
  }

  lemma {:induction false} TurnsInStep(turns: seq<Turn>)
    ensures InStep(FlatMap(Traces, turns), CallsOf(FlatMap(RunMessages, turns)), ResultsOf(FlatMap(RunMessages, turns)))
  {
    if turns != [] {
      var h, t := RunMessages(turns[0]), FlatMap(RunMessages, turns[1..]);
      TurnInStep(turns[0]);
      TurnsInStep(turns[1..]);
      FlatMapAppend(Called, h, t);
      FlatMapAppend(Returned, h, t);
      InStepJoin(Traces(turns[0]), CallsOf(h), ResultsOf(h), FlatMap(Traces, turns[1..]), CallsOf(t), ResultsOf(t));
    }
  }

  lemma SilentEnds(h: seq<Message>, m: Message)
    requires Called(m) == [] && Returned(m) == []
    ensures CallsOf([m] + h) == CallsOf(h) == CallsOf(h + [m])
    ensures ResultsOf([m] + h) == ResultsOf(h) == ResultsOf(h + [m])
  {
    FlatMapSnoc(Called, h, m);
    FlatMapSnoc(Returned, h, m);
    assert ([m] + h)[1..] == h;
  }

  /** `tool_calls` records every call of the added turns with the result it got, in order. */
  lemma EveryCallIsTraced(w: World, prior: seq<Message>, question: string, max: nat)
    requires RunResult(w, prior, question, max).Ok?
    ensures var o := RunResult(w, prior, question, max).value;
      InStep(o.toolCalls, CallsOf(o.newTurns), ResultsOf(o.newTurns))
  {
    var turns, closing := AnswerShape(w, prior, question, max);
    var o := RunResult(w, prior, question, max).value;
    TurnsInStep(turns);
    var middle := FlatMap(RunMessages, turns);
    var asked := [Says(User, question)] + middle;
    SilentEnds(middle, Says(User, question));
    if closing != [] {
      assert closing == [closing[0]];
      SilentEnds(asked, closing[0]);
    } else {
      assert asked + closing == asked;
    }
    SilentEnds(asked + closing, Says(Assistant, o.text));
  }

  // ----- What the provider and the tools see --------------------------------------------

  function Messages(turns: seq<Turn>, nudges: bool): seq<Message> {
    if nudges then FlatMap(RunMessages, turns) else FlatMap(StreamMessages, turns)
  }

  lemma {:induction false} StepsAreDispatches(w: World, h: seq<Message>, calls: seq<ToolCall>, i: nat)
    requires i < |calls|
    ensures |Steps(w, h, calls)| == |calls|
    ensures Steps(w, h, calls)[i] == Step(calls[i], w.dispatch(h + Replies(Steps(w, h, calls)[..i]), calls[i]))
    decreases |calls|
  {
    var last := |calls| - 1;
    var before := Steps(w, h, calls[..last]);
    assert |CallsIn(before)| == |before| == last;
    assert Steps(w, h, calls)[..last] == before;
    if i < last {
      StepsAreDispatches(w, h, calls[..last], i);
      assert Steps(w, h, calls)[..i] == before[..i];
    }
  }

  lemma MessagesOfFirst(turn: Turn, turns: seq<Turn>, h: seq<Message>, nudges: bool)
    ensures h + Messages([turn] + turns, nudges) == h + TurnMessages(turn, nudges) + Messages(turns, nudges)
  {
    assert ([turn] + turns)[1..] == turns;
    Associative(h, TurnMessages(turn, nudges), Messages(turns, nudges));
  }

  /** The turn is the provider's `n`-th answer, to this history, and its steps are the dispatcher's results. */
  predicate IsResponse(w: World, n: nat, before: seq<Message>, turn: Turn) {
    && w.provider(n, before, true) == Ok(ToolCalls(turn.said, CallsIn(turn.steps), turn.usage))
    && turn.steps == Steps(w, before + [Request(turn)], CallsIn(turn.steps))
  }

  lemma FirstTurn(w: World, h: seq<Message>, n: nat, max: nat, nudges: bool, turns: seq<Turn>)
    requires n <= max && turns != [] && CourseFrom(w, h, n, max, nudges).turns == turns
    ensures n < max && IsResponse(w, n, h, turns[0])
  {
  }

  lemma OtherTurns(w: World, h: seq<Message>, n: nat, max: nat, nudges: bool)
    requires n <= max && CourseFrom(w, h, n, max, nudges).turns != []
    ensures var turns := CourseFrom(w, h, n, max, nudges).turns;
      && n < max && turns[1..] == CourseFrom(w, h + TurnMessages(turns[0], nudges), n + 1, max, nudges).turns
      && CourseFrom(w, h, n, max, nudges).end == CourseFrom(w, h + TurnMessages(turns[0], nudges), n + 1, max, nudges).end
  {
  }

  lemma Split<T>(x: T, rest: seq<T>, k: nat)
    requires 0 < k <= |rest| + 1
    ensures ([x] + rest)[..k] == [x] + rest[..k - 1] && ([x] + rest)[k..] == rest[k - 1..]
  {
  }

  /** After k turns, at iteration m, a course is the course from there. */
  lemma {:induction false} CourseGoesOn(w: World, h: seq<Message>, n: nat, max: nat, nudges: bool, k: nat,
                                        turns: seq<Turn>, after: seq<Message>, m: nat)
    requires n <= m <= max && m - n == k <= |turns| && turns == CourseFrom(w, h, n, max, nudges).turns
    requires after == h + Messages(turns[..k], nudges)
    ensures CourseFrom(w, after, m, max, nudges) == Course(turns[k..], CourseFrom(w, h, n, max, nudges).end)
    decreases k
  {
    if k == 0 {
      assert Messages(turns[..0], nudges) == [] && h + [] == h;
    } else {
      OtherTurns(w, h, n, max, nudges);
      var next := h + TurnMessages(turns[0], nudges);
      var rest := turns[1..];
      Split(turns[0], rest, k);
      MessagesOfFirst(turns[0], rest[..k - 1], h, nudges);
      CourseGoesOn(w, next, n + 1, max, nudges, k - 1, rest, after, m);
    }
  }

  /**
   The k-th turn of a course is the provider's answer to the history of the turns
   before it, with tools on offer, and each of its steps is what the dispatcher
   returned after the request and the results before it.
   */
  lemma TurnsAreResponses(w: World, h: seq<Message>, n: nat, max: nat, nudges: bool, k: nat,
                          turns: seq<Turn>, before: seq<Message>, m: nat)
    requires n <= m <= max && m - n == k < |turns| && turns == CourseFrom(w, h, n, max, nudges).turns
    requires before == h + Messages(turns[..k], nudges)
    ensures IsResponse(w, m, before, turns[k])
  {
    CourseGoesOn(w, h, n, max, nudges, k, turns, before, m);
    FirstTurn(w, before, m, max, nudges, turns[k..]);
  }

  // ----- A larger budget changes no answer ------------------------------------------------

  lemma {:induction false} LongerCourse(w: World, h: seq<Message>, n: nat, max: nat, more: nat, nudges: bool)
    requires n <= max <= more && !CourseFrom(w, h, n, max, nudges).end.Exhausted?
    ensures CourseFrom(w, h, n, more, nudges) == CourseFrom(w, h, n, max, nudges)
    decreases max - n
  {
    if n < max {
      var resp := w.provider(n, h, true);
      if resp.Ok? && resp.value.ToolCalls? && !(nudges && resp.value.calls == [] && Spoken(resp.value.said)) {
        var said, calls := resp.value.said, resp.value.calls;
        var turn := Turn(said, Steps(w, h + [Opening(said, calls)], calls), resp.value.usage);
        LongerCourse(w, h + TurnMessages(turn, nudges), n + 1, max, more, nudges);
      }
    }
  }

  /** A run that did not use up its budget ends the same way under any larger one. */
  lemma LargerBudgetSameAnswer(w: World, prior: seq<Message>, question: string, max: nat, more: nat)
    requires max <= more && !RunCourse(w, prior, question, max).end.Exhausted?
    ensures RunResult(w, prior, question, more) == RunResult(w, prior, question, max)
  {
    LongerCourse(w, prior + [Says(User, question)], 0, max, more, true);
  }

  // ----- Lockstep ------------------------------------------------------------------------------

  /** No response of the course asked for tools without naming any. */
  predicate NoEmptyTurn(c: Course) {
    && (forall i | 0 <= i < |c.turns| :: c.turns[i].steps != [])
    && !c.end.SpokeWithoutCalls?
  }

  /** Without such a response on either side the two loops take the same course. */
  lemma {:induction false} SameCourse(w: World, h: seq<Message>, n: nat, max: nat)
    requires n <= max
    requires NoEmptyTurn(CourseFrom(w, h, n, max, true)) || NoEmptyTurn(CourseFrom(w, h, n, max, false))
    ensures CourseFrom(w, h, n, max, true) == CourseFrom(w, h, n, max, false)
    decreases max - n
  {
    if n < max {
      var resp := w.provider(n, h, true);
      if resp.Ok? && resp.value.ToolCalls? {
        var said, calls := resp.value.said, resp.value.calls;
        var turn := Turn(said, Steps(w, h + [Opening(said, calls)], calls), resp.value.usage);
        var run, stream := CourseFrom(w, h, n, max, true), CourseFrom(w, h, n, max, false);
        assert stream.turns[0] == turn && |stream.turns[0].steps| == |calls|;
        assert run.end.SpokeWithoutCalls? || (run.turns != [] && run.turns[0] == turn);
        assert |turn.steps| == |calls|;
        var next := h + StreamMessages(turn);
        var run', stream' := CourseFrom(w, next, n + 1, max, true), CourseFrom(w, next, n + 1, max, false);
        assert run.turns == [turn] + run'.turns && stream.turns == [turn] + stream'.turns;
        assert run.turns[1..] == run'.turns && stream.turns[1..] == stream'.turns;
        SameCourse(w, next, n + 1, max);
      }
    }
  }

  function ToolRowIn(row: string): seq<string> { if "[tool] " <= row then [row] else [] }

  function ToolRows(rows: seq<string>): seq<string> { FlatMap(ToolRowIn, rows) }

  function TraceRow(t: Trace): string { ToolRow(t.name, t.preview) }

  function TraceRows(traces: seq<Trace>): seq<string> { seq(|traces|, i requires 0 <= i < |traces| => TraceRow(traces[i])) }

  lemma {:induction false} StepRowsAreToolRows(steps: seq<Step>)
    ensures ToolRows(StepRows(steps)) == StepRows(steps)
  {
    if steps != [] {
      assert StepRows(steps)[0] == StepRow(steps[0]);
      assert StepRows(steps)[1..] == StepRows(steps[1..]);
      StepRowsAreToolRows(steps[1..]);
    }
  }

  lemma NotAToolRow(row: string)
    requires "[thinking] " <= row || "[answer] " <= row
    ensures ToolRowIn(row) == []
  {
    assert row[2] == 'h' || row[2] == 'n';
    assert row[..7][2] == row[2];
  }

  lemma TurnRows(t: Turn)
    ensures ToolRows(Rows(t)) == TraceRows(Traces(t))
  {
    FlatMapAppend(ToolRowIn, Thinking(t.said), StepRows(t.steps));
    StepRowsAreToolRows(t.steps);
    if Spoken(t.said) {
      NotAToolRow("[thinking] " + t.said.value);
      FlatMapOne(ToolRowIn, "[thinking] " + t.said.value);
    }
    assert StepRows(t.steps) == TraceRows(Traces(t));
  }

  lemma {:induction false} CourseRows(turns: seq<Turn>)
    ensures ToolRows(FlatMap(Rows, turns)) == TraceRows(FlatMap(Traces, turns))
  {
    if turns != [] {
      FlatMapAppend(ToolRowIn, Rows(turns[0]), FlatMap(Rows, turns[1..]));
      TurnRows(turns[0]);
      CourseRows(turns[1..]);
      var a, b := Traces(turns[0]), FlatMap(Traces, turns[1..]);
      assert TraceRows(a + b) == TraceRows(a) + TraceRows(b);
    }
  }

  lemma {:induction false} SameMessages(turns: seq<Turn>)
    requires forall i | 0 <= i < |turns| :: turns[i].steps != []
    ensures FlatMap(RunMessages, turns) == FlatMap(StreamMessages, turns)
  {
    if turns != [] {
      assert forall i | 0 <= i < |turns[1..]| :: turns[1..][i] == turns[i + 1];
      SameMessages(turns[1..]);
    }
  }

  /**
   On a new conversation in which no response asks for tools without naming any,
   the run and the stream go through the same histories, iteration by iteration.
   They fail alike, and when the run is answered the stream's last row carries the
   same text and its tool rows are the run's trace, with the same previews.
   */
  lemma Lockstep(w: World, question: string, max: nat)
    requires NoEmptyTurn(RunCourse(w, [], question, max)) || NoEmptyTurn(StreamCourse(w, question, max))
    ensures var course := RunCourse(w, [], question, max);
      var run, stream := RunResult(w, [], question, max), StreamResult(w, question, max);
      && course == StreamCourse(w, question, max)
      && (forall k: nat | k <= |course.turns| ::
            FlatMap(RunMessages, course.turns[..k]) == FlatMap(StreamMessages, course.turns[..k]))
      && (course.end.Failed? ==>
            && stream == Err(ProviderError(course.end.error))
            && run == Err(ProviderError(course.end.error)))
      && (course.end.Answered? ==>
            && run.Ok? && stream.Ok? && stream.value != []
            && run.value.text == course.end.text
            && stream.value[|stream.value| - 1] == "[answer] " + run.value.text
            && ToolRows(stream.value) == TraceRows(run.value.toolCalls))
      && (course.end.Exhausted? && course.turns != [] ==>
            && stream.Ok? && ToolRows(stream.value) == TraceRows(FlatMap(Traces, course.turns))
            && (run.Ok? ==> ToolRows(stream.value) == TraceRows(run.value.toolCalls)))
  {
    var start := [Says(User, question)];
    assert [] + start == start;
    SameCourse(w, start, 0, max);
    var course := RunCourse(w, [], question, max);
    assert NoEmptyTurn(course);
    forall k: nat | k <= |course.turns|
      ensures FlatMap(RunMessages, course.turns[..k]) == FlatMap(StreamMessages, course.turns[..k])
    {
      SameMessages(course.turns[..k]);
    }
    StreamToolRows(course);
  }

  function EmptyTurns(turns: seq<Turn>): nat {
    if turns == [] then 0 else (if turns[0].steps == [] then 1 else 0) + EmptyTurns(turns[1..])
  }

  lemma {:induction false} NudgesAreExtra(turns: seq<Turn>)
    ensures |FlatMap(RunMessages, turns)| == |FlatMap(StreamMessages, turns)| + EmptyTurns(turns)
    ensures EmptyTurns(turns) == 0 <==> forall i | 0 <= i < |turns| :: turns[i].steps != []
  {
    if turns != [] {
      NudgesAreExtra(turns[1..]);
      assert forall i | 0 < i < |turns| :: turns[i] == turns[1..][i - 1];
      assert forall i | 0 <= i < |turns[1..]| :: turns[1..][i] == turns[i + 1];
    }
  }

  lemma {:induction false} StreamNeverSpeaks(w: World, h: seq<Message>, n: nat, max: nat)
    requires n <= max
    ensures !CourseFrom(w, h, n, max, false).end.SpokeWithoutCalls?
    decreases max - n
  {
    if n < max {
      var resp := w.provider(n, h, true);
      if resp.Ok? && resp.value.ToolCalls? {
        var said, calls := resp.value.said, resp.value.calls;
        var turn := Turn(said, Steps(w, h + [Opening(said, calls)], calls), resp.value.usage);
        StreamNeverSpeaks(w, h + StreamMessages(turn), n + 1, max);
      }
    }
  }

  /** Run and stream take the same turns, end alike and have the same history. */
  predicate InLockstep(w: World, question: string, max: nat) {
    var run, stream := RunCourse(w, [], question, max), StreamCourse(w, question, max);
    run == stream && FlatMap(RunMessages, run.turns) == FlatMap(StreamMessages, stream.turns)
  }

  /**
   For every provider, dispatcher, question and budget, run and stream go in
   lockstep if and only if no response asks for tools without naming any.
   */
  lemma LockstepIff(w: World, question: string, max: nat)
    ensures InLockstep(w, question, max) <==> NoEmptyTurn(RunCourse(w, [], question, max))
    ensures NoEmptyTurn(RunCourse(w, [], question, max)) <==> NoEmptyTurn(StreamCourse(w, question, max))
  {
    var start := [Says(User, question)];
    assert [] + start == start;
    var run := RunCourse(w, [], question, max);
    NudgesAreExtra(run.turns);
    StreamNeverSpeaks(w, start, 0, max);
    if NoEmptyTurn(run) || NoEmptyTurn(StreamCourse(w, question, max)) {
      SameCourse(w, start, 0, max);
      SameMessages(run.turns);
    }
  }

  lemma StreamToolRows(course: Course)
    ensures ToolRows(FlatMap(Rows, course.turns) + Closing(course.end)) == TraceRows(FlatMap(Traces, course.turns))
    ensures ToolRows(["[error] no response from model"]) == []
  {
    CourseRows(course.turns);
    FlatMapAppend(ToolRowIn, FlatMap(Rows, course.turns), Closing(course.end));
    if course.end.Answered? {
      NotAToolRow("[answer] " + course.end.text);
      FlatMapOne(ToolRowIn, "[answer] " + course.end.text);
    }
    var none := "[error] no response from model";
    assert none[1] != "[tool] "[1];
    FlatMapOne(ToolRowIn, none);
  }

  // ----- Where the loops part -------------------------------------------------------------------

  /** First words without calls, then an answer. */
  function Mumbling(first: string, second: string): World {
    World((n, h, offered) => Ok(if n == 0 then ToolCalls(Some(first), [], None) else Final(second, None)),
          (h, call) => ToolOutput("", false))
  }

  /**
   A tool turn that names no tool but says something is the run's answer; the
   stream takes it for a thought and goes on, so the two give different answers.
   */
  lemma EmptyTurnPartsTheLoops(question: string, first: string, second: string, max: nat)
    requires first != "" && max >= 2
    ensures var run := RunResult(Mumbling(first, second), [], question, max);
      run.Ok? && run.value.text == first
    ensures StreamResult(Mumbling(first, second), question, max)
         == Ok(["[thinking] " + first, "[answer] " + second])
  {
    var w, start := Mumbling(first, second), [Says(User, question)];
    assert [] + start == start;
    var turn := Turn(Some(first), Steps(w, start + [Opening(Some(first), [])], []), None);
    var next := start + StreamMessages(turn);
    assert CourseFrom(w, next, 1, max, false) == Course([], Answered(second, None));
    assert StreamCourse(w, question, max) == Course([turn], Answered(second, None));
    FlatMapOne(Rows, turn);
    assert Rows(turn) + Closing(Answered(second, None)) == ["[thinking] " + first, "[answer] " + second];
    assert RunCourse(w, [], question, max) == Course([], SpokeWithoutCalls(first, None));
  }
}
