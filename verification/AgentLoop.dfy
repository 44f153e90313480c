/**
 The agent loop, in its two implementations: the blocking run that returns an
 answer with its trace, and the stream that returns rows of text.

 Both are loops over a provider and a tool dispatcher. What a loop went through
 is its course: the tool turns it took and how it ended. Everything either loop
 returns is a function of its course.
 */
module AgentLoop {
  import opened Common
  import opened Wire

  /**
   The outside world. The answer to a provider call may depend on which call of
   the run it is, on the whole history and on whether tools were offered; what a
   tool returns may depend on everything that happened before it.
   */
  datatype World = World(
    provider: (nat, seq<Message>, bool) -> Result<Response, string>,
    dispatch: (seq<Message>, ToolCall) -> ToolOutput)

  datatype AgentError = ProviderError(message: string) | MaxIterations(max: nat)

  datatype Trace = Trace(name: string, arguments: string, isError: bool, preview: string)

  datatype Outcome = Outcome(
    text: string, iterations: nat, toolCalls: seq<Trace>, newTurns: seq<Message>,
    promptTokens: int, completionTokens: int)

  const PREVIEW_CHARS := 2000

  const NUDGE := "You returned no tool calls and no answer. Please respond with your final answer now."

  const STEP_LIMIT :=
    "You have reached the step limit. Do not call any more tools. "
    + "Give your best final answer now using the information you have "
    + "already gathered above. If it is incomplete, say so briefly and "
    + "answer with what you know."

  function Preview(output: string): string {
    if |output| > PREVIEW_CHARS then output[..PREVIEW_CHARS] + "\U{2026}" else output
  }

  function Says(role: Role, text: string): Message { Message(role, Text(text)) }

  // ----- Sequences ------------------------------------------------------------

  function SumOf<A>(f: A -> int, s: seq<A>): int {
    if s == [] then 0 else f(s[0]) + SumOf(f, s[1..])
  }

  lemma {:induction false} SumOfSnoc<A>(f: A -> int, s: seq<A>, x: A)
    ensures SumOf(f, s + [x]) == SumOf(f, s) + f(x)
  {
    if s == [] {
      assert (s + [x])[1..] == [];
    } else {
      assert (s + [x])[1..] == s[1..] + [x];
      SumOfSnoc(f, s[1..], x);
    }
  }

  // ----- One tool turn ----------------------------------------------------------

  datatype Step = Step(call: ToolCall, output: ToolOutput)

  datatype Turn = Turn(said: Option<string>, steps: seq<Step>, usage: Option<Usage>)

  function Reply(s: Step): Message {
    Message(Tool, ToolResult(s.call.id, s.output.text, s.output.isError))
  }

  function Replies(steps: seq<Step>): seq<Message> { seq(|steps|, i requires 0 <= i < |steps| => Reply(steps[i])) }

  function CallsIn(steps: seq<Step>): seq<ToolCall> { seq(|steps|, i requires 0 <= i < |steps| => steps[i].call) }

  /** The calls of one turn, run in order; each sees the results of the ones before it. */
  function Steps(w: World, h: seq<Message>, calls: seq<ToolCall>): (steps: seq<Step>)
    ensures CallsIn(steps) == calls
  {
    if calls == [] then []
    else
      var last := |calls| - 1;
      var before := Steps(w, h, calls[..last]);
      before + [Step(calls[last], w.dispatch(h + Replies(before), calls[last]))]
  }

  function Request(t: Turn): Message { Message(Assistant, WithTools(t.said, CallsIn(t.steps))) }

  function Opening(said: Option<string>, calls: seq<ToolCall>): Message { Message(Assistant, WithTools(said, calls)) }

  /** What a turn adds to the stream's history. */
  function StreamMessages(t: Turn): seq<Message> { [Request(t)] + Replies(t.steps) }

  /** What a turn adds to the run's history: a turn without calls is answered by a nudge. */
  function RunMessages(t: Turn): seq<Message> {
    if t.steps == [] then [Request(t), Says(User, NUDGE)] else StreamMessages(t)
  }

  function TurnMessages(t: Turn, nudges: bool): seq<Message> {
    if nudges then RunMessages(t) else StreamMessages(t)
  }

  function TraceOf(s: Step): Trace {
    Trace(s.call.name, s.call.arguments, s.output.isError, Preview(s.output.text))
  }

  function Traces(t: Turn): seq<Trace> { seq(|t.steps|, i requires 0 <= i < |t.steps| => TraceOf(t.steps[i])) }

  function PromptTokens(u: Option<Usage>): int { if u.Some? then u.value.prompt else 0 }

  function CompletionTokens(u: Option<Usage>): int { if u.Some? then u.value.completion else 0 }

  function TurnPrompt(t: Turn): int { PromptTokens(t.usage) }

  function TurnCompletion(t: Turn): int { CompletionTokens(t.usage) }

  /** Nonempty text. */
  predicate Spoken(said: Option<string>) { said.Some? && said.value != "" }

  // ----- The course of a loop -----------------------------------------------------

  datatype End =
    | Answered(text: string, usage: Option<Usage>)
    | SpokeWithoutCalls(text: string, usage: Option<Usage>)
    | Exhausted
    | Failed(error: string)

  datatype Course = Course(turns: seq<Turn>, end: End)

  /**
   From history `h` at iteration `n`. With `nudges` this is the run, which treats
   a turn without calls specially; without, the stream, which does not.
   */
  function CourseFrom(w: World, h: seq<Message>, n: nat, max: nat, nudges: bool): (c: Course)
    requires n <= max
    ensures n + |c.turns| <= max
    ensures c.end.Exhausted? <==> n + |c.turns| == max
    decreases max - n
  {
    if n == max then Course([], Exhausted)
    else
      match w.provider(n, h, true)
      case Err(e) => Course([], Failed(e))
      case Ok(Final(text, usage)) => Course([], Answered(text, usage))
      case Ok(ToolCalls(said, calls, usage)) =>
        if nudges && calls == [] && Spoken(said) then Course([], SpokeWithoutCalls(said.value, usage))
        else
          var turn := Turn(said, Steps(w, h + [Opening(said, calls)], calls), usage);
          var rest := CourseFrom(w, h + TurnMessages(turn, nudges), n + 1, max, nudges);
          Course([turn] + rest.turns, rest.end)
  }

  /** The course that continues with `rest` once `turns` are taken. */
  function After(turns: seq<Turn>, rest: Course): Course { Course(turns + rest.turns, rest.end) }

  lemma NextTurn(w: World, turns: seq<Turn>, turn: Turn, h: seq<Message>, n: nat, max: nat, nudges: bool)
    requires n < max && w.provider(n, h, true) == Ok(ToolCalls(turn.said, CallsIn(turn.steps), turn.usage))
    requires !(nudges && turn.steps == [] && Spoken(turn.said))
    requires turn.steps == Steps(w, h + [Request(turn)], CallsIn(turn.steps))
    ensures After(turns, CourseFrom(w, h, n, max, nudges))
         == After(turns + [turn], CourseFrom(w, h + TurnMessages(turn, nudges), n + 1, max, nudges))
  {
    var rest := CourseFrom(w, h + TurnMessages(turn, nudges), n + 1, max, nudges);
    Associative(turns, [turn], rest.turns);
    assert CourseFrom(w, h, n, max, nudges) == Course([turn] + rest.turns, rest.end);
  }

  // ----- What the run returns -------------------------------------------------------

  /** What an answer after `turns` and the messages `closing` comes to. */
  function Answer(text: string, iterations: nat, question: string, turns: seq<Turn>, closing: seq<Message>,
                  usage: Option<Usage>): Outcome
  {
    Outcome(text, iterations, FlatMap(Traces, turns),
            [Says(User, question)] + FlatMap(RunMessages, turns) + closing + [Says(Assistant, text)],
            SumOf(TurnPrompt, turns) + PromptTokens(usage),
            SumOf(TurnCompletion, turns) + CompletionTokens(usage))
  }

  /** The text of a response that can serve as an answer when the budget is spent. */
  function LastWords(r: Result<Response, string>): Option<string> {
    match r
    case Ok(Final(text, _)) => if text != "" then Some(text) else None
    case Ok(ToolCalls(said, _, _)) => if Spoken(said) then said else None
    case Err(_) => None
  }

  /** What the run makes of its course, started on history `start`. */
  function Concluded(w: World, start: seq<Message>, question: string, max: nat, course: Course): Result<Outcome, AgentError>
  {
    var taken := |course.turns|;
    match course.end
    case Answered(text, usage) => Ok(Answer(text, taken + 1, question, course.turns, [], usage))
    case SpokeWithoutCalls(text, usage) =>
      Ok(Answer(text, taken + 1, question, course.turns, [Opening(Some(text), [])], usage))
    case Failed(error) => Err(ProviderError(error))
    case Exhausted =>
      var limit := Says(User, STEP_LIMIT);
      var last := w.provider(max, start + FlatMap(RunMessages, course.turns) + [limit], false);
      var words := LastWords(last);
      if words.Some? then Ok(Answer(words.value, max, question, course.turns, [limit], last.value.usage))
      else Err(MaxIterations(max))
  }

  function RunCourse(w: World, prior: seq<Message>, question: string, max: nat): Course {
    CourseFrom(w, prior + [Says(User, question)], 0, max, true)
  }

  function RunResult(w: World, prior: seq<Message>, question: string, max: nat): Result<Outcome, AgentError> {
    Concluded(w, prior + [Says(User, question)], question, max, RunCourse(w, prior, question, max))
  }

  // ----- What the stream returns ------------------------------------------------------

  function ToolRow(name: string, preview: string): string { "[tool] " + name + " \U{2192} " + preview }

  function StepRow(s: Step): string { ToolRow(s.call.name, Preview(s.output.text)) }

  function StepRows(steps: seq<Step>): seq<string> { seq(|steps|, i requires 0 <= i < |steps| => StepRow(steps[i])) }

  function Thinking(said: Option<string>): seq<string> {
    if Spoken(said) then ["[thinking] " + said.value] else []
  }

  function Rows(t: Turn): seq<string> { Thinking(t.said) + StepRows(t.steps) }

  function Closing(end: End): seq<string> {
    if end.Answered? then ["[answer] " + end.text] else []
  }

  function StreamCourse(w: World, question: string, max: nat): Course {
    CourseFrom(w, [Says(User, question)], 0, max, false)
  }

  function StreamResult(w: World, question: string, max: nat): Result<seq<string>, AgentError> {
    var course := StreamCourse(w, question, max);
    if course.end.Failed? then Err(ProviderError(course.end.error))
    else
      var rows := FlatMap(Rows, course.turns) + Closing(course.end);
      Ok(if rows == [] then ["[error] no response from model"] else rows)
  }

  // ----- The two loops ------------------------------------------------------------------

  lemma StepsSnoc(w: World, h: seq<Message>, calls: seq<ToolCall>, k: nat)
    requires k < |calls|
    ensures Steps(w, h, calls[..k + 1])
         == Steps(w, h, calls[..k]) + [Step(calls[k], w.dispatch(h + Replies(Steps(w, h, calls[..k])), calls[k]))]
  {
    assert calls[..k + 1][..k] == calls[..k];
  }

  /** The calls of one turn, with the run's bookkeeping. */
  method RunCalls(w: World, calls: seq<ToolCall>, asking: seq<Message>, traced: seq<Trace>)
      returns (history: seq<Message>, toolTrace: seq<Trace>)
    ensures history == asking + Replies(Steps(w, asking, calls))
    ensures toolTrace == traced + Traces(Turn(None, Steps(w, asking, calls), None))
  {
    history, toolTrace := asking, traced;
    var k := 0;
    while k < |calls|
      invariant k <= |calls|
      invariant history == asking + Replies(Steps(w, asking, calls[..k]))
      invariant toolTrace == traced + Traces(Turn(None, Steps(w, asking, calls[..k]), None))
    {
      var call := calls[k];
      var output := w.dispatch(history, call);
      StepsSnoc(w, asking, calls, k);
      toolTrace := toolTrace + [Trace(call.name, call.arguments, output.isError, Preview(output.text))];
      history := history + [Message(Tool, ToolResult(call.id, output.text, output.isError))];
      k := k + 1;
    }
    assert calls[..k] == calls;
  }

  /** A turn that is no answer: its calls are run, or, when there are none, the model is nudged. */
  method TakeTurn(w: World, said: Option<string>, calls: seq<ToolCall>, ghost turn: Turn, before: seq<Message>,
                  traced: seq<Trace>)
      returns (history: seq<Message>, toolTrace: seq<Trace>)
    requires turn.said == said && turn.steps == Steps(w, before + [Opening(said, calls)], calls)
    ensures history == before + RunMessages(turn)
    ensures toolTrace == traced + Traces(turn)
  {
    history, toolTrace := before + [Opening(said, calls)], traced;
    assert |turn.steps| == |calls|;
    if calls == [] {
      history := history + [Says(User, NUDGE)];
    } else {
      history, toolTrace := RunCalls(w, calls, history, toolTrace);
    }
  }

  /** The closing of a run: the answer joins the history, and the part the run added is split off. */
  method Conclude(prior: seq<Message>, question: string, ghost turns: seq<Turn>, ghost closing: seq<Message>,
                  ghost usage: Option<Usage>, history: seq<Message>, text: string, iterations: nat,
                  toolTrace: seq<Trace>, promptTokens: int, completionTokens: int)
      returns (o: Outcome)
    requires history == prior + [Says(User, question)] + FlatMap(RunMessages, turns) + closing
    requires toolTrace == FlatMap(Traces, turns)
    requires promptTokens == SumOf(TurnPrompt, turns) + PromptTokens(usage)
    requires completionTokens == SumOf(TurnCompletion, turns) + CompletionTokens(usage)
    ensures o == Answer(text, iterations, question, turns, closing, usage)
  {
    var longer := history + [Says(Assistant, text)];
    o := Outcome(text, iterations, toolTrace, longer[|prior|..], promptTokens, completionTokens);
  }

  /** The budget is spent: one call without tools, whose words are the answer if it has any. */
  method LastCall(w: World, question: string, prior: seq<Message>, max: nat, ghost turns: seq<Turn>,
                  gathered: seq<Message>, toolTrace: seq<Trace>, promptTokens: int, completionTokens: int)
      returns (r: Result<Outcome, AgentError>)
    requires RunCourse(w, prior, question, max) == Course(turns, Exhausted)
    requires gathered == prior + [Says(User, question)] + FlatMap(RunMessages, turns)
    requires toolTrace == FlatMap(Traces, turns)
    requires promptTokens == SumOf(TurnPrompt, turns) && completionTokens == SumOf(TurnCompletion, turns)
    ensures r == RunResult(w, prior, question, max)
  {
    var history := gathered + [Says(User, STEP_LIMIT)];
    var last := w.provider(max, history, false);
    var words := LastWords(last);
    if words.None? {
      return Err(MaxIterations(max));
    }
    var usage := last.value.usage;
    var outcome := Conclude(prior, question, turns, [Says(User, STEP_LIMIT)], usage, history, words.value, max, toolTrace,
                            promptTokens + PromptTokens(usage), completionTokens + CompletionTokens(usage));
    return Ok(outcome);
  }

  /** The run's result once the next response ends it. */
  lemma EndsHere(w: World, prior: seq<Message>, question: string, max: nat, turns: seq<Turn>, history: seq<Message>)
    requires |turns| < max
    requires RunCourse(w, prior, question, max) == After(turns, CourseFrom(w, history, |turns|, max, true))
    ensures var resp := w.provider(|turns|, history, true);
      var r, n := RunResult(w, prior, question, max), |turns| + 1;
      && (resp.Err? ==> r == Err(ProviderError(resp.error)))
      && (resp.Ok? && resp.value.Final? ==> r == Ok(Answer(resp.value.text, n, question, turns, [], resp.value.usage)))
      && (resp.Ok? && resp.value.ToolCalls? && resp.value.calls == [] && Spoken(resp.value.said) ==>
            r == Ok(Answer(resp.value.said.value, n, question, turns, [Opening(resp.value.said, [])], resp.value.usage)))
      && (resp.Err? || resp.value.Final? || (resp.value.calls == [] && Spoken(resp.value.said)) ==>
            |RunCourse(w, prior, question, max).turns| == |turns|)
  {
    assert turns + [] == turns;
  }

  method RunWithCfg(w: World, question: string, prior: seq<Message>, max: nat)
      returns (r: Result<Outcome, AgentError>, asked: nat)
    ensures (r, asked) == (RunResult(w, prior, question, max), |RunCourse(w, prior, question, max).turns| + 1)
  {
    var history := prior + [Says(User, question)];
    var toolTrace: seq<Trace> := [];
    var promptTokens, completionTokens := 0, 0;
    asked := 0;

    ghost var start := history;
    ghost var turns: seq<Turn> := [];
    ghost var course := RunCourse(w, prior, question, max);
    var iteration := 0;
    while iteration < max
      invariant iteration == asked == |turns| <= max
      invariant history == start + FlatMap(RunMessages, turns)
      invariant toolTrace == FlatMap(Traces, turns)
      invariant promptTokens == SumOf(TurnPrompt, turns)
      invariant completionTokens == SumOf(TurnCompletion, turns)
      invariant course == After(turns, CourseFrom(w, history, iteration, max, true))
    {
      var resp := w.provider(iteration, history, true);
      asked := asked + 1;
      if resp.Err? {
        EndsHere(w, prior, question, max, turns, history);
        return Err(ProviderError(resp.error)), asked;
      }
      var usage := resp.value.usage;
      promptTokens, completionTokens := promptTokens + PromptTokens(usage), completionTokens + CompletionTokens(usage);
      if resp.value.Final? {
        var text := resp.value.text;
        EndsHere(w, prior, question, max, turns, history);
        var outcome := Conclude(prior, question, turns, [], usage, history, text, iteration + 1, toolTrace,
                                promptTokens, completionTokens);
        return Ok(outcome), asked;
      }
      var said, calls := resp.value.said, resp.value.calls;
      if calls == [] && Spoken(said) {
        EndsHere(w, prior, question, max, turns, history);
        var outcome := Conclude(prior, question, turns, [Opening(said, calls)], usage, history + [Opening(said, calls)],
                                said.value, iteration + 1, toolTrace, promptTokens, completionTokens);
        return Ok(outcome), asked;
      }
      ghost var before := history;
      ghost var turn := Turn(said, Steps(w, history + [Opening(said, calls)], calls), usage);
      history, toolTrace := TakeTurn(w, said, calls, turn, history, toolTrace);
      TurnTaken(w, start, turns, turn, before, history, iteration, max);
      TurnCounted(turns, turn);
      turns := turns + [turn];
      iteration := iteration + 1;
    }
    assert course == Course(turns, Exhausted);
    r := LastCall(w, question, prior, max, turns, history, toolTrace, promptTokens, completionTokens);
    asked := asked + 1;
  }

  lemma TurnCounted(turns: seq<Turn>, turn: Turn)
    ensures FlatMap(Traces, turns + [turn]) == FlatMap(Traces, turns) + Traces(turn)
    ensures SumOf(TurnPrompt, turns + [turn]) == SumOf(TurnPrompt, turns) + PromptTokens(turn.usage)
    ensures SumOf(TurnCompletion, turns + [turn]) == SumOf(TurnCompletion, turns) + CompletionTokens(turn.usage)
  {
    FlatMapSnoc(Traces, turns, turn);
    SumOfSnoc(TurnPrompt, turns, turn);
    SumOfSnoc(TurnCompletion, turns, turn);
  }

  lemma TurnTaken(w: World, start: seq<Message>, turns: seq<Turn>, turn: Turn, before: seq<Message>,
                  after: seq<Message>, n: nat, max: nat)
    requires before == start + FlatMap(RunMessages, turns)
    requires n < max && w.provider(n, before, true) == Ok(ToolCalls(turn.said, CallsIn(turn.steps), turn.usage))
    requires !(turn.steps == [] && Spoken(turn.said))
    requires turn.steps == Steps(w, before + [Request(turn)], CallsIn(turn.steps))
    requires after == before + RunMessages(turn)
    ensures after == start + FlatMap(RunMessages, turns + [turn])
    ensures After(turns, CourseFrom(w, before, n, max, true))
         == After(turns + [turn], CourseFrom(w, after, n + 1, max, true))
  {
    FlatMapSnoc(RunMessages, turns, turn);
    Associative(start, FlatMap(RunMessages, turns), RunMessages(turn));
    NextTurn(w, turns, turn, before, n, max, true);
  }

  /** The calls of one turn, with a row for each. */
  method StreamCalls(w: World, calls: seq<ToolCall>, asking: seq<Message>, shown: seq<string>)
      returns (history: seq<Message>, out: seq<string>)
    ensures history == asking + Replies(Steps(w, asking, calls))
    ensures out == shown + StepRows(Steps(w, asking, calls))
  {
    history, out := asking, shown;
    var k := 0;
    while k < |calls|
      invariant k <= |calls|
      invariant history == asking + Replies(Steps(w, asking, calls[..k]))
      invariant out == shown + StepRows(Steps(w, asking, calls[..k]))
    {
      var call := calls[k];
      var output := w.dispatch(history, call);
      StepsSnoc(w, asking, calls, k);
      out := out + [ToolRow(call.name, Preview(output.text))];
      history := history + [Message(Tool, ToolResult(call.id, output.text, output.isError))];
      k := k + 1;
    }
    assert calls[..k] == calls;
  }

  method RunStreamWithCfg(w: World, question: string, max: nat) returns (r: Result<seq<string>, AgentError>)
    ensures r == StreamResult(w, question, max)
  {
    var history := [Says(User, question)];
    var out: seq<string> := [];

    ghost var start := history;
    ghost var turns: seq<Turn> := [];
    ghost var course := StreamCourse(w, question, max);
    var iteration, answered := 0, false;
    while iteration < max
      invariant iteration == |turns| <= max
      invariant history == start + FlatMap(StreamMessages, turns)
      invariant out == FlatMap(Rows, turns)
      invariant course == After(turns, CourseFrom(w, history, iteration, max, false))
    {
      var resp := w.provider(iteration, history, true);
      if resp.Err? {
        assert course == Course(turns, Failed(resp.error));
        return Err(ProviderError(resp.error));
      }
      if resp.value.Final? {
        assert course == Course(turns, Answered(resp.value.text, resp.value.usage));
        history := history + [Says(Assistant, resp.value.text)];
        out := out + ["[answer] " + resp.value.text];
        answered := true;
        break;
      }
      var said, calls := resp.value.said, resp.value.calls;
      ghost var before, shown := history, out;
      if Spoken(said) {
        out := out + ["[thinking] " + said.value];
      }
      assert out == shown + Thinking(said);
      history := history + [Opening(said, calls)];
      ghost var turn := Turn(said, Steps(w, history, calls), resp.value.usage);
      history, out := StreamCalls(w, calls, history, out);
      NextTurn(w, turns, turn, before, iteration, max, false);
      TurnShown(start, turns, turn, before, history, shown, out);
      turns := turns + [turn];
      iteration := iteration + 1;
    }
    assert course.turns == turns && !course.end.Failed? && out == FlatMap(Rows, turns) + Closing(course.end);
    if out == [] {
      out := ["[error] no response from model"];
    }
    return Ok(out);
  }

  lemma TurnShown(start: seq<Message>, turns: seq<Turn>, turn: Turn, before: seq<Message>, after: seq<Message>,
                  shown: seq<string>, out: seq<string>)
    requires before == start + FlatMap(StreamMessages, turns)
    requires after == before + [Request(turn)] + Replies(turn.steps)
    requires shown == FlatMap(Rows, turns) && out == shown + Thinking(turn.said) + StepRows(turn.steps)
    ensures after == before + StreamMessages(turn)
    ensures after == start + FlatMap(StreamMessages, turns + [turn])
    ensures out == FlatMap(Rows, turns + [turn])
  {
    FlatMapSnoc(StreamMessages, turns, turn);
    Associative(start, FlatMap(StreamMessages, turns), StreamMessages(turn));
    FlatMapSnoc(Rows, turns, turn);
    Associative(shown, Thinking(turn.said), StepRows(turn.steps));
  }
}
