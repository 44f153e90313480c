/**
 What the two loops answer, in terms of what the provider said: the response that
 ended the loop, the call after a spent budget, the tokens of all responses, and the
 messages and rows each tool turn adds.
 */
module AgentAnswers {
  import opened Common
  import opened Wire
  import opened AgentLoop
  import opened AgentLaws

  // ----- One turn ---------------------------------------------------------------------

  /** A preview is the output itself, or its first 2000 characters and an ellipsis. */
  lemma PreviewIs(output: string)
    ensures |output| <= 2000 ==> Preview(output) == output
    ensures |output| > 2000 ==> |Preview(output)| == 2001 && Preview(output)[..2000] == output[..2000]
                                && Preview(output)[2000..] == "\U{2026}"
  {
  }

  /** The request with all its calls, then one result for each in order; without calls, the run adds the nudge. */
  lemma TurnAdds(t: Turn)
    ensures var stream, run := StreamMessages(t), RunMessages(t);
      && |stream| == |t.steps| + 1
      && stream[0] == Message(Assistant, WithTools(t.said, stream[0].content.calls))
      && |stream[0].content.calls| == |t.steps|
      && (forall k | 0 <= k < |t.steps| ::
            && stream[0].content.calls[k] == t.steps[k].call
            && stream[k + 1]
               == Message(Tool, ToolResult(t.steps[k].call.id, t.steps[k].output.text, t.steps[k].output.isError)))
      && run == stream + (if |t.steps| == 0 then [Message(User, Text(NUDGE))] else [])
  {
    assert t.steps == [] ==> Replies(t.steps) == [];
  }

  /** Nonempty words as a thought, then a row for each call. */
  lemma TurnShows(t: Turn)
    ensures var thought := t.said.Some? && t.said.value != "";
      && |Rows(t)| == |t.steps| + (if thought then 1 else 0)
      && (thought ==> Rows(t)[0] == "[thinking] " + t.said.value)
      && forall k | 0 <= k < |t.steps| ::
           Rows(t)[|Rows(t)| - |t.steps| + k]
             == "[tool] " + t.steps[k].call.name + " \U{2192} " + Preview(t.steps[k].output.text)
  {
  }

  // ----- The course as responses --------------------------------------------------------

  /** A turn of the run with no calls had no words either: with words it would have been the answer. */
  lemma {:induction false} SilentIfEmpty(w: World, h: seq<Message>, n: nat, max: nat, i: nat)
    requires n <= max && i < |CourseFrom(w, h, n, max, true).turns|
    ensures var t := CourseFrom(w, h, n, max, true).turns[i];
      t.steps == [] ==> t.said == None || t.said == Some("")
    decreases max - n
  {
    FirstTurn(w, h, n, max, true, CourseFrom(w, h, n, max, true).turns);
    var turns := CourseFrom(w, h, n, max, true).turns;
    if i > 0 {
      OtherTurns(w, h, n, max, true);
      SilentIfEmpty(w, h + RunMessages(turns[0]), n + 1, max, i - 1);
      assert turns[1..][i - 1] == turns[i];
    } else {
      assert turns[0].steps == [] ==> CallsIn(turns[0].steps) == [];
    }
  }

  /** The response with which a loop that has not spent its budget ends. */
  lemma EndIsAResponse(w: World, h: seq<Message>, max: nat, nudges: bool, c: Course, before: seq<Message>)
    requires c == CourseFrom(w, h, 0, max, nudges) && before == h + Messages(c.turns, nudges)
    ensures |c.turns| == max <==> c.end.Exhausted?
    ensures var resp := w.provider(|c.turns|, before, true);
      |c.turns| < max ==>
        && (resp.Err? ==> c.end == Failed(resp.error))
        && (resp.Ok? && resp.value.Final? ==> c.end == Answered(resp.value.text, resp.value.usage))
        && (resp.Ok? && resp.value.ToolCalls? ==>
              && nudges && resp.value.calls == [] && resp.value.said.Some? && resp.value.said.value != ""
              && c.end == SpokeWithoutCalls(resp.value.said.value, resp.value.usage))
  {
    var k := |c.turns|;
    assert c.turns[..k] == c.turns && c.turns[k..] == [];
    CourseGoesOn(w, h, 0, max, nudges, k, c.turns, before, k);
  }

  // ----- What the run answers -------------------------------------------------------------

  /** An answer: its text, its iterations, and the messages it adds, which are the question, the turns', `closing` and itself. */
  predicate Answers(r: Result<Outcome, AgentError>, text: string, iterations: nat, question: string, turns: seq<Turn>,
                    closing: seq<Message>)
  {
    && r.Ok? && r.value.text == text && r.value.iterations == iterations
    && r.value.newTurns
       == [Message(User, Text(question))] + FlatMap(RunMessages, turns) + closing + [Message(Assistant, Text(text))]
  }

  /**
   A run whose budget is not spent ends with the first response that is an error, a
   final text, or words without calls, and returns just that.
   */
  lemma RunEndsWith(w: World, prior: seq<Message>, question: string, max: nat, turns: seq<Turn>)
    requires turns == RunCourse(w, prior, question, max).turns && |turns| < max
    ensures var before := prior + [Message(User, Text(question))] + FlatMap(RunMessages, turns);
      var r, resp := RunResult(w, prior, question, max), w.provider(|turns|, before, true);
      && (resp.Err? ==> r == Err(ProviderError(resp.error)))
      && (resp.Ok? && resp.value.Final? ==> Answers(r, resp.value.text, |turns| + 1, question, turns, []))
      && (resp.Ok? && resp.value.ToolCalls? ==>
            var said := resp.value.said;
            && resp.value.calls == [] && said.Some? && said.value != ""
            && Answers(r, said.value, |turns| + 1, question, turns, [Message(Assistant, WithTools(said, []))]))
  {
    var start := prior + [Says(User, question)];
    EndIsAResponse(w, start, max, true, RunCourse(w, prior, question, max), start + FlatMap(RunMessages, turns));
  }

  /**
   When the budget is spent the provider is asked once more, without tools: a nonempty
   final text, or nonempty words beside calls, is the answer; anything else is the limit error.
   */
  lemma AnswerAfterBudget(w: World, prior: seq<Message>, question: string, max: nat, course: Course, limit: Message,
                          start: seq<Message>, before: seq<Message>, last: Result<Response, string>,
                          r: Result<Outcome, AgentError>)
    requires course == RunCourse(w, prior, question, max) && |course.turns| == max && limit == Says(User, STEP_LIMIT)
    requires start == prior + [Says(User, question)]
    requires before == start + FlatMap(RunMessages, course.turns) + [limit]
    requires last == w.provider(max, before, false) && r == RunResult(w, prior, question, max)
    ensures
      if last.Ok? && last.value.Final? && last.value.text != ""
      then Answers(r, last.value.text, max, question, course.turns, [limit])
      else if last.Ok? && last.value.ToolCalls? && last.value.said.Some? && last.value.said.value != ""
      then Answers(r, last.value.said.value, max, question, course.turns, [limit])
      else r == Err(MaxIterations(max))
  {
    RunConcludes(w, prior, question, max, start, course);
    WordsAfterBudget(w, start, question, max, course, limit, before, last, r);
  }

  lemma RunConcludes(w: World, prior: seq<Message>, question: string, max: nat, start: seq<Message>, course: Course)
    requires course == RunCourse(w, prior, question, max) && start == prior + [Says(User, question)]
    ensures RunResult(w, prior, question, max) == Concluded(w, start, question, max, course)
    ensures course.end.Exhausted? <==> |course.turns| == max
  {
  }

  lemma WordsAfterBudget(w: World, start: seq<Message>, question: string, max: nat, course: Course, limit: Message,
                         before: seq<Message>, last: Result<Response, string>, r: Result<Outcome, AgentError>)
    requires course.end.Exhausted? && limit == Says(User, STEP_LIMIT)
    requires before == start + FlatMap(RunMessages, course.turns) + [limit]
    requires last == w.provider(max, before, false) && r == Concluded(w, start, question, max, course)
    ensures
      if last.Ok? && last.value.Final? && last.value.text != ""
      then Answers(r, last.value.text, max, question, course.turns, [limit])
      else if last.Ok? && last.value.ToolCalls? && last.value.said.Some? && last.value.said.value != ""
      then Answers(r, last.value.said.value, max, question, course.turns, [limit])
      else r == Err(MaxIterations(max))
  {
    AfterBudget(w, start, question, max, course, limit, before, last);
    WordsDecide(r, last, max, question, course.turns, limit);
  }

  lemma WordsDecide(r: Result<Outcome, AgentError>, last: Result<Response, string>, max: nat, question: string,
                    turns: seq<Turn>, limit: Message)
    requires r == match LastWords(last)
                  case Some(text) => Ok(Answer(text, max, question, turns, [limit], last.value.usage))
                  case None => Err(MaxIterations(max))
    ensures
      if last.Ok? && last.value.Final? && last.value.text != ""
      then Answers(r, last.value.text, max, question, turns, [limit])
      else if last.Ok? && last.value.ToolCalls? && last.value.said.Some? && last.value.said.value != ""
      then Answers(r, last.value.said.value, max, question, turns, [limit])
      else r == Err(MaxIterations(max))
  {
    if LastWords(last).Some? {
      AnswerAnswers(LastWords(last).value, max, question, turns, [limit], last.value.usage);
    }
  }

  lemma AfterBudget(w: World, start: seq<Message>, question: string, max: nat, course: Course, limit: Message,
                    before: seq<Message>, last: Result<Response, string>)
    requires course.end.Exhausted? && limit == Says(User, STEP_LIMIT)
    requires before == start + FlatMap(RunMessages, course.turns) + [limit] && last == w.provider(max, before, false)
    ensures Concluded(w, start, question, max, course)
         == match LastWords(last)
            case Some(text) => Ok(Answer(text, max, question, course.turns, [limit], last.value.usage))
            case None => Err(MaxIterations(max))
  {
  }

  lemma AnswerAnswers(text: string, iterations: nat, question: string, turns: seq<Turn>, closing: seq<Message>,
                      usage: Option<Usage>)
    ensures Answers(Ok(Answer(text, iterations, question, turns, closing, usage)), text, iterations, question, turns, closing)
  {
  }

  // ----- Tokens -----------------------------------------------------------------------------

  function Total(counts: seq<int>): int { if counts == [] then 0 else counts[0] + Total(counts[1..]) }

  lemma {:induction false} TotalOfTurns(turns: seq<Turn>, f: Turn -> int, last: int, counts: seq<int>)
    requires |counts| == |turns| + 1 && counts[|turns|] == last && forall i | 0 <= i < |turns| :: counts[i] == f(turns[i])
    ensures SumOf(f, turns) + last == Total(counts)
  {
    if turns != [] {
      TotalOfTurns(turns[1..], f, last, counts[1..]);
    } else {
      assert counts[1..] == [];
    }
  }

  predicate Counts(usage: Option<Usage>, prompt: int, completion: int) {
    match usage
    case None => prompt == 0 && completion == 0
    case Some(u) => prompt == u.prompt && completion == u.completion
  }

  /** The response that answered: the one after the turns, or, with the budget spent, the one after the limit message. */
  function LastResponse(w: World, max: nat, turns: seq<Turn>, before: seq<Message>): Result<Response, string> {
    if |turns| < max then w.provider(|turns|, before, true)
    else w.provider(max, before + [Message(User, Text(STEP_LIMIT))], false)
  }

  lemma AnswerCounts(w: World, prior: seq<Message>, question: string, max: nat, turns: seq<Turn>, before: seq<Message>)
    requires turns == RunCourse(w, prior, question, max).turns && RunResult(w, prior, question, max).Ok?
    requires before == prior + [Message(User, Text(question))] + FlatMap(RunMessages, turns)
    ensures var last, o := LastResponse(w, max, turns, before), RunResult(w, prior, question, max).value;
      && last.Ok?
      && o.promptTokens == SumOf(TurnPrompt, turns) + PromptTokens(last.value.usage)
      && o.completionTokens == SumOf(TurnCompletion, turns) + CompletionTokens(last.value.usage)
  {
    EndIsAResponse(w, prior + [Says(User, question)], max, true, RunCourse(w, prior, question, max), before);
  }

  /** The token counts of an answer are those of all responses of the run, the one that answered included. */
  lemma TokensAreCounted(w: World, prior: seq<Message>, question: string, max: nat, turns: seq<Turn>, before: seq<Message>)
    returns (prompts: seq<int>, completions: seq<int>)
    requires turns == RunCourse(w, prior, question, max).turns && RunResult(w, prior, question, max).Ok?
    requires before == prior + [Message(User, Text(question))] + FlatMap(RunMessages, turns)
    ensures |prompts| == |completions| == |turns| + 1
    ensures forall i | 0 <= i < |turns| :: Counts(turns[i].usage, prompts[i], completions[i])
    ensures var last := LastResponse(w, max, turns, before);
      last.Ok? && Counts(last.value.usage, prompts[|turns|], completions[|turns|])
    ensures var o := RunResult(w, prior, question, max).value;
      o.promptTokens == Total(prompts) && o.completionTokens == Total(completions)
  {
    AnswerCounts(w, prior, question, max, turns, before);
    var usage := LastResponse(w, max, turns, before).value.usage;
    prompts := seq(|turns|, i requires 0 <= i < |turns| => TurnPrompt(turns[i])) + [PromptTokens(usage)];
    completions := seq(|turns|, i requires 0 <= i < |turns| => TurnCompletion(turns[i])) + [CompletionTokens(usage)];
    TotalOfTurns(turns, TurnPrompt, PromptTokens(usage), prompts);
    TotalOfTurns(turns, TurnCompletion, CompletionTokens(usage), completions);
  }

  // ----- What the stream shows ----------------------------------------------------------------

  /**
   The stream shows the rows of its turns and, when a final text ends it, that text;
   an error of the provider is its only result, and with nothing to show there is one error row.
   */
  lemma StreamEndsWith(w: World, question: string, max: nat, course: Course, before: seq<Message>, rows: seq<string>,
                       resp: Result<Response, string>, r: Result<seq<string>, AgentError>)
    requires course == StreamCourse(w, question, max) && rows == FlatMap(Rows, course.turns)
    requires before == [Message(User, Text(question))] + FlatMap(StreamMessages, course.turns)
    requires resp == w.provider(|course.turns|, before, true) && r == StreamResult(w, question, max)
    ensures
      if |course.turns| == max then r == Ok(if rows == [] then ["[error] no response from model"] else rows)
      else if resp.Err? then r == Err(ProviderError(resp.error))
      else resp.value.Final? && r == Ok(rows + ["[answer] " + resp.value.text])
  {
    EndIsAResponse(w, [Says(User, question)], max, false, course, before);
    StreamShows(w, question, max, course, rows);
  }

  lemma StreamShows(w: World, question: string, max: nat, course: Course, rows: seq<string>)
    requires course == StreamCourse(w, question, max) && rows == FlatMap(Rows, course.turns)
    ensures var r := StreamResult(w, question, max);
      if course.end.Failed? then r == Err(ProviderError(course.end.error))
      else if course.end.Answered? then r == Ok(rows + ["[answer] " + course.end.text])
      else r == Ok(if rows == [] then ["[error] no response from model"] else rows)
  {
    assert rows + [] == rows;
  }
}
