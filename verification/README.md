# Verified models of pg_ask

pg_ask puts a language-model agent inside PostgreSQL. This project models the parts of it
whose guarantees are decided by its own code, and proves them for all inputs, all runs and
all interleavings. `dafny verify dfyconfig.toml` checks everything.

- **Job queue.** `JobTable` has the table and its SQL helpers, `JobProtocol` the state machine of
  any number of backends that claim, run, record, vanish and are recovered from, `JobRuns` that it gets jobs done, `JobDrain`,
  `JobProgress` and `JobRetries` the synchronous drain, its progress and what retries cost, `JobWorker` a pass of
  the background worker.
- **Event outbox.** `Outbox` has the flood control of `_outbox_emit` under overlapping
  transactions, at READ COMMITTED, with a lock held to the end of the transaction or savepoint.
- **SQL guard.** `SqlLexer` is the tokenizer, `SqlLexerLaws` its printing laws, `SqlLexerCuts` its
  locality, `SqlGuard` the token rules, `SqlCase` what letter case does to a text, `SqlComments` what
  nested comments do. Strings stand for bytes here.
- **User-defined tools.** `TemplatePlan` compiles templates to parameterised SQL, `TemplateMeaning`
  says what a plan means, `TemplateErrors` what is refused and what is bound, `SqlReader` has PostgreSQL's lexical rules as far as it takes to find parameters,
  `ParamReader` the theory of reading them back, `SqlParams` joins the two, and `TemplateReadback` says for which
  templates the rewritten text reads back as meant.
- **Agent loop.** `AgentLoop` has the blocking run and the stream over an arbitrary provider and
  dispatcher, `AgentAnswers` what they answer, `AgentLaws` the shape of histories and how the two loops agree. `Wire` has the messages.
- **Sessions.** `SessionStore` saves and loads messages, `SessionLog` is the table of one session under
  concurrent appends and clears, `SessionClears` that these take effect.
- **Schema dump.** `SchemaText` renders and scans it, `SchemaLines` gives dumps and scan line by line, `SchemaScan` says what the scan finds,
  `SearchPath` builds the `search_path` value and reads it with the tokenizer of the guard.
- **Subtransactions.** `Subtxn` is the wrapper over a stack of frames.
- **Result tables.** `TableRender` renders them, `TableLayout` has their layout and masking.

Clocks, ids, pids, users, the provider, the dispatcher, the digest, the lock hash and the jsonb
normalisation are parameters: any value or function of the right type. Where the code updates
something in place the model is a class or a loop, proved against a function that the lemmas are about.

## Where the code and its descriptions differ

The models follow the code.

- `_job_release` is described as giving a job back without consuming an attempt
  (`src/jobs/mod.rs:231-235`). The claim before it has counted one and the release does not take it back.
  A job that keeps failing is therefore run by drains only about half as often as its limit says, unless the batch
  is 1, the limit is at most 2, or the limit is 3 and the job fills the batch of the drain that first reaches it
  (`FreshJobRuns`, an exact condition for a job anywhere in any queue). The worker, which never releases, runs it exactly
  as often (`FreshFailingJob`).
- The retry guard of `drain` is described as giving fairness to other jobs (`src/jobs/mod.rs:259-266`). It ends the drain
  instead, and the job it puts back is first in line again: behind a failing head no other row moves
  in any drain until that job is failed for good (`FailingHeadHoldsTheQueue`).
- The worker's loop has no such guard: a failing job at the head takes every turn of a pass if and only if the pass
  has no more turns than the job has runs left (`OthersWaitIff`, `FailingHeadTakesThePass`).
- A body that returns an error in `run_in_subtransaction` is described as rolled back
  (`src/infra/subtxn.rs:89-90`). It is committed (`ReturnedErrorKeepsWrites`).
- The current memory context is described as restored on every exit path (`src/infra/subtxn.rs:68-70`). After a raise
  it is switched before the rollback and not after it, so it is restored if and only if the server's rollback
  leaves it alone or the caller was in its frame's own context. Which of the two the server does is a
  parameter of the model.
- A placeholder becomes a parameter wherever it stands in the template. In a constant or comment, or right after a word,
  none is read there (`HoleInConstant`, `HoleAfterWord`), and a digit right after a scalar placeholder joins its
  number: `{{a}}1` becomes `$21` (`DigitAfterHole`). `ParametersReadBackIff` says for exactly which templates PostgreSQL
  reads the parameters that were meant.
- Block comments are described as not needing to nest, since their contents do not matter to the guard
  (`src/sql_guard/lexer.rs:52-53`). Where a comment ends matters: `FirstCloserIsEnoughIff` says when the two readings agree, and
  `NestingDecides` has a statement on which the verdict depends on it.
- The rules ignore the case of words, but the text's case is not indifferent: a dollar tag is closed only by itself, so
  changing case can move the end of a literal, and the verdict (`LexemesOfLowerIff`, `CaseMovesALiteral`).
- An unterminated dollar-quoted literal is not skipped to the end: the last bytes, one fewer than its tag has, are
  lexed as SQL (`UnclosedDollarTail`, `UnclosedDollarDoesNotCut`).
- The scan of a full schema dump takes a column whose name has a dot in it for a table, and a column named `TABLE` for the
  prefix of one (`TidyScan`, `OnlySchemasIfNoLeak`, `DottedColumnLeaks`). A line break in a name or a comment splits a line in two, each of
  which is read for itself (`FullScan`, `OnlySchemasIff`).
- A line feed in a cell breaks the line of the rendered table (`LinesOfTableIff`).
- A tool turn without calls but with text is an answer for the run and a thought for the stream (`EmptyTurnPartsTheLoops`); that
  is the only way for the two to part (`LockstepIff`).

## Model

| member | source | states |
|---|---|---|
| JobTable.JobStore.Submit | sql/bootstrap.sql:770-799 | refuses when jobs are off, then an unknown kind, then a question of nothing but blanks, and otherwise adds one pending row with no attempts and wakes a worker once; nothing else changes |
| JobTable.TrimTakesBlanks | sql/bootstrap.sql:779 | the stored question is the given one without the blanks at its ends |
| JobTable.JobStore.Claim | sql/bootstrap.sql:808-836 | of the pending rows of this database that nobody has locked takes the one with the least ts, and the least id among those; it is running under this pid, started now, with one attempt more; none exactly when there is no such row; no other row changes |
| JobTable.JobStore.Complete | sql/bootstrap.sql:839-870 | acts only on a running row of this backend; then the row is done with its answer and counts, its error cleared, one done-notice is sent, and no other column or row changes |
| JobTable.JobStore.Fail | sql/bootstrap.sql:879-916 | acts only on a running row of this backend; below the limit of attempts the row is pending again and a worker is woken, otherwise it is failed with a done-notice; the error is kept and no other column or row changes |
| JobTable.JobStore.RecoverOrphans | sql/bootstrap.sql:922-942 | every overdue running row of this database is pending again with pid and start cleared and its attempts kept; every other row, the key set and the notices are unchanged; none is overdue afterwards; returns the number of rows changed |
| JobTable.JobStore.CancelJob | sql/bootstrap.sql:950-967 | cancels exactly a pending or running job of the caller |
| JobTable.JobStore.ReleaseClaim | sql/bootstrap.sql:975-991 | gives a running row of this backend back, leaving the attempt counted |
| JobTable.JobStore.Prune | sql/bootstrap.sql:996-1035 | for any batch size and whatever rows each LIMIT picks: removes exactly the done, failed and cancelled rows that finished longer ago than `older_than`, as the single DELETE does, and returns by how many rows the table got smaller; terminates |
| JobProtocol.InvKept | sql/bootstrap.sql:808-991 | one invariant over rows, backends, notices and runs is kept by every step: submit, connect, vanish, claim, run, record, release, abandon, recover, cancel, prune |
| JobProtocol.InvAlways | sql/bootstrap.sql:808-991 | every reachable state has the invariant |
| JobProtocol.ResultComesFromLatestClaim | sql/bootstrap.sql:839-916 | in every reachable state `attempts` is the number of claims, and a done or failed row holds what the run started by its latest claim produced |
| JobProtocol.StaleBackendIsHarmless | sql/bootstrap.sql:845-870 | a backend whose claim is not the latest, or whose job no longer runs, changes no row and sends no notice when it records or releases |
| JobProtocol.RunsAreWrittenOnce | src/bgworker.rs:401-421 | no claim is run twice and no run's outcome is ever overwritten |
| JobProtocol.TerminalRowsAreFinal | sql/bootstrap.sql:839-1035 | only a prune touches a terminal row; a prune touches nothing else; no other step removes a row |
| JobProtocol.IdsAreMintedOnce | sql/bootstrap.sql:789-799 | a step after which an id has a row it did not have is the submission of that id, the id was never minted before, and the row is the fresh one |
| JobProtocol.FinishedForGood | sql/bootstrap.sql:839-1035 | over any run a terminal row is either unchanged or pruned |
| JobProtocol.NoJobIsLost | sql/bootstrap.sql:996-1035 | a submitted job that has no row any more was terminal at an earlier moment of the run |
| JobProtocol.DoneNoticeIsExact | sql/bootstrap.sql:855-912 | exactly one done-notice for each done or failed job, none for any other |
| JobProtocol.BudgetKept | sql/bootstrap.sql:894-913 | each step keeps claims within the limit plus recoveries plus releases, with room for one more while the job is pending |
| JobProtocol.ClaimsAreBounded | sql/bootstrap.sql:894-991 | over any run: claims <= limit + recoveries + releases |
| JobRuns.StepsTakeEffect | sql/bootstrap.sql:789-1035 | what submit, claim, record, release, recover, cancel and prune do to every row under concurrency, column by column |
| JobRuns.CountersAreExact | sql/bootstrap.sql:808-991 | claims, recoveries and releases count exactly the changes of status they are named for; the only other way from running to pending is a retry |
| JobRuns.JobIsRun | sql/bootstrap.sql:808-916 | after any run, an idle backend can claim the oldest job of its database, run it and record what came of it; that is then on the row, no other row has changed, and a done-notice is sent exactly if the job is finished |
| JobRuns.LostJobIsRunAgain | sql/bootstrap.sql:839-942 | after any run, an overdue job whose worker is lost is put back by recovery with its attempts kept and run by another backend; what the lost worker may still record leaves its row as it is |
| JobDrain.NextInLine | sql/bootstrap.sql:816-832 | after a drained prefix the next claim is the next job of the queue, or the one just put back for a retry |
| JobDrain.QueueIsOldestFirst | sql/bootstrap.sql:816-832 | the queue holds every pending job of the database once, by ts, and by id among equal ts |
| JobDrain.ExecuteClaimed | src/jobs/mod.rs:128-178 | records the outcome of the run on the claimed row alone; one done-notice exactly if it is terminal, one wake-up exactly if it is put back |
| JobDrain.Turn | src/jobs/mod.rs:270-288 | one turn: extends the drained prefix by one job, or ends the drain with an empty queue or with the re-claimed job released |
| JobDrain.Drain | src/jobs/mod.rs:267-290 | runs exactly the pending jobs in (ts, id) order up to and including the first one put back for a retry, `max`, or the end of the queue, each once, with a done-notice for each finished one |
| JobProgress.DrainOutcomes | src/jobs/mod.rs:267-290 | in columns, after a drain of n jobs: each is done with its run's answer, or failed, or, the last one alone, pending with its error and one attempt more than its run if the batch had room; and the drain stops there, at the batch or at the end of the queue |
| JobProgress.DrainTouchesOnlyItsJobs | src/jobs/mod.rs:267-290 | every other row is unchanged and no row is left running under the drain's pid |
| JobProgress.DrainLowersBudget | src/jobs/mod.rs:267-290 | a drain that finds pending work strictly lowers the sum of remaining attempts plus one over the non-terminal jobs |
| JobProgress.DrainIsDeterministic | src/jobs/mod.rs:267-290 | the promise of `Drain` fixes the resulting table |
| JobProgress.DrainsReachTerminalStates | sql/bootstrap.sql:894-913 | as many drains as the budget counts leave every job terminal, however the agent behaves |
| JobRetries.PutBack | sql/bootstrap.sql:975-991 | the job with which a drain ends because its run failed with attempts left is pending again, with one more attempt if it filled the batch and two if it did not, for that one run |
| JobRetries.PutBackIsNext | sql/bootstrap.sql:816-832 | whoever waits, that job is first in line for the next drain |
| JobRetries.FailingHeadHoldsTheQueue | src/jobs/mod.rs:251-290 | while the head of any queue fails, drain after drain runs it and moves no other row, until it is failed for good after exactly the runs its attempts allow |
| JobRetries.ReachedJobFailsAfter | src/jobs/mod.rs:251-290 | a job anywhere in the queue that always fails is failed for good by exactly so many drains from the one that first reaches it, one run each |
| JobRetries.FreshJobRuns | src/jobs/mod.rs:231-235 | a fresh job that always fails, reached at position i of any queue, is run `max_attempts` times if and only if the batch is 1, or the limit at most 2, or the limit is 3 and the job fills the batch; the number of runs in closed form otherwise |
| JobWorker.TakeTurn | src/bgworker.rs:401-421 | claims and runs the head of the queue, or nothing after SIGTERM or when nobody waits; with the table, done-notices and wake-ups of that turn |
| JobWorker.DrainOnce | src/bgworker.rs:384-423 | a pass: recovery, then at most `max(batch, 1)` turns; nothing when jobs are off; with the table, done-notices and wake-ups of the pass |
| JobWorker.TurnRunsTheOldest | src/bgworker.rs:401-421 | a turn runs the pending job with the least (ts, id) and changes no other row; none exactly after SIGTERM or with no pending job |
| JobWorker.OverdueIsRecovered | src/bgworker.rs:384-399 | a job overdue when the pass begins is put back before the first claim and is not running when the pass ends |
| JobWorker.HeadStays | sql/bootstrap.sql:816-832 | a job put back for a retry is again the first in line |
| JobWorker.StaysWithTheHead | src/bgworker.rs:401-421 | until the head is finished the pass changes no other row, and it is finished exactly after the runs it needs |
| JobWorker.PassGoesOn | src/bgworker.rs:401-421 | a pass continues from any point of it as a shorter pass |
| JobWorker.OthersWaitIff | src/bgworker.rs:399-421 | with another job waiting, a pass touches no row but the head's if and only if it has no more turns than the head needs runs, however the agent behaves |
| JobWorker.FailingHeadTakesThePass | src/bgworker.rs:399-421 | a head that always fails, with another job waiting, takes the whole pass if and only if the batch is at most 1 or no larger than the attempts it has left |
| JobWorker.FreshFailingJob | sql/bootstrap.sql:894-913 | the worker gives a fresh job that always fails exactly `max_attempts` runs |
| JobWorker.PassIsClean | src/bgworker.rs:384-423 | a pass, its recovery included, leaves no row running under its pid and touches only rows that were pending or overdue in its database |
| JobWorker.NoticesAreExact | sql/bootstrap.sql:855-912 | the turns of a pass send one done-notice for each job they finish and none for any other |
| Outbox.OutboxStore.Emit | sql/bootstrap.sql:541-657 | disabled, or invalid by name, summary or payload; else a duplicate exactly if the window is on and a visible row of this emitter and event with an equal digest is younger than it; else rate-limited exactly if the cap is on and at least `cap` such rows are younger than a minute; else it appends one row and one notification; nothing else changes |
| Outbox.NameCharacters | sql/bootstrap.sql:575-582 | the characters of an event name, spelled out |
| Outbox.LockHidesNothing | sql/bootstrap.sql:592-614 | the holder of the (emitter, event) lock sees every row of that key, committed or not |
| Outbox.SeesNoMore | sql/bootstrap.sql:616-645 | between the checks and the insert no other transaction adds to what the caller sees |
| Outbox.InsertKeepsCap | sql/bootstrap.sql:633-645 | before an insert, every minute the new row would join holds fewer rows than the cap |
| Outbox.InvKept | sql/bootstrap.sql:541-657 | the invariant over locks, calls and rows is kept by every step, savepoint rollbacks, marking and pruning included |
| Outbox.InvAlways | sql/bootstrap.sql:541-657 | every reachable state has the invariant |
| Outbox.NeverMoreThanCapPerMinute | sql/bootstrap.sql:633-645 | in every reachable state and for every time t, at most `cap` rows of one (emitter, event) lie in (t - 1 min, t], committed or pending, whatever the order of timestamps |
| Outbox.DuplicatesAreApart | sql/bootstrap.sql:616-631 | two rows with equal emitter, event and digest are at least the dedup window apart |
| Outbox.CallIsItsSteps | sql/bootstrap.sql:592-657 | an uninterrupted call of the protocol does to the table what `Emit` does |
| Outbox.StepsTakeEffect | sql/bootstrap.sql:633-760 | what insert, commit, abort, rollback to a savepoint, marking and pruning do to every row |
| Outbox.EndsFreeLocks | sql/bootstrap.sql:592-614 | a transaction that has ended holds no lock; one back at a savepoint holds what it is left with |
| Outbox.NoEventIsLost | sql/bootstrap.sql:659-715 | over any run a committed row stays as it is but for being marked processed, until a prune removes it after it was marked |
| SqlLexer.SkipUntilFrom | src/sql_guard/lexer.rs:154-164 | ends just past the first target byte, or at the end |
| SqlLexer.SkipBlockComment | src/sql_guard/lexer.rs:54-61 | ends just past the first closer, or at the end |
| SqlLexer.FindQuote | src/sql_guard/lexer.rs:66-76 | finds the first quote that is not doubled, or the end |
| SqlLexer.ReadDollarTag | src/sql_guard/lexer.rs:175-186 | recognises exactly the `$tag$` openers |
| SqlLexer.SkipDollarBody | src/sql_guard/lexer.rs:86-94 | ends just past the first recurrence of the tag, or where the tag no longer fits |
| SqlLexer.SkipWord | src/sql_guard/lexer.rs:124-131 | takes the longest run of word bytes |
| SqlLexer.NextLexeme | src/sql_guard/lexer.rs:38-144 | the end of one lexeme on any input, and which token each leading byte gives: nothing for space and comments, the text read for words and quoted identifiers, and so on |
| SqlLexer.Advance | src/sql_guard/lexer.rs:37-145 | one step of the main loop strictly advances within bounds and emits what the lexeme stands for |
| SqlLexer.Tokenize | src/sql_guard/lexer.rs:32-148 | terminates on every input, unterminated literals included, and yields its tokens |
| SqlLexer.ByteClasses | src/sql_guard/lexer.rs:100-186 | which bytes start and continue words and tags, spelled out |
| SqlLexerLaws.QuoteEndIs | src/sql_guard/lexer.rs:66-76 | what the scan for the closing quote passes over is some text with every quote doubled, and it stops at a single one |
| SqlLexerLaws.TagLengthIs | src/sql_guard/lexer.rs:175-186 | an opener is a dollar sign, letters, digits or underscores, and the next dollar sign; there is none exactly when something else comes before every later dollar sign |
| SqlLexerLaws.CloseEndIs | src/sql_guard/lexer.rs:86-94 | a body ends just past the first recurrence of its tag, and without one where the tag no longer fits |
| SqlLexerLaws.LexOfPrint | src/sql_guard/lexer.rs:32-148 | tokenizing the printed form of any well-formed token list gives the list back |
| SqlLexerLaws.LexedIsWellFormed | src/sql_guard/lexer.rs:100-133 | every token list the tokenizer produces is well-formed |
| SqlLexerLaws.LexPrintLex | src/sql_guard/lexer.rs:32-148 | printing is a normal form: lexing, printing and lexing again changes nothing |
| SqlLexerCuts.LexOfCut | src/sql_guard/lexer.rs:37-145 | the tokenizer can be resumed at a clean boundary |
| SqlLexerCuts.ContentsAreOpaque | src/sql_guard/lexer.rs:46-98 | of a closed literal between texts only a string token remains, of a closed comment nothing |
| SqlLexerCuts.UnclosedDollarTail | src/sql_guard/lexer.rs:86-94 | of an unclosed dollar literal the last |tag| - 1 bytes are not skipped |
| SqlLexerCuts.UnclosedDollarDoesNotCut | src/sql_guard/lexer.rs:86-94 | an input on which that changes the tokens: a blank after it swallows a word |
| SqlComments.FirstCloserIsEnoughIff | src/sql_guard/lexer.rs:52-61 | stopping a comment at its first closer agrees with counting nested comments if and only if no comment opens before that closer or nothing follows it |
| SqlComments.NestingDecides | src/sql_guard/lexer.rs:52-54 | a statement on which it does not: after the comment as SQL reads it stands a banned call, which the tokenizer has in a string, and the statement passes |
| SqlGuard.SingleStatement | src/sql_guard/rules.rs:60-79 | rejects exactly the token lists with something other than a semicolon after a semicolon |
| SqlGuard.NoBannedFunctions | src/sql_guard/rules.rs:106-125 | rejects exactly the token lists in which a banned name stands before a parenthesis, naming the first |
| SqlGuard.LeafIsLastSegment | src/sql_guard/rules.rs:115-116 | the compared name is the part after the last dot |
| SqlGuard.CheckWith | src/sql_guard/mod.rs:64-72 | accepts exactly when nothing but semicolons follows a semicolon, the first word, lower-cased, is not `copy` and is on the list of its mode, and no word or quoted identifier before a parenthesis has a banned last segment |
| SqlGuard.RejectionIs | src/sql_guard/rules.rs:60-125 | which rejection it is, with the verb or the name it carries |
| SqlGuard.FirstWordIff | src/sql_guard/rules.rs:127-132 | the verb is the first word token of the list |
| SqlGuard.LowerLetters | src/sql_guard/rules.rs:84-116 | lower-casing maps each capital to the letter at its place of the alphabet and leaves everything else |
| SqlGuard.Check | src/sql_guard/rules.rs:13-58 | the same with the repository's lists of verbs and functions |
| SqlGuard.VerdictIgnoresContents | src/sql_guard/rules.rs:60-125 | replacing the contents of a closed literal or comment never changes tokens or verdict |
| SqlGuard.VerdictIgnoresComments | src/sql_guard/rules.rs:60-125 | removing a closed comment at a clean boundary changes neither |
| SqlGuard.VerdictIgnoresCase | src/sql_guard/rules.rs:81-125 | the letter case of tokens never changes the verdict |
| SqlCase.LexemesOfLowerIff | src/sql_guard/lexer.rs:79-98 | lower-casing a text lower-cases its lexemes and moves none if and only if every dollar-quoted literal met ends at the first tag in whatever case, if there is one |
| SqlCase.ClosedLiteralIff | src/sql_guard/lexer.rs:86-94 | for a closed literal: if and only if no tag in another case stands before the closing one |
| SqlCase.VerdictIgnoresCaseOfText | src/sql_guard/rules.rs:81-125 | on such texts, all without a dollar sign among them, letter case changes neither the tokens but for theirs nor the verdict |
| SqlCase.CaseMovesALiteral | src/sql_guard/lexer.rs:86-94 | a text that is one statement and in lower case is not: its literal closes earlier |
| TemplatePlan.ParseIsFaithful | src/tools/user_defined.rs:180-199 | the pieces found by the scan put together give the template |
| TemplatePlan.HoleAt | src/tools/user_defined.rs:216-223 | finds the next placeholder after the cursor and the index just past it |
| TemplatePlan.CollectKeys | src/tools/user_defined.rs:180-199 | first pass: every key once, in order of appearance, or the first error |
| TemplatePlan.Rewrite | src/tools/user_defined.rs:210-239 | second pass: neither lookup can fail, and the result is the text of the segments |
| TemplatePlan.BuildPlan | src/tools/user_defined.rs:163-245 | the plan, or the first of the errors, for any template and arguments |
| TemplateErrors.TrimTakesWhite | src/tools/user_defined.rs:188 | a key is what is between the braces without the white space at its ends |
| TemplateErrors.ParseIsExact | src/tools/user_defined.rs:180-199 | the pieces of a template that parses are cut at the first pairs of braces; one that does not is, after some proper pieces, at a hole that is never closed or has nothing but white space in it, and the error says which |
| TemplateErrors.MissingArgumentIff | src/tools/user_defined.rs:201-208 | a template that parses is refused exactly for the first hole, in the text, whose key is no argument |
| TemplateErrors.NonObjectIff | src/tools/user_defined.rs:163-176 | arguments that are no object are refused exactly when two opening braces stand together in the template |
| TemplateErrors.ArgumentsAreBound | src/tools/user_defined.rs:201-269 | each hole stands for the value bound for its argument: null, boolean, string, the number as integer if it is one, else as float, else as text, and composites as jsonb, which alone are cast |
| TemplateMeaning.PlanPreservesMeaning | src/tools/user_defined.rs:163-245 | binding the values to `$2..` in the rewritten segments equals putting the arguments into the holes; cast exactly for arrays and objects |
| TemplateMeaning.NumberingIsByFirstAppearance | src/tools/user_defined.rs:180-229 | distinct keys numbered by first appearance, every number used |
| TemplateMeaning.TextDependsOnShapeOnly | src/tools/user_defined.rs:210-265 | two argument objects that are composite at the same keys give the same SQL text |
| ParamReader.ReadBackIff | src/tools/user_defined.rs:210-239 | of texts with parameters between them a lexer that does not look past the end of a lexeme reads exactly these parameters, where they stand, if and only if it reads none in the texts, each ends cleanly before a `$`, and none after a parameter starts with a digit |
| TemplateReadback.SegmentsReadBackIff | src/tools/user_defined.rs:210-239 | the same for the segments of a plan and PostgreSQL's lexical rules, whatever a cast adds around a parameter |
| TemplateReadback.ParametersReadBackIff | src/tools/user_defined.rs:210-239 | PostgreSQL reads exactly the parameters that stand for the holes, where they stand, if and only if in no literal of the template a parameter is read, every hole stands where a lexeme ends before a `$` (in no constant or comment, nor right after a word or an open dollar tag), and no digit follows a hole that is not cast |
| TemplateReadback.HoleInConstant | src/tools/user_defined.rs:233-236 | in `'$2'`, which `'{{a}}'` becomes, no parameter is read |
| TemplateReadback.HoleAfterWord | src/tools/user_defined.rs:233-236 | in `x$2`, which `x{{a}}` becomes, no parameter is read |
| TemplateReadback.DigitAfterHole | src/tools/user_defined.rs:233-236 | `{{a}}1` with a number for `a` becomes `$21`, which is parameter 21 |
| AgentLoop.RunCalls | src/agent/run.rs:205-225 | runs the calls in order, each seeing the results before it, with one result message and one trace entry per call |
| AgentLoop.TakeTurn | src/agent/run.rs:163-225 | what a tool turn adds: request and results, or request and nudge |
| AgentLoop.LastCall | src/agent/run.rs:230-277 | after the budget: one call without tools whose nonempty words are the answer, else the limit error |
| AgentLoop.RunWithCfg | src/agent/run.rs:75-278 | the result is that of the run's course, and the provider is called once more than there were tool turns |
| AgentLoop.StreamCalls | src/agent/stream.rs:105-131 | the same calls with one row of text each |
| AgentLoop.RunStreamWithCfg | src/agent/stream.rs:40-141 | the rows are those of the stream's course, or the one error row when there would be none |
| AgentAnswers.TurnAdds | src/agent/run.rs:163-225 | a turn adds the request with its calls, a result for each with its id, text and error flag, and for a turn without calls the nudge |
| AgentAnswers.TurnShows | src/agent/stream.rs:87-131 | a turn shows its nonempty words as a thought and a row with name and preview for each call |
| AgentAnswers.PreviewIs | src/telemetry/mod.rs:59 | a preview is the output, or its first 2000 characters and an ellipsis |
| AgentAnswers.EndIsAResponse | src/agent/run.rs:123-203 | a loop with budget left ends with the response to the history of its turns: an error, a final text, or, for the run, words without calls |
| AgentAnswers.RunEndsWith | src/agent/run.rs:123-203 | with budget left the run returns that error, or that text with the number of its calls to the provider and the messages added |
| AgentAnswers.AnswerAfterBudget | src/agent/run.rs:230-277 | with the budget spent, a nonempty final text, or nonempty words beside calls, of one more response without tools is the answer; anything else is the limit error |
| AgentAnswers.TokensAreCounted | src/agent/run.rs:128-146 | the token counts of an answer are the sums over all responses of the run, the one that answered included |
| AgentAnswers.StreamEndsWith | src/agent/stream.rs:40-141 | the stream shows the rows of its turns and the final text if one ends it; a provider error is its only result; with nothing to show there is one error row |
| AgentLaws.HistoryIsWellFormed | src/agent/run.rs:113-277 | new turns start with the question and end with the answer; every call is answered at once, in order, once; a well-formed prior history stays so; at most max + 1 provider calls |
| AgentLaws.EveryCallIsTraced | src/agent/run.rs:205-225 | `tool_calls`, the calls and the results in the new turns match one for one: name, arguments, id, error flag, preview |
| AgentLaws.TurnsAreResponses | src/agent/run.rs:123-226 | the k-th turn is the provider's answer to the prior history, the question and all turns before it, with its token usage, and its steps are the dispatcher's results in order |
| AgentLaws.StepsAreDispatches | src/agent/run.rs:205-225 | the i-th call is dispatched with its own arguments after the results of the calls before it |
| AgentLaws.LargerBudgetSameAnswer | src/agent/run.rs:123-228 | a run that did not use up its budget has the same result under any larger one |
| AgentLaws.SameCourse | src/agent/stream.rs:73-134 | without a response that asks for tools and names none, run and stream take the same turns and end alike |
| AgentLaws.LockstepIff | src/agent/stream.rs:73-134 | for every provider, dispatcher, question and budget, run and stream take the same turns, end alike and have the same history if and only if no response asks for tools and names none |
| AgentLaws.Lockstep | src/agent/stream.rs:73-134 | then their histories agree at every iteration, they fail alike, and an answered run is the stream's last row, its trace the stream's tool rows |
| AgentLaws.EmptyTurnPartsTheLoops | src/agent/run.rs:171-203 | with such a response the two answer differently: a provider that shows it |
| SessionStore.DecodeOfEncode | src/session/store.rs:175-217 | a saved message is loaded in its normal form |
| SessionStore.SurvivesIffStorable | src/session/mod.rs:67-101 | a message survives unchanged if and only if role and content belong together, it is no system message, its text is not present and empty, and jsonb keeps its arguments |
| SessionStore.EncodedColumns | src/session/store.rs:175-217 | which role is stored for which message, and which column holds its text, calls, call id and error flag |
| SessionStore.NormalIsStable | src/session/mod.rs:67-101 | a second save and load changes nothing more |
| SessionStore.LoadAfterAppend | src/session/mod.rs:61-111 | loading after an append gives the old history followed by the new messages in normal form |
| SessionStore.RepliesSurviveReload | src/session/mod.rs:61-104 | saving and loading keeps every call with its results |
| SessionStore.ChatTurn | src/session/mod.rs:61-111 | load, run, append, load: well-formed again, ending with the answer |
| SessionStore.OrderedByIdx | sql/bootstrap.sql:1180-1189 | reading by index gives the order of insertion, for any reordering sorted by index |
| SessionStore.MessageTable.MaxPlusOne | sql/bootstrap.sql:1233-1241 | computes the largest index plus one, or zero |
| SessionStore.MessageTable.AppendMessage | sql/bootstrap.sql:1203-1243 | refuses a stranger; otherwise adds one row at the next index and keeps indices consecutive |
| SessionStore.MessageTable.AppendMessages | src/session/store.rs:107-159 | writes nothing for a stranger; otherwise extends the table by the encoded messages and the history by their normal forms |
| SessionStore.MessageTable.LoadHistory | src/session/mod.rs:61-104 | refuses a stranger; otherwise decodes the rows in order, skipping rows of unknown role |
| SessionStore.MessageTable.Clear | src/session/mod.rs:114-117 | refuses a stranger; otherwise empties the session |
| SessionLog.InvKept | sql/bootstrap.sql:1192-1267 | the invariant over log, lock and transactions is kept by begin, append, insert, clear, commit and abort |
| SessionLog.InvAlways | sql/bootstrap.sql:1192-1267 | every reachable state has the invariant |
| SessionLog.NextLineContinues | sql/bootstrap.sql:1231-1241 | an inserted line comes right after the last line its transaction sees |
| SessionLog.CommittedIsWhole | sql/bootstrap.sql:1192-1243 | in every reachable state indices are consecutive and the messages are a concatenation of whole appends in the order of the lock |
| SessionLog.InsertsNeverCollide | sql/bootstrap.sql:1192-1241 | an insert's index is above every index its transaction sees, and nobody else has an uncommitted row |
| SessionLog.CommitIsWholeAppends | sql/bootstrap.sql:1256-1267 | in a state with the invariant a commit drops a prefix that ends with an append and adds its own appends, each whole |
| SessionClears.OnlyCommitsWrite | sql/bootstrap.sql:1203-1267 | nothing but a commit changes the log; it then holds what the transaction added and what it did not delete |
| SessionClears.ClearRemovesWhatItSaw | sql/bootstrap.sql:1256-1267 | in any run: no line the transaction saw when its clear began does it see when the clear has ended |
| SessionClears.CommittedClearIsFinal | sql/bootstrap.sql:1256-1267 | in any run: once that transaction has committed, whatever else it did, none of these lines is in the log, then or later |
| SessionClears.ClearEmptiesTheLog | sql/bootstrap.sql:1256-1267 | after any run, with no deletions of others pending, begin, clear and commit leaves the session empty |
| SessionClears.CommittedAppendIsThere | sql/bootstrap.sql:1203-1243 | in any run: after the commit of a transaction that only appends, each message of each of its appends is in the log |
| SessionLog.LoadAfterCommit | src/session/mod.rs:61-111 | loading after the commit of a transaction that only appended gives the old history and the new messages in normal form |
| SessionLog.RunsAddWellFormedBatches | src/session/mod.rs:61-111 | the stored form of what a run adds is messages in which every call is answered, beginning outside a turn |
| SessionLog.ConversationsStayWhole | sql/bootstrap.sql:1192-1267 | in every reachable state of concurrent appends and clears of such messages, in the loaded history every call is answered |
| SessionLog.CommittedStays | sql/bootstrap.sql:1203-1243 | in a run without a clear what is committed stays a prefix of the log |
| SchemaText.DistinctSchemas | src/schema/mod.rs:43-59 | the schemas the lines name, each once, in first-seen order |
| SchemaText.RenderFull | src/schema/render.rs:34-81 | the lines of the full dump |
| SchemaText.CountColumns | src/schema/render.rs:90-107 | tables in order of first appearance, each with its number of rows |
| SchemaText.RenderCompact | src/schema/render.rs:83-140 | header and one aligned line a table with its column count |
| SchemaText.LinesOfUnlines | src/schema/mod.rs:45 | splitting undoes joining |
| SchemaLines.FirstLineIs | src/schema/mod.rs:45 | a line ends at a line feed, or at a carriage return before one |
| SchemaLines.LastLineIs | src/schema/mod.rs:45 | the last line needs no ending |
| SchemaLines.FirstSeenInOrder | src/schema/mod.rs:52-55 | of two schemas found the first is the one that appeared first |
| SchemaLines.CommentIs | src/schema/render.rs:38-41 | the comment shown for a table is the last one given for it |
| SchemaLines.FullDumpIs | src/schema/render.rs:34-81 | for each row in order: a blank line and its table's line with the comment when the table is another than before, and the column's line with type, NOT NULL and comment |
| SchemaLines.CompactDumpIs | src/schema/render.rs:83-140 | the header, and for each table in order of first appearance its padded name, the number of its rows and its comment |
| SchemaLines.WidestIs | src/schema/render.rs:116-122 | the names are padded to the longest of them |
| SchemaLines.SchemaInIs | src/schema/mod.rs:46-50 | the scan of a line passes over white space, the prefix `TABLE ` and more white space, and of the word there takes what precedes the first dot, if there is something on both sides |
| SchemaScan.FullScan | src/schema/mod.rs:34-59 | for any rows and comments, exactly what the scan of the full dump finds: each row's lines, split again at line breaks in names and comments, contribute what they name |
| SchemaScan.TidyScan | src/schema/mod.rs:34-59 | for names without blanks and comments of one line: the table schemas and what column lines are mistaken for |
| SchemaScan.CompactScan | src/schema/render.rs:83-140 | for any rows and comments, exactly what the scan of the compact dump finds |
| SchemaScan.TidyCompactScan | src/schema/render.rs:83-140 | with tidy table names these are the schemas in first-seen order, whatever the columns are called |
| SchemaScan.ScansAgree | src/schema/mod.rs:34-59 | with clean names the scans of both dumps give the schemas in first-seen order |
| SchemaScan.OnlySchemasIff | src/schema/mod.rs:43-59 | for any rows and comments the scan of the full dump finds nothing but schemas if and only if no row's lines name anything else |
| SchemaScan.OnlySchemasIfNoLeak | src/schema/mod.rs:43-59 | for tidy rows: if and only if no column line is mistaken for something else |
| SchemaScan.DottedColumnLeaks | src/schema/mod.rs:47-50 | a column with a dot in its name does: its first half is taken for a schema |
| SearchPath.Quote | src/schema/mod.rs:73 | wraps in quotes and doubles every quote inside |
| SearchPath.SearchPathClause | src/schema/mod.rs:70-82 | the clause for any text, empty when no schema is found |
| SearchPath.UndoubleDoubled | src/schema/mod.rs:66-73 | undoubling undoes doubling |
| SearchPath.QuotedMembers | src/schema/mod.rs:78 | comparing quoted names compares the names |
| SearchPath.ClauseNamesTheSchemas | src/schema/mod.rs:61-82 | the SQL tokenizer reads the clause as quoted identifiers with commas, which undouble to the schemas plus `public` if absent |
| SearchPath.SearchPathOfDumps | src/schema/render.rs:34-140 | both dumps of clean rows give the same clause, which names the rows' schemas |
| Subtxn.OnlyRaisedWritesAreLost | src/infra/subtxn.rs:131-165 | of all writes of a body exactly those survive around which no subtransaction raised, in order |
| Subtxn.ReturnedErrorKeepsWrites | src/infra/subtxn.rs:152-162 | a returned error keeps the writes, a raise drops them |
| Subtxn.NestedResultDecides | src/infra/subtxn.rs:131-165 | how a nested run ended decides how the body around it goes on |
| Subtxn.Backend.RollbackAndRelease | src/infra/subtxn.rs:206-216 | drops the innermost frame; callable only from outside the context it frees |
| Subtxn.Backend.Release | src/infra/subtxn.rs:197-204 | merges the innermost frame into the one below, with the context and the owner the server's commit leaves |
| Subtxn.Backend.Abandon | src/infra/subtxn.rs:136-143 | after a raise: rolled back, owner restored, never inside the freed context |
| Subtxn.Backend.Keep | src/infra/subtxn.rs:152-162 | after a return: committed, context and owner restored |
| Subtxn.Backend.Execute | src/infra/subtxn.rs:131-135 | a body of any nesting adds to its frame exactly the writes its meaning says |
| Subtxn.Backend.RunInSubtransaction | src/infra/subtxn.rs:102-166 | stack depth, live contexts and owner as before on every exit; the frame gains the body's writes unless it raised; the result is the body's or an error; the context is the old one except after a raise on a server whose rollback moves it |
| TableRender.ParseRows | src/tools/render.rs:130-151 | keeps the first `max_rows` rows, reports truncation exactly when there were more, and the first parse error among those kept |
| TableRender.TruncateCell | src/tools/render.rs:264-277 | at most 500 characters and an ellipsis when cut |
| TableRender.PivotIs | src/tools/render.rs:169-205 | the columns are the keys of the first row in order, and each cell is that row's value of its column |
| TableRender.CellIs | src/tools/render.rs:193-230 | a cell is `NULL` for a bare row, an absent key and a null, otherwise the text of the value, cut |
| TableRender.SensitiveIff | src/tools/render.rs:252-262 | a column is sensitive exactly when a pattern is its name or what follows a dot in it, in whatever case |
| TableRender.WidthsAre | src/tools/render.rs:283-294 | a column is as wide as its name or its longest cell |
| Common.PaddedIs | src/tools/render.rs:309-316 | padding adds blanks behind, up to the width, and cuts nothing |
| TableRender.MaskingIsExact | src/tools/render.rs:217-262 | sensitive columns hold the mark and nothing else; every other cell is unchanged |
| TableRender.FormatRow | src/tools/render.rs:309-316 | appends one padded line |
| TableRender.RenderTable | src/tools/render.rs:279-307 | the whole text: header, separator, rows, footer |
| TableRender.FormatTable | src/tools/render.rs:156-167 | pivot, mask, render, with the row count |
| TableLayout.ColumnsLineUp | src/tools/render.rs:283-322 | header, separator and rows have length sum(widths) + 3 * (columns - 1), and each column stands at the same offset in all of them |
| TableLayout.BarsLineUp | src/tools/render.rs:309-322 | between two columns stands a bar in the header and every row and a crossing in the separator, at the same place |
| TableLayout.LinesOfTableIff | src/tools/render.rs:279-307 | the lines of the rendered text are the header, the separator, the rows, a blank line and the summary if and only if no column name and no cell has a line feed |
| TableLayout.MaskedValuesLeaveNoTrace | src/tools/render.rs:156-262 | results that agree outside the sensitive columns render to the same text, widths included |
| TableLayout.WidthsAreBounded | src/tools/render.rs:264-294 | no column is wider than its name or 501 characters, whichever is more |

## Left out

- JobTable.JobStore.Claim: `attempts` is unbounded; the column's 32-bit limit is not modelled.
- JobDrain.Drain: an agent run is a function of the job and the attempt; role switching, an owner role that no longer exists and a failing SPI call, which abort the caller's transaction, are not modelled.
- JobWorker.DrainOnce: with no other actor; the interleaved case is `JobProtocol`. An SPI error, which ends the pass, is not modelled.
- JobProtocol.ResultComesFromLatestClaim: each SQL helper is one atomic step, pids of live backends are distinct, and a backend claims only when it has finished its previous job, as the worker does.
- JobProtocol.NoJobIsLost: a job may wait for ever; no fairness of claiming or recovery is assumed, so nothing is said about when it finishes.
- Outbox.OutboxStore.Emit: byte sizes of payload and summary are given as numbers and the summary itself is not kept; the event name is given trimmed; the regular expression for event names is spelled out as character classes.
- Outbox.NeverMoreThanCapPerMinute: the two settings are constant and the calls run at READ COMMITTED; a snapshot fixed for the whole transaction is not covered.
- `_outbox_prune`: as a step it removes any set of processed rows; its batching loop has the form of `_jobs_prune` and is not repeated.
- SqlGuard.CheckWith: the half of the guard that walks the syntax tree of the `sqlparser` crate is not part of this model, nor is the choice between it and the token rules.
- TemplateReadback.ParametersReadBackIff: the server reads with `standard_conforming_strings` on; the constants with prefixes `U&`, `B` and `X` are read as a word and a plain constant, an escape constant that goes on after a line break as two constants, and what PostgreSQL rejects, such as a letter right after a parameter, is read all the same.
- TemplatePlan.BuildPlan: numbers carry their integer or float reading as given; the float's own text is not modelled.
- AgentLoop.RunWithCfg: interrupts, elapsed times and the 64-bit limit of token sums are not modelled; prompt, schema summary and tool menu are part of the provider.
- AgentLaws.EveryCallIsTraced: looking a tool up by name and turning its error into an error output are part of the dispatcher.
- SessionStore.MessageTable.AppendMessages: `updated_at`, and the error PostgreSQL raises for a NUL character in jsonb, are not modelled.
- SessionLog.CommittedIsWhole: one session, transactions at READ COMMITTED, no savepoints; a clear takes its row locks in one step.
- SchemaScan.ScansAgree: the catalog queries, the choice between the dumps by size and the per-backend cache are not modelled.
- Subtxn.Backend.RunInSubtransaction: a second error raised during cleanup, and panics, which the wrapper treats as raises, are not modelled apart.
- TableRender.FormatTable: JSON parsing and the JSON text of values are given; keys of an object are assumed distinct.
- HTTP clients, provider wire formats, embeddings, memory search, launcher and worker discovery, grants, row-level security and configuration loading: decided by libraries or the server, or thin wrappers.
