# EdgeClaw: models and proofs

EdgeClaw is an agent runtime in Rust. A server drives turns of a language-model agent: it loads the user's
recent messages, runs the agent until the model asks for tools, checks and executes the calls, resumes the
agent with the results, and stores the turn when it is over. Around that core there are an approval protocol
over WebSocket sessions, a scheduler with a per-user quota, encrypted credentials with token refresh, OAuth
flows with a lifetime and a sweeper, tool routing and permission policies, and a few text codecs. This project
models these parts in Dafny and proves what they guarantee. `dafny verify dfyconfig.toml` checks all of it.

## Layout

| file | what it models |
|---|---|
| Prelude, Strings, Messages | options and results; searching strings; messages, content blocks, replies |
| ToolExecution | `execute_tools`: a concurrent group in any completion order, then the serial calls |
| AgentLoop, Agent | the stop-reason machine as a function of the reply stream; the agent that updates its context in place |
| Permissions, Routing | the policy chain; names of skill tools, dispatch, built-ins |
| Harness, TurnHarness | one server turn as a function; the server that updates the message table in place |
| Transcripts, TurnSafety | what a request must look like, and exactly when the requests of a turn do, in every reachable history |
| TurnOutcome | which reply ends a turn, after how many model calls, and what it has executed by then |
| Simulation | the segmented turn against one inline run of the agent |
| ClientView | what the client of a session hears of a turn, against what the turn does |
| Approvals, SessionRefinement | turns, responses and timeouts of one session, interleaved; each turn on its own is a turn of the harness |
| Scheduler, SchedulerService, TaskQuota | the scheduled-task table under polls, deletes and inserts; the poll in place; the quota |
| Credentials, CredentialRaces, OAuthFlows | encrypted rows and refresh; loads that overlap; single-use flows, lifetime, sweeper |
| SoulMd, HtmlEscape, FileEdit, Grep | the SOUL.md printer and parser; escaping; unique-match edit; capped search |

Code that updates state in place is modelled by classes and loops (`Agents.Agent`, `TurnHarness.Server`,
`ToolExecution.ToolHost`, `Approvals.Session`, `SchedulerService.Service`, `Credentials.CredentialStore`,
`OAuthFlows.FlowTable`, `Grep.Results`), each proved to compute a specification function or to take steps of a
state machine; the theorems are about those functions and machines.

## Assumptions

- The model endpoint is an arbitrary finite stream of replies; a call past its end is a transport failure.
- A tool executor is an arbitrary function of the calls it has executed so far and the call at hand; the order
  in which a concurrent group completes is arbitrary too.
- One turn at a time per user, but history clears may land before every access to the message table, so also
  between the inserts of one turn; inserts succeed, and stored message content reads back as it was written.
- Request ids, nonces and row ids are fresh; in the machines a step that would reuse one does nothing.
- In `Credentials` loads come one at a time; `CredentialRaces` splits a load into its read and its write, so that
  other loads and deletes may land between them.
- Encryption is symbolic: a sealed value opens under the key that sealed it and under no other.
- The YAML library and `to_lowercase` are arbitrary functions; where a statement is about plain names, the
  library is taken to read their printed lines as section 7.3.3 of YAML 1.2 has it (`SoulMd.ReadsPlainLines`).
- The cron library is an arbitrary pair of a validity test and a next-run function whose result, if any, lies
  after the time asked about.
- Clock readings never go back where a theorem says so (`Monotone`, `Tick`).

## Where the code and its descriptions differ

The model follows the code.

- docs/specs/ARCHITECTURE.md:242 speaks of at most 10 iterations per turn. Each resume starts a new budget, so a
  turn has no overall bound (`TurnOutcome.TurnHasNoOverallBound`); it makes at most four calls per segment
  (`TurnOutcome.ToolStopsBoundCalls`), and `TurnOutcome.FirstTurnHaltDecides` says exactly how many.
- docs/specs/ARCHITECTURE.md:96 says that deny-listed commands are hard-blocked. A denied call is offered for
  approval like any other, and runs unasked where approval is automatic (scheduled and HTTP messages):
  `TurnOutcome.DeniedCallRunsIff`, `SessionRefinement.DeniedRunsIffAnswered`, and for `rm -rf /`
  `TurnOutcome.WipeRunsIff`.
- Not every request is in order with matching tool uses and results. `TurnSafety.EveryTurnDecided` gives the exact
  condition for each of these demands, and these are the exceptions: a window that opens with tool results whose
  tool use has been cut off
  (`TurnSafety.WindowCanCutToolUse`); a tool use in a reply that did not stop for it
  (`TurnSafety.StrayUseStaysUnanswered`); a history clear that lands between the inserts of a turn
  (`TurnSafety.OddCutBreaksOrder`, `TurnSafety.EvenCutLeavesResults`, in general `TurnSafety.CutDecidesNextTurn`).
- Tool uses and results are matched by id. The code does not look for two uses with one id in a reply; it answers
  each of them, so such an id is answered as often as it is used (`Messages.Answers`), and exactly once if it is
  the use's own (`Messages.AnsweredByExactlyOne`).
- A request that timed out stays in the map until it is answered: `Approvals.MapHoldsExactlyTheOpenRequests`.
- A schedule deleted after a poll has selected it may run once more; `Scheduler.DeletedRunsIff` says exactly when.
- A credential deleted while a load waits for its new token comes back when the load ends
  (`CredentialRaces.DeleteUndoneIff`), and two overlapping loads both refresh
  (`CredentialRaces.OverlappingLoadsRefreshTwice`).
- `file_edit` asks for text that matches exactly once; overlapping matches count as one: `FileEdit.AcceptedIff`,
  `FileEdit.OverlapsPass`.
- The search notice about truncation also appears when there are exactly 250 matches: `Grep.NoticeOverstatesOnlyAtTheCap`.
- A completion in the very second of expiry succeeds or fails depending on the sweeper: `OAuthFlows.DeadlineIsARace`,
  exactly so by `OAuthFlows.SweeperUnobservable`.
- The SOUL.md round trip fails for a name that holds a delimiter or that YAML does not give back, and for a
  personality that is not trimmed or starts with a dash, and only then (`SoulMd.RoundTripIff`); among plain names
  those are the null words, and the empty name fails too (`SoulMd.PlainRoundTripIff`).

## Model

| member | source | states |
|---|---|---|
| Messages.CallsSnoc | crates/agent-core/src/agent.rs:137-147 | the calls of a reply are its tool uses, all of them, in block order, with id, name and input |
| Messages.FirstTextIff | crates/agent-core/src/agent.rs:105-116 | the answer is the first text block, and none exactly if there is none |
| Messages.AnsweredByExactlyOne | crates/agent-core/src/agent.rs:162-169 | where results answer uses, a use whose id no other use of its message has is answered by exactly one result block |
| ToolExecution.EachCallOnce | crates/agent-core/src/agent.rs:188-224 | whatever order the concurrent group completes in, the calls executed are the given calls, each exactly once |
| ToolExecution.ResultsPermuteCalls | crates/agent-core/src/agent.rs:188-224 | results answer the stable partition of the calls (concurrency-safe first), so their ids are a permutation of the call ids |
| ToolExecution.GroupRunOnce | crates/agent-core/src/agent.rs:198-212 | `join_all`: each call of the group runs once and the k-th result is the k-th call's, for every completion order |
| ToolExecution.TwoFinishInEitherOrder | crates/agent-core/src/agent.rs:198-212 | two calls of a group may finish in either order, the later one seeing the earlier; the results stay in call order |
| ToolExecution.EachResultIsItsRun | crates/agent-core/src/agent.rs:198-221 | each result holds what running its call gave at the place in the log where it ran: content and error flag, or the error raised as text |
| ToolExecution.NoneSafeIsSerial | crates/agent-core/src/agent.rs:192-221 | without concurrency-safe calls, execution is the plain left-to-right run |
| ToolExecution.OnlyFirstSafeIsSerial | crates/agent-core/src/agent.rs:192-221 | so it is if at most the first call is concurrency-safe, whatever the completion order |
| ToolExecution.PartitionedMultiset | crates/agent-core/src/agent.rs:192-194 | the partition neither loses nor duplicates a call |
| ToolExecution.PartitionSnoc | crates/agent-core/src/agent.rs:192-194 | both parts of the partition keep the order of the calls |
| ToolExecution.ToolHost.Execute | crates/edgeclaw-server/src/builtin_executor.rs:82-92 | one call is executed and its result, or its error, carries the call's id |
| ToolExecution.ToolHost.ExecuteConcurrent | crates/agent-core/src/agent.rs:198-212 | the in-place group run ends with the log and result slots of the specified group run |
| ToolExecution.ToolHost.ExecuteSerial | crates/agent-core/src/agent.rs:215-221 | the remaining calls run in order, each seeing the ones before it |
| ToolExecution.ToolHost.ExecuteAll | crates/agent-core/src/agent.rs:188-224 | the in-place partition and runs are the specified execution |
| AgentLoop.AgainAppendsTwo | crates/agent-core/src/agent.rs:97-172 | a round that goes on appends one assistant and one user message, to the context and to the run's messages alike: the fixed request to continue, or one result block for each result with its content and error flag |
| AgentLoop.LoopExtends | crates/agent-core/src/agent.rs:72-185 | from any loop state: requests are the growing context cut after each round, replies are consumed from the front, at most the remaining iterations are used |
| AgentLoop.RunReportsItsTranscript | crates/agent-core/src/agent.rs:36-185 | a successful run of k model calls has 1 <= k <= max_iterations, reports 2k messages, and leaves the initial context plus exactly those |
| AgentLoop.RunBegins | crates/agent-core/src/agent.rs:36-92 | the first request of any run is the context and the message it starts on, whatever comes of it |
| AgentLoop.RoundHalts | crates/agent-core/src/agent.rs:79-181 | a round ends the run exactly on the halting conditions, with the outcome its reply dictates |
| AgentLoop.FirstHaltDecides | crates/agent-core/src/agent.rs:72-185 | the first halting reply inside the budget decides which outcome occurs (its first text, its tool uses as pending calls, continuation limit, unexpected stop, failure, "prompt is too long") and how many calls are made |
| AgentLoop.ExhaustedExactlyWithoutHalt | crates/agent-core/src/agent.rs:79-184 | MaxIterationsExceeded is returned if and only if no reply inside the budget halts |
| AgentLoop.ContinuationsBoundCalls | crates/agent-core/src/agent.rs:119-157 | without an executor, at most remaining continuations + 1 further calls, and no MaxIterationsExceeded, on any reply stream |
| AgentLoop.NoExecutorNeverExhaustsIterations | crates/agent-core/src/agent.rs:72-157 | with max_continuations < max_iterations a run without executor never reports MaxIterationsExceeded and makes at most max_continuations + 1 calls |
| Agents.LlmClient.SendMessage | crates/agent-core/src/agent.rs:80-92 | the request goes out as it stands and the next reply of the stream comes back |
| Agents.Agent.constructor | crates/agent-core/src/agent.rs:17-24 | ten iterations, three continuations, no executor |
| Agents.Agent.Run | crates/agent-core/src/agent.rs:36-53 | outcome, context, requests and executed calls are those of the specified run; the user's text, as one text block, follows the context and goes out with the first request |
| Agents.Agent.Resume | crates/agent-core/src/agent.rs:55-70 | the same for a run started on tool results: one block for each, with id, content and error flag |
| Agents.Agent.Loop | crates/agent-core/src/agent.rs:72-185 | the loop over mutable context and message list computes the stop-reason machine, with or without executor |
| Permissions.CheckDecides | crates/agent-core/src/permissions.rs:16-151 | for any lower-casing: Deny if and only if the lower-cased command contains one of the four patterns; Allow if and only if not denied and the full name or its last part is one of the five reading tools; otherwise approval is asked for, with the reason that depends on the ten destructive patterns |
| Permissions.ChangingToolsAreNeverAllowed | crates/agent-core/src/permissions.rs:83-105 | bash, file_write, file_edit, memory_store and memory_delete are never allowed outright, whatever their input |
| Permissions.DenialNamesPattern | crates/agent-core/src/permissions.rs:55-75 | the reason of a denial names the first pattern of the list that occurs |
| Permissions.FirstMatch | crates/agent-core/src/permissions.rs:66-74 | the early-return search finds the first pattern of the list that occurs, and fails only if none does |
| Harness.OneResultPerCall | crates/edgeclaw-server/src/agent.rs:291-369 | executed, refused and failed calls alike yield one result each, in call order, under the call's id |
| Harness.AutoApproveIsSerial | crates/edgeclaw-server/src/agent.rs:291-369 | with automatic approval every call runs, in order, and no prompt is shown |
| Harness.StoreKeeps | crates/edgeclaw-server/src/agent.rs:85-103 | a clear between two inserts leaves exactly the rows inserted after it; without one, the old rows and all new ones remain |
| Transcripts.OpenAnsweredIff | crates/edgeclaw-server/src/agent.rs:291-392 | a turn about to call the model has answered all its tool-use blocks, under each id by as many result blocks of the next message, if and only if only tool-use stops carried any |
| Transcripts.RowsAnsweredIff | crates/edgeclaw-server/src/agent.rs:85-103 | in rows cut anywhere, all tool-use blocks are answered by the next row if and only if no row that did not stop for tool use carries one |
| Transcripts.ShapeDecides | crates/edgeclaw-server/src/agent.rs:371-386 | for rows in front of a turn: the request is in order exactly when the rows are even in number, starts fresh exactly when the rows do, and has all uses answered exactly when neither rows nor replies have stray ones |
| TurnSafety.SegmentRequests | crates/agent-core/src/agent.rs:72-157 | each request of a segment is its base, then a transcript of the replies consumed so far; a segment that ends well mirrors its replies one for one, and its pending calls are those of the last |
| TurnSafety.NextSegmentMidTurn | crates/edgeclaw-server/src/agent.rs:286-392 | crossing a tool boundary (resolve, reload the window, resume) keeps the transcript invariant, even if the history was cleared meanwhile |
| TurnSafety.TurnFollowsReplies | crates/edgeclaw-server/src/agent.rs:248-395 | from any history: request k is the window found at the last reload, then a transcript of the first k replies; a failed turn stores nothing, a successful one reports the transcript of the replies it consumed and stores exactly that, clears landing where they may |
| TurnSafety.TurnBeginsWithTheText | crates/edgeclaw-server/src/agent.rs:248-283 | the first request of a turn is the newest 50 rows and the user's text, and that text is the first message the turn reports |
| TurnSafety.ReachableRows | crates/edgeclaw-server/src/agent.rs:54-103 | after any sequence of turns and clears, also clears between inserts, the rows end with Assistant, alternate back from there, answer only what stands before them, and answer every tool-use stop |
| TurnSafety.EveryRequestDecided | crates/edgeclaw-server/src/agent.rs:248-395 | for every request in every reachable history the exact condition of order, fresh start and answered uses; results always answer the uses just before |
| TurnSafety.EveryTurnDecided | crates/edgeclaw-server/src/agent.rs:248-395 | all requests of a turn, reloads and clears included: in order if and only if not an odd number of rows within the window; fresh if and only if the window does not open with tool results; uses answered if and only if no window row or reply consumed before the last request has a stray use; acceptable if and only if all three |
| TurnSafety.EveryRequestIsOrderedAndAnswered | crates/edgeclaw-server/src/agent.rs:248-395 | if clears miss the inserts every request starts and ends with User and strictly alternates; if tool uses only ever came with tool-use stops, every tool-use block in every request is answered by the next message, by as many result blocks under each id as there are uses |
| TurnSafety.OddRowsComeFromCuts | crates/edgeclaw-server/src/agent.rs:85-103 | the table holds an odd number of rows if and only if the last clear among inserts left an odd number, and nothing cleared since |
| TurnSafety.CutDecidesNextTurn | crates/edgeclaw-server/src/handlers.rs:110-118 | after a clear before insert i of a turn of n rows, the next turn is in order if and only if i is even or n - i exceeds the window, and fresh if and only if the rows left in the window do not open with tool results |
| TurnSafety.WindowCanCutToolUse | crates/edgeclaw-server/src/agent.rs:258-258 | without any clear, after one tool turn and 24 plain turns the window opens with tool results whose tool use has been cut off |
| TurnSafety.OddCutBreaksOrder | crates/edgeclaw-server/src/handlers.rs:110-118 | a reachable history whose next request starts with an assistant message |
| TurnSafety.EvenCutLeavesResults | crates/edgeclaw-server/src/handlers.rs:110-118 | a reachable history of two rows whose next request opens with tool results |
| TurnSafety.StrayUseStaysUnanswered | crates/agent-core/src/agent.rs:105-116 | a reachable history whose next request carries an unanswered tool use |
| TurnHarness.Server.LoadMessages | crates/edgeclaw-server/src/agent.rs:54-83 | newest rows first, reversed: the last `limit` rows in order |
| TurnHarness.Server.PersistMessages | crates/edgeclaw-server/src/agent.rs:85-103 | row-by-row inserts, with clears between them, leave what the specification of storing says, and touch no other user's rows |
| TurnHarness.Server.ClearHistory | crates/edgeclaw-server/src/handlers.rs:110-118 | the user's rows go, no other user's do |
| TurnHarness.Server.ResolvePending | crates/edgeclaw-server/src/agent.rs:291-369 | check, prompt, execute or refuse call by call, as specified, on the mutable executor, telling the client of each prompt and execution |
| TurnHarness.Server.CrossBoundary | crates/edgeclaw-server/src/agent.rs:286-392 | one pass of the harness loop (pending calls, reload, resume) is the step from one segment to the next of the specification |
| TurnHarness.Server.RunAgentTurn | crates/edgeclaw-server/src/agent.rs:248-410 | the in-place turn, failed set-up and clears included, ends with the outcome, history, executed calls, requests and messages to the client of the specified turn; other users' rows are unchanged |
| ClientView.ClientHearsTheTurn | crates/edgeclaw-server/src/agent.rs:293-404 | in a session the client hears of every call the turn executes, in order and of no other, by tool name and success; it is prompted for exactly the calls that are not allowed, among the calls of all replies before the last, in order and with the reason; and it gets the answer if and only if the turn succeeds |
| TurnHarness.SegmentIgnoresLog | crates/agent-core/src/agent.rs:147-157 | a run without executor neither executes nor depends on what was executed |
| Simulation.RelatedRunsAgree | crates/edgeclaw-server/src/agent.rs:286-393 | from any pair of related states the inline run and the rest of the segmented turn agree on success, up to the budgets, and then on everything they leave behind |
| Simulation.TurnSimulatesInlineRun | crates/edgeclaw-server/src/agent.rs:248-410 | with automatic approval, and if the tool-use replies the turn consumes carry calls of which at most the first is concurrency-safe: `Agent::run` with an executor succeeds if and only if the segmented turn does within one run's budgets; both then give the same messages, answer, calls and requests |
| TurnOutcome.FirstTurnHaltDecides | crates/edgeclaw-server/src/agent.rs:283-393 | a turn ends at the first reply that halts it, with that reply's outcome and one call per reply, having executed and asked exactly what resolving all earlier tool calls one by one executes and asks |
| TurnOutcome.CallResolves | crates/edgeclaw-server/src/agent.rs:291-369 | each call of a turn is asked about exactly if it is not allowed and there is a session, runs unless that is answered false, and the model is told of it: content and error flag of its run, the error raised, or that permission was denied |
| TurnOutcome.ToolStopsBoundCalls | crates/edgeclaw-server/src/agent.rs:286-393 | at most max_continuations + 1 model calls for each tool-use stop and one more |
| TurnOutcome.TurnHasNoOverallBound | crates/edgeclaw-server/src/agent.rs:286-393 | for every n a turn of n tool requests succeeds with n + 1 calls, on any executor, while the inline run succeeds only for n < max_iterations |
| TurnOutcome.DeniedCallRunsIff | crates/edgeclaw-server/src/agent.rs:293-369 | a call denied by the policy chain is executed if and only if approval is automatic, and then unasked, or its own prompt was answered true |
| TurnOutcome.WipeRunsIff | crates/edgeclaw-server/src/agent.rs:293-369 | a turn in which the model calls `bash` with `rm -rf /`, which the policy chain denies, runs it unasked under automatic approval, and in a session if and only if the prompt it shows is answered true |
| Approvals.StepKeeps | crates/edgeclaw-server/src/agent.rs:293-369 | every step of a turn, response or timeout keeps the invariant of map, channels, ids and executions |
| Approvals.RunKeeps | crates/edgeclaw-server/src/handlers.rs:1060-1181 | so it holds after every interleaving of any number of turns |
| Approvals.OnlyLicensedCallsExecute | crates/edgeclaw-server/src/agent.rs:293-369 | a call is executed only if the policy allows it or the client said `true`, first thing under the id registered for that very call and while it was still waiting, before its timeout; and at most once |
| Approvals.OnlyTurnedDownCallsAreRefused | crates/edgeclaw-server/src/agent.rs:331-347 | a call is refused only if the policy does not allow it and its own request timed out or the client said `false` to it in time |
| Approvals.AskedCallRunsIff | crates/edgeclaw-server/src/agent.rs:305-355 | in every interleaving a call that had to be asked about, once its turn is past it, was executed if and only if the client said `true` to its own request before the timeout |
| Approvals.AnswerIsFirstResponse | crates/edgeclaw-server/src/handlers.rs:1160-1168 | what an id is answered is the value of the first response step under it after the step that registered it |
| Approvals.TurnHearsTheClient | crates/edgeclaw-server/src/handlers.rs:1164-1167 | a response to a waiting turn leaves the call cleared if it says `true` and refused if it says `false` |
| Approvals.AnsweredCallGoesOn | crates/edgeclaw-server/src/agent.rs:293-369 | no call gets stuck: after any steps, a call that is not allowed can be registered under any fresh id, prompted for and answered, and then runs or is refused as the client said |
| Approvals.UnansweredCallIsRefused | crates/edgeclaw-server/src/agent.rs:331-347 | and without an answer it is refused, and the turn goes on |
| Approvals.LateResponsesAreInert | crates/edgeclaw-server/src/handlers.rs:1160-1168 | unknown and repeated responses change nothing; a response after the timeout only removes the map entry |
| Approvals.AnsweredOnce | crates/edgeclaw-server/src/handlers.rs:1164-1167 | a request id is consumed at most once; its answer is never overwritten |
| Approvals.MapHoldsExactlyTheOpenRequests | crates/edgeclaw-server/src/agent.rs:305-339 | the map's keys are exactly the ids of turns still waiting for an answer plus the timed-out ids not yet answered |
| Approvals.PromptsLeadHome | crates/edgeclaw-server/src/agent.rs:305-328 | before its prompt can be seen an id leads to the sender of the call that asks; turns that ask have distinct ids |
| Approvals.Session.RegisterRequest | crates/edgeclaw-server/src/agent.rs:305-312 | inserting the sender in the shared map is the registration step |
| Approvals.Session.HandleResponse | crates/edgeclaw-server/src/handlers.rs:1160-1168 | the entry goes; the value the client sent is delivered, unchanged, exactly if the id is in the map and its channel is still open |
| Approvals.Session.Conclude | crates/edgeclaw-server/src/agent.rs:331-347 | the wait ends approved only with a delivered `true`; a timeout refuses and closes the channel |
| SessionRefinement.InterleavedTurnIsSequential | crates/edgeclaw-server/src/agent.rs:291-369 | in every interleaving a turn between calls has executed exactly what resolving its calls one by one executes under the answers its own prompts came to, and has asked as often |
| SessionRefinement.InterleavedTurnIsTheTurn | crates/edgeclaw-server/src/agent.rs:283-393 | in every interleaving a turn that has resolved the calls of its replies has executed and asked what the harness turn executes and asks in a session whose prompts are answered as its own were |
| SessionRefinement.AnswersComeFromTheClient | crates/edgeclaw-server/src/agent.rs:331-347 | what a prompt of a turn comes to is what the client said to it in time, or false if it times out |
| SessionRefinement.OthersLeaveTurn | crates/edgeclaw-server/src/handlers.rs:1134-1168 | responses and other turns' steps neither move a turn nor execute anything for it |
| SessionRefinement.DeniedRunsIffAnswered | crates/edgeclaw-server/src/agent.rs:293-369 | in every interleaving a denied call is executed if and only if the answer to its own prompt was true |
| SessionRefinement.LaterAnswers | crates/edgeclaw-server/src/agent.rs:291-369 | how calls resolve does not depend on answers to prompts not yet shown |
| Scheduler.Validate | crates/edgeclaw-server/src/handlers.rs:304-321 | a request passes if and only if it gives exactly one of a run time and a valid cron expression with a run ahead, and is due then |
| Scheduler.StepEvolves | crates/edgeclaw-server/src/scheduler.rs:32-79 | no step removes a row, changes owner or schedule, re-enables it, or moves a one-shot's run time |
| Scheduler.StepKeeps | crates/edgeclaw-server/src/scheduler.rs:32-126 | every step, aborted polls included, keeps the invariant of table, poll and spawns |
| Scheduler.SpawnsAreSafe | crates/edgeclaw-server/src/scheduler.rs:42-85 | over every run of polls, schedules and deletes a one-shot is spawned at most once and never before its run time, and an invalid cron expression never |
| Scheduler.OneRunPerFiring | crates/edgeclaw-server/src/scheduler.rs:42-85 | over every run two spawns of one task, recurring ones too, lie apart: the later one is due after the earlier one happened |
| Scheduler.WhatBecomesOfTask | crates/edgeclaw-server/src/scheduler.rs:42-126 | all that any step does to a task: it is disabled exactly by its owner's delete or by a row of it that does not recur, re-armed for its next firing exactly by a row that does, and marked by a finished run |
| Scheduler.EnabledUntilStopped | crates/edgeclaw-server/src/scheduler.rs:42-79 | over every continuation an enabled task stays enabled if and only if none of the steps is its owner's delete or a row of it that does not recur |
| Scheduler.RecurringTaskStaysOn | crates/edgeclaw-server/src/scheduler.rs:47-55 | over every run a task whose schedule always has a next run stays enabled if and only if its owner does not delete it |
| Scheduler.RunTimeIsNextFiring | crates/edgeclaw-server/src/scheduler.rs:47-55 | over every continuation the run time of a task is the firing after the last processing of one of its rows, or what it was |
| Scheduler.PollSelectsDue | crates/edgeclaw-server/src/scheduler.rs:33-40 | a poll selects exactly the enabled tasks whose run time has come, each once, as they are |
| Scheduler.RequestBecomesTask | crates/edgeclaw-server/src/handlers.rs:304-354 | an accepted request becomes, whenever it is inserted, an enabled task of its user that has not run, due at the first firing after the check or at the time given |
| Scheduler.InFlightIff | crates/edgeclaw-server/src/handlers.rs:328-354 | a request is in flight exactly from a count that accepts it, because it is valid and its user has fewer than the maximum of enabled tasks, until it is inserted or abandoned |
| Scheduler.DisabledForGood | crates/edgeclaw-server/src/scheduler.rs:56-79 | over every continuation of every run a disabled row stays disabled |
| Scheduler.FinishedPollSettles | crates/edgeclaw-server/src/scheduler.rs:42-79 | after a poll that got through its rows every row it knew is disabled or due later than the poll's time, so a poll at no later a time selects only rows inserted meanwhile |
| Scheduler.UnheldNeverRuns | crates/edgeclaw-server/src/handlers.rs:392-414 | a disabled task without an unprocessed row in the poll in progress is never spawned again, over any continuation |
| Scheduler.HeldRunsIff | crates/edgeclaw-server/src/scheduler.rs:42-85 | a disabled task with such a row is spawned once more exactly when its schedule is valid and the updates up to its own succeed |
| Scheduler.DeletedRunsIff | crates/edgeclaw-server/src/handlers.rs:392-414 | after a delete, over every continuation of every run: spawned again exactly once in that case, never otherwise |
| SchedulerService.Service.PollOnce | crates/edgeclaw-server/src/scheduler.rs:32-126 | with arbitrary handler steps before the query and before each row, the in-place poll is a run of the machine's steps; it succeeds if and only if no update fails, and then it has spawned exactly the rows due at the query, each once, in order and for its own time, but for those with an invalid expression, and no row known at the query is still due |
| SchedulerService.Service.RunRow | crates/edgeclaw-server/src/scheduler.rs:42-85 | a row with a valid expression and a next firing gets that firing as its run time and stays as it is otherwise; any other is disabled; no other row changes; it is spawned unless its expression is invalid |
| SchedulerService.Service.CountEnabled | crates/edgeclaw-server/src/handlers.rs:328-333 | the COUNT is the number of the user's enabled rows |
| SchedulerService.Service.Handle | crates/edgeclaw-server/src/handlers.rs:300-414 | schedule (count, later insert), delete and last-run updates are the machine's steps |
| TaskQuota.QuotaBound | crates/edgeclaw-server/src/handlers.rs:328-354 | with at most m requests of a user between COUNT and INSERT, enabled rows never exceed max + m - 1, over any interleaving with polls, deletes and abandoned requests |
| TaskQuota.SerialRequestsKeepQuota | crates/edgeclaw-server/src/handlers.rs:328-354 | serialised requests never exceed max |
| TaskQuota.QuotaBoundIsReached | crates/edgeclaw-server/src/handlers.rs:328-354 | for every max and m some run reaches max + m - 1, so the bound is exact |
| Credentials.StoreLoadRoundTrip | crates/credential-store/src/store.rs:17-109 | what is stored is what is loaded, for both kinds of credential and any salt and nonces |
| Credentials.OpensIff | crates/credential-store/src/store.rs:275-321 | a stored row of either kind opens if and only if master key and provider are the ones it was stored under |
| Credentials.CredentialStore.Store | crates/credential-store/src/store.rs:17-62 | the row of that key is replaced, no other row changes |
| Credentials.CredentialStore.LoadCredential | crates/credential-store/src/store.rs:112-133 | NotFound or the decrypted row |
| Credentials.CredentialStore.Delete | crates/credential-store/src/store.rs:226-241 | exactly the row of that key goes |
| Credentials.Minted | crates/credential-store/src/store.rs:161-189 | a service account's load returns a minted token if and only if the row opens, has metadata and the endpoint mints; otherwise the error of the first of these that fails |
| Credentials.EndpointAskedIff | crates/credential-store/src/store.rs:190-203 | the endpoint is asked, with the stored refresh token, if and only if the row is an OAuth one that opens, has a refresh token, and expires within 60 seconds or has expired |
| Credentials.Unrefreshed | crates/credential-store/src/store.rs:190-203 | an OAuth load that stores nothing returns the credential until 60 seconds before it expires, and from then on the first error on the way to a new token |
| Credentials.CredentialStore.LoadAndRefresh | crates/credential-store/src/store.rs:137-223 | the table changes only by a successful refresh; from 60 seconds before expiry on, an OAuth load that succeeds returns the endpoint's new token, before that the stored one; kept or replaced refresh token, expiry and scopes; the minted token of a service account; and the error of every case |
| Credentials.LoadsPreserve | crates/credential-store/src/store.rs:137-223 | over any sequence of loads no row appears or goes, scopes stay, a row with a usable refresh token keeps one, service accounts and rows nobody loads never change |
| Credentials.RowWaitsForRefresh | crates/credential-store/src/store.rs:203-218 | a row changes only by a refresh of its own credential; failed refreshes change nothing |
| Credentials.NextRefreshIff | crates/credential-store/src/refresh.rs:30-35 | after a refresh at t with lifetime e the next load of that credential asks the endpoint if and only if it comes at t + e - 60 or later, and never without a lifetime |
| CredentialRaces.OneByOneIsAfterLoads | crates/credential-store/src/store.rs:137-223 | loads that do not overlap are the loads of a sequence |
| CredentialRaces.RacesPreserve | crates/credential-store/src/store.rs:192-218 | however loads and deletes overlap: no row appears that was never there, scopes and refresh tokens stay, service accounts never change |
| CredentialRaces.DeleteUndoneIff | crates/credential-store/src/store.rs:203-241 | a deleted row is back, if not deleted again, if and only if a load that was waiting when it went comes to its end |
| CredentialRaces.OverlappingLoadsRefreshTwice | crates/credential-store/src/store.rs:192-218 | two overlapping loads of an expired row both refresh it, with the same refresh token, and the last to end is kept |
| OAuthFlows.FlowTable.InitFlow | crates/edgeclaw-server/src/oauth.rs:112-151 | the flow is stored under its nonce with the user, skill, provider, verifier and scopes given and expires 600 s later; no other flow changes |
| OAuthFlows.FlowTable.CompleteFlow | crates/edgeclaw-server/src/oauth.rs:154-166 | the entry goes in every case; the outcome is not-found, expired or the stored flow |
| OAuthFlows.FlowTable.Cleanup | crates/edgeclaw-server/src/oauth.rs:311-322 | the sweep keeps exactly the flows that expire later |
| OAuthFlows.StepKeeps | crates/edgeclaw-server/src/oauth.rs:112-166 | every init, completion and sweep keeps the invariant of map, nonces and redemptions |
| OAuthFlows.RedeemedOnceInTime | crates/edgeclaw-server/src/oauth.rs:154-166 | over every run a nonce is redeemed at most once, within 600 s of its init, and yields the flow begun with it |
| OAuthFlows.RedeemsIff | crates/edgeclaw-server/src/oauth.rs:112-166 | over every run a completion succeeds if and only if its flow was begun, has since neither been completed nor swept up at or after its expiry, and is not older than 600 s; it yields what was asked for at the beginning |
| OAuthFlows.SweepsOnlyRemoveExpired | crates/edgeclaw-server/src/oauth.rs:311-322 | the swept map is the unswept one without the flows expired at the last sweep |
| OAuthFlows.SweeperUnobservable | crates/edgeclaw-server/src/oauth.rs:311-322 | a completion succeeds with sweeps if and only if it does without, unless it comes at the second of expiry after a sweep in that second; after expiry it fails either way |
| OAuthFlows.DeadlineIsARace | crates/edgeclaw-server/src/oauth.rs:161-163 | at the second of expiry the same completion succeeds without and fails with a sweep |
| Routing.AllTools | crates/skill-registry/src/lib.rs:125-137 | the nested pushes list every tool of every skill, in order, under its prefixed name |
| Routing.RegistryToolAt | crates/skill-registry/src/lib.rs:125-137 | tool j of skill i stands behind all tools of earlier skills and j of its own, as `skill__tool`, with its description and schema |
| Routing.DispatchDecides | crates/skill-registry/src/lib.rs:141-154 | any name goes to the first skill named before its first `__`; no separator and unknown skill are the two errors, exactly then |
| Routing.BuiltinsComeFirst | crates/edgeclaw-server/src/builtin_executor.rs:82-92 | the ten built-in names go to the built-in tools, every other name to the registry |
| Routing.SplitsBackIff | crates/skill-registry/src/lib.rs:141-147 | splitting at the first `__` recovers skill and tool for every tool if and only if the skill name has no `__` and does not end in `_` |
| Routing.EveryToolRoutesHome | crates/edgeclaw-server/src/builtin_executor.rs:82-92 | every exposed registry name reaches the skill and bare tool it was made from, shadowed by no built-in |
| Routing.ExposedNamesDistinct | crates/edgeclaw-server/src/builtin_executor.rs:72-78 | exposed names are pairwise distinct and no built-in's |
| Routing.PolicyReadsRoutedToolIff | crates/agent-core/src/permissions.rs:94-103 | the name the allow list judges is the routed tool's if and only if that name contains no `__` |
| Routing.BareNameEnds | crates/agent-core/src/permissions.rs:97-98 | the bare name has no separator and is what stands behind the last one split off, or the whole name |
| Routing.RegistryToolAllowedIff | crates/agent-core/src/permissions.rs:94-103 | a registry tool runs without approval if and only if its command holds none of the four patterns and the last part of its own name is one of the five reading tools, whatever its skill |
| HtmlEscape.EscapeIsOnePass | crates/edgeclaw-server/src/handlers.rs:618-624 | five whole-string replacements in a row are one pass per character |
| HtmlEscape.EscapeIsInert | crates/edgeclaw-server/src/handlers.rs:618-624 | the output contains none of < > " ' |
| HtmlEscape.DecodeUndoesEscape | crates/edgeclaw-server/src/handlers.rs:618-624 | reading the five HTML entities back inverts escaping on every string |
| HtmlEscape.EscapeIsInjective | crates/edgeclaw-server/src/handlers.rs:618-624 | different strings stay different |
| FileEdit.EditIff | crates/agent-core/src/builtins/file_edit.rs:66-77 | an edit succeeds with a given result if and only if the content splits at the leftmost match with no further match behind it, and the result replaces that match |
| FileEdit.NotFoundIff | crates/agent-core/src/builtins/file_edit.rs:67-69 | "not found" if and only if the text does not occur |
| FileEdit.NotUniqueIff | crates/agent-core/src/builtins/file_edit.rs:66-75 | the reported count is the largest number of occurrences that do not overlap, and is reported exactly when it exceeds one |
| FileEdit.UniqueIsEdited | crates/agent-core/src/builtins/file_edit.rs:66-77 | a text that occurs at exactly one position is always edited there |
| FileEdit.EditedAtIff | crates/agent-core/src/builtins/file_edit.rs:66-77 | the edit happens at a position if and only if the text occurs there and every other occurrence starts inside it |
| FileEdit.AcceptedIff | crates/agent-core/src/builtins/file_edit.rs:66-75 | any text, also the empty one, passes as unique if and only if every occurrence starts inside the leftmost one |
| FileEdit.OverlapsPass | crates/agent-core/src/builtins/file_edit.rs:66-77 | two overlapping occurrences that pass as one |
| FileEdit.EditBackRestoresIff | crates/agent-core/src/builtins/file_edit.rs:66-77 | the reverse edit restores the content if and only if every other occurrence of the new text starts inside the one put in |
| Grep.Results.SearchFile | crates/agent-core/src/builtins/grep_tool.rs:124-138 | adds the file's matches up to 250 in all |
| Grep.Results.SearchTree | crates/agent-core/src/builtins/grep_tool.rs:76-99 | the result is the first 250 of all matches in walk order |
| Grep.FileHitsSnoc | crates/agent-core/src/builtins/grep_tool.rs:124-138 | one more line adds itself as `path:number:line`, counted from 1, exactly if it matches |
| Grep.WalkHitsSnoc | crates/agent-core/src/builtins/grep_tool.rs:76-99 | one more entry adds its matches exactly if it is a file whose name passes the glob |
| Grep.DigitsAreDecimal | crates/agent-core/src/builtins/grep_tool.rs:132-132 | line numbers are decimal, without leading zeros |
| Grep.Execute | crates/agent-core/src/builtins/grep_tool.rs:69-116 | what is reported for a file and for a tree: no matches, or the first 250 and the notice from 250 on |
| Grep.NoticeOverstatesOnlyAtTheCap | crates/agent-core/src/builtins/grep_tool.rs:103-116 | the notice is shown though nothing is missing exactly when there are 250 matches |
| SoulMd.WriteSoulMd | crates/agent-core/src/soul.rs:376-391 | the text, piece by piece: delimiter, the five keys with their values, delimiter, and the personality between line breaks unless it is empty; which is the specified printer |
| SoulMd.EnumsReadBack | crates/agent-core/src/soul.rs:40-219 | reading undoes printing for all four enums |
| SoulMd.EnumsReadOnlyPrinted | crates/agent-core/src/soul.rs:40-219 | a word is read as a value if and only if it is the word printed for it |
| SoulMd.PrintedSplitsIff | crates/agent-core/src/soul.rs:339-341 | a printed file splits at its closing delimiter if the name holds no delimiter, and inside the name otherwise |
| SoulMd.ReadsBackLine | crates/agent-core/src/soul.rs:343-344 | a printed `key: value` line reads back as that entry, an empty or null value as an absent one |
| SoulMd.ParseNeedsFrontmatter | crates/agent-core/src/soul.rs:330-349 | parsing any text fails for want of a frontmatter if and only if the trimmed text does not open with a delimiter or has no second one; otherwise the library reads what lies between the first two |
| SoulMd.PersonalityReadsBackIff | crates/agent-core/src/soul.rs:346-349 | the personality survives if and only if it is trimmed and does not start with a dash |
| SoulMd.ParsePrinted | crates/agent-core/src/soul.rs:330-391 | for every name without a delimiter, parsing a printed soul gives what the YAML library makes of the frontmatter and the trimmed personality; for plain and empty names it changes at most name and personality, in the way stated |
| SoulMd.RoundTripIff | crates/agent-core/src/soul.rs:330-391 | for every soul and every YAML library: `parse_soul_md(to_soul_md(s)) == s` if and only if no delimiter stands in the name, the library gives the fields back, and the personality is trimmed and does not start with a dash |
| SoulMd.PlainRoundTripIff | crates/agent-core/src/soul.rs:330-391 | among plain and empty names: if and only if the name is neither empty nor one of the null words ~, null, Null, NULL, and the personality is trimmed and does not start with a dash |

## Left out

- SoulMd.PlainRoundTripIff: which names the YAML library gives back is worked out for plain one-line scalars only; quoting, comments, flow collections and multi-line scalars stay inside the arbitrary library function of `SoulMd.RoundTripIff`.
- Approvals.OnlyLicensedCallsExecute: the end of a connection is not a step; a turn whose session is gone still waits for its answer or timeout.
- Credentials.NextRefreshIff: times are unbounded integers; a lifetime that overflows 64 bits is not modelled.
- Empty texts and empty replies: whether the endpoint takes them is not among the demands on requests.
- Storing a credential anew while a load of it waits for its token.
- System prompts and message timestamps: the resumed prompt omits skill contexts, so no claim is made about prompts; `created_at` is never sent to the model.
- HTTP, SQLite, WebSocket framing, process spawning and the tokio runtime: their results are inputs, the tables maps and sequences.
- Concurrent turns of one user and failed inserts while a turn is stored: the code gives no order there.
- `handle_approval` and the `pending_approvals` table: the turn never fills that table.
- Base64, AES-GCM, HKDF, SHA-256, JWT signing and the PKCE challenge: encryption is symbolic, verifiers are opaque strings.
- Listing of credentials and schedules, skill registration, memory tools, `file_read`, `file_write`, `glob` and `bash`: decided by one query or one branch.
- Names and payloads of scheduled rows: carried along unchanged by the code.
- The command-line client, configuration, deployment files and archived specifications.
