/** Which reply ends a turn, with what outcome, after how many model calls, and which tool calls the
    turn has executed by then. */
module TurnOutcome {
  import opened Prelude
  import opened Messages
  import opened ToolExecution
  import opened AgentLoop
  import opened Harness
  import opened TurnSafety
  import opened Permissions
  import Simulation

  /** Continuations asked for since the last tool boundary before reply j. */
  function Continued(replies: seq<Reply>, j: nat): nat
    requires j <= |replies|
  {
    if j == 0 || ToolStop(replies[j - 1]) then 0
    else Continued(replies, j - 1) + (if replies[j - 1].Reply? && replies[j - 1].stop.MaxTokens? then 1 else 0)
  }

  /** The turn ends at reply j: the call fails, the reply ends the turn, it stops for tool use without
      calling any, or a continuation is asked for after the budget of its segment is spent. */
  predicate TurnHalts(budget: Budget, replies: seq<Reply>, j: nat) {
    || j >= |replies|
    || replies[j].Failed?
    || replies[j].stop.EndTurn?
    || replies[j].stop.StopSequence?
    || (replies[j].stop.ToolUseStop? && CallsOf(replies[j].content) == [])
    || (replies[j].stop.MaxTokens? && Continued(replies, j) >= budget.continuations)
  }

  ghost predicate RunsThrough(budget: Budget, replies: seq<Reply>, n: nat) {
    forall i: nat :: i < n ==> !TurnHalts(budget, replies, i)
  }

  /** Reply j ended a segment but not the turn. */
  predicate AtBoundary(replies: seq<Reply>, j: nat) {
    j < |replies| && ToolStop(replies[j]) && CallsOf(replies[j].content) != []
  }

  /** The calls of the tool-use stops among the first n replies. */
  function ToolCallsIn(replies: seq<Reply>, n: nat): seq<ToolCall>
    requires n <= |replies|
  {
    if n == 0 then []
    else ToolCallsIn(replies, n - 1) + (if ToolStop(replies[n - 1]) then CallsOf(replies[n - 1].content) else [])
  }

  // ---------------------------------------------------------------- one segment

  /** A segment ended at reply j. */
  ghost predicate EndedAt(budget: Budget, all: seq<Reply>, log: seq<ToolCall>, seg: LoopEnd, j: nat) {
    && j <= |all| && RunsThrough(budget, all, j)
    && (TurnHalts(budget, all, j) || AtBoundary(all, j))
    && |seg.st.sent| == j + 1
    && seg.st.replies == (if j < |all| then all[j + 1..] else [])
    && seg.st.log == log
    && Verdict(budget, all, j, seg.out)
  }

  lemma SegmentEndsNow(budget: Budget, all: seq<Reply>, st: LoopState, used: nat, c: nat)
    requires c <= |all| && st.replies == all[c..] && |st.sent| == c && used == Continued(all, c)
    requires Round(budget, None, st, used).Stop? && RunsThrough(budget, all, c)
    ensures EndedAt(budget, all, st.log, Round(budget, None, st, used).e, c)
  {
    RoundHalts(budget, None, st, used);
    assert MaxTokensBefore(st.replies, 0) == 0;
  }

  lemma SegmentGoesOn(budget: Budget, all: seq<Reply>, st: LoopState, used: nat, c: nat)
    requires c <= |all| && st.replies == all[c..] && |st.sent| == c && used == Continued(all, c)
    requires Round(budget, None, st, used).Again? && RunsThrough(budget, all, c)
    ensures var s := Round(budget, None, st, used);
            && c < |all| && s.next.replies == all[c + 1..] && |s.next.sent| == c + 1 && s.next.log == st.log
            && s.used == Continued(all, c + 1) == used + 1 <= budget.continuations
            && RunsThrough(budget, all, c + 1) && ToolCallsIn(all, c + 1) == ToolCallsIn(all, c)
  {
    RoundGoesOn(budget, st, used);
    hide Round;
    assert st.replies[0] == all[c];
  }

  lemma RoundGoesOn(budget: Budget, st: LoopState, used: nat)
    requires Round(budget, None, st, used).Again?
    ensures var s := Round(budget, None, st, used);
            && st.replies != [] && st.replies[0].Reply? && st.replies[0].stop.MaxTokens?
            && s.used == used + 1 <= budget.continuations
            && s.next.replies == st.replies[1..] && s.next.sent == st.sent + [st.ctx] && s.next.log == st.log
  {}

  lemma {:induction false} SegmentEnds(budget: Budget, all: seq<Reply>, st: LoopState, iterations: nat, used: nat,
                                       c: nat)
    returns (j: nat)
    requires c <= |all| && st.replies == all[c..] && |st.sent| == c
    requires used == Continued(all, c) <= budget.continuations && budget.continuations - used < iterations
    requires RunsThrough(budget, all, c)
    ensures j <= |all| && EndedAt(budget, all, st.log, LoopFrom(budget, None, st, iterations, used), j)
    ensures ToolCallsIn(all, j) == ToolCallsIn(all, c)
    decreases iterations
  {
    hide Round, EndedAt, RunsThrough, Continued, ToolCallsIn;
    if Round(budget, None, st, used).Stop? {
      j := c;
      SegmentEndsNow(budget, all, st, used, c);
    } else {
      var Again(next, used') := Round(budget, None, st, used);
      SegmentGoesOn(budget, all, st, used, c);
      j := SegmentEnds(budget, all, next, iterations - 1, used', c + 1);
    }
  }

  // ---------------------------------------------------------------- the calls of a turn

  lemma {:induction false} ResolveConcat(env: Environment, r: Resolved, a: seq<ToolCall>, b: seq<ToolCall>)
    ensures ResolveCalls(env, r, a + b) == ResolveCalls(env, ResolveCalls(env, r, a), b)
    decreases |a|
  {
    if a == [] {
      assert a + b == b;
    } else {
      ResolveConcat(env, ResolveCall(env, r, a[0]), a[1..], b);
      assert (a + b)[1..] == a[1..] + b;
    }
  }

  /** What is executed and asked does not depend on the results collected so far. */
  lemma {:induction false} ResultsDoNotMatter(env: Environment, log: seq<ToolCall>, prompts: nat,
                                              results: seq<ToolResult>, others: seq<ToolResult>, calls: seq<ToolCall>)
    ensures var r, r' := ResolveCalls(env, Resolved(log, prompts, results), calls),
                         ResolveCalls(env, Resolved(log, prompts, others), calls);
            r.log == r'.log && r.prompts == r'.prompts
    decreases |calls|
  {
    if calls != [] {
      var r := ResolveCall(env, Resolved(log, prompts, results), calls[0]);
      var r' := ResolveCall(env, Resolved(log, prompts, others), calls[0]);
      ResultsDoNotMatter(env, r.log, r.prompts, r.results, r'.results, calls[1..]);
    }
  }

  /** Executed calls and prompts after the calls of the first n replies have been resolved one by one. */
  ghost predicate ResolvedBy(env: Environment, log0: seq<ToolCall>, all: seq<Reply>, n: nat, log: seq<ToolCall>,
                             prompts: nat)
    requires n <= |all|
  {
    var r := ResolveCalls(env, Resolved(log0, 0, []), ToolCallsIn(all, n));
    r.log == log && r.prompts == prompts
  }

  lemma ResolvedNext(env: Environment, log0: seq<ToolCall>, all: seq<Reply>, j: nat, log: seq<ToolCall>, prompts: nat)
    requires AtBoundary(all, j) && ResolvedBy(env, log0, all, j, log, prompts)
    ensures var r := ResolveCalls(env, Resolved(log, prompts, []), CallsOf(all[j].content));
            ResolvedBy(env, log0, all, j + 1, r.log, r.prompts)
  {
    var calls := CallsOf(all[j].content);
    var r := ResolveCalls(env, Resolved(log0, 0, []), ToolCallsIn(all, j));
    ResolveConcat(env, Resolved(log0, 0, []), ToolCallsIn(all, j), calls);
    ResultsDoNotMatter(env, log, prompts, r.results, [], calls);
  }

  // ---------------------------------------------------------------- one turn

  /** The turn ended at reply h, the first to halt it, having resolved the calls of the replies before. */
  ghost predicate TurnEndedAt(env: Environment, all: seq<Reply>, log: seq<ToolCall>, end: TurnEnd, h: nat) {
    && h <= |all| && TurnHalts(env.budget, all, h) && RunsThrough(env.budget, all, h)
    && |end.sent| == h + 1
    && Verdict(env.budget, all, h, end.out)
    && ResolvedBy(env, log, all, h, end.log, end.prompts)
  }

  lemma VerdictOnTotal(budget: Budget, all: seq<Reply>, h: nat, r: RunResult, total: seq<Message>)
    requires Verdict(budget, all, h, Ok(r)) && r.pending == []
    ensures Verdict(budget, all, h, Ok(RunResult(total, r.answer, [])))
  {}

  lemma BoundaryIsPending(budget: Budget, all: seq<Reply>, log: seq<ToolCall>, seg: LoopEnd, j: nat)
    requires EndedAt(budget, all, log, seg, j)
    ensures if TurnHalts(budget, all, j) then seg.out.Ok? ==> seg.out.value.pending == []
            else seg.out.Ok? && seg.out.value.pending == CallsOf(all[j].content) != []
  {}

  lemma BoundaryRunsThrough(budget: Budget, all: seq<Reply>, j: nat)
    requires RunsThrough(budget, all, j) && !TurnHalts(budget, all, j) && AtBoundary(all, j)
    ensures RunsThrough(budget, all, j + 1) && Continued(all, j + 1) == 0
  {}

  /** The segment after the boundary at reply j ends at some later reply. */
  lemma NextSegmentEnds(env: Environment, all: seq<Reply>, log0: seq<ToolCall>, ts: TurnState, total: seq<Message>,
                        seg: LoopEnd, j: nat)
    returns (j': nat)
    requires env.budget.continuations < env.budget.iterations
    requires j <= |all| && EndedAt(env.budget, all, seg.st.log, seg, j) && !TurnHalts(env.budget, all, j)
    requires ResolvedBy(env, log0, all, j, seg.st.log, ts.prompts) && seg.out.Ok?
    ensures var (seg', ts') := NextSegment(env, ts, total, seg);
            && j < j' <= |all|
            && EndedAt(env.budget, all, seg'.st.log, seg', j')
            && ResolvedBy(env, log0, all, j', seg'.st.log, ts'.prompts)
            && seg.out.value.pending == CallsOf(all[j].content)
            && ToolCallsIn(all, j') == ToolCallsIn(all, j) + seg.out.value.pending
  {
    BoundaryIsPending(env.budget, all, seg.st.log, seg, j);
    BoundaryRunsThrough(env.budget, all, j);
    ResolvedNext(env, log0, all, j, seg.st.log, ts.prompts);
    var r := ResolveCalls(env, Resolved(seg.st.log, ts.prompts, []), seg.out.value.pending);
    var ts' := Touch(env, ts.(prompts := r.prompts));
    var st := Started(seg.st.replies, r.log, seg.st.sent, Window(ts'.history) + total, ToolResultMessage(r.results));
    hide ResolveCalls, ToolCallsIn, TurnHalts, RunsThrough, Verdict, LoopFrom, Newest, Continued;
    j' := SegmentEnds(env.budget, all, st, env.budget.iterations, 0, j + 1);
  }

  lemma {:induction false} AfterSegmentEnds(env: Environment, all: seq<Reply>, log0: seq<ToolCall>, ts: TurnState,
                                            before: seq<Message>, seg: LoopEnd, j: nat)
    returns (h: nat)
    requires env.budget.continuations < env.budget.iterations
    requires j <= |all| && EndedAt(env.budget, all, seg.st.log, seg, j)
    requires ResolvedBy(env, log0, all, j, seg.st.log, ts.prompts)
    ensures TurnEndedAt(env, all, log0, AfterSegment(env, ts, before, seg), h)
    decreases |all| - j
  {
    hide NextSegment, ResolvedBy, RunsThrough, Verdict, Touch, Store;
    BoundaryIsPending(env.budget, all, seg.st.log, seg, j);
    if TurnHalts(env.budget, all, j) {
      h := j;
      if seg.out.Ok? {
        VerdictOnTotal(env.budget, all, h, seg.out.value, before + seg.out.value.newMessages);
      }
    } else {
      var total := before + seg.out.value.newMessages;
      var (seg', ts') := NextSegment(env, ts, total, seg);
      var j' := NextSegmentEnds(env, all, log0, ts, total, seg, j);
      h := AfterSegmentEnds(env, all, log0, ts', total, seg', j');
    }
  }

  lemma FirstSegmentEnds(env: Environment, history: seq<Message>, all: seq<Reply>, log: seq<ToolCall>, text: string)
    returns (j: nat)
    requires env.budget.continuations < env.budget.iterations
    ensures j <= |all| && EndedAt(env.budget, all, log, FirstSegment(env, history, all, log, text), j)
    ensures ResolvedBy(env, log, all, j, log, 0) && ToolCallsIn(all, j) == []
  {
    hide Newest, EndedAt;
    var st := Started(all, log, [], Window(history), UserText(text));
    assert all[0..] == all;
    j := SegmentEnds(env.budget, all, st, env.budget.iterations, 0, 0);
  }

  /** A turn ends at the first reply that halts it, with that reply's outcome and one model call per
      reply; and what it has executed and asked by then is what resolving, one by one, the calls of all
      the replies before executes and asks. */
  lemma FirstTurnHaltDecides(env: Environment, history: seq<Message>, all: seq<Reply>, log: seq<ToolCall>, text: string)
    returns (h: nat)
    requires env.setup.None? && env.budget.continuations < env.budget.iterations
    ensures TurnEndedAt(env, all, log, Turn(env, history, all, log, text), h)
  {
    var j := FirstSegmentEnds(env, history, all, log, text);
    hide EndedAt, ResolvedBy, FirstSegment, AfterSegment;
    h := AfterSegmentEnds(env, all, log, TurnState(history, 0, 0), [], FirstSegment(env, history, all, log, text), j);
  }

  // ---------------------------------------------------------------- how many calls

  lemma {:induction false} ContinuedIsBounded(budget: Budget, all: seq<Reply>, j: nat)
    requires j <= |all| && RunsThrough(budget, all, j)
    ensures Continued(all, j) <= budget.continuations
    ensures j <= (budget.continuations + 1) * ToolStops(all, j) + Continued(all, j)
  {
    if j > 0 {
      ContinuedIsBounded(budget, all, j - 1);
      assert !TurnHalts(budget, all, j - 1);
      if ToolStop(all[j - 1]) {
        Distribute(budget.continuations + 1, ToolStops(all, j - 1));
      }
    }
  }

  lemma Distribute(a: nat, b: nat)
    ensures a * (b + 1) == a * b + a
  {}

  /** A turn makes at most max_continuations + 1 model calls for each of its segments. */
  lemma ToolStopsBoundCalls(env: Environment, history: seq<Message>, all: seq<Reply>, log: seq<ToolCall>, text: string)
    requires env.setup.None? && env.budget.continuations < env.budget.iterations
    ensures var n := |Turn(env, history, all, log, text).sent|;
            1 <= n <= |all| + 1 && n <= (env.budget.continuations + 1) * (1 + ToolStops(all, n - 1))
  {
    hide Turn;
    var h := FirstTurnHaltDecides(env, history, all, log, text);
    ContinuedIsBounded(env.budget, all, h);
    Distribute(env.budget.continuations + 1, ToolStops(all, h));
  }

  /** n requests for one and the same tool call, then an answer. */
  function Asking(n: nat): (replies: seq<Reply>)
    ensures |replies| == n + 1
  {
    seq(n, i => ASK) + [ANSWER]
  }

  lemma AskingHaltsLast(budget: Budget, n: nat)
    ensures TurnHalts(budget, Asking(n), n) && RunsThrough(budget, Asking(n), n)
  {
    assert CallsOf(ASK.content) == [ToolCall("t1", "grep", JNull)] + CallsOf(ASK.content[1..]);
  }

  /** Each resume starts with a fresh budget: a turn may go through any number of tool calls, where a
      single run with the same budget gives up. */
  lemma TurnHasNoOverallBound(env: Environment, history: seq<Message>, log: seq<ToolCall>, text: string, n: nat)
    requires env.setup.None? && env.budget.continuations < env.budget.iterations
    ensures var turn := Turn(env, history, Asking(n), log, text);
            turn.out.Ok? && |turn.sent| == n + 1
    ensures Simulation.Undisturbed(env) ==>
              (Simulation.InlineRun(env, history, Asking(n), log, text).out.Ok? <==> n < env.budget.iterations)
  {
    hide Turn, ResolveCalls, Simulation.InlineRun;
    var h := FirstTurnHaltDecides(env, history, Asking(n), log, text);
    AskingHaltsLast(env.budget, n);
    assert h == n;
    if Simulation.Undisturbed(env) {
      InlineRunIsBounded(env, history, log, text, n);
    }
  }

  lemma InlineRunIsBounded(env: Environment, history: seq<Message>, log: seq<ToolCall>, text: string, n: nat)
    requires Simulation.Undisturbed(env)
    requires var turn := Turn(env, history, Asking(n), log, text); turn.out.Ok? && |turn.sent| == n + 1
    ensures Simulation.InlineRun(env, history, Asking(n), log, text).out.Ok? <==> n < env.budget.iterations
  {
    hide Turn, Simulation.InlineRun, Simulation.SameRun, Simulation.SerialToolUse;
    var turn := Turn(env, history, Asking(n), log, text);
    TurnFollowsReplies(env, history, Asking(n), log, text);
    assert turn.replies == [];
    hide TurnFollows;
    AskingIsSerial(env.tools, n, turn);
    Simulation.TurnSimulatesInlineRun(env, history, Asking(n), log, text);
    NothingCutOff(Asking(n), n + 1);
  }

  lemma {:induction false} NothingCutOff(replies: seq<Reply>, j: nat)
    requires j <= |replies| && forall i :: 0 <= i < |replies| ==> replies[i] == ASK || replies[i] == ANSWER
    ensures MaxTokensBefore(replies, j) == 0
    decreases j
  {
    if j > 0 {
      NothingCutOff(replies[1..], j - 1);
    }
  }

  lemma AskingIsSerial(tools: Tools, n: nat, turn: TurnEnd)
    requires |turn.replies| <= n + 1
    ensures Simulation.SerialToolUse(tools, Asking(n), turn)
  {
    assert CallsOf(ASK.content) == [ToolCall("t1", "grep", JNull)] + CallsOf(ASK.content[1..]);
    assert ASK.content[1..] == [];
    forall i | 0 <= i < n + 1 ensures Simulation.SerialReply(tools, Asking(n)[i]) {}
  }

  // ---------------------------------------------------------------- one call

  /** What the model is told of a call: what running it gave, or that it was not permitted. */
  function Told(tools: Tools, log: seq<ToolCall>, call: ToolCall, runs: bool): ContentBlock {
    if !runs then ToolResultBlock(call.id, "Tool execution error: " + "Permission to use tool was denied", true)
    else
      match tools.run(log, call)
      case Ran(content, isError) => ToolResultBlock(call.id, content, isError)
      case Raised(e) => ToolResultBlock(call.id, "Tool execution error: " + e, true)
  }

  lemma ToldOf(tools: Tools, log: seq<ToolCall>, call: ToolCall, results: seq<ToolResult>)
    ensures ToBlocks(results + [ResultFor(call, tools.run(log, call))]) ==
            ToBlocks(results) + [Told(tools, log, call, true)]
    ensures ToBlocks(results + [ErrorFor(call.id, "Permission to use tool was denied")]) ==
            ToBlocks(results) + [Told(tools, log, call, false)]
  {
    ToBlocksSnoc(results, ResultFor(call, tools.run(log, call)));
    ToBlocksSnoc(results, ErrorFor(call.id, "Permission to use tool was denied"));
    hide ToBlocks;
  }

  /** The call is asked about if it is not allowed and there is a session to ask; it runs unless that is
      answered false; and the model is told of it, and of nothing else. */
  ghost predicate ResolvesTo(env: Environment, before: Resolved, call: ToolCall, after: Resolved) {
    var asks := !env.permission(call).Allow? && env.mode.Session?;
    var runs := asks ==> env.mode.answers(before.prompts);
    && after.log == (if runs then before.log + [call] else before.log)
    && after.prompts == before.prompts + (if asks then 1 else 0)
    && ToolResultMessage(after.results).content ==
       ToolResultMessage(before.results).content + [Told(env.tools, before.log, call, runs)]
  }

  lemma OneCallResolves(env: Environment, r: Resolved, call: ToolCall)
    ensures ResolvesTo(env, r, call, ResolveCall(env, r, call))
  {
    ToldOf(env.tools, r.log, call, r.results);
    hide ToBlocks, Told, ResultFor, ErrorFor;
  }

  /** Each call of a turn is resolved like that, after the calls before it. */
  lemma CallResolves(env: Environment, r: Resolved, calls: seq<ToolCall>, i: nat)
    requires i < |calls|
    ensures ResolvesTo(env, ResolveCalls(env, r, calls[..i]), calls[i], ResolveCalls(env, r, calls[..i + 1]))
  {
    OneCallResolves(env, ResolveCalls(env, r, calls[..i]), calls[i]);
    hide ResolvesTo, ResolveCall;
    assert calls[..i + 1] == calls[..i] + [calls[i]];
    ResolveConcat(env, r, calls[..i], [calls[i]]);
    assert [calls[i]][1..] == [];
  }

  // ---------------------------------------------------------------- denied calls

  /** The policy of the server. */
  ghost predicate DefaultPolicies(lower: Lowering, env: Environment) {
    forall call :: env.permission(call) == Check(lower, call)
  }

  /** A call whose command the policy chain denies is executed exactly when approval is automatic, and
      then unasked, or when its own prompt was answered true. */
  lemma DeniedCallRunsIff(lower: Lowering, env: Environment, r: Resolved, calls: seq<ToolCall>, i: nat)
    requires DefaultPolicies(lower, env) && i < |calls| && CommandDenied(lower, calls[i])
    ensures var before, after := ResolveCalls(env, r, calls[..i]), ResolveCalls(env, r, calls[..i + 1]);
            && after.log == before.log +
               (if env.mode.AutoApprove? || env.mode.answers(before.prompts) then [calls[i]] else [])
            && after.prompts == before.prompts + (if env.mode.AutoApprove? then 0 else 1)
  {
    CheckDecides(lower, calls[i]);
    CallResolves(env, r, calls, i);
    hide CommandDenied, Check, ResolveCalls, Told, ToBlocks, ReadsOnly, BareName;
  }

  const WIPE: string := "rm -rf /"
  const WIPE_CALL: ToolCall := ToolCall("t1", "bash", JObject(map["command" := JString(WIPE)]))
  const ASK_WIPE: Reply := Reply(ToolUseStop, [ToolUse("t1", "bash", JObject(map["command" := JString(WIPE)]))])

  lemma WipeIsDenied(lower: Lowering)
    requires lower(WIPE) == WIPE
    ensures CommandDenied(lower, WIPE_CALL) && Check(lower, WIPE_CALL).Deny?
  {
    assert Command(WIPE_CALL.input) == WIPE;
    assert WIPE[0..|WIPE|] == WIPE;
    assert Strings.OccursAt(WIPE, WIPE, 0);
    assert DENY_PATTERNS[0] == WIPE;
    CheckDecides(lower, WIPE_CALL);
  }

  /** The chain denies it, and yet: a turn with automatic approval, as for scheduled and HTTP messages,
      runs `rm -rf /` unasked; a turn in a session asks, and runs it if the answer is true. */
  lemma WipeRunsIff(lower: Lowering, env: Environment, history: seq<Message>, log: seq<ToolCall>, text: string)
    requires lower(WIPE) == WIPE && DefaultPolicies(lower, env)
    requires env.setup.None? && env.budget.continuations < env.budget.iterations
    ensures var end := Turn(env, history, [ASK_WIPE, ANSWER], log, text);
            && (end.log == log + [WIPE_CALL] <==> env.mode.AutoApprove? || env.mode.answers(0))
            && end.prompts == (if env.mode.AutoApprove? then 0 else 1)
  {
    hide Turn, TurnHalts, RunsThrough, Verdict, CommandDenied, Check, ResolveCalls, ToolCallsIn;
    var all := [ASK_WIPE, ANSWER];
    var h := FirstTurnHaltDecides(env, history, all, log, text);
    WipeIsDenied(lower);
    WipeTurnHalts(env.budget, h);
    DeniedCallRunsIff(lower, env, Resolved(log, 0, []), [WIPE_CALL], 0);
    assert [WIPE_CALL][..0] == [] && [WIPE_CALL][..1] == [WIPE_CALL];
    NothingToResolve(env, Resolved(log, 0, []));
    assert |log + [WIPE_CALL]| != |log + []|;
  }

  lemma NothingToResolve(env: Environment, r: Resolved)
    ensures ResolveCalls(env, r, []) == r
  {}

  lemma WipeTurnHalts(budget: Budget, h: nat)
    requires var all := [ASK_WIPE, ANSWER]; h <= 2 && TurnHalts(budget, all, h) && RunsThrough(budget, all, h)
    ensures h == 1 && ToolCallsIn([ASK_WIPE, ANSWER], h) == [WIPE_CALL]
  {
    var all := [ASK_WIPE, ANSWER];
    assert CallsOf(ASK_WIPE.content) == [WIPE_CALL] + CallsOf(ASK_WIPE.content[1..]);
    assert ASK_WIPE.content[1..] == [];
    assert !TurnHalts(budget, all, 0) && TurnHalts(budget, all, 1);
    assert ToolCallsIn(all, 1) == ToolCallsIn(all, 0) + [WIPE_CALL];
  }
}
