/** The segmented turn of the server against `Agent::run` with an executor of its own. */
module Simulation {
  import opened Prelude
  import opened Messages
  import opened ToolExecution
  import opened AgentLoop
  import opened Harness
  import opened TurnSafety

  /** A tool-use reply carries calls, of which at most the first is concurrency-safe. */
  ghost predicate SerialReply(tools: Tools, r: Reply) {
    ToolStop(r) ==> CallsOf(r.content) != [] && OnlyFirstSafe(tools, CallsOf(r.content))
  }

  /** The replies that a turn consumes are like that. */
  ghost predicate SerialToolUse(tools: Tools, replies: seq<Reply>, turn: TurnEnd) {
    |turn.replies| <= |replies| && forall i :: 0 <= i < |replies| - |turn.replies| ==> SerialReply(tools, replies[i])
  }

  lemma SerialTail(tools: Tools, replies: seq<Reply>, turn: TurnEnd)
    requires SerialToolUse(tools, replies, turn) && replies != [] && |turn.replies| < |replies|
    ensures SerialReply(tools, replies[0]) && SerialToolUse(tools, replies[1..], turn)
  {
    forall i | 0 <= i < |replies[1..]| - |turn.replies| ensures SerialReply(tools, replies[1..][i]) {
      assert SerialReply(tools, replies[i + 1]);
    }
  }

  /** Approvals are automatic and nobody clears the history during the turn. */
  ghost predicate Undisturbed(env: Environment) {
    env.setup.None? && env.mode.AutoApprove? && forall k :: !env.cleared(k)
  }

  /** `Agent::run` with an executor on the same history. */
  function InlineRun(env: Environment, history: seq<Message>, replies: seq<Reply>, log: seq<ToolCall>,
                     text: string): LoopEnd {
    RunLoop(env.budget, Some(env.tools), Started(replies, log, [], Window(history), UserText(text)))
  }

  /** The two runs agree in everything they report and leave behind. */
  ghost predicate SameRun(inline: LoopEnd, turn: TurnEnd) {
    && inline.out.Ok? && turn.out == inline.out
    && turn.log == inline.st.log
    && turn.sent == inline.st.sent
    && turn.replies == inline.st.replies
  }

  function UsedReplies(replies: seq<Reply>, turn: TurnEnd): int {
    |replies| - |turn.replies|
  }

  /** The turn stayed within what is left of the budgets of a single run. */
  ghost predicate WithinBudgets(budget: Budget, replies: seq<Reply>, iterations: nat, used: nat, turn: TurnEnd) {
    && 0 <= UsedReplies(replies, turn) <= iterations
    && UsedReplies(replies, turn) <= |replies|
    && used + MaxTokensBefore(replies, UsedReplies(replies, turn)) <= budget.continuations
  }

  ghost predicate Agree(budget: Budget, replies: seq<Reply>, iterations: nat, used: nat, inline: LoopEnd,
                        turn: TurnEnd) {
    && (inline.out.Ok? <==> turn.out.Ok? && WithinBudgets(budget, replies, iterations, used, turn))
    && (inline.out.Ok? ==> SameRun(inline, turn))
  }

  /** One more reply at the front: the budgets shrink by what it cost. */
  lemma AgreeOneRound(budget: Budget, replies: seq<Reply>, iterations: nat, used: nat, used': nat, inline: LoopEnd,
                      turn: TurnEnd)
    requires replies != [] && iterations > 0
    requires used' == used + MaxTokensBefore(replies, 1)
    requires |turn.replies| <= |replies| - 1
    requires Agree(budget, replies[1..], iterations - 1, used', inline, turn)
    ensures Agree(budget, replies, iterations, used, inline, turn)
  {
    hide SameRun;
    assert MaxTokensBefore(replies[1..], 0) == 0;
    var n := UsedReplies(replies, turn);
    assert MaxTokensBefore(replies, n) == MaxTokensBefore(replies, 1) + MaxTokensBefore(replies[1..], n - 1);
    hide MaxTokensBefore;
  }

  lemma NextSegmentUndisturbed(env: Environment, ts: TurnState, total: seq<Message>, seg: LoopEnd)
    requires Undisturbed(env) && seg.out.Ok? && OnlyFirstSafe(env.tools, seg.out.value.pending)
    ensures var x := ExecuteTools(env.tools, seg.st.log, seg.out.value.pending);
            var (seg', ts') := NextSegment(env, ts, total, seg);
            && ts' == ts.(touches := ts.touches + 1)
            && seg' == RunLoop(env.budget, None, Started(seg.st.replies, x.log, seg.st.sent, Window(ts.history) + total,
                                                         ToolResultMessage(x.results)))
  {
    var pending := seg.out.value.pending;
    AutoApproveIsSerial(env, Resolved(seg.st.log, ts.prompts, []), pending);
    OnlyFirstSafeIsSerial(env.tools, seg.st.log, pending);
    var rs := SerialResults(env.tools, seg.st.log, pending);
    assert [] + rs == rs;
  }

  /** A segment that swallows a cut-off reply has consumed at least that reply. */
  lemma CutReplyCosts(env: Environment, ts: TurnState, st: LoopState, before: seq<Message>, segSt: LoopState, n: nat,
                      used: nat)
    requires segSt.replies == st.replies && st.replies != [] && st.replies[0].Reply? && st.replies[0].stop.MaxTokens?
    ensures var turn := AfterSegment(env, ts, before, LoopFrom(env.budget, None, segSt, n, used));
            turn.out.Ok? ==>
              var k := UsedReplies(st.replies, turn);
              1 <= k <= |st.replies| && MaxTokensBefore(st.replies, k) >= 1
  {}

  /** `inline` runs on from a state that a segment of the turn also reached, with no more iterations
      and no fewer continuations used than the segment. */
  ghost predicate Related(env: Environment, ts: TurnState, st: LoopState, before: seq<Message>, added: seq<Message>,
                          iterations: nat, used: nat, segIterations: nat, segUsed: nat) {
    && st.added == before + added
    && st.ctx == Window(ts.history) + st.added
    && iterations <= segIterations <= env.budget.iterations
    && segUsed <= used <= env.budget.continuations
  }

  /** How the turn ends that a segment in state `st`, with `added` of its own, is part of. */
  function TurnFrom(env: Environment, ts: TurnState, st: LoopState, before: seq<Message>, added: seq<Message>,
                    segIterations: nat, segUsed: nat): TurnEnd {
    AfterSegment(env, ts, before, LoopFrom(env.budget, None, st.(added := added), segIterations, segUsed))
  }

  ghost predicate RunsAgree(env: Environment, ts: TurnState, st: LoopState, before: seq<Message>, added: seq<Message>,
                            iterations: nat, used: nat, segIterations: nat, segUsed: nat) {
    Agree(env.budget, st.replies, iterations, used,
          LoopFrom(env.budget, Some(env.tools), st, iterations, used),
          TurnFrom(env, ts, st, before, added, segIterations, segUsed))
  }

  lemma CutReplyAgrees(env: Environment, ts: TurnState, st: LoopState, before: seq<Message>, added: seq<Message>,
                       iterations: nat, used: nat, segIterations: nat, segUsed: nat)
    returns (next: LoopState, added': seq<Message>)
    requires Related(env, ts, st, before, added, iterations, used, segIterations, segUsed)
    requires SerialToolUse(env.tools, st.replies, TurnFrom(env, ts, st, before, added, segIterations, segUsed))
    requires iterations > 0 && used < env.budget.continuations
    requires st.replies != [] && st.replies[0].Reply? && st.replies[0].stop.MaxTokens?
    ensures segIterations > 0
    ensures SerialToolUse(env.tools, next.replies,
                          TurnFrom(env, ts, next, before, added', segIterations - 1, segUsed + 1))
    ensures Related(env, ts, next, before, added', iterations - 1, used + 1, segIterations - 1, segUsed + 1)
    ensures RunsAgree(env, ts, next, before, added', iterations - 1, used + 1, segIterations - 1, segUsed + 1)
            ==> RunsAgree(env, ts, st, before, added, iterations, used, segIterations, segUsed)
  {
    var a, u := Message(Assistant, st.replies[0].content), ContinueMessage();
    var segSt := st.(added := added);
    next := st.Call().Push(a).Push(u);
    added' := added + [a] + [u];
    assert MaxTokensBefore(st.replies[1..], 0) == 0;
    assert segSt.Call().Push(a).Push(u) == next.(added := added');
    assert before + added' == next.added;
    var inline := LoopFrom(env.budget, Some(env.tools), next, iterations - 1, used + 1);
    var seg := LoopFrom(env.budget, None, next.(added := added'), segIterations - 1, segUsed + 1);
    assert inline == LoopFrom(env.budget, Some(env.tools), st, iterations, used);
    assert seg == LoopFrom(env.budget, None, segSt, segIterations, segUsed);
    var turn := AfterSegment(env, ts, before, seg);
    SerialTail(env.tools, st.replies, turn);
    if Agree(env.budget, next.replies, iterations - 1, used + 1, inline, turn) {
      AgreeOneRound(env.budget, st.replies, iterations, used, used + 1, inline, turn);
    }
  }

  lemma CutReplyFails(env: Environment, ts: TurnState, st: LoopState, before: seq<Message>, added: seq<Message>,
                      iterations: nat, segIterations: nat, segUsed: nat)
    requires iterations > 0
    requires st.replies != [] && st.replies[0].Reply? && st.replies[0].stop.MaxTokens?
    ensures RunsAgree(env, ts, st, before, added, iterations, env.budget.continuations, segIterations, segUsed)
  {
    CutReplyCosts(env, ts, st, before, st.(added := added), segIterations, segUsed);
  }

  lemma ToolReplyAgrees(env: Environment, ts: TurnState, st: LoopState, before: seq<Message>, added: seq<Message>,
                        iterations: nat, used: nat, segIterations: nat, segUsed: nat)
    returns (next: LoopState, ts': TurnState, before': seq<Message>, added': seq<Message>)
    requires Related(env, ts, st, before, added, iterations, used, segIterations, segUsed) && iterations > 0
    requires Undisturbed(env)
    requires SerialToolUse(env.tools, st.replies, TurnFrom(env, ts, st, before, added, segIterations, segUsed))
    requires st.replies != [] && st.replies[0].Reply? && st.replies[0].stop.ToolUseStop?
    ensures SerialToolUse(env.tools, next.replies, TurnFrom(env, ts', next, before', added', env.budget.iterations, 0))
    ensures Related(env, ts', next, before', added', iterations - 1, used, env.budget.iterations, 0)
    ensures RunsAgree(env, ts', next, before', added', iterations - 1, used, env.budget.iterations, 0)
            ==> RunsAgree(env, ts, st, before, added, iterations, used, segIterations, segUsed)
  {
    hide ExecuteTools, NextSegment, ToBlocks, Newest;
    var reply := st.replies[0];
    TurnUsesReply(env, ts, st, before, added, segIterations, segUsed);
    SerialTail(env.tools, st.replies, TurnFrom(env, ts, st, before, added, segIterations, segUsed));
    var a := Message(Assistant, reply.content);
    var seg := LoopFrom(env.budget, None, st.(added := added), segIterations, segUsed);
    before' := before + (added + [a]);
    assert before' == st.added + [a];
    NextSegmentUndisturbed(env, ts, before', seg);
    var x := ExecuteTools(env.tools, st.log, CallsOf(reply.content));
    var m := ToolResultMessage(x.results);
    next := st.Call().Push(a).(log := x.log).Push(m);
    added' := [m];
    ts' := ts.(touches := ts.touches + 1);
    var seg' := RunLoop(env.budget, None, next.(added := added'));
    assert next.(added := added') == Started(seg.st.replies, x.log, seg.st.sent, Window(ts.history) + before', m);
    assert NextSegment(env, ts, before', seg) == (seg', ts');
    assert AfterSegment(env, ts, before, seg) == AfterSegment(env, ts', before', seg');
    assert MaxTokensBefore(st.replies[1..], 0) == 0;
    var inline := LoopFrom(env.budget, Some(env.tools), next, iterations - 1, used);
    if Agree(env.budget, next.replies, iterations - 1, used, inline, AfterSegment(env, ts', before', seg')) {
      AgreeOneRound(env.budget, st.replies, iterations, used, used, inline, AfterSegment(env, ts', before', seg'));
    }
  }

  lemma TurnUsesReply(env: Environment, ts: TurnState, st: LoopState, before: seq<Message>, added: seq<Message>,
                      segIterations: nat, segUsed: nat)
    requires segIterations > 0 && st.replies != []
    ensures |TurnFrom(env, ts, st, before, added, segIterations, segUsed).replies| < |st.replies|
  {}

  lemma LastReplyAgrees(env: Environment, ts: TurnState, st: LoopState, before: seq<Message>, added: seq<Message>,
                        iterations: nat, used: nat, segIterations: nat, segUsed: nat)
    requires Related(env, ts, st, before, added, iterations, used, segIterations, segUsed)
    requires || iterations == 0 || st.NextReply().Failed?
             || st.NextReply().stop.EndTurn? || st.NextReply().stop.StopSequence?
    ensures RunsAgree(env, ts, st, before, added, iterations, used, segIterations, segUsed)
  {
    assert MaxTokensBefore(st.replies, 0) == 0;
    if iterations > 0 && st.NextReply().Reply? {
      assert MaxTokensBefore(st.replies[1..], 0) == 0;
      var a := Message(Assistant, st.replies[0].content);
      assert before + (added + [a]) == st.added + [a];
    }
  }

  lemma CutReplyCase(env: Environment, ts: TurnState, st: LoopState, before: seq<Message>, added: seq<Message>,
                     iterations: nat, used: nat, segIterations: nat, segUsed: nat)
    requires Related(env, ts, st, before, added, iterations, used, segIterations, segUsed)
    requires Undisturbed(env) && iterations > 0 && used < env.budget.continuations
    requires SerialToolUse(env.tools, st.replies, TurnFrom(env, ts, st, before, added, segIterations, segUsed))
    requires st.replies != [] && st.replies[0].Reply? && st.replies[0].stop.MaxTokens?
    ensures RunsAgree(env, ts, st, before, added, iterations, used, segIterations, segUsed)
    decreases iterations, 0
  {
    hide RunsAgree, TurnFrom;
    var next, added' := CutReplyAgrees(env, ts, st, before, added, iterations, used, segIterations, segUsed);
    RelatedRunsAgree(env, ts, next, before, added', iterations - 1, used + 1, segIterations - 1, segUsed + 1);
  }

  lemma ToolReplyCase(env: Environment, ts: TurnState, st: LoopState, before: seq<Message>, added: seq<Message>,
                      iterations: nat, used: nat, segIterations: nat, segUsed: nat)
    requires Related(env, ts, st, before, added, iterations, used, segIterations, segUsed)
    requires Undisturbed(env) && iterations > 0
    requires SerialToolUse(env.tools, st.replies, TurnFrom(env, ts, st, before, added, segIterations, segUsed))
    requires st.replies != [] && st.replies[0].Reply? && st.replies[0].stop.ToolUseStop?
    ensures RunsAgree(env, ts, st, before, added, iterations, used, segIterations, segUsed)
    decreases iterations, 0
  {
    hide RunsAgree, TurnFrom;
    var next, ts', before', added' :=
      ToolReplyAgrees(env, ts, st, before, added, iterations, used, segIterations, segUsed);
    RelatedRunsAgree(env, ts', next, before', added', iterations - 1, used, env.budget.iterations, 0);
  }

  lemma {:induction false} RelatedRunsAgree(env: Environment, ts: TurnState, st: LoopState, before: seq<Message>,
                                            added: seq<Message>, iterations: nat, used: nat,
                                            segIterations: nat, segUsed: nat)
    requires Related(env, ts, st, before, added, iterations, used, segIterations, segUsed)
    requires Undisturbed(env)
    requires SerialToolUse(env.tools, st.replies, TurnFrom(env, ts, st, before, added, segIterations, segUsed))
    ensures RunsAgree(env, ts, st, before, added, iterations, used, segIterations, segUsed)
    decreases iterations, 1
  {
    var reply := st.NextReply();
    if iterations == 0 || reply.Failed? || reply.stop.EndTurn? || reply.stop.StopSequence? {
      LastReplyAgrees(env, ts, st, before, added, iterations, used, segIterations, segUsed);
    } else if reply.stop.ToolUseStop? {
      ToolReplyCase(env, ts, st, before, added, iterations, used, segIterations, segUsed);
    } else if used < env.budget.continuations {
      CutReplyCase(env, ts, st, before, added, iterations, used, segIterations, segUsed);
    } else {
      CutReplyFails(env, ts, st, before, added, iterations, segIterations, segUsed);
    }
  }

  /** The inline run succeeds exactly when the turn does and needs, over all its segments, no more
      model calls and continuations than one run may use; then both report the same messages and
      answer, execute the same calls and send the same requests. */
  lemma TurnSimulatesInlineRun(env: Environment, history: seq<Message>, replies: seq<Reply>, log: seq<ToolCall>,
                               text: string)
    requires Undisturbed(env) && SerialToolUse(env.tools, replies, Turn(env, history, replies, log, text))
    ensures var inline := InlineRun(env, history, replies, log, text);
            var turn := Turn(env, history, replies, log, text);
            && (inline.out.Ok? <==> turn.out.Ok? && WithinBudgets(env.budget, replies, env.budget.iterations, 0, turn))
            && (inline.out.Ok? ==> SameRun(inline, turn) && turn.history == history + inline.out.value.newMessages)
  {
    var m := UserText(text);
    var ts := TurnState(history, 0, 0);
    var st := Started(replies, log, [], Window(history), m);
    assert [] + [m] == [m];
    RelatedRunsAgree(env, ts, st, [], [m], env.budget.iterations, 0, env.budget.iterations, 0);
    UndisturbedStore(env, history, replies, log, text);
  }

  /** A successful undisturbed turn appends what it reports. */
  lemma UndisturbedStore(env: Environment, history: seq<Message>, replies: seq<Reply>, log: seq<ToolCall>, text: string)
    requires Undisturbed(env)
    ensures var turn := Turn(env, history, replies, log, text);
            turn.out.Ok? ==> turn.history == history + turn.out.value.newMessages
  {
    TurnFollowsReplies(env, history, replies, log, text);
    hide Turn;
    var turn := Turn(env, history, replies, log, text);
    if turn.out.Ok? {
      var s := ToolStops(replies, |turn.sent| - 1);
      StoreKeeps(env.cleared, s, HistoryAt(env, history, s), turn.out.value.newMessages);
    }
  }
}
