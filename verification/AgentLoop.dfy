/** The stop-reason machine of crates/agent-core/src/agent.rs as a function of the reply stream,
    and what that machine guarantees. The stream is finite: a call past its end is a transport
    failure, so every terminating run is the run on the replies it consumed. */
module AgentLoop {
  import opened Prelude
  import opened Messages
  import opened ToolExecution
  import Strings

  /** `max_iterations` and `max_continuations`. */
  datatype Budget = Budget(iterations: nat, continuations: nat)

  datatype RunResult = RunResult(newMessages: seq<Message>, answer: Option<string>, pending: seq<ToolCall>)

  /** `replies` are still to come, `sent` are the message lists already sent to the model,
      `log` the executed tool calls, `ctx` the context and `added` the messages of this run. */
  datatype LoopState = LoopState(
    replies: seq<Reply>,
    log: seq<ToolCall>,
    sent: seq<seq<Message>>,
    ctx: seq<Message>,
    added: seq<Message>)
  {
    function Push(m: Message): LoopState {
      this.(ctx := ctx + [m], added := added + [m])
    }

    /** The request goes out; the reply, if there is one, is taken off the stream. */
    function Call(): LoopState {
      this.(sent := sent + [ctx], replies := if replies == [] then [] else replies[1..])
    }

    function NextReply(): Reply {
      if replies == [] then Failed(Transport("connection closed")) else replies[0]
    }
  }

  datatype LoopEnd = LoopEnd(st: LoopState, out: Result<RunResult, AgentError>)

  function ClassifyError(e: LlmError): AgentError {
    if e.RequestFailed? && Strings.Contains(e.message, "prompt is too long") then PromptTooLong else Llm(e)
  }

  /** What one pass through the loop body does: end the run, or go round again. */
  datatype Step = Stop(e: LoopEnd) | Again(next: LoopState, used: nat)

  function Round(budget: Budget, executor: Option<Tools>, st: LoopState, used: nat): Step {
    match st.NextReply()
    case Failed(e) => Stop(LoopEnd(st.Call(), Err(ClassifyError(e))))
    case Reply(stop, content) =>
      var st' := st.Call().Push(Message(Assistant, content));
      match stop
      case EndTurn => Stop(LoopEnd(st', Ok(RunResult(st'.added, FirstText(content), []))))
      case MaxTokens =>
        if used >= budget.continuations then
          Stop(LoopEnd(st', Err(MaxContinuationsExceeded(budget.continuations))))
        else
          Again(st'.Push(ContinueMessage()), used + 1)
      case ToolUseStop =>
        if executor.None? then
          Stop(LoopEnd(st', Ok(RunResult(st'.added, None, CallsOf(content)))))
        else
          var x := ExecuteTools(executor.value, st'.log, CallsOf(content));
          Again(st'.(log := x.log).Push(ToolResultMessage(x.results)), used)
      case StopSequence => Stop(LoopEnd(st', Err(UnexpectedStopReason("stop_sequence"))))
  }

  function LoopFrom(budget: Budget, executor: Option<Tools>, st: LoopState, iterations: nat, used: nat): (e: LoopEnd)
    ensures |e.st.replies| <= |st.replies|
    ensures e.out.Ok? ==> |e.st.replies| < |st.replies|
    decreases iterations
  {
    if iterations == 0 then LoopEnd(st, Err(MaxIterationsExceeded(budget.iterations)))
    else
      match Round(budget, executor, st, used)
      case Stop(e) => e
      case Again(next, used') => LoopFrom(budget, executor, next, iterations - 1, used')
  }

  // ---------------------------------------------------------------- shape of a run

  function Calls(before: LoopState, after: LoopState): int {
    |after.sent| - |before.sent|
  }

  /** The messages a run appends to the context are exactly those it reports, and request number
      k is the final context cut after k rounds of one assistant and one user message. */
  ghost predicate Extends(before: LoopState, after: LoopState) {
    && before.ctx <= after.ctx
    && before.sent <= after.sent
    && after.added == before.added + after.ctx[|before.ctx|..]
    && (forall k :: |before.sent| <= k < |after.sent| ==> RequestIsCut(before, after, k))
  }

  ghost predicate RequestIsCut(before: LoopState, after: LoopState, k: int) {
    var n := |before.ctx| + 2 * (k - |before.sent|);
    0 <= n <= |after.ctx| && 0 <= k < |after.sent| && after.sent[k] == after.ctx[..n]
  }

  /** One tool-result block for each result, in order, with its content and error flag. */
  ghost predicate CarriesResults(content: seq<ContentBlock>, results: seq<ToolResult>) {
    && |content| == |results|
    && forall k :: 0 <= k < |results| ==>
         content[k] == ToolResultBlock(results[k].toolUseId, results[k].content, results[k].isError)
  }

  /** A round that goes on appends one assistant message and one user message. */
  lemma AgainAppendsTwo(budget: Budget, executor: Option<Tools>, st: LoopState, used: nat)
    requires Round(budget, executor, st, used).Again?
    ensures var next := Round(budget, executor, st, used).next;
            && st.replies != [] && st.replies[0].Reply? && next.replies == st.replies[1..]
            && |next.ctx| == |st.ctx| + 2 && st.ctx <= next.ctx
            && next.ctx[|st.ctx|] == Message(Assistant, st.replies[0].content)
            && next.ctx[|st.ctx| + 1].role == User
            && (if st.replies[0].stop.MaxTokens? then
                  && next.ctx[|st.ctx| + 1] == Message(User, [TextBlock("Continue from where you left off.")])
                  && next.log == st.log
                else
                  && st.replies[0].stop.ToolUseStop? && executor.Some?
                  && var x := ExecuteTools(executor.value, st.log, CallsOf(st.replies[0].content));
                     next.log == x.log && CarriesResults(next.ctx[|st.ctx| + 1].content, x.results))
            && next.added == st.added + next.ctx[|st.ctx|..]
            && next.sent == st.sent + [st.ctx]
  {
    var next := Round(budget, executor, st, used).next;
    var u := next.ctx[|next.ctx| - 1];
    assert next.ctx == st.ctx + [Message(Assistant, st.replies[0].content), u];
    assert next.added == st.added + [Message(Assistant, st.replies[0].content), u];
  }

  lemma ExtendsOneRound(before: LoopState, mid: LoopState, after: LoopState)
    requires |mid.ctx| == |before.ctx| + 2 && before.ctx <= mid.ctx
    requires mid.added == before.added + mid.ctx[|before.ctx|..]
    requires mid.sent == before.sent + [before.ctx]
    requires Extends(mid, after)
    ensures Extends(before, after)
  {
    assert after.ctx[|before.ctx|..] == mid.ctx[|before.ctx|..] + after.ctx[|mid.ctx|..];
    forall k | |before.sent| <= k < |after.sent|
      ensures RequestIsCut(before, after, k)
    {
      if k == |before.sent| {
        assert after.sent[k] == mid.sent[k] == before.ctx;
        assert after.ctx[..|before.ctx|] == mid.ctx[..|before.ctx|] == before.ctx;
      } else {
        assert RequestIsCut(mid, after, k);
      }
    }
  }

  lemma ExtendsItself(st: LoopState)
    ensures Extends(st, st)
  {}

  /** A call, and at most the reply to it. */
  lemma CallExtends(before: LoopState, after: LoopState, reply: seq<Message>)
    requires after.sent == before.sent + [before.ctx]
    requires after.ctx == before.ctx + reply && after.added == before.added + reply
    ensures Extends(before, after)
  {
    assert RequestIsCut(before, after, |before.sent|) by {
      assert after.ctx[..|before.ctx|] == before.ctx;
    }
  }

  lemma StopExtends(budget: Budget, executor: Option<Tools>, st: LoopState, used: nat)
    requires Round(budget, executor, st, used).Stop?
    ensures var e := Round(budget, executor, st, used).e;
            && Extends(st, e.st) && Calls(st, e.st) == 1
            && e.st.replies == (if st.replies == [] then [] else st.replies[1..])
            && (e.out.Ok? ==> st.replies != [] && |e.st.ctx| == |st.ctx| + 1 && e.out.value.newMessages == e.st.added)
  {
    var e := Round(budget, executor, st, used).e;
    hide Extends;
    if st.NextReply().Failed? {
      CallExtends(st, e.st, []);
    } else {
      CallExtends(st, e.st, [Message(Assistant, st.replies[0].content)]);
    }
  }

  lemma {:induction false} LoopExtends(budget: Budget, executor: Option<Tools>, st: LoopState, iterations: nat,
                                       used: nat)
    ensures var e := LoopFrom(budget, executor, st, iterations, used);
            && Extends(st, e.st)
            && e.st.replies == st.replies[|st.replies| - |e.st.replies|..]
            && 0 <= Calls(st, e.st) <= iterations
            && (e.out.Ok? ==>
                  && |st.replies| - |e.st.replies| == Calls(st, e.st) >= 1
                  && |e.st.ctx| == |st.ctx| + 2 * Calls(st, e.st) - 1
                  && e.out.value.newMessages == e.st.added)
    decreases iterations
  {
    hide Round, Extends;
    if iterations == 0 {
      ExtendsItself(st);
    } else {
      match Round(budget, executor, st, used)
      case Stop(_) =>
        StopExtends(budget, executor, st, used);
      case Again(next, used') =>
        AgainAppendsTwo(budget, executor, st, used);
        LoopExtends(budget, executor, next, iterations - 1, used');
        ExtendsOneRound(st, next, LoopFrom(budget, executor, next, iterations - 1, used').st);
    }
  }

  /** `run` and `resume` push one message before they enter the loop. */
  function Started(replies: seq<Reply>, log: seq<ToolCall>, sent: seq<seq<Message>>, ctx: seq<Message>,
                   m: Message): LoopState {
    LoopState(replies, log, sent, ctx + [m], [m])
  }

  function RunLoop(budget: Budget, executor: Option<Tools>, st: LoopState): LoopEnd {
    LoopFrom(budget, executor, st, budget.iterations, 0)
  }

  /** A successful run of k model calls reports 2k messages, and the context grew by exactly them. */
  lemma RunReportsItsTranscript(budget: Budget, executor: Option<Tools>, replies: seq<Reply>, log: seq<ToolCall>,
                                sent: seq<seq<Message>>, ctx: seq<Message>, m: Message)
    ensures var e := RunLoop(budget, executor, Started(replies, log, sent, ctx, m));
            e.out.Ok? ==>
              var k := |e.st.sent| - |sent|;
              && 1 <= k <= budget.iterations
              && k == |replies| - |e.st.replies|
              && |e.out.value.newMessages| == 2 * k
              && e.out.value.newMessages[0] == m
              && e.st.ctx == ctx + e.out.value.newMessages
  {
    var st := Started(replies, log, sent, ctx, m);
    LoopExtends(budget, executor, st, budget.iterations, 0);
    var e := RunLoop(budget, executor, st);
    if e.out.Ok? {
      ExtendsAdds(st, e.st);
      hide LoopFrom, Extends;
      AddedIsTail(ctx, m, e.st.ctx, e.st.added);
    }
  }

  /** The first request of a run is the context and the message it starts on, whatever comes of it. */
  lemma RunBegins(budget: Budget, executor: Option<Tools>, replies: seq<Reply>, log: seq<ToolCall>,
                  sent: seq<seq<Message>>, ctx: seq<Message>, m: Message)
    ensures var e := RunLoop(budget, executor, Started(replies, log, sent, ctx, m));
            && ctx + [m] <= e.st.ctx
            && (budget.iterations > 0 ==> sent + [ctx + [m]] <= e.st.sent)
  {
    var st := Started(replies, log, sent, ctx, m);
    LoopExtends(budget, executor, st, budget.iterations, 0);
    var e := RunLoop(budget, executor, st);
    if budget.iterations > 0 {
      LoopCalls(budget, executor, st, budget.iterations, 0);
      hide LoopFrom;
      assert RequestIsCut(st, e.st, |sent|);
      assert e.st.ctx[..|st.ctx|] == st.ctx;
    }
  }

  lemma LoopCalls(budget: Budget, executor: Option<Tools>, st: LoopState, iterations: nat, used: nat)
    requires iterations > 0
    ensures |LoopFrom(budget, executor, st, iterations, used).st.sent| > |st.sent|
  {
    if Round(budget, executor, st, used).Again? {
      var Again(next, used') := Round(budget, executor, st, used);
      AgainAppendsTwo(budget, executor, st, used);
      LoopExtends(budget, executor, next, iterations - 1, used');
    } else {
      StopExtends(budget, executor, st, used);
    }
    hide Round;
  }

  lemma ExtendsAdds(before: LoopState, after: LoopState)
    requires Extends(before, after)
    ensures before.ctx <= after.ctx && after.added == before.added + after.ctx[|before.ctx|..]
  {}

  lemma AddedIsTail(ctx: seq<Message>, m: Message, after: seq<Message>, added: seq<Message>)
    requires ctx + [m] <= after && added == [m] + after[|ctx| + 1..]
    ensures after == ctx + added && |added| == |after| - |ctx| && added[0] == m
  {}

  // ---------------------------------------------------------------- without an executor

  /** Without an executor only MaxTokens replies keep the loop going, so a continuation budget
      below the iteration budget bounds the calls and rules out MaxIterationsExceeded. */
  lemma {:induction false} ContinuationsBoundCalls(budget: Budget, st: LoopState, iterations: nat, used: nat)
    requires used <= budget.continuations && budget.continuations - used < iterations
    ensures var e := LoopFrom(budget, None, st, iterations, used);
            && e.out != Err(MaxIterationsExceeded(budget.iterations))
            && 1 <= Calls(st, e.st) <= budget.continuations - used + 1
    decreases iterations
  {
    var reply := st.NextReply();
    if reply.Reply? && reply.stop.MaxTokens? && used < budget.continuations {
      var next := st.Call().Push(Message(Assistant, reply.content)).Push(ContinueMessage());
      ContinuationsBoundCalls(budget, next, iterations - 1, used + 1);
    }
  }

  lemma NoExecutorNeverExhaustsIterations(budget: Budget, st: LoopState)
    requires budget.continuations < budget.iterations
    ensures var e := RunLoop(budget, None, st);
            && e.out != Err(MaxIterationsExceeded(budget.iterations))
            && 1 <= Calls(st, e.st) <= budget.continuations + 1
  {
    ContinuationsBoundCalls(budget, st, budget.iterations, 0);
  }

  // ---------------------------------------------------------------- which outcome occurs

  function MaxTokensBefore(replies: seq<Reply>, j: nat): nat
    requires j <= |replies|
  {
    if j == 0 then 0
    else (if replies[0].Reply? && replies[0].stop.MaxTokens? then 1 else 0) + MaxTokensBefore(replies[1..], j - 1)
  }

  /** Round j is the last one: the call fails, the reply ends the run, or a continuation is
      asked for after the budget is spent. */
  predicate Halts(budget: Budget, hasExecutor: bool, replies: seq<Reply>, used: nat, j: nat) {
    || j >= |replies|
    || replies[j].Failed?
    || replies[j].stop.EndTurn?
    || replies[j].stop.StopSequence?
    || (replies[j].stop.ToolUseStop? && !hasExecutor)
    || (replies[j].stop.MaxTokens? && used + MaxTokensBefore(replies, j) >= budget.continuations)
  }

  /** What a run that ends in round j returns. */
  ghost predicate Verdict(budget: Budget, replies: seq<Reply>, j: nat, out: Result<RunResult, AgentError>) {
    if j >= |replies| then out == Err(Llm(Transport("connection closed")))
    else
      match replies[j]
      case Failed(e) =>
        out == Err(if e.RequestFailed? && Strings.Contains(e.message, "prompt is too long") then PromptTooLong
                   else Llm(e))
      case Reply(EndTurn, content) => out.Ok? && out.value.pending == [] && out.value.answer == FirstText(content)
      case Reply(ToolUseStop, content) => out.Ok? && out.value.answer == None && out.value.pending == CallsOf(content)
      case Reply(MaxTokens, _) => out == Err(MaxContinuationsExceeded(budget.continuations))
      case Reply(StopSequence, _) => out == Err(UnexpectedStopReason("stop_sequence"))
  }

  lemma HaltsShift(budget: Budget, hasExecutor: bool, replies: seq<Reply>, used: nat, j: nat)
    requires replies != []
    ensures var used' := used + MaxTokensBefore(replies, 1);
            Halts(budget, hasExecutor, replies, used, j + 1) == Halts(budget, hasExecutor, replies[1..], used', j)
  {
    if j + 1 < |replies| {
      MaxTokensShift(replies, j);
    }
    hide MaxTokensBefore;
  }

  lemma MaxTokensShift(replies: seq<Reply>, j: nat)
    requires j < |replies|
    ensures MaxTokensBefore(replies, j + 1) == MaxTokensBefore(replies, 1) + MaxTokensBefore(replies[1..], j)
  {
    assert MaxTokensBefore(replies[1..], 0) == 0;
  }

  lemma RoundHalts(budget: Budget, executor: Option<Tools>, st: LoopState, used: nat)
    ensures var s := Round(budget, executor, st, used);
            && (s.Stop? <==> Halts(budget, executor.Some?, st.replies, used, 0))
            && (s.Stop? ==> Verdict(budget, st.replies, 0, s.e.out) && Calls(st, s.e.st) == 1)
            && (s.Stop? ==> s.e.out != Err(MaxIterationsExceeded(budget.iterations)))
            && (s.Again? ==> st.replies != [] && s.used == used + MaxTokensBefore(st.replies, 1))
  {
    assert MaxTokensBefore(st.replies, 0) == 0;
    if st.replies != [] {
      assert MaxTokensBefore(st.replies[1..], 0) == 0;
    }
  }

  ghost predicate FirstHalt(budget: Budget, hasExecutor: bool, replies: seq<Reply>, used: nat, j: nat) {
    Halts(budget, hasExecutor, replies, used, j) && NoHaltBefore(budget, hasExecutor, replies, used, j)
  }

  ghost predicate NoHaltBefore(budget: Budget, hasExecutor: bool, replies: seq<Reply>, used: nat, n: nat) {
    forall i: nat :: i < n ==> !Halts(budget, hasExecutor, replies, used, i)
  }

  lemma NoHaltShift(budget: Budget, hasExecutor: bool, replies: seq<Reply>, used: nat, n: nat)
    requires replies != [] && !Halts(budget, hasExecutor, replies, used, 0)
    ensures var used' := used + MaxTokensBefore(replies, 1);
            NoHaltBefore(budget, hasExecutor, replies, used, n + 1) <==>
            NoHaltBefore(budget, hasExecutor, replies[1..], used', n)
  {
    var used' := used + MaxTokensBefore(replies, 1);
    forall i: nat
      ensures Halts(budget, hasExecutor, replies, used, i + 1) == Halts(budget, hasExecutor, replies[1..], used', i)
    {
      HaltsShift(budget, hasExecutor, replies, used, i);
    }
    if NoHaltBefore(budget, hasExecutor, replies[1..], used', n) {
      forall i: nat | i < n + 1 ensures !Halts(budget, hasExecutor, replies, used, i) {
        if i > 0 {
          assert !Halts(budget, hasExecutor, replies[1..], used', i - 1);
        }
      }
    }
    if NoHaltBefore(budget, hasExecutor, replies, used, n + 1) {
      forall i: nat | i < n ensures !Halts(budget, hasExecutor, replies[1..], used', i) {
        assert !Halts(budget, hasExecutor, replies, used, i + 1);
      }
    }
  }

  /** The first halting round decides the outcome. */
  lemma {:induction false} FirstHaltDecides(budget: Budget, executor: Option<Tools>, st: LoopState,
                                            iterations: nat, used: nat, j: nat)
    requires j < iterations && FirstHalt(budget, executor.Some?, st.replies, used, j)
    ensures var e := LoopFrom(budget, executor, st, iterations, used);
            && Verdict(budget, st.replies, j, e.out)
            && Calls(st, e.st) == j + 1
            && e.out != Err(MaxIterationsExceeded(budget.iterations))
    decreases iterations
  {
    hide Round, Halts;
    RoundHalts(budget, executor, st, used);
    if j == 0 {
    } else {
      assert !Halts(budget, executor.Some?, st.replies, used, 0);
      var Again(next, used') := Round(budget, executor, st, used);
      AgainAppendsTwo(budget, executor, st, used);
      HaltsShift(budget, executor.Some?, st.replies, used, j - 1);
      NoHaltShift(budget, executor.Some?, st.replies, used, j - 1);
      FirstHaltDecides(budget, executor, next, iterations - 1, used', j - 1);
    }
  }

  /** MaxIterationsExceeded is returned exactly when no round inside the budget halts. */
  lemma {:induction false} ExhaustedExactlyWithoutHalt(budget: Budget, executor: Option<Tools>, st: LoopState,
                                                       iterations: nat, used: nat)
    ensures LoopFrom(budget, executor, st, iterations, used).out == Err(MaxIterationsExceeded(budget.iterations)) <==>
            NoHaltBefore(budget, executor.Some?, st.replies, used, iterations)
    decreases iterations
  {
    hide Round, Halts;
    if iterations == 0 {
    } else {
      RoundHalts(budget, executor, st, used);
      match Round(budget, executor, st, used)
      case Stop(_) =>
        assert Halts(budget, executor.Some?, st.replies, used, 0);
      case Again(next, used') =>
        AgainAppendsTwo(budget, executor, st, used);
        NoHaltShift(budget, executor.Some?, st.replies, used, iterations - 1);
        ExhaustedExactlyWithoutHalt(budget, executor, next, iterations - 1, used');
    }
  }
}
