/** The agent of crates/agent-core/src/agent.rs: `run`, `resume` and the loop they share, updating
    the context and the new-message list in place. Its behaviour is `AgentLoop.LoopFrom`. */
module Agents {
  import opened Prelude
  import opened Messages
  import opened ToolExecution
  import opened AgentLoop

  /** A connection to the model endpoint: the replies it will give and the requests it got. */
  class LlmClient {
    var replies: seq<Reply>
    var sent: seq<seq<Message>>

    constructor (replies: seq<Reply>)
      ensures this.replies == replies && sent == []
    {
      this.replies := replies;
      sent := [];
    }

    method SendMessage(messages: seq<Message>) returns (reply: Reply)
      modifies this
      ensures sent == old(sent) + [messages]
      ensures if old(replies) == [] then replies == [] && reply == Failed(Transport("connection closed"))
              else [reply] + replies == old(replies)
    {
      sent := sent + [messages];
      if replies == [] {
        reply := Failed(Transport("connection closed"));
      } else {
        reply := replies[0];
        replies := replies[1..];
      }
    }
  }

  class AgentContext {
    var messages: seq<Message>

    constructor (messages: seq<Message>)
      ensures this.messages == messages
    {
      this.messages := messages;
    }
  }

  class Agent {
    const llm: LlmClient
    const budget: Budget
    const executor: ToolHost?

    /** `Agent::new`: ten iterations, three continuations, no executor. */
    constructor (llm: LlmClient)
      ensures this.llm == llm && executor == null && budget == Budget(10, 3)
    {
      this.llm := llm;
      budget := Budget(10, 3);
      executor := null;
    }

    constructor WithExecutor(llm: LlmClient, budget: Budget, executor: ToolHost)
      ensures this.llm == llm && this.executor == executor && this.budget == budget
    {
      this.llm := llm;
      this.budget := budget;
      this.executor := executor;
    }

    function Executor(): Option<Tools> {
      if executor == null then None else Some(executor.tools)
    }

    function Log(): seq<ToolCall>
      reads executor
    {
      if executor == null then [] else executor.log
    }

    ghost predicate At(ctx: AgentContext, added: seq<Message>, st: LoopState)
      reads ctx, llm, executor
    {
      st == LoopState(llm.replies, Log(), llm.sent, ctx.messages, added)
    }

    method Run(ctx: AgentContext, userMessage: string) returns (r: Result<RunResult, AgentError>)
      modifies ctx, llm, executor
      ensures var st := Started(old(llm.replies), old(Log()), old(llm.sent), old(ctx.messages), UserText(userMessage));
              var e := RunLoop(budget, Executor(), st);
              r == e.out && At(ctx, e.st.added, e.st)
      ensures var first := old(ctx.messages) + [Message(User, [TextBlock(userMessage)])];
              first <= ctx.messages && (budget.iterations > 0 ==> old(llm.sent) + [first] <= llm.sent)
    {
      hide LoopFrom;
      RunBegins(budget, Executor(), llm.replies, Log(), llm.sent, ctx.messages, UserText(userMessage));
      var userMsg := UserText(userMessage);
      ctx.messages := ctx.messages + [userMsg];
      r := Loop(ctx, [userMsg]);
    }

    method Resume(ctx: AgentContext, toolResults: seq<ToolResult>) returns (r: Result<RunResult, AgentError>)
      modifies ctx, llm, executor
      ensures var m := ToolResultMessage(toolResults);
              var st := Started(old(llm.replies), old(Log()), old(llm.sent), old(ctx.messages), m);
              var e := RunLoop(budget, Executor(), st);
              r == e.out && At(ctx, e.st.added, e.st)
      ensures var n := |old(ctx.messages)|;
              && |ctx.messages| > n && old(ctx.messages) == ctx.messages[..n]
              && ctx.messages[n].role == User && CarriesResults(ctx.messages[n].content, toolResults)
              && (budget.iterations > 0 ==> old(llm.sent) + [ctx.messages[..n + 1]] <= llm.sent)
    {
      hide LoopFrom;
      RunBegins(budget, Executor(), llm.replies, Log(), llm.sent, ctx.messages, ToolResultMessage(toolResults));
      var resultMsg := ToolResultMessage(toolResults);
      ctx.messages := ctx.messages + [resultMsg];
      ghost var first := ctx.messages;
      r := Loop(ctx, [resultMsg]);
      assert ctx.messages[..|first|] == first && first[..|first| - 1] == old(ctx.messages);
    }

    method Loop(ctx: AgentContext, initial: seq<Message>) returns (r: Result<RunResult, AgentError>)
      modifies ctx, llm, executor
      ensures var e := RunLoop(budget, Executor(),
                               LoopState(old(llm.replies), old(Log()), old(llm.sent), old(ctx.messages), initial));
              r == e.out && At(ctx, e.st.added, e.st)
    {
      hide ExecuteTools, ToBlocks, FirstText, CallsOf, ClassifyError;
      ghost var e := RunLoop(budget, Executor(), LoopState(llm.replies, Log(), llm.sent, ctx.messages, initial));
      var newMessages := initial;
      var continuationsUsed := 0;
      for i := 0 to budget.iterations
        invariant LoopFrom(budget, Executor(), LoopState(llm.replies, Log(), llm.sent, ctx.messages, newMessages),
                           budget.iterations - i, continuationsUsed) == e
      {
        ghost var st := LoopState(llm.replies, Log(), llm.sent, ctx.messages, newMessages);
        ghost var step := Round(budget, Executor(), st, continuationsUsed);
        var reply := llm.SendMessage(ctx.messages);
        if reply.Failed? {
          return Err(ClassifyError(reply.error));
        }
        var assistantMsg := Message(Assistant, reply.content);
        ctx.messages := ctx.messages + [assistantMsg];
        newMessages := newMessages + [assistantMsg];
        match reply.stop {
          case EndTurn =>
            return Ok(RunResult(newMessages, FirstText(reply.content), []));
          case MaxTokens =>
            if continuationsUsed >= budget.continuations {
              return Err(MaxContinuationsExceeded(budget.continuations));
            }
            continuationsUsed := continuationsUsed + 1;
            ctx.messages := ctx.messages + [ContinueMessage()];
            newMessages := newMessages + [ContinueMessage()];
          case ToolUseStop =>
            var calls := CallsOf(reply.content);
            if executor == null {
              return Ok(RunResult(newMessages, None, calls));
            }
            var results := executor.ExecuteAll(calls);
            ctx.messages := ctx.messages + [ToolResultMessage(results)];
            newMessages := newMessages + [ToolResultMessage(results)];
          case StopSequence =>
            return Err(UnexpectedStopReason("stop_sequence"));
        }
        assert step == Again(LoopState(llm.replies, Log(), llm.sent, ctx.messages, newMessages), continuationsUsed);
      }
      r := Err(MaxIterationsExceeded(budget.iterations));
    }
  }
}
