/** `run_agent_turn` over the shared message table (crates/edgeclaw-server/src/agent.rs), updating
    the table, the executor and the growing result in place. Its behaviour is `Harness.Turn`. */
module TurnHarness {
  import opened Prelude
  import opened Messages
  import opened ToolExecution
  import opened AgentLoop
  import opened Agents
  import opened Harness

  /** The client at the other end of a session. */
  class Client {
    var heard: seq<ServerMessage>

    constructor ()
      ensures heard == []
    {
      heard := [];
    }

    method Hear(m: ServerMessage)
      modifies this
      ensures heard == old(heard) + [m]
    {
      heard := heard + [m];
    }
  }

  class Server {
    /** The `messages` table: each user's rows in id order. */
    var rows: map<string, seq<Message>>

    constructor ()
      ensures rows == map[]
    {
      rows := map[];
    }

    function HistoryOf(user: string): seq<Message>
      reads this
    {
      if user in rows then rows[user] else []
    }

    /** The newest `limit` rows, fetched newest first and then reversed. */
    method LoadMessages(user: string, limit: nat) returns (messages: seq<Message>)
      ensures messages == Newest(HistoryOf(user), limit)
    {
      var history := HistoryOf(user);
      var fetched: seq<Message> := [];
      var n := |history|;
      while n > 0 && |fetched| < limit
        invariant 0 <= n == |history| - |fetched| && |fetched| <= limit
        invariant forall i :: 0 <= i < |fetched| ==> fetched[i] == history[|history| - 1 - i]
      {
        n := n - 1;
        fetched := fetched + [history[n]];
      }
      messages := [];
      for i := 0 to |fetched|
        invariant messages == history[|history| - i..]
      {
        messages := [fetched[i]] + messages;
      }
    }

    /** Rows go in one by one; a history clear may land before each of them. */
    method PersistMessages(user: string, messages: seq<Message>, cleared: nat -> bool, touches: nat)
      modifies this
      ensures HistoryOf(user) == Store(cleared, touches, old(HistoryOf(user)), messages)
      ensures forall other :: other != user ==> HistoryOf(other) == old(HistoryOf(other))
    {
      hide Store;
      NothingStored(cleared, touches, HistoryOf(user));
      for i := 0 to |messages|
        invariant HistoryOf(user) == Store(cleared, touches, old(HistoryOf(user)), messages[..i])
        invariant forall other :: other != user ==> HistoryOf(other) == old(HistoryOf(other))
      {
        StoreStep(cleared, touches, old(HistoryOf(user)), messages, i);
        Interfere(user, cleared(touches + i));
        rows := rows[user := HistoryOf(user) + [messages[i]]];
      }
      assert messages[..|messages|] == messages;
    }

    method ClearHistory(user: string)
      modifies this
      ensures HistoryOf(user) == []
      ensures forall other :: other != user ==> HistoryOf(other) == old(HistoryOf(other))
    {
      rows := rows - {user};
    }

    /** A history clear lands here, or not. */
    method Interfere(user: string, clear: bool)
      modifies this
      ensures HistoryOf(user) == if clear then [] else old(HistoryOf(user))
      ensures forall other :: other != user ==> HistoryOf(other) == old(HistoryOf(other))
    {
      if clear {
        ClearHistory(user);
      }
    }

    /** Permission check, approval and execution of each pending call. */
    method ResolvePending(env: Environment, host: ToolHost, client: Client, calls: seq<ToolCall>, prompted: nat)
      returns (results: seq<ToolResult>, prompts: nat)
      requires host.tools == env.tools
      modifies host, client
      ensures Resolved(host.log, prompts, results) == ResolveCalls(env, Resolved(old(host.log), prompted, []), calls)
      ensures client.heard == old(client.heard) + CallsTold(env, Resolved(old(host.log), prompted, []), calls)
    {
      hide ResolveCalls, ResolveCall, CallsTold, CallTold;
      results := [];
      prompts := prompted;
      assert calls[0..] == calls;
      ghost var told := CallsTold(env, Resolved(host.log, prompted, []), calls);
      for i := 0 to |calls|
        invariant ResolveCalls(env, Resolved(host.log, prompts, results), calls[i..]) ==
                  ResolveCalls(env, Resolved(old(host.log), prompted, []), calls)
        invariant client.heard + CallsTold(env, Resolved(host.log, prompts, results), calls[i..]) ==
                  old(client.heard) + told
      {
        ghost var r := Resolved(host.log, prompts, results);
        ResolveStep(env, r, calls, i);
        var result;
        result, prompts := ResolveOne(env, host, client, calls[i], prompts, results);
        results := results + [result];
        assert Resolved(host.log, prompts, results) == ResolveCall(env, r, calls[i]);
      }
      NothingPending(env, Resolved(host.log, prompts, results), calls[|calls|..]);
      assert client.heard + [] == client.heard;
    }

    method ResolveOne(env: Environment, host: ToolHost, client: Client, call: ToolCall, prompted: nat,
                      ghost before: seq<ToolResult>)
      returns (result: ToolResult, prompts: nat)
      requires host.tools == env.tools
      modifies host, client
      ensures Resolved(host.log, prompts, before + [result]) ==
              ResolveCall(env, Resolved(old(host.log), prompted, before), call)
      ensures client.heard == old(client.heard) + CallTold(env, Resolved(old(host.log), prompted, before), call)
    {
      prompts := prompted;
      var permission := env.permission(call);
      var approved := true;
      if !permission.Allow? {
        match env.mode {
          case AutoApprove =>
          case Session(answers) =>
            client.Hear(ConfirmationPrompt(call, Reason(permission)));
            approved := answers(prompts);
            prompts := prompts + 1;
        }
      }
      if !approved {
        return ErrorFor(call.id, "Permission to use tool was denied"), prompts;
      }
      result := host.Execute(call);
      if env.mode.Session? {
        client.Hear(ToolExecuted(call.name, !result.isError));
      }
    }

    /** From one segment of the turn to the next: the pending calls, the reload, the resume. */
    method CrossBoundary(env: Environment, user: string, agent: Agent, host: ToolHost, client: Client,
                         newMessages: seq<Message>, pending: seq<ToolCall>, prompted: nat, touches: nat,
                         ghost seg: LoopEnd)
      returns (resumed: Result<RunResult, AgentError>, prompts: nat)
      requires host.tools == env.tools && agent.executor == null && agent.budget == env.budget
      requires seg.out.Ok? && pending == seg.out.value.pending
      requires seg.st.replies == agent.llm.replies && seg.st.sent == agent.llm.sent && seg.st.log == host.log
      modifies this, agent.llm, host, client
      ensures var (seg', ts') := NextSegment(env, TurnState(old(HistoryOf(user)), prompted, touches), newMessages, seg);
              && resumed == seg'.out && ts' == TurnState(HistoryOf(user), prompts, touches + 1)
              && seg'.st.replies == agent.llm.replies && seg'.st.sent == agent.llm.sent && seg'.st.log == host.log
      ensures client.heard == old(client.heard) + CallsTold(env, Resolved(seg.st.log, prompted, []), pending)
      ensures forall other :: other != user ==> HistoryOf(other) == old(HistoryOf(other))
    {
      hide LoopFrom, ResolveCalls, CallsTold, Newest, ToBlocks;
      var toolResults;
      toolResults, prompts := ResolvePending(env, host, client, pending, prompted);
      Interfere(user, env.cleared(touches));
      var messages := LoadMessages(user, 50);
      var ctx := new AgentContext(messages + newMessages);
      ghost var st := Started(agent.llm.replies, host.log, agent.llm.sent, messages + newMessages,
                              ToolResultMessage(toolResults));
      resumed := agent.Resume(ctx, toolResults);
      SegmentKeepsLog(env.budget, st);
      SegmentIgnoresLog(env.budget, st, []);
    }

    /** The first segment. */
    method FirstRun(env: Environment, user: string, text: string, agent: Agent, ghost log: seq<ToolCall>)
      returns (first: Result<RunResult, AgentError>)
      requires agent.executor == null && agent.budget == env.budget && agent.llm.sent == []
      modifies agent.llm
      ensures var seg := FirstSegment(env, HistoryOf(user), old(agent.llm.replies), log, text);
              && first == seg.out && seg.st.log == log
              && seg.st.replies == agent.llm.replies && seg.st.sent == agent.llm.sent
    {
      hide LoopFrom, Newest;
      var messages := LoadMessages(user, 50);
      var ctx := new AgentContext(messages);
      ghost var st := Started(agent.llm.replies, log, [], messages, UserText(text));
      first := agent.Run(ctx, text);
      SegmentKeepsLog(env.budget, st);
      SegmentIgnoresLog(env.budget, st, []);
    }

    method RunAgentTurn(env: Environment, user: string, text: string, llm: LlmClient, host: ToolHost, client: Client)
      returns (out: Result<RunResult, AgentError>)
      requires host.tools == env.tools && env.budget == Budget(10, 3) && llm.sent == []
      modifies this, llm, host, client
      ensures var end := Turn(env, old(HistoryOf(user)), old(llm.replies), old(host.log), text);
              && out == end.out
              && HistoryOf(user) == end.history
              && host.log == end.log
              && llm.replies == end.replies
              && llm.sent == end.sent
      ensures env.setup.Some? ==>
                && out == Err(SetupFailed(env.setup.value)) && rows == old(rows) && llm.sent == []
                && host.log == old(host.log) && client.heard == old(client.heard)
      ensures client.heard ==
              old(client.heard) + TurnTold(env, old(HistoryOf(user)), old(llm.replies), old(host.log), text)
      ensures forall other :: other != user ==> HistoryOf(other) == old(HistoryOf(other))
    {
      hide RunLoop, NextSegment, CallsTold, Store;
      ghost var end := Turn(env, HistoryOf(user), llm.replies, host.log, text);
      ghost var told := TurnTold(env, HistoryOf(user), llm.replies, host.log, text);
      if env.setup.Some? {
        assert client.heard + [] == client.heard;
        return Err(SetupFailed(env.setup.value));
      }
      var agent := new Agent(llm);
      ghost var ts := TurnState(HistoryOf(user), 0, 0);
      ghost var seg := FirstSegment(env, HistoryOf(user), llm.replies, host.log, text);
      var result := FirstRun(env, user, text, agent, host.log);
      if result.Err? {
        assert client.heard + [] == client.heard;
        return result;
      }
      var newMessages, answer, pending := result.value.newMessages, result.value.answer, result.value.pending;
      var prompts, touches := 0, 0;
      ghost var before: seq<Message> := [];
      while pending != []
        invariant ts == TurnState(HistoryOf(user), prompts, touches)
        invariant seg.out.Ok? && newMessages == before + seg.out.value.newMessages
        invariant answer == seg.out.value.answer && pending == seg.out.value.pending
        invariant seg.st.replies == llm.replies && seg.st.sent == llm.sent && seg.st.log == host.log
        invariant AfterSegment(env, ts, before, seg) == end
        invariant client.heard + AfterSegmentTold(env, ts, before, seg) == old(client.heard) + told
        invariant forall other :: other != user ==> HistoryOf(other) == old(HistoryOf(other))
        decreases |llm.replies|
      {
        ghost var (seg', ts') := NextSegment(env, ts, newMessages, seg);
        SegmentShrinks(env, ts, newMessages, seg);
        result, prompts := CrossBoundary(env, user, agent, host, client, newMessages, pending, prompts, touches, seg);
        touches := touches + 1;
        if result.Err? {
          assert client.heard + [] == client.heard;
          return result;
        }
        before, seg, ts := newMessages, seg', ts';
        newMessages := newMessages + result.value.newMessages;
        answer, pending := result.value.answer, result.value.pending;
      }

      PersistMessages(user, newMessages, env.cleared, touches);
      if env.mode.Session? {
        client.Hear(AgentResponse(answer));
      } else {
        assert client.heard + [] == client.heard;
      }
      out := Ok(RunResult(newMessages, answer, pending));
    }
  }

  lemma SegmentShrinks(env: Environment, ts: TurnState, total: seq<Message>, seg: LoopEnd)
    requires seg.out.Ok?
    ensures var seg' := NextSegment(env, ts, total, seg).0;
            seg'.out.Ok? ==> |seg'.st.replies| < |seg.st.replies|
  {}

  lemma ResolveStep(env: Environment, r: Resolved, calls: seq<ToolCall>, i: nat)
    requires i < |calls|
    ensures ResolveCalls(env, r, calls[i..]) == ResolveCalls(env, ResolveCall(env, r, calls[i]), calls[i + 1..])
    ensures CallsTold(env, r, calls[i..]) ==
            CallTold(env, r, calls[i]) + CallsTold(env, ResolveCall(env, r, calls[i]), calls[i + 1..])
  {
    hide ResolveCall, CallTold;
    assert calls[i..][1..] == calls[i + 1..];
  }

  lemma NothingPending(env: Environment, r: Resolved, calls: seq<ToolCall>)
    requires calls == []
    ensures ResolveCalls(env, r, calls) == r && CallsTold(env, r, calls) == []
  {}

  lemma NothingStored(cleared: nat -> bool, touches: nat, rows: seq<Message>)
    ensures Store(cleared, touches, rows, []) == rows
  {}

  /** Without an executor the loop executes nothing. */
  lemma SegmentKeepsLog(budget: Budget, st: LoopState)
    ensures RunLoop(budget, None, st).st.log == st.log
  {
    LoopKeepsLog(budget, st, budget.iterations, 0);
  }

  lemma {:induction false} LoopKeepsLog(budget: Budget, st: LoopState, iterations: nat, used: nat)
    ensures LoopFrom(budget, None, st, iterations, used).st.log == st.log
    decreases iterations
  {
    if iterations > 0 && Round(budget, None, st, used).Again? {
      var Again(next, used') := Round(budget, None, st, used);
      LoopKeepsLog(budget, next, iterations - 1, used');
    }
  }

  /** ... and does not look at what has been executed. */
  lemma SegmentIgnoresLog(budget: Budget, st: LoopState, log: seq<ToolCall>)
    ensures var e := RunLoop(budget, None, st);
            RunLoop(budget, None, st.(log := log)) == LoopEnd(e.st.(log := log), e.out)
  {
    LoopIgnoresLog(budget, st, log, budget.iterations, 0);
  }

  lemma {:induction false} LoopIgnoresLog(budget: Budget, st: LoopState, log: seq<ToolCall>, iterations: nat, used: nat)
    ensures var e := LoopFrom(budget, None, st, iterations, used);
            LoopFrom(budget, None, st.(log := log), iterations, used) == LoopEnd(e.st.(log := log), e.out)
    decreases iterations
  {
    if iterations > 0 && Round(budget, None, st, used).Again? {
      var Again(next, used') := Round(budget, None, st, used);
      LoopIgnoresLog(budget, next, log, iterations - 1, used');
      assert Round(budget, None, st.(log := log), used) == Again(next.(log := log), used');
    }
  }
}
