/** One agent turn as the server drives it (crates/edgeclaw-server/src/agent.rs): segments of the
    agent loop without an executor, joined at tool boundaries. */
module Harness {
  import opened Prelude
  import opened Messages
  import opened ToolExecution
  import opened AgentLoop
  import opened Permissions

  const HISTORY_WINDOW: nat := 50

  /** In a session, `answers(k)` is what the k-th confirmation prompt of the turn came to:
      the client's answer, or false on timeout. */
  datatype ApprovalMode = AutoApprove | Session(answers: nat -> bool)

  /** What surrounds a turn. `setup` holds the error if the user row or the tool registry could not be
      set up. `cleared(k)` says that a history clear landed before the turn touches the message table
      for the k-th time after its start: each reload touches it once, and so does each row inserted. */
  datatype Environment = Environment(
    setup: Option<string>,
    budget: Budget,
    tools: Tools,
    permission: ToolCall -> PermissionCheck,
    mode: ApprovalMode,
    cleared: nat -> bool)

  /** The newest rows of the user's history, oldest first. */
  function Newest<T>(history: seq<T>, limit: nat): seq<T> {
    if |history| <= limit then history else history[|history| - limit..]
  }

  function Window<T>(history: seq<T>): seq<T> {
    Newest(history, HISTORY_WINDOW)
  }

  datatype Resolved = Resolved(log: seq<ToolCall>, prompts: nat, results: seq<ToolResult>)

  predicate Granted(env: Environment, prompts: nat, call: ToolCall) {
    env.permission(call).Allow? || env.mode.AutoApprove? || env.mode.answers(prompts)
  }

  predicate Prompts(env: Environment, call: ToolCall) {
    !env.permission(call).Allow? && env.mode.Session?
  }

  /** Check, ask, execute or refuse. */
  function ResolveCall(env: Environment, r: Resolved, call: ToolCall): Resolved {
    var prompts := if Prompts(env, call) then r.prompts + 1 else r.prompts;
    if Granted(env, r.prompts, call) then
      Resolved(r.log + [call], prompts, r.results + [ResultFor(call, env.tools.run(r.log, call))])
    else
      Resolved(r.log, prompts, r.results + [ErrorFor(call.id, "Permission to use tool was denied")])
  }

  function ResolveCalls(env: Environment, r: Resolved, calls: seq<ToolCall>): Resolved
    decreases |calls|
  {
    if calls == [] then r else ResolveCalls(env, ResolveCall(env, r, calls[0]), calls[1..])
  }

  /** What the server sends to the client of a session. */
  datatype ServerMessage =
    | ConfirmationPrompt(call: ToolCall, reason: string)
    | ToolExecuted(name: string, success: bool)
    | AgentResponse(answer: Option<string>)

  function Reason(permission: PermissionCheck): string {
    if permission.Allow? then "" else permission.reason
  }

  /** A prompt for a call that is not allowed outright, and a notice once it has run. */
  function CallTold(env: Environment, r: Resolved, call: ToolCall): seq<ServerMessage> {
    if env.mode.AutoApprove? then []
    else
      (if Prompts(env, call) then [ConfirmationPrompt(call, Reason(env.permission(call)))] else []) +
      (if Granted(env, r.prompts, call)
       then [ToolExecuted(call.name, !ResultFor(call, env.tools.run(r.log, call)).isError)]
       else [])
  }

  function CallsTold(env: Environment, r: Resolved, calls: seq<ToolCall>): seq<ServerMessage>
    decreases |calls|
  {
    if calls == [] then []
    else CallTold(env, r, calls[0]) + CallsTold(env, ResolveCall(env, r, calls[0]), calls[1..])
  }

  lemma {:induction false} OneResultPerCall(env: Environment, r: Resolved, calls: seq<ToolCall>)
    ensures ResultToolIds(ResolveCalls(env, r, calls).results) == ResultToolIds(r.results) + CallIds(calls)
    decreases |calls|
  {
    if calls == [] {
    } else {
      var r' := ResolveCall(env, r, calls[0]);
      OneResultPerCall(env, r', calls[1..]);
      assert ResultToolIds(r'.results) == ResultToolIds(r.results) + [calls[0].id];
      assert CallIds(calls) == [calls[0].id] + CallIds(calls[1..]);
    }
  }

  /** With approvals automatic, resolving is the serial run of all calls. */
  lemma {:induction false} AutoApproveIsSerial(env: Environment, r: Resolved, calls: seq<ToolCall>)
    requires env.mode.AutoApprove?
    ensures ResolveCalls(env, r, calls) ==
            Resolved(r.log + calls, r.prompts, r.results + SerialResults(env.tools, r.log, calls))
    decreases |calls|
  {
    if calls == [] {
    } else {
      var call := calls[0];
      var result := ResultFor(call, env.tools.run(r.log, call));
      var r' := ResolveCall(env, r, call);
      AutoApproveIsSerial(env, r', calls[1..]);
      assert r.log + calls == r'.log + calls[1..];
      var all, rest := SerialResults(env.tools, r.log, calls), SerialResults(env.tools, r'.log, calls[1..]);
      assert r.log + calls[..0] == r.log;
      assert forall i :: 0 < i < |calls| ==> r.log + calls[..i] == r'.log + calls[1..][..i - 1];
      assert all == [result] + rest;
    }
  }

  // ---------------------------------------------------------------- the turn

  /** Server-side state of one turn: the user's rows, prompts shown, table touches so far. */
  datatype TurnState = TurnState(history: seq<Message>, prompts: nat, touches: nat)

  datatype TurnEnd = TurnEnd(
    history: seq<Message>,
    prompts: nat,
    log: seq<ToolCall>,
    replies: seq<Reply>,
    sent: seq<seq<Message>>,
    out: Result<RunResult, AgentError>)

  /** The rows after `added` have been inserted one by one, clears landing in between. */
  function Store<T>(cleared: nat -> bool, touches: nat, rows: seq<T>, added: seq<T>): seq<T> {
    if added == [] then rows
    else
      var n := |added| - 1;
      (if cleared(touches + n) then [] else Store(cleared, touches, rows, added[..n])) + [added[n]]
  }

  /** The insert before which the last clear landed. */
  function LastClear(cleared: nat -> bool, touches: nat, n: nat): (i: Option<nat>)
    ensures i.Some? ==> i.value < n && cleared(touches + i.value)
    ensures forall k: nat :: touches <= k < touches + n && (i.Some? ==> touches + i.value < k) ==> !cleared(k)
  {
    if n == 0 then None
    else if cleared(touches + n - 1) then Some(n - 1)
    else LastClear(cleared, touches, n - 1)
  }

  /** What a clear between two inserts leaves is what was inserted after it. */
  lemma {:induction false} StoreKeeps<T>(cleared: nat -> bool, touches: nat, rows: seq<T>, added: seq<T>)
    ensures Store(cleared, touches, rows, added) ==
            match LastClear(cleared, touches, |added|)
            case None => rows + added
            case Some(i) => added[i..]
  {
    if added == [] {
      assert rows + added == rows;
    } else {
      var n := |added| - 1;
      StoreKeeps(cleared, touches, rows, added[..n]);
      StoreStep(cleared, touches, rows, added, n);
      assert added[..n + 1] == added;
      var last := LastClear(cleared, touches, n);
      if cleared(touches + n) {
        OneLeft(added, n);
      } else if last.Some? {
        OneMore(added, last.value, n);
      } else {
        OneMoreKept(rows, added, n);
      }
      hide Store;
    }
  }

  lemma StoreStep<T>(cleared: nat -> bool, touches: nat, rows: seq<T>, added: seq<T>, n: nat)
    requires n < |added|
    ensures Store(cleared, touches, rows, added[..n + 1]) ==
            (if cleared(touches + n) then [] else Store(cleared, touches, rows, added[..n])) + [added[n]]
  {
    assert added[..n + 1][..n] == added[..n];
  }

  lemma OneLeft<T>(added: seq<T>, n: nat)
    requires n + 1 == |added|
    ensures [] + [added[n]] == added[n..]
  {}

  lemma OneMore<T>(added: seq<T>, i: nat, n: nat)
    requires i <= n && n + 1 == |added|
    ensures added[..n][i..] + [added[n]] == added[i..]
  {}

  lemma OneMoreKept<T>(rows: seq<T>, added: seq<T>, n: nat)
    requires n + 1 == |added|
    ensures rows + added[..n] + [added[n]] == rows + added
  {}

  function Touch(env: Environment, ts: TurnState): TurnState {
    TurnState(if env.cleared(ts.touches) then [] else ts.history, ts.prompts, ts.touches + 1)
  }

  /** The segment that follows the pending calls of `seg`: resolve them, rebuild the context from
      the window and this turn's messages, resume. */
  function NextSegment(env: Environment, ts: TurnState, total: seq<Message>, seg: LoopEnd): (LoopEnd, TurnState)
    requires seg.out.Ok?
  {
    var r := ResolveCalls(env, Resolved(seg.st.log, ts.prompts, []), seg.out.value.pending);
    var ts' := Touch(env, ts.(prompts := r.prompts));
    var st := Started(seg.st.replies, r.log, seg.st.sent, Window(ts'.history) + total, ToolResultMessage(r.results));
    (RunLoop(env.budget, None, st), ts')
  }

  /** From the end of a segment to the end of the turn; `before` holds the messages of the
      segments already finished. */
  function AfterSegment(env: Environment, ts: TurnState, before: seq<Message>, seg: LoopEnd): (end: TurnEnd)
    ensures |end.replies| <= |seg.st.replies|
    decreases |seg.st.replies|
  {
    match seg.out
    case Err(e) => TurnEnd(ts.history, ts.prompts, seg.st.log, seg.st.replies, seg.st.sent, Err(e))
    case Ok(result) =>
      var total := before + result.newMessages;
      if result.pending == [] then
        TurnEnd(Store(env.cleared, ts.touches, ts.history, total), ts.prompts, seg.st.log, seg.st.replies, seg.st.sent,
                Ok(RunResult(total, result.answer, [])))
      else
        var (seg', ts') := NextSegment(env, ts, total, seg);
        if seg'.out.Err? then
          TurnEnd(ts'.history, ts'.prompts, seg'.st.log, seg'.st.replies, seg'.st.sent, seg'.out)
        else
          AfterSegment(env, ts', total, seg')
  }

  function FirstSegment(env: Environment, history: seq<Message>, replies: seq<Reply>, log: seq<ToolCall>,
                        text: string): LoopEnd {
    RunLoop(env.budget, None, Started(replies, log, [], Window(history), UserText(text)))
  }

  /** `run_agent_turn`. */
  function Turn(env: Environment, history: seq<Message>, replies: seq<Reply>, log: seq<ToolCall>,
                text: string): TurnEnd {
    if env.setup.Some? then TurnEnd(history, 0, log, replies, [], Err(SetupFailed(env.setup.value)))
    else AfterSegment(env, TurnState(history, 0, 0), [], FirstSegment(env, history, replies, log, text))
  }

  /** What the client hears from the end of a segment to the end of the turn: prompts and notices call
      by call, and the answer once the turn has succeeded. */
  function AfterSegmentTold(env: Environment, ts: TurnState, before: seq<Message>, seg: LoopEnd): seq<ServerMessage>
    decreases |seg.st.replies|
  {
    if seg.out.Err? then []
    else if seg.out.value.pending == [] then
      if env.mode.Session? then [AgentResponse(seg.out.value.answer)] else []
    else
      var total := before + seg.out.value.newMessages;
      var (seg', ts') := NextSegment(env, ts, total, seg);
      CallsTold(env, Resolved(seg.st.log, ts.prompts, []), seg.out.value.pending) +
      (if seg'.out.Err? then [] else AfterSegmentTold(env, ts', total, seg'))
  }

  function TurnTold(env: Environment, history: seq<Message>, replies: seq<Reply>, log: seq<ToolCall>, text: string)
    : seq<ServerMessage>
  {
    if env.setup.Some? then []
    else AfterSegmentTold(env, TurnState(history, 0, 0), [], FirstSegment(env, history, replies, log, text))
  }
}
