/** The approval protocol, seen from one turn: however the turns, responses and timeouts of a session
    interleave, each turn resolves its calls as `Harness.ResolveCalls` says, with the answers that its
    own prompts came to. */
module SessionRefinement {
  import opened Prelude
  import opened Messages
  import opened Approvals
  import Permissions
  import Harness
  import TurnOutcome

  /** The calls turn t took up, and what its prompts came to, in order. */
  datatype Trace = Trace(calls: seq<ToolCall>, answers: seq<bool>)

  function Extend(s: State, t: nat, tr: Trace, step: Step): Trace {
    match step
    case Begin(u, call) =>
      if u == t && s.Phase(t).Between? then tr.(calls := tr.calls + [call]) else tr
    case Receive(u) =>
      if u == t && s.Phase(t).Waiting? then
        match s.ChannelOf(s.Phase(t).inst)
        case Some(Delivered(approved)) => tr.(answers := tr.answers + [approved])
        case _ => tr
      else tr
    case Timeout(u) =>
      if u == t && s.Phase(t).Waiting? && s.ChannelOf(s.Phase(t).inst) == Some(Empty)
      then tr.(answers := tr.answers + [false])
      else tr
    case _ => tr
  }

  function TraceOf(check: Policy, steps: seq<Step>, t: nat): Trace {
    if steps == [] then Trace([], [])
    else
      var n := |steps| - 1;
      Extend(Run(check, steps[..n]), t, TraceOf(check, steps[..n], t), steps[n])
  }

  /** The calls that turn t executed, in order. */
  function ExecutedBy(executed: seq<Instance>, t: nat): seq<ToolCall> {
    if executed == [] then []
    else
      var n := |executed| - 1;
      ExecutedBy(executed[..n], t) + if executed[n].turn == t then [executed[n].call] else []
  }

  function Answering(env: Harness.Environment, check: Policy, answers: seq<bool>): Harness.Environment {
    env.(permission := check, mode := Harness.Session((k: nat) => k < |answers| && answers[k]))
  }

  /** The sequential resolution of `calls`. */
  function Sequential(env: Harness.Environment, check: Policy, answers: seq<bool>,
                      calls: seq<ToolCall>): Harness.Resolved {
    Harness.ResolveCalls(Answering(env, check, answers), Harness.Resolved([], 0, []), calls)
  }

  ghost predicate Matches(env: Harness.Environment, check: Policy, done: seq<ToolCall>, answers: seq<bool>,
                          calls: seq<ToolCall>, prompts: int) {
    var r := Sequential(env, check, answers, calls);
    r.log == done && r.prompts == prompts
  }

  // ---------------------------------------------------------------- the sequential side

  lemma {:induction false} ResolveSnoc(env: Harness.Environment, r: Harness.Resolved, calls: seq<ToolCall>,
                                       call: ToolCall)
    ensures Harness.ResolveCalls(env, r, calls + [call]) ==
            Harness.ResolveCall(env, Harness.ResolveCalls(env, r, calls), call)
    decreases |calls|
  {
    if calls == [] {
      assert (calls + [call])[1..] == [];
    } else {
      assert (calls + [call])[1..] == calls[1..] + [call];
      ResolveSnoc(env, Harness.ResolveCall(env, r, calls[0]), calls[1..], call);
    }
  }

  lemma {:induction false} PromptsGrow(env: Harness.Environment, r: Harness.Resolved, calls: seq<ToolCall>)
    ensures Harness.ResolveCalls(env, r, calls).prompts >= r.prompts
    decreases |calls|
  {
    if calls != [] {
      PromptsGrow(env, Harness.ResolveCall(env, r, calls[0]), calls[1..]);
    }
  }

  /** Answers to later prompts do not matter. */
  lemma {:induction false} LaterAnswers(env: Harness.Environment, check: Policy, answers: seq<bool>, next: bool,
                                        r: Harness.Resolved, calls: seq<ToolCall>)
    requires Harness.ResolveCalls(Answering(env, check, answers), r, calls).prompts <= |answers|
    ensures Harness.ResolveCalls(Answering(env, check, answers + [next]), r, calls)
         == Harness.ResolveCalls(Answering(env, check, answers), r, calls)
    decreases |calls|
  {
    if calls != [] {
      var before, after := Answering(env, check, answers), Answering(env, check, answers + [next]);
      var r' := Harness.ResolveCall(before, r, calls[0]);
      PromptsGrow(before, r', calls[1..]);
      LaterAnswers(env, check, answers, next, r', calls[1..]);
      assert Harness.ResolveCall(after, r, calls[0]) == r';
    }
  }

  /** One more call, resolved after `calls`. */
  lemma SequentialSnoc(env: Harness.Environment, check: Policy, answers: seq<bool>, calls: seq<ToolCall>,
                       call: ToolCall)
    ensures var r := Sequential(env, check, answers, calls);
            var r' := Sequential(env, check, answers, calls + [call]);
            && r'.prompts == r.prompts + (if check(call).Allow? then 0 else 1)
            && r'.log == r.log +
               (if check(call).Allow? || (r.prompts < |answers| && answers[r.prompts]) then [call] else [])
  {
    ResolveSnoc(Answering(env, check, answers), Harness.Resolved([], 0, []), calls, call);
  }

  // ---------------------------------------------------------------- step by step

  /** The calls before the one in hand are resolved; the one in hand has been answered, or not. */
  ghost predicate InHand(env: Harness.Environment, check: Policy, done: seq<ToolCall>, tr: Trace, call: ToolCall,
                         answered: bool) {
    var n, k := |tr.calls| - 1, |tr.answers| - (if answered then 1 else 0);
    n >= 0 && k >= 0 && tr.calls[n] == call && Matches(env, check, done, tr.answers, tr.calls[..n], k)
  }

  ghost predicate Asking(env: Harness.Environment, check: Policy, done: seq<ToolCall>, tr: Trace, call: ToolCall) {
    !check(call).Allow? && InHand(env, check, done, tr, call, false)
  }

  ghost predicate Granted(env: Harness.Environment, check: Policy, done: seq<ToolCall>, tr: Trace, call: ToolCall) {
    && InHand(env, check, done, tr, call, !check(call).Allow?)
    && (!check(call).Allow? ==> tr.answers[|tr.answers| - 1])
  }

  ghost predicate Denied(env: Harness.Environment, check: Policy, done: seq<ToolCall>, tr: Trace, call: ToolCall) {
    !check(call).Allow? && InHand(env, check, done, tr, call, true) && !tr.answers[|tr.answers| - 1]
  }

  ghost predicate Follows(env: Harness.Environment, check: Policy, done: seq<ToolCall>, phase: Phase, tr: Trace) {
    match phase
    case Between => Matches(env, check, done, tr.answers, tr.calls, |tr.answers|)
    case Unapproved(inst) => Asking(env, check, done, tr, inst.call)
    case Registered(inst, _) => Asking(env, check, done, tr, inst.call)
    case Waiting(inst, _) => Asking(env, check, done, tr, inst.call)
    case Cleared(inst) => Granted(env, check, done, tr, inst.call)
    case Refused(inst) => Denied(env, check, done, tr, inst.call)
  }

  lemma CallBegins(env: Harness.Environment, check: Policy, done: seq<ToolCall>, tr: Trace, call: ToolCall)
    requires Matches(env, check, done, tr.answers, tr.calls, |tr.answers|)
    ensures var tr' := tr.(calls := tr.calls + [call]);
            if check(call).Allow? then Granted(env, check, done, tr', call) else Asking(env, check, done, tr', call)
  {
    assert (tr.calls + [call])[..|tr.calls|] == tr.calls;
  }

  lemma AnswerArrives(env: Harness.Environment, check: Policy, done: seq<ToolCall>, tr: Trace, call: ToolCall,
                      approved: bool)
    requires Asking(env, check, done, tr, call)
    ensures var tr' := tr.(answers := tr.answers + [approved]);
            if approved then Granted(env, check, done, tr', call) else Denied(env, check, done, tr', call)
  {
    LaterAnswers(env, check, tr.answers, approved, Harness.Resolved([], 0, []), tr.calls[..|tr.calls| - 1]);
  }

  lemma CallExecutes(env: Harness.Environment, check: Policy, done: seq<ToolCall>, tr: Trace, call: ToolCall)
    requires Granted(env, check, done, tr, call)
    ensures Matches(env, check, done + [call], tr.answers, tr.calls, |tr.answers|)
  {
    var n := |tr.calls| - 1;
    SequentialSnoc(env, check, tr.answers, tr.calls[..n], call);
    assert tr.calls[..n] + [call] == tr.calls;
  }

  lemma CallIsRefused(env: Harness.Environment, check: Policy, done: seq<ToolCall>, tr: Trace, call: ToolCall)
    requires Denied(env, check, done, tr, call)
    ensures Matches(env, check, done, tr.answers, tr.calls, |tr.answers|)
  {
    var n := |tr.calls| - 1;
    SequentialSnoc(env, check, tr.answers, tr.calls[..n], call);
    assert tr.calls[..n] + [call] == tr.calls && done + [] == done;
  }

  lemma ExecutedSnoc(executed: seq<Instance>, inst: Instance, t: nat)
    ensures ExecutedBy(executed + [inst], t) == ExecutedBy(executed, t) + if inst.turn == t then [inst.call] else []
  {
    assert (executed + [inst])[..|executed|] == executed;
  }

  /** Responses and the steps of other turns leave the turn where it is. */
  lemma OthersLeaveTurn(check: Policy, s: State, t: nat, tr: Trace, step: Step)
    requires Inv(check, s) && (step.Respond? || step.t != t)
    ensures var s' := Apply(check, s, step);
            && s'.Phase(t) == s.Phase(t) && ExecutedBy(s'.executed, t) == ExecutedBy(s.executed, t)
            && Extend(s, t, tr, step) == tr
  {
    if step.Execute? && s.Phase(step.t).Cleared? {
      assert TurnInv(check, s, step.t);
      ExecutedSnoc(s.executed, s.Phase(step.t).inst, t);
    }
  }

  lemma OwnStepFollows(env: Harness.Environment, check: Policy, s: State, t: nat, tr: Trace, step: Step)
    requires Inv(check, s) && Follows(env, check, ExecutedBy(s.executed, t), s.Phase(t), tr)
    requires !step.Respond? && step.t == t
    ensures var s' := Apply(check, s, step);
            Follows(env, check, ExecutedBy(s'.executed, t), s'.Phase(t), Extend(s, t, tr, step))
  {
    hide Matches, InHand, Asking, Granted, Denied, ExecutedBy;
    assert TurnInv(check, s, t);
    var done := ExecutedBy(s.executed, t);
    if step.Begin? && s.Phase(t).Between? {
      CallBegins(env, check, done, tr, step.call);
    } else if (step.Receive? || step.Timeout?) && s.Phase(t).Waiting? {
      AnswerArrives(env, check, done, tr, s.Phase(t).inst.call, true);
      AnswerArrives(env, check, done, tr, s.Phase(t).inst.call, false);
    } else if step.Execute? && s.Phase(t).Cleared? {
      ExecutedSnoc(s.executed, s.Phase(t).inst, t);
      CallExecutes(env, check, done, tr, s.Phase(t).inst.call);
    } else if step.Refuse? && s.Phase(t).Refused? {
      CallIsRefused(env, check, done, tr, s.Phase(t).inst.call);
    }
  }

  lemma {:induction false} RunFollows(env: Harness.Environment, check: Policy, steps: seq<Step>, t: nat)
    ensures var s := Run(check, steps);
            Follows(env, check, ExecutedBy(s.executed, t), s.Phase(t), TraceOf(check, steps, t))
  {
    if steps == [] {
    } else {
      hide Apply, Follows, Inv, Extend;
      var n := |steps| - 1;
      var s, tr := Run(check, steps[..n]), TraceOf(check, steps[..n], t);
      RunFollows(env, check, steps[..n], t);
      RunKeeps(check, steps[..n]);
      if steps[n].Respond? || steps[n].t != t {
        OthersLeaveTurn(check, s, t, tr, steps[n]);
      } else {
        OwnStepFollows(env, check, s, t, tr, steps[n]);
      }
    }
  }

  /** In every interleaving, a turn between two calls has executed exactly what resolving its calls
      one by one executes, under the answers its own prompts came to (false where one timed out),
      and has asked exactly as often. */
  lemma InterleavedTurnIsSequential(env: Harness.Environment, check: Policy, steps: seq<Step>, t: nat)
    ensures var s := Run(check, steps);
            var tr := TraceOf(check, steps, t);
            s.Phase(t).Between? ==>
              var r := Harness.ResolveCalls(Answering(env, check, tr.answers), Harness.Resolved([], 0, []), tr.calls);
              r.log == ExecutedBy(s.executed, t) && r.prompts == |tr.answers|
  {
    RunFollows(env, check, steps, t);
  }

  /** What a prompt of the turn comes to is what the client said to it in time, or false if this very step
      times it out. */
  ghost predicate AnswerFrom(check: Policy, steps: seq<Step>, t: nat, step: Step, answer: bool) {
    var s := Run(check, steps);
    && s.Phase(t).Waiting?
    && (if TimesOut(s, step, s.Phase(t).inst) then !answer
        else step == Receive(t) && ClientSaid(check, steps, s.Phase(t).inst, answer))
  }

  lemma AnswersComeFromTheClient(check: Policy, steps: seq<Step>, t: nat, step: Step)
    ensures var before, after := TraceOf(check, steps, t).answers, TraceOf(check, steps + [step], t).answers;
            || after == before
            || (exists answer :: after == before + [answer] && AnswerFrom(check, steps, t, step, answer))
  {
    assert (steps + [step])[..|steps|] == steps;
    RunKeeps(check, steps);
    var s := Run(check, steps);
    assert TurnInv(check, s, t);
    if s.Phase(t).Waiting? {
      var inst, id := s.Phase(t).inst, s.Phase(t).id;
      var before := TraceOf(check, steps, t).answers;
      hide Run, TraceOf, Inv, ClientSaid;
      if s.channels[inst].Delivered? {
        AnswerWasSaid(check, steps, inst, id);
        assert step == Receive(t) ==> AnswerFrom(check, steps, t, step, s.channels[inst].approved);
      } else {
        assert TimesOut(s, step, inst) ==> AnswerFrom(check, steps, t, step, false);
      }
    }
  }

  /** Under the default policies a call with a denied command is executed, in any interleaving, exactly
      when the answer that its own prompt came to was true. */
  lemma DeniedRunsIffAnswered(lower: Permissions.Lowering, env: Harness.Environment, check: Policy, steps: seq<Step>,
                              t: nat, i: nat)
    requires forall call :: check(call) == Permissions.Check(lower, call)
    requires Run(check, steps).Phase(t).Between?
    requires var tr := TraceOf(check, steps, t); i < |tr.calls| && Permissions.CommandDenied(lower, tr.calls[i])
    ensures var tr := TraceOf(check, steps, t);
            var r := Sequential(env, check, tr.answers, tr.calls[..i]);
            var r' := Sequential(env, check, tr.answers, tr.calls[..i + 1]);
            && r'.prompts == r.prompts + 1 <= |tr.answers|
            && r'.log == r.log + (if tr.answers[r.prompts] then [tr.calls[i]] else [])
            && r'.log <= ExecutedBy(Run(check, steps).executed, t)
  {
    hide Run, TraceOf, Permissions.CommandDenied, Permissions.Check;
    var tr := TraceOf(check, steps, t);
    Permissions.CheckDecides(lower, tr.calls[i]);
    InterleavedTurnIsSequential(env, check, steps, t);
    assert tr.calls[..i] + [tr.calls[i]] == tr.calls[..i + 1];
    SequentialSnoc(env, check, tr.answers, tr.calls[..i], tr.calls[i]);
    ResolvePrefix(Answering(env, check, tr.answers), Harness.Resolved([], 0, []), tr.calls, i + 1);
  }

  lemma {:induction false} ResolvePrefix(env: Harness.Environment, r: Harness.Resolved, calls: seq<ToolCall>, n: nat)
    requires n <= |calls|
    ensures var part, all := Harness.ResolveCalls(env, r, calls[..n]), Harness.ResolveCalls(env, r, calls);
            part.log <= all.log && part.prompts <= all.prompts
    decreases |calls|
  {
    if calls == [] {
    } else if n == 0 {
      ResolvePrefix(env, Harness.ResolveCall(env, r, calls[0]), calls[1..], 0);
    } else {
      assert calls[..n][1..] == calls[1..][..n - 1];
      ResolvePrefix(env, Harness.ResolveCall(env, r, calls[0]), calls[1..], n - 1);
    }
  }

  /** A session's turn, in any interleaving, is the turn of the harness: once it has resolved the calls of
      the replies that came before its last, it has executed and asked what `Harness.Turn` executes and
      asks in a session where the prompts are answered as its own were. */
  lemma InterleavedTurnIsTheTurn(env: Harness.Environment, check: Policy, history: seq<Message>, all: seq<Reply>,
                                 text: string, steps: seq<Step>, t: nat)
    requires env.setup.None? && env.budget.continuations < env.budget.iterations
    requires Run(check, steps).Phase(t).Between?
    requires var tr := TraceOf(check, steps, t);
             var n := |Harness.Turn(Answering(env, check, tr.answers), history, all, [], text).sent|;
             0 < n <= |all| + 1 && tr.calls == TurnOutcome.ToolCallsIn(all, n - 1)
    ensures var tr := TraceOf(check, steps, t);
            var end := Harness.Turn(Answering(env, check, tr.answers), history, all, [], text);
            end.log == ExecutedBy(Run(check, steps).executed, t) && end.prompts == |tr.answers|
  {
    hide Run, TraceOf, Harness.Turn, Harness.ResolveCalls, TurnOutcome.ToolCallsIn;
    var tr := TraceOf(check, steps, t);
    InterleavedTurnIsSequential(env, check, steps, t);
    var h := TurnOutcome.FirstTurnHaltDecides(Answering(env, check, tr.answers), history, all, [], text);
  }
}
