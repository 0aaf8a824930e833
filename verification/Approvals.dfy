/** The approval protocol of one WebSocket session: many turns share a map from request id to
    one-shot sender (crates/edgeclaw-server/src/agent.rs, handlers.rs, session.rs). Steps of turns,
    client responses and timeouts interleave freely. */
module Approvals {
  import opened Prelude
  import opened Messages
  import opened Permissions

  /** A UUID; a fresh one is drawn for every request. */
  type RequestId = nat

  /** The `index`-th pending call of turn `turn`. It stands for the one-shot channel made for it. */
  datatype Instance = Instance(turn: nat, index: nat, call: ToolCall)

  /** A one-shot channel: nothing sent yet, a value sent, or its receiver gone. */
  datatype Channel = Empty | Delivered(approved: bool) | Closed

  datatype Phase =
    | Between
    | Unapproved(inst: Instance)
    | Registered(inst: Instance, id: RequestId)
    | Waiting(inst: Instance, id: RequestId)
    | Cleared(inst: Instance)
    | Refused(inst: Instance)

  datatype TurnState = TurnState(index: nat, phase: Phase)

  /** `pending` is the shared map. The last four fields are history: what was ever registered,
      what each id was answered with, which requests timed out, and what was executed. */
  datatype State = State(
    turns: map<nat, TurnState>,
    pending: map<RequestId, Instance>,
    channels: map<Instance, Channel>,
    issued: map<RequestId, Instance>,
    answered: map<RequestId, bool>,
    timedOut: set<Instance>,
    executed: seq<Instance>)
  {
    function Turn(t: nat): TurnState {
      if t in turns then turns[t] else TurnState(0, Between)
    }

    function Phase(t: nat): Phase {
      Turn(t).phase
    }

    function Move(t: nat, phase: Phase): State {
      this.(turns := turns[t := TurnState(Turn(t).index, phase)])
    }

    function Next(t: nat): State {
      this.(turns := turns[t := TurnState(Turn(t).index + 1, Between)])
    }

    function ChannelOf(inst: Instance): Option<Channel> {
      if inst in channels then Some(channels[inst]) else None
    }
  }

  datatype Step =
    | Begin(t: nat, call: ToolCall)
    | Register(t: nat, id: RequestId)
    | Prompt(t: nat)
    | Respond(id: RequestId, approved: bool)
    | Receive(t: nat)
    | Timeout(t: nat)
    | Execute(t: nat)
    | Refuse(t: nat)

  type Policy = ToolCall -> PermissionCheck

  function Init(): State {
    State(map[], map[], map[], map[], map[], {}, [])
  }

  function RespondTo(s: State, id: RequestId, approved: bool): State {
    if id !in s.pending then s
    else
      var inst := s.pending[id];
      s.(pending := s.pending - {id},
         channels := if s.ChannelOf(inst) == Some(Empty) then s.channels[inst := Delivered(approved)] else s.channels,
         answered := s.answered[id := approved])
  }

  /** One step; a step that is not enabled changes nothing. */
  function Apply(check: Policy, s: State, step: Step): State {
    match step
    case Begin(t, call) =>
      var inst := Instance(t, s.Turn(t).index, call);
      if !s.Phase(t).Between? then s
      else s.Move(t, if check(call).Allow? then Cleared(inst) else Unapproved(inst))
    case Register(t, id) =>
      if !s.Phase(t).Unapproved? || id in s.issued then s
      else
        var inst := s.Phase(t).inst;
        s.Move(t, Registered(inst, id)).(
          pending := s.pending[id := inst],
          channels := s.channels[inst := Empty],
          issued := s.issued[id := inst])
    case Prompt(t) =>
      if !s.Phase(t).Registered? then s else s.Move(t, Waiting(s.Phase(t).inst, s.Phase(t).id))
    case Respond(id, approved) => RespondTo(s, id, approved)
    case Receive(t) =>
      if !s.Phase(t).Waiting? then s
      else
        var channel := s.ChannelOf(s.Phase(t).inst);
        if channel.Some? && channel.value.Delivered? then
          s.Move(t, if channel.value.approved then Cleared(s.Phase(t).inst) else Refused(s.Phase(t).inst))
        else s
    case Timeout(t) =>
      if !s.Phase(t).Waiting? || s.ChannelOf(s.Phase(t).inst) != Some(Empty) then s
      else
        var inst := s.Phase(t).inst;
        s.Move(t, Refused(inst)).(channels := s.channels[inst := Closed], timedOut := s.timedOut + {inst})
    case Execute(t) =>
      if !s.Phase(t).Cleared? then s else s.Next(t).(executed := s.executed + [s.Phase(t).inst])
    case Refuse(t) =>
      if !s.Phase(t).Refused? then s else s.Next(t)
  }

  function Run(check: Policy, steps: seq<Step>): State {
    if steps == [] then Init()
    else Apply(check, Run(check, steps[..|steps| - 1]), steps[|steps| - 1])
  }

  // ---------------------------------------------------------------- the invariant

  /** `true` was delivered on the channel registered for this very call, which has not timed out. */
  ghost predicate ApprovedInTime(s: State, inst: Instance) {
    inst !in s.timedOut && exists id :: IssuedTo(s, id, inst) && id in s.answered && s.answered[id]
  }

  ghost predicate IssuedTo(s: State, id: RequestId, inst: Instance) {
    id in s.issued && s.issued[id] == inst
  }

  ghost predicate Licensed(check: Policy, s: State, inst: Instance) {
    check(inst.call).Allow? || ApprovedInTime(s, inst)
  }

  /** The policy does not allow the call, and its request has timed out or been answered `false`. */
  ghost predicate TurnedDown(check: Policy, s: State, inst: Instance) {
    && !check(inst.call).Allow?
    && (inst in s.timedOut || exists id :: IssuedTo(s, id, inst) && id in s.answered && !s.answered[id])
  }

  ghost predicate TurnInv(check: Policy, s: State, t: nat) {
    match s.Phase(t)
    case Between => true
    case Unapproved(inst) => InHand(s, t, inst) && !check(inst.call).Allow? && inst !in s.channels
    case Registered(inst, id) => InHand(s, t, inst) && !check(inst.call).Allow? && AskInv(s, inst, id)
    case Waiting(inst, id) => InHand(s, t, inst) && !check(inst.call).Allow? && AskInv(s, inst, id)
    case Cleared(inst) => InHand(s, t, inst) && Licensed(check, s, inst)
    case Refused(inst) => InHand(s, t, inst) && TurnedDown(check, s, inst)
  }

  predicate InHand(s: State, t: nat, inst: Instance) {
    inst.turn == t && inst.index == s.Turn(t).index
  }

  /** A turn that asks has, under its own id, its own channel, open or answered. */
  ghost predicate AskInv(s: State, inst: Instance, id: RequestId) {
    && IssuedTo(s, id, inst)
    && inst !in s.timedOut
    && inst in s.channels
    && match s.channels[inst]
       case Empty => id in s.pending
       case Delivered(approved) => id in s.answered && s.answered[id] == approved
       case Closed => false
  }

  /** An issued id is in the map, leading to the sender it was issued for, until it is answered;
      while it is there its turn waits on it, or the request has timed out. */
  ghost predicate IdInv(s: State, id: RequestId) {
    && (id in s.issued ==> s.issued[id] in s.channels && (id in s.pending <==> id !in s.answered))
    && (id in s.answered ==> id in s.issued)
    && (id in s.pending ==>
          && IssuedTo(s, id, s.pending[id])
          && (s.pending[id] in s.timedOut || AsksUnder(s, s.pending[id], id)))
  }

  ghost predicate AsksUnder(s: State, inst: Instance, id: RequestId) {
    && (s.Phase(inst.turn) == Registered(inst, id) || s.Phase(inst.turn) == Waiting(inst, id))
    && s.ChannelOf(inst) == Some(Empty)
  }

  /** Channels and executions belong to calls their turn has reached; executed calls are behind it. */
  ghost predicate ChannelInv(s: State, inst: Instance) {
    && (inst in s.channels ==> inst.index <= s.Turn(inst.turn).index)
    && (inst in s.channels && inst.index == s.Turn(inst.turn).index ==>
          !s.Phase(inst.turn).Between? && s.Phase(inst.turn).inst == inst)
    && (inst in s.executed ==> inst.index < s.Turn(inst.turn).index)
    && (inst in s.timedOut ==> s.ChannelOf(inst) == Some(Closed))
  }

  ghost predicate Distinct(s: State) {
    && (forall a, b :: a in s.issued && b in s.issued && s.issued[a] == s.issued[b] ==> a == b)
    && (forall i, j :: 0 <= i < j < |s.executed| ==> s.executed[i] != s.executed[j])
  }

  ghost predicate Inv(check: Policy, s: State) {
    && (forall t :: TurnInv(check, s, t))
    && (forall id :: IdInv(s, id))
    && (forall inst :: ChannelInv(s, inst))
    && Distinct(s)
  }

  // ---------------------------------------------------------------- every step keeps it

  lemma LicensedStays(check: Policy, s: State, s': State, inst: Instance)
    requires Licensed(check, s, inst)
    requires inst in s'.timedOut ==> inst in s.timedOut
    requires forall id :: IssuedTo(s, id, inst) ==> IssuedTo(s', id, inst)
    requires forall id :: id in s.answered ==> id in s'.answered && s'.answered[id] == s.answered[id]
    ensures Licensed(check, s', inst)
  {
    if !check(inst.call).Allow? {
      var id :| IssuedTo(s, id, inst) && id in s.answered && s.answered[id];
      assert IssuedTo(s', id, inst);
    }
  }

  lemma TurnedDownStays(check: Policy, s: State, s': State, inst: Instance)
    requires TurnedDown(check, s, inst)
    requires inst in s.timedOut ==> inst in s'.timedOut
    requires forall id :: IssuedTo(s, id, inst) ==> IssuedTo(s', id, inst)
    requires forall id :: id in s.answered ==> id in s'.answered && s'.answered[id] == s.answered[id]
    ensures TurnedDown(check, s', inst)
  {
    if inst !in s.timedOut {
      var id :| IssuedTo(s, id, inst) && id in s.answered && !s.answered[id];
      assert IssuedTo(s', id, inst);
    }
  }

  /** A response moves no turn. */
  lemma TurnStaysOnResponse(check: Policy, s: State, id: RequestId, approved: bool, u: nat)
    requires Inv(check, s)
    ensures TurnInv(check, RespondTo(s, id, approved), u)
  {
    assert TurnInv(check, s, u);
    assert IdInv(s, id);
    if s.Phase(u).Cleared? {
      LicensedStays(check, s, RespondTo(s, id, approved), s.Phase(u).inst);
    } else if s.Phase(u).Refused? {
      TurnedDownStays(check, s, RespondTo(s, id, approved), s.Phase(u).inst);
    }
  }

  lemma AskStays(s: State, s': State, inst: Instance, id: RequestId)
    requires AskInv(s, inst, id) && s'.ChannelOf(inst) == s.ChannelOf(inst) && s'.answered == s.answered
    requires IssuedTo(s', id, inst) && (inst in s'.timedOut ==> inst in s.timedOut)
    requires id in s.pending ==> id in s'.pending
    ensures AskInv(s', inst, id)
  {}

  /** A turn that another turn's step leaves alone. */
  lemma OtherTurnStays(check: Policy, s: State, step: Step, u: nat)
    requires TurnInv(check, s, u) && !step.Respond? && TurnInv(check, s, step.t) && u != step.t
    ensures TurnInv(check, Apply(check, s, step), u)
  {
    var s' := Apply(check, s, step);
    OtherTurnUntouched(check, s, step, u);
    hide Apply, Licensed, TurnedDown, AskInv;
    if s.Phase(u).Registered? || s.Phase(u).Waiting? {
      AskStays(s, s', s.Phase(u).inst, s.Phase(u).id);
    } else if s.Phase(u).Cleared? {
      LicensedStays(check, s, s', s.Phase(u).inst);
    } else if s.Phase(u).Refused? {
      TurnedDownStays(check, s, s', s.Phase(u).inst);
    }
  }

  /** What a turn's step leaves alone: another turn, its channels, and what was issued and answered. */
  lemma OtherTurnUntouched(check: Policy, s: State, step: Step, u: nat)
    requires !step.Respond? && TurnInv(check, s, step.t) && u != step.t
    ensures var s' := Apply(check, s, step);
      && s'.Turn(u) == s.Turn(u) && s'.answered == s.answered
      && (forall id :: id in s.issued ==> id in s'.issued && s'.issued[id] == s.issued[id])
      && (forall id :: id in s.pending ==> id in s'.pending)
      && (forall inst: Instance :: inst.turn == u ==>
            s'.ChannelOf(inst) == s.ChannelOf(inst) && (inst in s'.timedOut <==> inst in s.timedOut))
  {}

  lemma MovedTurnStays(check: Policy, s: State, step: Step)
    requires Inv(check, s) && !step.Respond?
    ensures TurnInv(check, Apply(check, s, step), step.t)
  {
    var s' := Apply(check, s, step);
    assert TurnInv(check, s, step.t);
    if step.Receive? && s.Phase(step.t).Waiting? {
      assert IssuedTo(s', s.Phase(step.t).id, s.Phase(step.t).inst);
    } else if step.Begin? {
      assert ChannelInv(s, Instance(step.t, s.Turn(step.t).index, step.call));
    } else if step.Register? && s.Phase(step.t).Unapproved? {
      assert ChannelInv(s, s.Phase(step.t).inst);
    }
  }

  lemma TurnStays(check: Policy, s: State, step: Step, u: nat)
    requires Inv(check, s)
    ensures TurnInv(check, Apply(check, s, step), u)
  {
    hide TurnInv, IdInv, ChannelInv, Distinct;
    if step.Respond? {
      TurnStaysOnResponse(check, s, step.id, step.approved, u);
    } else if u == step.t {
      MovedTurnStays(check, s, step);
    } else {
      assert TurnInv(check, s, u) && TurnInv(check, s, step.t);
      OtherTurnStays(check, s, step, u);
    }
  }

  lemma IdStaysOnResponse(s: State, answered: RequestId, approved: bool, id: RequestId)
    requires IdInv(s, id) && IdInv(s, answered) && Distinct(s)
    ensures IdInv(RespondTo(s, answered, approved), id)
  {}

  lemma IdStaysOnTurnStep(check: Policy, s: State, step: Step, id: RequestId)
    requires IdInv(s, id) && !step.Respond? && TurnInv(check, s, step.t)
    requires id in s.pending ==> TurnInv(check, s, s.pending[id].turn)
    ensures IdInv(Apply(check, s, step), id)
  {
    hide Licensed, TurnedDown;
  }

  lemma IdStays(check: Policy, s: State, step: Step, id: RequestId)
    requires Inv(check, s)
    ensures IdInv(Apply(check, s, step), id)
  {
    assert IdInv(s, id);
    if step.Respond? {
      assert IdInv(s, step.id);
      IdStaysOnResponse(s, step.id, step.approved, id);
      hide IdInv, Distinct, TurnInv, Inv;
    } else {
      assert TurnInv(check, s, step.t);
      assert id in s.pending ==> TurnInv(check, s, s.pending[id].turn);
      hide Apply, IdInv, Distinct, TurnInv, Inv;
      IdStaysOnTurnStep(check, s, step, id);
    }
  }

  lemma ChannelStays(check: Policy, s: State, step: Step, inst: Instance)
    requires Inv(check, s)
    ensures ChannelInv(Apply(check, s, step), inst)
  {
    assert ChannelInv(s, inst);
    if step.Respond? {
      ChannelStaysOnResponse(s, step.id, step.approved, inst);
      hide ChannelInv, Inv;
    } else {
      assert TurnInv(check, s, step.t);
      hide Apply, TurnInv, ChannelInv, Inv;
      ChannelStaysOnTurnStep(check, s, step, inst);
    }
  }

  lemma ChannelStaysOnTurnStep(check: Policy, s: State, step: Step, inst: Instance)
    requires ChannelInv(s, inst) && !step.Respond? && TurnInv(check, s, step.t)
    ensures ChannelInv(Apply(check, s, step), inst)
  {
    hide Licensed, TurnedDown, IssuedTo;
  }

  lemma ChannelStaysOnResponse(s: State, id: RequestId, approved: bool, inst: Instance)
    requires ChannelInv(s, inst)
    ensures ChannelInv(RespondTo(s, id, approved), inst)
  {}

  lemma DistinctStays(check: Policy, s: State, step: Step)
    requires Inv(check, s)
    ensures Distinct(Apply(check, s, step))
  {
    if step.Execute? && s.Phase(step.t).Cleared? {
      assert TurnInv(check, s, step.t);
      assert ChannelInv(s, s.Phase(step.t).inst);
    } else if step.Register? && s.Phase(step.t).Unapproved? {
      assert TurnInv(check, s, step.t);
      forall id | id in s.issued ensures s.issued[id] != s.Phase(step.t).inst {
        assert IdInv(s, id);
      }
    }
  }

  lemma StepKeeps(check: Policy, s: State, step: Step)
    requires Inv(check, s)
    ensures Inv(check, Apply(check, s, step))
  {
    hide Apply, TurnInv, IdInv, ChannelInv, Distinct;
    forall u ensures TurnInv(check, Apply(check, s, step), u) { TurnStays(check, s, step, u); }
    forall id ensures IdInv(Apply(check, s, step), id) { IdStays(check, s, step, id); }
    forall inst ensures ChannelInv(Apply(check, s, step), inst) { ChannelStays(check, s, step, inst); }
    DistinctStays(check, s, step);
  }

  lemma {:induction false} RunKeeps(check: Policy, steps: seq<Step>)
    ensures Inv(check, Run(check, steps))
  {
    hide Apply;
    if steps == [] {
    } else {
      RunKeeps(check, steps[..|steps| - 1]);
      StepKeeps(check, Run(check, steps[..|steps| - 1]), steps[|steps| - 1]);
    }
  }

  // ---------------------------------------------------------------- what every run guarantees

  /** Step i registers the request of `inst` under `id`. */
  ghost predicate RegisteredBy(check: Policy, steps: seq<Step>, i: int, id: RequestId, inst: Instance) {
    && 0 <= i < |steps| && steps[i] == Register(inst.turn, id)
    && Run(check, steps[..i]).Phase(inst.turn) == Unapproved(inst)
    && id !in Run(check, steps[..i]).issued
  }

  predicate RespondsTo(step: Step, id: RequestId) {
    step.Respond? && step.id == id
  }

  /** Step j is the client's first response under `id` after step i. */
  predicate FirstResponse(steps: seq<Step>, i: int, j: int, id: RequestId) {
    0 <= i < j < |steps| && RespondsTo(steps[j], id) && forall k :: i < k < j ==> !RespondsTo(steps[k], id)
  }

  lemma {:induction false} IssuedByRegistration(check: Policy, steps: seq<Step>, id: RequestId) returns (i: int)
    requires id in Run(check, steps).issued
    ensures RegisteredBy(check, steps, i, id, Run(check, steps).issued[id])
  {
    var n := |steps| - 1;
    var s := Run(check, steps[..n]);
    RunKeeps(check, steps[..n]);
    if id in s.issued {
      i := IssuedByRegistration(check, steps[..n], id);
      assert steps[..n][..i] == steps[..i];
      IssuedStays(check, s, steps[n], id);
    } else {
      i := n;
      IssuedNow(check, s, steps[n], id);
    }
    hide Inv, Apply;
  }

  lemma IssuedStays(check: Policy, s: State, step: Step, id: RequestId)
    requires id in s.issued
    ensures var s' := Apply(check, s, step); id in s'.issued && s'.issued[id] == s.issued[id]
  {}

  lemma IssuedNow(check: Policy, s: State, step: Step, id: RequestId)
    requires Inv(check, s) && id !in s.issued && id in Apply(check, s, step).issued
    ensures var inst := Apply(check, s, step).issued[id];
            step == Register(inst.turn, id) && s.Phase(inst.turn) == Unapproved(inst)
  {
    if step.Register? {
      assert TurnInv(check, s, step.t);
    }
  }

  /** The first response under an issued id is its answer; other steps leave its answer alone. */
  lemma AnsweredByStep(check: Policy, s: State, step: Step, id: RequestId)
    requires Inv(check, s) && id in s.issued
    ensures var s' := Apply(check, s, step);
            if RespondsTo(step, id) && id !in s.answered then id in s'.answered && s'.answered[id] == step.approved
            else (id in s'.answered <==> id in s.answered) && (id in s.answered ==> s'.answered[id] == s.answered[id])
  {
    assert IdInv(s, id);
  }

  /** What an id has been answered is what the client said first under it, once it was registered. */
  lemma {:induction false} AnswerIsFirstResponse(check: Policy, steps: seq<Step>, i: int, id: RequestId, inst: Instance)
    requires RegisteredBy(check, steps, i, id, inst)
    ensures var s := Run(check, steps);
            && IssuedTo(s, id, inst)
            && (id in s.answered <==> exists j :: FirstResponse(steps, i, j, id))
            && (forall j :: FirstResponse(steps, i, j, id) ==> id in s.answered && s.answered[id] == steps[j].approved)
  {
    var n := |steps| - 1;
    var s := Run(check, steps[..n]);
    RunKeeps(check, steps[..n]);
    if i == n {
      NewlyIssued(check, s, inst, id);
      hide Inv, Apply;
    } else {
      assert steps[..n][..i] == steps[..i];
      AnswerIsFirstResponse(check, steps[..n], i, id, inst);
      IssuedStays(check, s, steps[n], id);
      AnsweredByStep(check, s, steps[n], id);
      hide Inv, Apply, Run;
      OneMoreResponse(steps, i, id);
      hide FirstResponse;
    }
  }

  lemma NewlyIssued(check: Policy, s: State, inst: Instance, id: RequestId)
    requires Inv(check, s) && id !in s.issued && s.Phase(inst.turn) == Unapproved(inst)
    ensures var s' := Apply(check, s, Register(inst.turn, id)); IssuedTo(s', id, inst) && id !in s'.answered
  {
    assert IdInv(s, id);
  }

  lemma OneMoreResponse(steps: seq<Step>, i: int, id: RequestId)
    requires 0 <= i < |steps| - 1
    ensures var n := |steps| - 1;
            && (forall j :: j < n ==> (FirstResponse(steps, i, j, id) <==> FirstResponse(steps[..n], i, j, id)))
            && (FirstResponse(steps, i, n, id) <==>
                  RespondsTo(steps[n], id) && !exists j :: FirstResponse(steps[..n], i, j, id))
  {
    var n := |steps| - 1;
    forall k | i < k < n && RespondsTo(steps[k], id) ensures exists j :: FirstResponse(steps[..n], i, j, id) {
      assert RespondsTo(steps[..n][k], id);
      var j := EarliestResponse(steps[..n], i, k, id);
    }
  }

  lemma {:induction false} EarliestResponse(steps: seq<Step>, i: int, k: int, id: RequestId) returns (j: int)
    requires 0 <= i < k < |steps| && RespondsTo(steps[k], id)
    ensures FirstResponse(steps, i, j, id)
    decreases k
  {
    if m :| i < m < k && RespondsTo(steps[m], id) {
      j := EarliestResponse(steps, i, m, id);
    } else {
      j := k;
    }
  }

  /** Registered at step i under `id`, the call was still waiting for its answer, not timed out, when the
      client responded at step j, for the first time under that id. */
  ghost predicate AskedAndAnswered(check: Policy, steps: seq<Step>, inst: Instance, i: int, j: int, id: RequestId) {
    && RegisteredBy(check, steps, i, id, inst)
    && FirstResponse(steps, i, j, id)
    && AsksUnder(Run(check, steps[..j]), inst, id)
  }

  /** The client said `approved` to this very call, in time. */
  ghost predicate ClientSaid(check: Policy, steps: seq<Step>, inst: Instance, approved: bool) {
    exists i, j, id :: AskedAndAnswered(check, steps, inst, i, j, id) && steps[j].approved == approved
  }

  lemma {:induction false} TimedOutStays(check: Policy, steps: seq<Step>, j: nat, inst: Instance)
    requires j <= |steps| && inst in Run(check, steps[..j]).timedOut
    ensures inst in Run(check, steps).timedOut
  {
    if j == |steps| {
      assert steps[..j] == steps;
    } else {
      hide Apply, Inv, TimesOut;
      var n := |steps| - 1;
      assert steps[..n][..j] == steps[..j];
      TimedOutStays(check, steps[..n], j, inst);
      TimesOutByStep(check, Run(check, steps[..n]), steps[n], inst);
    }
  }

  /** The step times out the request of `inst`, which waits without an answer. */
  predicate TimesOut(s: State, step: Step, inst: Instance) {
    && step == Timeout(inst.turn)
    && s.Phase(inst.turn).Waiting? && s.Phase(inst.turn).inst == inst
    && s.ChannelOf(inst) == Some(Empty)
  }

  lemma TimesOutByStep(check: Policy, s: State, step: Step, inst: Instance)
    ensures inst in s.timedOut ==> inst in Apply(check, s, step).timedOut
    ensures Inv(check, s) && inst in Apply(check, s, step).timedOut ==> inst in s.timedOut || TimesOut(s, step, inst)
  {
    if Inv(check, s) && step.Timeout? {
      assert TurnInv(check, s, step.t);
    }
    hide Inv;
  }

  /** The request of the call was timed out by one of the steps. */
  ghost predicate RanOutOfTime(check: Policy, steps: seq<Step>, inst: Instance) {
    exists k :: 0 <= k < |steps| && TimesOut(Run(check, steps[..k]), steps[k], inst)
  }

  lemma {:induction false} TimedOutByStep(check: Policy, steps: seq<Step>, inst: Instance)
    requires inst in Run(check, steps).timedOut
    ensures RanOutOfTime(check, steps, inst)
  {
    hide Apply, Inv, TimesOut;
    var n := |steps| - 1;
    var s := Run(check, steps[..n]);
    RunKeeps(check, steps[..n]);
    TimesOutByStep(check, s, steps[n], inst);
    if inst in s.timedOut {
      TimedOutByStep(check, steps[..n], inst);
      var k :| 0 <= k < n && TimesOut(Run(check, steps[..n][..k]), steps[..n][k], inst);
      assert steps[..n][..k] == steps[..k];
    }
  }

  /** An answer recorded for a request that has not timed out is what the client said to it in time. */
  lemma AnswerWasSaid(check: Policy, steps: seq<Step>, inst: Instance, id: RequestId)
    requires var s := Run(check, steps); IssuedTo(s, id, inst) && id in s.answered && inst !in s.timedOut
    ensures ClientSaid(check, steps, inst, Run(check, steps).answered[id])
  {
    var i := IssuedByRegistration(check, steps, id);
    AnswerIsFirstResponse(check, steps, i, id, inst);
    var j :| FirstResponse(steps, i, j, id);
    var s := Run(check, steps[..j]);
    assert steps[..j][..i] == steps[..i];
    AnswerIsFirstResponse(check, steps[..j], i, id, inst);
    NotBeforeFirst(steps, i, j, id);
    RunKeeps(check, steps[..j]);
    assert IdInv(s, id);
    if inst in s.timedOut {
      TimedOutStays(check, steps, j, inst);
    }
    hide Run, Inv, IdInv, RegisteredBy, FirstResponse;
    assert AskedAndAnswered(check, steps, inst, i, j, id);
  }

  lemma NotBeforeFirst(steps: seq<Step>, i: int, j: int, id: RequestId)
    requires FirstResponse(steps, i, j, id)
    ensures !exists k :: FirstResponse(steps[..j], i, k, id)
  {}

  /** In every interleaving, a call is executed only if the policy allows it, or the client said `true`
      to the request of that very call before its timeout; and at most once. */
  lemma OnlyLicensedCallsExecute(check: Policy, steps: seq<Step>, step: Step)
    ensures var s := Run(check, steps);
            var s' := Apply(check, s, step);
            s'.executed != s.executed ==>
              && |s'.executed| == |s.executed| + 1 && s.executed <= s'.executed
              && var inst := s'.executed[|s.executed|];
                 inst !in s.executed && (check(inst.call).Allow? || ClientSaid(check, steps, inst, true))
  {
    RunKeeps(check, steps);
    var s := Run(check, steps);
    if step.Execute? && s.Phase(step.t).Cleared? {
      var inst := s.Phase(step.t).inst;
      assert TurnInv(check, s, step.t) && ChannelInv(s, inst);
      if !check(inst.call).Allow? {
        var id :| IssuedTo(s, id, inst) && id in s.answered && s.answered[id];
        hide Inv, ClientSaid;
        AnswerWasSaid(check, steps, inst, id);
      }
    }
  }

  /** ... and a call is refused only if the policy does not allow it, and its request timed out or the
      client said `false` to it. */
  lemma OnlyTurnedDownCallsAreRefused(check: Policy, steps: seq<Step>, t: nat)
    ensures var s := Run(check, steps);
            s.Phase(t).Refused? ==>
              var inst := s.Phase(t).inst;
              !check(inst.call).Allow? && (RanOutOfTime(check, steps, inst) || ClientSaid(check, steps, inst, false))
  {
    RunKeeps(check, steps);
    var s := Run(check, steps);
    if s.Phase(t).Refused? {
      assert TurnInv(check, s, t);
      var inst := s.Phase(t).inst;
      if inst !in s.timedOut {
        var id :| IssuedTo(s, id, inst) && id in s.answered && !s.answered[id];
        hide Inv, ClientSaid;
        AnswerWasSaid(check, steps, inst, id);
      } else {
        TimedOutByStep(check, steps, inst);
      }
    }
  }

  /** A registered call that its turn has left behind was executed, and then approved in time, or turned
      down. */
  ghost predicate DoneInv(check: Policy, s: State, inst: Instance) {
    inst in s.channels && !check(inst.call).Allow? && inst.index < s.Turn(inst.turn).index ==>
      if inst in s.executed then ApprovedInTime(s, inst) else TurnedDown(check, s, inst)
  }

  /** What a step does to a call its turn has left behind: nothing. */
  lemma BehindUntouched(check: Policy, s: State, step: Step, inst: Instance)
    requires Inv(check, s) && inst in s.channels && inst.index < s.Turn(inst.turn).index
    ensures var s' := Apply(check, s, step);
            && (inst in s'.executed <==> inst in s.executed) && (inst in s'.timedOut <==> inst in s.timedOut)
            && inst in s'.channels && inst.index < s'.Turn(inst.turn).index
  {
    if !step.Respond? {
      assert TurnInv(check, s, step.t);
      hide Inv, IdInv, Distinct, Licensed, TurnedDown, IssuedTo, ChannelInv;
    }
  }

  lemma AnswersStay(check: Policy, s: State, step: Step, inst: Instance)
    requires Inv(check, s)
    ensures var s' := Apply(check, s, step);
            && (forall id :: IssuedTo(s, id, inst) ==> IssuedTo(s', id, inst))
            && (forall id :: id in s.answered ==> id in s'.answered && s'.answered[id] == s.answered[id])
  {
    forall id ensures IssuedTo(s, id, inst) ==> IssuedTo(Apply(check, s, step), id, inst) {
      if id in s.issued {
        IssuedStays(check, s, step, id);
      }
    }
    forall id | id in s.answered
      ensures id in Apply(check, s, step).answered && Apply(check, s, step).answered[id] == s.answered[id]
    {
      assert IdInv(s, id);
      AnsweredByStep(check, s, step, id);
    }
    hide Apply, Inv;
  }

  /** A step that leaves a registered call behind executes it or refuses it. */
  lemma LeftBehind(check: Policy, s: State, step: Step, inst: Instance)
    requires Inv(check, s) && inst.index >= s.Turn(inst.turn).index
    requires inst in Apply(check, s, step).channels && inst.index < Apply(check, s, step).Turn(inst.turn).index
    ensures var s' := Apply(check, s, step);
            && !step.Respond? && s.Turn(inst.turn).index == inst.index
            && (inst in s'.timedOut <==> inst in s.timedOut)
            && if inst in s'.executed then s.Phase(inst.turn) == Cleared(inst) else s.Phase(inst.turn) == Refused(inst)
  {
    assert ChannelInv(s, inst);
    if !step.Respond? {
      assert TurnInv(check, s, step.t);
    }
    hide Inv, IdInv, Distinct, Licensed, TurnedDown, IssuedTo;
  }

  lemma DoneStays(check: Policy, s: State, step: Step, inst: Instance)
    requires Inv(check, s) && DoneInv(check, s, inst)
    ensures DoneInv(check, Apply(check, s, step), inst)
  {
    var s' := Apply(check, s, step);
    AnswersStay(check, s, step, inst);
    if inst in s'.channels && !check(inst.call).Allow? && inst.index < s'.Turn(inst.turn).index {
      if inst.index < s.Turn(inst.turn).index {
        BehindIsRegistered(check, s, step, inst);
        BehindUntouched(check, s, step, inst);
      } else {
        LeftBehind(check, s, step, inst);
        assert TurnInv(check, s, inst.turn);
      }
      hide Apply, Inv, TurnedDown, ApprovedInTime;
      if inst in s'.executed {
        LicensedStays(check, s, s', inst);
      } else {
        TurnedDownStays(check, s, s', inst);
      }
    }
  }

  /** Nothing is registered for a call that its turn has left behind. */
  lemma BehindIsRegistered(check: Policy, s: State, step: Step, inst: Instance)
    requires Inv(check, s) && inst.index < s.Turn(inst.turn).index && inst in Apply(check, s, step).channels
    ensures inst in s.channels
  {
    if !step.Respond? {
      assert TurnInv(check, s, step.t);
    }
    hide Inv, IdInv, Distinct, Licensed, TurnedDown, IssuedTo, ChannelInv;
  }

  lemma {:induction false} RunIsDone(check: Policy, steps: seq<Step>, inst: Instance)
    ensures DoneInv(check, Run(check, steps), inst)
  {
    hide Apply, Inv;
    if steps != [] {
      RunIsDone(check, steps[..|steps| - 1], inst);
      RunKeeps(check, steps[..|steps| - 1]);
      hide DoneInv;
      DoneStays(check, Run(check, steps[..|steps| - 1]), steps[|steps| - 1], inst);
    }
  }

  predicate WasDelivered(s: State, inst: Instance) {
    inst in s.channels && s.channels[inst].Delivered?
  }

  lemma DeliveredStays(check: Policy, s: State, step: Step, inst: Instance)
    requires Inv(check, s) && WasDelivered(s, inst)
    ensures WasDelivered(Apply(check, s, step), inst)
  {
    if !step.Respond? {
      assert TurnInv(check, s, step.t);
    }
    hide Inv, IdInv, Distinct, Licensed, TurnedDown, IssuedTo, ChannelInv;
  }

  lemma {:induction false} DeliveredStaysOn(check: Policy, steps: seq<Step>, j: nat, inst: Instance)
    requires j <= |steps| && WasDelivered(Run(check, steps[..j]), inst)
    ensures WasDelivered(Run(check, steps), inst)
  {
    hide Apply, Inv, WasDelivered, Run;
    if j == |steps| {
      assert steps[..j] == steps;
    } else {
      var n := |steps| - 1;
      assert steps[..n][..j] == steps[..j];
      DeliveredStaysOn(check, steps[..n], j, inst);
      RunKeeps(check, steps[..n]);
      DeliveredStays(check, Run(check, steps[..n]), steps[n], inst);
      RunSnoc(check, steps[..n], steps[n]);
      assert steps[..n] + [steps[n]] == steps;
    }
  }

  /** What the client said in time is delivered, and never times out. */
  lemma SaidIsAnswered(check: Policy, steps: seq<Step>, inst: Instance, i: int, j: int, id: RequestId)
    requires AskedAndAnswered(check, steps, inst, i, j, id)
    ensures var s := Run(check, steps);
            && inst !in s.timedOut && IssuedTo(s, id, inst)
            && id in s.answered && s.answered[id] == steps[j].approved
  {
    hide Apply, Inv, Run;
    AnswerIsFirstResponse(check, steps, i, id, inst);
    DeliveredAtOnce(check, steps, inst, i, j, id);
    DeliveredStaysOn(check, steps, j + 1, inst);
    RunKeeps(check, steps);
    DeliveredInTime(check, Run(check, steps), inst);
  }

  lemma DeliveredInTime(check: Policy, s: State, inst: Instance)
    requires Inv(check, s) && WasDelivered(s, inst)
    ensures inst !in s.timedOut
  {
    assert ChannelInv(s, inst);
  }

  lemma DeliveredAtOnce(check: Policy, steps: seq<Step>, inst: Instance, i: int, j: int, id: RequestId)
    requires AskedAndAnswered(check, steps, inst, i, j, id)
    ensures WasDelivered(Run(check, steps[..j + 1]), inst)
  {
    hide Apply, Inv;
    assert steps[..j][..i] == steps[..i];
    AnswerIsFirstResponse(check, steps[..j], i, id, inst);
    NotBeforeFirst(steps, i, j, id);
    RunKeeps(check, steps[..j]);
    assert steps[..j + 1][..j] == steps[..j] && steps[..j + 1][j] == steps[j];
    DeliversTo(check, Run(check, steps[..j]), steps[j], inst, id);
  }

  lemma DeliversTo(check: Policy, s: State, step: Step, inst: Instance, id: RequestId)
    requires Inv(check, s) && RespondsTo(step, id) && IssuedTo(s, id, inst) && id !in s.answered
    requires s.ChannelOf(inst) == Some(Empty)
    ensures WasDelivered(Apply(check, s, step), inst)
  {
    assert IdInv(s, id);
  }

  /** In every interleaving: a call that had to be asked about, and that its turn has left behind, was
      executed if and only if the client said `true` to its own request before the timeout. */
  lemma AskedCallRunsIff(check: Policy, steps: seq<Step>, inst: Instance, i: int, id: RequestId)
    requires RegisteredBy(check, steps, i, id, inst) && inst.index < Run(check, steps).Turn(inst.turn).index
    ensures inst in Run(check, steps).executed <==> ClientSaid(check, steps, inst, true)
  {
    var s := Run(check, steps);
    AnswerIsFirstResponse(check, steps, i, id, inst);
    RunKeeps(check, steps);
    RunKeeps(check, steps[..i]);
    assert IdInv(s, id);
    assert TurnInv(check, Run(check, steps[..i]), inst.turn);
    RunIsDone(check, steps, inst);
    assert Distinct(s);
    hide Run, RegisteredBy, IdInv;
    if inst in s.executed {
      var id' :| IssuedTo(s, id', inst) && id' in s.answered && s.answered[id'];
      hide ClientSaid;
      AnswerWasSaid(check, steps, inst, id');
    } else if ClientSaid(check, steps, inst, true) {
      var k, j, id' :| AskedAndAnswered(check, steps, inst, k, j, id') && steps[j].approved;
      SaidIsAnswered(check, steps, inst, k, j, id');
    }
  }

  lemma RunSnoc(check: Policy, steps: seq<Step>, step: Step)
    ensures Run(check, steps + [step]) == Apply(check, Run(check, steps), step)
  {
    hide Apply;
    assert (steps + [step])[..|steps|] == steps;
  }

  lemma AskedFor(check: Policy, steps: seq<Step>, t: nat, inst: Instance, id: RequestId) returns (prompted: seq<Step>)
    requires Run(check, steps).Phase(t) == Unapproved(inst) && id !in Run(check, steps).issued
    ensures prompted == steps + [Register(t, id)] + [Prompt(t)]
    ensures var s, s' := Run(check, steps), Run(check, prompted);
            && s'.Turn(t) == TurnState(s.Turn(t).index, Waiting(inst, id)) && s'.executed == s.executed
            && id in s'.pending && s'.pending[id] == inst && s'.ChannelOf(inst) == Some(Empty)
  {
    prompted := steps + [Register(t, id)] + [Prompt(t)];
    RunSnoc(check, steps, Register(t, id));
    RunSnoc(check, steps + [Register(t, id)], Prompt(t));
    AsksFor(check, Run(check, steps), t, inst, id);
    hide Run, Apply;
  }

  lemma AsksFor(check: Policy, s: State, t: nat, inst: Instance, id: RequestId)
    requires s.Phase(t) == Unapproved(inst) && id !in s.issued
    ensures var s' := Apply(check, Apply(check, s, Register(t, id)), Prompt(t));
            && s'.Turn(t) == TurnState(s.Turn(t).index, Waiting(inst, id)) && s'.executed == s.executed
            && id in s'.pending && s'.pending[id] == inst && s'.ChannelOf(inst) == Some(Empty)
  {}

  lemma BeginsCall(check: Policy, s: State, t: nat, call: ToolCall)
    requires s.Phase(t).Between?
    ensures var s' := Apply(check, s, Begin(t, call));
            var inst := Instance(t, s.Turn(t).index, call);
            && s'.Turn(t) == TurnState(s.Turn(t).index, if check(call).Allow? then Cleared(inst) else Unapproved(inst))
            && s'.executed == s.executed && s'.issued == s.issued
  {}

  lemma HearsAnswer(check: Policy, s: State, t: nat, inst: Instance, id: RequestId, approved: bool)
    requires s.Phase(t) == Waiting(inst, id) && id in s.pending && s.pending[id] == inst
    requires s.ChannelOf(inst) == Some(Empty)
    ensures var s' := Apply(check, Apply(check, s, Respond(id, approved)), Receive(t));
            && s'.Turn(t) == TurnState(s.Turn(t).index, if approved then Cleared(inst) else Refused(inst))
            && s'.executed == s.executed
  {}

  lemma GivesUp(check: Policy, s: State, t: nat, inst: Instance, id: RequestId)
    requires s.Phase(t) == Waiting(inst, id) && s.ChannelOf(inst) == Some(Empty)
    ensures var s' := Apply(check, s, Timeout(t));
            s'.Turn(t) == TurnState(s.Turn(t).index, Refused(inst)) && s'.executed == s.executed
  {}

  lemma FinishesCall(check: Policy, s: State, t: nat, inst: Instance, runs: bool)
    requires s.Phase(t) == if runs then Cleared(inst) else Refused(inst)
    ensures var s' := Apply(check, s, if runs then Execute(t) else Refuse(t));
            && s'.Turn(t) == TurnState(s.Turn(t).index + 1, Between)
            && s'.executed == s.executed + (if runs then [inst] else [])
  {}

  /** The turn has gone on to its next call, having executed this one or not. */
  ghost predicate WentOn(s: State, s': State, t: nat, call: ToolCall, runs: bool) {
    && s'.Turn(t) == TurnState(s.Turn(t).index + 1, Between)
    && s'.executed == s.executed + (if runs then [Instance(t, s.Turn(t).index, call)] else [])
  }

  /** No call gets stuck: one that is allowed runs at once. */
  lemma AllowedCallRuns(check: Policy, steps: seq<Step>, t: nat, call: ToolCall)
    requires Run(check, steps).Phase(t).Between? && check(call).Allow?
    ensures WentOn(Run(check, steps), Run(check, steps + [Begin(t, call)] + [Execute(t)]), t, call, true)
  {
    var s := Run(check, steps);
    RunSnoc(check, steps, Begin(t, call));
    RunSnoc(check, steps + [Begin(t, call)], Execute(t));
    BeginsCall(check, s, t, call);
    FinishesCall(check, Apply(check, s, Begin(t, call)), t, Instance(t, s.Turn(t).index, call), true);
    hide Run, Apply;
  }

  /** One that is not allowed is registered under any fresh id and prompted for; it runs if the client then
      says `true`, and is refused if it says `false`. */
  lemma AnsweredCallGoesOn(check: Policy, steps: seq<Step>, t: nat, call: ToolCall, id: RequestId, approved: bool)
    requires var s := Run(check, steps); s.Phase(t).Between? && !check(call).Allow? && id !in s.issued
    ensures WentOn(Run(check, steps),
                   Run(check, steps + [Begin(t, call)] + [Register(t, id)] + [Prompt(t)] + [Respond(id, approved)]
                              + [Receive(t)] + [if approved then Execute(t) else Refuse(t)]),
                   t, call, approved)
  {
    hide Run, Apply;
    var inst := Instance(t, Run(check, steps).Turn(t).index, call);
    RunSnoc(check, steps, Begin(t, call));
    BeginsCall(check, Run(check, steps), t, call);
    var prompted := AskedFor(check, steps + [Begin(t, call)], t, inst, id);
    HearsAnswer(check, Run(check, prompted), t, inst, id, approved);
    RunSnoc(check, prompted, Respond(id, approved));
    RunSnoc(check, prompted + [Respond(id, approved)], Receive(t));
    var heard := prompted + [Respond(id, approved)] + [Receive(t)];
    FinishesCall(check, Run(check, heard), t, inst, approved);
    RunSnoc(check, heard, if approved then Execute(t) else Refuse(t));
  }

  /** ... and if the client says nothing. */
  lemma UnansweredCallIsRefused(check: Policy, steps: seq<Step>, t: nat, call: ToolCall, id: RequestId)
    requires var s := Run(check, steps); s.Phase(t).Between? && !check(call).Allow? && id !in s.issued
    ensures WentOn(Run(check, steps),
                   Run(check, steps + [Begin(t, call)] + [Register(t, id)] + [Prompt(t)] + [Timeout(t)] + [Refuse(t)]),
                   t, call, false)
  {
    hide Run, Apply;
    var inst := Instance(t, Run(check, steps).Turn(t).index, call);
    RunSnoc(check, steps, Begin(t, call));
    BeginsCall(check, Run(check, steps), t, call);
    var prompted := AskedFor(check, steps + [Begin(t, call)], t, inst, id);
    GivesUp(check, Run(check, prompted), t, inst, id);
    RunSnoc(check, prompted, Timeout(t));
    FinishesCall(check, Run(check, prompted + [Timeout(t)]), t, inst, false);
    RunSnoc(check, prompted + [Timeout(t)], Refuse(t));
  }

  /** What the client responds to a waiting turn is what the turn goes on with. */
  lemma TurnHearsTheClient(check: Policy, steps: seq<Step>, t: nat, approved: bool)
    ensures var s := Run(check, steps);
            s.Phase(t).Waiting? && s.ChannelOf(s.Phase(t).inst) == Some(Empty) ==>
              var inst, id := s.Phase(t).inst, s.Phase(t).id;
              Apply(check, Apply(check, s, Respond(id, approved)), Receive(t)).Phase(t) ==
              if approved then Cleared(inst) else Refused(inst)
  {
    RunKeeps(check, steps);
    var s := Run(check, steps);
    assert TurnInv(check, s, t);
    if s.Phase(t).Waiting? {
      assert IdInv(s, s.Phase(t).id);
    }
  }

  /** A response to an unknown or already answered id changes nothing; one to a timed-out request
      only takes its entry out of the map. Neither moves a turn or touches a channel. */
  lemma LateResponsesAreInert(check: Policy, steps: seq<Step>, id: RequestId, approved: bool)
    ensures var s := Run(check, steps);
            var s' := Apply(check, s, Respond(id, approved));
            && (id !in s.issued || id in s.answered ==> s' == s)
            && (id in s.pending && s.pending[id] in s.timedOut ==>
                  s' == s.(pending := s.pending - {id}, answered := s.answered[id := approved]))
  {
    RunKeeps(check, steps);
    var s := Run(check, steps);
    assert IdInv(s, id);
    if id in s.pending {
      assert ChannelInv(s, s.pending[id]);
    }
  }

  /** An id is consumed at most once: its answer is never overwritten. */
  lemma AnsweredOnce(check: Policy, steps: seq<Step>, step: Step, id: RequestId)
    ensures var s := Run(check, steps);
            var s' := Apply(check, s, step);
            id in s.answered ==> id in s'.answered && s'.answered[id] == s.answered[id] && id !in s'.pending
  {
    hide Run, TurnInv, ChannelInv, Distinct;
    RunKeeps(check, steps);
    var s := Run(check, steps);
    assert IdInv(s, id);
    hide Inv;
  }

  ghost predicate Asks(s: State, t: nat, id: RequestId) {
    && (s.Phase(t).Registered? || s.Phase(t).Waiting?)
    && s.Phase(t).id == id
    && s.ChannelOf(s.Phase(t).inst) == Some(Empty)
  }

  /** The map holds exactly the ids of turns still without an answer and of timed-out requests not
      yet answered. */
  lemma MapHoldsExactlyTheOpenRequests(check: Policy, steps: seq<Step>, id: RequestId)
    ensures var s := Run(check, steps);
            id in s.pending <==>
              || (exists t :: Asks(s, t, id))
              || (id in s.issued && s.issued[id] in s.timedOut && id !in s.answered)
  {
    RunKeeps(check, steps);
    var s := Run(check, steps);
    assert IdInv(s, id);
    if id in s.pending && s.pending[id] !in s.timedOut {
      assert Asks(s, s.pending[id].turn, id);
    }
    if t :| Asks(s, t, id) {
      assert TurnInv(check, s, t);
    }
  }

  /** When a prompt is sent its id already leads to the sender of the very call that asks, unless it
      has been answered; and no two asking turns share an id. */
  lemma PromptsLeadHome(check: Policy, steps: seq<Step>, t: nat, u: nat)
    ensures var s := Run(check, steps);
            (s.Phase(t).Registered? || s.Phase(t).Waiting?) ==>
              var inst, id := s.Phase(t).inst, s.Phase(t).id;
              && inst.turn == t
              && (if id in s.answered then s.ChannelOf(inst) == Some(Delivered(s.answered[id]))
                  else id in s.pending && s.pending[id] == inst)
              && ((s.Phase(u).Registered? || s.Phase(u).Waiting?) && u != t ==> s.Phase(u).id != id)
  {
    RunKeeps(check, steps);
    var s := Run(check, steps);
    assert TurnInv(check, s, t);
    assert TurnInv(check, s, u);
    if s.Phase(t).Registered? || s.Phase(t).Waiting? {
      assert IdInv(s, s.Phase(t).id);
    }
  }

  // ---------------------------------------------------------------- the shared map in place

  /** The session's state as the server holds it: turns, the map behind its lock, the channels. */
  class Session {
    const check: Policy
    var turns: map<nat, TurnState>
    var pending: map<RequestId, Instance>
    var channels: map<Instance, Channel>
    ghost var issued: map<RequestId, Instance>
    ghost var answered: map<RequestId, bool>
    ghost var timedOut: set<Instance>
    ghost var executed: seq<Instance>

    ghost function View(): State
      reads this
    {
      State(turns, pending, channels, issued, answered, timedOut, executed)
    }

    constructor (check: Policy)
      ensures View() == Init() && this.check == check
    {
      this.check := check;
      turns, pending, channels := map[], map[], map[];
      issued, answered, timedOut, executed := map[], map[], {}, [];
    }

    /** Register the one-shot of a request under a fresh id. */
    method RegisterRequest(t: nat, inst: Instance, id: RequestId)
      requires View().Phase(t) == Unapproved(inst) && id !in issued
      modifies this
      ensures View() == Apply(check, old(View()), Register(t, id))
    {
      ghost var before := View();
      pending := pending[id := inst];
      channels := channels[inst := Empty];
      issued := issued[id := inst];
      turns := turns[t := TurnState(turns[t].index, Registered(inst, id))];
      assert View() == Apply(check, before, Register(t, id));
    }

    /** The inbound pump's handling of an approval response. */
    method HandleResponse(id: RequestId, approved: bool)
      modifies this`pending, this`channels, this`answered
      ensures View() == Apply(check, old(View()), Respond(id, approved))
      ensures pending == old(pending) - {id}
      ensures channels == if id in old(pending) && old(View()).ChannelOf(old(pending)[id]) == Some(Empty)
                          then old(channels)[old(pending)[id] := Delivered(approved)]
                          else old(channels)
    {
      if id in pending {
        var inst := pending[id];
        pending := pending - {id};
        if inst in channels && channels[inst] == Empty {
          channels := channels[inst := Delivered(approved)];
        }
        answered := answered[id := approved];
      }
    }

    /** The wait of a turn ends: with the delivered value, or, if there is none, by timeout. */
    method Conclude(t: nat) returns (approved: bool)
      requires View().Phase(t).Waiting? && View().Phase(t).inst in channels && !channels[View().Phase(t).inst].Closed?
      modifies this
      ensures var before := old(View());
              var channel := before.channels[before.Phase(t).inst];
              && approved == (channel == Delivered(true))
              && View() == Apply(check, before, if channel.Empty? then Timeout(t) else Receive(t))
    {
      var inst := turns[t].phase.inst;
      match channels[inst] {
        case Delivered(v) =>
          approved := v;
        case Empty =>
          approved := false;
          channels := channels[inst := Closed];
          timedOut := timedOut + {inst};
      }
      turns := turns[t := TurnState(turns[t].index, if approved then Cleared(inst) else Refused(inst))];
    }
  }
}
