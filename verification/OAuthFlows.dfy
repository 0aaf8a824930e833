/** In-flight OAuth flows: a shared map from nonce to flow, with a ten-minute lifetime and a sweeper
    (crates/edgeclaw-server/src/oauth.rs; PKCE, RFC 7636). */
module OAuthFlows {
  import opened Prelude

  const TTL: nat := 600

  datatype Flow = Flow(user: string, skill: string, provider: string, verifier: string, scopes: string,
                       expiresAt: nat, createdAt: nat)

  type Flows = map<string, Flow>

  datatype FlowError = FlowNotFound | FlowExpired

  datatype Start = Start(user: string, skill: string, provider: string, verifier: string, scopes: string)

  /** Things that happen to the map, each at its own clock reading. Nonces are drawn at random; an
      `Init` whose nonce was drawn before does not happen. */
  datatype Event =
    | Init(at: nat, nonce: string, start: Start)
    | Complete(at: nat, nonce: string)
    | Sweep(at: nat)

  function NewFlow(at: nat, s: Start): Flow {
    Flow(s.user, s.skill, s.provider, s.verifier, s.scopes, at + TTL, at)
  }

  function Retain(flows: Flows, now: nat): Flows {
    map nonce <- flows.Keys | flows[nonce].expiresAt > now :: flows[nonce]
  }

  function CompleteResult(flows: Flows, at: nat, nonce: string): Result<Flow, FlowError> {
    if nonce !in flows then Err(FlowNotFound)
    else if at > flows[nonce].expiresAt then Err(FlowExpired)
    else Ok(flows[nonce])
  }

  class FlowTable {
    var flows: Flows

    constructor ()
      ensures flows == map[]
    {
      flows := map[];
    }

    method InitFlow(at: nat, nonce: string, start: Start)
      modifies this
      ensures flows == old(flows)[nonce := NewFlow(at, start)]
      ensures var flow := flows[nonce];
              && flow.user == start.user && flow.skill == start.skill && flow.provider == start.provider
              && flow.verifier == start.verifier && flow.scopes == start.scopes
              && flow.createdAt == at && flow.expiresAt == at + 600
    {
      flows := flows[nonce := NewFlow(at, start)];
    }

    /** The entry goes whether or not the flow has expired. */
    method CompleteFlow(at: nat, nonce: string) returns (r: Result<Flow, FlowError>)
      modifies this
      ensures r == CompleteResult(old(flows), at, nonce)
      ensures r == if nonce !in old(flows) then Err(FlowNotFound)
                   else if at > old(flows)[nonce].expiresAt then Err(FlowExpired)
                   else Ok(old(flows)[nonce])
      ensures flows == old(flows) - {nonce}
    {
      if nonce !in flows {
        return Err(FlowNotFound);
      }
      var flow := flows[nonce];
      flows := flows - {nonce};
      if at > flow.expiresAt {
        return Err(FlowExpired);
      }
      r := Ok(flow);
    }

    /** One round of the sweeper. */
    method Cleanup(now: nat)
      modifies this
      ensures flows == Retain(old(flows), now)
    {
      var todo := flows.Keys;
      while todo != {}
        invariant todo <= flows.Keys <= old(flows).Keys
        invariant forall nonce <- flows.Keys :: flows[nonce] == old(flows)[nonce]
        invariant forall nonce <- old(flows).Keys ::
                    nonce in flows <==> nonce in todo || old(flows)[nonce].expiresAt > now
        decreases todo
      {
        var nonce :| nonce in todo;
        todo := todo - {nonce};
        if flows[nonce].expiresAt <= now {
          flows := flows - {nonce};
        }
      }
    }
  }

  // ---------------------------------------------------------------- runs

  /** The map, the nonces drawn with what they were drawn for, and what was redeemed, in order. */
  datatype State = State(flows: Flows, started: map<string, Flow>, redeemed: seq<(string, nat)>)

  function Apply(s: State, e: Event): State {
    match e
    case Init(at, nonce, start) =>
      if nonce in s.started then s
      else s.(flows := s.flows[nonce := NewFlow(at, start)], started := s.started[nonce := NewFlow(at, start)])
    case Complete(at, nonce) =>
      s.(flows := s.flows - {nonce},
         redeemed := if CompleteResult(s.flows, at, nonce).Ok? then s.redeemed + [(nonce, at)] else s.redeemed)
    case Sweep(at) => s.(flows := Retain(s.flows, at))
  }

  function Run(events: seq<Event>): State {
    if events == [] then State(map[], map[], [])
    else Apply(Run(events[..|events| - 1]), events[|events| - 1])
  }

  ghost predicate Monotone(events: seq<Event>) {
    forall i, j :: 0 <= i < j < |events| ==> events[i].at <= events[j].at
  }

  ghost predicate Redeemed(s: State, nonce: string) {
    exists i :: 0 <= i < |s.redeemed| && s.redeemed[i].0 == nonce
  }

  ghost predicate RedemptionOk(s: State, i: int)
    requires 0 <= i < |s.redeemed|
  {
    var (nonce, at) := s.redeemed[i];
    nonce in s.started && s.started[nonce].createdAt <= at <= s.started[nonce].createdAt + 600
  }

  ghost predicate Inv(s: State, now: nat) {
    && (forall nonce <- s.flows.Keys :: nonce in s.started && s.flows[nonce] == s.started[nonce])
    && (forall nonce <- s.started.Keys ::
          s.started[nonce].expiresAt == s.started[nonce].createdAt + TTL && s.started[nonce].createdAt <= now)
    && (forall i :: 0 <= i < |s.redeemed| ==> RedemptionOk(s, i) && s.redeemed[i].0 !in s.flows)
    && (forall i, j :: 0 <= i < j < |s.redeemed| ==> s.redeemed[i].0 != s.redeemed[j].0)
  }

  lemma StepKeeps(s: State, now: nat, e: Event)
    requires Inv(s, now) && now <= e.at
    ensures Inv(Apply(s, e), e.at)
  {
    var s' := Apply(s, e);
    forall i | 0 <= i < |s'.redeemed| ensures RedemptionOk(s', i) && s'.redeemed[i].0 !in s'.flows {
      if i < |s.redeemed| {
        assert RedemptionOk(s, i);
      }
    }
  }

  function Now(events: seq<Event>): nat {
    if events == [] then 0 else events[|events| - 1].at
  }

  lemma {:induction false} RunKeeps(events: seq<Event>)
    requires Monotone(events)
    ensures Inv(Run(events), Now(events))
  {
    if events == [] {
    } else {
      var n := |events| - 1;
      RunKeeps(events[..n]);
      StepKeeps(Run(events[..n]), Now(events[..n]), events[n]);
    }
  }

  /** Event i is the first to begin a flow with this nonce. */
  predicate Begins(events: seq<Event>, i: int, nonce: string) {
    && 0 <= i < |events| && events[i].Init? && events[i].nonce == nonce
    && forall j :: 0 <= j < i ==> !(events[j].Init? && events[j].nonce == nonce)
  }

  /** `flow` is what event i asked for, for the ten minutes from then on. */
  predicate FlowOf(e: Event, flow: Flow) {
    && e.Init?
    && flow.user == e.start.user && flow.skill == e.start.skill && flow.provider == e.start.provider
    && flow.verifier == e.start.verifier && flow.scopes == e.start.scopes
    && flow.createdAt == e.at && flow.expiresAt == e.at + 600
  }

  /** Event i begins the flow, and none since completes it or sweeps it up. */
  predicate LeftOpen(events: seq<Event>, i: int, nonce: string) {
    && Begins(events, i, nonce)
    && forall j :: i < j < |events| ==> !Ends(events[j], nonce, events[i].at + 600)
  }

  predicate Ends(e: Event, nonce: string, expiry: nat) {
    match e
    case Init(_, _, _) => false
    case Complete(_, n) => n == nonce
    case Sweep(at) => expiry <= at
  }

  lemma {:induction false} StartedBy(events: seq<Event>, nonce: string)
    ensures var s := Run(events);
            && (nonce in s.started <==> exists i :: Begins(events, i, nonce))
            && (forall i :: Begins(events, i, nonce) ==> nonce in s.started && FlowOf(events[i], s.started[nonce]))
  {
    if events != [] {
      var n := |events| - 1;
      StartedBy(events[..n], nonce);
      assert forall i :: i < n ==> (Begins(events, i, nonce) <==> Begins(events[..n], i, nonce));
      hide FlowOf;
      BeginsNow(events, nonce);
      StartedStep(Run(events[..n]), events[n], nonce);
      hide Apply;
    }
  }

  lemma BeginsNow(events: seq<Event>, nonce: string)
    requires events != []
    ensures var n := |events| - 1;
            Begins(events, n, nonce) <==>
            events[n].Init? && events[n].nonce == nonce && !exists i :: Begins(events[..n], i, nonce)
  {
    var n := |events| - 1;
    forall k | 0 <= k < n && events[k].Init? && events[k].nonce == nonce
      ensures exists i :: Begins(events[..n], i, nonce)
    {
      var i := FirstInit(events[..n], k, nonce);
    }
  }

  lemma {:induction false} FirstInit(events: seq<Event>, k: int, nonce: string) returns (i: int)
    requires 0 <= k < |events| && events[k].Init? && events[k].nonce == nonce
    ensures Begins(events, i, nonce)
    decreases k
  {
    if m :| 0 <= m < k && events[m].Init? && events[m].nonce == nonce {
      i := FirstInit(events, m, nonce);
    } else {
      i := k;
    }
  }

  lemma StartedStep(s: State, e: Event, nonce: string)
    ensures var s' := Apply(s, e);
            if e.Init? && e.nonce == nonce && nonce !in s.started then
              nonce in s'.started && FlowOf(e, s'.started[nonce])
            else
              (nonce in s'.started <==> nonce in s.started)
              && (nonce in s.started ==> s'.started[nonce] == s.started[nonce])
  {}

  lemma FlowStep(s: State, e: Event, nonce: string)
    requires nonce in s.flows ==> nonce in s.started && s.flows[nonce] == s.started[nonce]
    ensures var s' := Apply(s, e);
            if e.Init? && e.nonce == nonce && nonce !in s.started then nonce in s'.flows
            else nonce in s'.flows <==> nonce in s.flows && !Ends(e, nonce, s.started[nonce].expiresAt)
  {}

  /** A flow is in the map if and only if it was begun, and since then neither completed nor swept up. */
  lemma {:induction false} FlowThereIff(events: seq<Event>, nonce: string)
    requires Monotone(events)
    ensures nonce in Run(events).flows <==> exists i :: LeftOpen(events, i, nonce)
  {
    if events != [] {
      var n := |events| - 1;
      FlowThereIff(events[..n], nonce);
      StartedBy(events[..n], nonce);
      RunKeeps(events[..n]);
      BeginsNow(events, nonce);
      FlowStep(Run(events[..n]), events[n], nonce);
      assert Run(events) == Apply(Run(events[..n]), events[n]);
      hide Apply, Ends, Run, Monotone;
      StillOpen(events, nonce);
      assert LeftOpen(events, n, nonce) <==> Begins(events, n, nonce);
    }
  }

  lemma StillOpen(events: seq<Event>, nonce: string)
    requires events != []
    ensures var n := |events| - 1;
            forall i :: i < n ==>
              (LeftOpen(events, i, nonce) <==>
                 LeftOpen(events[..n], i, nonce) && !Ends(events[n], nonce, events[i].at + 600))
  {
    hide Ends;
    var n := |events| - 1;
    assert forall i :: i < n ==> (Begins(events, i, nonce) <==> Begins(events[..n], i, nonce));
  }

  /** A completion succeeds if and only if its flow was begun, has since neither been completed nor swept
      up, and is not older than 600 s; and then yields what was asked for when the flow was begun. */
  lemma RedeemsIff(events: seq<Event>, at: nat, nonce: string)
    requires Monotone(events) && Now(events) <= at
    ensures var r := CompleteResult(Run(events).flows, at, nonce);
            && (r.Ok? <==> exists i :: LeftOpen(events, i, nonce) && at <= events[i].at + 600)
            && (forall i :: LeftOpen(events, i, nonce) && r.Ok? ==> FlowOf(events[i], r.value))
  {
    FlowThereIff(events, nonce);
    StartedBy(events, nonce);
    RunKeeps(events);
    hide Run, Ends;
  }

  /** Over every run a nonce is redeemed at most once, no later than 600 s after its flow began, and
      what is redeemed is the flow that was begun with it. */
  lemma RedeemedOnceInTime(events: seq<Event>, at: nat, nonce: string)
    requires Monotone(events) && Now(events) <= at
    ensures var s := Run(events);
            && (forall i, j :: 0 <= i < j < |s.redeemed| ==> s.redeemed[i].0 != s.redeemed[j].0)
            && (forall i :: 0 <= i < |s.redeemed| ==> RedemptionOk(s, i))
            && (var r := CompleteResult(s.flows, at, nonce);
                r.Ok? ==> !Redeemed(s, nonce) && nonce in s.started && r.value == s.started[nonce])
  {
    RunKeeps(events);
  }

  // ---------------------------------------------------------------- the sweeper is unobservable

  function Unswept(events: seq<Event>): seq<Event> {
    if events == [] then []
    else
      var n := |events| - 1;
      if events[n].Sweep? then Unswept(events[..n]) else Unswept(events[..n]) + [events[n]]
  }

  /** Time of the last sweep; zero, before any flow can expire, if there was none. */
  function LastSweep(events: seq<Event>): nat {
    if events == [] then 0
    else
      var n := |events| - 1;
      if events[n].Sweep? then events[n].at else LastSweep(events[..n])
  }

  /** The swept map is the unswept one without the flows expired at the last sweep. */
  ghost predicate SweptOnly(s: State, u: State, last: nat) {
    && s.started == u.started
    && (forall nonce :: nonce in s.flows <==> nonce in u.flows && u.flows[nonce].expiresAt > last)
    && (forall nonce <- s.flows.Keys :: s.flows[nonce] == u.flows[nonce])
  }

  lemma StepSweepsOnlyExpired(s: State, u: State, last: nat, e: Event)
    requires SweptOnly(s, u, last) && last <= e.at
    ensures if e.Sweep? then SweptOnly(Apply(s, e), u, e.at) else SweptOnly(Apply(s, e), Apply(u, e), last)
  {}

  lemma UnsweptStep(events: seq<Event>)
    requires events != []
    ensures var n := |events| - 1;
            var u := Run(Unswept(events[..n]));
            Run(Unswept(events)) == if events[n].Sweep? then u else Apply(u, events[n])
  {
    var n := |events| - 1;
    var before := Unswept(events[..n]);
    assert (before + [events[n]])[..|before|] == before;
  }

  lemma {:induction false} SweepsOnlyRemoveExpired(events: seq<Event>)
    requires Monotone(events)
    ensures SweptOnly(Run(events), Run(Unswept(events)), LastSweep(events)) && LastSweep(events) <= Now(events)
  {
    hide Apply, SweptOnly;
    if events == [] {
      EmptyRunSwept();
    } else {
      var n := |events| - 1;
      SweepsOnlyRemoveExpired(events[..n]);
      UnsweptStep(events);
      StepSweepsOnlyExpired(Run(events[..n]), Run(Unswept(events[..n])), LastSweep(events[..n]), events[n]);
    }
  }

  lemma EmptyRunSwept()
    ensures SweptOnly(Run([]), Run([]), 0)
  {}

  /** Whether a completion succeeds does not depend on when cleanups ran, except at the very second
      of expiry, where it fails exactly if a cleanup ran in that second; afterwards it always fails. */
  lemma SweeperUnobservable(events: seq<Event>, at: nat, nonce: string)
    requires Monotone(events) && Now(events) <= at
    ensures var swept := CompleteResult(Run(events).flows, at, nonce);
            var unswept := CompleteResult(Run(Unswept(events)).flows, at, nonce);
            && (swept.Ok? <==> unswept.Ok? && !(unswept.value.expiresAt == at == LastSweep(events)))
            && (swept.Ok? ==> swept == unswept)
            && (nonce in Run(events).started && at > Run(events).started[nonce].expiresAt
                ==> swept.Err? && unswept.Err?)
  {
    SweepsOnlyRemoveExpired(events);
    RunKeeps(events);
    UnsweptMonotone(events);
    RunKeeps(Unswept(events));
  }

  lemma {:induction false} UnsweptMonotone(events: seq<Event>)
    requires Monotone(events)
    ensures Monotone(Unswept(events)) && Now(Unswept(events)) <= Now(events)
    ensures forall e <- Unswept(events) :: e.at <= Now(events)
  {
    if events == [] {
    } else {
      UnsweptMonotone(events[..|events| - 1]);
    }
  }

  /** At the second of expiry the sweeper does decide: the same completion succeeds without the
      sweep and fails after it. */
  lemma DeadlineIsARace(at: nat, nonce: string, start: Start)
    ensures var begun := [Init(at, nonce, start)];
            && CompleteResult(Run(begun).flows, at + 600, nonce).Ok?
            && CompleteResult(Run(begun + [Sweep(at + 600)]).flows, at + 600, nonce).Err?
  {
    var begun := [Init(at, nonce, start)];
    assert begun[..0] == [];
    assert (begun + [Sweep(at + 600)])[..1] == begun;
  }
}
