/** Running the tool calls of one response: `execute_tools` and the executor contract
    (crates/agent-core/src/agent.rs, crates/edgeclaw-server/src/builtin_executor.rs). */
module ToolExecution {
  import opened Messages

  /** What an executor gives back; the id of the result is always set from the call. */
  datatype ToolOutcome = Ran(content: string, isError: bool) | Raised(error: string)

  /** An executor whose whole state is the log of the calls it has executed.
      `next` chooses which of the calls still running in a concurrent group finishes next. */
  datatype Tools = Tools(
    run: (seq<ToolCall>, ToolCall) -> ToolOutcome,
    concurrentSafe: ToolCall -> bool,
    next: (seq<ToolCall>, nat) -> nat)

  function ResultFor(call: ToolCall, outcome: ToolOutcome): (r: ToolResult)
    ensures r.toolUseId == call.id
  {
    match outcome
    case Ran(content, isError) => ToolResult(call.id, content, isError)
    case Raised(e) => ErrorFor(call.id, e)
  }

  function Select(calls: seq<ToolCall>, keep: ToolCall -> bool): seq<ToolCall> {
    if calls == [] then []
    else if keep(calls[0]) then [calls[0]] + Select(calls[1..], keep)
    else Select(calls[1..], keep)
  }

  function SafeCalls(tools: Tools, calls: seq<ToolCall>): seq<ToolCall> {
    Select(calls, tools.concurrentSafe)
  }

  function SerialCalls(tools: Tools, calls: seq<ToolCall>): seq<ToolCall> {
    Select(calls, (c: ToolCall) => !tools.concurrentSafe(c))
  }

  /** The order in which results are reported: the concurrency-safe calls, then the rest. */
  function Partitioned(tools: Tools, calls: seq<ToolCall>): seq<ToolCall> {
    SafeCalls(tools, calls) + SerialCalls(tools, calls)
  }

  /** One call after the other, starting from `log`. */
  function SerialResults(tools: Tools, log: seq<ToolCall>, calls: seq<ToolCall>): (rs: seq<ToolResult>)
    ensures |rs| == |calls|
  {
    seq(|calls|, i requires 0 <= i < |calls| => ResultFor(calls[i], tools.run(log + calls[..i], calls[i])))
  }

  datatype Group = Group(log: seq<ToolCall>, slots: map<nat, ToolResult>)

  predicate Within(indices: seq<nat>, n: nat) {
    forall k :: 0 <= k < |indices| ==> indices[k] < n
  }

  function Without(todo: seq<nat>, k: nat): (rest: seq<nat>)
    requires k < |todo|
    ensures |rest| == |todo| - 1
    ensures forall j :: 0 <= j < |rest| ==> rest[j] == todo[if j < k then j else j + 1]
  {
    todo[..k] + todo[k + 1..]
  }

  /** Call i finishes; its result lands in its own slot. */
  function Finished(tools: Tools, calls: seq<ToolCall>, i: nat, g: Group): Group
    requires i < |calls|
  {
    Group(g.log + [calls[i]], g.slots[i := ResultFor(calls[i], tools.run(g.log, calls[i]))])
  }

  /** The calls `todo` of a concurrent group finish in the order `next` dictates; each result
      lands in the slot of its own call. */
  function RunGroup(tools: Tools, calls: seq<ToolCall>, todo: seq<nat>, g: Group): Group
    requires Within(todo, |calls|)
    decreases |todo|
  {
    if todo == [] then g
    else
      var k := tools.next(g.log, |todo|) % |todo|;
      RunGroup(tools, calls, Without(todo, k), Finished(tools, calls, todo[k], g))
  }

  function Indices(n: nat): seq<nat> {
    seq(n, i => i)
  }

  function At(calls: seq<ToolCall>, todo: seq<nat>): seq<ToolCall>
    requires Within(todo, |calls|)
  {
    seq(|todo|, k requires 0 <= k < |todo| => calls[todo[k]])
  }

  /** Every unfinished call runs exactly once. */
  lemma {:induction false} RunGroupOnce(tools: Tools, calls: seq<ToolCall>, todo: seq<nat>, g: Group)
    requires Within(todo, |calls|)
    ensures var e := RunGroup(tools, calls, todo, g);
            g.log <= e.log && multiset(e.log[|g.log|..]) == multiset(At(calls, todo))
    decreases |todo|
  {
    if todo == [] {
    } else {
      var k := tools.next(g.log, |todo|) % |todo|;
      var g' := Finished(tools, calls, todo[k], g);
      RunGroupOnce(tools, calls, Without(todo, k), g');
      var e := RunGroup(tools, calls, todo, g);
      assert e == RunGroup(tools, calls, Without(todo, k), g');
      hide RunGroup, ResultFor, Without;
      assert e.log[|g.log|..] == [calls[todo[k]]] + e.log[|g'.log|..];
      AtRemove(calls, todo, k);
    }
  }

  lemma AtRemove(calls: seq<ToolCall>, todo: seq<nat>, k: nat)
    requires Within(todo, |calls|) && k < |todo|
    ensures multiset(At(calls, todo)) == multiset([calls[todo[k]]] + At(calls, Without(todo, k)))
  {
    var before, after := At(calls, todo[..k]), At(calls, todo[k + 1..]);
    assert At(calls, todo) == before + [calls[todo[k]]] + after;
    assert At(calls, Without(todo, k)) == before + after;
  }

  predicate OwnSlots(calls: seq<ToolCall>, slots: map<nat, ToolResult>) {
    forall i <- slots.Keys :: i < |calls| && slots[i].toolUseId == calls[i].id
  }

  /** Every result lands in the slot of its own call and answers under that call's id. */
  lemma {:induction false} RunGroupSlots(tools: Tools, calls: seq<ToolCall>, todo: seq<nat>, g: Group)
    requires Within(todo, |calls|) && OwnSlots(calls, g.slots)
    ensures var e := RunGroup(tools, calls, todo, g);
            && OwnSlots(calls, e.slots)
            && g.slots.Keys <= e.slots.Keys
            && forall k :: 0 <= k < |todo| ==> todo[k] in e.slots
    decreases |todo|
  {
    if todo == [] {
    } else {
      var k := tools.next(g.log, |todo|) % |todo|;
      var rest := Without(todo, k);
      var g' := Finished(tools, calls, todo[k], g);
      SlotFilled(tools, calls, todo[k], g);
      RunGroupSlots(tools, calls, rest, g');
      var e := RunGroup(tools, calls, todo, g);
      assert e == RunGroup(tools, calls, rest, g');
      hide RunGroup, Finished, Without, OwnSlots;
      forall j | 0 <= j < |todo| ensures todo[j] in e.slots {
        if j < k {
          assert rest[j] == todo[j];
        } else if j > k {
          assert rest[j - 1] == todo[j];
        }
      }
    }
  }

  lemma SlotFilled(tools: Tools, calls: seq<ToolCall>, i: nat, g: Group)
    requires i < |calls| && OwnSlots(calls, g.slots)
    ensures var g' := Finished(tools, calls, i, g);
            OwnSlots(calls, g'.slots) && i in g'.slots && g.slots.Keys <= g'.slots.Keys
  {}

  /** `r` answers `call` with what running it after `log` gave: its outcome, or the error it raised. */
  predicate Tells(tools: Tools, log: seq<ToolCall>, call: ToolCall, r: ToolResult) {
    match tools.run(log, call)
    case Ran(content, isError) => r == ToolResult(call.id, content, isError)
    case Raised(e) => r == ToolResult(call.id, "Tool execution error: " + e, true)
  }

  lemma ResultForTells(tools: Tools, log: seq<ToolCall>, call: ToolCall)
    ensures Tells(tools, log, call, ResultFor(call, tools.run(log, call)))
  {}

  /** Entry n of the log is this call, and `r` is what it gave there. */
  ghost predicate RanAt(tools: Tools, log: seq<ToolCall>, call: ToolCall, r: ToolResult, n: int) {
    0 <= n < |log| && log[n] == call && Tells(tools, log[..n], call, r)
  }

  ghost predicate SlotsRan(tools: Tools, calls: seq<ToolCall>, g: Group) {
    forall i <- g.slots.Keys :: i < |calls| && exists n :: RanAt(tools, g.log, calls[i], g.slots[i], n)
  }

  lemma FinishedRan(tools: Tools, calls: seq<ToolCall>, i: nat, g: Group)
    requires i < |calls| && SlotsRan(tools, calls, g)
    ensures SlotsRan(tools, calls, Finished(tools, calls, i, g))
  {
    var g' := Finished(tools, calls, i, g);
    ResultForTells(tools, g.log, calls[i]);
    hide Tells, ResultFor;
    assert g'.log[..|g.log|] == g.log;
    assert RanAt(tools, g'.log, calls[i], g'.slots[i], |g.log|);
    forall j <- g'.slots.Keys | j != i
      ensures j < |calls| && exists n :: RanAt(tools, g'.log, calls[j], g'.slots[j], n)
    {
      var n :| RanAt(tools, g.log, calls[j], g.slots[j], n);
      assert g'.log[..n] == g.log[..n];
      assert RanAt(tools, g'.log, calls[j], g'.slots[j], n);
    }
  }

  lemma {:induction false} RunGroupRan(tools: Tools, calls: seq<ToolCall>, todo: seq<nat>, g: Group)
    requires Within(todo, |calls|) && SlotsRan(tools, calls, g)
    ensures SlotsRan(tools, calls, RunGroup(tools, calls, todo, g))
    decreases |todo|
  {
    hide SlotsRan, Finished;
    if todo != [] {
      var k := tools.next(g.log, |todo|) % |todo|;
      FinishedRan(tools, calls, todo[k], g);
      RunGroupRan(tools, calls, Without(todo, k), Finished(tools, calls, todo[k], g));
    }
  }

  predicate Complete(slots: map<nat, ToolResult>, n: nat) {
    forall i: nat :: i < n ==> i in slots
  }

  lemma AllSlotsFilled(tools: Tools, log: seq<ToolCall>, calls: seq<ToolCall>)
    ensures Complete(RunGroup(tools, calls, Indices(|calls|), Group(log, map[])).slots, |calls|)
  {
    var todo: seq<nat> := Indices(|calls|);
    RunGroupSlots(tools, calls, todo, Group(log, map[]));
    var e := RunGroup(tools, calls, Indices(|calls|), Group(log, map[]));
    forall i: nat | i < |calls| ensures i in e.slots {
      assert todo[i] in e.slots;
    }
  }

  function GroupRun(tools: Tools, log: seq<ToolCall>, calls: seq<ToolCall>): (e: Group)
    ensures Complete(e.slots, |calls|)
  {
    AllSlotsFilled(tools, log, calls);
    RunGroup(tools, calls, Indices(|calls|), Group(log, map[]))
  }

  lemma GroupRunOnce(tools: Tools, log: seq<ToolCall>, calls: seq<ToolCall>)
    ensures var e := GroupRun(tools, log, calls);
            && log <= e.log
            && multiset(e.log[|log|..]) == multiset(calls)
            && forall i: nat :: i < |calls| ==> e.slots[i].toolUseId == calls[i].id
  {
    RunGroupOnce(tools, calls, Indices(|calls|), Group(log, map[]));
    RunGroupSlots(tools, calls, Indices(|calls|), Group(log, map[]));
    assert At(calls, Indices(|calls|)) == calls;
  }

  /** The results of a finished group, in call order. */
  function Slots(slots: map<nat, ToolResult>, n: nat): seq<ToolResult>
    requires Complete(slots, n)
  {
    seq(n, i requires 0 <= i < n => slots[i])
  }

  datatype Executed = Executed(log: seq<ToolCall>, results: seq<ToolResult>)

  /** `execute_tools`: the concurrency-safe calls as one group, then the others in order. */
  function ExecuteTools(tools: Tools, log: seq<ToolCall>, calls: seq<ToolCall>): Executed {
    var safe := SafeCalls(tools, calls);
    var serial := SerialCalls(tools, calls);
    var g := GroupRun(tools, log, safe);
    Executed(g.log + serial, Slots(g.slots, |safe|) + SerialResults(tools, g.log, serial))
  }

  lemma GroupResultRan(tools: Tools, log: seq<ToolCall>, calls: seq<ToolCall>, later: seq<ToolCall>, i: nat)
    requires i < |calls|
    ensures var g := GroupRun(tools, log, calls); exists n :: RanAt(tools, g.log + later, calls[i], g.slots[i], n)
  {
    var g := GroupRun(tools, log, calls);
    RunGroupRan(tools, calls, Indices(|calls|), Group(log, map[]));
    hide RunGroup, Tells;
    var n :| RanAt(tools, g.log, calls[i], g.slots[i], n);
    assert (g.log + later)[..n] == g.log[..n];
    assert RanAt(tools, g.log + later, calls[i], g.slots[i], n);
  }

  lemma SerialResultRan(tools: Tools, log: seq<ToolCall>, calls: seq<ToolCall>, j: nat)
    requires j < |calls|
    ensures RanAt(tools, log + calls, calls[j], SerialResults(tools, log, calls)[j], |log| + j)
  {
    ResultForTells(tools, log + calls[..j], calls[j]);
    hide Tells, ResultFor;
    assert (log + calls)[..|log| + j] == log + calls[..j];
  }

  lemma {:induction false} PartitionedLength(tools: Tools, calls: seq<ToolCall>)
    ensures |SafeCalls(tools, calls)| + |SerialCalls(tools, calls)| == |calls|
  {
    if calls != [] {
      PartitionedLength(tools, calls[1..]);
    }
  }

  /** Result i is what its call gave at the place in the log where it ran. */
  lemma EachResultIsItsRun(tools: Tools, log: seq<ToolCall>, calls: seq<ToolCall>, i: nat)
    requires i < |calls|
    ensures var (e, order) := (ExecuteTools(tools, log, calls), Partitioned(tools, calls));
            && |e.results| == |order| == |calls|
            && exists n :: RanAt(tools, e.log, order[i], e.results[i], n)
  {
    var safe, serial := SafeCalls(tools, calls), SerialCalls(tools, calls);
    PartitionedLength(tools, calls);
    hide RunGroup, Select, Tells, RanAt;
    var g := GroupRun(tools, log, safe);
    if i < |safe| {
      GroupResultRan(tools, log, safe, serial, i);
      var n :| RanAt(tools, g.log + serial, safe[i], g.slots[i], n);
      assert RanAt(tools, ExecuteTools(tools, log, calls).log, Partitioned(tools, calls)[i],
                   ExecuteTools(tools, log, calls).results[i], n);
    } else {
      var j := i - |safe|;
      SerialResultRan(tools, g.log, serial, j);
      assert RanAt(tools, ExecuteTools(tools, log, calls).log, Partitioned(tools, calls)[i],
                   ExecuteTools(tools, log, calls).results[i], |g.log| + j);
    }
  }

  lemma {:induction false} PartitionedMultiset(tools: Tools, calls: seq<ToolCall>)
    ensures multiset(Partitioned(tools, calls)) == multiset(calls)
  {
    if calls == [] {
    } else {
      PartitionedMultiset(tools, calls[1..]);
      assert calls == [calls[0]] + calls[1..];
    }
  }

  lemma {:induction false} PartitionedIds(tools: Tools, calls: seq<ToolCall>)
    ensures multiset(CallIds(Partitioned(tools, calls))) == multiset(CallIds(calls))
  {
    if calls == [] {
    } else {
      var c, rest := calls[0], calls[1..];
      PartitionedIds(tools, rest);
      IdsConcat(SafeCalls(tools, rest), SerialCalls(tools, rest));
      IdsConcat(SafeCalls(tools, calls), SerialCalls(tools, calls));
      IdsConcat([c], rest);
      IdsConcat([c], if tools.concurrentSafe(c) then SafeCalls(tools, rest) else SerialCalls(tools, rest));
      assert calls == [c] + rest;
    }
  }

  lemma IdsConcat(a: seq<ToolCall>, b: seq<ToolCall>)
    ensures CallIds(a + b) == CallIds(a) + CallIds(b)
  {}

  /** Each call runs exactly once, whatever order the concurrent group completes in. */
  lemma EachCallOnce(tools: Tools, log: seq<ToolCall>, calls: seq<ToolCall>)
    ensures var e := ExecuteTools(tools, log, calls);
            log <= e.log && multiset(e.log[|log|..]) == multiset(calls)
  {
    var safe, serial := SafeCalls(tools, calls), SerialCalls(tools, calls);
    var g := GroupRun(tools, log, safe);
    GroupRunOnce(tools, log, safe);
    PartitionedMultiset(tools, calls);
    assert (g.log + serial)[|log|..] == g.log[|log|..] + serial;
  }

  /** Results follow the stable partition of the calls, whatever order the concurrent group
      completes in; so the result ids are a permutation of the call ids. */
  lemma ResultsPermuteCalls(tools: Tools, log: seq<ToolCall>, calls: seq<ToolCall>)
    ensures var ids := ResultToolIds(ExecuteTools(tools, log, calls).results);
            ids == CallIds(Partitioned(tools, calls)) && multiset(ids) == multiset(CallIds(calls))
  {
    var safe, serial := SafeCalls(tools, calls), SerialCalls(tools, calls);
    var g := GroupRun(tools, log, safe);
    GroupRunOnce(tools, log, safe);
    PartitionedIds(tools, calls);
    IdsConcat(safe, serial);
    var first, second := Slots(g.slots, |safe|), SerialResults(tools, g.log, serial);
    assert ResultToolIds(first + second) == ResultToolIds(first) + ResultToolIds(second);
    assert ResultToolIds(first) == CallIds(safe);
    SerialResultIds(tools, g.log, serial);
  }

  lemma SerialResultIds(tools: Tools, log: seq<ToolCall>, calls: seq<ToolCall>)
    ensures ResultToolIds(SerialResults(tools, log, calls)) == CallIds(calls)
  {
    forall i | 0 <= i < |calls|
      ensures SerialResults(tools, log, calls)[i].toolUseId == calls[i].id
    {
      assert SerialResults(tools, log, calls)[i] == ResultFor(calls[i], tools.run(log + calls[..i], calls[i]));
    }
  }

  predicate NoneSafe(tools: Tools, calls: seq<ToolCall>) {
    forall c <- calls :: !tools.concurrentSafe(c)
  }

  lemma {:induction false} NoneSafePartition(tools: Tools, calls: seq<ToolCall>)
    requires NoneSafe(tools, calls)
    ensures SafeCalls(tools, calls) == [] && SerialCalls(tools, calls) == calls
  {
    if calls == [] {
    } else {
      NoneSafePartition(tools, calls[1..]);
    }
  }

  /** Without concurrency-safe calls, `execute_tools` is the plain left-to-right run. */
  lemma NoneSafeIsSerial(tools: Tools, log: seq<ToolCall>, calls: seq<ToolCall>)
    requires NoneSafe(tools, calls)
    ensures ExecuteTools(tools, log, calls) == Executed(log + calls, SerialResults(tools, log, calls))
  {
    NoneSafePartition(tools, calls);
  }

  predicate OnlyFirstSafe(tools: Tools, calls: seq<ToolCall>) {
    forall i :: 0 < i < |calls| ==> !tools.concurrentSafe(calls[i])
  }

  /** A concurrent group of the first call alone makes no difference either. */
  lemma OnlyFirstSafeIsSerial(tools: Tools, log: seq<ToolCall>, calls: seq<ToolCall>)
    requires OnlyFirstSafe(tools, calls)
    ensures ExecuteTools(tools, log, calls) == Executed(log + calls, SerialResults(tools, log, calls))
  {
    if calls == [] || !tools.concurrentSafe(calls[0]) {
      NoneSafeIsSerial(tools, log, calls);
    } else {
      var c, rest := calls[0], calls[1..];
      NoneSafePartition(tools, rest);
      GroupOfOne(tools, log, c);
      assert SafeCalls(tools, calls) == [c] && SerialCalls(tools, calls) == rest;
      hide GroupRun, Select;
      assert log + calls == log + [c] + rest;
      var all, later := SerialResults(tools, log, calls), SerialResults(tools, log + [c], rest);
      assert forall i :: 0 < i < |calls| ==> log + calls[..i] == log + [c] + rest[..i - 1];
      assert log + calls[..0] == log;
      assert all == [all[0]] + later;
    }
  }

  lemma GroupOfOne(tools: Tools, log: seq<ToolCall>, c: ToolCall)
    ensures var g := GroupRun(tools, log, [c]);
            g.log == log + [c] && Slots(g.slots, 1) == [ResultFor(c, tools.run(log, c))]
  {
    var todo: seq<nat> := Indices(1);
    var k := tools.next(log, 1) % 1;
    assert todo[k] == 0 && Without(todo, k) == [];
  }

  /** Whatever order two calls of a group finish in, results stay in call order. */
  lemma TwoFinishInEitherOrder(tools: Tools, log: seq<ToolCall>, a: ToolCall, b: ToolCall)
    ensures var g := GroupRun(tools, log, [a, b]);
            if tools.next(log, 2) % 2 == 0 then
              && g.log == log + [a] + [b]
              && Slots(g.slots, 2) == [ResultFor(a, tools.run(log, a)), ResultFor(b, tools.run(log + [a], b))]
            else
              && g.log == log + [b] + [a]
              && Slots(g.slots, 2) == [ResultFor(a, tools.run(log + [b], a)), ResultFor(b, tools.run(log, b))]
  {
    var calls := [a, b];
    var todo: seq<nat> := Indices(2);
    var k := tools.next(log, 2) % 2;
    var rest := Without(todo, k);
    var g1 := Finished(tools, calls, todo[k], Group(log, map[]));
    assert rest == [1 - k];
    assert GroupRun(tools, log, calls) == RunGroup(tools, calls, rest, g1);
    LastFinishes(tools, calls, 1 - k, g1);
  }

  lemma LastFinishes(tools: Tools, calls: seq<ToolCall>, i: nat, g: Group)
    requires i < |calls|
    ensures RunGroup(tools, calls, [i], g) == Finished(tools, calls, i, g)
  {
    var k := tools.next(g.log, 1) % 1;
    assert Without([i], k) == [];
  }

  /** The partition keeps the order of the calls. */
  lemma {:induction false} PartitionSnoc(tools: Tools, calls: seq<ToolCall>, c: ToolCall)
    ensures SafeCalls(tools, calls + [c]) == SafeCalls(tools, calls) + (if tools.concurrentSafe(c) then [c] else [])
    ensures SerialCalls(tools, calls + [c]) == SerialCalls(tools, calls) + (if tools.concurrentSafe(c) then [] else [c])
    ensures SafeCalls(tools, []) == [] && SerialCalls(tools, []) == []
  {
    SelectSnoc(calls, c, tools.concurrentSafe);
    SelectSnoc(calls, c, (c: ToolCall) => !tools.concurrentSafe(c));
  }

  lemma {:induction false} SelectSnoc(calls: seq<ToolCall>, c: ToolCall, keep: ToolCall -> bool)
    ensures Select(calls + [c], keep) == Select(calls, keep) + (if keep(c) then [c] else [])
  {
    if calls == [] {
      assert [c][1..] == [];
    } else {
      SelectSnoc(calls[1..], c, keep);
      assert (calls + [c])[1..] == calls[1..] + [c];
    }
  }

  /** The executor as the agent sees it: only its execution log changes. */
  class ToolHost {
    const tools: Tools
    var log: seq<ToolCall>

    constructor (tools: Tools)
      ensures this.tools == tools && log == []
    {
      this.tools := tools;
      log := [];
    }

    method Execute(call: ToolCall) returns (r: ToolResult)
      modifies this
      ensures r == ResultFor(call, tools.run(old(log), call))
      ensures log == old(log) + [call]
    {
      r := ResultFor(call, tools.run(log, call));
      log := log + [call];
    }

    method ExecuteConcurrent(calls: seq<ToolCall>) returns (results: seq<ToolResult>)
      modifies this
      ensures var g := GroupRun(tools, old(log), calls);
              log == g.log && results == Slots(g.slots, |calls|)
    {
      ghost var group := GroupRun(tools, log, calls);
      var slots: map<nat, ToolResult> := map[];
      var todo: seq<nat> := Indices(|calls|);
      while todo != []
        invariant Within(todo, |calls|)
        invariant RunGroup(tools, calls, todo, Group(log, slots)) == group
        decreases |todo|
      {
        var k := tools.next(log, |todo|) % |todo|;
        var result := Execute(calls[todo[k]]);
        slots := slots[todo[k] := result];
        todo := Without(todo, k);
      }
      results := Slots(slots, |calls|);
    }

    method ExecuteSerial(calls: seq<ToolCall>) returns (results: seq<ToolResult>)
      modifies this
      ensures log == old(log) + calls && results == SerialResults(tools, old(log), calls)
    {
      results := [];
      for i := 0 to |calls|
        invariant log == old(log) + calls[..i]
        invariant results == SerialResults(tools, old(log), calls)[..i]
      {
        var result := Execute(calls[i]);
        results := results + [result];
      }
    }

    method ExecuteAll(calls: seq<ToolCall>) returns (results: seq<ToolResult>)
      modifies this
      ensures Executed(log, results) == ExecuteTools(tools, old(log), calls)
    {
      var concurrent, serial := [], [];
      for i := 0 to |calls|
        invariant SafeCalls(tools, calls) == concurrent + SafeCalls(tools, calls[i..])
        invariant SerialCalls(tools, calls) == serial + SerialCalls(tools, calls[i..])
        invariant log == old(log)
      {
        if tools.concurrentSafe(calls[i]) {
          concurrent := concurrent + [calls[i]];
        } else {
          serial := serial + [calls[i]];
        }
      }
      results := [];
      assert Indices(0) == [];
      assert calls[|calls|..] == [];
      assert concurrent == SafeCalls(tools, calls) && serial == SerialCalls(tools, calls);
      if concurrent != [] {
        results := ExecuteConcurrent(concurrent);
      }
      var rest := ExecuteSerial(serial);
      results := results + rest;
    }
  }
}
