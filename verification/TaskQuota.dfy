/** The per-user task quota: the schedule handler counts, and inserts in a later statement
    (crates/edgeclaw-server/src/handlers.rs). */
module TaskQuota {
  import opened Prelude
  import opened Scheduler

  /** Requests of `user` that passed the count and have not inserted yet. */
  function InFlight(s: State, user: string): set<nat> {
    set req <- s.counted.Keys | s.counted[req].user == user
  }

  ghost predicate IdsBelow(s: State) {
    forall id :: id in s.tasks ==> id < s.nextId
  }

  /** At no time do more than `m` requests of `user` stand between count and insert. */
  ghost predicate Overlapping(cron: Cron, max: int, init: State, steps: seq<Step>, user: string, m: nat)
    decreases |steps|
  {
    && |InFlight(Run(cron, max, init, steps), user)| <= m
    && (steps != [] ==> Overlapping(cron, max, init, steps[..|steps| - 1], user, m))
  }

  lemma SubsetIsSmaller(a: set<nat>, b: set<nat>)
    requires a <= b
    ensures |a| <= |b|
  {
    assert b == a + (b - a);
  }

  lemma NewTaskEnabled(tasks: map<nat, Task>, id: nat, task: Task, user: string)
    requires id !in tasks && task.enabled
    ensures |EnabledOf(tasks[id := task], user)| == |EnabledOf(tasks, user)| + (if task.user == user then 1 else 0)
  {
    assert EnabledOf(tasks[id := task], user) == EnabledOf(tasks, user) + (if task.user == user then {id} else {});
  }

  lemma InsertMovesOne(cron: Cron, max: int, s: State, req: nat, user: string)
    requires IdsBelow(s) && req in s.counted
    ensures var s' := Apply(cron, max, s, Insert(req));
            && IdsBelow(s')
            && |EnabledOf(s'.tasks, user)| ==
               |EnabledOf(s.tasks, user)| + (if s.counted[req].user == user then 1 else 0)
            && |InFlight(s', user)| == |InFlight(s, user)| - (if s.counted[req].user == user then 1 else 0)
  {
    var a := s.counted[req];
    NewTaskEnabled(s.tasks, s.nextId, Task(a.user, a.cron, a.runAt, true, None), user);
    assert InFlight(s.(counted := s.counted - {req}), user) == InFlight(s, user) - {req};
  }

  /** Only an insert enables anything. */
  lemma OtherStepsEnableNothing(cron: Cron, max: int, s: State, step: Step, user: string)
    requires Inv(cron, s) && !step.Insert?
    ensures var s' := Apply(cron, max, s, step);
            && s'.tasks.Keys == s.tasks.Keys && s'.nextId == s.nextId
            && |EnabledOf(s'.tasks, user)| <= |EnabledOf(s.tasks, user)|
  {
    var s' := Apply(cron, max, s, step);
    SameTasks(cron, max, s, step);
    hide Apply;
    forall id <- EnabledOf(s'.tasks, user) ensures id in EnabledOf(s.tasks, user) {
      StepEvolves(cron, max, s, step, id);
    }
    hide Inv;
    SubsetIsSmaller(EnabledOf(s'.tasks, user), EnabledOf(s.tasks, user));
  }

  lemma SameTasks(cron: Cron, max: int, s: State, step: Step)
    requires !step.Insert? && Inv(cron, s)
    ensures Apply(cron, max, s, step).tasks.Keys == s.tasks.Keys && Apply(cron, max, s, step).nextId == s.nextId
  {
    hide Inv;
  }

  lemma CountAddsOne(cron: Cron, max: int, s: State, req: nat, request: Request)
    requires req !in s.counted && Validate(cron, s.clock, request).Ok? && |EnabledOf(s.tasks, request.user)| < max
    ensures var s' := Apply(cron, max, s, Count(req, request));
            && s'.tasks == s.tasks && s'.nextId == s.nextId
            && s'.counted == s.counted[req := Validate(cron, s.clock, request).value]
            && InFlight(s', request.user) == InFlight(s, request.user) + {req}
  {}

  /** Enabled tasks and requests in flight together stay below max + m. */
  ghost predicate Within(s: State, max: int, m: nat, user: string) {
    IdsBelow(s) && |EnabledOf(s.tasks, user)| + |InFlight(s, user)| <= max + m - 1
  }

  lemma StepStaysWithin(cron: Cron, max: int, s: State, step: Step, m: nat, user: string)
    requires Inv(cron, s) && Within(s, max, m, user)
    requires |InFlight(Apply(cron, max, s, step), user)| <= m
    ensures Within(Apply(cron, max, s, step), max, m, user)
  {
    hide Inv;
    var s' := Apply(cron, max, s, step);
    if step.Insert? && step.req in s.counted {
      InsertMovesOne(cron, max, s, step.req, user);
    } else if !step.Insert? {
      OtherStepsEnableNothing(cron, max, s, step, user);
      if step.Count? && step.request.user == user && s' != s {
        assert |EnabledOf(s.tasks, user)| < max;
      } else if step.Abandon? {
        SubsetIsSmaller(InFlight(s', user), InFlight(s, user));
      } else {
        assert InFlight(s', user) == InFlight(s, user);
      }
    }
  }

  /** Over any interleaving with polls, deletes and other users' requests, a user who never has more
      than m requests between count and insert never has more than max + m - 1 enabled tasks. */
  lemma {:induction false} QuotaBound(cron: Cron, max: int, init: State, steps: seq<Step>, user: string, m: nat)
    requires Fresh(init) && FiresLater(cron) && m >= 1
    requires |EnabledOf(init.tasks, user)| <= max
    requires Overlapping(cron, max, init, steps, user, m)
    ensures Within(Run(cron, max, init, steps), max, m, user)
    ensures |EnabledOf(Run(cron, max, init, steps).tasks, user)| <= max + m - 1
    decreases |steps|
  {
    hide Apply;
    if steps == [] {
      assert InFlight(init, user) == {};
    } else {
      var n := |steps| - 1;
      QuotaBound(cron, max, init, steps[..n], user, m);
      RunKeeps(cron, max, init, steps[..n]);
      StepStaysWithin(cron, max, Run(cron, max, init, steps[..n]), steps[n], m, user);
    }
  }

  /** When requests are serialised the quota is exact. */
  lemma SerialRequestsKeepQuota(cron: Cron, max: int, init: State, steps: seq<Step>, user: string)
    requires Fresh(init) && FiresLater(cron)
    requires |EnabledOf(init.tasks, user)| <= max
    requires Overlapping(cron, max, init, steps, user, 1)
    ensures |EnabledOf(Run(cron, max, init, steps).tasks, user)| <= max
  {
    QuotaBound(cron, max, init, steps, user, 1);
  }

  // ---------------------------------------------------------------- the bound is reached

  function EmptyServer(): State {
    State(map[], 0, 0, None, [], map[])
  }

  function OneOff(user: string): Request {
    Request(user, None, Some(0))
  }

  /** The state of a run in which `enabled` tasks are in and requests lo..hi are in flight. */
  ghost predicate Reached(cron: Cron, max: int, steps: seq<Step>, user: string, m: nat, enabled: int, lo: nat,
                          hi: nat) {
    var s := Run(cron, max, EmptyServer(), steps);
    && Overlapping(cron, max, EmptyServer(), steps, user, m)
    && IdsBelow(s)
    && |EnabledOf(s.tasks, user)| == enabled
    && |InFlight(s, user)| == hi - lo
    && (forall req :: req in s.counted <==> lo <= req < hi)
    && (forall req :: req in s.counted ==> s.counted[req].user == user)
  }

  lemma OneMoreStep(cron: Cron, max: int, init: State, steps: seq<Step>, step: Step, user: string, m: nat)
    requires Overlapping(cron, max, init, steps, user, m)
    ensures var s' := Apply(cron, max, Run(cron, max, init, steps), step);
            && Run(cron, max, init, steps + [step]) == s'
            && (|InFlight(s', user)| <= m ==> Overlapping(cron, max, init, steps + [step], user, m))
  {
    hide Apply;
    assert (steps + [step])[..|steps|] == steps;
  }

  lemma ReachCount(cron: Cron, max: int, steps: seq<Step>, user: string, m: nat, enabled: int, lo: nat, hi: nat)
    returns (more: seq<Step>)
    requires Reached(cron, max, steps, user, m, enabled, lo, hi) && enabled < max && lo <= hi < lo + m
    ensures Reached(cron, max, more, user, m, enabled, lo, hi + 1)
  {
    hide Run, Overlapping, Apply;
    var s := Run(cron, max, EmptyServer(), steps);
    var step := Count(hi, OneOff(user));
    more := steps + [step];
    OneMoreStep(cron, max, EmptyServer(), steps, step, user, m);
    CountAddsOne(cron, max, s, hi, OneOff(user));
    hide IdsBelow, EnabledOf;
    assert hi !in InFlight(s, user);
  }

  lemma ReachInsert(cron: Cron, max: int, steps: seq<Step>, user: string, m: nat, enabled: int, lo: nat, hi: nat)
    returns (more: seq<Step>)
    requires Reached(cron, max, steps, user, m, enabled, lo, hi) && lo < hi
    ensures Reached(cron, max, more, user, m, enabled + 1, lo + 1, hi)
  {
    hide Run;
    var s := Run(cron, max, EmptyServer(), steps);
    assert |InFlight(s, user)| <= m;
    hide Overlapping;
    more := steps + [Insert(lo)];
    OneMoreStep(cron, max, EmptyServer(), steps, Insert(lo), user, m);
    InsertMovesOne(cron, max, s, lo, user);
  }

  /** k tasks, one request after the other. */
  lemma {:induction false} ReachSerially(cron: Cron, max: int, user: string, m: nat, k: nat) returns (steps: seq<Step>)
    requires k <= max && m >= 1
    ensures Reached(cron, max, steps, user, m, k, k, k)
  {
    if k == 0 {
      steps := [];
      assert EnabledOf(map[], user) == {} && InFlight(EmptyServer(), user) == {};
    } else {
      steps := ReachSerially(cron, max, user, m, k - 1);
      steps := ReachCount(cron, max, steps, user, m, k - 1, k - 1, k - 1);
      steps := ReachInsert(cron, max, steps, user, m, k - 1, k - 1, k);
    }
  }

  lemma {:induction false} ReachCounts(cron: Cron, max: int, user: string, m: nat, c: nat) returns (steps: seq<Step>)
    requires max >= 1 && 1 <= m && c <= m
    ensures Reached(cron, max, steps, user, m, max - 1, max - 1, max - 1 + c)
  {
    if c == 0 {
      steps := ReachSerially(cron, max, user, m, max - 1);
    } else {
      steps := ReachCounts(cron, max, user, m, c - 1);
      steps := ReachCount(cron, max, steps, user, m, max - 1, max - 1, max - 1 + c - 1);
    }
  }

  lemma {:induction false} ReachInserts(cron: Cron, max: int, user: string, m: nat, d: nat) returns (steps: seq<Step>)
    requires max >= 1 && 1 <= m && d <= m
    ensures Reached(cron, max, steps, user, m, max - 1 + d, max - 1 + d, max - 1 + m)
  {
    if d == 0 {
      steps := ReachCounts(cron, max, user, m, m);
    } else {
      steps := ReachInserts(cron, max, user, m, d - 1);
      steps := ReachInsert(cron, max, steps, user, m, max - 1 + d - 1, max - 1 + d - 1, max - 1 + m);
    }
  }

  /** The bound is tight: m overlapping requests can leave max + m - 1 enabled tasks. */
  lemma QuotaBoundIsReached(cron: Cron, max: int, user: string, m: nat)
    requires max >= 1 && m >= 1
    ensures exists steps :: Overlapping(cron, max, EmptyServer(), steps, user, m)
                            && |EnabledOf(Run(cron, max, EmptyServer(), steps).tasks, user)| == max + m - 1
  {
    var steps := ReachInserts(cron, max, user, m, m);
    assert Reached(cron, max, steps, user, m, max + m - 1, max - 1 + m, max - 1 + m);
  }
}
