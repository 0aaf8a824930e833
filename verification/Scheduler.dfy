/** The scheduled-task table: the scheduler's poll interleaved with the schedule and delete handlers
    (crates/edgeclaw-server/src/scheduler.rs, handlers.rs). */
module Scheduler {
  import opened Prelude

  /** The cron library: which expressions parse, and the next firing after a time, if any. */
  datatype Cron = Cron(valid: string -> bool, next: (string, int) -> Option<int>)

  ghost predicate FiresLater(cron: Cron) {
    forall expr, t :: cron.next(expr, t).Some? ==> cron.next(expr, t).value > t
  }

  datatype Task = Task(user: string, cron: Option<string>, runAt: int, enabled: bool, lastRun: Option<int>)

  /** A snapshot row, with the run time it had in the snapshot. */
  datatype Row = Row(id: nat, cron: Option<string>, due: int)

  /** A poll in progress: rows up to `next` are done. `now` is the clock reading it selects by, `known`
      are the tasks present at its query. */
  datatype Poll = Poll(now: int, rows: seq<Row>, next: nat, known: set<nat>)

  datatype Spawn = Spawn(id: nat, due: int, at: int)

  /** A validated request between its COUNT and its INSERT; it may also be abandoned there, by a failed
      insert or a dropped connection. */
  datatype Accepted = Accepted(user: string, cron: Option<string>, runAt: int)

  datatype State = State(
    tasks: map<nat, Task>,
    nextId: nat,
    clock: int,
    poll: Option<Poll>,
    spawned: seq<Spawn>,
    counted: map<nat, Accepted>)

  datatype Request = Request(user: string, cron: Option<string>, runAt: Option<int>)

  datatype Step =
    | Tick(t: int)
    | StartPoll(now: int, order: seq<nat>)
    | ProcessRow(updateFails: bool)
    | FinishPoll
    | RecordRun(id: nat)
    | Delete(id: nat, user: string)
    | Count(req: nat, request: Request)
    | Insert(req: nat)
    | Abandon(req: nat)

  /** Exactly one of a cron expression, which must have a run ahead of it, and a run time. */
  function Validate(cron: Cron, clock: int, r: Request): (v: Result<Accepted, string>)
    ensures v.Ok? <==> r.cron.Some? != r.runAt.Some? &&
                       (r.cron.Some? ==> cron.valid(r.cron.value) && cron.next(r.cron.value, clock).Some?)
    ensures v.Ok? ==> v.value.user == r.user && v.value.cron == r.cron
                      && Some(v.value.runAt) == (if r.cron.Some? then cron.next(r.cron.value, clock) else r.runAt)
    ensures v.Err? ==>
              v.error == if r.cron.Some? == r.runAt.Some? then "exactly one of 'cron' or 'run_at' must be provided"
                         else if cron.valid(r.cron.value) then "cron expression has no upcoming runs"
                         else "invalid cron expression"
  {
    match (r.cron, r.runAt)
    case (Some(expr), None) =>
      if !cron.valid(expr) then Err("invalid cron expression")
      else if cron.next(expr, clock).None? then Err("cron expression has no upcoming runs")
      else Ok(Accepted(r.user, r.cron, cron.next(expr, clock).value))
    case (None, Some(ts)) => Ok(Accepted(r.user, None, ts))
    case _ => Err("exactly one of 'cron' or 'run_at' must be provided")
  }

  predicate Due(task: Task, now: int) {
    task.runAt <= now && task.enabled
  }

  function DueIds(tasks: map<nat, Task>, now: int): set<nat> {
    set id <- tasks.Keys | Due(tasks[id], now)
  }

  /** `order` lists each due task once; the query promises no particular order. */
  predicate Lists(order: seq<nat>, ids: set<nat>) {
    && (forall i :: 0 <= i < |order| ==> order[i] in ids)
    && (forall id <- ids :: id in order)
    && (forall i, j :: 0 <= i < j < |order| ==> order[i] != order[j])
  }

  function Snapshot(tasks: map<nat, Task>, order: seq<nat>): seq<Row>
    requires forall i :: 0 <= i < |order| ==> order[i] in tasks
  {
    seq(|order|, i requires 0 <= i < |order| => Row(order[i], tasks[order[i]].cron, tasks[order[i]].runAt))
  }

  function SetRunAt(tasks: map<nat, Task>, id: nat, t: int): map<nat, Task> {
    if id in tasks then tasks[id := tasks[id].(runAt := t)] else tasks
  }

  function Disable(tasks: map<nat, Task>, id: nat): map<nat, Task> {
    if id in tasks then tasks[id := tasks[id].(enabled := false)] else tasks
  }

  /** What a row does to the table: re-arm a cron task that has a next run, disable any other. */
  function Rearm(cron: Cron, tasks: map<nat, Task>, row: Row, clock: int): map<nat, Task> {
    if row.cron.Some? && cron.valid(row.cron.value) && cron.next(row.cron.value, clock).Some?
    then SetRunAt(tasks, row.id, cron.next(row.cron.value, clock).value)
    else Disable(tasks, row.id)
  }

  predicate Spawns(cron: Cron, row: Row) {
    row.cron.Some? ==> cron.valid(row.cron.value)
  }

  function EnabledOf(tasks: map<nat, Task>, user: string): set<nat> {
    set id <- tasks.Keys | tasks[id].user == user && tasks[id].enabled
  }

  /** One step; a step that is not enabled changes nothing. */
  function Apply(cron: Cron, max: int, s: State, step: Step): State {
    match step
    case Tick(t) => if t >= s.clock then s.(clock := t) else s
    case StartPoll(now, order) =>
      if s.poll.Some? || now > s.clock || !Lists(order, DueIds(s.tasks, now)) then s
      else s.(poll := Some(Poll(now, Snapshot(s.tasks, order), 0, s.tasks.Keys)))
    case ProcessRow(updateFails) =>
      if s.poll.None? || s.poll.value.next >= |s.poll.value.rows| then s
      else if updateFails then s.(poll := None)
      else
        var p := s.poll.value;
        var row := p.rows[p.next];
        s.(tasks := Rearm(cron, s.tasks, row, s.clock),
           poll := Some(p.(next := p.next + 1)),
           spawned := if Spawns(cron, row) then s.spawned + [Spawn(row.id, row.due, s.clock)] else s.spawned)
    case FinishPoll =>
      if s.poll.Some? && s.poll.value.next >= |s.poll.value.rows| then s.(poll := None) else s
    case RecordRun(id) =>
      if id in s.tasks then s.(tasks := s.tasks[id := s.tasks[id].(lastRun := Some(s.clock))]) else s
    case Delete(id, user) =>
      if id in s.tasks && s.tasks[id].user == user && s.tasks[id].enabled then s.(tasks := Disable(s.tasks, id)) else s
    case Count(req, request) =>
      var v := Validate(cron, s.clock, request);
      if req in s.counted || v.Err? || |EnabledOf(s.tasks, request.user)| >= max then s
      else s.(counted := s.counted[req := v.value])
    case Insert(req) =>
      if req !in s.counted then s
      else
        var a := s.counted[req];
        s.(tasks := s.tasks[s.nextId := Task(a.user, a.cron, a.runAt, true, None)],
           nextId := s.nextId + 1,
           counted := s.counted - {req})
    case Abandon(req) => s.(counted := s.counted - {req})
  }

  function Run(cron: Cron, max: int, init: State, steps: seq<Step>): State {
    if steps == [] then init
    else Apply(cron, max, Run(cron, max, init, steps[..|steps| - 1]), steps[|steps| - 1])
  }

  /** A server that has just started on some task table. */
  ghost predicate Fresh(s: State) {
    && s.poll.None? && s.spawned == [] && s.counted == map[]
    && forall id :: id in s.tasks ==> id < s.nextId
  }

  // ---------------------------------------------------------------- the invariant

  ghost predicate OneShot(s: State, id: nat) {
    id in s.tasks && s.tasks[id].cron.None?
  }

  ghost predicate SpawnedOnce(s: State, i: int, j: int)
    requires 0 <= i < |s.spawned| && 0 <= j < |s.spawned|
  {
    s.spawned[i].id == s.spawned[j].id ==> !OneShot(s, s.spawned[i].id)
  }

  /** A spawned task had come due, has a valid schedule, and is disabled if it was one-shot. */
  ghost predicate SpawnInv(cron: Cron, s: State, e: Spawn) {
    && e.id in s.tasks
    && e.due <= e.at <= s.clock
    && (match s.tasks[e.id].cron
        case Some(expr) => cron.valid(expr)
        case None => !s.tasks[e.id].enabled && e.due == s.tasks[e.id].runAt)
  }

  /** Rows of a poll belong to their tasks; unprocessed one-shots have not been spawned. */
  ghost predicate RowInv(s: State, p: Poll, k: int)
    requires 0 <= k < |p.rows|
  {
    var row := p.rows[k];
    && row.id in s.tasks && row.cron == s.tasks[row.id].cron && row.due <= p.now
    && (row.cron.None? ==> row.due == s.tasks[row.id].runAt)
    && (k >= p.next && row.cron.None? ==> forall i :: 0 <= i < |s.spawned| ==> s.spawned[i].id != row.id)
  }

  /** A task the poll knows and is done with is disabled or re-armed past the poll's time. */
  ghost predicate Settled(s: State, p: Poll, id: nat) {
    && id in s.tasks
    && (Due(s.tasks[id], p.now) ==> exists k :: p.next <= k < |p.rows| && p.rows[k].id == id)
  }

  ghost predicate PollInv(s: State, p: Poll) {
    && p.now <= s.clock
    && p.next <= |p.rows|
    && (forall k :: 0 <= k < |p.rows| ==> RowInv(s, p, k))
    && (forall i, j :: 0 <= i < j < |p.rows| ==> p.rows[i].id != p.rows[j].id)
    && (forall id <- p.known :: Settled(s, p, id))
  }

  ghost predicate Inv(cron: Cron, s: State) {
    && (forall id :: id in s.tasks ==> id < s.nextId)
    && (forall i :: 0 <= i < |s.spawned| ==> SpawnInv(cron, s, s.spawned[i]))
    && (forall i, j :: 0 <= i < j < |s.spawned| ==> SpawnedOnce(s, i, j))
    && (s.poll.Some? ==> PollInv(s, s.poll.value))
  }

  // ---------------------------------------------------------------- every step keeps it

  /** How a step may change one task that exists: its owner and schedule stay, it is never
      re-enabled, and only a cron task's run time moves. */
  ghost predicate Evolves(before: map<nat, Task>, after: map<nat, Task>, id: nat) {
    id in before ==>
      && id in after
      && after[id].user == before[id].user
      && after[id].cron == before[id].cron
      && (after[id].enabled ==> before[id].enabled)
      && (before[id].cron.None? ==> after[id].runAt == before[id].runAt)
  }

  lemma StepEvolves(cron: Cron, max: int, s: State, step: Step, id: nat)
    requires Inv(cron, s)
    ensures Evolves(s.tasks, Apply(cron, max, s, step).tasks, id)
  {
    if step.ProcessRow? && s.poll.Some? && s.poll.value.next < |s.poll.value.rows| {
      assert RowInv(s, s.poll.value, s.poll.value.next);
    }
  }

  /** Steps other than a successful row spawn nothing and leave every run time alone. */
  lemma QuietStep(cron: Cron, max: int, s: State, step: Step)
    requires Inv(cron, s) && !step.ProcessRow? && !step.StartPoll?
    ensures var s' := Apply(cron, max, s, step);
            && s'.spawned == s.spawned && s'.clock >= s.clock && (s'.poll.None? || s'.poll == s.poll)
            && (forall id :: id in s'.tasks ==> id < s'.nextId)
            && forall id :: id in s.tasks ==> Evolves(s.tasks, s'.tasks, id) && s'.tasks[id].runAt == s.tasks[id].runAt
  {
    hide PollInv, SpawnInv, SpawnedOnce;
  }

  lemma QuietStepKeeps(cron: Cron, max: int, s: State, step: Step)
    requires Inv(cron, s) && !step.ProcessRow? && !step.StartPoll?
    ensures Inv(cron, Apply(cron, max, s, step))
  {
    hide Apply;
    var s' := Apply(cron, max, s, step);
    QuietStep(cron, max, s, step);
    forall i | 0 <= i < |s'.spawned| ensures SpawnInv(cron, s', s'.spawned[i]) {
      assert SpawnInv(cron, s, s.spawned[i]);
    }
    forall i, j | 0 <= i < j < |s'.spawned| ensures SpawnedOnce(s', i, j) {
      assert SpawnedOnce(s, i, j);
      assert SpawnInv(cron, s, s.spawned[i]);
    }
    if s'.poll.Some? {
      var p := s'.poll.value;
      forall k | 0 <= k < |p.rows| ensures RowInv(s', p, k) { assert RowInv(s, p, k); }
      forall id <- p.known ensures Settled(s', p, id) { assert Settled(s, p, id); }
    }
  }

  lemma StartPollKeeps(cron: Cron, max: int, s: State, now: int, order: seq<nat>)
    requires Inv(cron, s)
    ensures Inv(cron, Apply(cron, max, s, StartPoll(now, order)))
  {
    var s' := Apply(cron, max, s, StartPoll(now, order));
    if s' != s {
      var p := s'.poll.value;
      forall i | 0 <= i < |s'.spawned| ensures SpawnInv(cron, s', s'.spawned[i]) {
        assert SpawnInv(cron, s, s.spawned[i]);
      }
      forall i, j | 0 <= i < j < |s'.spawned| ensures SpawnedOnce(s', i, j) { assert SpawnedOnce(s, i, j); }
      forall k | 0 <= k < |p.rows| ensures RowInv(s', p, k) {
        assert order[k] in DueIds(s.tasks, now);
        forall i | 0 <= i < |s.spawned| && p.rows[k].cron.None? ensures s.spawned[i].id != p.rows[k].id {
          assert SpawnInv(cron, s, s.spawned[i]);
        }
      }
      forall id <- p.known ensures Settled(s', p, id) {
        if Due(s.tasks[id], p.now) {
          assert id in DueIds(s.tasks, now);
          var k :| 0 <= k < |order| && order[k] == id;
          assert p.rows[k].id == id;
        }
      }
    }
  }

  lemma ProcessRowKeeps(cron: Cron, max: int, s: State)
    requires Inv(cron, s) && FiresLater(cron)
    requires s.poll.Some? && s.poll.value.next < |s.poll.value.rows|
    ensures Inv(cron, Apply(cron, max, s, ProcessRow(false)))
  {
    var s' := Apply(cron, max, s, ProcessRow(false));
    var p, p' := s.poll.value, s'.poll.value;
    var row := p.rows[p.next];
    RowRearms(cron, max, s);
    forall i | 0 <= i < |s'.spawned| ensures SpawnInv(cron, s', s'.spawned[i]) {
      if i < |s.spawned| {
        assert SpawnInv(cron, s, s.spawned[i]);
      }
    }
    forall i, j | 0 <= i < j < |s'.spawned| ensures SpawnedOnce(s', i, j) {
      if j < |s.spawned| {
        assert SpawnedOnce(s, i, j);
        assert SpawnInv(cron, s, s.spawned[i]);
      }
    }
    RowKeepsPoll(cron, max, s);
  }

  /** What processing a row does to the table. */
  lemma RowRearms(cron: Cron, max: int, s: State)
    requires Inv(cron, s) && FiresLater(cron)
    requires s.poll.Some? && s.poll.value.next < |s.poll.value.rows|
    ensures var s' := Apply(cron, max, s, ProcessRow(false));
            var row := s.poll.value.rows[s.poll.value.next];
            && s'.tasks.Keys == s.tasks.Keys && RowInv(s, s.poll.value, s.poll.value.next)
            && (forall id :: id in s.tasks && id != row.id ==> s'.tasks[id] == s.tasks[id])
            && Evolves(s.tasks, s'.tasks, row.id)
            && (s'.tasks[row.id].enabled ==> s'.tasks[row.id].runAt > s.clock)
  {
    assert RowInv(s, s.poll.value, s.poll.value.next);
    hide PollInv, SpawnInv, SpawnedOnce;
  }

  lemma RowKeepsPoll(cron: Cron, max: int, s: State)
    requires Inv(cron, s) && FiresLater(cron)
    requires s.poll.Some? && s.poll.value.next < |s.poll.value.rows|
    ensures var s' := Apply(cron, max, s, ProcessRow(false)); s'.poll.Some? && PollInv(s', s'.poll.value)
  {
    var s' := Apply(cron, max, s, ProcessRow(false));
    var p, p' := s.poll.value, s'.poll.value;
    RowRearms(cron, max, s);
    forall k | 0 <= k < |p'.rows| ensures RowInv(s', p', k) {
      assert RowInv(s, p, k);
    }
    forall id <- p'.known ensures Settled(s', p', id) {
      assert Settled(s, p, id);
      if Due(s'.tasks[id], p.now) {
        var k :| p.next <= k < |p.rows| && p.rows[k].id == id;
        assert k != p.next;
      }
    }
  }

  lemma StepKeeps(cron: Cron, max: int, s: State, step: Step)
    requires Inv(cron, s) && FiresLater(cron)
    ensures Inv(cron, Apply(cron, max, s, step))
  {
    if step.StartPoll? {
      StartPollKeeps(cron, max, s, step.now, step.order);
    } else if step == ProcessRow(false) && s.poll.Some? && s.poll.value.next < |s.poll.value.rows| {
      ProcessRowKeeps(cron, max, s);
    } else if !step.ProcessRow? {
      QuietStepKeeps(cron, max, s, step);
    } else {
      AbortKeeps(cron, s);
    }
  }

  lemma AbortKeeps(cron: Cron, s: State)
    requires Inv(cron, s)
    ensures Inv(cron, s.(poll := None))
  {
    var s' := s.(poll := None);
    forall i | 0 <= i < |s'.spawned| ensures SpawnInv(cron, s', s'.spawned[i]) {
      assert SpawnInv(cron, s, s.spawned[i]);
    }
    forall i, j | 0 <= i < j < |s'.spawned| ensures SpawnedOnce(s', i, j) { assert SpawnedOnce(s, i, j); }
  }

  lemma {:induction false} RunKeeps(cron: Cron, max: int, init: State, steps: seq<Step>)
    requires Fresh(init) && FiresLater(cron)
    ensures Inv(cron, Run(cron, max, init, steps))
  {
    hide Apply;
    if steps == [] {
    } else {
      var n := |steps| - 1;
      RunKeeps(cron, max, init, steps[..n]);
      StepKeeps(cron, max, Run(cron, max, init, steps[..n]), steps[n]);
    }
  }

  // ---------------------------------------------------------------- what every run guarantees

  /** Over any run - deletes landing mid-poll, polls aborted by a failed update - a one-shot task is
      spawned at most once, never before its run time, and a task with an invalid cron never. */
  lemma SpawnsAreSafe(cron: Cron, max: int, init: State, steps: seq<Step>)
    requires Fresh(init) && FiresLater(cron)
    ensures var s := Run(cron, max, init, steps);
            && (forall i :: 0 <= i < |s.spawned| ==> SpawnOk(cron, s, s.spawned[i]))
            && (forall i, j :: 0 <= i < j < |s.spawned| && OneShot(s, s.spawned[i].id)
                               ==> s.spawned[i].id != s.spawned[j].id)
  {
    RunKeeps(cron, max, init, steps);
    var s := Run(cron, max, init, steps);
    forall i | 0 <= i < |s.spawned| ensures SpawnOk(cron, s, s.spawned[i]) {
      assert SpawnInv(cron, s, s.spawned[i]);
    }
    forall i, j | 0 <= i < j < |s.spawned| && OneShot(s, s.spawned[i].id) ensures s.spawned[i].id != s.spawned[j].id {
      assert SpawnedOnce(s, i, j);
    }
  }

  ghost predicate SpawnOk(cron: Cron, s: State, e: Spawn) {
    && e.id in s.tasks
    && e.at >= e.due
    && (s.tasks[e.id].cron.Some? ==> cron.valid(s.tasks[e.id].cron.value))
    && (s.tasks[e.id].cron.None? ==> e.at >= s.tasks[e.id].runAt)
  }

  /** Once disabled, always disabled; a task never changes owner or schedule. */
  lemma {:induction false} DisabledForGood(cron: Cron, max: int, init: State, steps: seq<Step>, more: seq<Step>,
                                           id: nat)
    requires Fresh(init) && FiresLater(cron)
    ensures Evolves(Run(cron, max, init, steps).tasks, Run(cron, max, init, steps + more).tasks, id)
    decreases |more|
  {
    hide Apply;
    if more == [] {
      assert steps + more == steps;
    } else {
      var n := |more| - 1;
      DisabledForGood(cron, max, init, steps, more[..n], id);
      assert (steps + more)[..|steps + more| - 1] == steps + more[..n];
      RunKeeps(cron, max, init, steps + more[..n]);
      StepEvolves(cron, max, Run(cron, max, init, steps + more[..n]), more[n], id);
    }
  }

  /** A poll that got through all its rows leaves no task it knew of due at its own time; a poll at
      no later a time can only pick up tasks inserted while the first one ran. */
  lemma FinishedPollSettles(cron: Cron, max: int, init: State, steps: seq<Step>, now: int, order: seq<nat>)
    requires Fresh(init) && FiresLater(cron)
    ensures var s := Run(cron, max, init, steps);
            s.poll.Some? && s.poll.value.next == |s.poll.value.rows| ==>
              var p := s.poll.value;
              && (forall id <- p.known :: id in s.tasks && (s.tasks[id].enabled ==> s.tasks[id].runAt > p.now))
              && (now <= p.now ==>
                    var again := Apply(cron, max, Apply(cron, max, s, FinishPoll), StartPoll(now, order));
                    again.poll.Some? ==>
                      forall i :: 0 <= i < |again.poll.value.rows| ==> again.poll.value.rows[i].id !in p.known)
  {
    RunKeeps(cron, max, init, steps);
    var s := Run(cron, max, init, steps);
    if s.poll.Some? && s.poll.value.next == |s.poll.value.rows| {
      var p := s.poll.value;
      forall id <- p.known ensures id in s.tasks && (s.tasks[id].enabled ==> s.tasks[id].runAt > p.now) {
        assert Settled(s, p, id);
      }
      var again := Apply(cron, max, Apply(cron, max, s, FinishPoll), StartPoll(now, order));
      if now <= p.now && again.poll.Some? {
        assert forall i :: 0 <= i < |order| ==> order[i] in DueIds(s.tasks, now);
      }
    }
  }

  // ---------------------------------------------------------------- what a delete stops

  /** The state after the steps `more`, taken from `s` on. */
  function From(cron: Cron, max: int, s: State, more: seq<Step>): State
    decreases |more|
  {
    if more == [] then s else From(cron, max, Apply(cron, max, s, more[0]), more[1..])
  }

  lemma {:induction false} RunIsFrom(cron: Cron, max: int, init: State, steps: seq<Step>, more: seq<Step>)
    ensures Run(cron, max, init, steps + more) == From(cron, max, Run(cron, max, init, steps), more)
    decreases |more|
  {
    hide Apply;
    if more == [] {
      assert steps + more == steps;
    } else {
      RunIsFrom(cron, max, init, steps + more[..1], more[1..]);
      assert steps + more[..1] + more[1..] == steps + more;
      assert (steps + more[..1])[..|steps|] == steps;
    }
  }

  function SpawnsOf(spawned: seq<Spawn>, id: nat): nat {
    if spawned == [] then 0
    else
      var n := |spawned| - 1;
      SpawnsOf(spawned[..n], id) + (if spawned[n].id == id then 1 else 0)
  }

  /** Row k of the poll in progress is one of task `id`, and has not been processed. */
  ghost predicate Holds(s: State, id: nat, k: int) {
    s.poll.Some? && s.poll.value.next <= k < |s.poll.value.rows| && s.poll.value.rows[k].id == id
  }

  ghost predicate Held(s: State, id: nat) {
    exists k :: Holds(s, id, k)
  }

  /** Among the steps, the row updates of the poll in progress go well up to and including the one `d`
      rows ahead. */
  predicate UpdateSucceeds(more: seq<Step>, d: int) {
    more != [] &&
    match more[0]
    case ProcessRow(fails) => !fails && (d == 0 || UpdateSucceeds(more[1..], d - 1))
    case _ => UpdateSucceeds(more[1..], d)
  }

  ghost predicate Stopped(s: State, id: nat) {
    id in s.tasks && !s.tasks[id].enabled
  }

  lemma StoppedStays(cron: Cron, max: int, s: State, step: Step, id: nat)
    requires Inv(cron, s) && FiresLater(cron) && Stopped(s, id)
    ensures Inv(cron, Apply(cron, max, s, step)) && Stopped(Apply(cron, max, s, step), id)
  {
    hide Inv, Apply;
    StepKeeps(cron, max, s, step);
    StepEvolves(cron, max, s, step, id);
  }

  lemma SpawnsSnoc(spawned: seq<Spawn>, e: Spawn, id: nat)
    ensures SpawnsOf(spawned + [e], id) == SpawnsOf(spawned, id) + (if e.id == id then 1 else 0)
  {
    assert (spawned + [e])[..|spawned|] == spawned;
  }

  /** A row is processed: the poll moves on, and the row is spawned if its schedule is valid. */
  lemma RowProcessed(cron: Cron, max: int, s: State, id: nat)
    requires s.poll.Some? && s.poll.value.next < |s.poll.value.rows|
    ensures var s' := Apply(cron, max, s, ProcessRow(false));
            var p := s.poll.value;
            && s'.poll == Some(p.(next := p.next + 1))
            && SpawnsOf(s'.spawned, id) ==
               SpawnsOf(s.spawned, id) + (if p.rows[p.next].id == id && Spawns(cron, p.rows[p.next]) then 1 else 0)
  {
    var row := s.poll.value.rows[s.poll.value.next];
    SpawnsSnoc(s.spawned, Spawn(row.id, row.due, s.clock), id);
    hide Rearm, SpawnsOf, Spawns;
  }

  /** No step selects a disabled task or spawns one that is not held. */
  lemma UnheldStays(cron: Cron, max: int, s: State, step: Step, id: nat)
    requires Stopped(s, id) && !Held(s, id)
    ensures var s' := Apply(cron, max, s, step);
            !Held(s', id) && SpawnsOf(s'.spawned, id) == SpawnsOf(s.spawned, id)
  {
    match step
    case ProcessRow(fails) => UnheldRow(cron, max, s, fails, id);
    case StartPoll(now, order) => UnheldPoll(cron, max, s, now, order, id);
    case _ =>
      PollWaits(cron, max, s, step);
      hide Apply;
      assert forall k :: Holds(Apply(cron, max, s, step), id, k) ==> Holds(s, id, k);
  }

  /** The other steps do not select or spawn. */
  lemma PollWaits(cron: Cron, max: int, s: State, step: Step)
    requires !step.ProcessRow? && !step.StartPoll?
    ensures var s' := Apply(cron, max, s, step);
            (s'.poll == s.poll || s'.poll == None) && s'.spawned == s.spawned
  {}

  lemma UnheldRow(cron: Cron, max: int, s: State, fails: bool, id: nat)
    requires !Held(s, id)
    ensures var s' := Apply(cron, max, s, ProcessRow(fails));
            !Held(s', id) && SpawnsOf(s'.spawned, id) == SpawnsOf(s.spawned, id)
  {
    if !fails && s.poll.Some? && s.poll.value.next < |s.poll.value.rows| {
      RowProcessed(cron, max, s, id);
      assert !Holds(s, id, s.poll.value.next);
      hide Apply, SpawnsOf;
      assert forall k :: Holds(Apply(cron, max, s, ProcessRow(fails)), id, k) ==> Holds(s, id, k);
    } else {
      hide SpawnsOf;
    }
  }

  lemma UnheldPoll(cron: Cron, max: int, s: State, now: int, order: seq<nat>, id: nat)
    requires Stopped(s, id) && !Held(s, id)
    ensures var s' := Apply(cron, max, s, StartPoll(now, order));
            !Held(s', id) && s'.spawned == s.spawned
  {
    assert id !in DueIds(s.tasks, now);
  }

  lemma {:induction false} UnheldNeverRuns(cron: Cron, max: int, s: State, more: seq<Step>, id: nat)
    requires Inv(cron, s) && FiresLater(cron) && Stopped(s, id) && !Held(s, id)
    ensures var s' := From(cron, max, s, more);
            Stopped(s', id) && SpawnsOf(s'.spawned, id) == SpawnsOf(s.spawned, id)
    decreases |more|
  {
    hide Inv, Apply, Held, Stopped;
    if more != [] {
      StoppedStays(cron, max, s, more[0], id);
      UnheldStays(cron, max, s, more[0], id);
      UnheldNeverRuns(cron, max, Apply(cron, max, s, more[0]), more[1..], id);
    }
  }

  lemma RowsDistinct(cron: Cron, s: State, i: int, j: int)
    requires Inv(cron, s) && s.poll.Some? && 0 <= i < |s.poll.value.rows| && 0 <= j < |s.poll.value.rows|
    ensures s.poll.value.rows[i].id == s.poll.value.rows[j].id ==> i == j
  {
    assert PollInv(s, s.poll.value);
  }

  /** A successful update of the row in question spawns it, if its schedule is valid, and lets go of it;
      one of another row leaves it held. */
  lemma HeldRowUpdated(cron: Cron, max: int, s: State, id: nat, k: int)
    requires Inv(cron, s) && Holds(s, id, k)
    ensures var s' := Apply(cron, max, s, ProcessRow(false));
            && s'.poll == Some(s.poll.value.(next := s.poll.value.next + 1))
            && if k == s.poll.value.next then
                 && !Held(s', id)
                 && SpawnsOf(s'.spawned, id) ==
                    SpawnsOf(s.spawned, id) + (if Spawns(cron, s.poll.value.rows[k]) then 1 else 0)
               else
                 Holds(s', id, k) && SpawnsOf(s'.spawned, id) == SpawnsOf(s.spawned, id)
  {
    RowProcessed(cron, max, s, id);
    forall j | s.poll.value.next <= j < |s.poll.value.rows| ensures s.poll.value.rows[j].id == id ==> j == k {
      RowsDistinct(cron, s, j, k);
    }
    hide Inv, Apply, SpawnsOf, Spawns;
    var s' := Apply(cron, max, s, ProcessRow(false));
    forall j ensures Holds(s', id, j) ==> j == k {}
  }

  /** A failed update lets go of all rows. */
  lemma PollAborts(cron: Cron, max: int, s: State, id: nat)
    requires s.poll.Some? && s.poll.value.next < |s.poll.value.rows|
    ensures var s' := Apply(cron, max, s, ProcessRow(true));
            !Held(s', id) && s'.spawned == s.spawned
  {}

  lemma HeldRowWaits(cron: Cron, max: int, s: State, step: Step, id: nat, k: int)
    requires Holds(s, id, k) && !step.ProcessRow?
    ensures var s' := Apply(cron, max, s, step);
            s'.poll == s.poll && s'.spawned == s.spawned
  {}

  lemma {:induction false} HeldRunsIff(cron: Cron, max: int, s: State, more: seq<Step>, id: nat, k: int)
    requires Inv(cron, s) && FiresLater(cron) && Stopped(s, id) && Holds(s, id, k)
    ensures var s' := From(cron, max, s, more);
            && Stopped(s', id)
            && SpawnsOf(s'.spawned, id) == SpawnsOf(s.spawned, id) +
                 (if Spawns(cron, s.poll.value.rows[k]) && UpdateSucceeds(more, k - s.poll.value.next) then 1 else 0)
    decreases |more|
  {
    hide Inv, Apply, Stopped, Held, Spawns;
    if more != [] {
      var next := Apply(cron, max, s, more[0]);
      StoppedStays(cron, max, s, more[0], id);
      if more[0].ProcessRow? {
        if more[0].updateFails {
          PollAborts(cron, max, s, id);
          UnheldNeverRuns(cron, max, next, more[1..], id);
        } else {
          HeldRowUpdated(cron, max, s, id, k);
          if k == s.poll.value.next {
            UnheldNeverRuns(cron, max, next, more[1..], id);
          } else {
            HeldRunsIff(cron, max, next, more[1..], id, k);
          }
        }
      } else {
        HeldRowWaits(cron, max, s, more[0], id, k);
        HeldRunsIff(cron, max, next, more[1..], id, k);
      }
    }
  }

  /** After a delete, over every continuation of every run, the task is spawned again exactly once if the
      poll in progress holds an unprocessed row of it, with a valid schedule, whose update succeeds;
      otherwise never. */
  lemma DeletedRunsIff(cron: Cron, max: int, init: State, steps: seq<Step>, id: nat, user: string, more: seq<Step>)
    requires Fresh(init) && FiresLater(cron)
    requires var s := Run(cron, max, init, steps); id in s.tasks && s.tasks[id].user == user
    ensures var s := Run(cron, max, init, steps);
            var s' := Run(cron, max, init, steps + [Delete(id, user)] + more);
            && Stopped(s', id)
            && SpawnsOf(s'.spawned, id) == SpawnsOf(s.spawned, id) + (if RunsOnce(cron, s, id, more) then 1 else 0)
  {
    RunKeeps(cron, max, init, steps);
    RunIsFrom(cron, max, init, steps + [Delete(id, user)], more);
    RunIsFrom(cron, max, init, steps, [Delete(id, user)]);
    FromOne(cron, max, Run(cron, max, init, steps), Delete(id, user));
    hide Run, From, Inv, Stopped, SpawnsOf, RunsOnce, Apply;
    StoppedRunsIff(cron, max, Run(cron, max, init, steps), id, user, more);
  }

  lemma FromOne(cron: Cron, max: int, s: State, step: Step)
    ensures From(cron, max, s, [step]) == Apply(cron, max, s, step)
  {
    hide Apply;
    assert [step][1..] == [];
  }

  lemma StoppedRunsIff(cron: Cron, max: int, s: State, id: nat, user: string, more: seq<Step>)
    requires Inv(cron, s) && FiresLater(cron) && id in s.tasks && s.tasks[id].user == user
    ensures var s' := From(cron, max, Apply(cron, max, s, Delete(id, user)), more);
            && Stopped(s', id)
            && SpawnsOf(s'.spawned, id) == SpawnsOf(s.spawned, id) + (if RunsOnce(cron, s, id, more) then 1 else 0)
  {
    DeleteStops(cron, max, s, id);
    hide Inv, From, SpawnsOf, Apply, RunsOnce, Stopped, Spawns, UpdateSucceeds, Held;
    var deleted := Apply(cron, max, s, Delete(id, user));
    SamePollHolds(s, deleted, id);
    if Held(s, id) {
      var k := HeldRow(s, id);
      OneRowHeld(cron, s, id, k, more);
      HeldRunsIff(cron, max, deleted, more, id, k);
    } else {
      NoRowHeld(cron, s, id, more);
      UnheldNeverRuns(cron, max, deleted, more, id);
    }
  }

  lemma OneRowHeld(cron: Cron, s: State, id: nat, k: int, more: seq<Step>)
    requires Inv(cron, s) && Holds(s, id, k)
    ensures RunsOnce(cron, s, id, more) <==>
            Spawns(cron, s.poll.value.rows[k]) && UpdateSucceeds(more, k - s.poll.value.next)
  {
    forall j | Holds(s, id, j) ensures j == k {
      RowsDistinct(cron, s, j, k);
    }
    hide Inv;
  }

  lemma NoRowHeld(cron: Cron, s: State, id: nat, more: seq<Step>)
    requires !Held(s, id)
    ensures !RunsOnce(cron, s, id, more)
  {}

  lemma HeldRow(s: State, id: nat) returns (k: int)
    requires Held(s, id)
    ensures Holds(s, id, k)
  {
    k :| Holds(s, id, k);
  }

  lemma SamePollHolds(s: State, s': State, id: nat)
    requires s'.poll == s.poll
    ensures Held(s', id) <==> Held(s, id)
    ensures forall k :: Holds(s', id, k) <==> Holds(s, id, k)
  {
    forall k ensures Holds(s', id, k) <==> Holds(s, id, k) {}
  }

  lemma DeleteStops(cron: Cron, max: int, s: State, id: nat)
    requires Inv(cron, s) && FiresLater(cron) && id in s.tasks
    ensures var deleted := Apply(cron, max, s, Delete(id, s.tasks[id].user));
            Inv(cron, deleted) && Stopped(deleted, id) && deleted.poll == s.poll && deleted.spawned == s.spawned
  {
    StepKeeps(cron, max, s, Delete(id, s.tasks[id].user));
    hide Inv;
  }

  ghost predicate RunsOnce(cron: Cron, s: State, id: nat, more: seq<Step>) {
    exists k :: Holds(s, id, k) && Spawns(cron, s.poll.value.rows[k]) && UpdateSucceeds(more, k - s.poll.value.next)
  }

  // ---------------------------------------------------------------- one run per firing

  /** Whatever comes after spawn e of the same task comes due after e happened: the task itself, if it is
      still enabled, and the rows of it still to be processed. */
  ghost predicate LaterThan(s: State, e: Spawn) {
    && e.id in s.tasks
    && (s.tasks[e.id].enabled ==> e.at < s.tasks[e.id].runAt)
    && (s.poll.Some? ==>
          forall k :: s.poll.value.next <= k < |s.poll.value.rows| && s.poll.value.rows[k].id == e.id
                      ==> e.at < s.poll.value.rows[k].due)
  }

  ghost predicate FiringsApart(s: State) {
    && (forall i :: 0 <= i < |s.spawned| ==> LaterThan(s, s.spawned[i]))
    && (forall i, j :: 0 <= i < j < |s.spawned| && s.spawned[i].id == s.spawned[j].id
                       ==> s.spawned[i].at < s.spawned[j].due)
  }

  lemma LaterStays(cron: Cron, max: int, s: State, step: Step, e: Spawn)
    requires Inv(cron, s) && FiresLater(cron) && LaterThan(s, e) && e.at <= s.clock && !step.ProcessRow?
    ensures LaterThan(Apply(cron, max, s, step), e)
  {
    if step.StartPoll? {
      PollStartsLater(cron, max, s, step.now, step.order, e);
    } else {
      QuietStep(cron, max, s, step);
      hide Apply, Inv;
      assert Evolves(s.tasks, Apply(cron, max, s, step).tasks, e.id);
    }
  }

  lemma PollStartsLater(cron: Cron, max: int, s: State, now: int, order: seq<nat>, e: Spawn)
    requires LaterThan(s, e)
    ensures LaterThan(Apply(cron, max, s, StartPoll(now, order)), e)
  {
    var s' := Apply(cron, max, s, StartPoll(now, order));
    if s' != s {
      var rows := s'.poll.value.rows;
      forall k | 0 <= k < |rows| && rows[k].id == e.id ensures e.at < rows[k].due {
        assert order[k] in DueIds(s.tasks, now);
      }
    }
  }

  lemma RowLeavesLater(cron: Cron, max: int, s: State, e: Spawn)
    requires Inv(cron, s) && FiresLater(cron) && LaterThan(s, e) && e.at <= s.clock
    requires s.poll.Some? && s.poll.value.next < |s.poll.value.rows|
    ensures LaterThan(Apply(cron, max, s, ProcessRow(false)), e)
  {
    var row := s.poll.value.rows[s.poll.value.next];
    assert RowInv(s, s.poll.value, s.poll.value.next);
    var tasks := Rearm(cron, s.tasks, row, s.clock);
    assert tasks[e.id].enabled ==> e.at < tasks[e.id].runAt;
  }

  /** A row that is spawned comes due again, if at all, after the present. */
  lemma SpawnedRowIsLater(cron: Cron, max: int, s: State)
    requires Inv(cron, s) && FiresLater(cron)
    requires s.poll.Some? && s.poll.value.next < |s.poll.value.rows|
    ensures var row := s.poll.value.rows[s.poll.value.next];
            LaterThan(Apply(cron, max, s, ProcessRow(false)), Spawn(row.id, row.due, s.clock))
  {
    var p := s.poll.value;
    assert RowInv(s, p, p.next);
    forall k | p.next < k < |p.rows| ensures p.rows[k].id != p.rows[p.next].id {
      RowsDistinct(cron, s, k, p.next);
    }
  }

  lemma StepKeepsApart(cron: Cron, max: int, s: State, step: Step)
    requires Inv(cron, s) && FiresLater(cron) && FiringsApart(s)
    ensures FiringsApart(Apply(cron, max, s, step))
  {
    var s' := Apply(cron, max, s, step);
    forall i | 0 <= i < |s.spawned| ensures s.spawned[i].at <= s.clock {
      assert SpawnInv(cron, s, s.spawned[i]);
    }
    if step == ProcessRow(false) && s.poll.Some? && s.poll.value.next < |s.poll.value.rows| {
      RowKeepsApart(cron, max, s);
    } else if step.ProcessRow? {
      AbortKeepsApart(s);
    } else {
      QuietSpawns(cron, max, s, step);
      hide Apply, Inv, LaterThan;
      forall i | 0 <= i < |s'.spawned| ensures LaterThan(s', s'.spawned[i]) {
        LaterStays(cron, max, s, step, s.spawned[i]);
      }
    }
  }

  lemma QuietSpawns(cron: Cron, max: int, s: State, step: Step)
    requires !step.ProcessRow?
    ensures Apply(cron, max, s, step).spawned == s.spawned
  {}

  lemma AbortKeepsApart(s: State)
    requires FiringsApart(s)
    ensures FiringsApart(s.(poll := None))
  {
    var s' := s.(poll := None);
    forall i | 0 <= i < |s'.spawned| ensures LaterThan(s', s'.spawned[i]) {
      assert LaterThan(s, s.spawned[i]);
    }
  }

  lemma RowKeepsApart(cron: Cron, max: int, s: State)
    requires Inv(cron, s) && FiresLater(cron) && FiringsApart(s)
    requires s.poll.Some? && s.poll.value.next < |s.poll.value.rows|
    requires forall i :: 0 <= i < |s.spawned| ==> s.spawned[i].at <= s.clock
    ensures FiringsApart(Apply(cron, max, s, ProcessRow(false)))
  {
    var s' := Apply(cron, max, s, ProcessRow(false));
    var p := s.poll.value;
    var e := Spawn(p.rows[p.next].id, p.rows[p.next].due, s.clock);
    assert s'.spawned == s.spawned || s'.spawned == s.spawned + [e];
    SpawnedRowIsLater(cron, max, s);
    forall i | 0 <= i < |s.spawned| ensures s.spawned[i].id == e.id ==> s.spawned[i].at < e.due {
      assert LaterThan(s, s.spawned[i]);
    }
    hide Apply, Inv, LaterThan;
    forall i | 0 <= i < |s.spawned| ensures LaterThan(s', s.spawned[i]) {
      RowLeavesLater(cron, max, s, s.spawned[i]);
    }
  }

  /** Over every run, a task is spawned again only for a time after its last spawn: one run for each
      firing, of recurring tasks too. */
  lemma {:induction false} OneRunPerFiring(cron: Cron, max: int, init: State, steps: seq<Step>)
    requires Fresh(init) && FiresLater(cron)
    ensures var s := Run(cron, max, init, steps);
            forall i, j :: 0 <= i < j < |s.spawned| && s.spawned[i].id == s.spawned[j].id
                           ==> s.spawned[i].at < s.spawned[j].due
  {
    RunKeepsApart(cron, max, init, steps);
    hide Run;
  }

  lemma {:induction false} RunKeepsApart(cron: Cron, max: int, init: State, steps: seq<Step>)
    requires Fresh(init) && FiresLater(cron)
    ensures FiringsApart(Run(cron, max, init, steps))
  {
    hide Apply, FiringsApart, Inv;
    if steps == [] {
      NothingSpawned(init);
    } else {
      var n := |steps| - 1;
      RunKeepsApart(cron, max, init, steps[..n]);
      RunKeeps(cron, max, init, steps[..n]);
      StepKeepsApart(cron, max, Run(cron, max, init, steps[..n]), steps[n]);
    }
  }

  lemma NothingSpawned(s: State)
    requires s.spawned == []
    ensures FiringsApart(s)
  {}

  // ---------------------------------------------------------------- recurring tasks go on

  /** The step is the successful update of a row of the task. */
  predicate Processes(s: State, step: Step, id: nat) {
    && step == ProcessRow(false)
    && s.poll.Some? && s.poll.value.next < |s.poll.value.rows| && s.poll.value.rows[s.poll.value.next].id == id
  }

  /** The schedule recurs: it is valid and has a run after `t`. */
  predicate Recurs(cron: Cron, schedule: Option<string>, t: int) {
    schedule.Some? && cron.valid(schedule.value) && cron.next(schedule.value, t).Some?
  }

  predicate Rearms(cron: Cron, s: State, step: Step, id: nat) {
    id in s.tasks && Processes(s, step, id) && Recurs(cron, s.tasks[id].cron, s.clock)
  }

  /** Its owner deletes the task, or its row is processed and it does not recur. */
  predicate StopsTask(cron: Cron, s: State, step: Step, id: nat) {
    && id in s.tasks
    && (step == Delete(id, s.tasks[id].user) || (Processes(s, step, id) && !Recurs(cron, s.tasks[id].cron, s.clock)))
  }

  /** All that a step does to a task that exists: it disables it, re-arms it for its next firing, or
      records a run. */
  lemma WhatBecomesOfTask(cron: Cron, max: int, s: State, step: Step, id: nat)
    requires Inv(cron, s) && id in s.tasks
    ensures var s' := Apply(cron, max, s, step);
            && id in s'.tasks
            && s'.tasks[id].enabled == (s.tasks[id].enabled && !StopsTask(cron, s, step, id))
            && s'.tasks[id].runAt == (if Rearms(cron, s, step, id) then cron.next(s.tasks[id].cron.value, s.clock).value
                                      else s.tasks[id].runAt)
            && s'.tasks[id].lastRun == (if step == RecordRun(id) then Some(s.clock) else s.tasks[id].lastRun)
            && s'.tasks[id].user == s.tasks[id].user && s'.tasks[id].cron == s.tasks[id].cron
  {
    if step.ProcessRow? && s.poll.Some? && s.poll.value.next < |s.poll.value.rows| {
      assert RowInv(s, s.poll.value, s.poll.value.next);
    }
    hide PollInv, SpawnInv, SpawnedOnce;
  }

  /** One of the steps stops the task. */
  predicate Stops(cron: Cron, max: int, s: State, more: seq<Step>, id: nat)
    decreases |more|
  {
    more != [] && (StopsTask(cron, s, more[0], id) || Stops(cron, max, Apply(cron, max, s, more[0]), more[1..], id))
  }

  /** Over every continuation, a task is enabled to the end if and only if none of the steps stops it. */
  lemma {:induction false} EnabledUntilStopped(cron: Cron, max: int, s: State, more: seq<Step>, id: nat)
    requires Inv(cron, s) && FiresLater(cron) && id in s.tasks
    ensures var s' := From(cron, max, s, more);
            && id in s'.tasks && s'.tasks[id].user == s.tasks[id].user && s'.tasks[id].cron == s.tasks[id].cron
            && s'.tasks[id].enabled == (s.tasks[id].enabled && !Stops(cron, max, s, more, id))
    decreases |more|
  {
    hide Inv, Apply, StopsTask;
    if more != [] {
      WhatBecomesOfTask(cron, max, s, more[0], id);
      StepKeeps(cron, max, s, more[0]);
      EnabledUntilStopped(cron, max, Apply(cron, max, s, more[0]), more[1..], id);
    }
  }

  lemma {:induction false} OnlyDeleteStops(cron: Cron, max: int, s: State, more: seq<Step>, id: nat)
    requires Inv(cron, s) && FiresLater(cron) && id in s.tasks
    requires forall t :: Recurs(cron, s.tasks[id].cron, t)
    ensures Stops(cron, max, s, more, id) <==> Delete(id, s.tasks[id].user) in more
    decreases |more|
  {
    hide Inv, Apply, Recurs;
    if more != [] {
      WhatBecomesOfTask(cron, max, s, more[0], id);
      StepKeeps(cron, max, s, more[0]);
      OnlyDeleteStops(cron, max, Apply(cron, max, s, more[0]), more[1..], id);
      assert more == [more[0]] + more[1..];
    }
  }

  /** A task whose schedule always has a next run stays enabled, over every continuation of every run,
      unless its owner deletes it. */
  lemma RecurringTaskStaysOn(cron: Cron, max: int, init: State, steps: seq<Step>, more: seq<Step>, id: nat)
    requires Fresh(init) && FiresLater(cron)
    requires var s := Run(cron, max, init, steps);
             id in s.tasks && s.tasks[id].enabled && forall t :: Recurs(cron, s.tasks[id].cron, t)
    ensures var s := Run(cron, max, init, steps);
            var s' := Run(cron, max, init, steps + more);
            id in s'.tasks && (s'.tasks[id].enabled <==> Delete(id, s.tasks[id].user) !in more)
  {
    RunKeeps(cron, max, init, steps);
    RunIsFrom(cron, max, init, steps, more);
    var s := Run(cron, max, init, steps);
    hide Run, From, Inv, Stops, Recurs;
    OnlyDeleteStops(cron, max, s, more, id);
    EnabledUntilStopped(cron, max, s, more, id);
  }

  /** The run time of a task, after any continuation, is the firing that follows the last time one of
      its rows was processed while it recurred; if there was none, it is what it was. */
  lemma {:induction false} RunTimeIsNextFiring(cron: Cron, max: int, s: State, more: seq<Step>, id: nat)
    returns (k: int)
    requires Inv(cron, s) && FiresLater(cron) && id in s.tasks
    ensures -1 <= k < |more|
    ensures var s' := From(cron, max, s, more);
            && id in s'.tasks
            && (if k < 0 then s'.tasks[id].runAt == s.tasks[id].runAt
                else
                  var at := From(cron, max, s, more[..k]);
                  && Rearms(cron, at, more[k], id)
                  && s'.tasks[id].runAt == cron.next(at.tasks[id].cron.value, at.clock).value)
    ensures forall j :: k < j < |more| ==> !Rearms(cron, From(cron, max, s, more[..j]), more[j], id)
    decreases |more|
  {
    hide Inv, Apply;
    if more == [] {
      k := -1;
    } else {
      var next := Apply(cron, max, s, more[0]);
      WhatBecomesOfTask(cron, max, s, more[0], id);
      StepKeeps(cron, max, s, more[0]);
      k := RunTimeIsNextFiring(cron, max, next, more[1..], id);
      forall j: nat | j < |more[1..]|
        ensures From(cron, max, s, more[..j + 1]) == From(cron, max, next, more[1..][..j])
      {
        FromPrefix(cron, max, s, more, j);
      }
      hide From, StopsTask;
      if k >= 0 {
        k := k + 1;
      } else if Rearms(cron, s, more[0], id) {
        k := 0;
        FromNothing(cron, max, s, more[..0]);
      } else {
        FromNothing(cron, max, s, more[..0]);
      }
      forall j | k < j < |more| ensures !Rearms(cron, From(cron, max, s, more[..j]), more[j], id) {
        if j > 0 {
          assert more[1..][j - 1] == more[j];
        }
      }
    }
  }

  lemma FromPrefix(cron: Cron, max: int, s: State, more: seq<Step>, j: nat)
    requires j < |more|
    ensures From(cron, max, s, more[..j + 1]) == From(cron, max, Apply(cron, max, s, more[0]), more[1..][..j])
  {
    hide Apply;
    assert more[..j + 1][1..] == more[1..][..j];
  }

  lemma FromNothing(cron: Cron, max: int, s: State, more: seq<Step>)
    requires more == []
    ensures From(cron, max, s, more) == s
  {}

  // ---------------------------------------------------------------- what a poll selects and spawns

  /** A poll selects exactly the enabled tasks whose run time has come, each once, as they then are. */
  lemma PollSelectsDue(cron: Cron, max: int, s: State, now: int, order: seq<nat>, id: nat)
    requires s.poll.None? && now <= s.clock && Lists(order, DueIds(s.tasks, now))
    ensures var rows := Apply(cron, max, s, StartPoll(now, order)).poll.value.rows;
            && (id in s.tasks && s.tasks[id].enabled && s.tasks[id].runAt <= now <==>
                  exists k :: 0 <= k < |rows| && rows[k].id == id)
            && (forall row <- rows ::
                  row.id in s.tasks && row == Row(row.id, s.tasks[row.id].cron, s.tasks[row.id].runAt))
            && (forall j, k :: 0 <= j < k < |rows| ==> rows[j].id != rows[k].id)
  {
    var rows := Apply(cron, max, s, StartPoll(now, order)).poll.value.rows;
    assert id in DueIds(s.tasks, now) <==> id in s.tasks && s.tasks[id].enabled && s.tasks[id].runAt <= now;
    forall k | 0 <= k < |rows| ensures rows[k].id == order[k] && order[k] in s.tasks {
      assert order[k] in DueIds(s.tasks, now);
    }
    if id in DueIds(s.tasks, now) {
      var k :| 0 <= k < |order| && order[k] == id;
      assert rows[k].id == id;
    }
  }

  /** The rows to be spawned, with the times they were due: all but those with an invalid schedule. */
  function ToSpawn(cron: Cron, rows: seq<Row>): seq<(nat, int)> {
    if rows == [] then []
    else
      var n := |rows| - 1;
      var (id, schedule, due) := (rows[n].id, rows[n].cron, rows[n].due);
      ToSpawn(cron, rows[..n]) + (if schedule.None? || cron.valid(schedule.value) then [(id, due)] else [])
  }

  function SpawnedFor(spawned: seq<Spawn>): seq<(nat, int)> {
    seq(|spawned|, i requires 0 <= i < |spawned| => (spawned[i].id, spawned[i].due))
  }

  /** A row that is processed is spawned unless its schedule is invalid, one-shots too, and nothing else
      spawns anything. */
  lemma WhatSpawns(cron: Cron, max: int, s: State, step: Step)
    ensures var s' := Apply(cron, max, s, step);
            if step == ProcessRow(false) && s.poll.Some? && s.poll.value.next < |s.poll.value.rows| then
              var row := s.poll.value.rows[s.poll.value.next];
              s'.spawned == s.spawned + (if row.cron.None? || cron.valid(row.cron.value)
                                         then [Spawn(row.id, row.due, s.clock)] else [])
            else s'.spawned == s.spawned
  {
  }

  lemma ToSpawnSnoc(cron: Cron, rows: seq<Row>, n: nat)
    requires n < |rows|
    ensures ToSpawn(cron, rows[..n + 1]) ==
            ToSpawn(cron, rows[..n]) + (if rows[n].cron.None? || cron.valid(rows[n].cron.value)
                                        then [(rows[n].id, rows[n].due)] else [])
  {
    assert rows[..n + 1][..n] == rows[..n];
  }

  // ---------------------------------------------------------------- a request becomes a task

  /** Time passes with ticks, and never goes back. */
  lemma OnlyTicksMoveTheClock(cron: Cron, max: int, s: State, step: Step)
    ensures Apply(cron, max, s, step).clock == if step.Tick? && step.t > s.clock then step.t else s.clock
  {}

  /** A request is in flight from a count that accepts it, because it is valid and its user has fewer than
      the maximum of enabled tasks, until it is inserted or abandoned. */
  lemma InFlightIff(cron: Cron, max: int, s: State, step: Step, req: nat)
    ensures var s' := Apply(cron, max, s, step);
            && (req in s'.counted <==>
                  || (req in s.counted && step != Insert(req) && step != Abandon(req))
                  || (step.Count? && step.req == req && Validate(cron, s.clock, step.request).Ok?
                      && |set id <- s.tasks.Keys | s.tasks[id].user == step.request.user && s.tasks[id].enabled| < max))
            && (req in s.counted && req in s'.counted ==> s'.counted[req] == s.counted[req])
  {
    if step.Count? {
      assert EnabledOf(s.tasks, step.request.user) ==
             set id <- s.tasks.Keys | s.tasks[id].user == step.request.user && s.tasks[id].enabled;
    }
  }

  /** An accepted request, inserted whenever its turn comes, is an enabled task of its user that has not
      run, due at the first firing after it was checked or at the time it gave. */
  lemma RequestBecomesTask(cron: Cron, max: int, s: State, req: nat, r: Request, later: State)
    ensures var counted := Apply(cron, max, s, Count(req, r));
            var s' := Apply(cron, max, later, Insert(req));
            req !in s.counted && req in counted.counted && req in later.counted
            && later.counted[req] == counted.counted[req] ==>
              && s'.tasks == later.tasks[later.nextId := s'.tasks[later.nextId]]
              && req !in s'.counted
              && var task := s'.tasks[later.nextId];
                 && task.user == r.user && task.cron == r.cron && task.enabled && task.lastRun == None
                 && Some(task.runAt) == (if r.cron.Some? then cron.next(r.cron.value, s.clock) else r.runAt)
  {}
}
