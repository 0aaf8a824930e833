/** `Scheduler::poll_once` and the task handlers updating the table in place
    (crates/edgeclaw-server/src/scheduler.rs, handlers.rs). Every poll is a run of `Scheduler`'s steps. */
module SchedulerService {
  import opened Prelude
  import opened Scheduler

  /** Steps other tasks of the server may take while a poll waits for the database. */
  predicate Handler(step: Step) {
    !step.StartPoll? && !step.ProcessRow? && !step.FinishPoll?
  }

  predicate OnlyHandlers(steps: seq<Step>) {
    forall i :: 0 <= i < |steps| ==> Handler(steps[i])
  }

  lemma RunAppend(cron: Cron, max: int, init: State, steps: seq<Step>, step: Step)
    ensures Run(cron, max, init, steps + [step]) == Apply(cron, max, Run(cron, max, init, steps), step)
  {
    assert (steps + [step])[..|steps|] == steps;
  }

  lemma StartPollSnapshots(cron: Cron, max: int, s: State, now: int, order: seq<nat>)
    requires s.poll == None && now <= s.clock && Lists(order, DueIds(s.tasks, now))
    ensures Apply(cron, max, s, StartPoll(now, order)) ==
            s.(poll := Some(Poll(now, Snapshot(s.tasks, order), 0, s.tasks.Keys)))
  {}

  lemma ProcessRowRearms(cron: Cron, max: int, s: State, updateFails: bool)
    requires s.poll.Some? && s.poll.value.next < |s.poll.value.rows|
    ensures var p := s.poll.value;
            var row := p.rows[p.next];
            Apply(cron, max, s, ProcessRow(updateFails)) ==
              if updateFails then s.(poll := None)
              else s.(tasks := Rearm(cron, s.tasks, row, s.clock), poll := Some(p.(next := p.next + 1)),
                      spawned := if Spawns(cron, row) then s.spawned + [Spawn(row.id, row.due, s.clock)] else s.spawned)
  {}

  lemma FinishPollSettles(cron: Cron, max: int, s: State)
    requires Inv(cron, s) && s.poll.Some? && s.poll.value.next == |s.poll.value.rows|
    ensures Apply(cron, max, s, FinishPoll) == s.(poll := None)
    ensures NoneDue(s.tasks, s.poll.value.known, s.poll.value.now)
  {
    forall id <- s.poll.value.known
      ensures id in s.tasks && (s.tasks[id].enabled ==> s.tasks[id].runAt > s.poll.value.now)
    {
      assert Settled(s, s.poll.value, id);
    }
  }

  /** No task of `ids` is due at `now`. */
  ghost predicate NoneDue(tasks: map<nat, Task>, ids: set<nat>, now: int) {
    forall id <- ids :: id in tasks && (tasks[id].enabled ==> tasks[id].runAt > now)
  }

  /** All of the ids are tasks. */
  predicate Snapshotted(tasks: map<nat, Task>, order: seq<nat>) {
    forall i :: 0 <= i < |order| ==> order[i] in tasks
  }

  lemma SpawnedForRow(cron: Cron, before: seq<Spawn>, after: seq<Spawn>, row: Row, clock: int)
    requires after == if row.cron.None? || cron.valid(row.cron.value) then before + [Spawn(row.id, row.due, clock)]
                      else before
    ensures SpawnedFor(after) == SpawnedFor(before) + if row.cron.None? || cron.valid(row.cron.value)
                                                      then [(row.id, row.due)] else []
  {}

  lemma NothingToSpawn(cron: Cron, rows: seq<Row>)
    requires rows == []
    ensures ToSpawn(cron, rows) == []
  {}

  lemma CountOneMore(mine: set<nat>, seen: set<nat>, id: nat)
    requires id !in seen
    ensures |mine * (seen + {id})| == |mine * seen| + (if id in mine then 1 else 0)
  {
    assert mine * (seen + {id}) == mine * seen + (if id in mine then {id} else {});
  }

  class Service {
    const cron: Cron
    const max: int
    var tasks: map<nat, Task>
    var nextId: nat
    var clock: int
    var spawned: seq<Spawn>
    var counted: map<nat, Accepted>
    ghost var poll: Option<Poll>

    ghost function View(): State
      reads this
    {
      State(tasks, nextId, clock, poll, spawned, counted)
    }

    constructor (cron: Cron, max: int)
      ensures this.cron == cron && this.max == max && Fresh(View()) && tasks == map[]
    {
      this.cron := cron;
      this.max := max;
      tasks, nextId, clock, spawned, counted, poll := map[], 0, 0, [], map[], None;
    }

    method DisableTask(id: nat)
      modifies this`tasks
      ensures tasks == Disable(old(tasks), id)
    {
      if id in tasks {
        tasks := tasks[id := tasks[id].(enabled := false)];
      }
    }

    /** The COUNT of the schedule handler. */
    method CountEnabled(user: string) returns (n: nat)
      ensures n == |EnabledOf(tasks, user)|
    {
      n := 0;
      var left := tasks.Keys;
      ghost var mine, seen: set<nat> := EnabledOf(tasks, user), {};
      while left != {}
        invariant left + seen == tasks.Keys && left !! seen
        invariant n == |mine * seen|
        decreases left
      {
        var id :| id in left;
        CountOneMore(mine, seen, id);
        if tasks[id].user == user && tasks[id].enabled {
          n := n + 1;
        }
        left, seen := left - {id}, seen + {id};
      }
      assert mine * tasks.Keys == mine;
      assert seen == tasks.Keys;
    }

    /** One handler step. */
    method Handle(step: Step)
      requires Handler(step)
      modifies this
      ensures View() == Apply(cron, max, old(View()), step)
      ensures poll == old(poll) && spawned == old(spawned) && clock >= old(clock)
    {
      match step {
        case Tick(t) =>
          if t >= clock {
            clock := t;
          }
        case RecordRun(id) =>
          if id in tasks {
            tasks := tasks[id := tasks[id].(lastRun := Some(clock))];
          }
        case Delete(id, user) =>
          if id in tasks && tasks[id].user == user && tasks[id].enabled {
            DisableTask(id);
          }
        case Count(req, request) =>
          var accepted := Validate(cron, clock, request);
          if req !in counted && accepted.Ok? {
            var n := CountEnabled(request.user);
            if n < max {
              counted := counted[req := accepted.value];
            }
          }
        case Insert(req) =>
          if req in counted {
            var a := counted[req];
            tasks := tasks[nextId := Task(a.user, a.cron, a.runAt, true, None)];
            nextId := nextId + 1;
            counted := counted - {req};
          }
        case Abandon(req) =>
          counted := counted - {req};
      }
    }

    /** Re-arm or disable, then spawn. */
    method RunRow(row: Row)
      modifies this`tasks, this`spawned
      ensures tasks == Rearm(cron, old(tasks), row, clock)
      ensures tasks.Keys == old(tasks).Keys && forall id <- tasks.Keys :: id != row.id ==> tasks[id] == old(tasks)[id]
      ensures row.id in tasks ==>
                var recurs := row.cron.Some? && cron.valid(row.cron.value) && cron.next(row.cron.value, clock).Some?;
                tasks[row.id] == if recurs then old(tasks)[row.id].(runAt := cron.next(row.cron.value, clock).value)
                                 else old(tasks)[row.id].(enabled := false)
      ensures spawned == if row.cron.None? || cron.valid(row.cron.value)
                         then old(spawned) + [Spawn(row.id, row.due, clock)] else old(spawned)
    {
      if row.cron.Some? {
        var expr := row.cron.value;
        if cron.valid(expr) {
          var next := cron.next(expr, clock);
          if next.Some? {
            if row.id in tasks {
              tasks := tasks[row.id := tasks[row.id].(runAt := next.value)];
            }
          } else {
            DisableTask(row.id);
          }
        } else {
          DisableTask(row.id);
          return;
        }
      } else {
        DisableTask(row.id);
      }
      spawned := spawned + [Spawn(row.id, row.due, clock)];
    }

    /** `early` are the handler steps that land between the clock reading and the query,
        `interference(i)` those that land before row i, and `fails(i)` says that the update of row i
        fails. Whatever they are, the poll is a run of scheduler steps; and if it succeeds, no task
        that existed at its query is still due at its clock reading. */
    method PollOnce(order: seq<nat>, early: seq<Step>, interference: nat -> seq<Step>, fails: nat -> bool)
      returns (ok: bool, ghost steps: seq<Step>)
      requires Inv(cron, View()) && FiresLater(cron) && poll == None && OnlyHandlers(early)
      requires Lists(order, DueIds(Run(cron, max, View(), early).tasks, clock))
      requires forall i :: OnlyHandlers(interference(i))
      modifies this
      ensures View() == Run(cron, max, old(View()), steps)
      ensures Inv(cron, View()) && poll == None
      ensures ok <==> forall i: nat :: i < |order| ==> !fails(i)
      ensures var known := Run(cron, max, old(View()), early).tasks;
              && old(spawned) <= spawned
              && (ok ==> NoneDue(tasks, known.Keys, old(clock)) && Snapshotted(known, order)
                         && SpawnedFor(spawned) ==
                            SpawnedFor(old(spawned)) + ToSpawn(cron, Snapshot(known, order)))
    {
      hide Inv, Apply, Lists, OnlyHandlers, NoneDue, ToSpawn, SpawnedFor;
      ghost var init := View();
      var now := clock;
      steps := HandleAll(early, init, []);
      assert [] + early == early;
      var rows;
      rows, steps := TakeSnapshot(now, order, init, early);
      ok, steps := ProcessAll(rows, interference, fails, init, steps);
      if !ok {
        return;
      }
      FinishPollSettles(cron, max, View());
      StepKeeps(cron, max, View(), FinishPoll);
      RunAppend(cron, max, init, steps, FinishPoll);
      steps := steps + [FinishPoll];
      poll := None;
    }

    /** The loop over the rows of a poll; it ends at the first update that fails. */
    method ProcessAll(rows: seq<Row>, interference: nat -> seq<Step>, fails: nat -> bool, ghost init: State,
                      ghost before: seq<Step>)
      returns (ok: bool, ghost steps: seq<Step>)
      requires Inv(cron, View()) && FiresLater(cron) && View() == Run(cron, max, init, before)
      requires poll.Some? && poll.value.rows == rows && poll.value.next == 0
      requires forall i :: OnlyHandlers(interference(i))
      modifies this
      ensures Inv(cron, View()) && View() == Run(cron, max, init, steps)
      ensures ok <==> forall i: nat :: i < |rows| ==> !fails(i)
      ensures poll == if ok then Some(old(poll).value.(next := |rows|)) else None
      ensures ok ==> SpawnedFor(spawned) == SpawnedFor(old(spawned)) + ToSpawn(cron, rows)
      ensures old(spawned) <= spawned
    {
      hide Inv, Apply, OnlyHandlers, ToSpawn, SpawnedFor;
      steps := before;
      ghost var p := poll.value;
      NothingToSpawn(cron, rows[..0]);
      for i := 0 to |rows|
        invariant poll == Some(p.(next := i))
        invariant View() == Run(cron, max, init, steps) && Inv(cron, View())
        invariant forall k: nat :: k < i ==> !fails(k)
        invariant old(spawned) <= spawned
        invariant SpawnedFor(spawned) == SpawnedFor(old(spawned)) + ToSpawn(cron, rows[..i])
      {
        ToSpawnSnoc(cron, rows, i);
        steps := HandleAll(interference(i), init, steps);
        ghost var earlier := spawned;
        steps := ProcessNext(rows[i], fails(i), init, steps);
        if fails(i) {
          return false, steps;
        }
        SpawnedForRow(cron, earlier, spawned, rows[i], clock);
      }
      assert rows[..|rows|] == rows;
      ok := true;
    }

    /** The query of a poll. */
    method TakeSnapshot(now: int, order: seq<nat>, ghost init: State, ghost before: seq<Step>)
      returns (rows: seq<Row>, ghost steps: seq<Step>)
      requires Inv(cron, View()) && poll == None && now <= clock && Lists(order, DueIds(tasks, now))
      requires View() == Run(cron, max, init, before)
      modifies this`poll
      ensures Snapshotted(tasks, order) && rows == Snapshot(tasks, order)
      ensures |rows| == |order| && poll == Some(Poll(now, rows, 0, tasks.Keys))
      ensures Inv(cron, View()) && View() == Run(cron, max, init, steps)
    {
      hide Inv, Apply;
      ghost var s := View();
      rows := Snapshot(tasks, order);
      steps := before + [StartPoll(now, order)];
      RunAppend(cron, max, init, before, StartPoll(now, order));
      StartPollSnapshots(cron, max, s, now, order);
      StartPollKeeps(cron, max, s, now, order);
      poll := Some(Poll(now, rows, 0, tasks.Keys));
    }

    /** The update of one row, and its spawn; a failed update ends the poll. */
    method ProcessNext(row: Row, updateFails: bool, ghost init: State,
                       ghost before: seq<Step>) returns (ghost steps: seq<Step>)
      requires Inv(cron, View()) && FiresLater(cron)
      requires poll.Some? && poll.value.next < |poll.value.rows| && row == poll.value.rows[poll.value.next]
      requires View() == Run(cron, max, init, before)
      modifies this`tasks, this`spawned, this`poll
      ensures spawned == if !updateFails && (row.cron.None? || cron.valid(row.cron.value))
                         then old(spawned) + [Spawn(row.id, row.due, clock)] else old(spawned)
      ensures Inv(cron, View()) && View() == Run(cron, max, init, steps)
      ensures poll == if updateFails then None else Some(old(poll).value.(next := old(poll).value.next + 1))
    {
      hide Inv, Apply, Rearm;
      ProcessRowRearms(cron, max, View(), updateFails);
      StepKeeps(cron, max, View(), ProcessRow(updateFails));
      RunAppend(cron, max, init, before, ProcessRow(updateFails));
      steps := before + [ProcessRow(updateFails)];
      if updateFails {
        poll := None;
      } else {
        RunRow(row);
        poll := Some(poll.value.(next := poll.value.next + 1));
      }
    }

    method HandleAll(todo: seq<Step>, ghost init: State, ghost before: seq<Step>) returns (ghost steps: seq<Step>)
      requires OnlyHandlers(todo) && Inv(cron, View()) && FiresLater(cron)
      requires View() == Run(cron, max, init, before)
      modifies this
      ensures poll == old(poll) && spawned == old(spawned) && Inv(cron, View()) && clock >= old(clock)
      ensures steps == before + todo && View() == Run(cron, max, init, steps)
    {
      hide Inv, Apply;
      steps := before;
      for i := 0 to |todo|
        invariant poll == old(poll) && spawned == old(spawned) && Inv(cron, View()) && clock >= old(clock)
        invariant steps == before + todo[..i] && View() == Run(cron, max, init, steps)
      {
        assert Handler(todo[i]);
        StepKeeps(cron, max, View(), todo[i]);
        RunAppend(cron, max, init, steps, todo[i]);
        Handle(todo[i]);
        steps := steps + [todo[i]];
      }
    }
  }
}
