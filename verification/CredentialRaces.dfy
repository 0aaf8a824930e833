/** Loads that overlap: between reading a row and storing the new token a load waits for the token
    endpoint (crates/credential-store/src/store.rs), and deletes and other loads may land there. */
module CredentialRaces {
  import opened Prelude
  import opened Credentials

  /** A row to be stored by a load that waits for its turn. */
  datatype Write = Write(id: Id, row: Row)

  datatype State = State(rows: Table, inFlight: map<nat, Write>)

  /** A load begins by reading the row and asking the endpoint; if that gives it a new token, it ends by
      storing it, unless it is abandoned before. */
  datatype Step = Begin(req: nat, load: Load) | Finish(req: nat) | Abandon(req: nat) | Delete(id: Id)

  function Apply(master: MasterKey, s: State, step: Step): State {
    match step
    case Begin(req, l) =>
      if req in s.inFlight || !Refreshes(master, s.rows, l) then s
      else s.(inFlight := s.inFlight[req := Write(l.id, RefreshedRow(master, s.rows, l))])
    case Finish(req) =>
      if req !in s.inFlight then s
      else
        var w := s.inFlight[req];
        State(s.rows[w.id := w.row], s.inFlight - {req})
    case Abandon(req) => s.(inFlight := s.inFlight - {req})
    case Delete(id) => s.(rows := s.rows - {id})
  }

  function From(master: MasterKey, s: State, steps: seq<Step>): State
    decreases |steps|
  {
    if steps == [] then s else From(master, Apply(master, s, steps[0]), steps[1..])
  }

  // ---------------------------------------------------------------- one load at a time

  function OneByOne(loads: seq<Load>): seq<Step> {
    if loads == [] then [] else OneByOne(loads[..|loads| - 1]) + [Begin(0, loads[|loads| - 1]), Finish(0)]
  }

  lemma {:induction false} FromConcat(master: MasterKey, s: State, a: seq<Step>, b: seq<Step>)
    ensures From(master, s, a + b) == From(master, From(master, s, a), b)
    decreases |a|
  {
    hide Apply;
    if a == [] {
      assert a + b == b;
    } else {
      assert (a + b)[1..] == a[1..] + b;
      FromConcat(master, Apply(master, s, a[0]), a[1..], b);
    }
  }

  /** Loads that do not overlap are the loads of a sequence. */
  lemma {:induction false} OneByOneIsAfterLoads(master: MasterKey, rows: Table, loads: seq<Load>)
    ensures From(master, State(rows, map[]), OneByOne(loads)) == State(AfterLoads(master, rows, loads), map[])
    decreases |loads|
  {
    if loads != [] {
      var n := |loads| - 1;
      var pair := [Begin(0, loads[n]), Finish(0)];
      OneByOneIsAfterLoads(master, rows, loads[..n]);
      FromConcat(master, State(rows, map[]), OneByOne(loads[..n]), pair);
      var s := State(AfterLoads(master, rows, loads[..n]), map[]);
      FromTwo(master, s, pair[0], pair[1]);
      BeginThenFinish(master, s, loads[n]);
    }
  }

  lemma FromTwo(master: MasterKey, s: State, first: Step, second: Step)
    ensures From(master, s, [first, second]) == Apply(master, Apply(master, s, first), second)
  {
    hide Apply;
    var s' := Apply(master, s, first);
    assert [first, second][1..] == [second] && [second][1..] == [];
    assert From(master, s', [second]) == From(master, Apply(master, s', second), []);
  }

  lemma BeginThenFinish(master: MasterKey, s: State, l: Load)
    requires s.inFlight == map[]
    ensures Apply(master, Apply(master, s, Begin(0, l)), Finish(0)) == State(AfterLoad(master, s.rows, l), map[])
  {}

  // ---------------------------------------------------------------- what overlapping loads preserve

  /** The row is a descendant of the one first stored: same scopes, a refresh token if there was one, a
      usable one if it was usable, and unchanged if it is a service account. */
  ghost predicate Descends(master: MasterKey, init: Table, id: Id, row: Row) {
    && id in init
    && row.scopes == init[id].scopes
    && (init[id].refreshToken.Some? ==> row.refreshToken.Some?)
    && (HoldsRefreshToken(master, init, id) ==> HoldsRefreshToken(master, map[id := row], id))
    && (ServiceAccount(init[id]) ==> row == init[id])
  }

  ghost predicate Inv(master: MasterKey, init: Table, s: State) {
    && (forall id <- s.rows.Keys :: Descends(master, init, id, s.rows[id]))
    && (forall req <- s.inFlight.Keys :: Descends(master, init, s.inFlight[req].id, s.inFlight[req].row))
  }

  ghost predicate SaltsDrawn(steps: seq<Step>) {
    forall i :: 0 <= i < |steps| ==> SaltDrawn(steps[i])
  }

  predicate SaltDrawn(step: Step) {
    step.Begin? ==> |step.load.draw.salt| == 32
  }

  lemma RefreshDescends(master: MasterKey, init: Table, rows: Table, l: Load)
    requires |l.draw.salt| == 32 && Refreshes(master, rows, l)
    requires l.id in rows && Descends(master, init, l.id, rows[l.id])
    ensures Descends(master, init, l.id, RefreshedRow(master, rows, l))
  {
    RefreshKeeps(master, rows, l);
    hide Refreshes, RefreshedRow, DecryptRow;
  }

  lemma StepKeeps(master: MasterKey, init: Table, s: State, step: Step)
    requires Inv(master, init, s) && SaltDrawn(step)
    ensures Inv(master, init, Apply(master, s, step))
  {
    hide Descends, Refreshes, RefreshedRow;
    if step.Begin? && Refreshes(master, s.rows, step.load) && step.req !in s.inFlight {
      RefreshNeedsRow(master, s.rows, step.load);
      RefreshDescends(master, init, s.rows, step.load);
    }
  }

  lemma RefreshNeedsRow(master: MasterKey, rows: Table, l: Load)
    requires Refreshes(master, rows, l)
    ensures l.id in rows
  {}

  /** However loads, their ends and deletes interleave: no row appears that was not there, and a row that
      is there has the scopes it began with, has not lost its refresh token, and is unchanged if it is a
      service account. Only that deleted rows stay away is lost. */
  lemma {:induction false} RacesPreserve(master: MasterKey, init: Table, s: State, steps: seq<Step>)
    requires Inv(master, init, s) && SaltsDrawn(steps)
    ensures Inv(master, init, From(master, s, steps))
    decreases |steps|
  {
    hide Apply, Inv;
    if steps != [] {
      assert SaltDrawn(steps[0]);
      StepKeeps(master, init, s, steps[0]);
      forall i | 0 <= i < |steps[1..]| ensures SaltDrawn(steps[1..][i]) {
        assert SaltDrawn(steps[i + 1]);
      }
      RacesPreserve(master, init, Apply(master, s, steps[0]), steps[1..]);
    }
  }

  lemma StartIsInv(master: MasterKey, init: Table)
    ensures Inv(master, init, State(init, map[]))
  {
    forall id <- init.Keys ensures Descends(master, init, id, init[id]) {}
  }

  // ---------------------------------------------------------------- deletes that are undone

  /** The loads of `id` that wait to store. */
  function WaitingFor(s: State, id: Id): set<nat> {
    set req <- s.inFlight.Keys | s.inFlight[req].id == id
  }

  /** One of the waiting loads comes to its end. */
  predicate OneFinishes(waiting: set<nat>, steps: seq<Step>) {
    steps != [] &&
    match steps[0]
    case Finish(req) => req in waiting || OneFinishes(waiting, steps[1..])
    case Abandon(req) => OneFinishes(waiting - {req}, steps[1..])
    case _ => OneFinishes(waiting, steps[1..])
  }

  lemma PresentStays(master: MasterKey, s: State, step: Step, id: Id)
    requires id in s.rows && step != Delete(id)
    ensures id in Apply(master, s, step).rows
  {}

  lemma {:induction false} PresentStaysOn(master: MasterKey, s: State, steps: seq<Step>, id: Id)
    requires id in s.rows && Delete(id) !in steps
    ensures id in From(master, s, steps).rows
    decreases |steps|
  {
    hide Apply;
    if steps != [] {
      PresentStays(master, s, steps[0], id);
      PresentStaysOn(master, Apply(master, s, steps[0]), steps[1..], id);
    }
  }

  lemma AbsentStep(master: MasterKey, s: State, step: Step, id: Id)
    requires id !in s.rows
    ensures var s' := Apply(master, s, step);
            if step.Finish? && step.req in WaitingFor(s, id) then id in s'.rows
            else id !in s'.rows && WaitingFor(s', id) == WaitingFor(s, id) - (if step.Abandon? then {step.req} else {})
  {
    if step.Begin? && Refreshes(master, s.rows, step.load) {
      RefreshNeedsRow(master, s.rows, step.load);
    }
    hide Refreshes, RefreshedRow;
  }

  /** A row that has been deleted is back, if it is not deleted again, exactly if a load that was waiting
      when it went comes to its end. */
  lemma {:induction false} DeleteUndoneIff(master: MasterKey, s: State, id: Id, steps: seq<Step>)
    requires id !in s.rows && Delete(id) !in steps
    ensures id in From(master, s, steps).rows <==> OneFinishes(WaitingFor(s, id), steps)
    decreases |steps|
  {
    hide Apply, WaitingFor;
    if steps != [] {
      var s' := Apply(master, s, steps[0]);
      AbsentStep(master, s, steps[0], id);
      if id in s'.rows {
        PresentStaysOn(master, s', steps[1..], id);
      } else {
        DeleteUndoneIff(master, s', id, steps[1..]);
        assert WaitingFor(s, id) - {} == WaitingFor(s, id);
      }
    }
  }

  // ---------------------------------------------------------------- loads that refresh twice

  /** Two overlapping loads of one expired row both refresh it, with the same refresh token, however long
      the new tokens live; the one that ends last is kept. */
  lemma OverlappingLoadsRefreshTwice(master: MasterKey, rows: Table, first: Load, second: Load)
    requires Refreshes(master, rows, first) && Refreshes(master, rows, second) && first.id == second.id
    ensures OldRefreshToken(master, rows, first) == OldRefreshToken(master, rows, second)
    ensures From(master, State(rows, map[]), [Begin(0, first), Begin(1, second), Finish(0), Finish(1)]).rows ==
            rows[first.id := RefreshedRow(master, rows, second)]
  {
    hide RefreshedRow, Refreshes;
    FromConcat(master, State(rows, map[]), [Begin(0, first), Begin(1, second)], [Finish(0), Finish(1)]);
    assert [Begin(0, first), Begin(1, second)] + [Finish(0), Finish(1)]
        == [Begin(0, first), Begin(1, second), Finish(0), Finish(1)];
    FromTwo(master, State(rows, map[]), Begin(0, first), Begin(1, second));
    var s := From(master, State(rows, map[]), [Begin(0, first), Begin(1, second)]);
    FromTwo(master, s, Finish(0), Finish(1));
    var (w, w') := (RefreshedRow(master, rows, first), RefreshedRow(master, rows, second));
    assert s == State(rows, map[0 := Write(first.id, w), 1 := Write(first.id, w')]);
    assert rows[first.id := w][first.id := w'] == rows[first.id := w'];
  }
}
