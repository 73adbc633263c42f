/**
 The benchmark service over its store: the requests, and the boot that puts back what earlier boots stopped.
 */
module BenchService {
  import opened Options
  import opened BenchRuns
  import opened BenchSafety
  import opened BenchCancel
  import opened Sweep

  datatype Answer = Accepted | NotFound | Refused

  /** A request for a run: whether its sweep is valid, and how many values each axis has. */
  datatype Request = Request(valid: bool, repetitions: int, counts: seq<nat>, stopAndRestore: bool, draft: bool)

  /** What the request meets: settings, the model, the runtime, and how many loaded instances are in the way. */
  datatype Host = Host(
    defaultRepetitions: int, fleet: bool, modelReady: bool, runtimeReady: bool, exclusive: bool, conflicts: nat)

  datatype Created = BadSweep | TooLarge | NoFleet | ModelMissing | NoRuntime | Conflict | Ok(repetitions: int)

  const MAX_REPETITIONS := 25

  function Repetitions(req: Request, host: Host): (reps: int)
    ensures reps >= 1
  {
    if req.repetitions > 0 then req.repetitions else if host.defaultRepetitions > 0 then host.defaultRepetitions else 1
  }

  predicate Fits(req: Request, host: Host) {
    && Repetitions(req, host) <= MAX_REPETITIONS
    && (forall i :: 0 <= i < |req.counts| ==> req.counts[i] <= MAX_VALUES) && Total(Sizes(req.counts)) <= MAX_POINTS
  }

  /** The first thing in the way of a request. */
  function Verdict(req: Request, host: Host): Created {
    if !req.valid then BadSweep
    else if !Fits(req, host) then TooLarge
    else if req.stopAndRestore && !host.fleet then NoFleet
    else if !host.modelReady then ModelMissing
    else if !host.runtimeReady then NoRuntime
    else if host.exclusive && host.conflicts > 0 && !req.stopAndRestore then Conflict
    else Ok(Repetitions(req, host))
  }

  /** A small sweep, on a host that has what it needs, and beside no loaded instance unless it may stop that. */
  predicate Grantable(req: Request, host: Host) {
    && req.valid && req.repetitions <= 25 && (req.repetitions <= 0 ==> host.defaultRepetitions <= 25)
    && (forall i :: 0 <= i < |req.counts| ==> req.counts[i] <= 16) && Total(Sizes(req.counts)) <= 512
    && (req.stopAndRestore ==> host.fleet) && host.modelReady && host.runtimeReady
    && (host.exclusive && host.conflicts > 0 ==> req.stopAndRestore)
  }

  lemma {:induction false} VerdictIs(req: Request, host: Host)
    ensures Verdict(req, host).Ok? <==> Grantable(req, host)
    ensures Verdict(req, host).Ok? ==>
      Verdict(req, host).repetitions == if req.repetitions > 0 then req.repetitions
                                        else if host.defaultRepetitions > 0 then host.defaultRepetitions else 1
  {
  }

  lemma {:induction false} OneMoreRow(points: seq<Point>, run: Id, n: nat)
    ensures (points + PointRows(run, n)) + [Point(run, n)] == points + PointRows(run, n + 1)
  {
  }

  // ---------------------------------------------------------------- one restore, and its steps

  /** The instances are started in order, up to the first one that cannot be. */
  function RestartAll(down: map<Id, Id>, ids: seq<Id>, failing: set<Id>): map<Id, Id> {
    if ids == [] || ids[0] in failing then down else RestartAll(down - {ids[0]}, ids[1..], failing)
  }

  predicate AllStart(ids: seq<Id>, failing: set<Id>) { forall i :: i in ids ==> i !in failing }

  function Restored(w: World, run: Id, failing: set<Id>): World {
    if !OwesRestore(w, run) then w
    else
      var ids := w.runs[run].stopped.value;
      var v := w.(stoppedBy := RestartAll(w.stoppedBy, ids, failing));
      if AllStart(ids, failing) then v.(runs := w.runs[run := w.runs[run].(restored := true)]) else v
  }

  /** `up` of the list were started, all if the restore went well, and the first of the others cannot be. */
  ghost predicate Started(was: map<Id, Id>, now: map<Id, Id>, ids: seq<Id>, failing: set<Id>, ok: bool) {
    exists up: nat ::
      && up <= |ids| && (forall m :: 0 <= m < up ==> ids[m] !in failing) && (up < |ids| ==> ids[up] in failing)
      && (ok <==> up == |ids|) && now == map i | i in was && i !in ids[..up] :: was[i]
  }

  lemma {:induction false} StartedIs(down: map<Id, Id>, ids: seq<Id>, failing: set<Id>)
    ensures Started(down, RestartAll(down, ids, failing), ids, failing, AllStart(ids, failing))
  {
    var up := StartsUpToFailure(down, ids, failing);
    if up < |ids| { assert ids[up] in ids; }
  }

  /** The run is marked restored without anything being started. */
  function GivenUp(w: World, run: Id): World {
    if !OwesRestore(w, run) then w else w.(runs := w.runs[run := w.runs[run].(restored := true)])
  }

  /** That keeps the invariant exactly if nothing the run stopped is down: a list must be readable when it is needed. */
  lemma {:induction false} GivingUpLosesExactly(w: World, run: Id)
    requires Inv(w) && w.acts == map[] && OwesRestore(w, run)
    ensures Inv(GivenUp(w, run)) <==> forall i :: i in w.stoppedBy ==> w.stoppedBy[i] != run
  {
    var v := GivenUp(w, run);
    if i :| i in w.stoppedBy && w.stoppedBy[i] == run {
      assert !Listed(v, i, v.stoppedBy[i]);
    } else {
      forall i | i in w.stoppedBy ensures Listed(v, i, v.stoppedBy[i]) { assert Listed(w, i, w.stoppedBy[i]); }
    }
  }

  function RestartSteps(actor: Actor, ids: seq<Id>, failing: set<Id>): seq<Action> {
    if ids == [] then [Mark(actor)]
    else if ids[0] in failing then [GiveUp(actor)]
    else [Restart(actor, false)] + RestartSteps(actor, ids[1..], failing)
  }

  /** After a restore: what it could start is up, and its run is settled exactly if that was everything. */
  function AfterRestore(w: World, actor: Actor, run: Id, ids: seq<Id>, failing: set<Id>): World
    requires run in w.runs
  {
    w.(acts := if actor == Boot then w.acts - {Boot} else w.acts[actor := Activity(run, Closing)],
       stoppedBy := RestartAll(w.stoppedBy, ids, failing),
       runs := if AllStart(ids, failing) then w.runs[run := w.runs[run].(restored := true)] else w.runs)
  }

  lemma {:induction false} LastRestart(w: World, actor: Actor, run: Id, rest: seq<Id>, failing: set<Id>)
    requires run in w.runs && actor in w.acts && w.acts[actor] == Activity(run, Restoring(rest))
    requires rest == [] || rest[0] in failing
    ensures Step(w, if rest == [] then Mark(actor) else GiveUp(actor)) == AfterRestore(w, actor, run, rest, failing)
  {
  }

  lemma {:induction false} OneRestart(w: World, actor: Actor, run: Id, rest: seq<Id>, failing: set<Id>)
    requires run in w.runs && actor in w.acts && w.acts[actor] == Activity(run, Restoring(rest))
    requires rest != [] && rest[0] !in failing
    ensures var next := Step(w, Restart(actor, false));
      && next.acts == w.acts[actor := Activity(run, Restoring(rest[1..]))] && next.runs == w.runs
      && AfterRestore(next, actor, run, rest[1..], failing) == AfterRestore(w, actor, run, rest, failing)
  {
    var next := Step(w, Restart(actor, false));
    assert next == w.(stoppedBy := w.stoppedBy - {rest[0]}, acts := w.acts[actor := Activity(run, Restoring(rest[1..]))]);
    assert AllStart(rest, failing) <==> AllStart(rest[1..], failing);
    assert actor == Boot ==> next.acts - {Boot} == w.acts - {Boot};
    assert next.acts[actor := Activity(run, Closing)] == w.acts[actor := Activity(run, Closing)];
  }

  /** Whoever carries it out, a restore is these steps. */
  lemma {:induction false} RestartsAreSteps(w: World, actor: Actor, run: Id, rest: seq<Id>, failing: set<Id>)
    requires run in w.runs && actor in w.acts && w.acts[actor] == Activity(run, Restoring(rest))
    ensures After(w, RestartSteps(actor, rest, failing)) == AfterRestore(w, actor, run, rest, failing)
    decreases |rest|
  {
    var steps := RestartSteps(actor, rest, failing);
    if rest == [] || rest[0] in failing {
      LastRestart(w, actor, run, rest, failing);
      assert steps[1..] == [];
    } else {
      OneRestart(w, actor, run, rest, failing);
      assert steps[1..] == RestartSteps(actor, rest[1..], failing);
      RestartsAreSteps(Step(w, Restart(actor, false)), actor, run, rest[1..], failing);
    }
  }

  /** A restore at boot is a run of the machine, so it keeps what every run keeps. */
  lemma {:induction false} RestoreIsARun(w: World, run: Id, failing: set<Id>)
    requires Inv(w) && !w.serving && w.acts == map[]
    ensures Inv(Restored(w, run, failing))
    ensures OwesRestore(w, run) ==>
      Restored(w, run, failing) == After(w, [Recover(run)] + RestartSteps(Boot, w.runs[run].stopped.value, failing))
  {
    if OwesRestore(w, run) {
      var ids := w.runs[run].stopped.value;
      var steps := [Recover(run)] + RestartSteps(Boot, ids, failing);
      var v := Step(w, Recover(run));
      assert v == w.(acts := map[Boot := Activity(run, Restoring(ids))]);
      assert steps[1..] == RestartSteps(Boot, ids, failing);
      RestartsAreSteps(v, Boot, run, ids, failing);
      assert v.acts - {Boot} == map[];
      RunKeeps(w, steps);
    }
  }

  /** `v` comes of `w` by a run of the machine. */
  ghost predicate Reaches(w: World, v: World) { exists acts :: v == After(w, acts) }

  lemma {:induction false} ReachesBy(w: World, acts: seq<Action>)
    ensures Reaches(w, After(w, acts))
  {
  }

  lemma {:induction false} ReachesOn(u: World, w: World, acts: seq<Action>)
    requires Reaches(u, w)
    ensures Reaches(u, After(w, acts))
  {
    var before :| w == After(u, before);
    AfterJoin(u, before, acts);
  }

  lemma {:induction false} ReachesAll(u: World, w: World, v: World)
    requires Reaches(u, w) && Reaches(w, v)
    ensures Reaches(u, v)
  {
    var acts :| v == After(w, acts);
    ReachesOn(u, w, acts);
  }

  lemma {:induction false} AfterOne(w: World, a: Action)
    ensures After(w, [a]) == Step(w, a)
  {
    assert [a][1..] == [];
  }

  /** The instances are started in order, up to the first that cannot be. */
  lemma {:induction false} StartsUpToFailure(down: map<Id, Id>, ids: seq<Id>, failing: set<Id>) returns (n: nat)
    ensures n <= |ids| && (forall m :: 0 <= m < n ==> ids[m] !in failing) && (n < |ids| ==> ids[n] in failing)
    ensures RestartAll(down, ids, failing) == map i | i in down && i !in ids[..n] :: down[i]
    decreases |ids|
  {
    if ids == [] || ids[0] in failing {
      n := 0;
      assert ids[..0] == [];
    } else {
      var k := StartsUpToFailure(down - {ids[0]}, ids[1..], failing);
      n := k + 1;
      assert ids[..n] == [ids[0]] + ids[1..][..k];
    }
  }

  predicate IsLiveJobOf(w: World, job: Id, run: Id) {
    job in w.jobs && w.jobs[job].run == run && LiveState(w.jobs[job].state)
  }

  /** The job is flagged, and still held and otherwise as it was, or over with its run canceled. */
  predicate AskedToStop(was: World, now: World, run: Id, job: Id) {
    && job in was.jobs && job in now.jobs && now.jobs[job].cancel && run in now.runs
    && (if was.jobs[job].owner == was.boot && (was.jobs[job].state.Leased? || was.jobs[job].state.Working?)
        then now == was.(jobs := was.jobs[job := was.jobs[job].(cancel := true)])
        else now.jobs[job].state.Done? && now.runs[run].state.Canceled?)
  }

  /** Closing jobs changes nothing about who is down and who owes it. */
  predicate SameStops(v: World, w: World) {
    && v.stoppedBy == w.stoppedBy && v.acts == w.acts && v.boot == w.boot && v.serving == w.serving
    && (v.lease == w.lease || v.lease.Free?)
    && v.runs.Keys == w.runs.Keys
    && forall r :: r in w.runs ==> v.runs[r] == w.runs[r].(state := v.runs[r].state)
  }

  /** Every interrupted job is in `rest`. */
  predicate Unresolved(w: World, rest: set<Id>) {
    rest <= w.jobs.Keys && forall j :: j in w.jobs && w.jobs[j].state.Interrupted? ==> j in rest
  }

  /** A run that was interrupted has what was measured of it, or failed. */
  function Outcome(run: Id, measured: set<Id>): RunState { if run in measured then Partial else Failed }

  predicate WasInterrupted(w: World, run: Id) {
    exists j :: j in w.jobs && w.jobs[j].run == run && w.jobs[j].state.Interrupted?
  }

  /** The runs once every interrupted job outside `rest` is closed. */
  predicate Judged(was: World, w: World, rest: set<Id>, measured: set<Id>) {
    forall r :: r in was.runs ==>
      && r in w.runs
      && (w.runs[r].state == was.runs[r].state || (WasInterrupted(was, r) && w.runs[r].state == Outcome(r, measured)))
      && forall j :: j in was.jobs && was.jobs[j].run == r && was.jobs[j].state.Interrupted? && j !in rest ==>
           w.runs[r].state == Outcome(r, measured)
  }

  lemma {:induction false} OneJudged(was: World, w: World, v: World, rest: set<Id>, job: Id, measured: set<Id>)
    requires Judged(was, w, rest, measured) && job in rest && job in was.jobs && was.jobs[job].state.Interrupted?
    requires var run := was.jobs[job].run;
      v.runs == if run in w.runs then w.runs[run := w.runs[run].(state := Outcome(run, measured))] else w.runs
    ensures Judged(was, v, rest - {job}, measured)
  {
    assert WasInterrupted(was, was.jobs[job].run);
  }

  predicate Resolving(was: World, w: World, rest: set<Id>, measured: set<Id>) {
    && Unresolved(w, rest) && rest <= was.jobs.Keys && Judged(was, w, rest, measured)
    && (forall j :: j in was.jobs ==> j in w.jobs && w.jobs[j].run == was.jobs[j].run)
    && (forall j :: j in rest ==> was.jobs[j].state.Interrupted? && w.jobs[j].state.Interrupted?)
  }

  lemma {:induction false} OneResolved(was: World, w: World, v: World, rest: set<Id>, job: Id, measured: set<Id>)
    requires Resolving(was, w, rest, measured) && job in rest
    requires v.jobs == w.jobs[job := w.jobs[job].(state := JobState.Done)]
    requires var run := w.jobs[job].run;
      v.runs == if run in w.runs then w.runs[run := w.runs[run].(state := Outcome(run, measured))] else w.runs
    ensures Resolving(was, v, rest - {job}, measured)
  {
    OneJudged(was, w, v, rest, job, measured);
  }

  lemma {:induction false} AllResolved(was: World, w: World, measured: set<Id>)
    requires Resolving(was, w, {}, measured)
    ensures forall j :: j in w.jobs ==> !w.jobs[j].state.Interrupted?
    ensures forall r :: r in was.runs ==>
      r in w.runs && w.runs[r].state == if WasInterrupted(was, r)
        then (if r in measured then Partial else Failed) else was.runs[r].state
  {
  }

  lemma {:induction false} SetStateStops(w: World, run: Id, state: RunState)
    ensures SameStops(SetState(w, run, state), w) && SetState(w, run, state).jobs == w.jobs
  {
  }

  lemma {:induction false} ReleaseStops(w: World, job: Id)
    ensures SameStops(Release(w, job), w) && Release(w, job).jobs == w.jobs
  {
  }

  lemma {:induction false} CloseJobStops(w: World, job: Id, state: RunState)
    requires job in w.jobs
    ensures SameStops(CloseJob(w, job, state), w)
    ensures CloseJob(w, job, state).jobs == w.jobs[job := w.jobs[job].(state := JobState.Done)]
  {
    var run, a := w.jobs[job].run, SetJob(w, job, JobState.Done);
    var b := SetState(a, run, state);
    SetStateStops(a, run, state);
    ReleaseStops(b, job);
    SameStopsChain(b, a, w);
    SameStopsChain(Release(b, job), b, w);
  }

  lemma {:induction false} SameStopsChain(u: World, v: World, w: World)
    requires SameStops(u, v) && SameStops(v, w)
    ensures SameStops(u, w)
  {
  }

  lemma {:induction false} ResolveOne(w: World, was: World, job: Id, state: RunState)
    requires Inv(w) && SameStops(w, was) && w.acts == map[] && job in w.jobs && !state.Draft?
    ensures Inv(CloseJob(w, job, state)) && SameStops(CloseJob(w, job, state), was)
    ensures CloseJob(w, job, state).jobs == w.jobs[job := w.jobs[job].(state := JobState.Done)]
    ensures CloseJob(w, job, state).acts == map[] && CloseJob(w, job, state).serving == w.serving
  {
    CloseJobKeeps(w, job, state);
    CloseJobStops(w, job, state);
    SameStopsChain(CloseJob(w, job, state), w, was);
  }

  lemma {:induction false} SameStopsOwe(v: World, w: World)
    requires SameStops(v, w)
    ensures forall r :: OwesRestore(v, r) <==> OwesRestore(w, r)
    ensures forall i, r :: Listed(v, i, r) <==> Listed(w, i, r)
  {
  }

  // ---------------------------------------------------------------- the service

  class Service {
    var world: World

    constructor ()
      ensures world == EMPTY
    {
      world := EMPTY;
    }

    /** The refusals in the order they are found; otherwise one transaction writes the run, its points and its job. */
    method Create(run: Id, req: Request, host: Host, newJob: Option<Id>) returns (answer: Created)
      requires Fresh(world, run) && (newJob.Some? ==> !req.draft && newJob.value !in world.jobs)
      modifies this
      ensures answer == Verdict(req, host)
      ensures answer.Ok? <==> Grantable(req, host)
      ensures answer.Ok? ==>
        answer.repetitions == if req.repetitions > 0 then req.repetitions
                              else if host.defaultRepetitions > 0 then host.defaultRepetitions else 1
      ensures world == if answer.Ok?
        then Step(old(world), BenchRuns.Create(run, Total(Sizes(req.counts)), req.draft, newJob)) else old(world)
    {
      VerdictIs(req, host);
      if !req.valid { return BadSweep; }
      var reps := if req.repetitions <= 0 then host.defaultRepetitions else req.repetitions;
      if reps <= 0 { reps := 1; }
      if reps > MAX_REPETITIONS { return TooLarge; }
      var points := ExpandSweep(req.counts);
      if points.None? { return TooLarge; }
      if req.stopAndRestore && !host.fleet { return NoFleet; }
      if !host.modelReady { return ModelMissing; }
      if !host.runtimeReady { return NoRuntime; }
      if host.exclusive && host.conflicts > 0 && !req.stopAndRestore { return Conflict; }
      InsertRun(run, |points.value|, if req.draft then Draft else Queued);
      if newJob.Some? { world := world.(jobs := world.jobs[newJob.value := Job(run, Waiting, world.boot, false)]); }
      return Ok(reps);
    }

    method InsertRun(run: Id, count: nat, state: RunState)
      modifies this
      ensures world == old(world).(
        runs := old(world).runs[run := Run(state, count, None, false)],
        points := old(world).points + PointRows(run, count))
    {
      var points := world.points;
      assert points + PointRows(run, 0) == points;
      for ordinal := 0 to count
        invariant world == old(world) && points == world.points + PointRows(run, ordinal)
      {
        OneMoreRow(world.points, run, ordinal);
        points := points + [Point(run, ordinal)];
      }
      world := world.(runs := world.runs[run := Run(state, count, None, false)], points := points);
    }

    method Start(run: Id, job: Id) returns (answer: Answer)
      requires job !in world.jobs && Inv(world)
      modifies this
      ensures answer == NotFound <==> run !in old(world).runs
      ensures answer == Accepted <==> run in old(world).runs && old(world).runs[run].state.Draft?
      ensures world == Step(old(world), BenchRuns.Start(run, job))
      ensures answer == Accepted ==>
        && world.jobs == old(world).jobs[job := Job(run, Waiting, world.boot, false)]
        && world.runs == old(world).runs[run := old(world).runs[run].(state := Queued)]
      ensures answer != Accepted ==> world == old(world)
    {
      if run !in world.runs { return NotFound; }
      if !world.runs[run].state.Draft? { return Refused; }
      world := SetState(world, run, Queued);
      world := world.(jobs := world.jobs[job := Job(run, Waiting, world.boot, false)]);
      return Accepted;
    }

    method Cancel(run: Id) returns (answer: Answer)
      modifies this
      ensures answer == NotFound <==> run !in old(world).runs
      ensures answer == Accepted <==> exists job :: Cancelable(old(world), run, job)
      ensures answer == Accepted ==>
        exists job :: Cancelable(old(world), run, job) && world == Step(old(world), BenchRuns.Cancel(run, job))
          && AskedToStop(old(world), world, run, job)
      ensures answer != Accepted ==> world == old(world)
    {
      if run !in world.runs { return NotFound; }
      if !HasLiveJob(world, run) {
        assert forall job :: Cancelable(world, run, job) ==> LiveState(world.jobs[job].state);
        return Refused;
      }
      var job :| job in world.jobs && IsLiveJobOf(world, job, run);
      assert Step(world, BenchRuns.Cancel(run, job)) == CancelRun(world, run, job);
      assert IsLiveJobOf(world, job, run) && Cancelable(world, run, job);
      CancelIs(world, run, job);
      var held := HeldHere(world, job);
      world := world.(jobs := world.jobs[job := world.jobs[job].(cancel := true)]);
      if !held { world := CloseJob(world, job, Canceled); }
      return Accepted;
    }

    method Delete(run: Id) returns (answer: Answer)
      modifies this
      ensures answer == NotFound <==> run !in old(world).runs
      ensures answer == Accepted <==>
        && run in old(world).runs && (old(world).runs[run].restored || old(world).runs[run].stopped.None?)
        && forall j :: j in old(world).jobs && old(world).jobs[j].run == run ==>
             old(world).jobs[j].state.Done? || old(world).jobs[j].state.Purged?
      ensures world == Step(old(world), BenchRuns.Delete(run))
      ensures answer == Accepted ==> world.runs == old(world).runs - {run} && Count(world.points, run) == 0
      ensures answer != Accepted ==> world == old(world)
    {
      if run !in world.runs { return NotFound; }
      if HasLiveJob(world, run) { return Refused; }
      assert forall j :: j in world.jobs && world.jobs[j].run == run ==> !LiveState(world.jobs[j].state);
      if Owes(world.runs[run]) { return Refused; }
      CountWithout(world.points, run, run);
      world := world.(runs := world.runs - {run}, points := Without(world.points, run));
      return Accepted;
    }

    /** The finalizer, called at boot; `failing` instances cannot be started. A list that is no JSON is given up. */
    method Restore(run: Id, failing: set<Id>, readable: bool) returns (ok: bool)
      modifies this
      ensures world == if readable then Restored(old(world), run, failing) else GivenUp(old(world), run)
      ensures ok <==> !OwesRestore(world, run)
      ensures OwesRestore(old(world), run) && readable ==>
        Started(old(world).stoppedBy, world.stoppedBy, old(world).runs[run].stopped.value, failing, ok)
    {
      if run !in world.runs || !Owes(world.runs[run]) { return true; }
      if !readable {
        world := world.(runs := world.runs[run := world.runs[run].(restored := true)]);
        return true;
      }
      var ids := world.runs[run].stopped.value;
      ghost var was := world;
      StartedIs(was.stoppedBy, ids, failing);
      assert ids[0..] == ids;
      for n := 0 to |ids|
        invariant world == was.(stoppedBy := world.stoppedBy)
        invariant RestartAll(was.stoppedBy, ids, failing) == RestartAll(world.stoppedBy, ids[n..], failing)
        invariant forall m :: 0 <= m < n ==> ids[m] !in failing
      {
        assert ids[n..][0] == ids[n] && ids[n..][1..] == ids[n + 1..];
        if ids[n] in failing { return false; }
        world := world.(stoppedBy := world.stoppedBy - {ids[n]});
      }
      world := world.(runs := world.runs[run := world.runs[run].(restored := true)]);
      return true;
    }

    /** Every run that owes a restore, in whatever state it is. */
    method RestoreAll(failing: set<Id>)
      requires Inv(world) && !world.serving && world.acts == map[]
      modifies this
      ensures Inv(world) && world == old(world).(runs := world.runs, stoppedBy := world.stoppedBy)
      ensures world.runs == RunsAfter(old(world).runs, {}, failing)
      ensures Reaches(old(world), world)
    {
      ghost var was := world;
      ReachesBy(was, []);
      var rest := set r | r in world.runs && Owes(world.runs[r]);
      while rest != {}
        invariant Reaches(was, world)
        invariant Inv(world) && world == was.(runs := world.runs, stoppedBy := world.stoppedBy)
        invariant forall r :: r in rest ==> OwesRestore(was, r)
        invariant world.runs == RunsAfter(was.runs, rest, failing)
        decreases rest
      {
        var r :| r in rest;
        RestoreIsARun(world, r, failing);
        RestoredRuns(world, was.runs, rest, r, failing);
        ReachesOn(was, world, [Recover(r)] + RestartSteps(Boot, world.runs[r].stopped.value, failing));
        var _ := Restore(r, failing, true);
        rest := rest - {r};
      }
    }

    /** `measured` runs have results. */
    method ResolveRow(job: Id, measured: set<Id>, ghost was: World)
      requires Inv(world) && SameStops(world, was) && !world.serving && world.acts == map[]
      requires job in world.jobs && world.jobs[job].state.Interrupted?
      modifies this
      ensures world == Step(old(world), Resolve(job, Outcome(old(world).jobs[job].run, measured)))
      ensures Inv(world) && SameStops(world, was) && !world.serving && world.acts == map[]
      ensures world.jobs == old(world).jobs[job := old(world).jobs[job].(state := JobState.Done)]
      ensures var run := old(world).jobs[job].run;
        world.runs == if run in old(world).runs
          then old(world).runs[run := old(world).runs[run].(state := Outcome(run, measured))] else old(world).runs
    {
      var state := Outcome(world.jobs[job].run, measured);
      ResolveOne(world, was, job, state);
      world := CloseJob(world, job, state);
    }

    /** The jobs a boot left interrupted are closed. */
    method ResolveInterrupted(measured: set<Id>)
      requires Inv(world) && !world.serving && world.acts == map[]
      modifies this
      ensures Inv(world) && SameStops(world, old(world)) && Reaches(old(world), world)
      ensures forall j :: j in world.jobs ==> !world.jobs[j].state.Interrupted?
      ensures forall r :: r in old(world).runs ==>
        r in world.runs && world.runs[r].state == if WasInterrupted(old(world), r)
          then (if r in measured then Partial else Failed) else old(world).runs[r].state
    {
      ghost var was := world;
      ReachesBy(was, []);
      var rest := set j | j in world.jobs && world.jobs[j].state.Interrupted?;
      while rest != {}
        invariant Reaches(was, world)
        invariant Inv(world) && SameStops(world, was) && !world.serving && world.acts == map[]
        invariant Resolving(was, world, rest, measured)
        decreases rest
      {
        var j :| j in rest;
        ghost var before := world;
        ResolveRow(j, measured, was);
        ghost var step := Resolve(j, Outcome(before.jobs[j].run, measured));
        AfterOne(before, step);
        ReachesOn(was, before, [step]);
        OneResolved(was, before, world, rest, j, measured);
        rest := rest - {j};
      }
      AllResolved(was, world, measured);
    }

    /**
     The boot half of the protocol. What is still down afterwards is on the list of a run that names an instance
     that could not be started; if all could, nothing is down, nothing is owed and the lease is free.
     */
    method Reconcile(failing: set<Id>, measured: set<Id>)
      requires Inv(world) && !world.serving && world.acts == map[]
      requires !world.lease.Free? ==> world.lease.owner != world.boot
      modifies this
      ensures Inv(world) && Reaches(old(world), world)
      ensures forall i :: i in world.stoppedBy ==> exists r, f :: Listed(world, i, r) && f in failing && Listed(world, f, r)
      ensures forall j :: j in world.jobs ==> !world.jobs[j].state.Interrupted?
      ensures failing == {} ==> world.stoppedBy == map[] && world.lease.Free? && forall r :: !OwesRestore(world, r)
      ensures forall r :: r in old(world).runs && WasInterrupted(old(world), r) ==>
        r in world.runs && world.runs[r].state == if r in measured then Partial else Failed
    {
      RestoreAll(failing);
      ghost var owing := world;
      ResolveInterrupted(measured);
      ReachesAll(old(world), owing, world);
      SameStopsOwe(world, owing);
      if !world.lease.Free? && world.lease.owner != world.boot && !OwesRestore(world, world.lease.run) {
        ServeKeeps(world, ReleaseForeign);
        AfterOne(world, ReleaseForeign);
        ReachesOn(old(world), world, [ReleaseForeign]);
        world := world.(lease := Free);
      }
      SameStopsOwe(world, owing);
      StillDown(world, owing, old(world).runs, failing);
    }
  }

  /** What is down after every run was tried is on a list with an instance that could not be started. */
  lemma {:induction false} StillDown(w: World, owing: World, runs: map<Id, Run>, failing: set<Id>)
    requires Inv(w) && owing.runs == RunsAfter(runs, {}, failing)
    requires (forall r :: OwesRestore(w, r) <==> OwesRestore(owing, r)) && forall i, r :: Listed(w, i, r) <==> Listed(owing, i, r)
    ensures forall i :: i in w.stoppedBy ==> exists r, f :: Listed(w, i, r) && f in failing && Listed(w, f, r)
    ensures forall r :: OwesRestore(w, r) ==> exists f :: f in failing && Listed(w, f, r)
  {
    forall r | OwesRestore(w, r) ensures exists f :: f in failing && Listed(w, f, r) {
      assert OwesRestore(owing, r);
      var f :| f in owing.runs[r].stopped.value && f in failing;
      assert Listed(owing, f, r);
    }
    forall i | i in w.stoppedBy ensures exists r, f :: Listed(w, i, r) && f in failing && Listed(w, f, r) {
      assert Listed(w, i, w.stoppedBy[i]);
    }
  }

  lemma {:induction false} RestoredRuns(w: World, runs: map<Id, Run>, rest: set<Id>, r: Id, failing: set<Id>)
    requires w.runs == RunsAfter(runs, rest, failing) && r in rest && r in runs && Owes(runs[r])
    ensures OwesRestore(w, r) && Restored(w, r, failing).runs == RunsAfter(runs, rest - {r}, failing)
  {
  }

  /** The rows once every run outside `rest` that owes a restore was tried. */
  function RunsAfter(runs: map<Id, Run>, rest: set<Id>, failing: set<Id>): map<Id, Run> {
    map r | r in runs ::
      if r !in rest && Owes(runs[r]) && AllStart(runs[r].stopped.value, failing) then runs[r].(restored := true) else runs[r]
  }
}
