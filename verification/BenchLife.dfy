/**
 The whole life of a benchmark that nothing disturbs: what it stops it starts again, and the fleet is as it was.
 */
module BenchLife {
  import opened Options
  import opened BenchRuns
  import opened BenchSafety
  import opened BenchService

  // ---------------------------------------------------------------- the finalizer

  /**
   However a sweep ends, its finalizer starts the instances of its list in order up to the first that cannot be started,
   and the run is settled exactly if all could. Then closing ends the job and its run, and the lease is freed exactly if
   nothing is owed.
   */
  lemma {:induction false} FinalizerPutsBack(w: World, job: Id, failing: set<Id>, state: RunState)
    requires Inv(w) && Worker(job) in w.acts && !w.acts[Worker(job)].phase.Restoring? && !w.acts[Worker(job)].phase.Closing?
    requires OwesRestore(w, w.acts[Worker(job)].run) && !state.Draft?
    ensures var run := w.acts[Worker(job)].run; var ids := w.runs[run].stopped.value;
      var c := After(w, [Leave(job)] + RestartSteps(Worker(job), ids, failing) + [Close(job, state)]);
      && run in c.runs && c.runs[run] == w.runs[run].(state := state, restored := forall i :: i in ids ==> i !in failing)
      && job in c.jobs && c.jobs[job] == w.jobs[job].(state := JobState.Done) && Worker(job) !in c.acts
      && (c.lease.Free? <==> forall i :: i in ids ==> i !in failing)
      && c.stoppedBy == RestartAll(w.stoppedBy, ids, failing)
      && ((forall i :: i in ids ==> i !in failing) ==> forall i :: i in c.stoppedBy ==> c.stoppedBy[i] != run)
  {
    var me := Worker(job);
    var run := w.acts[me].run;
    var ids := w.runs[run].stopped.value;
    ActorsOf(w);
    var l := Step(w, Leave(job));
    assert l == w.(acts := w.acts[me := Activity(run, Restoring(ids))]);
    RestartsAreSteps(l, me, run, ids, failing);
    var v := AfterRestore(l, me, run, ids, failing);
    assert v.acts == w.acts[me := Activity(run, Closing)];
    var steps := [Leave(job)] + RestartSteps(me, ids, failing);
    assert steps[1..] == RestartSteps(me, ids, failing);
    AfterJoin(w, steps, [Close(job, state)]);
    assert [Close(job, state)][1..] == [];
    CloseIs(v, job, run, state);
    RunKeeps(w, steps + [Close(job, state)]);
    NoneIsDown(After(w, steps + [Close(job, state)]), run);
  }

  lemma {:induction false} NoneIsDown(c: World, run: Id)
    requires Inv(c)
    ensures !OwesRestore(c, run) ==> forall i :: i in c.stoppedBy ==> c.stoppedBy[i] != run
  {
    forall i | i in c.stoppedBy ensures Listed(c, i, c.stoppedBy[i]) {}
  }

  lemma {:induction false} CloseIs(v: World, job: Id, run: Id, state: RunState)
    requires Worker(job) in v.acts && v.acts[Worker(job)] == Activity(run, Closing) && !state.Draft?
    requires job in v.jobs && v.jobs[job].run == run && run in v.runs
    requires v.lease.Held? && v.lease.job == job && v.lease.run == run
    ensures Step(v, Close(job, state)) ==
      v.(jobs := v.jobs[job := v.jobs[job].(state := JobState.Done)], runs := v.runs[run := v.runs[run].(state := state)],
         lease := if OwesRestore(v, run) then v.lease else Free, acts := v.acts - {Worker(job)})
  {
  }

  // ---------------------------------------------------------------- from its creation to its end

  function Stops(job: Id, n: nat): seq<Action> { if n == 0 then [] else [Stop(job, false)] + Stops(job, n - 1) }

  function Down(stoppedBy: map<Id, Id>, ids: seq<Id>, run: Id): map<Id, Id>
    decreases |ids|
  {
    if ids == [] then stoppedBy else Down(stoppedBy[ids[0] := run], ids[1..], run)
  }

  lemma {:induction false} StopsAreSteps(w: World, job: Id, run: Id, ids: seq<Id>)
    requires Worker(job) in w.acts && w.acts[Worker(job)] == Activity(run, Stopping(ids))
    ensures After(w, Stops(job, |ids|)) ==
      w.(acts := w.acts[Worker(job) := Activity(run, Stopping([]))], stoppedBy := Down(w.stoppedBy, ids, run))
    decreases |ids|
  {
    if ids == [] {
      assert w.acts[Worker(job) := Activity(run, Stopping([]))] == w.acts;
    } else {
      var next := Step(w, Stop(job, false));
      assert next == w.(stoppedBy := w.stoppedBy[ids[0] := run], acts := w.acts[Worker(job) := Activity(run, Stopping(ids[1..]))]);
      assert Stops(job, |ids|)[1..] == Stops(job, |ids| - 1);
      StopsAreSteps(next, job, run, ids[1..]);
    }
  }

  lemma {:induction false} DownAre(stoppedBy: map<Id, Id>, ids: seq<Id>, run: Id)
    ensures Down(stoppedBy, ids, run) == map i | i in stoppedBy.Keys + (set i | i in ids) :: if i in ids then run else stoppedBy[i]
    decreases |ids|
  {
    if ids != [] {
      DownAre(stoppedBy[ids[0] := run], ids[1..], run);
      assert ids == [ids[0]] + ids[1..];
    }
  }

  lemma {:induction false} UpAre(stoppedBy: map<Id, Id>, ids: seq<Id>)
    ensures RestartAll(stoppedBy, ids, {}) == map i | i in stoppedBy && i !in ids :: stoppedBy[i]
    decreases |ids|
  {
    if ids != [] {
      UpAre(stoppedBy - {ids[0]}, ids[1..]);
      assert ids == [ids[0]] + ids[1..];
    }
  }

  /** A benchmark up to its sweep, and the list of instances it stops for that. */
  function ToSweep(run: Id, job: Id, count: nat, now: int, expires: int, ids: seq<Id>): seq<Action> {
    [Create(run, count, false, Some(job)), Claim(job)] + ([Begin(job, now, expires), List(job, ids)] + (Stops(job, |ids|) + [Sweep(job)]))
  }

  /** The world at the sweep. */
  function AtSweep(w: World, run: Id, job: Id, count: nat, expires: int, ids: seq<Id>): World {
    w.(runs := w.runs[run := Run(Running, count, Some(ids), false)], points := w.points + PointRows(run, count),
       jobs := w.jobs[job := Job(run, Working, w.boot, false)], lease := Held(job, run, w.boot, expires),
       acts := map[Worker(job) := Activity(run, Sweeping)], stoppedBy := Down(w.stoppedBy, ids, run))
  }

  /** Whom nothing stands in the way of. */
  ghost predicate MayRun(w: World, run: Id, job: Id) {
    Inv(w) && w.serving && w.acts == map[] && w.lease.Free? && Fresh(w, run) && job !in w.jobs
  }

  lemma {:induction false} AfterTwo(w: World, a: Action, b: Action)
    ensures After(w, [a, b]) == Step(Step(w, a), b)
  {
    assert [a, b][1..] == [b] && [b][1..] == [];
    assert After(Step(w, a), [b]) == Step(Step(w, a), b);
  }

  function AtClaim(w: World, run: Id, job: Id, count: nat): World {
    w.(runs := w.runs[run := Run(Queued, count, None, false)], points := w.points + PointRows(run, count),
       jobs := w.jobs[job := Job(run, Leased, w.boot, false)])
  }

  lemma {:induction false} Claimed(w: World, run: Id, job: Id, count: nat)
    requires MayRun(w, run, job)
    ensures After(w, [Create(run, count, false, Some(job)), Claim(job)]) == AtClaim(w, run, job, count)
  {
    AfterTwo(w, Create(run, count, false, Some(job)), Claim(job));
  }

  lemma {:induction false} Listing(w: World, run: Id, job: Id, count: nat, now: int, expires: int, ids: seq<Id>)
    requires w.serving && w.acts == map[] && w.lease.Free? && job in w.jobs && w.jobs[job] == Job(run, Leased, w.boot, false)
    requires run in w.runs && w.runs[run] == Run(Queued, count, None, false)
    ensures After(w, [Begin(job, now, expires), List(job, ids)]) ==
      w.(runs := w.runs[run := Run(Preflight, count, Some(ids), false)],
         jobs := w.jobs[job := Job(run, Working, w.boot, false)], lease := Held(job, run, w.boot, expires),
         acts := map[Worker(job) := Activity(run, Stopping(ids))])
  {
    AfterTwo(w, Begin(job, now, expires), List(job, ids));
    var b := Step(w, Begin(job, now, expires));
    assert b == w.(runs := w.runs[run := Run(Preflight, count, None, false)],
                   jobs := w.jobs[job := Job(run, Working, w.boot, false)], lease := Held(job, run, w.boot, expires),
                   acts := map[Worker(job) := Activity(run, Checking)]);
  }

  lemma {:induction false} Swept(w: World, run: Id, job: Id, count: nat, ids: seq<Id>)
    requires w.acts == map[Worker(job) := Activity(run, Stopping(ids))]
    requires run in w.runs && w.runs[run] == Run(Preflight, count, Some(ids), false)
    ensures After(w, Stops(job, |ids|) + [Sweep(job)]) ==
      w.(runs := w.runs[run := Run(Running, count, Some(ids), false)],
         acts := map[Worker(job) := Activity(run, Sweeping)], stoppedBy := Down(w.stoppedBy, ids, run))
  {
    StopsAreSteps(w, job, run, ids);
    AfterJoin(w, Stops(job, |ids|), [Sweep(job)]);
    var v := After(w, Stops(job, |ids|));
    assert [Sweep(job)][1..] == [];
    assert After(v, [Sweep(job)]) == Step(v, Sweep(job));
    assert v.acts == map[Worker(job) := Activity(run, Stopping([]))];
  }

  lemma {:induction false} ListedToSweep(w: World, run: Id, job: Id, count: nat, now: int, expires: int, ids: seq<Id>)
    requires w.serving && w.acts == map[] && w.lease.Free? && job in w.jobs && w.jobs[job] == Job(run, Leased, w.boot, false)
    requires run in w.runs && w.runs[run] == Run(Queued, count, None, false)
    ensures After(w, [Begin(job, now, expires), List(job, ids)] + (Stops(job, |ids|) + [Sweep(job)])) ==
      w.(runs := w.runs[run := Run(Running, count, Some(ids), false)],
         jobs := w.jobs[job := Job(run, Working, w.boot, false)], lease := Held(job, run, w.boot, expires),
         acts := map[Worker(job) := Activity(run, Sweeping)], stoppedBy := Down(w.stoppedBy, ids, run))
  {
    var begin := [Begin(job, now, expires), List(job, ids)];
    AfterJoin(w, begin, Stops(job, |ids|) + [Sweep(job)]);
    Listing(w, run, job, count, now, expires, ids);
    Swept(After(w, begin), run, job, count, ids);
  }

  lemma {:induction false} ToSweepJoins(w: World, run: Id, job: Id, count: nat, now: int, expires: int, ids: seq<Id>)
    requires MayRun(w, run, job)
    ensures After(w, ToSweep(run, job, count, now, expires, ids)) ==
      After(AtClaim(w, run, job, count), [Begin(job, now, expires), List(job, ids)] + (Stops(job, |ids|) + [Sweep(job)]))
  {
    Claimed(w, run, job, count);
    AfterJoin(w, [Create(run, count, false, Some(job)), Claim(job)],
      [Begin(job, now, expires), List(job, ids)] + (Stops(job, |ids|) + [Sweep(job)]));
  }

  lemma {:induction false} ClaimToSweep(w: World, run: Id, job: Id, count: nat, expires: int, ids: seq<Id>)
    ensures var c := AtClaim(w, run, job, count);
      AtSweep(w, run, job, count, expires, ids) ==
      c.(runs := c.runs[run := Run(Running, count, Some(ids), false)],
         jobs := c.jobs[job := Job(run, Working, c.boot, false)], lease := Held(job, run, c.boot, expires),
         acts := map[Worker(job) := Activity(run, Sweeping)], stoppedBy := Down(c.stoppedBy, ids, run))
  {
    var c := AtClaim(w, run, job, count);
    assert c.runs[run := Run(Running, count, Some(ids), false)] == w.runs[run := Run(Running, count, Some(ids), false)];
    assert c.jobs[job := Job(run, Working, w.boot, false)] == w.jobs[job := Job(run, Working, w.boot, false)];
  }

  lemma {:induction false} ToSweepIs(w: World, run: Id, job: Id, count: nat, now: int, expires: int, ids: seq<Id>)
    requires MayRun(w, run, job)
    ensures After(w, ToSweep(run, job, count, now, expires, ids)) == AtSweep(w, run, job, count, expires, ids)
  {
    ToSweepJoins(w, run, job, count, now, expires, ids);
    ListedToSweep(AtClaim(w, run, job, count), run, job, count, now, expires, ids);
    ClaimToSweep(w, run, job, count, expires, ids);
  }

  /** With nothing in its way a benchmark comes to its sweep, and every instance of its list is down, by it. */
  lemma {:induction false} SweepIsReached(w: World, run: Id, job: Id, count: nat, now: int, expires: int, ids: seq<Id>)
    requires MayRun(w, run, job)
    ensures After(w, ToSweep(run, job, count, now, expires, ids)) == AtSweep(w, run, job, count, expires, ids)
    ensures Inv(AtSweep(w, run, job, count, expires, ids))
    ensures forall i :: i in ids ==> var v := AtSweep(w, run, job, count, expires, ids); i in v.stoppedBy && v.stoppedBy[i] == run
  {
    ToSweepIs(w, run, job, count, now, expires, ids);
    RunKeeps(w, ToSweep(run, job, count, now, expires, ids));
    DownAre(w.stoppedBy, ids, run);
  }

  /** And it leaves the fleet as it was: nothing it stopped is down, and its job, its run and the lease are closed. */
  lemma {:induction false} LifeIsNeutral(
    w: World, run: Id, job: Id, count: nat, now: int, expires: int, ids: seq<Id>, state: RunState)
    requires MayRun(w, run, job) && !state.Draft? && forall i :: i in ids ==> i !in w.stoppedBy
    ensures var v := After(After(w, ToSweep(run, job, count, now, expires, ids)),
                           [Leave(job)] + RestartSteps(Worker(job), ids, {}) + [Close(job, state)]);
      && v.stoppedBy == w.stoppedBy && v.lease.Free? && Worker(job) !in v.acts
      && run in v.runs && v.runs[run] == Run(state, count, Some(ids), true)
      && job in v.jobs && v.jobs[job] == Job(run, JobState.Done, w.boot, false)
  {
    var s := AtSweep(w, run, job, count, expires, ids);
    SweepIsReached(w, run, job, count, now, expires, ids);
    FinalizerPutsBack(s, job, {}, state);
    UpAgain(w.stoppedBy, ids, run);
  }

  lemma {:induction false} UpAgain(stoppedBy: map<Id, Id>, ids: seq<Id>, run: Id)
    requires forall i :: i in ids ==> i !in stoppedBy
    ensures RestartAll(Down(stoppedBy, ids, run), ids, {}) == stoppedBy
  {
    DownAre(stoppedBy, ids, run);
    UpAre(Down(stoppedBy, ids, run), ids);
  }

  // ---------------------------------------------------------------- single steps

  /** A heartbeat moves the horizon of the lease exactly for the worker that is at work. */
  lemma {:induction false} HeartbeatIs(w: World, job: Id, expires: int)
    requires Inv(w)
    ensures Step(w, Touch(job, expires)) ==
      if Worker(job) in w.acts then w.(lease := Held(job, w.lease.run, w.boot, expires)) else w
  {
    ActorsOf(w);
  }

  /** A sweep starts once nothing is left to be stopped, whether there was anything to stop or not. */
  lemma {:induction false} SweepsWhenStopped(w: World, job: Id)
    requires Worker(job) in w.acts && !w.acts[Worker(job)].phase.Sweeping?
    ensures Step(w, Sweep(job)).acts[Worker(job)].phase.Sweeping? <==>
      w.acts[Worker(job)].phase.Checking? || w.acts[Worker(job)].phase == Stopping([])
  {
  }

  /** A job that waits, whichever boot enqueued it, is claimed by the one that serves, and begins on a free lease. */
  lemma {:induction false} WaitingBegins(w: World, job: Id, now: int, expires: int)
    requires Inv(w) && w.serving && w.lease.Free? && job in w.jobs && w.jobs[job].state.Waiting? && !w.jobs[job].cancel
    ensures var v := Step(Step(w, Claim(job)), Begin(job, now, expires));
      && Worker(job) in v.acts && v.jobs[job] == w.jobs[job].(state := Working, owner := w.boot)
      && v.lease == Held(job, w.jobs[job].run, w.boot, expires)
  {
    StepKeeps(w, Claim(job));
    BeginsExactly(Step(w, Claim(job)), job, now, expires);
  }
}
