/**
 Benchmark runs, their points and jobs, and the production instances that a run stops and owes a restart.
 Every action is one committed transaction, one call that starts or stops one instance, or the loss of the process.
 */
module BenchRuns {
  import opened Options

  type Id = string

  datatype RunState = Draft | Queued | Preflight | Running | Succeeded | Partial | Failed | Canceled

  datatype Run = Run(state: RunState, total: nat, stopped: Option<seq<Id>>, restored: bool)

  predicate Owes(r: Run) { !r.restored && r.stopped.Some? }

  datatype Point = Point(run: Id, ordinal: nat)

  /** A purged job has no row any more; its id is never used again. */
  datatype JobState = Waiting | Leased | Working | Interrupted | Done | Purged

  datatype Job = Job(run: Id, state: JobState, owner: nat, cancel: bool)

  /**
   The single row that says which job may use the cards; `owner` is the boot that wrote it. A row whose job was purged
   keeps its run and its owner, but nobody holds it.
   */
  datatype Lease = Free | Held(job: Id, run: Id, owner: nat, expires: int) | Orphaned(run: Id, owner: nat)

  datatype Phase = Checking | Stopping(rest: seq<Id>) | Sweeping | Restoring(rest: seq<Id>) | Closing

  /** Who carries out a run's stops and restarts: the worker of a job, or the boot. */
  datatype Actor = Worker(job: Id) | Boot

  datatype Activity = Activity(run: Id, phase: Phase)

  /** `stoppedBy` has the instances that a benchmark stopped and that nobody started since, with the run that did. */
  datatype World = World(
    runs: map<Id, Run>, points: seq<Point>, jobs: map<Id, Job>, lease: Lease,
    boot: nat, serving: bool, acts: map<Actor, Activity>, stoppedBy: map<Id, Id>)

  const EMPTY := World(map[], [], map[], Free, 0, false, map[], map[])

  datatype Action =
    | Create(run: Id, count: nat, draft: bool, newJob: Option<Id>)
    | Start(run: Id, job: Id)
    | Cancel(run: Id, job: Id)
    | Delete(run: Id)
    | Claim(job: Id)
    | Begin(job: Id, now: int, expires: int)
    | List(job: Id, ids: seq<Id>)
    | Stop(job: Id, gone: bool)
    | Sweep(job: Id)
    | Leave(job: Id)
    | Restart(actor: Actor, gone: bool)
    | GiveUp(actor: Actor)
    | Mark(actor: Actor)
    | Close(job: Id, state: RunState)
    | Unclosed(job: Id)
    | Break(job: Id)
    | Abandon(job: Id)
    | Crash
    | Triage
    | Recover(run: Id)
    | Resolve(job: Id, state: RunState)
    | ReleaseForeign
    | Serve
    | Touch(job: Id, expires: int)
    | Purge(job: Id)
    | StartByUser(instance: Id)
    | RemoveInstance(instance: Id)

  // ---------------------------------------------------------------- the statements of the store

  predicate LiveState(s: JobState) { !s.Done? && !s.Purged? }

  predicate HasLiveJob(w: World, run: Id) {
    exists j :: j in w.jobs && w.jobs[j].run == run && LiveState(w.jobs[j].state)
  }

  predicate OwesRestore(w: World, run: Id) { run in w.runs && Owes(w.runs[run]) }

  function SetState(w: World, run: Id, state: RunState): World {
    if run in w.runs then w.(runs := w.runs[run := w.runs[run].(state := state)]) else w
  }

  function SetJob(w: World, job: Id, state: JobState): World
    requires job in w.jobs
  {
    w.(jobs := w.jobs[job := w.jobs[job].(state := state)])
  }

  /** A lease whose run owes a restore is not released. */
  function Release(w: World, job: Id): World {
    if w.lease.Held? && w.lease.job == job && !OwesRestore(w, w.lease.run) then w.(lease := Free) else w
  }

  predicate Acquires(w: World, job: Id, now: int) {
    match w.lease
    case Free => true
    case Orphaned(_, _) => true
    case Held(holder, _, owner, expires) =>
      && (holder != job ==> owner != w.boot && expires < now)
      && (owner == w.boot || expires < now)
  }

  function PointRows(run: Id, count: nat): seq<Point> {
    if count == 0 then [] else PointRows(run, count - 1) + [Point(run, count - 1)]
  }

  function Without(points: seq<Point>, run: Id): seq<Point> {
    if points == [] then []
    else (if points[0].run == run then [] else [points[0]]) + Without(points[1..], run)
  }

  function Count(points: seq<Point>, run: Id): nat {
    if points == [] then 0 else (if points[0].run == run then 1 else 0) + Count(points[1..], run)
  }

  // ---------------------------------------------------------------- what a request does

  /** Ids are never handed out twice. */
  predicate Fresh(w: World, run: Id) {
    run !in w.runs && (forall j :: j in w.jobs ==> w.jobs[j].run != run) && Count(w.points, run) == 0
  }

  /** A request that replays an earlier one writes its run and gets the earlier job. */
  function CreateRun(w: World, run: Id, count: nat, draft: bool, job: Option<Id>): World {
    if !Fresh(w, run) || (job.Some? && (draft || job.value in w.jobs)) then w
    else
      w.(runs := w.runs[run := Run(if draft then Draft else Queued, count, None, false)],
         points := w.points + PointRows(run, count),
         jobs := if job.Some? then w.jobs[job.value := Job(run, Waiting, w.boot, false)] else w.jobs)
  }

  function StartRun(w: World, run: Id, job: Id): World {
    if run !in w.runs || w.runs[run].state != Draft || HasLiveJob(w, run) || job in w.jobs then w
    else SetState(w, run, Queued).(jobs := w.jobs[job := Job(run, Waiting, w.boot, false)])
  }

  predicate HeldHere(w: World, job: Id) {
    job in w.jobs && (w.jobs[job].state.Leased? || w.jobs[job].state.Working?) && w.jobs[job].owner == w.boot
  }

  function CloseJob(w: World, job: Id, state: RunState): World
    requires job in w.jobs
  {
    Release(SetState(SetJob(w, job, Done), w.jobs[job].run, state), job)
  }

  function Flag(w: World, job: Id): World
    requires job in w.jobs
  {
    w.(jobs := w.jobs[job := w.jobs[job].(cancel := true)])
  }

  /** A job that this boot holds is only asked to stop; nobody carries out any other, so that is over at once. */
  function CancelRun(w: World, run: Id, job: Id): World {
    if run !in w.runs || job !in w.jobs || w.jobs[job].run != run || !LiveState(w.jobs[job].state) then w
    else if HeldHere(w, job) then Flag(w, job)
    else CloseJob(Flag(w, job), job, Canceled)
  }

  function DeleteRun(w: World, run: Id): World {
    if run !in w.runs || HasLiveJob(w, run) || Owes(w.runs[run]) then w
    else w.(runs := w.runs - {run}, points := Without(w.points, run))
  }

  // ---------------------------------------------------------------- what the queue and the worker do

  function BeginJob(w: World, job: Id, now: int, expires: int): World {
    if !w.serving || !HeldHere(w, job) || !w.jobs[job].state.Leased? then w
    else if w.jobs[job].cancel then CloseJob(w, job, Canceled)
    else if !Acquires(w, job, now) then SetJob(w, job, Waiting)
    else
      var run := w.jobs[job].run;
      SetState(SetJob(w, job, Working), run, Preflight)
        .(lease := Held(job, run, w.boot, expires), acts := w.acts[Worker(job) := Activity(run, Checking)])
  }

  function SetPhase(w: World, actor: Actor, phase: Phase): World
    requires actor in w.acts
  {
    w.(acts := w.acts[actor := w.acts[actor].(phase := phase)])
  }

  /** The end of a restore: the worker goes on to close its run, the boot goes on to the next. */
  function EndRestore(w: World, actor: Actor): World
    requires actor in w.acts
  {
    if actor == Boot then w.(acts := w.acts - {Boot}) else SetPhase(w, actor, Closing)
  }

  function ListStops(w: World, job: Id, ids: seq<Id>): World {
    var me := Worker(job);
    if me !in w.acts || !w.acts[me].phase.Checking? || w.acts[me].run !in w.runs then w
    else
      var run := w.acts[me].run;
      SetPhase(w.(runs := w.runs[run := w.runs[run].(stopped := Some(ids), restored := false)]), me, Stopping(ids))
  }

  function StopOne(w: World, job: Id, gone: bool): World {
    var me := Worker(job);
    if me !in w.acts || !w.acts[me].phase.Stopping? || w.acts[me].phase.rest == [] then w
    else
      var rest := w.acts[me].phase.rest;
      var v := if gone then w else w.(stoppedBy := w.stoppedBy[rest[0] := w.acts[me].run]);
      SetPhase(v, me, Stopping(rest[1..]))
  }

  function SweepRun(w: World, job: Id): World {
    var me := Worker(job);
    if me !in w.acts || !(w.acts[me].phase.Checking? || w.acts[me].phase == Stopping([])) then w
    else SetState(SetPhase(w, me, Sweeping), w.acts[me].run, Running)
  }

  /** The finalizer starts, after success, failure or a cancel, and looks at what the row owes. */
  function LeaveSweep(w: World, job: Id): World {
    var me := Worker(job);
    if me !in w.acts || w.acts[me].phase.Restoring? || w.acts[me].phase.Closing? then w
    else
      var run := w.acts[me].run;
      SetPhase(w, me, if OwesRestore(w, run) then Restoring(w.runs[run].stopped.value) else Closing)
  }

  function RestartOne(w: World, actor: Actor, gone: bool): World {
    if actor !in w.acts || !w.acts[actor].phase.Restoring? || w.acts[actor].phase.rest == [] then w
    else
      var rest := w.acts[actor].phase.rest;
      SetPhase(w.(stoppedBy := w.stoppedBy - {rest[0]}), actor, Restoring(rest[1..]))
  }

  function GiveUpRestore(w: World, actor: Actor): World {
    if actor !in w.acts || !w.acts[actor].phase.Restoring? then w else EndRestore(w, actor)
  }

  function MarkRestored(w: World, actor: Actor): World {
    if actor !in w.acts || w.acts[actor].phase != Restoring([]) then w
    else
      var run := w.acts[actor].run;
      var v := if run in w.runs then w.(runs := w.runs[run := w.runs[run].(restored := true)]) else w;
      EndRestore(v, actor)
  }

  function CloseRun(w: World, job: Id, state: RunState): World {
    var me := Worker(job);
    if me !in w.acts || !w.acts[me].phase.Closing? || job !in w.jobs || state.Draft? then w
    else CloseJob(w, job, state).(acts := w.acts - {me})
  }

  function LeaveUnclosed(w: World, job: Id): World {
    var me := Worker(job);
    if me !in w.acts || !w.acts[me].phase.Closing? || job !in w.jobs then w
    else SetJob(w, job, Interrupted).(acts := w.acts - {me})
  }

  /** A start that fails, or a panic in the worker: the job fails, and no finalizer runs. */
  function BreakJob(w: World, job: Id): World {
    if !HeldHere(w, job) then w else CloseJob(w, job, Failed).(acts := w.acts - {Worker(job)})
  }

  // ---------------------------------------------------------------- what the boot does

  function TriageJobs(w: World): World {
    w.(jobs := map j | j in w.jobs ::
      if (w.jobs[j].state.Leased? || w.jobs[j].state.Working?) && w.jobs[j].owner != w.boot
      then w.jobs[j].(state := Interrupted) else w.jobs[j])
  }

  function RecoverRun(w: World, run: Id): World {
    if w.serving || Boot in w.acts || !OwesRestore(w, run) then w
    else w.(acts := w.acts[Boot := Activity(run, Restoring(w.runs[run].stopped.value))])
  }

  function ResolveJob(w: World, job: Id, state: RunState): World {
    if w.serving || job !in w.jobs || !w.jobs[job].state.Interrupted? || state.Draft? then w
    else CloseJob(w, job, state)
  }

  /** The heartbeat of a worker moves the horizon of its lease. */
  function TouchLease(w: World, job: Id, expires: int): World {
    if Worker(job) in w.acts && w.lease.Held? && w.lease.job == job && w.lease.owner == w.boot
    then w.(lease := w.lease.(expires := expires)) else w
  }

  /** The retention of finished jobs, which empties what refers to them and asks nothing else. */
  function PurgeJob(w: World, job: Id): World {
    if job !in w.jobs || !w.jobs[job].state.Done? then w
    else
      var v := SetJob(w, job, Purged);
      if w.lease.Held? && w.lease.job == job then v.(lease := Orphaned(w.lease.run, w.lease.owner)) else v
  }

  function Step(w: World, a: Action): World {
    match a
    case Create(run, count, draft, job) => CreateRun(w, run, count, draft, job)
    case Start(run, job) => StartRun(w, run, job)
    case Cancel(run, job) => CancelRun(w, run, job)
    case Delete(run) => DeleteRun(w, run)
    case Claim(job) =>
      if w.serving && job in w.jobs && w.jobs[job].state.Waiting?
      then w.(jobs := w.jobs[job := w.jobs[job].(state := Leased, owner := w.boot)]) else w
    case Begin(job, now, expires) => BeginJob(w, job, now, expires)
    case List(job, ids) => ListStops(w, job, ids)
    case Stop(job, gone) => StopOne(w, job, gone)
    case Sweep(job) => SweepRun(w, job)
    case Leave(job) => LeaveSweep(w, job)
    case Restart(actor, gone) => RestartOne(w, actor, gone)
    case GiveUp(actor) => GiveUpRestore(w, actor)
    case Mark(actor) => MarkRestored(w, actor)
    case Close(job, state) => CloseRun(w, job, state)
    case Unclosed(job) => LeaveUnclosed(w, job)
    case Break(job) => BreakJob(w, job)
    case Abandon(job) => w.(acts := w.acts - {Worker(job)})
    case Crash => w.(boot := w.boot + 1, serving := false, acts := map[])
    case Triage => TriageJobs(w)
    case Recover(run) => RecoverRun(w, run)
    case Resolve(job, state) => ResolveJob(w, job, state)
    case ReleaseForeign =>
      if !w.lease.Free? && w.lease.owner != w.boot && !OwesRestore(w, w.lease.run) then w.(lease := Free) else w
    case Serve => if Boot in w.acts then w else w.(serving := true)
    case Touch(job, expires) => TouchLease(w, job, expires)
    case Purge(job) => PurgeJob(w, job)
    case StartByUser(instance) => w.(stoppedBy := w.stoppedBy - {instance})
    case RemoveInstance(instance) => w.(stoppedBy := w.stoppedBy - {instance})
  }

  function After(w: World, acts: seq<Action>): World
    decreases |acts|
  {
    if acts == [] then w else After(Step(w, acts[0]), acts[1..])
  }
}
