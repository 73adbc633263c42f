/**
 What every interleaving of requests, queue, worker, crashes and boots keeps.
 */
module BenchSafety {
  import opened Options
  import opened BenchRuns

  ghost predicate JobsOk(w: World) {
    && (forall j, k :: j in w.jobs && k in w.jobs && w.jobs[j].run == w.jobs[k].run ==> j == k)
    && (forall j :: j in w.jobs && LiveState(w.jobs[j].state) ==> w.jobs[j].run in w.runs)
    && (forall j :: j in w.jobs && w.jobs[j].run in w.runs ==> !w.runs[w.jobs[j].run].state.Draft?)
  }

  /** A run whose job never began has stopped nothing. */
  ghost predicate NotBegunOk(w: World) {
    && (forall j :: j in w.jobs && (w.jobs[j].state.Waiting? || w.jobs[j].state.Leased?) && w.jobs[j].run in w.runs
          ==> w.runs[w.jobs[j].run].stopped.None?)
    && (forall r :: r in w.runs && w.runs[r].state.Draft? ==> w.runs[r].stopped.None?)
  }

  predicate ActorOk(w: World, a: Actor, run: Id) {
    match a
    case Boot => !w.serving
    case Worker(j) =>
      && w.serving && HeldHere(w, j) && w.jobs[j].state.Working? && w.jobs[j].run == run
      && w.lease.Held? && w.lease.job == j && w.lease.run == run && w.lease.owner == w.boot
  }

  ghost predicate PhaseOk(w: World, run: Id, phase: Phase) {
    && run in w.runs
    && match phase
       case Checking => w.runs[run].stopped.None?
       case Stopping(rest) => Owes(w.runs[run]) && forall i :: i in rest ==> i in w.runs[run].stopped.value
       case Restoring(rest) => Owes(w.runs[run]) && forall i :: i in w.stoppedBy && w.stoppedBy[i] == run ==> i in rest
       case _ => true
  }

  ghost predicate ActsOk(w: World) {
    forall a :: a in w.acts ==>
      && ActorOk(w, a, w.acts[a].run) && PhaseOk(w, w.acts[a].run, w.acts[a].phase)
      && (a == Boot ==> w.acts[a].phase.Restoring?)
  }

  predicate Listed(w: World, i: Id, run: Id) { OwesRestore(w, run) && i in w.runs[run].stopped.value }

  ghost predicate StopsOk(w: World) { forall i :: i in w.stoppedBy ==> Listed(w, i, w.stoppedBy[i]) }

  ghost predicate PointsOk(w: World) { forall r :: r in w.runs ==> w.runs[r].total == Count(w.points, r) }

  ghost predicate Inv(w: World) {
    JobsOk(w) && NotBegunOk(w) && ActsOk(w) && StopsOk(w) && PointsOk(w)
  }

  // ---------------------------------------------------------------- requests

  lemma {:induction false} CountOfJoin(a: seq<Point>, b: seq<Point>, run: Id)
    ensures Count(a + b, run) == Count(a, run) + Count(b, run)
  {
    if a == [] {
      assert a + b == b;
    } else {
      assert (a + b)[1..] == a[1..] + b;
      CountOfJoin(a[1..], b, run);
    }
  }

  lemma {:induction false} CountOfRows(run: Id, count: nat, other: Id)
    ensures Count(PointRows(run, count), other) == if other == run then count else 0
  {
    if count > 0 {
      CountOfRows(run, count - 1, other);
      CountOfJoin(PointRows(run, count - 1), [Point(run, count - 1)], other);
    }
  }

  lemma {:induction false} CountWithout(points: seq<Point>, run: Id, other: Id)
    ensures Count(Without(points, run), other) == if other == run then 0 else Count(points, other)
  {
    if points != [] {
      CountWithout(points[1..], run, other);
      var first := if points[0].run == run then [] else [points[0]];
      CountOfJoin(first, Without(points[1..], run), other);
    }
  }

  lemma {:induction false} InsertPoints(w: World, run: Id, count: nat, state: RunState)
    requires PointsOk(w) && Fresh(w, run)
    ensures PointsOk(w.(runs := w.runs[run := Run(state, count, None, false)], points := w.points + PointRows(run, count)))
  {
    forall r ensures Count(w.points + PointRows(run, count), r) == Count(w.points, r) + if r == run then count else 0 {
      CountOfJoin(w.points, PointRows(run, count), r);
      CountOfRows(run, count, r);
    }
  }

  lemma {:induction false} InsertRows(w: World, v: World, run: Id, row: Run)
    requires Inv(w) && Fresh(w, run) && row.stopped.None? && v == w.(runs := w.runs[run := row], points := v.points)
    ensures JobsOk(v) && NotBegunOk(v)
  {
  }

  lemma {:induction false} InsertActs(w: World, v: World, run: Id, row: Run)
    requires Inv(w) && Fresh(w, run) && v == w.(runs := w.runs[run := row], points := v.points)
    ensures ActsOk(v) && StopsOk(v)
  {
  }

  lemma {:induction false} InsertKeeps(w: World, run: Id, count: nat, state: RunState)
    requires Inv(w) && Fresh(w, run)
    ensures Inv(w.(runs := w.runs[run := Run(state, count, None, false)], points := w.points + PointRows(run, count)))
  {
    var row := Run(state, count, None, false);
    var v := w.(runs := w.runs[run := row], points := w.points + PointRows(run, count));
    InsertPoints(w, run, count, state);
    InsertRows(w, v, run, row);
    InsertActs(w, v, run, row);
  }

  lemma {:induction false} EnqueueKeeps(w: World, run: Id, job: Id)
    requires Inv(w) && run in w.runs && !w.runs[run].state.Draft? && w.runs[run].stopped.None? && job !in w.jobs
    requires forall j :: j in w.jobs ==> w.jobs[j].run != run
    ensures Inv(w.(jobs := w.jobs[job := Job(run, Waiting, w.boot, false)]))
  {
  }

  lemma {:induction false} CreateKeeps(w: World, run: Id, count: nat, draft: bool, job: Option<Id>)
    requires Inv(w)
    ensures Inv(CreateRun(w, run, count, draft, job))
  {
    if Fresh(w, run) {
      var state := if draft then Draft else Queued;
      InsertKeeps(w, run, count, state);
      var v := w.(runs := w.runs[run := Run(state, count, None, false)], points := w.points + PointRows(run, count));
      if job.Some? && job.value !in w.jobs && !draft { EnqueueKeeps(v, run, job.value); }
    }
  }

  lemma {:induction false} SetStateRows(w: World, run: Id, state: RunState)
    requires Inv(w) && !state.Draft?
    ensures var v := SetState(w, run, state); JobsOk(v) && NotBegunOk(v) && PointsOk(v)
  {
  }

  lemma {:induction false} SetStateActs(w: World, run: Id, state: RunState)
    requires Inv(w) && !state.Draft?
    ensures var v := SetState(w, run, state); ActsOk(v) && StopsOk(v)
  {
  }

  lemma {:induction false} SetStateKeeps(w: World, run: Id, state: RunState)
    requires Inv(w) && !state.Draft?
    ensures Inv(SetState(w, run, state))
  {
    SetStateRows(w, run, state);
    SetStateActs(w, run, state);
  }

  lemma {:induction false} StartKeeps(w: World, run: Id, job: Id)
    requires Inv(w)
    ensures Inv(StartRun(w, run, job))
  {
    if run in w.runs && w.runs[run].state.Draft? && job !in w.jobs {
      SetStateKeeps(w, run, Queued);
      EnqueueKeeps(SetState(w, run, Queued), run, job);
    }
  }

  lemma {:induction false} DeleteKeeps(w: World, run: Id)
    requires Inv(w)
    ensures Inv(DeleteRun(w, run))
  {
    forall r ensures Count(Without(w.points, run), r) == if r == run then 0 else Count(w.points, r) {
      CountWithout(w.points, run, r);
    }
  }

  lemma {:induction false} SetJobRows(w: World, job: Id, state: JobState)
    requires Inv(w) && job in w.jobs && Worker(job) !in w.acts
    requires state.Done? || state.Purged? || (state.Waiting? && w.jobs[job].state.Leased?)
    ensures var v := SetJob(w, job, state); JobsOk(v) && NotBegunOk(v) && PointsOk(v)
  {
  }

  lemma {:induction false} SetJobActs(w: World, job: Id, state: JobState)
    requires Inv(w) && job in w.jobs && Worker(job) !in w.acts
    requires state.Done? || state.Purged? || (state.Waiting? && w.jobs[job].state.Leased?)
    ensures var v := SetJob(w, job, state); ActsOk(v) && StopsOk(v)
  {
  }

  lemma {:induction false} SetJobKeeps(w: World, job: Id, state: JobState)
    requires Inv(w) && job in w.jobs && Worker(job) !in w.acts
    requires state.Done? || state.Purged? || (state.Waiting? && w.jobs[job].state.Leased?)
    ensures Inv(SetJob(w, job, state))
  {
    SetJobRows(w, job, state);
    SetJobActs(w, job, state);
  }

  lemma {:induction false} ReleaseKeeps(w: World, job: Id)
    requires Inv(w) && Worker(job) !in w.acts
    ensures Inv(Release(w, job))
  {
  }

  /** Closing a job that no worker of this boot carries out. */
  lemma {:induction false} CloseJobKeeps(w: World, job: Id, state: RunState)
    requires Inv(w) && job in w.jobs && Worker(job) !in w.acts && !state.Draft?
    ensures Inv(CloseJob(w, job, state))
  {
    var v := SetJob(w, job, Done);
    SetJobKeeps(w, job, Done);
    SetStateKeeps(v, w.jobs[job].run, state);
    ReleaseKeeps(SetState(v, w.jobs[job].run, state), job);
  }

  lemma {:induction false} CancelKeeps(w: World, run: Id, job: Id)
    requires Inv(w)
    ensures Inv(CancelRun(w, run, job))
  {
    if job in w.jobs {
      FlagKeeps(w, job);
      if !HeldHere(w, job) { CloseJobKeeps(Flag(w, job), job, Canceled); }
    }
  }

  lemma {:induction false} FlagKeeps(w: World, job: Id)
    requires Inv(w) && job in w.jobs
    ensures Inv(Flag(w, job))
  {
  }

  // ---------------------------------------------------------------- queue and worker

  lemma {:induction false} ActorsOf(w: World)
    requires Inv(w)
    ensures forall j :: Worker(j) in w.acts ==> HeldHere(w, j) && w.jobs[j].state.Working? && w.lease.Held? && w.lease.job == j
    ensures forall j :: Worker(j) in w.acts ==> w.lease.owner == w.boot && w.serving
    ensures Boot in w.acts ==> !w.serving
  {
  }

  lemma {:induction false} AcquireRows(w: World, job: Id, expires: int)
    requires Inv(w) && w.serving && HeldHere(w, job) && w.jobs[job].state.Leased? && w.acts == map[]
    ensures var run := w.jobs[job].run;
      var v := SetState(SetJob(w, job, Working), run, Preflight)
      .(lease := Held(job, run, w.boot, expires), acts := map[Worker(job) := Activity(run, Checking)]); JobsOk(v) && NotBegunOk(v) && PointsOk(v)
  {
  }

  lemma {:induction false} AcquireActs(w: World, job: Id, expires: int)
    requires Inv(w) && w.serving && HeldHere(w, job) && w.jobs[job].state.Leased? && w.acts == map[]
    ensures var run := w.jobs[job].run;
      var v := SetState(SetJob(w, job, Working), run, Preflight)
      .(lease := Held(job, run, w.boot, expires), acts := map[Worker(job) := Activity(run, Checking)]); ActsOk(v) && StopsOk(v)
  {
  }

  lemma {:induction false} AcquireKeeps(w: World, job: Id, expires: int)
    requires Inv(w) && w.serving && HeldHere(w, job) && w.jobs[job].state.Leased? && w.acts == map[]
    ensures var run := w.jobs[job].run;
      Inv(SetState(SetJob(w, job, Working), run, Preflight)
        .(lease := Held(job, run, w.boot, expires), acts := map[Worker(job) := Activity(run, Checking)]))
  {
    AcquireRows(w, job, expires);
    AcquireActs(w, job, expires);
  }

  /** Nobody else is at work when the lease is acquired. */
  lemma {:induction false} AcquireIsAlone(w: World, job: Id, now: int)
    requires Inv(w) && w.serving && HeldHere(w, job) && w.jobs[job].state.Leased? && Acquires(w, job, now)
    ensures w.acts == map[]
  {
    ActorsOf(w);
    forall a | a in w.acts ensures false {
      match a
      case Boot => {}
      case Worker(j) => {}
    }
  }

  lemma {:induction false} BeginKeeps(w: World, job: Id, now: int, expires: int)
    requires Inv(w)
    ensures Inv(BeginJob(w, job, now, expires))
  {
    if w.serving && HeldHere(w, job) && w.jobs[job].state.Leased? {
      ActorsOf(w);
      if w.jobs[job].cancel {
        CloseJobKeeps(w, job, Canceled);
      } else if !Acquires(w, job, now) {
        SetJobKeeps(w, job, Waiting);
      } else {
        AcquireIsAlone(w, job, now);
        AcquireKeeps(w, job, expires);
      }
    }
  }

  lemma {:induction false} ListKeeps(w: World, job: Id, ids: seq<Id>)
    requires Inv(w)
    ensures Inv(ListStops(w, job, ids))
  {
  }

  lemma {:induction false} StopRows(w: World, job: Id, gone: bool)
    requires Inv(w)
    ensures var v := StopOne(w, job, gone); JobsOk(v) && NotBegunOk(v) && PointsOk(v)
  {
  }

  lemma {:induction false} StopActs(w: World, job: Id, gone: bool)
    requires Inv(w)
    ensures var v := StopOne(w, job, gone); ActsOk(v) && StopsOk(v)
  {
  }

  lemma {:induction false} StopKeeps(w: World, job: Id, gone: bool)
    requires Inv(w)
    ensures Inv(StopOne(w, job, gone))
  {
    StopRows(w, job, gone);
    StopActs(w, job, gone);
  }

  lemma {:induction false} SweepKeeps(w: World, job: Id)
    requires Inv(w)
    ensures Inv(SweepRun(w, job))
  {
  }

  lemma {:induction false} LeaveKeeps(w: World, job: Id)
    requires Inv(w)
    ensures Inv(LeaveSweep(w, job))
  {
  }

  lemma {:induction false} RestartKeeps(w: World, actor: Actor, gone: bool)
    requires Inv(w)
    ensures Inv(RestartOne(w, actor, gone))
  {
  }

  lemma {:induction false} MarkRows(w: World, actor: Actor)
    requires Inv(w)
    ensures var v := MarkRestored(w, actor); JobsOk(v) && NotBegunOk(v) && PointsOk(v)
  {
  }

  lemma {:induction false} MarkActs(w: World, actor: Actor)
    requires Inv(w)
    ensures var v := MarkRestored(w, actor); ActsOk(v) && StopsOk(v)
  {
  }

  lemma {:induction false} MarkKeeps(w: World, actor: Actor)
    requires Inv(w)
    ensures Inv(MarkRestored(w, actor))
  {
    MarkRows(w, actor);
    MarkActs(w, actor);
  }

  lemma {:induction false} DropKeeps(w: World, actor: Actor)
    requires Inv(w)
    ensures Inv(w.(acts := w.acts - {actor}))
  {
  }

  lemma {:induction false} CloseKeeps(w: World, job: Id, state: RunState)
    requires Inv(w)
    ensures Inv(CloseRun(w, job, state))
  {
    if job in w.jobs && !state.Draft? {
      DropKeeps(w, Worker(job));
      CloseJobKeeps(w.(acts := w.acts - {Worker(job)}), job, state);
    }
  }

  lemma {:induction false} BreakKeeps(w: World, job: Id)
    requires Inv(w)
    ensures Inv(BreakJob(w, job))
  {
    if HeldHere(w, job) {
      var v := w.(acts := w.acts - {Worker(job)});
      DropKeeps(w, Worker(job));
      CloseJobKeeps(v, job, Failed);
      assert BreakJob(w, job) == CloseJob(v, job, Failed);
    }
  }

  // ---------------------------------------------------------------- boot

  lemma {:induction false} TriageRows(w: World)
    requires Inv(w)
    ensures var v := TriageJobs(w); JobsOk(v) && NotBegunOk(v) && PointsOk(v)
  {
  }

  lemma {:induction false} TriageActs(w: World)
    requires Inv(w)
    ensures var v := TriageJobs(w); ActsOk(v) && StopsOk(v)
  {
  }

  lemma {:induction false} TriageKeeps(w: World)
    requires Inv(w)
    ensures Inv(TriageJobs(w))
  {
    TriageRows(w);
    TriageActs(w);
  }

  lemma {:induction false} ResolveKeeps(w: World, job: Id, state: RunState)
    requires Inv(w)
    ensures Inv(ResolveJob(w, job, state))
  {
    if job in w.jobs && w.jobs[job].state.Interrupted? && !state.Draft? { CloseJobKeeps(w, job, state); }
  }

  lemma {:induction false} RequestKeeps(w: World, a: Action)
    requires Inv(w) && (a.Create? || a.Start? || a.Cancel? || a.Delete? || a.Claim? || a.Begin?)
    ensures Inv(Step(w, a))
  {
    match a
    case Create(run, count, draft, job) => CreateKeeps(w, run, count, draft, job);
    case Start(run, job) => StartKeeps(w, run, job);
    case Cancel(run, job) => CancelKeeps(w, run, job);
    case Delete(run) => DeleteKeeps(w, run);
    case Claim(job) => ClaimKeeps(w, job);
    case Begin(job, now, expires) => BeginKeeps(w, job, now, expires);
  }

  lemma {:induction false} WorkerKeeps(w: World, a: Action)
    requires Inv(w) && (a.List? || a.Stop? || a.Sweep? || a.Leave? || a.Restart? || a.GiveUp? || a.Mark?)
    ensures Inv(Step(w, a))
  {
    match a
    case List(job, ids) => ListKeeps(w, job, ids);
    case Stop(job, gone) => StopKeeps(w, job, gone);
    case Sweep(job) => SweepKeeps(w, job);
    case Leave(job) => LeaveKeeps(w, job);
    case Restart(actor, gone) => RestartKeeps(w, actor, gone);
    case GiveUp(actor) => GiveUpKeeps(w, actor);
    case Mark(actor) => MarkKeeps(w, actor);
  }

  lemma {:induction false} EndKeeps(w: World, a: Action)
    requires Inv(w) && (a.Close? || a.Unclosed? || a.Break? || a.Abandon? || a.Triage? || a.Resolve?)
    ensures Inv(Step(w, a))
  {
    match a
    case Close(job, state) => CloseKeeps(w, job, state);
    case Unclosed(job) => UnclosedKeeps(w, job);
    case Break(job) => BreakKeeps(w, job);
    case Abandon(job) => DropKeeps(w, Worker(job));
    case Triage => TriageKeeps(w);
    case Resolve(job, state) => ResolveKeeps(w, job, state);
  }

  lemma {:induction false} StepKeeps(w: World, a: Action)
    requires Inv(w)
    ensures Inv(Step(w, a))
  {
    if a.Create? || a.Start? || a.Cancel? || a.Delete? || a.Claim? || a.Begin? {
      RequestKeeps(w, a);
    } else if a.List? || a.Stop? || a.Sweep? || a.Leave? || a.Restart? || a.GiveUp? || a.Mark? {
      WorkerKeeps(w, a);
    } else if a.Close? || a.Unclosed? || a.Break? || a.Abandon? || a.Triage? || a.Resolve? {
      EndKeeps(w, a);
    } else if a.Crash? || a.Recover? {
      CrashKeeps(w, a);
    } else if a.ReleaseForeign? || a.Serve? {
      ServeKeeps(w, a);
    } else if a.Touch? {
      TouchKeeps(w, a.job, a.expires);
    } else if a.Purge? {
      PurgeKeeps(w, a.job);
    } else {
      InstanceKeeps(w, a);
    }
  }

  lemma {:induction false} ClaimRows(w: World, job: Id)
    requires Inv(w)
    ensures var v := Step(w, Claim(job)); JobsOk(v) && NotBegunOk(v) && PointsOk(v)
  {
  }

  lemma {:induction false} ClaimActs(w: World, job: Id)
    requires Inv(w)
    ensures var v := Step(w, Claim(job)); ActsOk(v) && StopsOk(v)
  {
  }

  lemma {:induction false} ClaimKeeps(w: World, job: Id)
    requires Inv(w)
    ensures Inv(Step(w, Claim(job)))
  {
    ClaimRows(w, job);
    ClaimActs(w, job);
  }

  lemma {:induction false} GiveUpKeeps(w: World, actor: Actor)
    requires Inv(w)
    ensures Inv(GiveUpRestore(w, actor))
  {
    if actor == Boot { DropKeeps(w, actor); }
  }

  lemma {:induction false} UnclosedKeeps(w: World, job: Id)
    requires Inv(w)
    ensures Inv(LeaveUnclosed(w, job))
  {
  }

  lemma {:induction false} CrashRows(w: World, a: Action)
    requires Inv(w) && (a.Crash? || a.Recover?)
    ensures var v := Step(w, a); JobsOk(v) && NotBegunOk(v) && PointsOk(v)
  {
  }

  lemma {:induction false} CrashActs(w: World, a: Action)
    requires Inv(w) && (a.Crash? || a.Recover?)
    ensures var v := Step(w, a); ActsOk(v) && StopsOk(v)
  {
  }

  lemma {:induction false} CrashKeeps(w: World, a: Action)
    requires Inv(w) && (a.Crash? || a.Recover?)
    ensures Inv(Step(w, a))
  {
    CrashRows(w, a);
    CrashActs(w, a);
  }

  lemma {:induction false} ServeRows(w: World, a: Action)
    requires Inv(w) && (a.ReleaseForeign? || a.Serve?)
    ensures var v := Step(w, a); JobsOk(v) && NotBegunOk(v) && PointsOk(v)
  {
  }

  lemma {:induction false} ServeActs(w: World, a: Action)
    requires Inv(w) && (a.ReleaseForeign? || a.Serve?)
    ensures var v := Step(w, a); ActsOk(v) && StopsOk(v)
  {
  }

  lemma {:induction false} ServeKeeps(w: World, a: Action)
    requires Inv(w) && (a.ReleaseForeign? || a.Serve?)
    ensures Inv(Step(w, a))
  {
    ServeRows(w, a);
    ServeActs(w, a);
  }

  lemma {:induction false} TouchKeeps(w: World, job: Id, expires: int)
    requires Inv(w)
    ensures Inv(TouchLease(w, job, expires))
  {
  }

  lemma {:induction false} OrphanKeeps(w: World, lease: Lease)
    requires Inv(w) && (w.lease.Held? ==> Worker(w.lease.job) !in w.acts)
    ensures Inv(w.(lease := lease))
  {
    ActorsOf(w);
  }

  lemma {:induction false} PurgeKeeps(w: World, job: Id)
    requires Inv(w)
    ensures Inv(PurgeJob(w, job))
  {
    if job in w.jobs && w.jobs[job].state.Done? {
      ActorsOf(w);
      var v := SetJob(w, job, Purged);
      SetJobKeeps(w, job, Purged);
      if w.lease.Held? && w.lease.job == job { OrphanKeeps(v, Orphaned(w.lease.run, w.lease.owner)); }
    }
  }

  lemma {:induction false} InstanceRows(w: World, a: Action)
    requires Inv(w) && (a.StartByUser? || a.RemoveInstance?)
    ensures var v := Step(w, a); JobsOk(v) && NotBegunOk(v) && PointsOk(v)
  {
    var v := Step(w, a);
    assert v == w.(stoppedBy := v.stoppedBy);
    InstanceJobs(w, v);
  }

  lemma {:induction false} InstanceJobs(w: World, v: World)
    requires JobsOk(w) && NotBegunOk(w) && PointsOk(w) && v == w.(stoppedBy := v.stoppedBy)
    ensures JobsOk(v) && NotBegunOk(v) && PointsOk(v)
  {
  }

  lemma {:induction false} InstanceActs(w: World, a: Action)
    requires Inv(w) && (a.StartByUser? || a.RemoveInstance?)
    ensures var v := Step(w, a); ActsOk(v) && StopsOk(v)
  {
  }

  lemma {:induction false} InstanceKeeps(w: World, a: Action)
    requires Inv(w) && (a.StartByUser? || a.RemoveInstance?)
    ensures Inv(Step(w, a))
  {
    InstanceRows(w, a);
    InstanceActs(w, a);
  }

  lemma {:induction false} RunKeeps(w: World, acts: seq<Action>)
    requires Inv(w)
    ensures Inv(After(w, acts))
    decreases |acts|
  {
    if acts != [] {
      StepKeeps(w, acts[0]);
      RunKeeps(Step(w, acts[0]), acts[1..]);
    }
  }

  /** In every run, an instance that a benchmark stopped and that is still down is on the list of a run that owes it. */
  lemma {:induction false} NoRestoreIsLost(acts: seq<Action>)
    ensures var w := After(EMPTY, acts);
      forall i :: i in w.stoppedBy ==> exists r :: r in w.runs && Listed(w, i, r)
  {
    RunKeeps(EMPTY, acts);
  }

  /** Two sweeps are never carried out at once. */
  lemma {:induction false} OneSweepAtATime(acts: seq<Action>, j: Id, k: Id)
    requires var w := After(EMPTY, acts); Worker(j) in w.acts && Worker(k) in w.acts
    ensures j == k
  {
    RunKeeps(EMPTY, acts);
    ActorsOf(After(EMPTY, acts));
  }

  /** A run has as many points as it says, and a draft that was queued has its one job and is no draft again. */
  lemma {:induction false} RunsAreWhole(acts: seq<Action>)
    ensures var w := After(EMPTY, acts);
      && (forall r :: r in w.runs ==> w.runs[r].total == Count(w.points, r))
      && (forall j, k :: j in w.jobs && k in w.jobs && w.jobs[j].run == w.jobs[k].run ==> j == k)
      && (forall j :: j in w.jobs && w.jobs[j].run in w.runs ==> !w.runs[w.jobs[j].run].state.Draft?)
  {
    RunKeeps(EMPTY, acts);
  }

  /** A delete goes through only when nothing acts for the run any more and nothing it stopped is down. */
  lemma {:induction false} DeleteIsSafe(acts: seq<Action>, run: Id)
    requires var w := After(EMPTY, acts); run in w.runs && run !in Step(w, Delete(run)).runs
    ensures var w := After(EMPTY, acts);
      && (forall a :: a in w.acts ==> w.acts[a].run != run)
      && (forall i :: i in w.stoppedBy ==> w.stoppedBy[i] != run)
  {
    RunKeeps(EMPTY, acts);
    var w := After(EMPTY, acts);
    forall a | a in w.acts ensures w.acts[a].run != run {
      match a
      case Boot => assert PhaseOk(w, w.acts[a].run, w.acts[a].phase);
      case Worker(j) => assert ActorOk(w, a, w.acts[a].run);
    }
  }

  // ---------------------------------------------------------------- the lease and what is owed

  /** Whatever is owed, the lease is still written for it. */
  ghost predicate Guarded(w: World) {
    && (w.lease.Held? ==> w.lease.job in w.jobs && w.jobs[w.lease.job].run == w.lease.run)
    && forall r :: OwesRestore(w, r) ==> !w.lease.Free? && w.lease.run == r
  }

  predicate MayBegin(w: World, job: Id) {
    w.serving && HeldHere(w, job) && w.jobs[job].state.Leased? && !w.jobs[job].cancel
  }

  /** The lease of a run that owes a restore belongs to an earlier boot and has run out. */
  predicate Lapsed(w: World, job: Id, now: int) {
    && w.lease.Held? && w.lease.job != job && OwesRestore(w, w.lease.run)
    && w.lease.owner != w.boot && w.lease.expires < now
  }

  /** Nobody holds the lease of a run that owes a restore: the job that did was purged. */
  predicate Lost(w: World) { w.lease.Orphaned? && OwesRestore(w, w.lease.run) }

  /**
   A claimed job that nobody canceled begins exactly if the lease is free, has lost its job, is its own of this boot, or is
   of an earlier boot and has lapsed; otherwise it waits again, and nothing else changes.
   */
  lemma {:induction false} BeginsExactly(w: World, job: Id, now: int, expires: int)
    requires Inv(w) && MayBegin(w, job)
    ensures var v := Step(w, Begin(job, now, expires));
      var free := match w.lease case Held(holder, _, owner, until) =>
        if owner == w.boot then holder == job else until < now case _ => true;
      && (Worker(job) in v.acts <==> free)
      && v.lease == (if free then Held(job, w.jobs[job].run, w.boot, expires) else w.lease)
      && v.jobs == w.jobs[job := w.jobs[job].(state := if free then Working else Waiting)]
      && (!free ==> v == w.(jobs := v.jobs))
  {
    ActorsOf(w);
  }

  /** A sweep begins while another run owes a restore exactly when the lease of that run has lapsed or lost its job. */
  lemma {:induction false} BeginsBesideOwedExactly(w: World, job: Id, now: int, expires: int)
    requires Inv(w) && Guarded(w) && MayBegin(w, job)
    ensures Worker(job) in BeginJob(w, job, now, expires).acts && (exists r :: OwesRestore(w, r))
       <==> Lapsed(w, job, now) || Lost(w)
  {
    ActorsOf(w);
    assert Worker(job) !in w.acts;
    if Lapsed(w, job, now) || Lost(w) { assert OwesRestore(w, w.lease.run); }
  }

  /** A sweep begins on the lease of a run that owes a restore. */
  predicate Takes(w: World, a: Action) { a.Begin? && MayBegin(w, a.job) && (Lapsed(w, a.job, a.now) || Lost(w)) }

  lemma {:induction false} ListGuards(w: World, job: Id, ids: seq<Id>)
    requires Inv(w) && Guarded(w)
    ensures Guarded(ListStops(w, job, ids))
  {
    ActorsOf(w);
    var me := Worker(job);
    if me in w.acts {
      assert ActorOk(w, me, w.acts[me].run);
      var v := ListStops(w, job, ids);
      assert forall r :: OwesRestore(v, r) ==> OwesRestore(w, r) || r == w.acts[me].run;
    }
  }

  lemma {:induction false} CloseGuards(w: World, job: Id, state: RunState)
    requires Guarded(w) && job in w.jobs
    ensures Guarded(CloseJob(w, job, state))
  {
    var v := SetState(SetJob(w, job, Done), w.jobs[job].run, state);
    var u := CloseJob(w, job, state);
    assert forall r :: OwesRestore(v, r) <==> OwesRestore(w, r);
    assert forall r :: OwesRestore(u, r) <==> OwesRestore(w, r);
  }

  lemma {:induction false} BeginGuards(w: World, job: Id, now: int, expires: int)
    requires Inv(w) && Guarded(w) && !Takes(w, Begin(job, now, expires))
    ensures Guarded(BeginJob(w, job, now, expires))
  {
    if MayBegin(w, job) {
      BeginsBesideOwedExactly(w, job, now, expires);
      var v := BeginJob(w, job, now, expires);
      assert forall r :: OwesRestore(v, r) <==> OwesRestore(w, r);
    } else if w.serving && HeldHere(w, job) && w.jobs[job].state.Leased? {
      CloseGuards(w, job, Canceled);
    }
  }

  lemma {:induction false} RequestGuards(w: World, a: Action)
    requires Inv(w) && Guarded(w) && (a.Create? || a.Start? || a.Delete? || a.Claim?)
    ensures Guarded(Step(w, a))
  {
    var v := Step(w, a);
    assert forall r :: OwesRestore(v, r) ==> OwesRestore(w, r);
  }

  lemma {:induction false} WorkerGuards(w: World, a: Action)
    requires Inv(w) && Guarded(w) && (a.Stop? || a.Sweep? || a.Leave?)
    ensures Guarded(Step(w, a))
  {
    var v := Step(w, a);
    assert forall r :: OwesRestore(v, r) ==> OwesRestore(w, r);
  }

  lemma {:induction false} RestoreGuards(w: World, a: Action)
    requires Inv(w) && Guarded(w) && (a.Restart? || a.GiveUp? || a.Unclosed?)
    ensures Guarded(Step(w, a))
  {
    var v := Step(w, a);
    assert forall r :: OwesRestore(v, r) ==> OwesRestore(w, r);
  }

  lemma {:induction false} BootGuards(w: World, a: Action)
    requires Inv(w) && Guarded(w)
    requires a.Abandon? || a.Crash? || a.Triage? || a.Recover? || a.ReleaseForeign? || a.Serve?
    ensures Guarded(Step(w, a))
  {
    var v := Step(w, a);
    assert forall r :: OwesRestore(v, r) ==> OwesRestore(w, r);
  }

  lemma {:induction false} UpkeepGuards(w: World, a: Action)
    requires Inv(w) && Guarded(w) && (a.StartByUser? || a.RemoveInstance? || a.Touch?)
    ensures Guarded(Step(w, a))
  {
    var v := Step(w, a);
    assert forall r :: OwesRestore(v, r) ==> OwesRestore(w, r);
  }

  lemma {:induction false} PurgeGuards(w: World, job: Id)
    requires Guarded(w)
    ensures Guarded(PurgeJob(w, job))
  {
    var v := PurgeJob(w, job);
    assert forall r :: OwesRestore(v, r) <==> OwesRestore(w, r);
  }

  lemma {:induction false} StepGuards(w: World, a: Action)
    requires Inv(w) && Guarded(w) && !Takes(w, a)
    ensures Guarded(Step(w, a))
  {
    if a.Create? || a.Start? || a.Delete? || a.Claim? {
      RequestGuards(w, a);
    } else if a.Stop? || a.Sweep? || a.Leave? {
      WorkerGuards(w, a);
    } else if a.Restart? || a.GiveUp? || a.Unclosed? {
      RestoreGuards(w, a);
    } else if a.List? || a.Begin? || a.Cancel? || a.Close? || a.Break? || a.Resolve? || a.Mark? {
      LeaseStepGuards(w, a);
    } else if a.Purge? {
      PurgeGuards(w, a.job);
    } else if a.StartByUser? || a.RemoveInstance? || a.Touch? {
      UpkeepGuards(w, a);
    } else {
      BootGuards(w, a);
    }
  }

  lemma {:induction false} LeaseStepGuards(w: World, a: Action)
    requires Inv(w) && Guarded(w) && !Takes(w, a)
    requires a.List? || a.Begin? || a.Cancel? || a.Close? || a.Break? || a.Resolve? || a.Mark?
    ensures Guarded(Step(w, a))
  {
    match a
    case List(job, ids) => ListGuards(w, job, ids);
    case Begin(job, now, expires) => BeginGuards(w, job, now, expires);
    case Cancel(run, job) => CancelGuards(w, run, job);
    case Close(job, state) => if job in w.jobs { CloseGuards(w, job, state); DropGuards(CloseJob(w, job, state), job); }
    case Break(job) => if job in w.jobs { CloseGuards(w, job, Failed); DropGuards(CloseJob(w, job, Failed), job); }
    case Resolve(job, state) => if job in w.jobs { CloseGuards(w, job, state); }
    case Mark(actor) => MarkGuards(w, actor);
  }

  lemma {:induction false} CancelGuards(w: World, run: Id, job: Id)
    requires Guarded(w)
    ensures Guarded(CancelRun(w, run, job))
  {
    if job in w.jobs {
      var v := Flag(w, job);
      assert forall r :: OwesRestore(v, r) <==> OwesRestore(w, r);
      CloseGuards(v, job, Canceled);
    }
  }

  lemma {:induction false} DropGuards(w: World, job: Id)
    requires Guarded(w)
    ensures Guarded(w.(acts := w.acts - {Worker(job)}))
  {
    var v := w.(acts := w.acts - {Worker(job)});
    assert forall r :: OwesRestore(v, r) <==> OwesRestore(w, r);
  }

  lemma {:induction false} MarkGuards(w: World, actor: Actor)
    requires Guarded(w)
    ensures Guarded(MarkRestored(w, actor))
  {
    var v := MarkRestored(w, actor);
    assert forall r :: OwesRestore(v, r) ==> OwesRestore(w, r);
  }

  predicate NeverTaken(w: World, acts: seq<Action>)
    decreases |acts|
  {
    acts == [] || (!Takes(w, acts[0]) && NeverTaken(Step(w, acts[0]), acts[1..]))
  }

  lemma {:induction false} RunGuards(w: World, acts: seq<Action>)
    requires Inv(w) && Guarded(w) && NeverTaken(w, acts)
    ensures Inv(After(w, acts)) && Guarded(After(w, acts))
    decreases |acts|
  {
    if acts != [] {
      StepKeeps(w, acts[0]);
      StepGuards(w, acts[0]);
      RunGuards(Step(w, acts[0]), acts[1..]);
    }
  }

  /** A sweep begins while some run owes a restore. */
  ghost predicate Beside(w: World, a: Action) {
    a.Begin? && MayBegin(w, a.job) && Worker(a.job) in Step(w, a).acts && exists r :: OwesRestore(w, r)
  }

  ghost predicate NeverBeside(w: World, acts: seq<Action>)
    decreases |acts|
  {
    acts == [] || (!Beside(w, acts[0]) && NeverBeside(Step(w, acts[0]), acts[1..]))
  }

  lemma {:induction false} RunsBesideOwed(w: World, acts: seq<Action>)
    requires Inv(w) && Guarded(w)
    ensures NeverBeside(w, acts) <==> NeverTaken(w, acts)
    decreases |acts|
  {
    if acts != [] {
      var a := acts[0];
      if a.Begin? && MayBegin(w, a.job) { BeginsBesideOwedExactly(w, a.job, a.now, a.expires); }
      assert Beside(w, a) <==> Takes(w, a);
      if !Takes(w, a) {
        StepKeeps(w, a);
        StepGuards(w, a);
        RunsBesideOwed(Step(w, a), acts[1..]);
      }
    }
  }

  /**
   In a run no sweep ever begins into a fleet that is not put back, if and only if none ever begins on the lease of a
   run that owes a restore, because it has lapsed or because its job was purged.
   */
  lemma {:induction false} SweepsBesideOwedExactly(acts: seq<Action>)
    ensures NeverBeside(EMPTY, acts) <==> NeverTaken(EMPTY, acts)
  {
    RunsBesideOwed(EMPTY, acts);
  }

  lemma {:induction false} AfterJoin(w: World, first: seq<Action>, second: seq<Action>)
    ensures After(w, first + second) == After(After(w, first), second)
    decreases |first|
  {
    if first == [] {
      assert first + second == second;
    } else {
      assert (first + second)[1..] == first[1..] + second;
      AfterJoin(Step(w, first[0]), first[1..], second);
    }
  }

  lemma {:induction false} AfterThree(w: World, a: Action, b: Action, c: Action)
    ensures After(w, [a, b, c]) == Step(Step(Step(w, a), b), c)
  {
    assert [a, b, c][1..] == [b, c] && [b, c][1..] == [c] && [c][1..] == [];
    assert After(Step(Step(w, a), b), [c]) == Step(Step(Step(w, a), b), c);
  }

  /** A boot stops an instance and dies, the next one cannot start it again, and its sweep takes the lapsed lease. */
  function LapsedRun(r: Id, j: Id, s: Id, k: Id, i: Id): seq<Action> {
    [Serve, Create(r, 1, false, Some(j)), Claim(j)]
    + ([Begin(j, 0, 9), List(j, [i]), Stop(j, false)]
    + ([Crash, Triage, Recover(r)]
    + ([GiveUp(Boot), Serve, Create(s, 1, false, Some(k))] + [Claim(k), Begin(k, 10, 19), ReleaseForeign])))
  }

  const BEGUN := Run(Preflight, 1, None, false)

  function Stopped(r: Id, j: Id, i: Id): World {
    World(map[r := BEGUN.(stopped := Some([i]))], [Point(r, 0)], map[j := Job(r, Working, 0, false)],
      Held(j, r, 0, 9), 0, true, map[Worker(j) := Activity(r, Stopping([]))], map[i := r])
  }

  function Claimed(r: Id, j: Id): World {
    World(map[r := BEGUN.(state := Queued)], [Point(r, 0)], map[j := Job(r, Leased, 0, false)], Free, 0, true, map[], map[])
  }

  lemma {:induction false} FirstBoot(r: Id, j: Id)
    ensures After(EMPTY, [Serve, Create(r, 1, false, Some(j)), Claim(j)]) == Claimed(r, j)
  {
    assert PointRows(r, 1) == [Point(r, 0)];
    var a := Step(EMPTY, Serve);
    assert a == EMPTY.(serving := true);
    var b := Step(a, Create(r, 1, false, Some(j)));
    assert b == a.(runs := map[r := BEGUN.(state := Queued)], points := [Point(r, 0)], jobs := map[j := Job(r, Waiting, 0, false)]);
    assert Step(b, Claim(j)) == Claimed(r, j);
    AfterThree(EMPTY, Serve, Create(r, 1, false, Some(j)), Claim(j));
  }

  lemma {:induction false} FirstStop(r: Id, j: Id, i: Id)
    ensures After(Claimed(r, j), [Begin(j, 0, 9), List(j, [i]), Stop(j, false)]) == Stopped(r, j, i)
  {
    var c := Claimed(r, j);
    var d := Step(c, Begin(j, 0, 9));
    assert d == c.(runs := map[r := BEGUN], jobs := map[j := Job(r, Working, 0, false)],
      lease := Held(j, r, 0, 9), acts := map[Worker(j) := Activity(r, Checking)]);
    var e := Step(d, List(j, [i]));
    assert e == d.(runs := map[r := BEGUN.(stopped := Some([i]))], acts := map[Worker(j) := Activity(r, Stopping([i]))]);
    assert [i][1..] == [];
    assert Step(e, Stop(j, false)) == Stopped(r, j, i);
    AfterThree(c, Begin(j, 0, 9), List(j, [i]), Stop(j, false));
  }

  function Recovering(r: Id, j: Id, i: Id): World {
    Stopped(r, j, i).(jobs := map[j := Job(r, Interrupted, 0, false)], boot := 1, serving := false,
      acts := map[Boot := Activity(r, Restoring([i]))])
  }

  lemma {:induction false} SecondBoot(r: Id, j: Id, i: Id)
    ensures After(Stopped(r, j, i), [Crash, Triage, Recover(r)]) == Recovering(r, j, i)
  {
    var w := Stopped(r, j, i);
    var a := Step(w, Crash);
    assert a == w.(boot := 1, serving := false, acts := map[]);
    var b := Step(a, Triage);
    assert b == a.(jobs := map[j := Job(r, Interrupted, 0, false)]);
    assert Step(b, Recover(r)) == Recovering(r, j, i);
    AfterThree(w, Crash, Triage, Recover(r));
  }

  function Seconded(r: Id, j: Id, s: Id, k: Id, i: Id): World {
    var w := Recovering(r, j, i);
    w.(acts := map[], serving := true,
       runs := w.runs[s := BEGUN.(state := Queued)], points := [Point(r, 0), Point(s, 0)],
       jobs := w.jobs[k := Job(s, Waiting, 1, false)])
  }

  lemma {:induction false} SecondRun(r: Id, j: Id, s: Id, k: Id, i: Id)
    requires r != s && j != k
    ensures After(Recovering(r, j, i), [GiveUp(Boot), Serve, Create(s, 1, false, Some(k))]) == Seconded(r, j, s, k, i)
  {
    var w := Recovering(r, j, i);
    var a := Step(w, GiveUp(Boot));
    assert a == w.(acts := map[]);
    var b := Step(a, Serve);
    assert b == a.(serving := true);
    SecondIsCreated(b, r, s, k);
    AfterThree(w, GiveUp(Boot), Serve, Create(s, 1, false, Some(k)));
  }

  lemma {:induction false} SecondIsCreated(w: World, r: Id, s: Id, k: Id)
    requires r != s && s !in w.runs && k !in w.jobs && w.points == [Point(r, 0)] && w.boot == 1
    requires forall x :: x in w.jobs ==> w.jobs[x].run != s
    ensures Step(w, Create(s, 1, false, Some(k))) == w.(
      runs := w.runs[s := BEGUN.(state := Queued)], points := [Point(r, 0), Point(s, 0)],
      jobs := w.jobs[k := Job(s, Waiting, 1, false)])
  {
    assert w.points[1..] == [] && Count(w.points, s) == 0;
    assert PointRows(s, 1) == [Point(s, 0)];
  }

  /** The second sweep is at work while the first run owes a restore. */
  function Besides(r: Id, j: Id, s: Id, k: Id, i: Id): World {
    var w := Seconded(r, j, s, k, i);
    w.(runs := w.runs[s := BEGUN], jobs := w.jobs[k := Job(s, Working, 1, false)],
       lease := Held(k, s, 1, 19), acts := map[Worker(k) := Activity(s, Checking)])
  }

  lemma {:induction false} SecondSweep(r: Id, j: Id, s: Id, k: Id, i: Id)
    requires r != s && j != k
    ensures After(Seconded(r, j, s, k, i), [Claim(k), Begin(k, 10, 19), ReleaseForeign]) == Besides(r, j, s, k, i)
  {
    var w := Seconded(r, j, s, k, i);
    var a := Step(w, Claim(k));
    assert a == w.(jobs := w.jobs[k := Job(s, Leased, 1, false)]);
    assert Step(a, Begin(k, 10, 19)) == Besides(r, j, s, k, i);
    AfterThree(w, Claim(k), Begin(k, 10, 19), ReleaseForeign);
  }

  lemma {:induction false} LapsedRunIs(r: Id, j: Id, s: Id, k: Id, i: Id)
    requires r != s && j != k
    ensures After(EMPTY, LapsedRun(r, j, s, k, i)) == Besides(r, j, s, k, i)
  {
    var t4 := [Claim(k), Begin(k, 10, 19), ReleaseForeign];
    var t3 := [GiveUp(Boot), Serve, Create(s, 1, false, Some(k))] + t4;
    var t2 := [Crash, Triage, Recover(r)] + t3;
    FirstBoot(r, j);
    AfterJoin(EMPTY, [Serve, Create(r, 1, false, Some(j)), Claim(j)], [Begin(j, 0, 9), List(j, [i]), Stop(j, false)] + t2);
    FirstStop(r, j, i);
    AfterJoin(Claimed(r, j), [Begin(j, 0, 9), List(j, [i]), Stop(j, false)], t2);
    SecondBoot(r, j, i);
    AfterJoin(Stopped(r, j, i), [Crash, Triage, Recover(r)], t3);
    SecondRun(r, j, s, k, i);
    AfterJoin(Recovering(r, j, i), [GiveUp(Boot), Serve, Create(s, 1, false, Some(k))], t4);
    SecondSweep(r, j, s, k, i);
  }

  /** So a second sweep can begin while an instance that the first one stopped is still down. */
  lemma {:induction false} LapsedLeaseIsTaken(r: Id, j: Id, s: Id, k: Id, i: Id)
    requires r != s && j != k
    ensures var w := After(EMPTY, LapsedRun(r, j, s, k, i));
      Worker(k) in w.acts && OwesRestore(w, r) && i in w.stoppedBy
  {
    LapsedRunIs(r, j, s, k, i);
  }

  /** The second sweep ends, and its lease is free, for its own run owes nothing; a third run is claimed. */
  function Freed(k: Id, t: Id, l: Id): seq<Action> {
    [Leave(k), Close(k, Failed), Create(t, 1, false, Some(l))] + [Claim(l), Triage, Triage]
  }

  function Ended(r: Id, j: Id, s: Id, k: Id, i: Id, t: Id, l: Id): World {
    var w := Besides(r, j, s, k, i);
    w.(runs := w.runs[s := BEGUN.(state := Failed)][t := BEGUN.(state := Queued)],
       points := [Point(r, 0), Point(s, 0), Point(t, 0)],
       jobs := w.jobs[k := Job(s, Done, 1, false)][l := Job(t, Waiting, 1, false)], lease := Free, acts := map[])
  }

  lemma {:induction false} SecondEnds(r: Id, j: Id, s: Id, k: Id, i: Id, t: Id, l: Id)
    requires r != s && j != k && t != r && t != s && l != j && l != k
    ensures After(Besides(r, j, s, k, i), [Leave(k), Close(k, Failed), Create(t, 1, false, Some(l))]) == Ended(r, j, s, k, i, t, l)
  {
    var w := Besides(r, j, s, k, i);
    var a := w.(acts := map[Worker(k) := Activity(s, Closing)]);
    assert Step(w, Leave(k)) == a;
    SecondCloses(r, j, s, k, i);
    ThirdIsCreated(r, j, s, k, i, t, l);
    AfterThree(w, Leave(k), Close(k, Failed), Create(t, 1, false, Some(l)));
  }

  function Closed(r: Id, j: Id, s: Id, k: Id, i: Id): World {
    var w := Besides(r, j, s, k, i);
    w.(runs := w.runs[s := BEGUN.(state := Failed)], jobs := w.jobs[k := Job(s, Done, 1, false)],
       lease := Free, acts := map[])
  }

  lemma {:induction false} SecondCloses(r: Id, j: Id, s: Id, k: Id, i: Id)
    requires r != s && j != k
    ensures var a := Besides(r, j, s, k, i).(acts := map[Worker(k) := Activity(s, Closing)]);
      Step(a, Close(k, Failed)) == Closed(r, j, s, k, i)
  {
  }

  lemma {:induction false} ThirdIsCreated(r: Id, j: Id, s: Id, k: Id, i: Id, t: Id, l: Id)
    requires r != s && j != k && t != r && t != s && l != j && l != k
    ensures Step(Closed(r, j, s, k, i), Create(t, 1, false, Some(l))) == Ended(r, j, s, k, i, t, l)
  {
    ThirdIsFresh(Closed(r, j, s, k, i), r, s, t);
    assert PointRows(t, 1) == [Point(t, 0)];
  }

  lemma {:induction false} ThirdIsFresh(w: World, r: Id, s: Id, t: Id)
    requires t != r && t != s && t !in w.runs && w.points == [Point(r, 0), Point(s, 0)]
    requires forall x :: x in w.jobs ==> w.jobs[x].run != t
    ensures Fresh(w, t)
  {
    var last := [Point(s, 0)];
    assert last[1..] == [] && Count(last, t) == 0;
    assert w.points[1..] == last;
  }

  lemma {:induction false} ThirdIsClaimed(r: Id, j: Id, s: Id, k: Id, i: Id, t: Id, l: Id)
    requires r != s && j != k && t != r && t != s && l != j && l != k
    ensures var w := After(Ended(r, j, s, k, i, t, l), [Claim(l), Triage, Triage]);
      w.lease.Free? && OwesRestore(w, r) && i in w.stoppedBy && Beside(w, Begin(l, 11, 20))
  {
    var w := Ended(r, j, s, k, i, t, l);
    var a := Step(w, Claim(l));
    assert a == w.(jobs := w.jobs[l := Job(t, Leased, 1, false)]);
    assert Step(a, Triage) == a;
    AfterThree(w, Claim(l), Triage, Triage);
    BeginsOnFreeLease(a, r, l);
  }

  lemma {:induction false} BeginsOnFreeLease(w: World, r: Id, l: Id)
    requires !w.lease.Held? && OwesRestore(w, r) && MayBegin(w, l)
    ensures Beside(w, Begin(l, 11, 20))
  {
    assert Worker(l) in Step(w, Begin(l, 11, 20)).acts;
  }

  /** From then on the debt is not guarded: a third sweep begins beside it on a free lease. */
  lemma {:induction false} ThirdSweepBegins(r: Id, j: Id, s: Id, k: Id, i: Id, t: Id, l: Id)
    requires r != s && j != k && t != r && t != s && l != j && l != k
    ensures var w := After(EMPTY, LapsedRun(r, j, s, k, i) + Freed(k, t, l));
      w.lease.Free? && OwesRestore(w, r) && i in w.stoppedBy && Beside(w, Begin(l, 11, 20))
  {
    LapsedRunIs(r, j, s, k, i);
    AfterJoin(EMPTY, LapsedRun(r, j, s, k, i), Freed(k, t, l));
    SecondEnds(r, j, s, k, i, t, l);
    AfterJoin(Besides(r, j, s, k, i), [Leave(k), Close(k, Failed), Create(t, 1, false, Some(l))], [Claim(l), Triage, Triage]);
    ThirdIsClaimed(r, j, s, k, i, t, l);
  }

  /**
   In one boot the finalizer cannot start an instance again and the job of its run ends, is kept for as long as jobs
   are, and goes; then a second run is claimed.
   */
  function PurgedRun(r: Id, j: Id, s: Id, k: Id, i: Id): seq<Action> {
    [Serve, Create(r, 1, false, Some(j)), Claim(j)]
    + ([Begin(j, 0, 9), List(j, [i]), Stop(j, false)]
    + ([Leave(j), GiveUp(Worker(j)), Close(j, Failed)] + [Purge(j), Create(s, 1, false, Some(k)), Claim(k)]))
  }

  function Finalized(r: Id, j: Id, i: Id): World {
    var w := Stopped(r, j, i);
    w.(runs := map[r := BEGUN.(stopped := Some([i]), state := Failed)], jobs := map[j := Job(r, Done, 0, false)], acts := map[])
  }

  lemma {:induction false} FinalizerGivesUp(r: Id, j: Id, i: Id)
    ensures After(Stopped(r, j, i), [Leave(j), GiveUp(Worker(j)), Close(j, Failed)]) == Finalized(r, j, i)
  {
    var w := Stopped(r, j, i);
    var a := w.(acts := map[Worker(j) := Activity(r, Restoring([i]))]);
    assert Step(w, Leave(j)) == a;
    var b := w.(acts := map[Worker(j) := Activity(r, Closing)]);
    assert Step(a, GiveUp(Worker(j))) == b;
    FirstCloses(r, j, i);
    AfterThree(w, Leave(j), GiveUp(Worker(j)), Close(j, Failed));
  }

  lemma {:induction false} FirstCloses(r: Id, j: Id, i: Id)
    ensures var b := Stopped(r, j, i).(acts := map[Worker(j) := Activity(r, Closing)]);
      Step(b, Close(j, Failed)) == Finalized(r, j, i)
  {
  }

  lemma {:induction false} PurgeOrphans(r: Id, j: Id, s: Id, k: Id, i: Id)
    requires r != s && j != k
    ensures var w := After(Finalized(r, j, i), [Purge(j), Create(s, 1, false, Some(k)), Claim(k)]);
      Lost(w) && w.lease.run == r && i in w.stoppedBy && MayBegin(w, k)
  {
    var w := Finalized(r, j, i);
    var a := w.(jobs := map[j := Job(r, Purged, 0, false)], lease := Orphaned(r, 0));
    assert Step(w, Purge(j)) == a;
    assert a.points[1..] == [] && Count(a.points, s) == 0 && Fresh(a, s);
    var b := Step(a, Create(s, 1, false, Some(k)));
    assert b.jobs == a.jobs[k := Job(s, Waiting, 0, false)] && OwesRestore(b, r);
    assert Step(b, Claim(k)).jobs[k] == Job(s, Leased, 0, false);
    AfterThree(w, Purge(j), Create(s, 1, false, Some(k)), Claim(k));
  }

  /** So, with no boot in between and no lease lapsed, a sweep can begin beside a debt once the job it was owed to goes. */
  lemma {:induction false} PurgedLeaseIsTaken(r: Id, j: Id, s: Id, k: Id, i: Id)
    requires r != s && j != k
    ensures var w := After(EMPTY, PurgedRun(r, j, s, k, i));
      Lost(w) && w.lease.run == r && i in w.stoppedBy && Beside(w, Begin(k, 11, 20))
  {
    var t2 := [Purge(j), Create(s, 1, false, Some(k)), Claim(k)];
    var t1 := [Leave(j), GiveUp(Worker(j)), Close(j, Failed)] + t2;
    FirstBoot(r, j);
    AfterJoin(EMPTY, [Serve, Create(r, 1, false, Some(j)), Claim(j)], [Begin(j, 0, 9), List(j, [i]), Stop(j, false)] + t1);
    FirstStop(r, j, i);
    AfterJoin(Claimed(r, j), [Begin(j, 0, 9), List(j, [i]), Stop(j, false)], t1);
    FinalizerGivesUp(r, j, i);
    AfterJoin(Stopped(r, j, i), [Leave(j), GiveUp(Worker(j)), Close(j, Failed)], t2);
    PurgeOrphans(r, j, s, k, i);
    BeginsOnFreeLease(After(EMPTY, PurgedRun(r, j, s, k, i)), r, k);
  }

  // ---------------------------------------------------------------- boots

  /** Nothing is owned by a boot that is still to come. */
  predicate OwnersOk(w: World) {
    && (!w.lease.Free? ==> w.lease.owner <= w.boot)
    && forall j :: j in w.jobs ==> w.jobs[j].owner <= w.boot
  }

  lemma {:induction false} RequestOwners(w: World, a: Action)
    requires OwnersOk(w) && (a.Create? || a.Start? || a.Delete? || a.Claim?)
    ensures OwnersOk(Step(w, a))
  {
  }

  lemma {:induction false} CloseOwners(w: World, job: Id, state: RunState)
    requires OwnersOk(w) && job in w.jobs
    ensures OwnersOk(CloseJob(w, job, state))
  {
  }

  lemma {:induction false} BeginOwners(w: World, a: Action)
    requires OwnersOk(w) && (a.Begin? || a.Cancel? || a.Resolve?)
    ensures OwnersOk(Step(w, a))
  {
    match a
    case Begin(job, _, _) => if job in w.jobs { CloseOwners(w, job, Canceled); }
    case Cancel(_, job) => if job in w.jobs { CloseOwners(Flag(w, job), job, Canceled); }
    case Resolve(job, state) => if job in w.jobs { CloseOwners(w, job, state); }
  }

  lemma {:induction false} WorkerOwners(w: World, a: Action)
    requires OwnersOk(w) && (a.List? || a.Stop? || a.Sweep? || a.Leave?)
    ensures OwnersOk(Step(w, a))
  {
  }

  lemma {:induction false} RestoreOwners(w: World, a: Action)
    requires OwnersOk(w) && (a.Restart? || a.GiveUp? || a.Mark?)
    ensures OwnersOk(Step(w, a))
  {
  }

  lemma {:induction false} EndOwners(w: World, a: Action)
    requires OwnersOk(w) && (a.Close? || a.Unclosed? || a.Break? || a.Abandon?)
    ensures OwnersOk(Step(w, a))
  {
    match a
    case Close(job, state) => if job in w.jobs { CloseOwners(w, job, state); }
    case Break(job) => if job in w.jobs { CloseOwners(w, job, Failed); }
    case _ => {}
  }

  lemma {:induction false} BootOwners(w: World, a: Action)
    requires OwnersOk(w) && (a.Crash? || a.Triage? || a.Recover? || a.ReleaseForeign?)
    ensures OwnersOk(Step(w, a))
  {
  }

  lemma {:induction false} UpkeepOwners(w: World, a: Action)
    requires OwnersOk(w) && (a.Serve? || a.StartByUser? || a.RemoveInstance?)
    ensures OwnersOk(Step(w, a))
  {
  }

  lemma {:induction false} LeaseOwners(w: World, a: Action)
    requires OwnersOk(w) && (a.Touch? || a.Purge?)
    ensures OwnersOk(Step(w, a))
  {
  }

  lemma {:induction false} StepKeepsOwners(w: World, a: Action)
    requires OwnersOk(w)
    ensures OwnersOk(Step(w, a))
  {
    if a.Create? || a.Start? || a.Delete? || a.Claim? {
      RequestOwners(w, a);
    } else if a.Begin? || a.Cancel? || a.Resolve? {
      BeginOwners(w, a);
    } else if a.List? || a.Stop? || a.Sweep? || a.Leave? {
      WorkerOwners(w, a);
    } else if a.Restart? || a.GiveUp? || a.Mark? {
      RestoreOwners(w, a);
    } else if a.Close? || a.Unclosed? || a.Break? || a.Abandon? {
      EndOwners(w, a);
    } else if a.Crash? || a.Triage? || a.Recover? || a.ReleaseForeign? {
      BootOwners(w, a);
    } else if a.Touch? || a.Purge? {
      LeaseOwners(w, a);
    } else {
      UpkeepOwners(w, a);
    }
  }

  lemma {:induction false} RunKeepsOwners(w: World, acts: seq<Action>)
    requires OwnersOk(w)
    ensures OwnersOk(After(w, acts))
    decreases |acts|
  {
    if acts != [] {
      StepKeepsOwners(w, acts[0]);
      RunKeepsOwners(Step(w, acts[0]), acts[1..]);
    }
  }

  lemma {:induction false} TriageLeavesTheOld(w: World)
    requires OwnersOk(w)
    ensures var v := Step(Step(w, Crash), Triage);
      && !v.serving && v.acts == map[] && (!v.lease.Free? ==> v.lease.owner < v.boot)
      && (forall j :: j in v.jobs ==> !v.jobs[j].state.Leased? && !v.jobs[j].state.Working?)
  {
  }

  lemma {:induction false} AfterCrash(w: World)
    ensures After(w, [Crash, Triage]) == Step(Step(w, Crash), Triage)
  {
    var v := Step(w, Crash);
    assert [Crash, Triage][1..] == [Triage] && [Triage][1..] == [];
    assert After(v, [Triage]) == Step(v, Triage);
  }

  /** After a crash, whatever came before it, every lease and every held job is of an earlier boot. */
  lemma {:induction false} CrashLeavesTheOld(acts: seq<Action>)
    ensures var w := After(EMPTY, acts + [Crash, Triage]);
      && Inv(w) && !w.serving && w.acts == map[]
      && (!w.lease.Free? ==> w.lease.owner < w.boot)
      && (forall j :: j in w.jobs ==> !w.jobs[j].state.Leased? && !w.jobs[j].state.Working?)
  {
    RunKeepsOwners(EMPTY, acts);
    RunKeeps(EMPTY, acts + [Crash, Triage]);
    AfterJoin(EMPTY, acts, [Crash, Triage]);
    AfterCrash(After(EMPTY, acts));
    TriageLeavesTheOld(After(EMPTY, acts));
  }
}
