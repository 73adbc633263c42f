/**
 What an accepted cancel is worth: the job it was for never begins any more, whatever else happens.
 */
module BenchCancel {
  import opened Options
  import opened BenchRuns

  predicate Canceling(w: World, job: Id) { job in w.jobs && w.jobs[job].cancel }

  /** What a step leaves of a job that is flagged: it does not begin, and its flag stays. */
  predicate StaysCanceled(w: World, v: World, job: Id)
    requires job in w.jobs
  {
    && Canceling(v, job)
    && (v.jobs[job].state.Working? ==> w.jobs[job].state.Working?)
    && (Worker(job) in v.acts ==> Worker(job) in w.acts)
  }

  lemma {:induction false} RequestStays(w: World, a: Action, job: Id)
    requires Canceling(w, job) && (a.Create? || a.Start? || a.Delete? || a.Claim?)
    ensures StaysCanceled(w, Step(w, a), job)
  {
  }

  lemma {:induction false} CloseStays(w: World, other: Id, state: RunState, job: Id)
    requires Canceling(w, job) && other in w.jobs
    ensures StaysCanceled(w, CloseJob(w, other, state), job)
  {
  }

  lemma {:induction false} BeginStays(w: World, a: Action, job: Id)
    requires Canceling(w, job) && a.Begin?
    ensures StaysCanceled(w, Step(w, a), job)
  {
    if a.job in w.jobs { CloseStays(w, a.job, Canceled, job); }
  }

  lemma {:induction false} CancelStays(w: World, a: Action, job: Id)
    requires Canceling(w, job) && (a.Cancel? || a.Resolve?)
    ensures StaysCanceled(w, Step(w, a), job)
  {
    if a.job in w.jobs {
      CloseStays(Flag(w, a.job), a.job, Canceled, job);
      if a.Resolve? { CloseStays(w, a.job, a.state, job); }
    }
  }

  lemma {:induction false} WorkerStays(w: World, a: Action, job: Id)
    requires Canceling(w, job) && (a.List? || a.Stop? || a.Sweep? || a.Leave?)
    ensures StaysCanceled(w, Step(w, a), job)
  {
  }

  lemma {:induction false} RestoreStays(w: World, a: Action, job: Id)
    requires Canceling(w, job) && (a.Restart? || a.GiveUp? || a.Mark?)
    ensures StaysCanceled(w, Step(w, a), job)
  {
  }

  lemma {:induction false} EndStays(w: World, a: Action, job: Id)
    requires Canceling(w, job) && (a.Close? || a.Unclosed? || a.Break? || a.Abandon?)
    ensures StaysCanceled(w, Step(w, a), job)
  {
    match a
    case Close(other, state) => if other in w.jobs { CloseStays(w, other, state, job); }
    case Break(other) => if other in w.jobs { CloseStays(w, other, Failed, job); }
    case _ => {}
  }

  lemma {:induction false} BootStays(w: World, a: Action, job: Id)
    requires Canceling(w, job) && (a.Crash? || a.Triage? || a.Recover? || a.ReleaseForeign?)
    ensures StaysCanceled(w, Step(w, a), job)
  {
  }

  lemma {:induction false} UpkeepStays(w: World, a: Action, job: Id)
    requires Canceling(w, job) && (a.Serve? || a.StartByUser? || a.RemoveInstance?)
    ensures StaysCanceled(w, Step(w, a), job)
  {
  }

  lemma {:induction false} LeaseStays(w: World, a: Action, job: Id)
    requires Canceling(w, job) && (a.Touch? || a.Purge?)
    ensures StaysCanceled(w, Step(w, a), job)
  {
  }

  lemma {:induction false} StepStays(w: World, a: Action, job: Id)
    requires Canceling(w, job)
    ensures StaysCanceled(w, Step(w, a), job)
  {
    if a.Create? || a.Start? || a.Delete? || a.Claim? {
      RequestStays(w, a, job);
    } else if a.Begin? {
      BeginStays(w, a, job);
    } else if a.Cancel? || a.Resolve? {
      CancelStays(w, a, job);
    } else if a.List? || a.Stop? || a.Sweep? || a.Leave? {
      WorkerStays(w, a, job);
    } else if a.Restart? || a.GiveUp? || a.Mark? {
      RestoreStays(w, a, job);
    } else if a.Close? || a.Unclosed? || a.Break? || a.Abandon? {
      EndStays(w, a, job);
    } else if a.Crash? || a.Triage? || a.Recover? || a.ReleaseForeign? {
      BootStays(w, a, job);
    } else if a.Touch? || a.Purge? {
      LeaseStays(w, a, job);
    } else {
      UpkeepStays(w, a, job);
    }
  }

  lemma {:induction false} RunStays(w: World, acts: seq<Action>, job: Id)
    requires Canceling(w, job)
    ensures StaysCanceled(w, After(w, acts), job)
    decreases |acts|
  {
    if acts != [] {
      StepStays(w, acts[0], job);
      RunStays(Step(w, acts[0]), acts[1..], job);
    }
  }

  predicate Cancelable(w: World, run: Id, job: Id) {
    run in w.runs && job in w.jobs && w.jobs[job].run == run && !w.jobs[job].state.Done? && !w.jobs[job].state.Purged?
  }

  /** The job is flagged. If this boot holds it that is all; otherwise it is over at once, and its run with it. */
  lemma {:induction false} CancelIs(w: World, run: Id, job: Id)
    requires Cancelable(w, run, job)
    ensures var v, j := Step(w, Cancel(run, job)), w.jobs[job];
      if j.owner == w.boot && (j.state.Leased? || j.state.Working?) then v == w.(jobs := w.jobs[job := j.(cancel := true)])
      else
        && v == w.(jobs := v.jobs, runs := v.runs, lease := v.lease)
        && v.jobs == w.jobs[job := j.(state := JobState.Done, cancel := true)]
        && v.runs == w.runs[run := w.runs[run].(state := Canceled)]
        && v.lease == if w.lease.Held? && w.lease.job == job && !OwesRestore(w, w.lease.run) then Free else w.lease
  {
  }

  /** After an accepted cancel, however the run goes on, no step begins the job, and its flag is never lost. */
  lemma {:induction false} CanceledNeverBegins(w: World, run: Id, job: Id, acts: seq<Action>, a: Action)
    requires Cancelable(w, run, job)
    ensures var u := After(Step(w, Cancel(run, job)), acts);
      var v := Step(u, a);
      && job in u.jobs && u.jobs[job].cancel && job in v.jobs
      && (v.jobs[job].state.Working? ==> u.jobs[job].state.Working?)
      && (Worker(job) in v.acts ==> Worker(job) in u.acts)
  {
    CancelIs(w, run, job);
    var c := Step(w, Cancel(run, job));
    RunStays(c, acts, job);
    StepStays(After(c, acts), a, job);
  }

  /** So a job that was not at work when it was canceled never is. */
  lemma {:induction false} CanceledNeverWorks(w: World, run: Id, job: Id, acts: seq<Action>)
    requires Cancelable(w, run, job) && !w.jobs[job].state.Working? && Worker(job) !in w.acts
    ensures var u := After(Step(w, Cancel(run, job)), acts);
      job in u.jobs && !u.jobs[job].state.Working? && Worker(job) !in u.acts
  {
    CancelIs(w, run, job);
    RunStays(Step(w, Cancel(run, job)), acts, job);
  }
}
