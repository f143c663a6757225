/** What each step of the system does to the books: one classification that all
    run-wide invariants are proved from. */
module Effects {
  import opened RunModel
  import opened Executor
  import opened Transactions
  import opened Protocol
  import Control
  import ExpandGraph

  /** Rows may be added; no claim is started or settled. */
  ghost predicate Undisturbed(r: Run, r': Run) {
    |r.tasks| <= |r'.tasks| && forall t: TaskId :: QuietAt(r, r', t)
  }

  ghost predicate Effect(s: Sys, step: Step)
    requires Enabled(s, step)
  {
    var s' := Protocol.Next(s, step);
    match step
    case Loop(e, input) => LoopEffect(s.run, s.execs[e], Tick(s.run, s.execs[e], e, s.now, input), e)
    case Commit(e, t, result) => CommitEffect(s.run, e, t, result, s'.run)
    case UserArtifact(_) => Undisturbed(s.run, s'.run) && s.run.events <= s'.run.events
    case UserExpand(_, _) => Undisturbed(s.run, s'.run) && s.run.events <= s'.run.events
    case _ => Quiet(s.run, s'.run)
  }

  lemma ExpandUndisturbed(r: Run, rows: seq<Task>, b: Body)
    requires Plain(b) && forall i :: 0 <= i < |rows| ==> rows[i].lease.None?
    ensures Undisturbed(r, AddEvent(r.(tasks := r.tasks + rows), b))
  {
    var r' := AddEvent(r.(tasks := r.tasks + rows), b);
    forall t: TaskId
      ensures QuietAt(r, r', t)
    {}
  }

  lemma ArtifactUndisturbed(r: Run, artifacts: seq<Artifact>, b: Body)
    requires Plain(b)
    ensures Undisturbed(r, AddEvent(r.(artifacts := artifacts), b))
  {
    var r' := AddEvent(r.(artifacts := artifacts), b);
    forall t: TaskId
      ensures QuietAt(r, r', t)
    {}
  }

  lemma CompensateQuiet(r: Run, p: Enqueue)
    ensures Quiet(r, Compensate(r, p))
  {
    RowsQuiet(r, r);
    match p
    case CreateEnqueue(_) => ChangeThenEvent(r, r.(status := RunFailed), QueueRejected);
    case ControlEnqueue(previous, _) => ChangeThenEvent(r, r.(status := previous), QueueRejected);
    case ProbeEnqueue(_) => ChangeThenEvent(r, r.(status := RunPaused), QueueRejected);
  }

  lemma ExceptionQuiet(r: Run)
    ensures Quiet(r, HandleException(r))
  {
    FailQuiet(r, r, Crashed);
    RowsQuiet(r, r);
    ThenEvent(r, r, Audit);
  }

  lemma EventQuiet(r: Run, status: RunStatus, b: Body)
    requires Plain(b)
    ensures Quiet(r, AddEvent(r.(status := status), b))
  {
    ChangeThenEvent(r, r.(status := status), b);
  }

  lemma RenewQuiet(r: Run, e: ExecId, t: TaskId, now: int)
    requires t < |r.tasks|
    ensures Quiet(r, Renew(r, e, t, now))
  {
    RowsQuiet(r, Renew(r, e, t, now));
  }

  lemma ControlQuiet(r: Run, target: Option<TaskId>, capReached: bool)
    ensures Quiet(r, Control.Pause(r)) && Quiet(r, Control.Cancel(r))
    ensures Quiet(r, Control.Resume(r, capReached).run) && Quiet(r, Control.Retry(r, target, capReached).run)
  {
    PauseCancelQuiet(r, RunPaused);
    PauseCancelQuiet(r, RunCancelled);
    PauseCancelQuiet(r, RunRunning);
    RetryQuiet(r, target, capReached);
  }

  lemma StepEffect(s: Sys, step: Step)
    requires Enabled(s, step)
    ensures Effect(s, step)
  {
    var r := s.run;
    match step
    case Loop(e, input) => TickEffect(r, s.execs[e], e, s.now, input);
    case Commit(e, t, result) => SettleEffect(r, e, t, s.now, result);
    case UserArtifact(task) =>
      ArtifactUndisturbed(r, r.artifacts + [Artifact(task, false)], ArtifactCommitted(|r.artifacts|));
    case UserExpand(parent, plan) => ExpandUndisturbed(r, ExpandGraph.NewRows(plan.children, parent), GraphExpanded);
    case _ => OtherStepEffect(s, step);
  }

  lemma OtherStepEffect(s: Sys, step: Step)
    requires Enabled(s, step)
    requires !step.Loop? && !step.Commit? && !step.UserArtifact? && !step.UserExpand?
    ensures Quiet(s.run, Protocol.Next(s, step).run)
  {
    var r := s.run;
    RowsQuiet(r, r);
    match step
    case Raise(_, _) => ExceptionQuiet(r);
    case InjectExhaustion(_) => EventQuiet(r, RunBudgetExhausted, RunExhausted);
    case BuildFails(e) => BuildFailureQuiet(r, s.execs[e]);
    case RenewLease(e, t) => RenewQuiet(r, e, t, s.now);
    case UserPause => ControlQuiet(r, None, false);
    case UserCancel => ControlQuiet(r, None, false);
    case UserResume(capReached, _) => ControlQuiet(r, None, capReached);
    case UserRetry(target, capReached, _) => ControlQuiet(r, target, capReached);
    case EnqueueFails(p) => CompensateQuiet(r, p);
    case ProbeResume(_) => EventQuiet(r, RunRunning, Resumed);
    case ProbeFails => EventQuiet(r, r.status, ResumeProbe);
    case Sweep => FailQuiet(r, r, Swept);
    case Note(n) => AuditsQuiet(r, r, n);
    case _ =>
  }

  /** The log gets nothing, or one entry. */
  ghost predicate OneEntry(r: Run, r': Run, b: Body) {
    r'.events == r.events || r'.events == r.events + [Event(r.cursor + 1, b)]
  }

  predicate ControlStep(step: Step) { step.UserPause? || step.UserCancel? || step.UserResume? || step.UserRetry? }

  lemma ControlEntry(s: Sys, step: Step)
    requires Enabled(s, step) && ControlStep(step)
    ensures OneEntry(s.run, Protocol.Next(s, step).run, Controlled)
  {}

  predicate CallStep(step: Step) { step.Raise? || step.InjectExhaustion? || step.Build? || step.BuildFails? || step.RenewLease? }

  lemma CallEntry(s: Sys, step: Step) returns (b: Body)
    requires Enabled(s, step) && CallStep(step)
    ensures Plain(b) && OneEntry(s.run, Protocol.Next(s, step).run, b)
  {
    match step
    case Raise(_, _) => b := if Active(s.run.status) then RunFailure(Crashed) else Audit;
    case InjectExhaustion(_) => b := RunExhausted;
    case _ => b := RunFailure(NotConfigured);
  }

  predicate OtherWriter(step: Step) {
    step.EnqueueFails? || step.ProbeResume? || step.ProbeFails? || step.Sweep?
  }

  lemma OtherEntry(s: Sys, step: Step) returns (b: Body)
    requires Enabled(s, step) && OtherWriter(step)
    ensures Plain(b) && OneEntry(s.run, Protocol.Next(s, step).run, b)
  {
    match step
    case EnqueueFails(_) => b := QueueRejected;
    case ProbeResume(_) => b := Resumed;
    case ProbeFails => b := ResumeProbe;
    case _ => b := RunFailure(Swept);
  }

  lemma UserEntry(s: Sys, step: Step) returns (b: Body)
    requires step.UserArtifact? || step.UserExpand?
    ensures Plain(b) && OneEntry(s.run, Protocol.Next(s, step).run, b)
  {
    if step.UserArtifact? {
      b := ArtifactCommitted(|s.run.artifacts|);
    } else {
      b := GraphExpanded;
    }
  }

  /** Outside loop iterations, commits and audits a step writes at most one entry, and
      none that starts, fences or settles a claim or moves tokens. */
  lemma StepEntry(s: Sys, step: Step) returns (b: Body)
    requires Enabled(s, step) && !step.Loop? && !step.Commit? && !step.Note?
    ensures Plain(b) && OneEntry(s.run, Protocol.Next(s, step).run, b)
  {
    if ControlStep(step) {
      ControlEntry(s, step);
      b := Controlled;
    } else if CallStep(step) {
      b := CallEntry(s, step);
    } else if OtherWriter(step) {
      b := OtherEntry(s, step);
    } else if step.UserArtifact? || step.UserExpand? {
      b := UserEntry(s, step);
    } else {
      b := Audit;
    }
  }

  /** The log only grows and rows are never removed. */
  lemma LogGrows(s: Sys, step: Step)
    requires Enabled(s, step)
    ensures s.run.events <= Protocol.Next(s, step).run.events
    ensures |s.run.tasks| <= |Protocol.Next(s, step).run.tasks|
  {
    StepEffect(s, step);
  }

  /** Only an executor's own loop puts tasks in flight. */
  ghost predicate InflightKept(s: Sys, s': Sys) {
    forall e, t {:trigger t in s'.execs[e].inflight} :: e in s'.execs && t in s'.execs[e].inflight ==>
      e in s.execs && t in s.execs[e].inflight && s'.execs[e].inflight[t] == s.execs[e].inflight[t]
  }

  predicate Claims(s: Sys, step: Step)
    requires step.Loop? ==> step.e in s.execs
  {
    step.Loop? && Tick(s.run, s.execs[step.e], step.e, s.now, step.input).next.Work?
  }

  lemma InflightOnlyByClaim(s: Sys, step: Step)
    requires Enabled(s, step) && !Claims(s, step)
    ensures InflightKept(s, Protocol.Next(s, step))
  {
    StepEffect(s, step);
  }
}
