/** The run as a concurrent system: any number of executors, the control
    endpoints, the prober, the sweeper and the broker step on the same rows.
    Each transaction of the source is one step. */
module Protocol {
  import opened RunModel
  import opened TaskGraph
  import opened Executor
  import Control
  import ExpandGraph

  /** An enqueue that follows a commit and has not happened yet; `id` is the task
      id the broker will give the delivery. */
  datatype Enqueue =
    | CreateEnqueue(id: ExecId)
    | ControlEnqueue(previous: RunStatus, id: ExecId)
    | ProbeEnqueue(id: ExecId)

  datatype Sys = Sys(run: Run, now: int, queue: multiset<ExecId>, execs: map<ExecId, Exec>, pending: multiset<Enqueue>)

  datatype Step =
    | Advance(dt: nat)
    // broker and worker processes
    | Deliver(e: ExecId) | WorkerLost(e: ExecId) | Raise(e: ExecId, redeliver: bool)
    // executor transactions
    | Loop(e: ExecId, input: TickInput) | InjectExhaustion(e: ExecId)
    | Build(e: ExecId) | BuildFails(e: ExecId)
    | Commit(e: ExecId, t: TaskId, result: HandlerResult) | RenewLease(e: ExecId, t: TaskId)
    // control endpoints
    | UserPause | UserCancel
    | UserResume(capReached: bool, id: ExecId) | UserRetry(target: Option<TaskId>, capReached: bool, id: ExecId)
    | UserArtifact(task: Option<TaskId>) | UserExpand(parent: string, plan: ExpandGraph.Plan)
    // enqueue after commit
    | EnqueueOk(p: Enqueue) | EnqueueFails(p: Enqueue)
    // prober, sweeper, audit writers
    | ProbeResume(id: ExecId) | ProbeFails | Sweep | Note(n: nat)

  /** Committed by `create_agent_run`, before its enqueue. */
  ghost predicate Init(s: Sys) {
    && s.run.status == RunPending && s.run.budgetUsed == 0
    && s.run.cursor == 1 && s.run.events == [Event(1, RunCreated)] && s.run.artifacts == []
    && (forall i :: 0 <= i < |s.run.tasks| ==> Fresh(s.run.tasks[i]))
    && WellFormed(s.run.tasks)
    && s.queue == multiset{} && s.execs == map[]
    && exists id :: s.pending == multiset{CreateEnqueue(id)}
  }

  predicate Fresh(task: Task) {
    task.status.TaskPending? && task.attempts == 0 && task.retryable == 0
    && task.lease.None? && task.expires.None? && task.nextAt.None?
  }

  predicate Idle(s: Sys, e: ExecId) {
    e in s.execs && s.execs[e].inflight == map[] && !s.execs[e].building
  }

  ghost predicate Enabled(s: Sys, step: Step) {
    match step
    case Deliver(e) => e in s.queue && e !in s.execs  // live executors have distinct ids
    case WorkerLost(e) => e in s.execs
    case Raise(e, _) => e in s.execs
    case Loop(e, input) => Idle(s, e) && input.cap > 0
    case InjectExhaustion(e) => Idle(s, e) && Active(s.run.status)
    case Build(e) => e in s.execs && s.execs[e].building
    case BuildFails(e) => e in s.execs && s.execs[e].building
    case Commit(e, t, _) => e in s.execs && !s.execs[e].building && t in s.execs[e].inflight && t < |s.run.tasks|
    case RenewLease(e, t) => e in s.execs && t in s.execs[e].inflight && t < |s.run.tasks|
    case UserExpand(parent, plan) => ExpandGraph.Acceptable(s.run.tasks, parent, plan, s.run.budgetLimit, s.run.budgetUsed)
    case EnqueueOk(p) => p in s.pending
    case EnqueueFails(p) => p in s.pending
    case ProbeResume(_) => s.run.status.RunPaused? && exists i :: 0 <= i < |s.run.events| && s.run.events[i].body.AutoPaused?
    case Sweep => Control.Sweepable(s.run, s.now)
    case _ => true
  }

  function Enqueued(s: Sys, r: Control.ControlResult, id: ExecId): Sys {
    s.(run := r.run, pending := if r.enqueue.Some? then s.pending + multiset{ControlEnqueue(r.enqueue.value, id)} else s.pending)
  }

  /** What an enqueue failure does to the run: creation and control restore
      unconditionally, the prober only while the run is still RUNNING. */
  function Compensate(r: Run, p: Enqueue): Run {
    match p
    case CreateEnqueue(_) => AddEvent(r.(status := RunFailed), QueueRejected)
    case ControlEnqueue(previous, _) => AddEvent(r.(status := previous), QueueRejected)
    case ProbeEnqueue(_) => if r.status.RunRunning? then AddEvent(r.(status := RunPaused), QueueRejected) else r
  }

  /** The exception handler of `execute_run`. */
  function HandleException(r: Run): Run {
    if Active(r.status) then FailRun(r, Crashed) else AddEvent(r, Audit)
  }

  function Next(s: Sys, step: Step): Sys
    requires step.Loop? || step.Build? || step.BuildFails? || step.Commit? ==> step.e in s.execs
    requires step.Commit? || step.RenewLease? ==> step.t < |s.run.tasks|
  {
    match step
    case Advance(dt) => s.(now := s.now + dt)
    case Deliver(e) => s.(queue := s.queue - multiset{e}, execs := s.execs[e := FRESH])
    case WorkerLost(e) => s.(queue := s.queue + multiset{e}, execs := s.execs - {e})
    case Raise(e, redeliver) =>
      s.(run := HandleException(s.run), execs := s.execs - {e},
         queue := if redeliver then s.queue + multiset{e} else s.queue)
    case Loop(e, input) =>
      var res := Tick(s.run, s.execs[e], e, s.now, input);
      s.(run := res.run, execs := if res.next.Exit? then s.execs - {e} else s.execs[e := res.exec])
    case InjectExhaustion(e) =>
      s.(run := AddEvent(s.run.(status := RunBudgetExhausted), RunExhausted), execs := s.execs - {e})
    case Build(e) => s.(execs := s.execs[e := s.execs[e].(providerReady := true, building := false)])
    case BuildFails(e) => s.(run := BuildFailure(s.run, s.execs[e]), execs := s.execs - {e})
    case Commit(e, t, result) =>
      s.(run := Settle(s.run, e, t, s.now, result),
         execs := s.execs[e := s.execs[e].(inflight := s.execs[e].inflight - {t})])
    case RenewLease(e, t) => s.(run := Renew(s.run, e, t, s.now))
    case UserPause => s.(run := Control.Pause(s.run))
    case UserCancel => s.(run := Control.Cancel(s.run))
    case UserResume(capReached, id) => Enqueued(s, Control.Resume(s.run, capReached), id)
    case UserRetry(target, capReached, id) => Enqueued(s, Control.Retry(s.run, target, capReached), id)
    case UserArtifact(task) => s.(run := Control.UserArtifact(s.run, task))
    case UserExpand(parent, plan) =>
      s.(run := AddEvent(s.run.(tasks := s.run.tasks + ExpandGraph.NewRows(plan.children, parent)), GraphExpanded))
    case EnqueueOk(p) => s.(queue := s.queue + multiset{p.id}, pending := s.pending - multiset{p})
    case EnqueueFails(p) => s.(run := Compensate(s.run, p), pending := s.pending - multiset{p})
    case ProbeResume(id) =>
      s.(run := AddEvent(s.run.(status := RunRunning), Resumed), pending := s.pending + multiset{ProbeEnqueue(id)})
    case ProbeFails => if s.run.status.RunPaused? then s.(run := AddEvent(s.run, ResumeProbe)) else s
    case Sweep => s.(run := FailRun(s.run, Swept))
    case Note(n) => s.(run := AddAudits(s.run, n))
  }

  /** Consecutive states under a list of steps. */
  ghost predicate Chain(states: seq<Sys>, steps: seq<Step>) {
    && |states| == |steps| + 1
    && forall i :: 0 <= i < |steps| ==> Enabled(states[i], steps[i]) && states[i + 1] == Next(states[i], steps[i])
  }

  /** A run of the system from its creation. */
  ghost predicate Execution(states: seq<Sys>, steps: seq<Step>) {
    Chain(states, steps) && Init(states[0])
  }
}
