/** The run's status over whole executions: no active run is stranded, where
    results can appear, what COMPLETED means, and exactly which steps leave a
    terminal status. */
module RunStates {
  import opened RunModel
  import opened Executor
  import opened Transactions
  import opened Protocol
  import opened Effects
  import opened RowEffects
  import Control
  import Fencing
  import Ledger

  // ---------------------------------------------------------------- status of one iteration

  /** RUNNING under an unexpired lease. */
  predicate Held(task: Task, now: int) {
    task.status.TaskRunning? && task.expires.Some? && task.expires.value >= now
  }

  predicate FinishedRow(task: Task, now: int) { Done(task.status) || Held(task, now) }

  predicate FinishedRows(tasks: seq<Task>, now: int) {
    forall i :: 0 <= i < |tasks| ==> FinishedRow(tasks[i], now)
  }

  lemma ScanStatus(base: Run, r: Run, x: Exec, e: ExecId, now: int, input: TickInput)
    requires r.status.RunRunning? && Active(base.status) && !AnyStale(r.tasks, now)
    ensures var r' := Scan(base, r, x, e, now, input).run;
      && (r'.status.RunPending? ==> base.status.RunPending?)
      && (r'.status.RunCompleted? ==> FinishedRows(r'.tasks, now) && (r'.tasks == r.tasks || r' == base))
  {
    var ready := ReadyFrom(r.tasks, now, 0);
    if AnyStatus(r.tasks, TaskPending) && !AllPendingWait(r.tasks, now) && ready != [] {
      ClaimBatchStatus(r, x, e, now, input);
    }
  }

  lemma ClaimBatchStatus(r: Run, x: Exec, e: ExecId, now: int, input: TickInput)
    requires r.status.RunRunning?
    ensures var r' := ClaimBatch(r, x, ReadyFrom(r.tasks, now, 0), e, now, input).run;
      r'.status.RunRunning? || r'.status.RunBudgetExhausted? || r'.status.RunFailed?
  {
    BatchRows(r, e, now, input.cap, x.ledger);
  }

  /** Gates that let the scan go on leave the rows alone. */
  lemma GatesKeepRows(r: Run, x: Exec, verdict: bool)
    ensures !Gate(r, x, verdict).again ==> Gate(r, x, verdict).run.tasks == r.tasks
    ensures !FinalGate(r, x, verdict).again ==> FinalGate(r, x, verdict).run.tasks == r.tasks
    ensures Gate(r, x, verdict).run.status == r.status && FinalGate(r, x, verdict).run.status == r.status
  {}

  lemma TickStatus(r: Run, x: Exec, e: ExecId, now: int, input: TickInput)
    requires Active(r.status)
    ensures var r' := Tick(r, x, e, now, input).run;
      && (r'.status.RunPending? ==> r.status.RunPending?)
      && (r'.status.RunCompleted? ==> FinishedRows(r'.tasks, now) && r'.tasks == r.tasks)
  {
    var r1 := Begin(r);
    if !AnyStale(r1.tasks, now) {
      var g := Gate(r1, x, input.gate);
      var f := FinalGate(g.run, g.exec, input.finalGate);
      GatesKeepRows(r1, x, input.gate);
      GatesKeepRows(g.run, g.exec, input.finalGate);
      if !g.again && !f.again {
        ScanStatus(if f.committed then f.run else r, f.run, f.exec, e, now, input);
      }
    }
  }

  // ---------------------------------------------------------------- compensations in flight

  /** Control actions restore only inactive statuses, and no prober resume is in
      flight while the run has not started. */
  ghost predicate Compensable(s: Sys) {
    && (forall p :: p in s.pending && p.ControlEnqueue? ==> Control.Retryable(p.previous))
    && (s.run.status.RunPending? ==> forall p :: p in s.pending ==> !p.ProbeEnqueue?)
  }

  lemma CompensableStep(s: Sys, step: Step)
    requires Enabled(s, step) && Compensable(s)
    ensures Compensable(Protocol.Next(s, step))
  {
    if step.Loop? && Active(s.run.status) {
      TickStatus(s.run, s.execs[step.e], step.e, s.now, step.input);
    } else if step.Commit? {
      CommitStatus(s.run, step.e, step.t, s.now, step.result);
    } else if step.Note? {
    } else {
      OtherCompensable(s, step);
    }
  }

  lemma CommitStatus(r: Run, e: ExecId, t: TaskId, now: int, result: HandlerResult)
    requires t < |r.tasks|
    ensures Settle(r, e, t, now, result).status == r.status
      || (r.status.RunRunning? && Settle(r, e, t, now, result).status.RunPaused?)
  {}

  lemma OtherCompensable(s: Sys, step: Step)
    requires Enabled(s, step) && Compensable(s) && !step.Commit? && !(step.Loop? && Active(s.run.status)) && !step.Note?
    ensures Compensable(Protocol.Next(s, step))
  {
    if step.EnqueueFails? || step.EnqueueOk? {
      EnqueueCompensable(s, step);
    } else if Starter(step) {
      StarterCompensable(s, step);
    }
  }

  predicate Starter(step: Step) { step.UserResume? || step.UserRetry? || step.ProbeResume? }

  lemma EnqueueCompensable(s: Sys, step: Step)
    requires Enabled(s, step) && Compensable(s) && (step.EnqueueFails? || step.EnqueueOk?)
    ensures Compensable(Protocol.Next(s, step))
  {
    var s' := Protocol.Next(s, step);
    assert s'.pending <= s.pending;
    assert s'.run.status.RunPending? ==> s.run.status.RunPending?;
  }

  lemma StarterCompensable(s: Sys, step: Step)
    requires Enabled(s, step) && Compensable(s) && Starter(step)
    ensures Compensable(Protocol.Next(s, step))
  {
    StarterResult(s, step);
  }

  /** A granted resume or retry starts the run and leaves its enqueue in flight. */
  lemma StarterResult(s: Sys, step: Step)
    requires Enabled(s, step) && Starter(step)
    ensures var s' := Protocol.Next(s, step);
      s' == s
      || (s'.run.status.RunRunning?
          && exists p :: s'.pending == s.pending + multiset{p} && (p.ControlEnqueue? ==> Control.Retryable(p.previous)))
  {
    var s' := Protocol.Next(s, step);
    var p := match step
      case UserResume(_, id) => ControlEnqueue(RunPaused, id)
      case UserRetry(_, _, id) => ControlEnqueue(s.run.status, id)
      case ProbeResume(id) => ProbeEnqueue(id);
    assert s' == s || s'.pending == s.pending + multiset{p};
  }

  // ---------------------------------------------------------------- no stranded run

  /** Somebody will still act on the run: a queued delivery, a live executor, or
      an enqueue that follows a commit. */
  predicate Attended(s: Sys) { s.queue != multiset{} || s.execs != map[] || s.pending != multiset{} }

  ghost predicate NotStranded(s: Sys) { Active(s.run.status) ==> Attended(s) }

  lemma LoopNotStranded(s: Sys, step: Step)
    requires Enabled(s, step) && step.Loop?
    ensures NotStranded(Protocol.Next(s, step))
  {
    TickEffect(s.run, s.execs[step.e], step.e, s.now, step.input);
    var s' := Protocol.Next(s, step);
    if Active(s'.run.status) {
      assert step.e in s'.execs;
    }
  }

  lemma NotStrandedStep(s: Sys, step: Step)
    requires Enabled(s, step) && Compensable(s) && NotStranded(s)
    ensures NotStranded(Protocol.Next(s, step))
  {
    if step.Loop? {
      LoopNotStranded(s, step);
    } else if step.EnqueueFails? {
      CompensationAttended(s, step.p);
    } else if Starter(step) {
      StarterResult(s, step);
    } else {
      WorkersAttended(s, step);
    }
  }

  lemma CompensationAttended(s: Sys, p: Enqueue)
    requires p in s.pending && Compensable(s)
    ensures NotStranded(Protocol.Next(s, EnqueueFails(p)))
  {}

  lemma WorkersAttended(s: Sys, step: Step)
    requires Enabled(s, step) && NotStranded(s) && !step.Loop? && !step.EnqueueFails?
    requires !Starter(step)
    ensures NotStranded(Protocol.Next(s, step))
  {
    var s' := Protocol.Next(s, step);
    if step.Commit? {
      CommitStatus(s.run, step.e, step.t, s.now, step.result);
      assert step.e in s'.execs;
    } else if step.Deliver? || step.Build? {
      assert step.e in s'.execs;
    } else if step.WorkerLost? {
      assert step.e in s'.queue;
    } else if step.EnqueueOk? {
      assert step.p.id in s'.queue;
    }
  }

  lemma {:induction false} AlwaysAttended(states: seq<Sys>, steps: seq<Step>, i: nat)
    requires Execution(states, steps) && i <= |steps|
    ensures Compensable(states[i]) && NotStranded(states[i])
  {
    if i == 0 {
      var id :| states[0].pending == multiset{CreateEnqueue(id)};
      assert CreateEnqueue(id) in states[0].pending;
    } else {
      AlwaysAttended(states, steps, i - 1);
      CompensableStep(states[i - 1], steps[i - 1]);
      NotStrandedStep(states[i - 1], steps[i - 1]);
    }
  }

  /** Steps the system takes by itself to move an active run on. */
  predicate SystemStep(step: Step) {
    step.Deliver? || step.Loop? || step.Build? || step.Commit? || step.EnqueueOk?
  }

  const SOME_INPUT := TickInput(true, true, 1, true, 0, 0)

  /** In every reachable state with a PENDING or RUNNING run, a delivery, an
      executor transaction or the enqueue in flight can happen next. */
  lemma ActiveRunCanProceed(states: seq<Sys>, steps: seq<Step>, i: nat) returns (step: Step)
    requires Execution(states, steps) && i <= |steps| && Active(states[i].run.status)
    ensures SystemStep(step) && Enabled(states[i], step)
  {
    AlwaysAttended(states, steps, i);
    Fencing.AlwaysFenced(states, steps, i);
    var s := states[i];
    if s.execs != map[] {
      var e :| e in s.execs;
      if s.execs[e].building {
        step := Build(e);
      } else if s.execs[e].inflight != map[] {
        var t :| t in s.execs[e].inflight;
        step := Commit(e, t, InvalidPayload);
      } else {
        step := Loop(e, SOME_INPUT);
      }
    } else if s.pending != multiset{} {
      var p :| p in s.pending;
      step := EnqueueOk(p);
    } else {
      var e :| e in s.queue;
      step := Deliver(e);
    }
  }

  // ---------------------------------------------------------------- standing still

  /** What counts as work in a log: claims started and settled, and tokens. */
  predicate Work(m: Metric) { m.Starts? || m.Settles? || m.Tokens? }

  ghost predicate NoWork(r: Run, r': Run) {
    forall m {:trigger Total(m, r'.events)} :: Work(m) ==> Total(m, r'.events) == Total(m, r.events)
  }

  lemma OneEntryNoWork(r: Run, r': Run, b: Body)
    requires OneEntry(r, r', b) && Plain(b)
    ensures NoWork(r, r')
  {
    assert AddEvent(r, b).events == r.events + [Event(r.cursor + 1, b)];
  }

  lemma InactiveStatus(s: Sys, step: Step)
    requires Enabled(s, step) && Compensable(s) && !Active(s.run.status) && !Starter(step)
    ensures !Active(Protocol.Next(s, step).run.status)
  {}

  lemma InactiveStep(s: Sys, step: Step)
    requires Enabled(s, step) && Compensable(s) && !Active(s.run.status) && !Starter(step)
    ensures !Active(Protocol.Next(s, step).run.status) && NoWork(s.run, Protocol.Next(s, step).run)
  {
    InactiveStatus(s, step);
    if step.Loop? || step.Commit? {
      assert Protocol.Next(s, step).run.events == s.run.events;
    } else if !step.Note? {
      var b := StepEntry(s, step);
      OneEntryNoWork(s.run, Protocol.Next(s, step).run, b);
    }
  }

  /** While a run is paused, cancelled or ended no claim is started or settled and no
      token is spent, until somebody asks for a resume or a retry. */
  lemma {:induction false} InactiveStandsStill(states: seq<Sys>, steps: seq<Step>, i: nat, j: nat)
    requires Execution(states, steps) && i <= j <= |steps| && !Active(states[i].run.status)
    requires forall k :: i <= k < j ==> !Starter(steps[k])
    ensures !Active(states[j].run.status) && NoWork(states[i].run, states[j].run)
    decreases j - i
  {
    if i < j {
      AlwaysAttended(states, steps, i);
      InactiveStep(states[i], steps[i]);
      InactiveStandsStill(states, steps, i + 1, j);
    }
  }

  /** An inactive run becomes active only by a granted resume, retry or probe, which
      leaves an enqueue in flight whose failure would give the old status back. */
  lemma ActivatedOnRequest(states: seq<Sys>, steps: seq<Step>, i: nat) returns (p: Enqueue)
    requires Execution(states, steps) && i < |steps|
    requires !Active(states[i].run.status) && Active(states[i + 1].run.status)
    ensures Starter(steps[i]) && Control.Retryable(states[i].run.status) && states[i + 1].run.status.RunRunning?
    ensures states[i + 1].pending == states[i].pending + multiset{p}
    ensures Compensate(states[i + 1].run, p).status == states[i].run.status
  {
    AlwaysAttended(states, steps, i);
    var s, step := states[i], steps[i];
    if !Starter(step) {
      InactiveStep(s, step);
    }
    p := match step
      case UserResume(_, id) => ControlEnqueue(RunPaused, id)
      case UserRetry(_, _, id) => ControlEnqueue(s.run.status, id)
      case ProbeResume(id) => ProbeEnqueue(id);
  }

  // ---------------------------------------------------------------- terminal statuses

  /** The three compensations that do not look at the run's status. */
  predicate Overturns(step: Step) {
    step.BuildFails? || (step.EnqueueFails? && !step.p.ProbeEnqueue?)
  }

  /** COMPLETED and CANCELLED are left by exactly those steps. */
  lemma LeavesTerminalExactly(states: seq<Sys>, steps: seq<Step>, i: nat)
    requires Execution(states, steps) && i < |steps| && Terminal(states[i].run.status)
    ensures states[i + 1].run.status != states[i].run.status <==> Overturns(steps[i])
  {
    AlwaysAttended(states, steps, i);
    var s, step := states[i], steps[i];
    TerminalStep(s, step);
  }

  lemma TerminalStep(s: Sys, step: Step)
    requires Enabled(s, step) && Compensable(s) && Terminal(s.run.status)
    ensures Protocol.Next(s, step).run.status != s.run.status <==> Overturns(step)
  {
    if step.Commit? {
      CommitStatus(s.run, step.e, step.t, s.now, step.result);
    } else if Overturns(step) {
      CompensationOverturns(s, step);
    } else {
      OthersKeepTerminal(s, step);
    }
  }

  lemma CompensationOverturns(s: Sys, step: Step)
    requires Enabled(s, step) && Compensable(s) && Terminal(s.run.status) && Overturns(step)
    ensures Protocol.Next(s, step).run.status != s.run.status
  {}

  lemma OthersKeepTerminal(s: Sys, step: Step)
    requires Enabled(s, step) && Terminal(s.run.status) && !Overturns(step) && !step.Commit?
    ensures Protocol.Next(s, step).run.status == s.run.status
  {}

  /** A compensation that would overturn a terminal status is still possible: a provider
      is being built, or an enqueue of creation or of a control action is in flight. */
  ghost predicate Overturnable(s: Sys) {
    (exists e :: e in s.execs && s.execs[e].building) || (exists p :: p in s.pending && !p.ProbeEnqueue?)
  }

  /** Nothing can start any more: no step changes the status or makes it overturnable. */
  lemma SettledStep(s: Sys, step: Step)
    requires Enabled(s, step) && Compensable(s) && Terminal(s.run.status) && !Overturnable(s)
    ensures Protocol.Next(s, step).run.status == s.run.status && !Overturnable(Protocol.Next(s, step))
  {
    TerminalStep(s, step);
    var s' := Protocol.Next(s, step);
    assert s'.pending <= s.pending;
    forall e | e in s'.execs
      ensures !s'.execs[e].building
    {
      assert e in s.execs ==> !s.execs[e].building;
    }
  }

  /** When no provider is being built and no enqueue of creation or control is in
      flight, COMPLETED and CANCELLED are final. */
  lemma {:induction false} TerminalIsFinal(states: seq<Sys>, steps: seq<Step>, i: nat)
    requires Chain(states, steps) && i <= |steps| && Compensable(states[0])
    requires Terminal(states[0].run.status) && !Overturnable(states[0])
    ensures states[i].run.status == states[0].run.status && Compensable(states[i]) && !Overturnable(states[i])
  {
    if i > 0 {
      TerminalIsFinal(states, steps, i - 1);
      CompensableStep(states[i - 1], steps[i - 1]);
      SettledStep(states[i - 1], steps[i - 1]);
    }
  }

  /** Whatever happens from s on, the status of the run stays. */
  ghost predicate StatusStays(s: Sys) {
    forall states: seq<Sys>, steps, i: nat :: Chain(states, steps) && states[0] == s && i <= |steps| ==>
      states[i].run.status == s.run.status
  }

  /** A single enabled compensation is enough. */
  lemma Overturning(s: Sys) returns (step: Step)
    requires Overturnable(s)
    ensures Overturns(step) && Enabled(s, step)
  {
    if e :| e in s.execs && s.execs[e].building {
      step := BuildFails(e);
    } else {
      var p :| p in s.pending && !p.ProbeEnqueue?;
      step := EnqueueFails(p);
    }
  }

  lemma LeavesStatus(states: seq<Sys>, steps: seq<Step>)
    requires Chain(states, steps) && states[|steps|].run.status != states[0].run.status
    ensures !StatusStays(states[0])
  {}

  lemma OverturnedNext(s: Sys)
    requires Compensable(s) && Terminal(s.run.status) && Overturnable(s)
    ensures !StatusStays(s)
  {
    var step := Overturning(s);
    TerminalStep(s, step);
    LeavesStatus([s, Protocol.Next(s, step)], [step]);
  }

  /** A reachable COMPLETED or CANCELLED run stays so for good exactly when no provider
      is being built and no enqueue of creation or control is in flight. */
  lemma TerminalFinalExactly(states: seq<Sys>, steps: seq<Step>, i: nat)
    requires Execution(states, steps) && i <= |steps| && Terminal(states[i].run.status)
    ensures StatusStays(states[i]) <==> !Overturnable(states[i])
  {
    AlwaysAttended(states, steps, i);
    if Overturnable(states[i]) {
      OverturnedNext(states[i]);
    } else {
      forall more: seq<Sys>, next, k: nat | Chain(more, next) && more[0] == states[i] && k <= |next|
        ensures more[k].run.status == states[i].run.status
      {
        TerminalIsFinal(more, next, k);
      }
    }
  }

  /** CANCELLED can be left: a run cancelled between its creation and the failure
      of its enqueue ends FAILED. */
  lemma CancelledCanBeLeft(s: Sys, id: ExecId) returns (states: seq<Sys>)
    requires Init(s) && s.pending == multiset{CreateEnqueue(id)}
    ensures Execution(states, [UserCancel, EnqueueFails(CreateEnqueue(id))]) && states[0] == s
    ensures states[1].run.status == RunCancelled && states[2].run.status == RunFailed
  {
    var s1 := Protocol.Next(s, UserCancel);
    assert CreateEnqueue(id) in s1.pending;
    states := [s, s1, Protocol.Next(s1, EnqueueFails(CreateEnqueue(id)))];
  }

  // ---------------------------------------------------------------- where results appear

  lemma SettleFinishes(r: Run, e: ExecId, t: TaskId, now: int, result: HandlerResult)
    requires t < |r.tasks| && !(Accepted(r, e, t) && Succeeding(r.tasks[t], result))
    ensures NoNewSuccess(r.tasks, Settle(r, e, t, now, result).tasks)
  {}

  lemma RetryFinishesNothing(r: Run, target: Option<TaskId>, capReached: bool)
    ensures NoNewSuccess(r.tasks, Control.Retry(r, target, capReached).run.tasks)
  {}

  lemma BuildFinishesNothing(r: Run, x: Exec)
    ensures NoNewSuccess(r.tasks, BuildFailure(r, x).tasks)
  {}

  lemma OthersFinishNothing(s: Sys, step: Step)
    requires Enabled(s, step) && !step.Loop? && !step.Commit?
    ensures NoNewSuccess(s.run.tasks, Protocol.Next(s, step).run.tasks)
  {
    if step.UserRetry? {
      RetryFinishesNothing(s.run, step.target, step.capReached);
    } else if step.BuildFails? {
      BuildFinishesNothing(s.run, s.execs[step.e]);
    } else if !step.RenewLease? && !step.UserExpand? {
      assert Protocol.Next(s, step).run.tasks == s.run.tasks;
    }
  }

  /** A task becomes SUCCEEDED only in a commit transaction of its own lease
      holder, and the run is RUNNING before and after it. */
  lemma SuccessOnlyWhileRunning(s: Sys, step: Step, t: TaskId)
    requires Enabled(s, step)
    requires var r' := Protocol.Next(s, step).run; t < |r'.tasks| && r'.tasks[t].status.TaskSucceeded?
    requires !(t < |s.run.tasks| && s.run.tasks[t].status.TaskSucceeded?)
    ensures step.Commit? && step.t == t && Accepted(s.run, step.e, t)
    ensures s.run.status.RunRunning? && Protocol.Next(s, step).run.status.RunRunning?
  {
    if step.Loop? {
      TickFinishesNothing(s.run, s.execs[step.e], step.e, s.now, step.input);
    } else if step.Commit? {
      SettleEffect(s.run, step.e, step.t, s.now, step.result);
      if !(Accepted(s.run, step.e, step.t) && Succeeding(s.run.tasks[step.t], step.result)) {
        SettleFinishes(s.run, step.e, step.t, s.now, step.result);
      }
    } else {
      OthersFinishNothing(s, step);
    }
  }

  /** So does a handler artifact. */
  lemma ArtifactOnlyWhileRunning(s: Sys, step: Step, t: TaskId)
    requires Enabled(s, step)
    requires Ledger.HandlerArtifacts(Protocol.Next(s, step).run, t) != Ledger.HandlerArtifacts(s.run, t)
    ensures step.Commit? && step.t == t && Accepted(s.run, step.e, t)
    ensures s.run.status.RunRunning? && Protocol.Next(s, step).run.status.RunRunning?
  {
    StepEffect(s, step);
  }

  /** A run becomes COMPLETED only in a loop iteration that leaves no task PENDING
      or FAILED: all are done, but for those somebody holds under a live lease. */
  lemma CompletedMeansFinished(states: seq<Sys>, steps: seq<Step>, i: nat)
    requires Execution(states, steps) && i < |steps|
    requires !states[i].run.status.RunCompleted? && states[i + 1].run.status.RunCompleted?
    ensures steps[i].Loop?
    ensures FinishedRows(states[i + 1].run.tasks, states[i].now)
    ensures states[i + 1].run.tasks == states[i].run.tasks
  {
    AlwaysAttended(states, steps, i);
    var s, step := states[i], steps[i];
    if step.Loop? {
      TickStatus(s.run, s.execs[step.e], step.e, s.now, step.input);
    } else if step.Commit? {
      CommitStatus(s.run, step.e, step.t, s.now, step.result);
    } else {
      OnlyLoopCompletes(s, step);
    }
  }

  /** COMPLETED means that every task is SUCCEEDED or SKIPPED exactly when nobody held
      a task under an unexpired lease as the completing iteration began. */
  lemma CompletedExactly(states: seq<Sys>, steps: seq<Step>, i: nat)
    requires Execution(states, steps) && i < |steps|
    requires !states[i].run.status.RunCompleted? && states[i + 1].run.status.RunCompleted?
    ensures var before, after := states[i].run.tasks, states[i + 1].run.tasks;
      (forall t :: 0 <= t < |after| ==> Done(after[t].status))
      <==> !exists t :: 0 <= t < |before| && Held(before[t], states[i].now)
  {
    CompletedMeansFinished(states, steps, i);
    var before, after := states[i].run.tasks, states[i + 1].run.tasks;
    forall t | 0 <= t < |after|
      ensures Done(after[t].status) <==> !Held(before[t], states[i].now)
    {
      assert FinishedRow(after[t], states[i].now);
    }
  }

  lemma OnlyLoopCompletes(s: Sys, step: Step)
    requires Enabled(s, step) && Compensable(s) && !step.Loop? && !step.Commit? && !s.run.status.RunCompleted?
    ensures !Protocol.Next(s, step).run.status.RunCompleted?
  {
    if step.EnqueueFails? {
    } else if !step.Note? {
    }
  }
}
