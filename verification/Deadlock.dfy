/** The "dependency could not be satisfied" exit is never a false alarm. */
module Deadlock {
  import opened RunModel
  import opened TaskGraph
  import opened Executor
  import opened Protocol
  import opened RowEffects
  import opened RunStates
  import Control
  import ExpandGraph
  import Progress

  // ---------------------------------------------------------------- the graph stays well formed

  lemma {:induction false} SameDeps(before: seq<Task>, after: seq<Task>)
    requires SameGraph(before, after) && |before| == |after|
    ensures DepsOf(before) == DepsOf(after)
  {
    if before != [] {
      SameDeps(before[..|before| - 1], after[..|after| - 1]);
    }
  }

  lemma SameGraphWellFormed(before: seq<Task>, after: seq<Task>)
    requires SameGraph(before, after) && |before| == |after| && WellFormed(before)
    ensures WellFormed(after)
  {
    SameDeps(before, after);
    forall i, d | 0 <= i < |after| && d in after[i].deps
      ensures HasKey(after, d)
    {
      assert HasKey(before, d);
      var j :| 0 <= j < |before| && before[j].key == d;
      assert after[j].key == d;
    }
  }

  lemma SettleKeepsGraph(r: Run, e: ExecId, t: TaskId, now: int, result: HandlerResult)
    requires t < |r.tasks|
    ensures SameGraph(r.tasks, Settle(r, e, t, now, result).tasks) && |Settle(r, e, t, now, result).tasks| == |r.tasks|
  {}

  lemma StepKeepsGraph(s: Sys, step: Step)
    requires Enabled(s, step) && !step.UserExpand?
    ensures var tasks' := Protocol.Next(s, step).run.tasks; |tasks'| == |s.run.tasks| && SameGraph(s.run.tasks, tasks')
  {
    if step.Loop? {
      TickFinishesNothing(s.run, s.execs[step.e], step.e, s.now, step.input);
      Progress.TickKeepsRows(s.run, s.execs[step.e], step.e, s.now, step.input);
    } else if step.Commit? {
      SettleKeepsGraph(s.run, step.e, step.t, s.now, step.result);
    } else {
      OthersFinishNothing(s, step);
    }
  }

  /** The rows of every reachable state form a well-formed graph, through any
      sequence of accepted expansions. */
  lemma {:induction false} AlwaysWellFormed(states: seq<Sys>, steps: seq<Step>, i: nat)
    requires Execution(states, steps) && i <= |steps|
    ensures WellFormed(states[i].run.tasks)
  {
    if i > 0 {
      AlwaysWellFormed(states, steps, i - 1);
      WellFormedStep(states[i - 1], steps[i - 1]);
    }
  }

  lemma WellFormedStep(s: Sys, step: Step)
    requires Enabled(s, step) && WellFormed(s.run.tasks)
    ensures WellFormed(Protocol.Next(s, step).run.tasks)
  {
    if step.UserExpand? {
      ExpandGraph.AcceptedExpansionKeepsGraph(s.run.tasks, step.parent, step.plan, s.run.budgetLimit, s.run.budgetUsed);
    } else {
      StepKeepsGraph(s, step);
      SameGraphWellFormed(s.run.tasks, Protocol.Next(s, step).run.tasks);
    }
  }

  // ---------------------------------------------------------------- why a scan gives up

  /** What the scan saw: PENDING rows, none waiting, none RUNNING, none ready. */
  ghost predicate Stuck(tasks: seq<Task>, now: int) {
    && ReadyFrom(tasks, now, 0) == []
    && !AnyStatus(tasks, TaskRunning) && !AnyWaiting(tasks, now)
  }

  /** A dependency path from a row down to a FAILED one. */
  ghost predicate LeadsToFailure(tasks: seq<Task>, p: seq<string>, key: string) {
    && Path(DepsOf(tasks), p) && p[0] == key
    && exists j :: 0 <= j < |tasks| && tasks[j].key == p[|p| - 1] && tasks[j].status.TaskFailed?
  }

  lemma BlockingRow(tasks: seq<Task>, now: int, i: nat) returns (j: nat)
    requires WellFormed(tasks) && Stuck(tasks, now) && i < |tasks| && tasks[i].status.TaskPending?
    ensures j < |tasks| && tasks[j].key in tasks[i].deps && (tasks[j].status.TaskPending? || tasks[j].status.TaskFailed?)
  {
    assert !Ready(tasks, i, now);
    var d :| d in tasks[i].deps && d !in DoneKeys(tasks);
    assert HasKey(tasks, d);
    j :| j < |tasks| && tasks[j].key == d;
  }

  lemma {:induction false} FailedAncestor(tasks: seq<Task>, now: int, rank: map<string, nat>, i: nat) returns (p: seq<string>)
    requires WellFormed(tasks) && Ranked(DepsOf(tasks), rank) && Stuck(tasks, now)
    requires i < |tasks| && tasks[i].status.TaskPending?
    ensures LeadsToFailure(tasks, p, tasks[i].key)
    decreases RankOf(rank, tasks[i].key)
  {
    var j := BlockingRow(tasks, now, i);
    DepsOfUnique(tasks, i);
    var tail := [tasks[j].key];
    if tasks[j].status.TaskPending? {
      tail := FailedAncestor(tasks, now, rank, j);
    }
    PathCons(DepsOf(tasks), tasks[i].key, tail);
    p := [tasks[i].key] + tail;
  }

  predicate GivesUp(r: Run) {
    r.status.RunFailed? && r.events != [] && r.events[|r.events| - 1].body == RunFailure(DependencyUnsatisfied)
  }

  lemma ScanGivesUp(base: Run, r: Run, x: Exec, e: ExecId, now: int, input: TickInput)
    requires Active(base.status) && Active(r.status) && GivesUp(Scan(base, r, x, e, now, input).run)
    ensures Stuck(r.tasks, now) && AnyStatus(r.tasks, TaskPending) && Scan(base, r, x, e, now, input).run.tasks == r.tasks
  {
    BatchRows(r, e, now, input.cap, x.ledger);
    var ready := ReadyFrom(r.tasks, now, 0);
    if ready != [] {
      BatchDoesNotGiveUp(r, x, e, now, input);
    }
  }

  lemma BatchDoesNotGiveUp(r: Run, x: Exec, e: ExecId, now: int, input: TickInput)
    requires Active(r.status)
    ensures !GivesUp(ClaimBatch(r, x, ReadyFrom(r.tasks, now, 0), e, now, input).run)
  {
    BatchRows(r, e, now, input.cap, x.ledger);
  }

  /** When an iteration fails the run for an unsatisfied dependency, every PENDING
      task has a FAILED ancestor. */
  lemma NoFalseDeadlock(r: Run, x: Exec, e: ExecId, now: int, input: TickInput)
    requires Active(r.status) && WellFormed(r.tasks) && GivesUp(Tick(r, x, e, now, input).run)
    ensures forall i :: 0 <= i < |r.tasks| && r.tasks[i].status.TaskPending? ==> exists p :: LeadsToFailure(r.tasks, p, r.tasks[i].key)
  {
    var rows := StuckRows(r, x, e, now, input);
    ghost var rank :| Ranked(DepsOf(r.tasks), rank);
    forall i | 0 <= i < |r.tasks| && r.tasks[i].status.TaskPending?
      ensures exists p :: LeadsToFailure(r.tasks, p, r.tasks[i].key)
    {
      var p := FailedAncestor(r.tasks, now, rank, i);
    }
  }

  lemma StuckRows(r: Run, x: Exec, e: ExecId, now: int, input: TickInput) returns (rows: seq<Task>)
    requires Active(r.status) && GivesUp(Tick(r, x, e, now, input).run)
    ensures rows == r.tasks && Stuck(rows, now) && AnyStatus(rows, TaskPending)
  {
    rows := r.tasks;
    var r1 := Begin(r);
    if !AnyStale(r1.tasks, now) {
      var g := Gate(r1, x, input.gate);
      var f := FinalGate(g.run, g.exec, input.finalGate);
      GatesKeepRows(r1, x, input.gate);
      GatesKeepRows(g.run, g.exec, input.finalGate);
      if !g.again && !f.again {
        ScanGivesUp(if f.committed then f.run else r, f.run, f.exec, e, now, input);
      }
    }
  }

  /** So some row is FAILED. */
  lemma DeadlockNeedsFailure(r: Run, x: Exec, e: ExecId, now: int, input: TickInput)
    requires Active(r.status) && WellFormed(r.tasks) && GivesUp(Tick(r, x, e, now, input).run)
    ensures AnyStatus(r.tasks, TaskFailed)
  {
    NoFalseDeadlock(r, x, e, now, input);
    var rows := StuckRows(r, x, e, now, input);
    var i :| 0 <= i < |r.tasks| && r.tasks[i].status == TaskPending;
    var p :| LeadsToFailure(r.tasks, p, r.tasks[i].key);
  }

  lemma RetriedRows(r: Run)
    requires WellFormed(r.tasks) && Control.Retryable(r.status)
    ensures var r' := Control.Retry(r, None, false).run;
      WellFormed(r'.tasks) && r'.status.RunRunning? && !AnyStatus(r'.tasks, TaskFailed)
  {
    SameGraphWellFormed(r.tasks, Control.Retry(r, None, false).run.tasks);
  }

  lemma NoFailureNoDeadlock(r: Run, x: Exec, e: ExecId, now: int, input: TickInput)
    requires Active(r.status) && WellFormed(r.tasks) && !AnyStatus(r.tasks, TaskFailed)
    ensures !GivesUp(Tick(r, x, e, now, input).run)
  {
    if GivesUp(Tick(r, x, e, now, input).run) {
      DeadlockNeedsFailure(r, x, e, now, input);
      assert false;
    }
  }

  /** The first scan after a run-level retry never takes that exit. */
  lemma RetryScansSafely(r: Run, x: Exec, e: ExecId, now: int, input: TickInput)
    requires WellFormed(r.tasks) && Control.Retryable(r.status)
    ensures !GivesUp(Tick(Control.Retry(r, None, false).run, x, e, now, input).run)
  {
    RetriedRows(r);
    NoFailureNoDeadlock(Control.Retry(r, None, false).run, x, e, now, input);
  }

  /** In any reachable state: a loop iteration that gives up leaves every PENDING
      row above a FAILED one. */
  lemma NoFalseDeadlockEver(states: seq<Sys>, steps: seq<Step>, i: nat, t: nat)
    requires Execution(states, steps) && i < |steps| && steps[i].Loop?
    requires Active(states[i].run.status) && GivesUp(states[i + 1].run)
    requires t < |states[i].run.tasks| && states[i].run.tasks[t].status.TaskPending?
    ensures exists p :: LeadsToFailure(states[i].run.tasks, p, states[i].run.tasks[t].key)
  {
    AlwaysWellFormed(states, steps, i);
    NoFalseDeadlock(states[i].run, states[i].execs[steps[i].e], steps[i].e, states[i].now, steps[i].input);
  }
}
