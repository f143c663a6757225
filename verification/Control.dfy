/** The other writers of a run: the control endpoints and the sweeper. */
module Control {
  import opened RunModel
  import opened Executor

  /** `enqueue` carries the status to restore when the enqueue after the commit fails. */
  datatype ControlResult = ControlResult(run: Run, enqueue: Option<RunStatus>)

  function Transition(r: Run, target: RunStatus): Run { AddEvent(r.(status := target), Controlled) }

  function Pause(r: Run): Run {
    if Active(r.status) then Transition(r, RunPaused) else r
  }

  function Cancel(r: Run): Run {
    if Active(r.status) || r.status.RunPaused? || r.status.RunFailed? || r.status.RunBudgetExhausted? then
      Transition(r, RunCancelled)
    else r
  }

  function Resume(r: Run, capReached: bool): ControlResult {
    if !r.status.RunPaused? || capReached then ControlResult(r, None)
    else ControlResult(Transition(r, RunRunning), Some(RunPaused))
  }

  function Retried(task: Task): Task {
    task.(status := TaskPending, attempts := 0, retryable := 0, nextAt := None)
  }

  function RetryFailed(tasks: seq<Task>): (tasks': seq<Task>)
    ensures |tasks'| == |tasks|
    ensures forall i :: 0 <= i < |tasks| ==> tasks'[i] == if tasks[i].status.TaskFailed? then Retried(tasks[i]) else tasks[i]
  {
    seq(|tasks|, i requires 0 <= i < |tasks| => if tasks[i].status.TaskFailed? then Retried(tasks[i]) else tasks[i])
  }

  predicate Retryable(s: RunStatus) { s.RunFailed? || s.RunPaused? || s.RunBudgetExhausted? }

  /** Retry of one task (any status, its lease stays) or of every FAILED one; a
      retry out of BUDGET_EXHAUSTED brings new budget room. */
  function Retry(r: Run, target: Option<TaskId>, capReached: bool): ControlResult {
    if !Retryable(r.status) || capReached || (target.Some? && target.value >= |r.tasks|) then ControlResult(r, None)
    else
      var tasks' :=
        if target.Some? then
          var task := r.tasks[target.value];
          r.tasks[target.value := task.(status := TaskPending, attempts := task.attempts + 1)]
        else RetryFailed(r.tasks);
      var limit := if r.status.RunBudgetExhausted? then Max(r.budgetLimit * 3 / 2, r.budgetUsed + 1) else r.budgetLimit;
      ControlResult(Transition(r.(tasks := tasks', budgetLimit := limit), RunRunning), Some(r.status))
  }

  /** The sweeper gives up on a RUNNING run with no live lease and no scheduled retry. */
  predicate Sweepable(r: Run, now: int) {
    && r.status.RunRunning?
    && (forall i :: 0 <= i < |r.tasks| ==>
      !(r.tasks[i].status.TaskRunning? && r.tasks[i].expires.Some? && r.tasks[i].expires.value > now))
    && (forall i :: 0 <= i < |r.tasks| ==> !Waiting(r.tasks[i], now))
  }

  function UserArtifact(r: Run, task: Option<TaskId>): Run {
    AddEvent(r.(artifacts := r.artifacts + [Artifact(task, false)]), ArtifactCommitted(|r.artifacts|))
  }
}
