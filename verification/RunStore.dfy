/** The rows of one run, updated in place, and the control endpoints that write them. */
module RunStore {
  import opened RunModel
  import opened Executor
  import Control

  class RunRow {
    var status: RunStatus
    var budgetUsed: nat
    var budgetLimit: nat
    var cursor: nat
    var events: seq<Event>
    var artifacts: seq<Artifact>
    var tasks: seq<Task>

    constructor (r: Run)
      ensures Snapshot() == r
    {
      status, budgetUsed, budgetLimit, cursor := r.status, r.budgetUsed, r.budgetLimit, r.cursor;
      events, artifacts, tasks := r.events, r.artifacts, r.tasks;
    }

    function Snapshot(): Run
      reads this
    {
      Run(status, budgetUsed, budgetLimit, cursor, events, artifacts, tasks)
    }

    /** `_event`, `add_event`, `_add_run_event`. */
    method Append(b: Body)
      modifies this
      ensures Snapshot() == AddEvent(old(Snapshot()), b)
    {
      var sequence := cursor + 1;
      events := events + [Event(sequence, b)];
      cursor := sequence;
    }

    method AppendAudits(n: nat)
      modifies this
      ensures Snapshot() == AddAudits(old(Snapshot()), n)
    {
      for i := 0 to n
        invariant Snapshot() == AddAudits(old(Snapshot()), i)
      {
        Append(Audit);
      }
    }

    method Fail(reason: FailReason)
      modifies this
      ensures Snapshot() == FailRun(old(Snapshot()), reason)
    {
      status := RunFailed;
      Append(RunFailure(reason));
    }

    method Set(t: TaskId, task: Task)
      requires t < |tasks|
      modifies this`tasks
      ensures tasks == old(tasks)[t := task]
    {
      tasks := tasks[t := task];
    }

    /** Gives claimed rows back. */
    method Release(ids: seq<TaskId>)
      requires forall j :: 0 <= j < |ids| ==> ids[j] < |tasks|
      modifies this`tasks
      ensures tasks == ReleaseAll(old(tasks), ids)
    {
      for k := 0 to |ids|
        invariant |tasks| == |old(tasks)|
        invariant forall i :: 0 <= i < |tasks| ==> tasks[i] == if i in ids[..k] then Recovered(old(tasks)[i]) else old(tasks)[i]
      {
        Set(ids[k], Recovered(tasks[ids[k]]));
        assert ids[..k + 1] == ids[..k] + [ids[k]];
      }
      assert ids[..|ids|] == ids;
    }

    // -------------------------------------------------------------- control endpoints

    method Pause()
      modifies this
      ensures Snapshot() == Control.Pause(old(Snapshot()))
    {
      if Active(status) {
        status := RunPaused;
        Append(Controlled);
      }
    }

    method Cancel()
      modifies this
      ensures Snapshot() == Control.Cancel(old(Snapshot()))
    {
      if !status.RunCancelled? && !status.RunCompleted? {
        status := RunCancelled;
        Append(Controlled);
      }
    }

    /** `enqueue` holds the status to restore when the enqueue fails. */
    method Resume(capReached: bool) returns (enqueue: Option<RunStatus>)
      modifies this
      ensures Control.ControlResult(Snapshot(), enqueue) == Control.Resume(old(Snapshot()), capReached)
    {
      if !status.RunPaused? || capReached {
        return None;
      }
      status := RunRunning;
      Append(Controlled);
      return Some(RunPaused);
    }

    method RetryFailedTasks()
      modifies this`tasks
      ensures tasks == Control.RetryFailed(old(tasks))
    {
      for i := 0 to |tasks|
        invariant |tasks| == |old(tasks)|
        invariant forall j :: 0 <= j < |tasks| ==>
          tasks[j] == if j < i then Control.RetryFailed(old(tasks))[j] else old(tasks)[j]
      {
        if tasks[i].status.TaskFailed? {
          Set(i, tasks[i].(status := TaskPending, attempts := 0, retryable := 0, nextAt := None));
        }
      }
    }

    method Retry(target: Option<TaskId>, capReached: bool) returns (enqueue: Option<RunStatus>)
      modifies this
      ensures Control.ControlResult(Snapshot(), enqueue) == Control.Retry(old(Snapshot()), target, capReached)
    {
      if !Control.Retryable(status) || capReached || (target.Some? && target.value >= |tasks|) {
        return None;
      }
      if target.Some? {
        var task := tasks[target.value];
        Set(target.value, task.(status := TaskPending, attempts := task.attempts + 1));
      } else {
        RetryFailedTasks();
      }
      var previous := status;
      if previous.RunBudgetExhausted? {
        budgetLimit := Max(budgetLimit * 3 / 2, budgetUsed + 1);
      }
      status := RunRunning;
      Append(Controlled);
      return Some(previous);
    }
  }
}
