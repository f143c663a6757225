/** What one loop iteration does to task rows. */
module RowEffects {
  import opened RunModel
  import opened Executor

  /** The rows after claiming `ids`. */
  ghost predicate ClaimedRows(base: seq<Task>, tasks: seq<Task>, ids: seq<TaskId>, e: ExecId, now: int) {
    && |tasks| == |base|
    && forall i :: 0 <= i < |base| ==> tasks[i] == if i in ids then Claimed(base[i], e, now) else base[i]
  }

  /** The rows after refusing t and giving `ids` back. */
  ghost predicate RefusedRows(base: seq<Task>, tasks: seq<Task>, ids: seq<TaskId>, t: TaskId, e: ExecId, now: int) {
    && |tasks| == |base|
    && forall i :: 0 <= i < |base| ==> tasks[i] == RefusedRow(base[i], i in ids, i == t, e, now)
  }

  function RefusedRow(task: Task, given: bool, refused: bool, e: ExecId, now: int): Task {
    if given then Recovered(Claimed(task, e, now))
    else if refused then task.(status := TaskFailed) else task
  }

  ghost predicate ReadyIds(base: seq<Task>, ready: seq<TaskId>) {
    && (forall j :: 0 <= j < |ready| ==> ready[j] < |base|)
    && (forall j, k :: 0 <= j < k < |ready| ==> ready[j] < ready[k])
  }

  ghost predicate ClaimRowsResult(base: seq<Task>, r: Run, ready: seq<TaskId>, e: ExecId, now: int, cap: nat, c: ClaimResult) {
    && |c.claimed| <= |ready| && c.claimed == ready[..|c.claimed|]
    && if c.exhausted then
         && |c.claimed| < |ready| && |c.claimed| < cap
         && RefusedRows(base, c.run.tasks, c.claimed, ready[|c.claimed|], e, now) && c.run.status == RunBudgetExhausted
       else
         && ClaimedRows(base, c.run.tasks, c.claimed, e, now) && c.run.status == r.status
         && (|c.claimed| == |ready| || |c.claimed| >= cap)
  }

  lemma {:induction false} ClaimRows(base: seq<Task>, r: Run, ready: seq<TaskId>, k: nat, e: ExecId, now: int, cap: nat, ledger: bool)
    requires ReadyIds(base, ready) && k <= |ready|
    requires ClaimedRows(base, r.tasks, ready[..k], e, now)
    ensures ClaimRowsResult(base, r, ready, e, now, cap, ClaimFrom(r, ready, k, e, now, cap, ledger, ready[..k]))
    decreases |ready| - k
  {
    if k < |ready| && k < cap {
      var t, claimed := ready[k], ready[..k];
      assert t !in claimed;
      assert ready[..k + 1] == claimed + [t];
      if Refused(r, ledger, t) {
        var failed := SetTask(r, t, r.tasks[t].(status := TaskFailed));
        RefusedRowsHold(base, r.tasks, ReleaseAll(failed.tasks, claimed), claimed, t, e, now);
      } else {
        var r1 := AddEvent(AddEvent(SetTask(r, t, Claimed(r.tasks[t], e, now)), TaskStarted(t)), LeaseAcquired(t, e));
        OneMoreClaimed(base, r.tasks, claimed, t, e, now);
        ClaimRows(base, r1, ready, k + 1, e, now, cap, ledger);
      }
    }
  }

  lemma OneMoreClaimed(base: seq<Task>, tasks: seq<Task>, claimed: seq<TaskId>, t: TaskId, e: ExecId, now: int)
    requires ClaimedRows(base, tasks, claimed, e, now) && t < |base| && t !in claimed
    ensures ClaimedRows(base, tasks[t := Claimed(tasks[t], e, now)], claimed + [t], e, now)
  {}

  lemma RefusedRowsHold(base: seq<Task>, tasks: seq<Task>, released: seq<Task>, claimed: seq<TaskId>, t: TaskId, e: ExecId, now: int)
    requires ClaimedRows(base, tasks, claimed, e, now) && t < |base| && t !in claimed
    requires released == ReleaseAll(tasks[t := tasks[t].(status := TaskFailed)], claimed)
    ensures RefusedRows(base, released, claimed, t, e, now)
  {}

  /** The batch of an iteration: what `ReadyFrom` offers and what is claimed of it. */
  lemma BatchRows(r: Run, e: ExecId, now: int, cap: nat, ledger: bool)
    ensures var ready := ReadyFrom(r.tasks, now, 0);
      ReadyIds(r.tasks, ready) && ClaimRowsResult(r.tasks, r, ready, e, now, cap, ClaimFrom(r, ready, 0, e, now, cap, ledger, []))
  {
    var ready := ReadyFrom(r.tasks, now, 0);
    assert ready[..0] == [];
    ClaimRows(r.tasks, r, ready, 0, e, now, cap, ledger);
  }

  // ---------------------------------------------------------------- no task is finished by scanning

  /** Rows keep their place in the graph. */
  ghost predicate SameGraph(before: seq<Task>, after: seq<Task>) {
    && |before| <= |after|
    && forall i :: 0 <= i < |before| ==> after[i].key == before[i].key && after[i].deps == before[i].deps
  }

  /** Rows are kept, and none becomes SUCCEEDED. */
  ghost predicate NoNewSuccess(before: seq<Task>, after: seq<Task>) {
    && SameGraph(before, after)
    && forall i :: 0 <= i < |after| && after[i].status.TaskSucceeded? ==> i < |before| && before[i].status.TaskSucceeded?
  }

  lemma StartBatchRows(r: Run, x: Exec, claimed: seq<TaskId>, input: TickInput)
    ensures StartBatch(r, x, claimed, input).run.tasks
      == if !x.providerReady && !input.credentials then ReleaseAll(r.tasks, claimed) else r.tasks
  {}

  /** The three ways a scan ends: rows untouched, rolled back, or a claim batch. */
  lemma ScanCases(base: Run, r: Run, x: Exec, e: ExecId, now: int, input: TickInput)
    ensures var res, ready := Scan(base, r, x, e, now, input), ReadyFrom(r.tasks, now, 0);
      || (res.run.tasks == r.tasks && res.exec == x && !res.next.Work?)
      || res == TickResult(base, x, Again)
      || (ready != [] && res == ClaimBatch(r, x, ready, e, now, input))
  {}

  lemma ClaimRowsFinishNothing(base: seq<Task>, tasks: seq<Task>, ids: seq<TaskId>, t: TaskId, e: ExecId, now: int)
    requires ClaimedRows(base, tasks, ids, e, now) || RefusedRows(base, tasks, ids, t, e, now)
    ensures NoNewSuccess(base, tasks)
  {}

  lemma ReleaseFinishesNothing(base: seq<Task>, tasks: seq<Task>, ids: seq<TaskId>)
    requires NoNewSuccess(base, tasks)
    ensures NoNewSuccess(base, ReleaseAll(tasks, ids))
  {}

  lemma ClaimFinishesNothing(r: Run, x: Exec, e: ExecId, now: int, input: TickInput)
    ensures NoNewSuccess(r.tasks, ClaimBatch(r, x, ReadyFrom(r.tasks, now, 0), e, now, input).run.tasks)
  {
    var ready := ReadyFrom(r.tasks, now, 0);
    var c := ClaimFrom(r, ready, 0, e, now, input.cap, x.ledger, []);
    assert NoNewSuccess(r.tasks, c.run.tasks) by {
      BatchRows(r, e, now, input.cap, x.ledger);
      ClaimRowsFinishNothing(r.tasks, c.run.tasks, c.claimed, if |c.claimed| < |ready| then ready[|c.claimed|] else 0, e, now);
    }
    StartBatchRows(c.run, x, c.claimed, input);
    ReleaseFinishesNothing(r.tasks, c.run.tasks, c.claimed);
  }

  lemma ScanFinishesNothing(base: Run, r: Run, x: Exec, e: ExecId, now: int, input: TickInput)
    requires NoNewSuccess(base.tasks, r.tasks)
    ensures NoNewSuccess(base.tasks, Scan(base, r, x, e, now, input).run.tasks)
  {
    ScanCases(base, r, x, e, now, input);
    ClaimFinishesNothing(r, x, e, now, input);
  }

  lemma GatesFinishNothing(r: Run, x: Exec, input: TickInput)
    ensures var g := Gate(r, x, input.gate);
      NoNewSuccess(r.tasks, g.run.tasks) && NoNewSuccess(r.tasks, FinalGate(g.run, g.exec, input.finalGate).run.tasks)
  {
    var g := Gate(r, x, input.gate);
    assert NoNewSuccess(r.tasks, g.run.tasks);
    FinalGateFinishesNothing(g.run, g.exec, input.finalGate);
  }

  lemma FinalGateFinishesNothing(r: Run, x: Exec, verdict: bool)
    ensures NoNewSuccess(r.tasks, FinalGate(r, x, verdict).run.tasks)
  {}

  /** An iteration of the loop never marks a task SUCCEEDED. */
  lemma TickFinishesNothing(r: Run, x: Exec, e: ExecId, now: int, input: TickInput)
    ensures NoNewSuccess(r.tasks, Tick(r, x, e, now, input).run.tasks)
  {
    if Active(r.status) && !AnyStale(Begin(r).tasks, now) {
      GatesFinishNothing(Begin(r), x, input);
      var g := Gate(Begin(r), x, input.gate);
      var f := FinalGate(g.run, g.exec, input.finalGate);
      if !g.again && !f.again {
        ScanFinishesNothing(r, f.run, f.exec, e, now, input);
        ScanFinishesNothing(f.run, f.run, f.exec, e, now, input);
      }
    }
  }
}
