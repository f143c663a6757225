/** `execute_run` as it runs: rows updated in place, one unit of work per method. */
module AgentExecutor {
  import opened RunModel
  import opened Executor
  import opened RunStore
  import opened Progress

  class AgentExecutor {
    const row: RunRow
    const id: ExecId
    var gateEvaluated: bool
    var reviseRound: nat
    var finalGateDone: bool
    var ledger: bool
    var providerReady: bool
    var building: bool
    var inflight: map<TaskId, nat>

    constructor (row: RunRow, id: ExecId)
      ensures this.row == row && this.id == id && Locals() == FRESH
    {
      this.row, this.id := row, id;
      gateEvaluated, reviseRound, finalGateDone := false, 1, false;
      ledger, providerReady, building, inflight := false, false, false, map[];
    }

    function Locals(): Exec
      reads this
    {
      Exec(gateEvaluated, reviseRound, finalGateDone, ledger, providerReady, building, inflight)
    }

    /** Every iteration takes back the RUNNING rows whose lease is over. */
    method RecoverExpired(now: int) returns (recovered: bool)
      modifies row
      ensures recovered == AnyStale(old(row.tasks), now)
      ensures row.Snapshot() == if recovered then RecoverFrom(old(row.Snapshot()), now, 0) else old(row.Snapshot())
    {
      recovered := false;
      ghost var before := row.Snapshot();
      for i := 0 to |row.tasks|
        invariant |row.tasks| == |before.tasks|
        invariant forall j :: i <= j < |before.tasks| ==> row.tasks[j] == before.tasks[j]
        invariant RecoverFrom(row.Snapshot(), now, i) == RecoverFrom(before, now, 0)
        invariant recovered <==> exists j :: 0 <= j < i && Stale(before.tasks[j], now)
        invariant !recovered ==> row.Snapshot() == before
      {
        var task := row.tasks[i];
        if task.status.TaskRunning? && (task.expires.None? || task.expires.value < now) {
          row.Set(i, task.(status := TaskPending, lease := None));
          row.Append(TaskRecovered(i));
          recovered := true;
        }
      }
    }

    /** `maybe_evaluate_gate` */
    method EvaluateGate(verdict: bool) returns (again: bool)
      modifies row, this`gateEvaluated
      ensures var g := Gate(old(row.Snapshot()), old(Locals()), verdict);
        row.Snapshot() == g.run && Locals() == g.exec && again == g.again
    {
      if gateEvaluated || !GateDue(row.tasks) {
        return false;
      }
      gateEvaluated := true;
      row.Append(GateEvaluated(verdict));
      if !verdict {
        return false;
      }
      SkipPending(REVISE_STAGE);
      return true;
    }

    method SkipPending(keys: seq<string>)
      modifies row
      ensures row.Snapshot() == SkipStage(old(row.Snapshot()), keys)
    {
      ghost var before := row.Snapshot();
      assert keys[0..] == keys;
      for k := 0 to |keys|
        invariant SkipStage(row.Snapshot(), keys[k..]) == SkipStage(before, keys)
      {
        assert keys[k..][1..] == keys[k + 1..];
        var target := Find(row.tasks, keys[k]);
        if target.Some? && row.tasks[target.value].status.TaskPending? {
          row.Set(target.value, row.tasks[target.value].(status := TaskSkipped));
          row.Append(TaskSkip(target.value));
        }
      }
    }

    method HasArtifact(t: TaskId) returns (found: bool)
      ensures found <==> exists i :: 0 <= i < |row.artifacts| && row.artifacts[i].task == Some(t)
    {
      found := false;
      for i := 0 to |row.artifacts|
        invariant found <==> exists j :: 0 <= j < i && row.artifacts[j].task == Some(t)
      {
        if row.artifacts[i].task == Some(t) {
          found := true;
        }
      }
    }

    /** `maybe_evaluate_final_gate` */
    method EvaluateFinalGate(verdict: bool) returns (again: bool, committed: bool)
      modifies row, this`finalGateDone, this`reviseRound
      ensures var f := FinalGate(old(row.Snapshot()), old(Locals()), verdict);
        row.Snapshot() == f.run && Locals() == f.exec && again == f.again && committed == f.committed
    {
      if finalGateDone {
        return false, false;
      }
      var recheck, rewrite := Find(row.tasks, "recheck"), Find(row.tasks, "rewrite");
      if recheck.None? || rewrite.None? || !row.tasks[recheck.value].status.TaskSucceeded? {
        return false, false;
      }
      finalGateDone := true;
      var found := HasArtifact(rewrite.value);
      if !found {
        return false, false;
      }
      if verdict {
        row.Append(FinalGatePassed);
        return false, true;
      }
      if reviseRound >= MAX_REVISE_ROUNDS {
        row.Append(QualityDegraded);
        return false, true;
      }
      row.Set(rewrite.value, row.tasks[rewrite.value].(status := TaskPending, lease := None));
      row.Set(recheck.value, row.tasks[recheck.value].(status := TaskPending, lease := None));
      row.Append(RecheckFailed(rewrite.value, recheck.value));
      reviseRound := reviseRound + 1;
      finalGateDone := false;
      return true, true;
    }

    method FindReady(now: int) returns (ready: seq<TaskId>)
      ensures ready == ReadyFrom(row.tasks, now, 0)
    {
      var tasks := row.tasks;
      ready := [];
      for i := 0 to |tasks|
        invariant ready + ReadyFrom(tasks, now, i) == ReadyFrom(tasks, now, 0)
      {
        if Ready(tasks, i, now) {
          assert ready + ([i] + ReadyFrom(tasks, now, i + 1)) == ready + [i] + ReadyFrom(tasks, now, i + 1);
          ready := ready + [i];
        }
      }
    }

    /** Claims ready rows under leases, up to the profile's parallelism. */
    method ClaimReady(ready: seq<TaskId>, now: int, cap: nat) returns (claimed: seq<TaskId>, exhausted: bool)
      requires forall j :: 0 <= j < |ready| ==> ready[j] < |row.tasks|
      modifies row
      ensures ClaimFrom(old(row.Snapshot()), ready, 0, id, now, cap, ledger, []) == ClaimResult(row.Snapshot(), claimed, exhausted)
      ensures |row.tasks| == |old(row.tasks)| && forall j :: 0 <= j < |claimed| ==> claimed[j] < |row.tasks|
    {
      claimed := [];
      ghost var start := row.Snapshot();
      for k := 0 to |ready|
        invariant |row.tasks| == |start.tasks|
        invariant forall j :: 0 <= j < |claimed| ==> claimed[j] < |row.tasks|
        invariant ClaimFrom(start, ready, 0, id, now, cap, ledger, [])
          == ClaimFrom(row.Snapshot(), ready, k, id, now, cap, ledger, claimed)
      {
        if |claimed| >= cap {
          return claimed, false;
        }
        var t := ready[k];
        if ledger && row.budgetUsed + row.tasks[t].budget > row.budgetLimit {
          row.Set(t, row.tasks[t].(status := TaskFailed));
          row.Release(claimed);
          row.status := RunBudgetExhausted;
          row.Append(RunExhausted);
          return claimed, true;
        }
        row.Set(t, Claimed(row.tasks[t], id, now));
        row.Append(TaskStarted(t));
        row.Append(LeaseAcquired(t, id));
        claimed := claimed + [t];
      }
      return claimed, false;
    }

    /** Credentials, the lane ledger and the input budgets of the claimed batch. */
    method PrepareBatch(claimed: seq<TaskId>, input: TickInput) returns (next: Outcome)
      requires forall j :: 0 <= j < |claimed| ==> claimed[j] < |row.tasks|
      modifies row, this`ledger, this`building, this`inflight
      ensures TickResult(row.Snapshot(), Locals(), next) == StartBatch(old(row.Snapshot()), old(Locals()), claimed, input)
    {
      if !providerReady && !input.credentials {
        row.Release(claimed);
        row.Fail(NotConfigured);
        return Exit;
      }
      if !ledger {
        ledger := true;
        row.budgetLimit := Max(row.budgetLimit, input.laneTotal * 3 / 2);
        row.Append(BudgetRecomputed(row.budgetLimit));
      }
      row.AppendAudits(input.audits);
      building := !providerReady;
      inflight := map t | t in claimed :: Total(Fences(t), row.events);
      return Work;
    }

    /** Leaving a unit of work without a commit. */
    method Rollback(r: Run)
      modifies row
      ensures row.Snapshot() == r
    {
      row.status, row.budgetUsed, row.budgetLimit, row.cursor := r.status, r.budgetUsed, r.budgetLimit, r.cursor;
      row.events, row.artifacts, row.tasks := r.events, r.artifacts, r.tasks;
    }

    /** The scan behind the gates; `committed` is the last committed state. */
    method ScanTasks(committed: Run, now: int, input: TickInput) returns (next: Outcome)
      modifies row, this`ledger, this`building, this`inflight
      ensures TickResult(row.Snapshot(), Locals(), next)
        == Scan(committed, old(row.Snapshot()), old(Locals()), id, now, input)
    {
      if !AnyStatus(row.tasks, TaskPending) {
        if AnyStatus(row.tasks, TaskFailed) {
          row.Fail(TasksFailed);
        } else {
          row.status := RunCompleted;
          row.Append(RunDone);
        }
        return Exit;
      }
      if AllPendingWait(row.tasks, now) {
        return Again;
      }
      var ready := FindReady(now);
      if ready == [] {
        if AnyStatus(row.tasks, TaskRunning) {
          Rollback(committed);
          return Again;
        }
        if AnyWaiting(row.tasks, now) {
          return Again;
        }
        row.Fail(DependencyUnsatisfied);
        return Exit;
      }
      var claimed, exhausted := ClaimReady(ready, now, input.cap);
      if exhausted {
        return Exit;
      }
      next := PrepareBatch(claimed, input);
    }

    /** The unit of work at the top of the loop. */
    method Iterate(now: int, input: TickInput) returns (next: Outcome)
      modifies row, this
      ensures TickResult(row.Snapshot(), Locals(), next) == Tick(old(row.Snapshot()), old(Locals()), id, now, input)
    {
      var committed := row.Snapshot();
      if !Active(row.status) {
        return Exit;
      }
      if row.status.RunPending? {
        row.status := RunRunning;
        row.Append(RunStarted);
      }
      var recovered := RecoverExpired(now);
      if recovered {
        return Again;
      }
      var again := EvaluateGate(input.gate);
      if again {
        return Again;
      }
      var wrote: bool;
      again, wrote := EvaluateFinalGate(input.finalGate);
      if again {
        return Again;
      }
      if wrote {
        committed := row.Snapshot();
      }
      next := ScanTasks(committed, now, input);
    }

    // -------------------------------------------------------------- committing results

    /** `retryable_failure_streak`: the newest 50 settle entries, newest first. */
    method FailureStreak() returns (streak: nat)
      ensures streak == if Streak(row.events) <= 50 then Streak(row.events) else 50
    {
      streak := 0;
      var i := |row.events|;
      assert row.events[..i] == row.events;
      while i > 0 && streak < 50
        invariant 0 <= i <= |row.events| && streak <= 50
        invariant Streak(row.events) == streak + Streak(row.events[..i])
      {
        i := i - 1;
        assert row.events[..i + 1][..i] == row.events[..i];
        var b := row.events[i].body;
        if b.TaskFailure? && b.provider {
          streak := streak + 1;
        } else if b.TaskFailure? || b.TaskSuccess? {
          return;
        }
      }
    }

    /** The artifact and the entries of a success. */
    method CommitResult(t: TaskId)
      modifies row
      ensures row.Snapshot() == Conclude(old(row.Snapshot()), t)
    {
      row.artifacts := row.artifacts + [Artifact(Some(t), true)];
      row.Append(ArtifactCommitted(|row.artifacts| - 1));
      row.Append(TaskSuccess(t));
    }

    /** A terminally failing task: only recheck is waved through. */
    method GiveUp(t: TaskId)
      requires t < |row.tasks|
      modifies row
      ensures var r := old(row.Snapshot());
        row.Snapshot() == if r.tasks[t].key == "recheck" then CommitDegraded(r, t) else CommitFailed(r, t)
    {
      var task := row.tasks[t];
      if task.key == "recheck" {
        row.Set(t, task.(status := TaskSucceeded, lease := None));
        row.Append(TaskDegraded(t));
        CommitResult(t);
      } else {
        row.Set(t, task.(status := TaskFailed, lease := None));
        row.Append(TaskFailure(t, false, false));
      }
    }

    method RetryLater(t: TaskId, now: int, jitter: nat)
      requires t < |row.tasks|
      modifies row
      ensures row.Snapshot() == CommitRetryable(old(row.Snapshot()), t, now, jitter)
    {
      row.Set(t, Delayed(row.tasks[t], now, jitter));
      row.Append(TaskFailure(t, true, true));
      var streak := FailureStreak();
      if streak >= AUTO_PAUSE_STREAK {
        row.status := RunPaused;
        row.Append(AutoPaused);
      }
    }

    /** The commit transaction of `run_claimed`. */
    method CommitTask(t: TaskId, now: int, result: HandlerResult)
      requires t < |row.tasks|
      modifies row
      ensures row.Snapshot() == Settle(old(row.Snapshot()), id, t, now, result)
    {
      var task := row.tasks[t];
      if task.lease != Some(id) {
        return;
      }
      if !row.status.RunRunning? {
        row.Set(t, task.(status := TaskPending, lease := None));
        return;
      }
      match result
      case Success(tokens, extras) =>
        row.Set(t, task.(status := TaskSucceeded, lease := None));
        row.budgetUsed := row.budgetUsed + tokens;
        row.Append(TaskUsage(t, tokens));
        row.AppendAudits(extras);
        CommitResult(t);
      case InvalidPayload =>
        row.Set(t, task.(status := TaskFailed, lease := None));
        row.Append(TaskFailure(t, false, false));
      case DeniedByPolicy =>
        row.Append(PolicyDenied(t));
        row.Set(t, task.(status := TaskFailed, lease := None));
        row.Append(TaskFailure(t, false, false));
      case RetryableError(jitter) =>
        if task.retryable < RETRYABLE_MAX_ATTEMPTS {
          RetryLater(t, now, jitter);
        } else {
          GiveUp(t);
        }
      case OtherError =>
        if task.attempts - task.retryable < MAX_NONRETRY_ATTEMPTS {
          row.Set(t, task.(status := TaskPending, lease := None, nextAt := None));
          row.Append(TaskFailure(t, true, false));
        } else {
          GiveUp(t);
        }
    }

    /** Claimed rows still RUNNING go back when the provider cannot be built. */
    method AbandonBatch()
      modifies row
      ensures row.Snapshot() == BuildFailure(old(row.Snapshot()), Locals())
    {
      for i := 0 to |row.tasks|
        invariant row.Snapshot() == old(row.Snapshot()).(tasks := row.tasks) && |row.tasks| == |old(row.tasks)|
        invariant forall j :: 0 <= j < |row.tasks| ==>
          row.tasks[j] == if j < i then GivenBack(old(row.tasks)[j], j in inflight) else old(row.tasks)[j]
      {
        if i in inflight && row.tasks[i].status.TaskRunning? {
          row.Set(i, row.tasks[i].(status := TaskPending, lease := None));
        }
      }
      row.Fail(NotConfigured);
    }

    /** Handlers run and their results are committed, in whatever order. */
    method RunBatch(start: int, ghost first: seq<Task>, ghost log: seq<Event>, ghost base: seq<Task>) returns (now: int)
      requires BatchInvariant(first, log, base, row.Snapshot(), Locals(), inflight.Keys, inflight.Keys, id)
      modifies row, this`inflight
      ensures inflight == map[]
      ensures BatchInvariant(first, log, base, row.Snapshot(), old(Locals()), old(inflight.Keys), {}, id)
    {
      now := start;
      ghost var x := Locals();
      while inflight.Keys != {}
        invariant BatchInvariant(first, log, base, row.Snapshot(), x, x.inflight.Keys, inflight.Keys, id)
        decreases inflight.Keys
      {
        var t :| t in inflight;
        var elapsed: int := *;
        now := now + Max(elapsed, 0);
        RunTask(t, now, first, log, base, x);
        inflight := inflight - {t};
      }
      assert inflight == map[];
    }

    /** One handler call, of unknown outcome, and its commit. */
    method RunTask(t: TaskId, now: int, ghost first: seq<Task>, ghost log: seq<Event>, ghost base: seq<Task>, ghost x: Exec)
      requires BatchInvariant(first, log, base, row.Snapshot(), x, x.inflight.Keys, inflight.Keys, id) && t in inflight
      modifies row
      ensures BatchInvariant(first, log, base, row.Snapshot(), x, x.inflight.Keys, (inflight - {t}).Keys, id)
    {
      var result: HandlerResult := *;
      BatchStep(first, log, base, row.Snapshot(), x, x.inflight.Keys, inflight.Keys, id, t, now, result);
      assert (inflight - {t}).Keys == inflight.Keys - {t};
      CommitTask(t, now, result);
    }

    /** Provider build and the batch behind it; false when the provider cannot be built. */
    method WorkOff(start: int, ghost first: seq<Task>, ghost log: seq<Event>, ghost base: seq<Task>) returns (built: bool, now: int)
      requires BatchInvariant(first, log, base, row.Snapshot(), Locals(), inflight.Keys, inflight.Keys, id) && inflight.Keys != {}
      modifies row, this`inflight, this`building, this`providerReady
      ensures LoopInvariant(first, log, row.Snapshot(), Locals())
      ensures built ==> inflight == map[] && (Active(row.status) ==> Sum(Works(row.tasks)) < Sum(Works(base)))
      ensures !built ==> !Active(row.status)
    {
      now := start;
      if building {
        built := *;
        if !built {
          AbandonKeeps(first, log, base, row.Snapshot(), Locals(), id);
          AbandonBatch();
          return;
        }
      }
      built := true;
      ghost var x := Locals();
      now := RunBatch(now, first, log, base);
      providerReady, building := true, false;
      BatchEnds(first, log, base, row.Snapshot(), x, Locals(), x.inflight.Keys, id);
    }

    /** One call of `execute_run` with the rows to itself and a clock that advances:
        it ends, leaving the run inactive; it resets rewrite and recheck at most
        once; and it claims a row that began within its retries at most eight times,
        plus one after a reset. */
    method ExecuteRun(start: int, parallelism: nat) returns (now: int)
      requires Locals() == FRESH && parallelism > 0
      modifies row, this
      ensures !Active(row.status)
      ensures 1 <= reviseRound <= MAX_REVISE_ROUNDS && ResetsWithin(old(row.events), row.events, reviseRound - 1)
      ensures ClaimsWithin(old(row.tasks), row.tasks, Locals())
    {
      now := start;
      ghost var first, log := row.tasks, row.events;
      var going := true;
      BeginsCounted(first, Locals());
      while going
        invariant !going ==> !Active(row.status)
        invariant LoopInvariant(first, log, row.Snapshot(), Locals())
        decreases going, Active(row.status), MAX_REVISE_ROUNDS - reviseRound, Sum(Works(row.tasks)), Sum(Waits(row.tasks, now))
      {
        going, now := RunIteration(now, parallelism, first, log);
      }
      forall i | 0 <= i < |first| && WithinRetries(first[i], 0, true)
        ensures row.tasks[i].attempts <= 8 + Extra(Locals(), first[i].key)
      {
        ClaimsBounded(first, log, row.Snapshot(), Locals(), i);
      }
    }

    /** The unit of work at the top of the loop, with what it means for the call. */
    method BeginIteration(now: int, parallelism: nat, ghost first: seq<Task>, ghost log: seq<Event>, ghost later: int)
      returns (next: Outcome)
      requires parallelism > 0 && now < later && LoopInvariant(first, log, row.Snapshot(), Locals())
      modifies row, this
      ensures !next.Exit? ==> Active(old(row.status))
      ensures next.Work? ==> reviseRound == old(reviseRound) && inflight.Keys != {}
      ensures next.Work? ==> BatchInvariant(first, log, old(row.tasks), row.Snapshot(), Locals(), inflight.Keys, inflight.Keys, id)
      ensures !next.Work? ==> LoopInvariant(first, log, row.Snapshot(), Locals())
      ensures next.Exit? ==> !Active(row.status)
      ensures next.Again? ==> Advances(old(Locals()), old(row.tasks), now, Locals(), row.tasks, later)
    {
      var input: TickInput := *;
      input := input.(cap := parallelism);
      ghost var r, x := row.Snapshot(), Locals();
      next := Iterate(now, input);
      if next.Work? {
        BatchStarts(first, log, r, x, id, now, input);
      } else {
        ContinueKeeps(first, log, r, x, id, now, input);
        if next.Again? {
          ContinuingAdvances(r, x, id, now, input, later);
        }
      }
    }

    /** One pass through the loop, with what makes the next one closer to the end. */
    method RunIteration(start: int, parallelism: nat, ghost first: seq<Task>, ghost log: seq<Event>) returns (going: bool, now: int)
      requires parallelism > 0 && LoopInvariant(first, log, row.Snapshot(), Locals())
      modifies row, this
      ensures LoopInvariant(first, log, row.Snapshot(), Locals())
      ensures !going ==> !Active(row.status)
      ensures going ==> Active(old(row.status))
      ensures going && Active(row.status) ==> Advances(old(Locals()), old(row.tasks), start, Locals(), row.tasks, now)
    {
      var elapsed: int := *;
      now := start + 1 + Max(elapsed, 0);
      var next := BeginIteration(start, parallelism, first, log, now);
      going := next.Again?;
      if next.Work? {
        going, now := WorkOff(now, first, log, old(row.tasks));
      }
    }
  }
}
