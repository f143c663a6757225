/** What every transaction keeps of the books: which ones can touch a lease, a
    claim count or the token ledger, and how. */
module Transactions {
  import opened RunModel
  import opened Executor
  import Control

  function LeaseOf(r: Run, t: TaskId): Option<ExecId> {
    if t < |r.tasks| then r.tasks[t].lease else None
  }

  /** Nothing is settled, and a task keeps its lease only if no fence event hit it. */
  ghost predicate QuietAt(r: Run, r': Run, t: TaskId) {
    && Total(Settles(t), r'.events) == Total(Settles(t), r.events)
    && Total(Starts(t), r'.events) >= Total(Starts(t), r.events)
    && (LeaseOf(r', t).None?
        || (LeaseOf(r', t) == LeaseOf(r, t) && Total(Fences(t), r'.events) == Total(Fences(t), r.events)))
  }

  predicate Money(m: Metric) { m.Successes? || m.Tokens? || m.LaneTokens? || m.StrayTokens? }

  /** No tokens settled, no artifact written, limit not lowered, events appended in order. */
  ghost predicate Bookkept(r: Run, r': Run) {
    && |r.tasks| == |r'.tasks|
    && r'.budgetUsed == r.budgetUsed && r'.budgetLimit >= r.budgetLimit && r'.artifacts == r.artifacts
    && r.events <= r'.events && (Numbered(r) ==> Numbered(r'))
    && (forall m {:trigger Total(m, r'.events)} :: Money(m) ==> Total(m, r'.events) == Total(m, r.events))
  }

  ghost predicate Quiet(r: Run, r': Run) {
    Bookkept(r, r') && forall t: TaskId :: QuietAt(r, r', t)
  }

  lemma QuietTransitive(r: Run, r1: Run, r2: Run)
    requires Quiet(r, r1) && Quiet(r1, r2)
    ensures Quiet(r, r2)
  {
    forall t: TaskId
      ensures QuietAt(r, r2, t)
    {
      assert QuietAt(r, r1, t) && QuietAt(r1, r2, t);
    }
  }

  // ---------------------------------------------------------------- the two elementary quiet changes

  /** Bodies that neither start, fence nor settle a claim nor move tokens. */
  predicate Plain(b: Body) {
    !(b.TaskStarted? || b.TaskRecovered? || b.RecheckFailed? || b.TaskSuccess? || b.TaskFailure? || b.TaskUsage?)
  }

  lemma ThenEvent(r: Run, r1: Run, b: Body)
    requires Quiet(r, r1) && Plain(b)
    ensures Quiet(r, AddEvent(r1, b))
  {
    var r2 := AddEvent(r1, b);
    forall t: TaskId
      ensures QuietAt(r, r2, t)
    {
      assert QuietAt(r, r1, t);
    }
  }

  /** Status, limit and rows change; leases are kept or dropped. */
  predicate RowChange(r: Run, r': Run) {
    && r' == r.(status := r'.status, tasks := r'.tasks, budgetLimit := r'.budgetLimit)
    && r'.budgetLimit >= r.budgetLimit && |r'.tasks| == |r.tasks|
    && forall i :: 0 <= i < |r.tasks| ==> r'.tasks[i].lease == r.tasks[i].lease || r'.tasks[i].lease.None?
  }

  lemma RowsQuiet(r: Run, r': Run)
    requires RowChange(r, r')
    ensures Quiet(r, r')
  {}

  lemma ChangeThenEvent(r: Run, r1: Run, b: Body)
    requires RowChange(r, r1) && Plain(b)
    ensures Quiet(r, AddEvent(r1, b))
  {
    RowsQuiet(r, r1);
    ThenEvent(r, r1, b);
  }

  lemma {:induction false} AuditsQuiet(r: Run, r1: Run, n: nat)
    requires Quiet(r, r1)
    ensures Quiet(r, AddAudits(r1, n))
  {
    if n > 0 {
      AuditsQuiet(r, r1, n - 1);
      ThenEvent(r, AddAudits(r1, n - 1), Audit);
    }
  }

  // ---------------------------------------------------------------- the quiet transactions

  lemma BeginQuiet(r: Run)
    ensures Quiet(r, Begin(r))
  {
    RowsQuiet(r, r);
    if r.status.RunPending? {
      ChangeThenEvent(r, r.(status := RunRunning), RunStarted);
    }
  }

  lemma RecoverQuiet(r: Run, now: int)
    ensures Quiet(r, RecoverFrom(r, now, 0))
  {
    var r' := RecoverFrom(r, now, 0);
    forall m
      ensures Money(m) ==> Total(m, r'.events) == Total(m, r.events)
    {
      RecoverTotals(r, now, 0, m);
    }
    forall t: TaskId
      ensures QuietAt(r, r', t)
    {
      RecoverTotals(r, now, 0, Settles(t));
      RecoverTotals(r, now, 0, Starts(t));
      RecoverTotals(r, now, 0, Fences(t));
    }
    RecoverAppends(r, now, 0);
  }

  lemma {:induction false} SkipQuiet(r: Run, r1: Run, keys: seq<string>)
    requires Quiet(r, r1)
    ensures Quiet(r, SkipStage(r1, keys))
    decreases |keys|
  {
    if keys != [] {
      var target := Find(r1.tasks, keys[0]);
      if target.Some? && r1.tasks[target.value].status.TaskPending? {
        var r2 := SetTask(r1, target.value, r1.tasks[target.value].(status := TaskSkipped));
        ChangeThenEvent(r1, r2, TaskSkip(target.value));
        QuietTransitive(r, r1, AddEvent(r2, TaskSkip(target.value)));
        SkipQuiet(r, AddEvent(r2, TaskSkip(target.value)), keys[1..]);
      } else {
        SkipQuiet(r, r1, keys[1..]);
      }
    }
  }

  lemma GateQuiet(r: Run, x: Exec, verdict: bool)
    ensures Quiet(r, Gate(r, x, verdict).run)
  {
    RowsQuiet(r, r);
    ThenEvent(r, r, GateEvaluated(verdict));
    SkipQuiet(r, AddEvent(r, GateEvaluated(verdict)), REVISE_STAGE);
  }

  /** The reset drops both leases in the transaction that fences them. */
  lemma ResetQuiet(r: Run, rewrite: TaskId, recheck: TaskId)
    requires rewrite < |r.tasks| && recheck < |r.tasks|
    ensures Quiet(r, AddEvent(ResetTask(ResetTask(r, rewrite), recheck), RecheckFailed(rewrite, recheck)))
  {}

  lemma FinalGateQuiet(r: Run, x: Exec, verdict: bool)
    ensures Quiet(r, FinalGate(r, x, verdict).run)
  {
    RowsQuiet(r, r);
    ThenEvent(r, r, FinalGatePassed);
    ThenEvent(r, r, QualityDegraded);
    var rewrite, recheck := Find(r.tasks, "rewrite"), Find(r.tasks, "recheck");
    if rewrite.Some? && recheck.Some? {
      ResetQuiet(r, rewrite.value, recheck.value);
    }
  }

  lemma FailQuiet(r: Run, r1: Run, reason: FailReason)
    requires RowChange(r, r1)
    ensures Quiet(r, FailRun(r1, reason))
  {
    ChangeThenEvent(r, r1.(status := RunFailed), RunFailure(reason));
  }

  lemma BuildFailureQuiet(r: Run, x: Exec)
    ensures Quiet(r, BuildFailure(r, x))
  {
    var back := seq(|r.tasks|, i requires 0 <= i < |r.tasks| => GivenBack(r.tasks[i], i in x.inflight));
    FailQuiet(r, r.(tasks := back), NotConfigured);
  }

  lemma PauseCancelQuiet(r: Run, target: RunStatus)
    ensures Quiet(r, Control.Transition(r, target))
    ensures Quiet(r, r)
  {
    RowsQuiet(r, r);
    ChangeThenEvent(r, r.(status := target), Controlled);
  }

  lemma RetryQuiet(r: Run, target: Option<TaskId>, capReached: bool)
    ensures Quiet(r, Control.Retry(r, target, capReached).run)
  {
    var res := Control.Retry(r, target, capReached);
    RowsQuiet(r, r);
    if res.enqueue.Some? {
      var before := res.run.(events := r.events, cursor := r.cursor);
      ChangeThenEvent(r, before, Controlled);
      assert res.run == AddEvent(before, Controlled);
    }
  }

  // ---------------------------------------------------------------- claiming a batch

  ghost predicate ClaimedAt(r: Run, r': Run, e: ExecId, t: TaskId) {
    && t < |r'.tasks| && r'.tasks[t].lease == Some(e)
    && Total(Settles(t), r'.events) == Total(Settles(t), r.events)
    && Total(Starts(t), r'.events) >= Total(Starts(t), r.events) + 1
  }

  /** e has started the tasks of `ids`; the rest is quiet. */
  ghost predicate Batch(r: Run, r': Run, e: ExecId, ids: set<TaskId>) {
    && Bookkept(r, r')
    && forall t: TaskId :: if t in ids then ClaimedAt(r, r', e, t) else QuietAt(r, r', t)
  }

  lemma BatchThenEvent(r: Run, r1: Run, e: ExecId, ids: set<TaskId>, b: Body)
    requires Batch(r, r1, e, ids) && Plain(b)
    ensures Batch(r, AddEvent(r1, b), e, ids)
  {
    var r2 := AddEvent(r1, b);
    forall t: TaskId
      ensures if t in ids then ClaimedAt(r, r2, e, t) else QuietAt(r, r2, t)
    {
      assert if t in ids then ClaimedAt(r, r1, e, t) else QuietAt(r, r1, t);
    }
  }

  lemma ClaimOne(r: Run, r1: Run, e: ExecId, now: int, ids: set<TaskId>, t: TaskId)
    requires Batch(r, r1, e, ids) && t < |r1.tasks| && t !in ids
    ensures Batch(r, AddEvent(SetTask(r1, t, Claimed(r1.tasks[t], e, now)), TaskStarted(t)), e, ids + {t})
  {
    var r2 := AddEvent(SetTask(r1, t, Claimed(r1.tasks[t], e, now)), TaskStarted(t));
    forall u: TaskId
      ensures if u in ids + {t} then ClaimedAt(r, r2, e, u) else QuietAt(r, r2, u)
    {
      assert if u in ids then ClaimedAt(r, r1, e, u) else QuietAt(r, r1, u);
    }
  }

  /** Giving the whole batch back is quiet again. */
  lemma ReleaseQuiet(r: Run, r1: Run, r2: Run, e: ExecId, ids: set<TaskId>, released: seq<TaskId>)
    requires Batch(r, r1, e, ids) && forall t :: t in ids ==> t in released
    requires r2 == r1.(status := r2.status, tasks := r2.tasks) && |r2.tasks| == |r1.tasks|
    requires forall i: TaskId :: i < |r1.tasks| ==> r2.tasks[i].lease == if i in released then None else r1.tasks[i].lease
    ensures Quiet(r, r2)
  {
    forall t: TaskId
      ensures QuietAt(r, r2, t)
    {
      assert if t in ids then ClaimedAt(r, r1, e, t) else QuietAt(r, r1, t);
    }
  }

  /** The refused task fails and the batch goes back. */
  function Refuse(r: Run, t: TaskId, claimed: seq<TaskId>): Run
    requires t < |r.tasks|
  {
    var failed := SetTask(r, t, r.tasks[t].(status := TaskFailed));
    AddEvent(failed.(tasks := ReleaseAll(failed.tasks, claimed), status := RunBudgetExhausted), RunExhausted)
  }

  lemma RefuseQuiet(r: Run, r1: Run, e: ExecId, t: TaskId, claimed: seq<TaskId>)
    requires Batch(r, r1, e, set u | u in claimed) && t < |r1.tasks|
    ensures Quiet(r, Refuse(r1, t, claimed))
  {
    var failed := SetTask(r1, t, r1.tasks[t].(status := TaskFailed));
    var r2 := failed.(tasks := ReleaseAll(failed.tasks, claimed), status := RunBudgetExhausted);
    ReleaseQuiet(r, r1, r2, e, (set u | u in claimed), claimed);
    ThenEvent(r, r2, RunExhausted);
  }

  function ClaimRow(r: Run, t: TaskId, e: ExecId, now: int): Run
    requires t < |r.tasks|
  {
    AddEvent(AddEvent(SetTask(r, t, Claimed(r.tasks[t], e, now)), TaskStarted(t)), LeaseAcquired(t, e))
  }

  lemma ElementsAppend(ids: seq<TaskId>, t: TaskId)
    ensures (set u | u in ids + [t]) == (set u | u in ids) + {t}
  {}

  lemma ClaimRowBatch(r: Run, r1: Run, e: ExecId, now: int, t: TaskId, claimed: seq<TaskId>)
    requires Batch(r, r1, e, set u | u in claimed) && t < |r1.tasks| && t !in claimed
    ensures Batch(r, ClaimRow(r1, t, e, now), e, set u | u in claimed + [t])
  {
    var ids := set u | u in claimed;
    var r2 := AddEvent(SetTask(r1, t, Claimed(r1.tasks[t], e, now)), TaskStarted(t));
    assert Batch(r, r2, e, ids + {t}) by {
      ClaimOne(r, r1, e, now, ids, t);
    }
    BatchThenEvent(r, r2, e, ids + {t}, LeaseAcquired(t, e));
    ElementsAppend(claimed, t);
  }

  ghost predicate ClaimOutcome(r: Run, e: ExecId, c: ClaimResult) {
    if c.exhausted then Quiet(r, c.run) && c.run.status == RunBudgetExhausted
    else Batch(r, c.run, e, set t | t in c.claimed)
  }

  lemma {:induction false} ClaimEffect(r: Run, r1: Run, ready: seq<TaskId>, k: nat,
                                       e: ExecId, now: int, cap: nat, ledger: bool, claimed: seq<TaskId>)
    requires k <= |ready| && forall j :: 0 <= j < |ready| ==> ready[j] < |r1.tasks|
    requires forall i, j :: 0 <= i < j < |ready| ==> ready[i] < ready[j]
    requires Batch(r, r1, e, set t | t in claimed)
    requires forall j :: k <= j < |ready| ==> ready[j] !in claimed
    ensures ClaimOutcome(r, e, ClaimFrom(r1, ready, k, e, now, cap, ledger, claimed))
    decreases |ready| - k
  {
    if k < |ready| && |claimed| < cap {
      if Refused(r1, ledger, ready[k]) {
        RefuseQuiet(r, r1, e, ready[k], claimed);
      } else {
        ClaimRowBatch(r, r1, e, now, ready[k], claimed);
        ClaimEffect(r, ClaimRow(r1, ready[k], e, now), ready, k + 1, e, now, cap, ledger, claimed + [ready[k]]);
      }
    }
  }

  /** A batch either goes back with the run failed, or is in flight with its
      fence counts recorded. */
  lemma StartBatchEffect(r: Run, r1: Run, x: Exec, e: ExecId, claimed: seq<TaskId>, input: TickInput)
    requires Batch(r, r1, e, set t | t in claimed)
    ensures var res := StartBatch(r1, x, claimed, input);
      if res.next.Exit? then Quiet(r, res.run) && res.run.status == RunFailed
      else
        && res.next.Work? && Batch(r, res.run, e, res.exec.inflight.Keys)
        && forall t :: t in res.exec.inflight ==> res.exec.inflight[t] == Total(Fences(t), res.run.events)
  {
    var ids := set t | t in claimed;
    var res := StartBatch(r1, x, claimed, input);
    if !x.providerReady && !input.credentials {
      var r2 := r1.(tasks := ReleaseAll(r1.tasks, claimed), status := RunFailed);
      ReleaseQuiet(r, r1, r2, e, ids, claimed);
      ThenEvent(r, r2, RunFailure(NotConfigured));
    } else {
      var limit := Max(r1.budgetLimit, input.laneTotal * 3 / 2);
      var r2 := if x.ledger then r1 else AddEvent(r1.(budgetLimit := limit), BudgetRecomputed(limit));
      if !x.ledger {
        var raised := r1.(budgetLimit := limit);
        forall t: TaskId
          ensures if t in ids then ClaimedAt(r, raised, e, t) else QuietAt(r, raised, t)
        {
          assert if t in ids then ClaimedAt(r, r1, e, t) else QuietAt(r, r1, t);
        }
        BatchThenEvent(r, raised, e, ids, BudgetRecomputed(limit));
      }
      AuditsBatch(r, r2, e, ids, input.audits);
      assert res.exec.inflight.Keys == ids;
    }
  }

  lemma {:induction false} AuditsBatch(r: Run, r1: Run, e: ExecId, ids: set<TaskId>, n: nat)
    requires Batch(r, r1, e, ids)
    ensures Batch(r, AddAudits(r1, n), e, ids)
  {
    if n > 0 {
      AuditsBatch(r, r1, e, ids, n - 1);
      BatchThenEvent(r, AddAudits(r1, n - 1), e, ids, Audit);
    }
  }

  // ---------------------------------------------------------------- one loop iteration

  lemma ScanEffect(r: Run, base: Run, r1: Run, x: Exec, e: ExecId, now: int, input: TickInput)
    requires Quiet(r, base) && Quiet(r, r1)
    ensures var res := Scan(base, r1, x, e, now, input); LoopEffect(r, x, res, e)
  {
    RowsQuiet(r1, r1);
    if !AnyStatus(r1.tasks, TaskPending) {
      if AnyStatus(r1.tasks, TaskFailed) {
        FailQuiet(r1, r1, TasksFailed);
        QuietTransitive(r, r1, FailRun(r1, TasksFailed));
      } else {
        ChangeThenEvent(r1, r1.(status := RunCompleted), RunDone);
        QuietTransitive(r, r1, AddEvent(r1.(status := RunCompleted), RunDone));
      }
    } else if !AllPendingWait(r1.tasks, now) {
      var ready := ReadyFrom(r1.tasks, now, 0);
      if ready == [] {
        FailQuiet(r1, r1, DependencyUnsatisfied);
        QuietTransitive(r, r1, FailRun(r1, DependencyUnsatisfied));
      } else {
        assert (set t: TaskId | t in []) == {};
        assert Batch(r, r1, e, {});
        ClaimEffect(r, r1, ready, 0, e, now, input.cap, x.ledger, []);
        var c := ClaimFrom(r1, ready, 0, e, now, input.cap, x.ledger, []);
        if !c.exhausted {
          StartBatchEffect(r, c.run, x, e, c.claimed, input);
        }
      }
    }
  }

  /** What one iteration of the loop can do to the run. */
  ghost predicate LoopEffect(r: Run, x: Exec, res: TickResult, e: ExecId) {
    match res.next
    case Exit => Quiet(r, res.run) && !Active(res.run.status)
    case Again => Quiet(r, res.run) && res.exec.inflight == x.inflight && res.exec.building == x.building
    case Work =>
      && Batch(r, res.run, e, res.exec.inflight.Keys)
      && forall t :: t in res.exec.inflight ==> res.exec.inflight[t] == Total(Fences(t), res.run.events)
  }

  /** Everything before the scan is quiet and leaves the batch of the call alone. */
  lemma GatesQuiet(r: Run, x: Exec, input: TickInput)
    ensures Quiet(r, Gate(Begin(r), x, input.gate).run)
    ensures var g := Gate(Begin(r), x, input.gate); Quiet(r, FinalGate(g.run, g.exec, input.finalGate).run)
  {
    var g := Gate(Begin(r), x, input.gate);
    BeginQuiet(r);
    GateQuiet(Begin(r), x, input.gate);
    QuietTransitive(r, Begin(r), g.run);
    FinalGateQuiet(g.run, g.exec, input.finalGate);
    QuietTransitive(r, g.run, FinalGate(g.run, g.exec, input.finalGate).run);
  }

  lemma GatesKeepBatch(r: Run, x: Exec, verdict: bool)
    ensures Gate(r, x, verdict).exec.inflight == x.inflight && Gate(r, x, verdict).exec.building == x.building
    ensures FinalGate(r, x, verdict).exec.inflight == x.inflight && FinalGate(r, x, verdict).exec.building == x.building
  {}

  lemma RecoveryQuiet(r: Run, now: int)
    ensures Quiet(r, RecoverFrom(Begin(r), now, 0))
  {
    BeginQuiet(r);
    RecoverQuiet(Begin(r), now);
    QuietTransitive(r, Begin(r), RecoverFrom(Begin(r), now, 0));
  }

  lemma TickEffect(r: Run, x: Exec, e: ExecId, now: int, input: TickInput)
    ensures LoopEffect(r, x, Tick(r, x, e, now, input), e)
  {
    if !Active(r.status) {
      RowsQuiet(r, r);
    } else if AnyStale(Begin(r).tasks, now) {
      RecoveryQuiet(r, now);
    } else {
      GatesQuiet(r, x, input);
      GatesKeepBatch(Begin(r), x, input.gate);
      var g := Gate(Begin(r), x, input.gate);
      GatesKeepBatch(g.run, g.exec, input.finalGate);
      var f := FinalGate(g.run, g.exec, input.finalGate);
      if !g.again && !f.again {
        RowsQuiet(r, r);
        ScanEffect(r, if f.committed then f.run else r, f.run, f.exec, e, now, input);
      }
    }
  }

  // ---------------------------------------------------------------- committing a result

  /** A settled claim: the lease is dropped, exactly one settle event is written
      and nobody else's claim is touched. */
  ghost predicate SettledAt(r: Run, r': Run, t: TaskId) {
    && LeaseOf(r', t).None? && LeaseOf(r, t).Some?
    && Total(Settles(t), r'.events) == Total(Settles(t), r.events) + 1
    && Total(Starts(t), r'.events) == Total(Starts(t), r.events)
    && forall u: TaskId :: u != t ==> QuietAt(r, r', u)
  }

  /** Committing without the lease or outside RUNNING writes no result. */
  lemma SettleRefused(r: Run, e: ExecId, t: TaskId, now: int, result: HandlerResult)
    requires t < |r.tasks| && (r.tasks[t].lease != Some(e) || !r.status.RunRunning?)
    ensures Quiet(r, Settle(r, e, t, now, result))
  {
    RowsQuiet(r, r);
    RowsQuiet(r, SetTask(r, t, Recovered(r.tasks[t])));
  }

  ghost predicate Settled(r: Run, r': Run, t: TaskId) { Bookkept(r, r') && SettledAt(r, r', t) }

  lemma FailureSettles(r: Run, t: TaskId, task: Task, retry: bool, provider: bool)
    requires t < |r.tasks| && r.tasks[t].lease.Some? && task.lease.None?
    ensures Settled(r, AddEvent(SetTask(r, t, task), TaskFailure(t, retry, provider)), t)
  {}

  lemma SettledThenEvent(r: Run, r1: Run, t: TaskId, status: RunStatus, b: Body)
    requires Settled(r, r1, t) && Plain(b)
    ensures Settled(r, AddEvent(r1.(status := status), b), t)
  {
    var r2 := AddEvent(r1.(status := status), b);
    forall u: TaskId | u != t
      ensures QuietAt(r, r2, u)
    {
      assert QuietAt(r, r1, u);
    }
  }

  lemma AutoPauseSettles(r: Run, r1: Run, t: TaskId)
    requires Settled(r, r1, t)
    ensures Settled(r, AutoPause(r1), t)
  {
    SettledThenEvent(r, r1, t, RunPaused, AutoPaused);
  }

  lemma RetryableSettles(r: Run, t: TaskId, now: int, jitter: nat)
    requires t < |r.tasks| && r.tasks[t].lease.Some?
    ensures Settled(r, CommitRetryable(r, t, now, jitter), t)
  {
    var task := Delayed(r.tasks[t], now, jitter);
    FailureSettles(r, t, task, true, true);
    AutoPauseSettles(r, AddEvent(SetTask(r, t, task), TaskFailure(t, true, true)), t);
  }

  /** A handler result that is not a success settles the claim and moves no tokens. */
  lemma FailedSettles(r: Run, t: TaskId)
    requires t < |r.tasks| && r.tasks[t].lease.Some?
    ensures Settled(r, CommitFailed(r, t), t)
    ensures Settled(r, CommitFailed(AddEvent(r, PolicyDenied(t)), t), t)
  {
    var task := r.tasks[t].(status := TaskFailed, lease := None);
    FailureSettles(r, t, task, false, false);
    var denied := AddEvent(r, PolicyDenied(t));
    FailureSettles(denied, t, task, false, false);
    RowsQuiet(r, r);
    ThenEvent(r, r, PolicyDenied(t));
    var r' := CommitFailed(denied, t);
    forall u: TaskId | u != t
      ensures QuietAt(r, r', u)
    {
      assert QuietAt(r, denied, u) && QuietAt(denied, r', u);
    }
    assert QuietAt(r, denied, t);
  }

  // ---------------------------------------------------------------- successes

  /** The rows a success leaves: its row done, its lease gone, one more handler artifact. */
  ghost predicate SuccessRows(r: Run, r': Run, t: TaskId, tokens: nat) {
    && |r'.tasks| == |r.tasks| && t < |r'.tasks| && r'.tasks[t].status.TaskSucceeded? && r'.tasks[t].lease.None?
    && r.tasks[t].lease.Some?
    && (forall u :: 0 <= u < |r.tasks| && u != t ==> r'.tasks[u] == r.tasks[u])
    && r'.status == r.status && r'.budgetUsed == r.budgetUsed + tokens && r'.budgetLimit == r.budgetLimit
    && r'.artifacts == r.artifacts + [Artifact(Some(t), true)]
    && r.events <= r'.events && (Numbered(r) ==> Numbered(r'))
  }

  /** The log a success leaves: its tokens and one task.succeeded are all that is counted. */
  ghost predicate SuccessLog(r: Run, r': Run, t: TaskId, tokens: nat) {
    forall m {:trigger Total(m, r'.events)} ::
      Total(m, r'.events) == Total(m, r.events) + Weigh(m, TaskUsage(t, tokens)) + Weigh(m, TaskSuccess(t))
  }

  ghost predicate Succeeds(r: Run, r': Run, t: TaskId, tokens: nat) {
    SuccessRows(r, r', t, tokens) && SuccessLog(r, r', t, tokens)
  }

  lemma SuccessSettlesAt(r: Run, r': Run, t: TaskId, tokens: nat)
    requires Succeeds(r, r', t, tokens)
    ensures SettledAt(r, r', t)
  {}

  lemma SuccessSettles(r: Run, t: TaskId, tokens: nat, extras: nat)
    requires t < |r.tasks| && r.tasks[t].lease.Some?
    ensures Succeeds(r, CommitSuccess(r, t, tokens, extras), t, tokens)
  {}

  lemma DegradedSettles(r: Run, t: TaskId)
    requires t < |r.tasks| && r.tasks[t].lease.Some?
    ensures Succeeds(r, CommitDegraded(r, t), t, 0)
  {}

  /** The fence of the commit transaction: the lease is still held, the run is RUNNING. */
  predicate Accepted(r: Run, e: ExecId, t: TaskId) {
    LeaseOf(r, t) == Some(e) && r.status.RunRunning?
  }

  /** Which results end in SUCCEEDED: a success, or a recheck out of retries. */
  predicate Succeeding(task: Task, result: HandlerResult) {
    match result
    case Success(_, _) => true
    case RetryableError(_) => task.retryable >= RETRYABLE_MAX_ATTEMPTS && task.key == "recheck"
    case OtherError => task.attempts - task.retryable >= MAX_NONRETRY_ATTEMPTS && task.key == "recheck"
    case _ => false
  }

  function Spent(result: HandlerResult): nat { if result.Success? then result.tokens else 0 }

  ghost predicate CommitEffect(r: Run, e: ExecId, t: TaskId, result: HandlerResult, r': Run)
    requires t < |r.tasks|
  {
    if !Accepted(r, e, t) then Quiet(r, r')
    else if Succeeding(r.tasks[t], result) then Succeeds(r, r', t, Spent(result))
    else Settled(r, r', t)
  }

  lemma SettleEffect(r: Run, e: ExecId, t: TaskId, now: int, result: HandlerResult)
    requires t < |r.tasks|
    ensures CommitEffect(r, e, t, result, Settle(r, e, t, now, result))
  {
    if !Accepted(r, e, t) {
      SettleRefused(r, e, t, now, result);
    } else {
      match result
      case Success(tokens, extras) => SuccessSettles(r, t, tokens, extras);
      case RetryableError(jitter) =>
        RetryableSettles(r, t, now, jitter);
        DegradedSettles(r, t);
        FailedSettles(r, t);
      case OtherError =>
        FailureSettles(r, t, r.tasks[t].(status := TaskPending, lease := None, nextAt := None), true, false);
        DegradedSettles(r, t);
        FailedSettles(r, t);
      case _ => FailedSettles(r, t);
    }
  }
}
