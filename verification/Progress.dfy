/** Why one `execute_run` call ends: every iteration uses up revise rounds, work
    or waiting time; and how often it can claim one task. */
module Progress {
  import opened RunModel
  import opened Executor
  import opened RowEffects
  import opened RunStates
  import opened Transactions

  function Positive(x: int): nat { if x > 0 then x else 0 }

  /** Claims left before the retry counters run out. */
  function Retries(attempts: int, retryable: int): nat {
    1 + Positive(RETRYABLE_MAX_ATTEMPTS - retryable) + Positive(MAX_NONRETRY_ATTEMPTS - (attempts - retryable))
  }

  /** Work left in a row: nothing once it is finished; a claim in flight counts as
      one more than the row it was made from. */
  function Work(task: Task): nat {
    match task.status
    case TaskPending => Retries(task.attempts, task.retryable)
    case TaskRunning => 1 + Retries(task.attempts - 1, task.retryable)
    case _ => 0
  }

  /** Time until the row can change by itself: a due retry or an expired lease. */
  function Wait(task: Task, now: int): nat {
    match task.status
    case TaskPending => if task.nextAt.Some? then Positive(task.nextAt.value - now) else 0
    case TaskRunning => if task.expires.Some? then Positive(task.expires.value - now + 1) else 0
    case _ => 0
  }

  function Sum(s: seq<nat>): nat {
    if s == [] then 0 else Sum(s[..|s| - 1]) + s[|s| - 1]
  }

  function Works(tasks: seq<Task>): (s: seq<nat>)
    ensures |s| == |tasks| && forall i :: 0 <= i < |tasks| ==> s[i] == Work(tasks[i])
  {
    seq(|tasks|, i requires 0 <= i < |tasks| => Work(tasks[i]))
  }

  function Waits(tasks: seq<Task>, now: int): (s: seq<nat>)
    ensures |s| == |tasks| && forall i :: 0 <= i < |tasks| ==> s[i] == Wait(tasks[i], now)
  {
    seq(|tasks|, i requires 0 <= i < |tasks| => Wait(tasks[i], now))
  }

  lemma {:induction false} SumMonotone(a: seq<nat>, b: seq<nat>)
    requires |a| == |b| && forall i :: 0 <= i < |a| ==> a[i] <= b[i]
    ensures Sum(a) <= Sum(b)
    ensures (exists i :: 0 <= i < |a| && a[i] < b[i]) ==> Sum(a) < Sum(b)
  {
    if a != [] {
      var n := |a| - 1;
      SumMonotone(a[..n], b[..n]);
      if i :| 0 <= i < |a| && a[i] < b[i] && i < n {
        assert a[..n][i] < b[..n][i];
      }
    }
  }

  // ---------------------------------------------------------------- iterations that only continue

  lemma RecoveryShrinks(r: Run, now: int)
    requires AnyStale(r.tasks, now)
    ensures Sum(Works(RecoverFrom(r, now, 0).tasks)) < Sum(Works(r.tasks))
  {
    var after := RecoverFrom(r, now, 0).tasks;
    var i :| 0 <= i < |r.tasks| && Stale(r.tasks[i], now);
    assert Works(after)[i] < Works(r.tasks)[i];
    SumMonotone(Works(after), Works(r.tasks));
  }

  lemma MergeSkipped(r: Run, merge: TaskId)
    requires Find(r.tasks, "merge") == Some(merge) && r.tasks[merge].status.TaskPending?
    ensures SkipStage(r, REVISE_STAGE).tasks[merge].status.TaskSkipped?
  {
    assert REVISE_STAGE[1] == "merge";
    SkippedExactly(r, REVISE_STAGE, merge);
  }

  lemma GateShrinks(r: Run, x: Exec)
    requires !x.gateEvaluated && GateDue(r.tasks)
    ensures Sum(Works(Gate(r, x, true).run.tasks)) < Sum(Works(r.tasks))
  {
    var after := Gate(r, x, true).run.tasks;
    var merge := Find(r.tasks, "merge").value;
    MergeSkipped(AddEvent(r, GateEvaluated(true)), merge);
    assert Works(after)[merge] < Works(r.tasks)[merge];
    SumMonotone(Works(after), Works(r.tasks));
  }

  lemma WaitShrinks(tasks: seq<Task>, now: int, later: int, i: nat)
    requires now < later && i < |tasks| && Wait(tasks[i], now) > 0
    ensures Sum(Waits(tasks, later)) < Sum(Waits(tasks, now))
  {
    assert Waits(tasks, later)[i] < Waits(tasks, now)[i];
    SumMonotone(Waits(tasks, later), Waits(tasks, now));
  }

  /** A scan that sleeps has a retry or a lease to wait for. */
  lemma SleepHasReason(base: Run, r: Run, x: Exec, e: ExecId, now: int, input: TickInput) returns (i: nat)
    requires Scan(base, r, x, e, now, input).next.Again? && !AnyStale(r.tasks, now)
    ensures i < |r.tasks| && Wait(r.tasks[i], now) > 0
  {
    if AllPendingWait(r.tasks, now) {
      i :| i < |r.tasks| && r.tasks[i].status.TaskPending?;
      assert Waiting(r.tasks[i], now);
    } else if AnyStatus(r.tasks, TaskRunning) {
      i :| i < |r.tasks| && r.tasks[i].status.TaskRunning?;
      assert !Stale(r.tasks[i], now);
    } else {
      i :| i < |r.tasks| && Waiting(r.tasks[i], now);
    }
  }

  /** Revise rounds, work and waiting time only shrink, one of them strictly. */
  ghost predicate Advances(x: Exec, tasks: seq<Task>, now: int, x': Exec, tasks': seq<Task>, later: int) {
    || x.reviseRound < x'.reviseRound <= MAX_REVISE_ROUNDS
    || (x'.reviseRound == x.reviseRound
        && (Sum(Works(tasks')) < Sum(Works(tasks))
            || (tasks' == tasks && Sum(Waits(tasks', later)) < Sum(Waits(tasks, now)))))
  }

  lemma GatesKeepRound(r: Run, x: Exec, verdict: bool)
    ensures Gate(r, x, verdict).exec.reviseRound == x.reviseRound
    ensures Gate(r, x, verdict).again ==> verdict && !x.gateEvaluated && GateDue(r.tasks)
    ensures var f := FinalGate(r, x, verdict);
      if f.again then f.exec.reviseRound == x.reviseRound + 1 <= MAX_REVISE_ROUNDS else f.exec.reviseRound == x.reviseRound
  {}

  lemma ContinuingAdvances(r: Run, x: Exec, e: ExecId, now: int, input: TickInput, later: int)
    requires Tick(r, x, e, now, input).next.Again? && now < later
    ensures var res := Tick(r, x, e, now, input); Advances(x, r.tasks, now, res.exec, res.run.tasks, later)
  {
    var r1 := Begin(r);
    if AnyStale(r1.tasks, now) {
      RecoveryShrinks(r1, now);
    } else {
      var g := Gate(r1, x, input.gate);
      GatesKeepRound(r1, x, input.gate);
      if g.again {
        GateShrinks(r1, x);
      } else {
        GatesKeepRows(r1, x, input.gate);
        var f := FinalGate(g.run, g.exec, input.finalGate);
        GatesKeepRound(g.run, g.exec, input.finalGate);
        if !f.again {
          GatesKeepRows(g.run, g.exec, input.finalGate);
          ScanAdvances(if f.committed then f.run else r, f.run, f.exec, e, now, input, later);
        }
      }
    }
  }

  lemma ScanAdvances(base: Run, r: Run, x: Exec, e: ExecId, now: int, input: TickInput, later: int)
    requires base.tasks == r.tasks && !AnyStale(r.tasks, now) && now < later
    requires Scan(base, r, x, e, now, input).next.Again?
    ensures var res := Scan(base, r, x, e, now, input); Advances(x, r.tasks, now, res.exec, res.run.tasks, later)
  {
    var i := SleepHasReason(base, r, x, e, now, input);
    WaitShrinks(r.tasks, now, later, i);
    ScanCases(base, r, x, e, now, input);
  }

  // ---------------------------------------------------------------- iterations that work

  /** A batch hands out at least one PENDING row, each as a fresh claim; the other
      rows are untouched. */
  ghost predicate Handed(base: seq<Task>, r: Run, inflight: set<TaskId>, e: ExecId) {
    && |r.tasks| == |base| && inflight != {}
    && (forall t :: t in inflight ==> t < |base| && base[t].status.TaskPending?)
    && (forall t, d :: t in inflight && d in base[t].deps ==> d in DoneKeys(base))
    && (forall i :: 0 <= i < |base| && i !in inflight ==> r.tasks[i] == base[i])
    && (forall i :: 0 <= i < |base| && i in inflight ==> HandedRow(base[i], r.tasks[i], e))
  }

  predicate HandedRow(before: Task, task: Task, e: ExecId) {
    task == before.(status := TaskRunning, attempts := before.attempts + 1, lease := Some(e), nextAt := None, expires := task.expires)
  }

  lemma StartedBatch(r: Run, x: Exec, claimed: seq<TaskId>, input: TickInput)
    requires StartBatch(r, x, claimed, input).next.Work?
    ensures var res := StartBatch(r, x, claimed, input);
      && res.run.tasks == r.tasks && res.run.status == r.status && res.exec.reviseRound == x.reviseRound
      && forall t :: t in res.exec.inflight.Keys <==> t in claimed
  {}

  lemma ClaimedHanded(base: seq<Task>, r: Run, ready: seq<TaskId>, n: nat, e: ExecId, now: int, inflight: set<TaskId>)
    requires ready == ReadyFrom(base, now, 0) && 0 < n <= |ready|
    requires ClaimedRows(base, r.tasks, ready[..n], e, now) && forall t :: t in inflight <==> t in ready[..n]
    ensures Handed(base, r, inflight, e)
  {
    assert ready[0] in ready[..n];
    forall t | t in inflight
      ensures t < |base| && base[t].status.TaskPending? && forall d :: d in base[t].deps ==> d in DoneKeys(base)
    {
      var j :| 0 <= j < n && ready[j] == t;
      assert Ready(base, ready[j], now);
    }
  }

  lemma BatchHanded(r: Run, x: Exec, e: ExecId, now: int, input: TickInput)
    requires r.status.RunRunning? && ReadyFrom(r.tasks, now, 0) != [] && input.cap > 0
    requires ClaimBatch(r, x, ReadyFrom(r.tasks, now, 0), e, now, input).next.Work?
    ensures var res := ClaimBatch(r, x, ReadyFrom(r.tasks, now, 0), e, now, input);
      Handed(r.tasks, res.run, res.exec.inflight.Keys, e) && res.run.status.RunRunning? && res.exec.reviseRound == x.reviseRound
  {
    var ready := ReadyFrom(r.tasks, now, 0);
    BatchRows(r, e, now, input.cap, x.ledger);
    var c := ClaimFrom(r, ready, 0, e, now, input.cap, x.ledger, []);
    StartedBatch(c.run, x, c.claimed, input);
    var res := StartBatch(c.run, x, c.claimed, input);
    ClaimedHanded(r.tasks, res.run, ready, |c.claimed|, e, now, res.exec.inflight.Keys);
  }

  lemma WorkingHands(r: Run, x: Exec, e: ExecId, now: int, input: TickInput)
    requires Tick(r, x, e, now, input).next.Work? && input.cap > 0
    ensures var res := Tick(r, x, e, now, input);
      Handed(r.tasks, res.run, res.exec.inflight.Keys, e) && res.run.status.RunRunning? && res.exec.reviseRound == x.reviseRound
  {
    var r1 := Begin(r);
    var g := Gate(r1, x, input.gate);
    GatesKeepRound(r1, x, input.gate);
    GatesKeepRows(r1, x, input.gate);
    var f := FinalGate(g.run, g.exec, input.finalGate);
    GatesKeepRound(g.run, g.exec, input.finalGate);
    GatesKeepRows(g.run, g.exec, input.finalGate);
    ScanCases(if f.committed then f.run else r, f.run, f.exec, e, now, input);
    BatchHanded(f.run, f.exec, e, now, input);
  }

  /** Settling a claim uses up work, unless the run stopped being RUNNING. */
  lemma SettlingShrinks(before: Task, r: Run, e: ExecId, t: TaskId, now: int, result: HandlerResult)
    requires t < |r.tasks| && r.status.RunRunning? && before.status.TaskPending? && HandedRow(before, r.tasks[t], e)
    ensures var r' := Settle(r, e, t, now, result);
      && |r'.tasks| == |r.tasks| && (forall i :: 0 <= i < |r.tasks| && i != t ==> r'.tasks[i] == r.tasks[i])
      && Work(r'.tasks[t]) < Work(before) && !r'.tasks[t].status.TaskRunning?
  {}

  // ---------------------------------------------------------------- how often one task is claimed

  const REVISED: set<string> := {"rewrite", "recheck"}

  /** Resets a row may have gone through in this call. */
  function Extra(x: Exec, key: string): nat {
    if key in REVISED && x.reviseRound > 0 then x.reviseRound - 1 else 0
  }

  /** The retry counters of a row at the top of the loop: at most five retryable
      failures, and at most two other claims before the one that decides, plus one
      per reset. */
  predicate WithinRetries(task: Task, extra: nat, active: bool) {
    && task.retryable <= RETRYABLE_MAX_ATTEMPTS && task.retryable <= task.attempts
    && task.attempts - task.retryable <= MAX_NONRETRY_ATTEMPTS + extra
    && (task.status.TaskPending? && active ==> task.attempts - task.retryable < MAX_NONRETRY_ATTEMPTS + extra)
    && !task.status.TaskRunning?
  }

  lemma ClaimCounters(r: Run, x: Exec, e: ExecId, now: int, input: TickInput, i: nat)
    requires i < |r.tasks| && WithinRetries(r.tasks[i], Extra(x, r.tasks[i].key), true)
    requires var res := ClaimBatch(r, x, ReadyFrom(r.tasks, now, 0), e, now, input); res.next.Exit?
    ensures var res := ClaimBatch(r, x, ReadyFrom(r.tasks, now, 0), e, now, input);
      && |res.run.tasks| == |r.tasks| && res.run.tasks[i].key == r.tasks[i].key && res.exec == x
      && WithinRetries(res.run.tasks[i], Extra(x, r.tasks[i].key), false)
  {
    var ready := ReadyFrom(r.tasks, now, 0);
    BatchRows(r, e, now, input.cap, x.ledger);
    var c := ClaimFrom(r, ready, 0, e, now, input.cap, x.ledger, []);
    StartBatchRows(c.run, x, c.claimed, input);
    forall j | 0 <= j < |c.claimed|
      ensures r.tasks[c.claimed[j]].status.TaskPending?
    {
      assert Ready(r.tasks, ready[j], now);
    }
    var after := StartBatch(c.run, x, c.claimed, input).run.tasks;
    assert c.run.tasks[i] == r.tasks[i] || c.run.tasks[i] == Claimed(r.tasks[i], e, now)
      || c.run.tasks[i] == Recovered(Claimed(r.tasks[i], e, now)) || c.run.tasks[i] == r.tasks[i].(status := TaskFailed);
    assert !c.exhausted ==> after[i] == if i in c.claimed then Recovered(c.run.tasks[i]) else c.run.tasks[i];
  }

  lemma ScanCounters(base: Run, r: Run, x: Exec, e: ExecId, now: int, input: TickInput, i: nat)
    requires base.tasks == r.tasks && i < |r.tasks| && WithinRetries(r.tasks[i], Extra(x, r.tasks[i].key), true)
    requires !Scan(base, r, x, e, now, input).next.Work?
    ensures var res := Scan(base, r, x, e, now, input);
      && |res.run.tasks| == |r.tasks| && res.run.tasks[i].key == r.tasks[i].key && res.exec == x
      && WithinRetries(res.run.tasks[i], Extra(x, r.tasks[i].key), !res.next.Exit?)
  {
    ScanCases(base, r, x, e, now, input);
    if Scan(base, r, x, e, now, input) == ClaimBatch(r, x, ReadyFrom(r.tasks, now, 0), e, now, input) {
      ClaimCounters(r, x, e, now, input, i);
    }
  }

  lemma ResetCounters(r: Run, x: Exec, verdict: bool, i: nat)
    requires i < |r.tasks| && x.reviseRound > 0 && WithinRetries(r.tasks[i], Extra(x, r.tasks[i].key), true)
    ensures var f := FinalGate(r, x, verdict);
      && |f.run.tasks| == |r.tasks| && f.run.tasks[i].key == r.tasks[i].key
      && WithinRetries(f.run.tasks[i], Extra(f.exec, r.tasks[i].key), true)
  {}

  lemma GateCounters(r: Run, x: Exec, verdict: bool, i: nat)
    requires i < |r.tasks| && WithinRetries(r.tasks[i], Extra(x, r.tasks[i].key), true)
    ensures var g := Gate(r, x, verdict);
      && |g.run.tasks| == |r.tasks| && g.run.tasks[i].key == r.tasks[i].key
      && WithinRetries(g.run.tasks[i], Extra(g.exec, r.tasks[i].key), true)
  {}

  /** An iteration without work keeps every row within its retries; `active` is
      whether the loop goes on. */
  lemma TickCounters(r: Run, x: Exec, e: ExecId, now: int, input: TickInput, i: nat)
    requires Active(r.status) && x.reviseRound > 0 && !Tick(r, x, e, now, input).next.Work?
    requires i < |r.tasks| && WithinRetries(r.tasks[i], Extra(x, r.tasks[i].key), true)
    ensures var res := Tick(r, x, e, now, input);
      && |res.run.tasks| == |r.tasks| && res.run.tasks[i].key == r.tasks[i].key
      && WithinRetries(res.run.tasks[i], Extra(res.exec, r.tasks[i].key), res.next.Again?)
  {
    var r1 := Begin(r);
    if !AnyStale(r1.tasks, now) {
      var g := Gate(r1, x, input.gate);
      GateCounters(r1, x, input.gate, i);
      if !g.again {
        GatesKeepRows(r1, x, input.gate);
        GatesKeepRound(r1, x, input.gate);
        var f := FinalGate(g.run, g.exec, input.finalGate);
        ResetCounters(g.run, g.exec, input.finalGate, i);
        if !f.again {
          GatesKeepRows(g.run, g.exec, input.finalGate);
          var base := if f.committed then f.run else r;
          assert Tick(r, x, e, now, input) == Scan(base, f.run, f.exec, e, now, input);
          ScanCounters(base, f.run, f.exec, e, now, input, i);
        }
      }
    }
  }

  /** Settling a claim keeps its row within its retries, whatever the result. */
  lemma SettleCounters(before: Task, r: Run, e: ExecId, t: TaskId, now: int, result: HandlerResult, extra: nat)
    requires t < |r.tasks| && WithinRetries(before, extra, true) && before.status.TaskPending?
    requires HandedRow(before, r.tasks[t], e)
    ensures var r' := Settle(r, e, t, now, result);
      |r'.tasks| == |r.tasks| && r'.tasks[t].key == before.key && WithinRetries(r'.tasks[t], extra, r'.status.RunRunning?)
  {}

  // ---------------------------------------------------------------- resets

  /** The log grows, without a final-gate reset. */
  ghost predicate NoReset(r: Run, r': Run) {
    r.events <= r'.events && forall k :: |r.events| <= k < |r'.events| ==> !r'.events[k].body.RecheckFailed?
  }

  lemma NoResetThen(r: Run, r1: Run, r2: Run, b: Body)
    requires NoReset(r, r1) && r2.events == r1.events && !b.RecheckFailed?
    ensures NoReset(r, AddEvent(r2, b))
  {}

  lemma {:induction false} RecoverNoReset(r: Run, r1: Run, now: int, i: nat)
    requires i <= |r1.tasks| && NoReset(r, r1)
    ensures NoReset(r, RecoverFrom(r1, now, i))
    decreases |r1.tasks| - i
  {
    if i < |r1.tasks| {
      if Stale(r1.tasks[i], now) {
        var r2 := SetTask(r1, i, Recovered(r1.tasks[i]));
        NoResetThen(r, r1, r2, TaskRecovered(i));
        RecoverNoReset(r, AddEvent(r2, TaskRecovered(i)), now, i + 1);
      } else {
        RecoverNoReset(r, r1, now, i + 1);
      }
    }
  }

  lemma {:induction false} SkipNoReset(r: Run, r1: Run, keys: seq<string>)
    requires NoReset(r, r1)
    ensures NoReset(r, SkipStage(r1, keys))
    decreases |keys|
  {
    if keys != [] {
      var target := Find(r1.tasks, keys[0]);
      if target.Some? && r1.tasks[target.value].status.TaskPending? {
        var r2 := SetTask(r1, target.value, r1.tasks[target.value].(status := TaskSkipped));
        NoResetThen(r, r1, r2, TaskSkip(target.value));
        SkipNoReset(r, AddEvent(r2, TaskSkip(target.value)), keys[1..]);
      } else {
        SkipNoReset(r, r1, keys[1..]);
      }
    }
  }

  lemma GateNoReset(r: Run, r1: Run, x: Exec, verdict: bool)
    requires NoReset(r, r1)
    ensures NoReset(r, Gate(r1, x, verdict).run)
  {
    NoResetThen(r, r1, r1, GateEvaluated(verdict));
    SkipNoReset(r, AddEvent(r1, GateEvaluated(verdict)), REVISE_STAGE);
  }

  lemma FinalGateNoReset(r: Run, r1: Run, x: Exec, verdict: bool)
    requires NoReset(r, r1)
    ensures var f := FinalGate(r1, x, verdict);
      if f.again then NoReset(r, f.run.(events := f.run.events[..|f.run.events| - 1])) else NoReset(r, f.run)
  {}

  lemma {:induction false} ClaimNoReset(r: Run, r1: Run, ready: seq<TaskId>, k: nat,
                                        e: ExecId, now: int, cap: nat, ledger: bool, claimed: seq<TaskId>)
    requires k <= |ready| && forall j :: 0 <= j < |ready| ==> ready[j] < |r1.tasks|
    requires NoReset(r, r1)
    ensures NoReset(r, ClaimFrom(r1, ready, k, e, now, cap, ledger, claimed).run)
    decreases |ready| - k
  {
    if k < |ready| && |claimed| < cap && !Refused(r1, ledger, ready[k]) {
      var t := ready[k];
      var r2 := AddEvent(SetTask(r1, t, Claimed(r1.tasks[t], e, now)), TaskStarted(t));
      NoResetThen(r, r1, SetTask(r1, t, Claimed(r1.tasks[t], e, now)), TaskStarted(t));
      NoResetThen(r, r2, r2, LeaseAcquired(t, e));
      ClaimNoReset(r, AddEvent(r2, LeaseAcquired(t, e)), ready, k + 1, e, now, cap, ledger, claimed + [t]);
    }
  }

  lemma ScanNoReset(r: Run, base: Run, r1: Run, x: Exec, e: ExecId, now: int, input: TickInput)
    requires NoReset(r, base) && NoReset(r, r1)
    ensures NoReset(r, Scan(base, r1, x, e, now, input).run) && Scan(base, r1, x, e, now, input).exec.reviseRound == x.reviseRound
  {
    var ready := ReadyFrom(r1.tasks, now, 0);
    if ready != [] {
      ClaimNoReset(r, r1, ready, 0, e, now, input.cap, x.ledger, []);
      var c := ClaimFrom(r1, ready, 0, e, now, input.cap, x.ledger, []);
      StartNoReset(r, c.run, x, c.claimed, input);
    }
  }

  lemma StartNoReset(r: Run, r1: Run, x: Exec, claimed: seq<TaskId>, input: TickInput)
    requires NoReset(r, r1)
    ensures var res := StartBatch(r1, x, claimed, input); NoReset(r, res.run) && res.exec.reviseRound == x.reviseRound
  {}

  ghost predicate CountsResets(r: Run, r': Run, round: nat, round': nat) {
    if round' == round then NoReset(r, r')
    else
      && round' == round + 1 <= MAX_REVISE_ROUNDS
      && r'.events != [] && r'.events[|r'.events| - 1].body.RecheckFailed?
      && NoReset(r, r'.(events := r'.events[..|r'.events| - 1]))
  }

  /** An iteration writes a final-gate reset exactly when it counts one more revise
      round: as its last entry, and no other. */
  lemma ResetsAreCounted(r: Run, x: Exec, e: ExecId, now: int, input: TickInput)
    requires Active(r.status)
    ensures var res := Tick(r, x, e, now, input); CountsResets(r, res.run, x.reviseRound, res.exec.reviseRound)
  {
    var r1 := Begin(r);
    assert NoReset(r, r1);
    if AnyStale(r1.tasks, now) {
      RecoverNoReset(r, r1, now, 0);
    } else {
      var g := Gate(r1, x, input.gate);
      GateNoReset(r, r1, x, input.gate);
      GatesKeepRound(r1, x, input.gate);
      var f := FinalGate(g.run, g.exec, input.finalGate);
      FinalGateNoReset(r, g.run, g.exec, input.finalGate);
      GatesKeepRound(g.run, g.exec, input.finalGate);
      if !g.again && !f.again {
        ScanNoReset(r, if f.committed then f.run else r, f.run, f.exec, e, now, input);
      }
    }
  }

  lemma SettleNoReset(r: Run, e: ExecId, t: TaskId, now: int, result: HandlerResult)
    requires t < |r.tasks|
    ensures NoReset(r, Settle(r, e, t, now, result))
  {}

  // ---------------------------------------------------------------- a batch being settled

  /** Row i while the batch handed out over `base` is being settled. */
  predicate BatchRow(base: Task, task: Task, inBatch: bool, inFlight: bool, running: bool, e: ExecId) {
    if inFlight then base.status.TaskPending? && HandedRow(base, task, e)
    else if inBatch then running ==> Work(task) < Work(base)
    else task == base
  }

  ghost predicate Settling(base: seq<Task>, r: Run, batch: set<TaskId>, inflight: set<TaskId>, e: ExecId) {
    && |r.tasks| == |base| && inflight <= batch && (forall t :: t in batch ==> t < |base|)
    && forall i :: 0 <= i < |base| ==> BatchRow(base[i], r.tasks[i], i in batch, i in inflight, r.status.RunRunning?, e)
  }

  lemma SettlingStep(base: seq<Task>, r: Run, batch: set<TaskId>, inflight: set<TaskId>, e: ExecId,
                     t: TaskId, now: int, result: HandlerResult)
    requires Settling(base, r, batch, inflight, e) && t in inflight
    ensures Settling(base, Settle(r, e, t, now, result), batch, inflight - {t}, e)
  {
    var r' := Settle(r, e, t, now, result);
    CommitStatus(r, e, t, now, result);
    SettleTouchesOne(r, e, t, now, result);
    if r.status.RunRunning? {
      SettlingShrinks(base[t], r, e, t, now, result);
    }
    forall i | 0 <= i < |base|
      ensures BatchRow(base[i], r'.tasks[i], i in batch, i in inflight - {t}, r'.status.RunRunning?, e)
    {
      assert BatchRow(base[i], r.tasks[i], i in batch, i in inflight, r.status.RunRunning?, e);
    }
  }

  lemma SettleTouchesOne(r: Run, e: ExecId, t: TaskId, now: int, result: HandlerResult)
    requires t < |r.tasks|
    ensures var r' := Settle(r, e, t, now, result);
      |r'.tasks| == |r.tasks| && forall i :: 0 <= i < |r.tasks| && i != t ==> r'.tasks[i] == r.tasks[i]
  {}

  lemma SettledBatchShrinks(base: seq<Task>, r: Run, batch: set<TaskId>, e: ExecId)
    requires Settling(base, r, batch, {}, e) && batch != {} && r.status.RunRunning?
    ensures Sum(Works(r.tasks)) < Sum(Works(base))
  {
    var t :| t in batch;
    forall i | 0 <= i < |base|
      ensures Works(r.tasks)[i] <= Works(base)[i] && (i == t ==> Works(r.tasks)[i] < Works(base)[i])
    {
      assert BatchRow(base[i], r.tasks[i], i in batch, false, true, e);
    }
    SumMonotone(Works(r.tasks), Works(base));
  }

  /** Rows that began within their retries and are not in flight still are. */
  ghost predicate Counted(first: seq<Task>, x: Exec, tasks: seq<Task>, inflight: set<TaskId>, active: bool) {
    && |tasks| == |first|
    && forall i :: 0 <= i < |first| && WithinRetries(first[i], 0, true) ==> CountedRow(first[i], x, tasks[i], i in inflight, active)
  }

  predicate CountedRow(first: Task, x: Exec, task: Task, inFlight: bool, active: bool) {
    task.key == first.key && (inFlight || WithinRetries(task, Extra(x, first.key), active))
  }

  lemma TickCounted(first: seq<Task>, r: Run, x: Exec, e: ExecId, now: int, input: TickInput)
    requires Active(r.status) && x.reviseRound > 0 && !Tick(r, x, e, now, input).next.Work?
    requires Counted(first, x, r.tasks, {}, true)
    ensures var res := Tick(r, x, e, now, input); Counted(first, res.exec, res.run.tasks, {}, res.next.Again?)
  {
    TickKeepsRows(r, x, e, now, input);
    var res := Tick(r, x, e, now, input);
    forall i | 0 <= i < |first| && WithinRetries(first[i], 0, true)
      ensures CountedRow(first[i], res.exec, res.run.tasks[i], false, res.next.Again?)
    {
      assert CountedRow(first[i], x, r.tasks[i], false, true);
      TickCounters(r, x, e, now, input, i);
    }
  }

  lemma TickKeepsRows(r: Run, x: Exec, e: ExecId, now: int, input: TickInput)
    ensures |Tick(r, x, e, now, input).run.tasks| == |r.tasks|
  {
    TickEffect(r, x, e, now, input);
  }

  lemma WorkCounted(first: seq<Task>, base: seq<Task>, r: Run, x: Exec, x': Exec, inflight: set<TaskId>, e: ExecId)
    requires Counted(first, x, base, {}, true) && Handed(base, r, inflight, e) && x'.reviseRound == x.reviseRound
    ensures Counted(first, x', r.tasks, inflight, true)
  {
    forall i | 0 <= i < |first| && WithinRetries(first[i], 0, true)
      ensures CountedRow(first[i], x', r.tasks[i], i in inflight, true)
    {
      assert CountedRow(first[i], x, base[i], false, true);
    }
  }

  lemma SettleCounted(first: seq<Task>, base: seq<Task>, r: Run, x: Exec, batch: set<TaskId>, inflight: set<TaskId>, e: ExecId,
                      t: TaskId, now: int, result: HandlerResult)
    requires Counted(first, x, base, {}, true) && Settling(base, r, batch, inflight, e) && t in inflight
    requires Counted(first, x, r.tasks, inflight, r.status.RunRunning?)
    ensures var r' := Settle(r, e, t, now, result); Counted(first, x, r'.tasks, inflight - {t}, r'.status.RunRunning?)
  {
    var r' := Settle(r, e, t, now, result);
    SettleTouchesOne(r, e, t, now, result);
    CommitStatus(r, e, t, now, result);
    assert BatchRow(base[t], r.tasks[t], true, true, r.status.RunRunning?, e);
    forall i | 0 <= i < |first| && WithinRetries(first[i], 0, true)
      ensures CountedRow(first[i], x, r'.tasks[i], i in inflight - {t}, r'.status.RunRunning?)
    {
      assert CountedRow(first[i], x, r.tasks[i], i in inflight, r.status.RunRunning?);
      if i == t {
        assert CountedRow(first[t], x, base[t], false, true);
        SettleCounters(base[t], r, e, t, now, result, Extra(x, first[t].key));
      }
    }
  }

  /** At most `n` resets in the log beyond `before`. */
  ghost predicate ResetsWithin(before: seq<Event>, events: seq<Event>, n: int) {
    && before <= events
    && (n <= 0 ==> forall k :: |before| <= k < |events| ==> !events[k].body.RecheckFailed?)
    && (n <= 1 ==> forall j, k :: |before| <= j < k < |events| ==> !(events[j].body.RecheckFailed? && events[k].body.RecheckFailed?))
  }

  lemma NoResetWithin(before: seq<Event>, r: Run, r': Run, n: int)
    requires ResetsWithin(before, r.events, n) && NoReset(r, r')
    ensures ResetsWithin(before, r'.events, n)
  {}

  lemma OneMoreReset(before: seq<Event>, events: seq<Event>, n: nat)
    requires events != [] && ResetsWithin(before, events[..|events| - 1], n)
    ensures ResetsWithin(before, events, n + 1)
  {
    var rest := events[..|events| - 1];
    assert forall k :: 0 <= k < |rest| ==> rest[k] == events[k];
  }

  lemma CountedWithin(before: seq<Event>, r: Run, r': Run, round: nat, round': nat)
    requires round > 0 && ResetsWithin(before, r.events, round - 1) && CountsResets(r, r', round, round')
    ensures round <= round' && ResetsWithin(before, r'.events, round' - 1)
  {
    if round' == round {
      NoResetWithin(before, r, r', round - 1);
    } else {
      NoResetWithin(before, r, r'.(events := r'.events[..|r'.events| - 1]), round - 1);
      OneMoreReset(before, r'.events, round - 1);
    }
  }

  lemma TickResetsWithin(before: seq<Event>, r: Run, x: Exec, e: ExecId, now: int, input: TickInput)
    requires Active(r.status) && x.reviseRound > 0 && ResetsWithin(before, r.events, x.reviseRound - 1)
    ensures var res := Tick(r, x, e, now, input);
      0 < x.reviseRound <= res.exec.reviseRound && ResetsWithin(before, res.run.events, res.exec.reviseRound - 1)
  {
    ResetsAreCounted(r, x, e, now, input);
    var res := Tick(r, x, e, now, input);
    CountedWithin(before, r, res.run, x.reviseRound, res.exec.reviseRound);
  }

  // ---------------------------------------------------------------- the loop's invariant

  /** At the top of the loop, for a call that found the rows `first` and the log `log`. */
  ghost predicate LoopInvariant(first: seq<Task>, log: seq<Event>, r: Run, x: Exec) {
    && 1 <= x.reviseRound <= MAX_REVISE_ROUNDS && ResetsWithin(log, r.events, x.reviseRound - 1)
    && Counted(first, x, r.tasks, {}, Active(r.status))
  }

  /** While the batch handed out over `base` is being settled. */
  ghost predicate BatchInvariant(first: seq<Task>, log: seq<Event>, base: seq<Task>, r: Run, x: Exec,
                                 batch: set<TaskId>, inflight: set<TaskId>, e: ExecId) {
    && 1 <= x.reviseRound <= MAX_REVISE_ROUNDS && ResetsWithin(log, r.events, x.reviseRound - 1)
    && (r.status.RunRunning? || !Active(r.status))
    && Settling(base, r, batch, inflight, e)
    && Counted(first, x, base, {}, true) && Counted(first, x, r.tasks, inflight, r.status.RunRunning?)
  }

  lemma BatchStep(first: seq<Task>, log: seq<Event>, base: seq<Task>, r: Run, x: Exec, batch: set<TaskId>, inflight: set<TaskId>, e: ExecId,
                  t: TaskId, now: int, result: HandlerResult)
    requires BatchInvariant(first, log, base, r, x, batch, inflight, e) && t in inflight
    ensures BatchInvariant(first, log, base, Settle(r, e, t, now, result), x, batch, inflight - {t}, e)
  {
    SettlingStep(base, r, batch, inflight, e, t, now, result);
    SettleCounted(first, base, r, x, batch, inflight, e, t, now, result);
    SettleNoReset(r, e, t, now, result);
    NoResetWithin(log, r, Settle(r, e, t, now, result), x.reviseRound - 1);
    CommitStatus(r, e, t, now, result);
  }

  /** Only the revise counter matters to the count of claims. */
  lemma LocalsIrrelevant(first: seq<Task>, x: Exec, x': Exec, tasks: seq<Task>, inflight: set<TaskId>, active: bool)
    requires Counted(first, x, tasks, inflight, active) && x.reviseRound == x'.reviseRound
    ensures Counted(first, x', tasks, inflight, active)
  {
    forall i | 0 <= i < |first| && WithinRetries(first[i], 0, true)
      ensures CountedRow(first[i], x', tasks[i], i in inflight, active)
    {
      assert CountedRow(first[i], x, tasks[i], i in inflight, active);
    }
  }

  lemma BatchStarts(first: seq<Task>, log: seq<Event>, r: Run, x: Exec, e: ExecId, now: int, input: TickInput)
    requires LoopInvariant(first, log, r, x) && Tick(r, x, e, now, input).next.Work? && input.cap > 0
    ensures var res := Tick(r, x, e, now, input);
      && BatchInvariant(first, log, r.tasks, res.run, res.exec, res.exec.inflight.Keys, res.exec.inflight.Keys, e)
      && res.exec.inflight.Keys != {} && res.exec.reviseRound == x.reviseRound
  {
    var res := Tick(r, x, e, now, input);
    WorkingHands(r, x, e, now, input);
    TickResetsWithin(log, r, x, e, now, input);
    WorkCounted(first, r.tasks, res.run, x, res.exec, res.exec.inflight.Keys, e);
    LocalsIrrelevant(first, x, res.exec, r.tasks, {}, true);
    HandedSettles(r.tasks, res.run, res.exec.inflight.Keys, e);
  }

  lemma HandedSettles(base: seq<Task>, r: Run, inflight: set<TaskId>, e: ExecId)
    requires Handed(base, r, inflight, e)
    ensures Settling(base, r, inflight, inflight, e)
  {}

  /** After the batch the loop's invariant holds again and, if the run goes on,
      work has been used up. */
  lemma BatchEnds(first: seq<Task>, log: seq<Event>, base: seq<Task>, r: Run, x: Exec, x': Exec, batch: set<TaskId>, e: ExecId)
    requires BatchInvariant(first, log, base, r, x, batch, {}, e) && batch != {} && x'.reviseRound == x.reviseRound
    ensures LoopInvariant(first, log, r, x')
    ensures Active(r.status) ==> Sum(Works(r.tasks)) < Sum(Works(base))
  {
    LocalsIrrelevant(first, x, x', r.tasks, {}, r.status.RunRunning?);
    if r.status.RunRunning? {
      SettledBatchShrinks(base, r, batch, e);
    }
  }

  lemma ContinueKeeps(first: seq<Task>, log: seq<Event>, r: Run, x: Exec, e: ExecId, now: int, input: TickInput)
    requires LoopInvariant(first, log, r, x) && !Tick(r, x, e, now, input).next.Work?
    ensures var res := Tick(r, x, e, now, input);
      LoopInvariant(first, log, res.run, res.exec) && (res.next.Exit? ==> !Active(res.run.status))
  {
    TickEffect(r, x, e, now, input);
    if Active(r.status) {
      TickCounted(first, r, x, e, now, input);
      TickResetsWithin(log, r, x, e, now, input);
      ResetsAreCounted(r, x, e, now, input);
      var res := Tick(r, x, e, now, input);
      CountedWeakens(first, res.exec, res.run.tasks, res.next.Again?, Active(res.run.status));
    }
  }

  lemma CountedWeakens(first: seq<Task>, x: Exec, tasks: seq<Task>, active: bool, weaker: bool)
    requires Counted(first, x, tasks, {}, active) && (weaker ==> active)
    ensures Counted(first, x, tasks, {}, weaker)
  {
    forall i | 0 <= i < |first| && WithinRetries(first[i], 0, true)
      ensures CountedRow(first[i], x, tasks[i], false, weaker)
    {
      assert CountedRow(first[i], x, tasks[i], false, active);
    }
  }

  /** A provider that cannot be built ends the call with the batch given back. */
  lemma AbandonKeeps(first: seq<Task>, log: seq<Event>, base: seq<Task>, r: Run, x: Exec, e: ExecId)
    requires BatchInvariant(first, log, base, r, x, x.inflight.Keys, x.inflight.Keys, e)
    ensures LoopInvariant(first, log, BuildFailure(r, x), x) && !Active(BuildFailure(r, x).status)
  {
    var r' := BuildFailure(r, x);
    assert NoReset(r, r');
    NoResetWithin(log, r, r', x.reviseRound - 1);
    forall i | 0 <= i < |first| && WithinRetries(first[i], 0, true)
      ensures CountedRow(first[i], x, r'.tasks[i], false, false)
    {
      assert CountedRow(first[i], x, base[i], false, true);
      assert CountedRow(first[i], x, r.tasks[i], i in x.inflight.Keys, r.status.RunRunning?);
      assert BatchRow(base[i], r.tasks[i], i in x.inflight.Keys, i in x.inflight.Keys, r.status.RunRunning?, e);
    }
  }

  /** Rows that began within their retries were claimed at most eight times, plus
      once per reset. */
  ghost predicate ClaimsWithin(first: seq<Task>, tasks: seq<Task>, x: Exec) {
    && |tasks| == |first|
    && forall i :: 0 <= i < |first| && WithinRetries(first[i], 0, true) ==> tasks[i].attempts <= 8 + Extra(x, first[i].key)
  }

  /** What the invariant says at the end of the call. */
  lemma ClaimsBounded(first: seq<Task>, log: seq<Event>, r: Run, x: Exec, i: nat)
    requires LoopInvariant(first, log, r, x) && i < |first| && WithinRetries(first[i], 0, true)
    ensures |r.tasks| == |first| && r.tasks[i].key == first[i].key && r.tasks[i].attempts <= 8 + Extra(x, first[i].key)
  {
    assert CountedRow(first[i], x, r.tasks[i], false, Active(r.status));
  }

  lemma BeginsCounted(first: seq<Task>, x: Exec)
    ensures Counted(first, x, first, {}, true) && Counted(first, x, first, {}, false)
  {
    forall i, active | 0 <= i < |first| && WithinRetries(first[i], 0, true)
      ensures CountedRow(first[i], x, first[i], false, active)
    {}
  }
}
