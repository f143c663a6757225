/** What each transaction of the executor does to the run, as functions.
    `AgentExecutor.dfy` performs them in place; `Protocol.dfy` interleaves them. */
module Executor {
  import opened RunModel

  const LEASE_TTL: int := 60_000
  const MAX_NONRETRY_ATTEMPTS := 3
  const RETRYABLE_MAX_ATTEMPTS := 5
  const AUTO_PAUSE_STREAK := 3
  const MAX_REVISE_ROUNDS := 2
  const REVIEW_KEYS: set<string> := {"review_continuity", "review_adversarial", "review_style"}
  const REVISE_STAGE: seq<string> := ["review_council", "merge", "rewrite", "recheck"]

  /** Locals of one `execute_run` call.  `inflight` holds the claimed tasks whose
      handler has not been committed yet, each with the fence count of its claim;
      `building` is the gap between the claim commit and the provider build. */
  datatype Exec = Exec(
    gateEvaluated: bool, reviseRound: nat, finalGateDone: bool, ledger: bool,
    providerReady: bool, building: bool, inflight: map<TaskId, nat>)

  const FRESH := Exec(false, 1, false, false, false, false, map[])

  /** The choices one loop iteration makes outside the rows: both gate verdicts,
      the profile's parallelism, whether the credential exists, the lane total and
      how many audit entries are written. */
  datatype TickInput = TickInput(
    gate: bool, finalGate: bool, cap: nat, credentials: bool, laneTotal: nat, audits: nat)

  datatype Outcome = Exit | Again | Work
  datatype TickResult = TickResult(run: Run, exec: Exec, next: Outcome)
  datatype GateResult = GateResult(run: Run, exec: Exec, again: bool, committed: bool)

  /** What a handler call can come back with. */
  datatype HandlerResult =
    | Success(tokens: nat, extras: nat)
    | InvalidPayload
    | DeniedByPolicy
    | RetryableError(jitter: nat)  // per mille of the base delay, 800..1200
    | OtherError

  // ---------------------------------------------------------------- rows

  predicate Stale(task: Task, now: int) {
    task.status.TaskRunning? && (task.expires.None? || task.expires.value < now)
  }

  function Recovered(task: Task): Task { task.(status := TaskPending, lease := None) }

  function Claimed(task: Task, e: ExecId, now: int): Task {
    task.(status := TaskRunning, attempts := task.attempts + 1, lease := Some(e),
          nextAt := None, expires := Some(now + LEASE_TTL))
  }

  predicate Waiting(task: Task, now: int) {
    task.status.TaskPending? && task.nextAt.Some? && task.nextAt.value > now
  }

  function DoneKeys(tasks: seq<Task>): set<string> {
    set i | 0 <= i < |tasks| && Done(tasks[i].status) :: tasks[i].key
  }

  predicate Ready(tasks: seq<Task>, i: TaskId, now: int)
    requires i < |tasks|
  {
    tasks[i].status.TaskPending? && !Waiting(tasks[i], now) && (forall d :: d in tasks[i].deps ==> d in DoneKeys(tasks))
  }

  function ReadyFrom(tasks: seq<Task>, now: int, i: nat): (ids: seq<TaskId>)
    requires i <= |tasks|
    decreases |tasks| - i
    ensures forall j :: 0 <= j < |ids| ==> i <= ids[j] < |tasks| && Ready(tasks, ids[j], now)
    ensures forall t :: i <= t < |tasks| && Ready(tasks, t, now) ==> t in ids
    ensures forall j, k :: 0 <= j < k < |ids| ==> ids[j] < ids[k]
  {
    if i == |tasks| then []
    else if Ready(tasks, i, now) then
      [i] + ReadyFrom(tasks, now, i + 1)
    else ReadyFrom(tasks, now, i + 1)
  }

  predicate AnyStatus(tasks: seq<Task>, s: TaskStatus) {
    exists i :: 0 <= i < |tasks| && tasks[i].status == s
  }

  predicate AnyStale(tasks: seq<Task>, now: int) {
    exists i :: 0 <= i < |tasks| && Stale(tasks[i], now)
  }

  predicate AnyWaiting(tasks: seq<Task>, now: int) {
    exists i :: 0 <= i < |tasks| && Waiting(tasks[i], now)
  }

  predicate AllPendingWait(tasks: seq<Task>, now: int) {
    forall i :: 0 <= i < |tasks| && tasks[i].status.TaskPending? ==> Waiting(tasks[i], now)
  }

  function Find(tasks: seq<Task>, key: string): (found: Option<TaskId>)
    ensures found.None? ==> forall i :: 0 <= i < |tasks| ==> tasks[i].key != key
    ensures found.Some? ==> found.value < |tasks| && tasks[found.value].key == key
  {
    if tasks == [] then None
    else
      var last := |tasks| - 1;
      if tasks[last].key == key then Some(last) else Find(tasks[..last], key)
  }

  lemma {:induction false} FindSameKeys(a: seq<Task>, b: seq<Task>, key: string)
    requires |a| == |b| && forall i :: 0 <= i < |a| ==> a[i].key == b[i].key
    ensures Find(a, key) == Find(b, key)
  {
    if a != [] {
      FindSameKeys(a[..|a| - 1], b[..|b| - 1], key);
    }
  }

  // ---------------------------------------------------------------- recovery

  /** One pass over the rows returning every RUNNING row without a live lease. */
  function RecoverFrom(r: Run, now: int, i: nat): (r': Run)
    requires i <= |r.tasks|
    decreases |r.tasks| - i
    ensures r' == r.(tasks := r'.tasks, events := r'.events, cursor := r'.cursor)
    ensures |r'.tasks| == |r.tasks|
    ensures forall j :: 0 <= j < |r.tasks| ==>
      r'.tasks[j] == if j >= i && Stale(r.tasks[j], now) then Recovered(r.tasks[j]) else r.tasks[j]
  {
    if i == |r.tasks| then r
    else if Stale(r.tasks[i], now) then
      RecoverFrom(AddEvent(SetTask(r, i, Recovered(r.tasks[i])), TaskRecovered(i)), now, i + 1)
    else RecoverFrom(r, now, i + 1)
  }

  function RecoveryFence(tasks: seq<Task>, now: int, i: nat, m: Metric): nat {
    if m.Fences? && i <= m.t < |tasks| && Stale(tasks[m.t], now) then 1 else 0
  }

  /** Recovery writes one fence per recovered row and nothing else that is counted. */
  lemma {:induction false} RecoverTotals(r: Run, now: int, i: nat, m: Metric)
    requires i <= |r.tasks|
    ensures Total(m, RecoverFrom(r, now, i).events) == Total(m, r.events) + RecoveryFence(r.tasks, now, i, m)
    decreases |r.tasks| - i
  {
    if i < |r.tasks| {
      if Stale(r.tasks[i], now) {
        var r' := AddEvent(SetTask(r, i, Recovered(r.tasks[i])), TaskRecovered(i));
        RecoverTotals(r', now, i + 1, m);
        assert RecoveryFence(r.tasks, now, i, m) == Weigh(m, TaskRecovered(i)) + RecoveryFence(r'.tasks, now, i + 1, m);
      } else {
        RecoverTotals(r, now, i + 1, m);
      }
    }
  }

  lemma {:induction false} RecoverAppends(r: Run, now: int, i: nat)
    requires i <= |r.tasks|
    ensures r.events <= RecoverFrom(r, now, i).events && (Numbered(r) ==> Numbered(RecoverFrom(r, now, i)))
    decreases |r.tasks| - i
  {
    if i < |r.tasks| {
      if Stale(r.tasks[i], now) {
        RecoverAppends(AddEvent(SetTask(r, i, Recovered(r.tasks[i])), TaskRecovered(i)), now, i + 1);
      } else {
        RecoverAppends(r, now, i + 1);
      }
    }
  }

  // ---------------------------------------------------------------- first gate

  predicate IsReview(task: Task) { task.key in REVIEW_KEYS }

  predicate ReviewsDone(tasks: seq<Task>) {
    && (exists i :: 0 <= i < |tasks| && IsReview(tasks[i]))
    && (forall i :: 0 <= i < |tasks| && IsReview(tasks[i]) ==> Done(tasks[i].status))
  }

  predicate GateDue(tasks: seq<Task>) {
    var merge := Find(tasks, "merge");
    merge.Some? && tasks[merge.value].status.TaskPending? && ReviewsDone(tasks)
  }

  function SkipStage(r: Run, keys: seq<string>): (r': Run)
    decreases |keys|
    ensures r' == r.(tasks := r'.tasks, events := r'.events, cursor := r'.cursor)
    ensures |r'.tasks| == |r.tasks|
    ensures forall j :: 0 <= j < |r.tasks| ==>
      || r'.tasks[j] == r.tasks[j]
      || (r.tasks[j].status.TaskPending? && r.tasks[j].key in keys && r'.tasks[j] == r.tasks[j].(status := TaskSkipped))
    ensures r.events <= r'.events && (Numbered(r) ==> Numbered(r'))
    ensures forall m {:trigger Total(m, r'.events)} :: Total(m, r'.events) == Total(m, r.events)
  {
    if keys == [] then r
    else
      var target := Find(r.tasks, keys[0]);
      if target.Some? && r.tasks[target.value].status.TaskPending? then
        SkipStage(AddEvent(SetTask(r, target.value, r.tasks[target.value].(status := TaskSkipped)), TaskSkip(target.value)), keys[1..])
      else SkipStage(r, keys[1..])
  }

  /** Skipping turns exactly the PENDING rows of the listed keys to SKIPPED; of several
      rows with one key, the last. */
  lemma {:induction false} SkippedExactly(r: Run, keys: seq<string>, i: TaskId)
    requires i < |r.tasks|
    ensures SkipStage(r, keys).tasks[i] ==
      if r.tasks[i].key in keys && Find(r.tasks, r.tasks[i].key) == Some(i) && r.tasks[i].status.TaskPending?
      then r.tasks[i].(status := TaskSkipped) else r.tasks[i]
    decreases |keys|
  {
    if keys != [] {
      var target := Find(r.tasks, keys[0]);
      if target.Some? && r.tasks[target.value].status.TaskPending? {
        var r1 := AddEvent(SetTask(r, target.value, r.tasks[target.value].(status := TaskSkipped)), TaskSkip(target.value));
        FindSameKeys(r1.tasks, r.tasks, r.tasks[i].key);
        SkippedExactly(r1, keys[1..], i);
      } else {
        SkippedExactly(r, keys[1..], i);
      }
    }
  }

  /** Quality gate between the review battery and the revise stage, evaluated at
      most once per call. */
  function Gate(r: Run, x: Exec, verdict: bool): GateResult {
    if x.gateEvaluated || !GateDue(r.tasks) then GateResult(r, x, false, false)
    else
      var x' := x.(gateEvaluated := true);
      var r' := AddEvent(r, GateEvaluated(verdict));
      if verdict then GateResult(SkipStage(r', REVISE_STAGE), x', true, true)
      else GateResult(r', x', false, false)
  }

  // ---------------------------------------------------------------- final gate

  function ResetTask(r: Run, t: TaskId): Run
    requires t < |r.tasks|
  {
    SetTask(r, t, r.tasks[t].(status := TaskPending, lease := None))
  }

  /** Gate after recheck: a failed verdict re-runs rewrite and recheck until
      MAX_REVISE_ROUNDS, then the draft ships marked. */
  function FinalGate(r: Run, x: Exec, verdict: bool): GateResult {
    var rewrite, recheck := Find(r.tasks, "rewrite"), Find(r.tasks, "recheck");
    if x.finalGateDone || recheck.None? || rewrite.None? || !r.tasks[recheck.value].status.TaskSucceeded? then
      GateResult(r, x, false, false)
    else
      var x' := x.(finalGateDone := true);
      if !exists i :: 0 <= i < |r.artifacts| && r.artifacts[i].task == Some(rewrite.value) then
        GateResult(r, x', false, false)
      else if verdict then GateResult(AddEvent(r, FinalGatePassed), x', false, true)
      else if x.reviseRound >= MAX_REVISE_ROUNDS then GateResult(AddEvent(r, QualityDegraded), x', false, true)
      else
        var r' := ResetTask(ResetTask(r, rewrite.value), recheck.value);
        GateResult(AddEvent(r', RecheckFailed(rewrite.value, recheck.value)),
                   x.(reviseRound := x.reviseRound + 1), true, true)
  }

  // ---------------------------------------------------------------- claiming

  function ReleaseAll(tasks: seq<Task>, ids: seq<TaskId>): (tasks': seq<Task>)
    ensures |tasks'| == |tasks|
    ensures forall i :: 0 <= i < |tasks| ==> tasks'[i] == if i in ids then Recovered(tasks[i]) else tasks[i]
  {
    seq(|tasks|, i requires 0 <= i < |tasks| => if i in ids then Recovered(tasks[i]) else tasks[i])
  }

  datatype ClaimResult = ClaimResult(run: Run, claimed: seq<TaskId>, exhausted: bool)

  predicate Refused(r: Run, ledger: bool, t: TaskId)
    requires t < |r.tasks|
  {
    ledger && r.budgetUsed + r.tasks[t].budget > r.budgetLimit
  }

  /** Claims ready[k..] in row order until the cap; a task whose estimate does not
      fit the run budget fails, gives back the batch and exhausts the run. */
  function ClaimFrom(r: Run, ready: seq<TaskId>, k: nat, e: ExecId, now: int, cap: nat, ledger: bool, claimed: seq<TaskId>): ClaimResult
    requires k <= |ready| && forall j :: 0 <= j < |ready| ==> ready[j] < |r.tasks|
    decreases |ready| - k
  {
    if k == |ready| || |claimed| >= cap then ClaimResult(r, claimed, false)
    else
      var t := ready[k];
      if Refused(r, ledger, t) then
        var failed := SetTask(r, t, r.tasks[t].(status := TaskFailed));
        var released := failed.(tasks := ReleaseAll(failed.tasks, claimed), status := RunBudgetExhausted);
        ClaimResult(AddEvent(released, RunExhausted), claimed, true)
      else
        var r1 := SetTask(r, t, Claimed(r.tasks[t], e, now));
        var r2 := AddEvent(AddEvent(r1, TaskStarted(t)), LeaseAcquired(t, e));
        ClaimFrom(r2, ready, k + 1, e, now, cap, ledger, claimed + [t])
  }

  function FailRun(r: Run, reason: FailReason): Run {
    AddEvent(r.(status := RunFailed), RunFailure(reason))
  }

  function Max(a: int, b: int): int { if a >= b then a else b }

  /** The claim batch: credential check on the first one, lane ledger built once
      (the limit only ever grows), then the batch is handed to the handlers. */
  function StartBatch(r: Run, x: Exec, claimed: seq<TaskId>, input: TickInput): TickResult {
    if !x.providerReady && !input.credentials then
      TickResult(FailRun(r.(tasks := ReleaseAll(r.tasks, claimed)), NotConfigured), x, Exit)
    else
      var limit := Max(r.budgetLimit, input.laneTotal * 3 / 2);
      var r1 := if x.ledger then r else AddEvent(r.(budgetLimit := limit), BudgetRecomputed(limit));
      var r2 := AddAudits(r1, input.audits);
      TickResult(r2, x.(ledger := true, building := !x.providerReady,
                        inflight := map t | t in claimed :: Total(Fences(t), r2.events)), Work)
  }

  function ClaimBatch(r: Run, x: Exec, ready: seq<TaskId>, e: ExecId, now: int, input: TickInput): TickResult
    requires forall j :: 0 <= j < |ready| ==> ready[j] < |r.tasks|
  {
    var c := ClaimFrom(r, ready, 0, e, now, input.cap, x.ledger, []);
    if c.exhausted then TickResult(c.run, x, Exit) else StartBatch(c.run, x, c.claimed, input)
  }

  // ---------------------------------------------------------------- one iteration

  /** The scan behind the gates.  `base` is the last committed state: the path
      that only sleeps on somebody else's lease never commits. */
  function Scan(base: Run, r: Run, x: Exec, e: ExecId, now: int, input: TickInput): TickResult {
    if !AnyStatus(r.tasks, TaskPending) then
      if AnyStatus(r.tasks, TaskFailed) then TickResult(FailRun(r, TasksFailed), x, Exit)
      else TickResult(AddEvent(r.(status := RunCompleted), RunDone), x, Exit)
    else if AllPendingWait(r.tasks, now) then TickResult(r, x, Again)
    else
      var ready := ReadyFrom(r.tasks, now, 0);
      if ready == [] then
        if AnyStatus(r.tasks, TaskRunning) then TickResult(base, x, Again)
        else if AnyWaiting(r.tasks, now) then TickResult(r, x, Again)
        else TickResult(FailRun(r, DependencyUnsatisfied), x, Exit)
      else ClaimBatch(r, x, ready, e, now, input)
  }

  function Begin(r: Run): Run {
    if r.status.RunPending? then AddEvent(r.(status := RunRunning), RunStarted) else r
  }

  function Tick(r: Run, x: Exec, e: ExecId, now: int, input: TickInput): TickResult {
    if !Active(r.status) then TickResult(r, x, Exit)
    else
      var r1 := Begin(r);
      if AnyStale(r1.tasks, now) then TickResult(RecoverFrom(r1, now, 0), x, Again)
      else
        var g := Gate(r1, x, input.gate);
        if g.again then TickResult(g.run, g.exec, Again)
        else
          var f := FinalGate(g.run, g.exec, input.finalGate);
          if f.again then TickResult(f.run, f.exec, Again)
          else Scan(if f.committed then f.run else r, f.run, f.exec, e, now, input)
  }

  function GivenBack(task: Task, inFlight: bool): Task {
    if inFlight && task.status.TaskRunning? then Recovered(task) else task
  }

  /** The provider cannot be built: claimed rows still RUNNING go back, whoever
      holds them now, and the run fails whatever its status is by now. */
  function BuildFailure(r: Run, x: Exec): Run {
    var back := seq(|r.tasks|, i requires 0 <= i < |r.tasks| => GivenBack(r.tasks[i], i in x.inflight));
    FailRun(r.(tasks := back), NotConfigured)
  }

  // ---------------------------------------------------------------- committing a handler result

  function BackoffBase(attempt: nat): nat {
    if attempt <= 1 then 30_000 else if attempt == 2 then 120_000 else 300_000
  }

  function Backoff(attempt: nat, jitter: nat): nat { BackoffBase(attempt) * jitter / 1000 }

  /** Consecutive retryable provider failures at the end of the log, skipping
      everything that is neither task.failed nor task.succeeded. */
  function Streak(events: seq<Event>): nat {
    if events == [] then 0
    else
      var rest, b := events[..|events| - 1], events[|events| - 1].body;
      if b.TaskFailure? && b.provider then Streak(rest) + 1
      else if b.TaskFailure? || b.TaskSuccess? then 0
      else Streak(rest)
  }

  function CommitArtifact(r: Run, t: TaskId): Run {
    AddEvent(r.(artifacts := r.artifacts + [Artifact(Some(t), true)]), ArtifactCommitted(|r.artifacts|))
  }

  /** The artifact and the two entries that end every success. */
  function Conclude(r: Run, t: TaskId): (r': Run)
    ensures r' == r.(artifacts := r.artifacts + [Artifact(Some(t), true)], events := r'.events, cursor := r'.cursor)
    ensures r.events <= r'.events && (Numbered(r) ==> Numbered(r'))
    ensures forall m {:trigger Total(m, r'.events)} :: Total(m, r'.events) == Total(m, r.events) + Weigh(m, TaskSuccess(t))
  {
    AddEvent(CommitArtifact(r, t), TaskSuccess(t))
  }

  function CommitSuccess(r: Run, t: TaskId, tokens: nat, extras: nat): Run
    requires t < |r.tasks|
  {
    var r1 := SetTask(r, t, r.tasks[t].(status := TaskSucceeded, lease := None));
    Conclude(AddAudits(AddEvent(r1.(budgetUsed := r1.budgetUsed + tokens), TaskUsage(t, tokens)), extras), t)
  }

  function CommitDegraded(r: Run, t: TaskId): Run
    requires t < |r.tasks|
  {
    var r1 := SetTask(r, t, r.tasks[t].(status := TaskSucceeded, lease := None));
    Conclude(AddEvent(r1, TaskDegraded(t)), t)
  }

  function Delayed(task: Task, now: int, jitter: nat): (task': Task)
    ensures task' == task.(status := TaskPending, lease := None, retryable := task.retryable + 1, nextAt := task'.nextAt)
    ensures task'.nextAt.Some? && task'.nextAt.value >= now
  {
    var n := task.retryable + 1;
    task.(status := TaskPending, lease := None, retryable := n, nextAt := Some(now + Backoff(n, jitter)))
  }

  function AutoPause(r: Run): Run {
    if Streak(r.events) >= AUTO_PAUSE_STREAK then AddEvent(r.(status := RunPaused), AutoPaused) else r
  }

  function CommitRetryable(r: Run, t: TaskId, now: int, jitter: nat): Run
    requires t < |r.tasks|
  {
    AutoPause(AddEvent(SetTask(r, t, Delayed(r.tasks[t], now, jitter)), TaskFailure(t, true, true)))
  }

  function CommitFailed(r: Run, t: TaskId): Run
    requires t < |r.tasks|
  {
    AddEvent(SetTask(r, t, r.tasks[t].(status := TaskFailed, lease := None)), TaskFailure(t, false, false))
  }

  /** The commit transaction of one claimed task: lease fence, run status, outcome. */
  function Settle(r: Run, e: ExecId, t: TaskId, now: int, result: HandlerResult): Run
    requires t < |r.tasks|
  {
    var task := r.tasks[t];
    if task.lease != Some(e) then r
    else if !r.status.RunRunning? then SetTask(r, t, Recovered(task))
    else
      match result
      case Success(tokens, extras) => CommitSuccess(r, t, tokens, extras)
      case InvalidPayload => CommitFailed(r, t)
      case DeniedByPolicy => CommitFailed(AddEvent(r, PolicyDenied(t)), t)
      case RetryableError(jitter) =>
        if task.retryable < RETRYABLE_MAX_ATTEMPTS then CommitRetryable(r, t, now, jitter)
        else if task.key == "recheck" then CommitDegraded(r, t)
        else CommitFailed(r, t)
      case OtherError =>
        if task.attempts - task.retryable < MAX_NONRETRY_ATTEMPTS then
          AddEvent(SetTask(r, t, task.(status := TaskPending, lease := None, nextAt := None)), TaskFailure(t, true, false))
        else if task.key == "recheck" then CommitDegraded(r, t)
        else CommitFailed(r, t)
  }

  function Renew(r: Run, e: ExecId, t: TaskId, now: int): Run
    requires t < |r.tasks|
  {
    if r.tasks[t].status.TaskRunning? && r.tasks[t].lease == Some(e) then
      SetTask(r, t, r.tasks[t].(expires := Some(now + LEASE_TTL)))
    else r
  }
}
