/** Persisted rows of one agent run: the run row, its task rows (ordered by id),
    its artifacts and its append-only event log.  Every actor that writes the
    run (executor, control endpoints, prober, sweeper) goes through `AddEvent`. */
module RunModel {

  datatype Option<+T> = None | Some(value: T)

  /** A task row's id: rows are read ordered by id and never deleted, so the id
      of a row is its position. */
  type TaskId = nat

  /** The celery task id of one delivery; it names the executor that runs it. */
  type ExecId = nat

  datatype RunStatus =
    | RunPending | RunRunning | RunPaused
    | RunCancelled | RunCompleted | RunFailed | RunBudgetExhausted

  datatype TaskStatus = TaskPending | TaskRunning | TaskSucceeded | TaskSkipped | TaskFailed

  /** Budget ledger lanes. */
  datatype Lane = WriteLane | ReviewLane | ReviseLane | AnalystLane | OrchestratorLane | PromiseLane

  /** `retryable` counts retryable provider failures only; `attempts` counts claims.
      Times are milliseconds. */
  datatype Task = Task(
    key: string, role: string, deps: seq<string>, budget: nat,
    status: TaskStatus, attempts: nat, retryable: nat,
    lease: Option<ExecId>, expires: Option<int>, nextAt: Option<int>)

  datatype Artifact = Artifact(task: Option<TaskId>, byHandler: bool)

  datatype FailReason = TasksFailed | DependencyUnsatisfied | NotConfigured | Swept | Crashed

  datatype Body =
    | RunCreated | RunStarted | RunDone | RunFailure(reason: FailReason) | RunExhausted
    | AutoPaused | Resumed | ResumeProbe | QueueRejected | Controlled
    | TaskStarted(task: TaskId) | LeaseAcquired(task: TaskId, owner: ExecId)
    | TaskRecovered(task: TaskId) | TaskSkip(task: TaskId)
    | TaskSuccess(task: TaskId) | TaskFailure(task: TaskId, retry: bool, provider: bool)
    | TaskDegraded(task: TaskId) | PolicyDenied(task: TaskId)
    | TaskUsage(task: TaskId, tokens: nat)
    | ArtifactCommitted(artifact: nat)
    | GateEvaluated(passed: bool) | FinalGatePassed | QualityDegraded
    | RecheckFailed(rewrite: TaskId, recheck: TaskId)
    | BudgetRecomputed(limit: nat)
    | GraphExpanded
    | Audit  // any other audit entry (reasoning.resolved, chapter.written_back, ...)

  datatype Event = Event(sequence: nat, body: Body)

  datatype Run = Run(
    status: RunStatus, budgetUsed: nat, budgetLimit: nat, cursor: nat,
    events: seq<Event>, artifacts: seq<Artifact>, tasks: seq<Task>)

  predicate Active(s: RunStatus) { s.RunPending? || s.RunRunning? }

  predicate Terminal(s: RunStatus) { s.RunCompleted? || s.RunCancelled? }

  predicate Done(s: TaskStatus) { s.TaskSucceeded? || s.TaskSkipped? }

  /** Promise tasks have their own ledger; otherwise the stage in a task key
      wins over the role, and unknown roles write. */
  function LaneOf(key: string, role: string): Lane {
    if "promise_" <= key then PromiseLane
    else if "review_" <= key then ReviewLane
    else if key == "recheck" || "merge" <= key || "rewrite" <= key || "chief" <= key then ReviseLane
    else if role in {"continuity_reviewer", "adversarial_reviewer"} then ReviewLane
    else if role in {"style_editor", "merge_editor", "chief_editor"} then ReviseLane
    else if role == "analyst" then AnalystLane
    else if role == "promise_keeper" then OrchestratorLane
    else WriteLane
  }

  // ---------------------------------------------------------------- metrics

  /** What is counted over an event log.  `Fences(t)` counts the events that end
      an earlier claim of t: a claim, a recovery, a final-gate reset. */
  datatype Metric =
    | Starts(t: TaskId) | Settles(t: TaskId) | Successes(t: TaskId) | Fences(t: TaskId)
    | Tokens | LaneTokens(lane: Lane, lanes: seq<Lane>) | StrayTokens(rows: nat)

  function Weigh(m: Metric, b: Body): nat {
    match m
    case Starts(t) => if b == TaskStarted(t) then 1 else 0
    case Settles(t) => if (b.TaskSuccess? || b.TaskFailure?) && b.task == t then 1 else 0
    case Successes(t) => if b == TaskSuccess(t) then 1 else 0
    case Fences(t) =>
      if (b.TaskStarted? || b.TaskRecovered?) && b.task == t then 1
      else if b.RecheckFailed? && (b.rewrite == t || b.recheck == t) then 1 else 0
    case Tokens => if b.TaskUsage? then b.tokens else 0
    case LaneTokens(lane, lanes) =>
      if b.TaskUsage? && b.task < |lanes| && lanes[b.task] == lane then b.tokens else 0
    case StrayTokens(rows) => if b.TaskUsage? && b.task >= rows then b.tokens else 0
  }

  function Total(m: Metric, events: seq<Event>): nat {
    if events == [] then 0
    else Total(m, events[..|events| - 1]) + Weigh(m, events[|events| - 1].body)
  }

  function LanesOf(tasks: seq<Task>): (lanes: seq<Lane>)
    ensures |lanes| == |tasks|
    ensures forall i :: 0 <= i < |tasks| ==> lanes[i] == LaneOf(tasks[i].key, tasks[i].role)
  {
    seq(|tasks|, i requires 0 <= i < |tasks| => LaneOf(tasks[i].key, tasks[i].role))
  }

  // ---------------------------------------------------------------- appending

  /** Row-locked sequence allocation, shared by all event writers. */
  function AddEvent(r: Run, b: Body): (r': Run)
    ensures r'.events == r.events + [Event(r.cursor + 1, b)] && r'.cursor == r.cursor + 1
    ensures r' == r.(events := r'.events, cursor := r'.cursor)
    ensures Numbered(r) ==> Numbered(r')
    ensures forall m {:trigger Total(m, r'.events)} :: Total(m, r'.events) == Total(m, r.events) + Weigh(m, b)
  {
    var events' := r.events + [Event(r.cursor + 1, b)];
    assert events'[..|events'| - 1] == r.events;
    r.(events := events', cursor := r.cursor + 1)
  }

  /** n audit entries that no theorem looks at. */
  function AddAudits(r: Run, n: nat): (r': Run)
    ensures r' == r.(events := r'.events, cursor := r'.cursor)
    ensures r.events <= r'.events && |r'.events| == |r.events| + n && r'.cursor == r.cursor + n
    ensures forall i :: |r.events| <= i < |r'.events| ==> r'.events[i].body == Audit
    ensures Numbered(r) ==> Numbered(r')
    ensures forall m {:trigger Total(m, r'.events)} :: Total(m, r'.events) == Total(m, r.events)
  {
    if n == 0 then r else AddEvent(AddAudits(r, n - 1), Audit)
  }

  /** Events are numbered exactly 1..cursor. */
  predicate Numbered(r: Run) {
    && r.cursor == |r.events|
    && forall i :: 0 <= i < |r.events| ==> r.events[i].sequence == i + 1
  }

  function SetTask(r: Run, t: TaskId, task: Task): (r': Run)
    requires t < |r.tasks|
  {
    r.(tasks := r.tasks[t := task])
  }

}
