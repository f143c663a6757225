/** The serial chapter chain of a batch: planned once by the analyze run's terminal
    hook, advanced by the terminal hooks of the chapter runs, ended once.  Hooks may
    fire any number of times and late. */
module BatchChain {
  import opened RunModel

  const BATCH_MAX_CHAPTERS := 100
  const END_STATUSES: set<RunStatus> := {RunCompleted, RunFailed, RunCancelled, RunBudgetExhausted}

  /** A chapter run: its status now, the end statuses its hooks were fired with so
      far, and whether its text was written back. */
  datatype ChapterRun = ChapterRun(status: RunStatus, reached: set<RunStatus>, writtenBack: bool)

  datatype Summary = Summary(succeeded: seq<int>, skipped: seq<int>, writebackMissing: seq<int>, undispatched: seq<int>)

  datatype BatchEvent =
    | Planned(numbers: seq<int>)
    | BatchCompleted(summary: Summary)
    | BatchTerminated
    | BatchStalled(no: int)

  /** Batch events of the analyze run, the chapter runs by chapter number, and the
      chapters whose run is committed and not yet enqueued. */
  datatype Batch = Batch(events: seq<BatchEvent>, runs: map<int, ChapterRun>, enqueues: set<int>)

  /** How `create_agent_run` gets to its commit when the key is new. */
  datatype Dispatch = Created | Refused

  // ---------------------------------------------------------------- planning

  ghost predicate Sorted(numbers: seq<int>) {
    forall i, j :: 0 <= i < j < |numbers| ==> numbers[i] <= numbers[j]
  }

  function AtMost(numbers: seq<int>, limit: nat): seq<int> {
    if numbers == [] then []
    else
      var last := numbers[|numbers| - 1];
      AtMost(numbers[..|numbers| - 1], limit) + (if last <= limit then [last] else [])
  }

  /** The chapters of the plan: at most 100, and within a limit the user asked for. */
  function PlanNumbers(numbers: seq<int>, limit: Option<nat>): seq<int> {
    var cut := if |numbers| > BATCH_MAX_CHAPTERS then numbers[..BATCH_MAX_CHAPTERS] else numbers;
    if limit.Some? && |cut| > limit.value then AtMost(cut, limit.value) else cut
  }

  /** `_load_batch_plan`: the latest plan, and whether the batch has ended. */
  function Plan(events: seq<BatchEvent>): Option<seq<int>> {
    if events == [] then None
    else if events[|events| - 1].Planned? then Some(events[|events| - 1].numbers)
    else Plan(events[..|events| - 1])
  }

  predicate Ended(events: seq<BatchEvent>) {
    exists i :: 0 <= i < |events| && !events[i].Planned?
  }

  /** Creating the run of a chapter, up to the commit that shows it to everybody: an
      existing key replays without a commit, a refusal stalls the batch. */
  function DispatchChapter(b: Batch, no: int, outcome: Dispatch): Batch {
    match outcome
    case Created => b.(runs := b.runs[no := ChapterRun(RunPending, {}, false)], enqueues := b.enqueues + {no})
    case Refused => b.(events := b.events + [BatchStalled(no)])
  }

  /** The enqueue behind that commit fails: the run is FAILED and the batch stalls,
      whatever has become of either by then. */
  function EnqueueFailure(b: Batch, no: int): Batch
    requires no in b.runs
  {
    var run := b.runs[no];
    Batch(b.events + [BatchStalled(no)],
          b.runs[no := run.(status := RunFailed, reached := run.reached + {RunFailed})], b.enqueues - {no})
  }

  /** The analyze run's hook.  An empty plan raises and rolls back; so does a replay
      of the first key, which leaves the plan uncommitted. */
  function PlanAfterAnalyze(b: Batch, numbers: seq<int>, limit: Option<nat>, work: bool, outcome: Dispatch): Batch {
    if Plan(b.events).Some? || Ended(b.events) || |numbers| < 2 || !work then b
    else
      var chapters := PlanNumbers(numbers, limit);
      if chapters == [] || chapters[0] in b.runs then b
      else DispatchChapter(b.(events := b.events + [Planned(chapters)]), chapters[0], outcome)
  }

  // ---------------------------------------------------------------- advancing

  function NextAfter(numbers: seq<int>, no: int): Option<int> {
    if numbers == [] then None
    else if numbers[0] > no then Some(numbers[0])
    else NextAfter(numbers[1..], no)
  }

  predicate Succeeded(runs: map<int, ChapterRun>, no: int) {
    no in runs && runs[no].status.RunCompleted? && runs[no].writtenBack
  }

  predicate Missing(runs: map<int, ChapterRun>, no: int) {
    no in runs && runs[no].status.RunCompleted? && !runs[no].writtenBack
  }

  predicate Skipped(runs: map<int, ChapterRun>, no: int) {
    no in runs && !runs[no].status.RunCompleted?
  }

  /** The list a number belongs to. */
  function Filed(s: Summary, runs: map<int, ChapterRun>, no: int): Summary {
    if Succeeded(runs, no) then s.(succeeded := s.succeeded + [no])
    else if Missing(runs, no) then s.(writebackMissing := s.writebackMissing + [no])
    else if Skipped(runs, no) then s.(skipped := s.skipped + [no])
    else s.(undispatched := s.undispatched + [no])
  }

  /** `_batch_summary` */
  function Summarize(numbers: seq<int>, runs: map<int, ChapterRun>): Summary {
    if numbers == [] then Summary([], [], [], [])
    else Filed(Summarize(numbers[..|numbers| - 1], runs), runs, numbers[|numbers| - 1])
  }

  /** The hook of a chapter run that ended with `status`. */
  function AdvanceAfterChapter(b: Batch, no: int, status: RunStatus, work: bool, outcome: Dispatch): Batch {
    var plan := Plan(b.events);
    if plan.None? || Ended(b.events) || no !in plan.value then b
    else if status.RunCancelled? then b.(events := b.events + [BatchTerminated])
    else
      match NextAfter(plan.value, no)
      case Some(next) =>
        if !work then b.(events := b.events + [BatchTerminated])
        else if next in b.runs then b
        else DispatchChapter(b, next, outcome)
      case None => b.(events := b.events + [BatchCompleted(Summarize(plan.value, b.runs))])
  }

  // ---------------------------------------------------------------- the chain as a system

  datatype Step =
    | PlanHook(numbers: seq<int>, limit: Option<nat>, work: bool, outcome: Dispatch)
    | AdvanceHook(no: int, status: RunStatus, work: bool, outcome: Dispatch)
    | RunMoves(no: int, status: RunStatus)
    | WrittenBack(no: int)
    | EnqueueOk(no: int) | EnqueueFails(no: int)

  const START := Batch([], map[], {})

  /** A chapter's hook fires only with an end status the chapter has reached. */
  ghost predicate Enabled(b: Batch, step: Step) {
    match step
    case PlanHook(numbers, _, _, _) => Sorted(numbers)
    case AdvanceHook(no, status, _, _) => no in b.runs && status in b.runs[no].reached
    case RunMoves(no, _) => no in b.runs
    case WrittenBack(no) => no in b.runs
    case EnqueueOk(no) => no in b.enqueues
    case EnqueueFails(no) => no in b.enqueues && no in b.runs
  }

  function Next(b: Batch, step: Step): Batch
    requires step.RunMoves? || step.WrittenBack? || step.EnqueueFails? ==> step.no in b.runs
  {
    match step
    case PlanHook(numbers, limit, work, outcome) => PlanAfterAnalyze(b, numbers, limit, work, outcome)
    case AdvanceHook(no, status, work, outcome) => AdvanceAfterChapter(b, no, status, work, outcome)
    case RunMoves(no, status) =>
      var run := b.runs[no];
      b.(runs := b.runs[no := run.(status := status, reached := if status in END_STATUSES then run.reached + {status} else run.reached)])
    case WrittenBack(no) => b.(runs := b.runs[no := b.runs[no].(writtenBack := true)])
    case EnqueueOk(no) => b.(enqueues := b.enqueues - {no})
    case EnqueueFails(no) => EnqueueFailure(b, no)
  }

  /** Consecutive states under a list of steps. */
  ghost predicate Chain(states: seq<Batch>, steps: seq<Step>) {
    && |states| == |steps| + 1
    && forall i :: 0 <= i < |steps| ==> Enabled(states[i], steps[i]) && states[i + 1] == Next(states[i], steps[i])
  }

  /** A run of the chain from before its plan. */
  ghost predicate Execution(states: seq<Batch>, steps: seq<Step>) { Chain(states, steps) && states[0] == START }
}
