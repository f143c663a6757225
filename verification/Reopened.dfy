/** What the final gate can do across two calls: the rounds it counts start afresh on a
    resume, so it can re-open rewrite and recheck under a row that is already done. */
module Reopened {
  import opened RunModel
  import opened Executor
  import opened Protocol
  import opened RowEffects
  import opened Walks
  import opened Closure
  import Control
  import ReviseRounds
  import SoloRun

  /** The end of the write graph. */
  const TAIL := [
    SoloRun.Node("rewrite", "chief_editor", []),
    SoloRun.Node("recheck", "continuity_reviewer", ["rewrite"]),
    SoloRun.Node("promise_verify", "promise_keeper", ["recheck"])]

  const CREATED := Run(RunPending, 0, 100, 1, [Event(1, RunCreated)], [], TAIL)
  const START := Sys(CREATED, 0, multiset{}, map[], multiset{CreateEnqueue(0)})

  lemma StartIsInit()
    ensures Init(START)
  {
    assert TAIL[..1][0].key == "rewrite" && TAIL[..2][1].key == "recheck";
    SoloRun.InOrderWellFormed(TAIL);
    assert START.pending == multiset{CreateEnqueue(0)};
  }

  ghost predicate Rows(tasks: seq<Task>, rewrite: TaskStatus, recheck: TaskStatus, verify: TaskStatus) {
    && |tasks| == 3 && SameGraph(TAIL, tasks)
    && (forall i :: 0 <= i < 3 ==> tasks[i].budget == 1 && tasks[i].nextAt.None?)
    && tasks[0].status == rewrite && tasks[1].status == recheck && tasks[2].status == verify
  }

  /** An executor between two iterations, with room in the budget. */
  ghost predicate Between(s: Sys, e: ExecId, x: Exec) {
    s.execs == map[e := x] && Free(x) && Active(s.run.status) && s.run.budgetUsed < s.run.budgetLimit
  }

  lemma TailKeys(tasks: seq<Task>)
    requires |tasks| == 3 && SameGraph(TAIL, tasks)
    ensures Find(tasks, "rewrite") == Some(0) && Find(tasks, "recheck") == Some(1) && Find(tasks, "merge").None?
  {
    assert tasks[0].key == "rewrite" && tasks[1].key == "recheck" && tasks[2].key == "promise_verify";
    assert tasks[2].key[0] == 'p' && tasks[..2][1].key[2] == 'c';
  }

  /** How often the rows were re-opened so far. */
  function Reopenings(s: Sys): nat { ReviseRounds.Resets(s.run.events) }

  predicate Written(r: Run) { exists i :: 0 <= i < |r.artifacts| && r.artifacts[i].task == Some(0) }

  lemma OffersRewrite(r: Run, x: Exec, now: int)
    requires Rows(r.tasks, TaskPending, TaskPending, TaskPending) && Active(r.status) && r.budgetUsed < r.budgetLimit
    ensures Offers(r, x, 0, now) && FinalGate(Begin(r), x, false).exec == x
  {
    TailKeys(r.tasks);
  }

  lemma OffersRecheck(r: Run, x: Exec, now: int)
    requires Rows(r.tasks, TaskSucceeded, TaskPending, TaskPending) && Active(r.status) && r.budgetUsed < r.budgetLimit
    ensures Offers(r, x, 1, now) && FinalGate(Begin(r), x, false).exec == x
  {
    TailKeys(r.tasks);
    assert r.tasks[0].key in DoneKeys(r.tasks);
  }

  lemma OffersVerify(r: Run, x: Exec, now: int)
    requires Rows(r.tasks, TaskSucceeded, TaskSucceeded, TaskPending) && Active(r.status) && r.budgetUsed < r.budgetLimit
    requires x.reviseRound >= MAX_REVISE_ROUNDS
    ensures Offers(r, x, 2, now)
  {
    TailKeys(r.tasks);
    assert r.tasks[1].key in DoneKeys(r.tasks);
  }

  lemma StillWritten(r: Run, r': Run, t: TaskId)
    requires r'.artifacts == r.artifacts + [Artifact(Some(t), true)] && (t == 0 || Written(r))
    ensures Written(r')
  {
    if t == 0 {
      assert r'.artifacts[|r.artifacts|].task == Some(0);
    } else {
      var i :| 0 <= i < |r.artifacts| && r.artifacts[i].task == Some(0);
      assert r'.artifacts[i].task == Some(0);
    }
  }

  lemma RowFinished(before: seq<Task>, after: seq<Task>, e: ExecId, t: TaskId, now: int)
    requires |before| == 3 && t < 3 && Rows(before, before[0].status, before[1].status, before[2].status)
    requires after == before[t := Finished(before[t], e, now)]
    ensures Rows(after, if t == 0 then TaskSucceeded else before[0].status, if t == 1 then TaskSucceeded else before[1].status,
                 if t == 2 then TaskSucceeded else before[2].status)
  {}

  lemma Rewrites(s: Sys, e: ExecId, x: Exec) returns (states: seq<Sys>, steps: seq<Step>, x': Exec)
    requires Between(s, e, x) && Rows(s.run.tasks, TaskPending, TaskPending, TaskPending)
    ensures Chain(states, steps) && states[0] == s
    ensures var z := states[|steps|];
      && z == s.(run := z.run, execs := z.execs) && Between(z, e, x')
      && Rows(z.run.tasks, TaskSucceeded, TaskPending, TaskPending) && Written(z.run)
    ensures x'.reviseRound == x.reviseRound && x'.finalGateDone == x.finalGateDone
  {
    OffersRewrite(s.run, x, s.now);
    states, steps, x' := Succeeds(s, e, x, 0);
    StillWritten(s.run, states[|steps|].run, 0);
    RowFinished(s.run.tasks, states[|steps|].run.tasks, e, 0, s.now);
  }

  lemma Rechecks(s: Sys, e: ExecId, x: Exec) returns (states: seq<Sys>, steps: seq<Step>, x': Exec)
    requires Between(s, e, x) && Rows(s.run.tasks, TaskSucceeded, TaskPending, TaskPending) && Written(s.run)
    ensures Chain(states, steps) && states[0] == s
    ensures var z := states[|steps|];
      && z == s.(run := z.run, execs := z.execs) && Between(z, e, x')
      && Rows(z.run.tasks, TaskSucceeded, TaskSucceeded, TaskPending) && Written(z.run)
    ensures x'.reviseRound == x.reviseRound && x'.finalGateDone == x.finalGateDone
  {
    OffersRecheck(s.run, x, s.now);
    states, steps, x' := Succeeds(s, e, x, 1);
    StillWritten(s.run, states[|steps|].run, 1);
    RowFinished(s.run.tasks, states[|steps|].run.tasks, e, 1, s.now);
  }

  /** rewrite and recheck, one after the other. */
  lemma Revises(s: Sys, e: ExecId, x: Exec) returns (states: seq<Sys>, steps: seq<Step>, x': Exec)
    requires Between(s, e, x) && Rows(s.run.tasks, TaskPending, TaskPending, TaskPending)
    ensures Chain(states, steps) && states[0] == s
    ensures var z := states[|steps|];
      && z == s.(run := z.run, execs := z.execs) && Between(z, e, x')
      && Rows(z.run.tasks, TaskSucceeded, TaskSucceeded, TaskPending) && Written(z.run)
    ensures x'.reviseRound == x.reviseRound && x'.finalGateDone == x.finalGateDone
  {
    var a, p, x1 := Rewrites(s, e, x);
    var b, q;
    b, q, x' := Rechecks(a[|p|], e, x1);
    Join(a, p, b, q);
    states, steps := Glue(a, b), p + q;
  }

  /** In its first round the gate re-opens both rows, whatever is behind them. */
  lemma Resets(r: Run, x: Exec, e: ExecId, now: int, verify: TaskStatus) returns (res: TickResult)
    requires Rows(r.tasks, TaskSucceeded, TaskSucceeded, verify) && Written(r) && Active(r.status) && !verify.TaskRunning?
    requires x.reviseRound == 1 && !x.finalGateDone
    ensures res == Tick(r, x, e, now, ONE_CLAIM) && res.next.Again? && res.exec == x.(reviseRound := 2)
    ensures Rows(res.run.tasks, TaskPending, TaskPending, verify)
    ensures res.run.status.RunRunning? && res.run.budgetUsed == r.budgetUsed && res.run.budgetLimit == r.budgetLimit
  {
    TailKeys(r.tasks);
    assert !GateDue(Begin(r).tasks) && !AnyStale(Begin(r).tasks, now);
    res := Tick(r, x, e, now, ONE_CLAIM);
  }

  lemma ResetLoop(s: Sys, e: ExecId, x: Exec, verify: TaskStatus) returns (s': Sys)
    requires Between(s, e, x) && Rows(s.run.tasks, TaskSucceeded, TaskSucceeded, verify) && Written(s.run) && !verify.TaskRunning?
    requires x.reviseRound == 1 && !x.finalGateDone
    ensures Enabled(s, Loop(e, ONE_CLAIM)) && s' == Protocol.Next(s, Loop(e, ONE_CLAIM))
    ensures s' == s.(run := s'.run, execs := s'.execs) && Between(s', e, x.(reviseRound := 2))
    ensures Rows(s'.run.tasks, TaskPending, TaskPending, verify) && Reopenings(s') == Reopenings(s) + 1
  {
    var res := Resets(s.run, x, e, s.now, verify);
    s' := LoopContinues(s, e, x, res);
    ReviseRounds.LoopResets(s, Loop(e, ONE_CLAIM));
  }

  /** Two rounds: the draft fails, is revised again, and stands where the gate gives up. */
  lemma RevisesTwice(s: Sys, e: ExecId) returns (states: seq<Sys>, steps: seq<Step>, x': Exec)
    requires Between(s, e, FRESH) && Rows(s.run.tasks, TaskPending, TaskPending, TaskPending)
    ensures Chain(states, steps) && states[0] == s
    ensures var z := states[|steps|];
      && z == s.(run := z.run, execs := z.execs) && Between(z, e, x')
      && Rows(z.run.tasks, TaskSucceeded, TaskSucceeded, TaskPending) && Written(z.run)
    ensures x'.reviseRound == 2 && !x'.finalGateDone && Reopenings(states[|steps|]) >= 1
  {
    var a, p, x1 := Revises(s, e, FRESH);
    var s1 := ResetLoop(a[|p|], e, x1, TaskPending);
    Extend(a, p, Loop(e, ONE_CLAIM));
    var b, q;
    b, q, x' := Revises(s1, e, x1.(reviseRound := 2));
    ReviseRounds.ResetsGrow(b, q, |q|);
    Join(a + [s1], p + [Loop(e, ONE_CLAIM)], b, q);
    states, steps := Glue(a + [s1], b), p + [Loop(e, ONE_CLAIM)] + q;
  }

  /** The gate has given up, so promise_verify is worked off. */
  lemma Verifies(s: Sys, e: ExecId, x: Exec) returns (states: seq<Sys>, steps: seq<Step>, x': Exec)
    requires Between(s, e, x) && Rows(s.run.tasks, TaskSucceeded, TaskSucceeded, TaskPending) && Written(s.run)
    requires x.reviseRound == 2
    ensures Chain(states, steps) && states[0] == s
    ensures var z := states[|steps|];
      && z == s.(run := z.run, execs := z.execs) && Between(z, e, x')
      && Rows(z.run.tasks, TaskSucceeded, TaskSucceeded, TaskSucceeded) && Written(z.run)
  {
    OffersVerify(s.run, x, s.now);
    states, steps, x' := Succeeds(s, e, x, 2);
    StillWritten(s.run, states[|steps|].run, 2);
    RowFinished(s.run.tasks, states[|steps|].run.tasks, e, 2, s.now);
  }

  const PAUSED_AND_RESUMED := [UserPause, Loop(0, ONE_CLAIM), UserResume(false, 1)]

  /** The run as a pause or a resume leaves it. */
  function Moved(r: Run, status: RunStatus): Run { Control.Transition(r, status) }

  lemma Pauses(s: Sys, x: Exec) returns (s': Sys)
    requires s.execs == map[0 := x] && Free(x) && Active(s.run.status)
    ensures s' == Protocol.Next(s, UserPause) && s' == s.(run := Moved(s.run, RunPaused))
  {
    s' := Protocol.Next(s, UserPause);
  }

  lemma Leaves(s: Sys, x: Exec) returns (s': Sys)
    requires s.execs == map[0 := x] && Free(x) && s.run.status.RunPaused?
    ensures Enabled(s, Loop(0, ONE_CLAIM)) && s' == Protocol.Next(s, Loop(0, ONE_CLAIM)) && s' == s.(execs := map[])
  {
    s' := Protocol.Next(s, Loop(0, ONE_CLAIM));
    assert s.execs - {0} == map[];
  }

  lemma Resumes(s: Sys) returns (s': Sys)
    requires s.run.status.RunPaused? && s.pending == multiset{}
    ensures s' == Protocol.Next(s, UserResume(false, 1))
    ensures s' == s.(run := Moved(s.run, RunRunning), pending := multiset{ControlEnqueue(RunPaused, 1)})
  {
    s' := Protocol.Next(s, UserResume(false, 1));
  }

  /** A pause, the end of the call, and a resume. */
  lemma PausedAndResumed(s: Sys, x: Exec) returns (states: seq<Sys>)
    requires s.execs == map[0 := x] && Free(x) && Active(s.run.status) && s.pending == multiset{}
    ensures Chain(states, PAUSED_AND_RESUMED) && states[0] == s
    ensures states[3] == s.(run := Moved(Moved(s.run, RunPaused), RunRunning), execs := map[],
                            pending := multiset{ControlEnqueue(RunPaused, 1)})
  {
    var s1 := Pauses(s, x);
    var s2 := Leaves(s1, x);
    var s3 := Resumes(s2);
    var p, q := [] + [UserPause], [] + [UserPause] + [Loop(0, ONE_CLAIM)];
    Extend([s], [], UserPause);
    Extend([s] + [s1], p, Loop(0, ONE_CLAIM));
    Extend([s] + [s1] + [s2], q, UserResume(false, 1));
    assert q + [UserResume(false, 1)] == PAUSED_AND_RESUMED;
    states := [s] + [s1] + [s2] + [s3];
  }

  /** The first call, up to the done promise_verify. */
  lemma FirstCall(s: Sys) returns (states: seq<Sys>, steps: seq<Step>, x: Exec)
    requires Between(s, 0, FRESH) && Rows(s.run.tasks, TaskPending, TaskPending, TaskPending)
    ensures Chain(states, steps) && states[0] == s
    ensures var z := states[|steps|];
      && z == s.(run := z.run, execs := z.execs) && Between(z, 0, x)
      && Rows(z.run.tasks, TaskSucceeded, TaskSucceeded, TaskSucceeded) && Written(z.run) && Reopenings(z) >= 1
  {
    var a, p, x1 := RevisesTwice(s, 0);
    var b, q;
    b, q, x := Verifies(a[|p|], 0, x1);
    ReviseRounds.ResetsGrow(b, q, |q|);
    Join(a, p, b, q);
    states, steps := Glue(a, b), p + q;
  }

  const REDELIVERED := [EnqueueOk(ControlEnqueue(RunPaused, 1)), Deliver(1)]

  /** The second call starts counting rounds afresh. */
  lemma SecondCall(s: Sys, x: Exec) returns (states: seq<Sys>, steps: seq<Step>)
    requires Between(s, 0, x) && s.pending == multiset{} && s.queue == multiset{}
    requires Rows(s.run.tasks, TaskSucceeded, TaskSucceeded, TaskSucceeded) && Written(s.run)
    ensures Chain(states, steps) && states[0] == s && |steps| > 0
    ensures Rows(states[|steps| - 1].run.tasks, TaskSucceeded, TaskSucceeded, TaskSucceeded)
    ensures Rows(states[|steps|].run.tasks, TaskPending, TaskPending, TaskSucceeded)
    ensures Reopenings(states[|steps|]) >= Reopenings(s) + 1
  {
    var a := PausedAndResumed(s, x);
    var b := Delivers(a[3], ControlEnqueue(RunPaused, 1));
    Join(a, PAUSED_AND_RESUMED, b, REDELIVERED);
    var s1 := b[2];
    ReviseRounds.ResetsGrow(Glue(a, b), PAUSED_AND_RESUMED + REDELIVERED, |PAUSED_AND_RESUMED + REDELIVERED|);
    assert s1.execs == map[1 := FRESH];
    var s2 := ResetLoop(s1, 1, FRESH, TaskSucceeded);
    Extend(Glue(a, b), PAUSED_AND_RESUMED + REDELIVERED, Loop(1, ONE_CLAIM));
    states, steps := Glue(a, b) + [s2], PAUSED_AND_RESUMED + REDELIVERED + [Loop(1, ONE_CLAIM)];
  }

  lemma TailClosed(tasks: seq<Task>, reset: bool)
    requires if reset then Rows(tasks, TaskPending, TaskPending, TaskSucceeded) else Rows(tasks, TaskSucceeded, TaskSucceeded, TaskSucceeded)
    ensures DepClosed(tasks) <==> !reset
  {
    if reset {
      assert "recheck" in tasks[2].deps;
      DoneKey(tasks, "recheck");
    } else {
      assert tasks[0].key in DoneKeys(tasks) && tasks[1].key in DoneKeys(tasks);
    }
  }

  /** A reachable run, one call after the other, in which the gate re-opens rewrite and
      recheck under a promise_verify that is done, and more often than one call may. */
  lemma ReopenedBehindDone() returns (states: seq<Sys>, steps: seq<Step>)
    ensures Execution(states, steps) && |steps| > 0
    ensures DepClosed(states[|steps| - 1].run.tasks) && !DepClosed(states[|steps|].run.tasks)
    ensures Reopenings(states[|steps|]) >= MAX_REVISE_ROUNDS
  {
    StartIsInit();
    var a := Delivers(START, CreateEnqueue(0));
    var b, q, x := FirstCall(a[2]);
    Join(a, [EnqueueOk(CreateEnqueue(0)), Deliver(0)], b, q);
    var c, r := SecondCall(b[|q|], x);
    var ab, p := Glue(a, b), [EnqueueOk(CreateEnqueue(0)), Deliver(0)] + q;
    Join(ab, p, c, r);
    states, steps := Glue(ab, c), p + r;
    assert states[|steps| - 1] == c[|r| - 1];
    TailClosed(c[|r| - 1].run.tasks, false);
    TailClosed(c[|r|].run.tasks, true);
  }
}
