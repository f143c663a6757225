/** Why COMPLETED says nothing about tasks somebody else holds, and how it is left:
    one execution with two executors on a one-task run. */
module ForeignLease {
  import opened RunModel
  import opened TaskGraph
  import opened Executor
  import opened Protocol
  import opened Walks

  const ONE_TASK := [Task("scene", "scene_writer", [], 1, TaskPending, 0, 0, None, None, None)]
  const CREATED := Run(RunPending, 0, 100, 1, [Event(1, RunCreated)], [], ONE_TASK)
  const START := Sys(CREATED, 0, multiset{}, map[], multiset{CreateEnqueue(0)})
  const INPUT := TickInput(true, true, 4, true, 0, 0)

  lemma StartIsInit()
    ensures Init(START)
  {
    var rank: map<string, nat> := map[];
    assert DepsOf(ONE_TASK[..0]) == map[];
    assert Ranked(DepsOf(ONE_TASK), rank);
    assert START.pending == multiset{CreateEnqueue(0)};
  }

  /** The first executor claims the only task. */
  lemma FirstClaims(r: Run)
    requires r.status.RunPending? && r.tasks == ONE_TASK && r.budgetUsed == 0
    ensures var res := Tick(r, FRESH, 0, 0, INPUT);
      && res.next.Work? && res.run.status.RunRunning? && res.exec.building && res.exec.inflight.Keys == {0}
      && res.run.tasks == [Claimed(ONE_TASK[0], 0, 0)]
  {
    var r1 := Begin(r);
    assert !GateDue(r1.tasks);
    assert Find(r1.tasks, "recheck").None?;
    var ready := ReadyFrom(r1.tasks, 0, 0);
    assert Ready(r1.tasks, 0, 0);
    assert ready == [0] by {
      assert ReadyFrom(r1.tasks, 0, 1) == [];
    }
    assert r1.tasks[0].status.TaskPending? && !Waiting(r1.tasks[0], 0);
    var r2 := AddEvent(AddEvent(SetTask(r1, 0, Claimed(r1.tasks[0], 0, 0)), TaskStarted(0)), LeaseAcquired(0, 0));
    assert ClaimFrom(r2, ready, 1, 0, 0, 4, false, [] + [0]) == ClaimResult(r2, [0], false);
    assert ClaimFrom(r1, ready, 0, 0, 0, 4, false, []) == ClaimResult(r2, [0], false);
  }

  /** The second one finds nothing PENDING or FAILED. */
  lemma SecondCompletes(r: Run)
    requires r.status.RunRunning? && r.tasks == [Claimed(ONE_TASK[0], 0, 0)]
    ensures var res := Tick(r, FRESH, 1, 0, INPUT);
      res.next.Exit? && res.run.status.RunCompleted? && res.run.tasks == r.tasks
  {
    assert !AnyStale(r.tasks, 0);
    assert !GateDue(r.tasks);
    assert Find(r.tasks, "recheck").None?;
  }

  // ---------------------------------------------------------------- the execution, piece by piece

  const DELIVERED := [EnqueueOk(CreateEnqueue(0)), Deliver(0)]

  lemma Delivered() returns (a: seq<Sys>)
    ensures Chain(a, DELIVERED) && a[0] == START
    ensures a[2] == Sys(CREATED, 0, multiset{}, map[0 := FRESH], multiset{})
  {
    a := Delivers(START, CreateEnqueue(0));
  }

  lemma FirstLoop(s: Sys) returns (a: seq<Sys>)
    requires s == Sys(CREATED, 0, multiset{}, map[0 := FRESH], multiset{})
    ensures Chain(a, [Loop(0, INPUT)]) && a[0] == s
    ensures ClaimedByFirst(a[1])
  {
    FirstClaims(s.run);
    a := [s, Protocol.Next(s, Loop(0, INPUT))];
  }

  ghost predicate ClaimedByFirst(s: Sys) {
    && s.run.status.RunRunning? && s.run.tasks == [Claimed(ONE_TASK[0], 0, 0)] && s.now == 0
    && s.execs.Keys == {0} && s.execs[0].building && s.pending == multiset{} && s.queue == multiset{}
  }

  const RESUMED := [UserPause, UserResume(false, 1)]
  const REDELIVERED := [EnqueueOk(ControlEnqueue(RunPaused, 1)), Deliver(1)]

  lemma PauseAndResume(s: Sys) returns (a: seq<Sys>)
    requires ClaimedByFirst(s)
    ensures Chain(a, RESUMED) && a[0] == s
    ensures a[2] == s.(run := a[2].run, pending := multiset{ControlEnqueue(RunPaused, 1)})
    ensures a[2].run.status.RunRunning? && a[2].run.tasks == s.run.tasks
  {
    var s1 := Protocol.Next(s, RESUMED[0]);
    a := [s, s1, Protocol.Next(s1, RESUMED[1])];
  }

  lemma SecondLoop(s: Sys) returns (a: seq<Sys>)
    requires s.run.status.RunRunning? && s.run.tasks == [Claimed(ONE_TASK[0], 0, 0)] && s.now == 0
    requires s.execs.Keys == {0, 1} && s.execs[0].building && s.execs[1] == FRESH
    ensures Chain(a, [Loop(1, INPUT)]) && a[0] == s
    ensures a[1].run.status.RunCompleted? && a[1].run.tasks == s.run.tasks && a[1].execs == s.execs - {1}
  {
    SecondCompletes(s.run);
    a := [s, Protocol.Next(s, Loop(1, INPUT))];
  }

  lemma FirstGivesUp(s: Sys) returns (a: seq<Sys>)
    requires 0 in s.execs && s.execs[0].building
    ensures Chain(a, [BuildFails(0)]) && a[0] == s && a[1].run.status.RunFailed?
  {
    a := [s, Protocol.Next(s, BuildFails(0))];
  }

  /** A run can be COMPLETED while its only task is RUNNING in another executor
      that can still commit it, and that executor can then turn it to FAILED. */
  lemma CompletedWithForeignTask() returns (states: seq<Sys>, steps: seq<Step>)
    ensures Execution(states, steps) && |steps| == 9
    ensures states[8].run.status.RunCompleted? && states[8].run.tasks == [Claimed(ONE_TASK[0], 0, 0)] && 0 in states[8].execs
    ensures states[9].run.status.RunFailed?
  {
    StartIsInit();
    var a, p := UpToFirstClaim();
    var b, q := FromFirstClaim(a[3]);
    Join(a, p, b, q);
    states, steps := Glue(a, b), p + q;
    assert states[8] == b[5] && states[9] == b[6];
  }

  lemma UpToFirstClaim() returns (states: seq<Sys>, steps: seq<Step>)
    ensures Chain(states, steps) && |steps| == 3 && states[0] == START && ClaimedByFirst(states[3])
  {
    var a := Delivered();
    var b := FirstLoop(a[2]);
    Join(a, DELIVERED, b, [Loop(0, INPUT)]);
    states, steps := Glue(a, b), DELIVERED + [Loop(0, INPUT)];
  }

  lemma FromFirstClaim(s: Sys) returns (states: seq<Sys>, steps: seq<Step>)
    requires ClaimedByFirst(s)
    ensures Chain(states, steps) && |steps| == 6 && states[0] == s && states[6].run.status.RunFailed?
    ensures states[5].run.status.RunCompleted? && states[5].run.tasks == [Claimed(ONE_TASK[0], 0, 0)] && 0 in states[5].execs
  {
    var c := PauseAndResume(s);
    var d := Delivers(c[2], ControlEnqueue(RunPaused, 1));
    Join(c, RESUMED, d, REDELIVERED);
    var f := SecondLoop(d[2]);
    var g := FirstGivesUp(f[1]);
    Join(f, [Loop(1, INPUT)], g, [BuildFails(0)]);
    var cd, fg := Glue(c, d), Glue(f, g);
    Join(cd, RESUMED + REDELIVERED, fg, [Loop(1, INPUT)] + [BuildFails(0)]);
    states, steps := Glue(cd, fg), (RESUMED + REDELIVERED) + ([Loop(1, INPUT)] + [BuildFails(0)]);
  }
}
