/** Pieces that concrete executions are put together from. */
module Walks {
  import opened RunModel
  import opened Executor
  import opened Protocol
  import opened Transactions

  function Glue(a: seq<Sys>, b: seq<Sys>): seq<Sys>
    requires b != []
  {
    a + b[1..]
  }

  lemma Join(a: seq<Sys>, p: seq<Step>, b: seq<Sys>, q: seq<Step>)
    requires Chain(a, p) && Chain(b, q) && a[|a| - 1] == b[0]
    ensures Chain(Glue(a, b), p + q) && Glue(a, b)[0] == a[0] && Glue(a, b)[|p|] == b[0]
    ensures Glue(a, b)[|p| + |q|] == b[|q|]
  {
    var states, steps := Glue(a, b), p + q;
    forall i | 0 <= i < |steps|
      ensures Enabled(states[i], steps[i]) && states[i + 1] == Protocol.Next(states[i], steps[i])
    {
      if i < |p| {
        assert states[i] == a[i] && states[i + 1] == a[i + 1] && steps[i] == p[i];
      } else {
        var k := i - |p|;
        assert states[i] == b[k] && states[i + 1] == b[k + 1] && steps[i] == q[k];
      }
    }
  }

  lemma Extend(states: seq<Sys>, steps: seq<Step>, step: Step)
    requires Chain(states, steps) && Enabled(states[|steps|], step)
    ensures Chain(states + [Protocol.Next(states[|steps|], step)], steps + [step])
  {}

  /** One row at a time, a failing final gate, nothing else in the way. */
  const ONE_CLAIM := TickInput(true, false, 1, true, 0, 0)

  /** The first ready row is t. */
  predicate FirstReady(tasks: seq<Task>, t: TaskId, now: int) {
    t < |tasks| && Ready(tasks, t, now) && forall i: TaskId :: i < t ==> !Ready(tasks, i, now)
  }

  lemma {:induction false} FirstReadyFrom(tasks: seq<Task>, t: TaskId, now: int, i: TaskId)
    requires FirstReady(tasks, t, now) && i <= t
    ensures ReadyFrom(tasks, now, i) != [] && ReadyFrom(tasks, now, i)[0] == t
    decreases t - i
  {
    if i < t {
      FirstReadyFrom(tasks, t, now, i + 1);
    }
  }

  lemma ClaimsOne(r: Run, ready: seq<TaskId>, e: ExecId, now: int, ledger: bool)
    requires ready != [] && (forall j :: 0 <= j < |ready| ==> ready[j] < |r.tasks|) && !Refused(r, ledger, ready[0])
    ensures ClaimFrom(r, ready, 0, e, now, 1, ledger, []) == ClaimResult(ClaimRow(r, ready[0], e, now), [ready[0]], false)
  {
    assert [] + [ready[0]] == [ready[0]];
    assert ClaimFrom(ClaimRow(r, ready[0], e, now), ready, 1, e, now, 1, ledger, [ready[0]])
      == ClaimResult(ClaimRow(r, ready[0], e, now), [ready[0]], false);
  }

  /** Events that leave the failure streak alone. */
  lemma StreakSkips(r: Run, b: Body)
    requires !b.TaskFailure? && !b.TaskSuccess?
    ensures Streak(AddEvent(r, b).events) == Streak(r.events)
  {
    assert AddEvent(r, b).events[..|r.events|] == r.events;
  }

  /** The lane ledger of a first batch, and the rest of the hand-over. */
  lemma HandsOver(r: Run, x: Exec, t: TaskId)
    ensures var res := StartBatch(r, x, [t], ONE_CLAIM);
      && res.next.Work? && res.run.tasks == r.tasks && res.run.status == r.status && res.run.artifacts == r.artifacts
      && res.run.budgetUsed == r.budgetUsed && res.run.budgetLimit >= r.budgetLimit
      && Streak(res.run.events) == Streak(r.events)
      && res.exec == x.(ledger := true, building := !x.providerReady, inflight := res.exec.inflight)
      && res.exec.inflight.Keys == {t}
  {
    var limit := Max(r.budgetLimit, 0);
    StreakSkips(r.(budgetLimit := limit), BudgetRecomputed(limit));
  }

  /** What a scan that claims one row leaves. */
  ghost predicate ClaimedOne(r: Run, x: Exec, e: ExecId, t: TaskId, now: int, res: TickResult)
    requires t < |r.tasks|
  {
    && res.next.Work? && res.run.status.RunRunning? && res.run.artifacts == r.artifacts
    && res.run.tasks == r.tasks[t := Claimed(r.tasks[t], e, now)]
    && res.run.budgetUsed == r.budgetUsed && res.run.budgetLimit >= r.budgetLimit
    && Streak(res.run.events) == Streak(r.events)
    && res.exec == x.(ledger := true, building := !x.providerReady, inflight := res.exec.inflight)
    && res.exec.inflight.Keys == {t}
  }

  lemma ScanClaimsOne(base: Run, r: Run, x: Exec, e: ExecId, t: TaskId, now: int)
    requires r.status.RunRunning? && FirstReady(r.tasks, t, now) && !Refused(r, x.ledger, t)
    ensures ClaimedOne(r, x, e, t, now, Scan(base, r, x, e, now, ONE_CLAIM))
  {
    FirstReadyFrom(r.tasks, t, now, 0);
    var ready := ReadyFrom(r.tasks, now, 0);
    ClaimsOne(r, ready, e, now, x.ledger);
    var claimed := ClaimRow(r, t, e, now);
    var started := SetTask(r, t, Claimed(r.tasks[t], e, now));
    StreakSkips(started, TaskStarted(t));
    StreakSkips(AddEvent(started, TaskStarted(t)), LeaseAcquired(t, e));
    HandsOver(claimed, x, t);
    assert r.tasks[t].status.TaskPending? && !Waiting(r.tasks[t], now);
    assert Scan(base, r, x, e, now, ONE_CLAIM) == StartBatch(claimed, x, [t], ONE_CLAIM);
  }

  /** Nothing but row t keeps the loop busy. */
  ghost predicate Offers(r: Run, x: Exec, t: TaskId, now: int) {
    && Active(r.status) && !AnyStale(r.tasks, now) && !GateDue(r.tasks)
    && FirstReady(r.tasks, t, now) && !Refused(r, x.ledger, t) && !FinalGate(Begin(r), x, false).again
  }

  lemma BeginSkips(r: Run)
    ensures Streak(Begin(r).events) == Streak(r.events) && Begin(r).tasks == r.tasks && Begin(r).artifacts == r.artifacts
    ensures Begin(r).budgetUsed == r.budgetUsed && Begin(r).budgetLimit == r.budgetLimit
  {
    StreakSkips(r.(status := RunRunning), RunStarted);
  }

  lemma FinalGateSkips(r: Run, x: Exec)
    requires !FinalGate(r, x, false).again
    ensures var f := FinalGate(r, x, false).run;
      f == r.(events := f.events, cursor := f.cursor) && Streak(f.events) == Streak(r.events)
  {
    StreakSkips(r, QualityDegraded);
  }

  lemma TickClaimsOne(r: Run, x: Exec, e: ExecId, t: TaskId, now: int)
    requires Offers(r, x, t, now)
    ensures var f := FinalGate(Begin(r), x, false);
      && f.run.tasks == r.tasks && ClaimedOne(f.run, f.exec, e, t, now, Tick(r, x, e, now, ONE_CLAIM))
      && f.run.artifacts == r.artifacts && f.run.budgetUsed == r.budgetUsed && f.run.budgetLimit == r.budgetLimit
      && Streak(f.run.events) == Streak(r.events)
  {
    var f := FinalGate(Begin(r), x, false);
    BeginSkips(r);
    FinalGateSkips(Begin(r), x);
    assert Begin(r).status.RunRunning?;
    var base := if f.committed then f.run else r;
    ScanClaimsOne(base, f.run, f.exec, e, t, now);
    assert Tick(r, x, e, now, ONE_CLAIM) == Scan(base, f.run, f.exec, e, now, ONE_CLAIM);
  }

  // ---------------------------------------------------------------- one task worked off

  predicate Free(x: Exec) { x.inflight == map[] && !x.building }

  function Worked(x: Exec): Exec { x.(ledger := true, providerReady := true) }

  lemma LoopContinues(s: Sys, e: ExecId, x: Exec, res: TickResult) returns (s': Sys)
    requires s.execs == map[e := x] && Free(x) && !res.next.Exit? && res == Tick(s.run, x, e, s.now, ONE_CLAIM)
    ensures Enabled(s, Loop(e, ONE_CLAIM)) && s' == Protocol.Next(s, Loop(e, ONE_CLAIM))
    ensures s' == s.(run := res.run, execs := map[e := res.exec])
  {
    s' := Protocol.Next(s, Loop(e, ONE_CLAIM));
  }

  lemma TickWorks(r: Run, x: Exec, e: ExecId, t: TaskId, now: int) returns (res: TickResult)
    requires Offers(r, x, t, now)
    ensures res == Tick(r, x, e, now, ONE_CLAIM) && res.next.Work? && res.exec.building == !x.providerReady
  {
    TickClaimsOne(r, x, e, t, now);
    res := Tick(r, x, e, now, ONE_CLAIM);
  }

  lemma LoopClaims(s: Sys, e: ExecId, x: Exec, t: TaskId) returns (s': Sys, x': Exec)
    requires s.execs == map[e := x] && Free(x) && Offers(s.run, x, t, s.now)
    ensures Enabled(s, Loop(e, ONE_CLAIM)) && s' == Protocol.Next(s, Loop(e, ONE_CLAIM))
    ensures s' == s.(run := Tick(s.run, x, e, s.now, ONE_CLAIM).run, execs := map[e := x'])
    ensures x' == Tick(s.run, x, e, s.now, ONE_CLAIM).exec && x'.building == !x.providerReady
  {
    var res := TickWorks(s.run, x, e, t, s.now);
    x' := res.exec;
    s' := LoopContinues(s, e, x, res);
  }

  lemma Builds(s: Sys, e: ExecId, x: Exec) returns (s': Sys)
    requires s.execs == map[e := x] && x.building
    ensures Enabled(s, Build(e)) && s' == Protocol.Next(s, Build(e))
    ensures s' == s.(execs := map[e := x.(providerReady := true, building := false)])
  {
    s' := Protocol.Next(s, Build(e));
  }

  /** A lone executor claims row t and builds its provider if need be. */
  lemma TakesUp(s: Sys, e: ExecId, x: Exec, t: TaskId) returns (states: seq<Sys>, steps: seq<Step>, x': Exec)
    requires s.execs == map[e := x] && Free(x) && Offers(s.run, x, t, s.now)
    ensures Chain(states, steps) && states[0] == s && steps == if x.providerReady then [Loop(e, ONE_CLAIM)] else [Loop(e, ONE_CLAIM), Build(e)]
    ensures x' == Tick(s.run, x, e, s.now, ONE_CLAIM).exec.(building := false, providerReady := x'.providerReady)
    ensures x.providerReady || x'.providerReady
    ensures states[|steps|] == s.(run := Tick(s.run, x, e, s.now, ONE_CLAIM).run, execs := map[e := x'])
  {
    var s1;
    s1, x' := LoopClaims(s, e, x, t);
    Extend([s], [], Loop(e, ONE_CLAIM));
    states, steps := [s] + [s1], [] + [Loop(e, ONE_CLAIM)];
    if !x.providerReady {
      var s2 := Builds(s1, e, x');
      Extend(states, steps, Build(e));
      states, steps := states + [s2], steps + [Build(e)];
      x' := x'.(providerReady := true, building := false);
    } else {
      x' := x'.(building := false);
    }
  }

  lemma CommitsResult(s: Sys, e: ExecId, x: Exec, t: TaskId, result: HandlerResult) returns (s': Sys)
    requires s.execs == map[e := x] && !x.building && x.inflight.Keys == {t} && t < |s.run.tasks|
    ensures Enabled(s, Commit(e, t, result)) && s' == Protocol.Next(s, Commit(e, t, result))
    ensures s' == s.(run := Settle(s.run, e, t, s.now, result), execs := map[e := x.(inflight := map[])])
  {
    assert x.inflight - {t} == map[];
    s' := Protocol.Next(s, Commit(e, t, result));
  }

  predicate WorkStep(step: Step) { step.Loop? || step.Build? || step.Commit? || step.Advance? }

  lemma TakenUp(s: Sys, e: ExecId, x: Exec, t: TaskId, x': Exec)
    requires Free(x) && Offers(s.run, x, t, s.now) && (x.providerReady || x'.providerReady)
    requires x' == Tick(s.run, x, e, s.now, ONE_CLAIM).exec.(building := false, providerReady := x'.providerReady)
    ensures t < |Tick(s.run, x, e, s.now, ONE_CLAIM).run.tasks| && x'.inflight.Keys == {t}
    ensures x'.(inflight := map[], providerReady := true) == Worked(FinalGate(Begin(s.run), x, false).exec)
  {
    TickClaimsOne(s.run, x, e, t, s.now);
  }

  /** And commits its result. */
  lemma WorksOff(s: Sys, e: ExecId, x: Exec, t: TaskId, result: HandlerResult) returns (states: seq<Sys>, steps: seq<Step>, x': Exec)
    requires s.execs == map[e := x] && Free(x) && Offers(s.run, x, t, s.now)
    ensures Chain(states, steps) && states[0] == s && forall step :: step in steps ==> WorkStep(step)
    ensures t < |Tick(s.run, x, e, s.now, ONE_CLAIM).run.tasks|
    ensures states[|steps|] == s.(run := Settle(Tick(s.run, x, e, s.now, ONE_CLAIM).run, e, t, s.now, result), execs := map[e := x'])
    ensures x'.(providerReady := true) == Worked(FinalGate(Begin(s.run), x, false).exec)
  {
    var done;
    states, steps, x' := TakesUp(s, e, x, t);
    TakenUp(s, e, x, t, x');
    done := CommitsResult(states[|steps|], e, x', t, result);
    Extend(states, steps, Commit(e, t, result));
    states, steps, x' := states + [done], steps + [Commit(e, t, result)], x'.(inflight := map[]);
  }

  function Finished(task: Task, e: ExecId, now: int): Task {
    Claimed(task, e, now).(status := TaskSucceeded, lease := None)
  }

  lemma SuccessRow(claimed: Run, task: Task, e: ExecId, t: TaskId, now: int)
    requires claimed.status.RunRunning? && t < |claimed.tasks| && claimed.tasks[t] == Claimed(task, e, now)
    ensures var r := Settle(claimed, e, t, now, Success(0, 0));
      && r.tasks == claimed.tasks[t := Finished(task, e, now)] && r.status == claimed.status
      && r.artifacts == claimed.artifacts + [Artifact(Some(t), true)]
      && r.budgetUsed == claimed.budgetUsed && r.budgetLimit == claimed.budgetLimit
  {}

  /** A claim that succeeds at once. */
  lemma Succeeds(s: Sys, e: ExecId, x: Exec, t: TaskId) returns (states: seq<Sys>, steps: seq<Step>, x': Exec)
    requires s.execs == map[e := x] && Free(x) && Offers(s.run, x, t, s.now)
    ensures Chain(states, steps) && states[0] == s && forall step :: step in steps ==> WorkStep(step)
    ensures var z := states[|steps|].run;
      && states[|steps|] == s.(run := z, execs := map[e := x'])
      && z.status.RunRunning? && z.tasks == s.run.tasks[t := Finished(s.run.tasks[t], e, s.now)]
      && z.artifacts == s.run.artifacts + [Artifact(Some(t), true)]
      && z.budgetUsed == s.run.budgetUsed && z.budgetLimit >= s.run.budgetLimit
    ensures x'.(providerReady := true) == Worked(FinalGate(Begin(s.run), x, false).exec)
  {
    states, steps, x' := WorksOff(s, e, x, t, Success(0, 0));
    TickClaimsOne(s.run, x, e, t, s.now);
    SuccessRow(Tick(s.run, x, e, s.now, ONE_CLAIM).run, s.run.tasks[t], e, t, s.now);
  }

  lemma Enqueues(s: Sys, p: Enqueue) returns (s': Sys)
    requires s.pending == multiset{p} && s.queue == multiset{}
    ensures Enabled(s, EnqueueOk(p)) && s' == Protocol.Next(s, EnqueueOk(p))
    ensures s' == s.(pending := multiset{}, queue := multiset{p.id})
  {
    s' := Protocol.Next(s, EnqueueOk(p));
  }

  /** The enqueue in flight happens and its delivery starts a call. */
  lemma Delivers(s: Sys, p: Enqueue) returns (states: seq<Sys>)
    requires s.pending == multiset{p} && s.queue == multiset{} && p.id !in s.execs
    ensures Chain(states, [EnqueueOk(p), Deliver(p.id)]) && states[0] == s
    ensures states[2] == s.(pending := multiset{}, execs := s.execs[p.id := FRESH])
  {
    var s1 := Enqueues(s, p);
    Extend([s], [], EnqueueOk(p));
    Extend([s] + [s1], [] + [EnqueueOk(p)], Deliver(p.id));
    states := [s] + [s1] + [Protocol.Next(s1, Deliver(p.id))];
    assert [] + [EnqueueOk(p)] + [Deliver(p.id)] == [EnqueueOk(p), Deliver(p.id)];
  }
}
