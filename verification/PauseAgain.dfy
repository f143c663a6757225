/** An automatic pause, a resume, and the pause again at the very next failure. */
module PauseAgain {
  import opened RunModel
  import opened Executor
  import opened Transactions
  import opened Protocol
  import opened Walks
  import ForeignLease

  const LATER := 360_000

  /** One executor between two tries of the only task, after n failures in a row. */
  ghost predicate Failed(s: Sys, x: Exec, n: nat) {
    && |s.run.tasks| == 1 && s.execs == map[0 := x] && Free(x)
    && Streak(s.run.events) == n && s.run.budgetUsed < s.run.budgetLimit
    && var task := s.run.tasks[0];
      task.key == "scene" && task.deps == [] && task.budget == 1 && task.status.TaskPending? && task.retryable == n && !Waiting(task, s.now)
  }

  lemma OffersScene(s: Sys, x: Exec, n: nat)
    requires Failed(s, x, n) && Active(s.run.status)
    ensures Offers(s.run, x, 0, s.now) && FinalGate(Begin(s.run), x, false) == GateResult(Begin(s.run), x, false, false)
  {
    assert Ready(s.run.tasks, 0, s.now);
  }

  /** The claimed run, and how it settles. */
  lemma SettlesOnce(s: Sys, x: Exec, n: nat)
    requires Failed(s, x, n) && Active(s.run.status) && n < RETRYABLE_MAX_ATTEMPTS
    ensures var claimed := Tick(s.run, x, 0, s.now, ONE_CLAIM).run;
      && |claimed.tasks| == 1 && claimed.status.RunRunning? && claimed.tasks[0] == Claimed(s.run.tasks[0], 0, s.now)
      && claimed.budgetUsed < claimed.budgetLimit && Streak(claimed.events) == n
      && Total(Settles(0), claimed.events) == Total(Settles(0), s.run.events)
  {
    OffersScene(s, x, n);
    TickClaimsOne(s.run, x, 0, 0, s.now);
    TickEffect(s.run, x, 0, s.now, ONE_CLAIM);
  }

  lemma FailureCounted(claimed: Run, task: Task, now: int, n: nat)
    requires |claimed.tasks| == 1 && claimed.status.RunRunning? && claimed.tasks[0] == Claimed(task, 0, now)
    requires task.retryable == n < RETRYABLE_MAX_ATTEMPTS && Streak(claimed.events) == n
    ensures var r := Settle(claimed, 0, 0, now, RetryableError(1000));
      && r.tasks == [Delayed(claimed.tasks[0], now, 1000)] && Streak(r.events) == n + 1
      && r.status == (if n + 1 >= AUTO_PAUSE_STREAK then RunPaused else RunRunning)
      && r.budgetUsed == claimed.budgetUsed && r.budgetLimit == claimed.budgetLimit
      && Total(Settles(0), r.events) == Total(Settles(0), claimed.events) + 1
  {
    var failed := AddEvent(SetTask(claimed, 0, Delayed(claimed.tasks[0], now, 1000)), TaskFailure(0, true, true));
    assert failed.events[..|claimed.events|] == claimed.events;
    assert Streak(failed.events) == n + 1;
    StreakSkips(failed.(status := RunPaused), AutoPaused);
  }

  /** One more try that fails at the provider, and the wait for the next one. */
  lemma FailsOnce(s: Sys, x: Exec, n: nat) returns (states: seq<Sys>, steps: seq<Step>, x': Exec)
    requires Failed(s, x, n) && Active(s.run.status) && n < RETRYABLE_MAX_ATTEMPTS
    ensures Chain(states, steps) && states[0] == s && (forall step :: step in steps ==> WorkStep(step)) && |steps| > 0
    ensures var z := states[|steps|];
      && Failed(z, x', n + 1) && z.run.status == (if n + 1 >= AUTO_PAUSE_STREAK then RunPaused else RunRunning)
      && Total(Settles(0), z.run.events) == Total(Settles(0), s.run.events) + 1
  {
    OffersScene(s, x, n);
    SettlesOnce(s, x, n);
    states, steps, x' := WorksOff(s, 0, x, 0, RetryableError(1000));
    FailureCounted(Tick(s.run, x, 0, s.now, ONE_CLAIM).run, s.run.tasks[0], s.now, n);
    Extend(states, steps, Advance(LATER));
    states, steps := states + [Protocol.Next(states[|steps|], Advance(LATER))], steps + [Advance(LATER)];
  }

  /** Three failures in a row from a fresh delivery. */
  lemma FailsThrice(s: Sys) returns (states: seq<Sys>, steps: seq<Step>, x: Exec)
    requires Failed(s, FRESH, 0) && Active(s.run.status)
    ensures Chain(states, steps) && states[0] == s && steps != [] && forall step :: step in steps ==> WorkStep(step)
    ensures Failed(states[|steps|], x, 3) && states[|steps|].run.status.RunPaused?
  {
    var a, p, x1 := FailsOnce(s, FRESH, 0);
    var b, q, x2 := FailsOnce(a[|p|], x1, 1);
    var c, r, x3 := FailsOnce(b[|q|], x2, 2);
    Join(a, p, b, q);
    Join(Glue(a, b), p + q, c, r);
    states, steps, x := Glue(Glue(a, b), c), p + q + r, x3;
  }

  const RESUME := UserResume(false, 1)

  /** After a pause by three failures, a resume, and a fourth one. */
  lemma ResumedFails(s: Sys, x: Exec) returns (states: seq<Sys>, steps: seq<Step>)
    requires Failed(s, x, 3) && s.run.status.RunPaused?
    ensures Chain(states, steps) && states[0] == s && |steps| > 1 && steps[0] == RESUME
    ensures forall k :: 0 < k < |steps| ==> WorkStep(steps[k])
    ensures states[1].run.status.RunRunning? && states[|steps|].run.status.RunPaused?
    ensures Total(Settles(0), states[|steps|].run.events) == Total(Settles(0), s.run.events) + 1
  {
    var s1 := Protocol.Next(s, RESUME);
    StreakSkips(s.run.(status := RunRunning), Controlled);
    assert Failed(s1, x, 3);
    Extend([s], [], RESUME);
    var b, q, x' := FailsOnce(s1, x, 3);
    Join([s] + [s1], [] + [RESUME], b, q);
    states, steps := Glue([s] + [s1], b), [] + [RESUME] + q;
  }

  /** A delivered run that fails until it is paused. */
  lemma PausesFirst() returns (states: seq<Sys>, steps: seq<Step>, x: Exec)
    ensures Execution(states, steps) && |steps| > 2 && forall k :: 2 <= k < |steps| ==> WorkStep(steps[k])
    ensures Failed(states[|steps|], x, 3) && states[|steps|].run.status.RunPaused?
  {
    ForeignLease.StartIsInit();
    var a := ForeignLease.Delivered();
    var b, q;
    b, q, x := FailsThrice(a[2]);
    Join(a, ForeignLease.DELIVERED, b, q);
    states, steps := Glue(a, b), ForeignLease.DELIVERED + q;
  }

  /** A reachable run that the executor pauses by itself, that a user resumes, and that
      is paused again by the next settled claim. */
  lemma PausesAgain() returns (states: seq<Sys>, steps: seq<Step>, p: nat)
    ensures Execution(states, steps) && p < |steps| && steps[p] == RESUME
    ensures forall k :: 2 <= k < |steps| && k != p ==> WorkStep(steps[k])
    ensures states[p].run.status.RunPaused? && states[p + 1].run.status.RunRunning? && states[|steps|].run.status.RunPaused?
    ensures Total(Settles(0), states[|steps|].run.events) == Total(Settles(0), states[p].run.events) + 1
  {
    var a, q, x := PausesFirst();
    var c, r := ResumedFails(a[|q|], x);
    Join(a, q, c, r);
    states, steps, p := Glue(a, c), q + r, |q|;
  }
}
