/** What an unexpired lease protects its holder from, and what it does not. */
module Leases {
  import opened RunModel
  import opened Executor
  import opened Protocol
  import opened RowEffects
  import Control

  /** e works on row t under a lease that lasts until `until` or longer. */
  predicate Holds(tasks: seq<Task>, t: TaskId, e: ExecId, until: int) {
    t < |tasks| && tasks[t].status.TaskRunning? && tasks[t].lease == Some(e) && tasks[t].expires.Some? && tasks[t].expires.value >= until
  }

  // ---------------------------------------------------------------- iterations

  lemma BatchKeepsHeld(r: Run, x: Exec, e: ExecId, now: int, input: TickInput, t: TaskId)
    requires t < |r.tasks| && r.tasks[t].status.TaskRunning?
    ensures var r' := ClaimBatch(r, x, ReadyFrom(r.tasks, now, 0), e, now, input).run;
      t < |r'.tasks| && r'.tasks[t] == r.tasks[t]
  {
    var ready := ReadyFrom(r.tasks, now, 0);
    var c := ClaimFrom(r, ready, 0, e, now, input.cap, x.ledger, []);
    BatchRows(r, e, now, input.cap, x.ledger);
    StartBatchRows(c.run, x, c.claimed, input);
    assert forall j :: 0 <= j < |ready| ==> ready[j] != t;
    assert t !in c.claimed;
  }

  lemma ScanKeepsHeld(base: Run, r: Run, x: Exec, e: ExecId, now: int, input: TickInput, t: TaskId)
    requires base.tasks == r.tasks && t < |r.tasks| && r.tasks[t].status.TaskRunning?
    ensures var r' := Scan(base, r, x, e, now, input).run; t < |r'.tasks| && r'.tasks[t] == r.tasks[t]
  {
    ScanCases(base, r, x, e, now, input);
    BatchKeepsHeld(r, x, e, now, input, t);
  }

  /** The only RUNNING row an iteration takes from a live lease is rewrite, in a reset. */
  predicate TakenByReset(r: Run, x: Exec, now: int, input: TickInput, t: TaskId) {
    var g := Gate(Begin(r), x, input.gate);
    Active(r.status) && !AnyStale(r.tasks, now) && !g.again && FinalGate(g.run, g.exec, input.finalGate).again
    && Find(r.tasks, "rewrite") == Some(t)
  }

  lemma TickTakes(r: Run, x: Exec, e: ExecId, now: int, input: TickInput, t: TaskId)
    requires t < |r.tasks| && r.tasks[t].status.TaskRunning? && !Stale(r.tasks[t], now)
    ensures var r' := Tick(r, x, e, now, input).run;
      t < |r'.tasks| && if TakenByReset(r, x, now, input, t) then r'.tasks[t].status.TaskPending? else r'.tasks[t] == r.tasks[t]
  {
    if Active(r.status) && !AnyStale(Begin(r).tasks, now) {
      var g := Gate(Begin(r), x, input.gate);
      if !g.again {
        GatePassed(r, x, e, now, input, t);
      }
    }
  }

  /** An iteration behind the first gate. */
  lemma GatePassed(r: Run, x: Exec, e: ExecId, now: int, input: TickInput, t: TaskId)
    requires t < |r.tasks| && r.tasks[t].status.TaskRunning? && Active(r.status) && !AnyStale(r.tasks, now)
    requires !Gate(Begin(r), x, input.gate).again
    ensures var r' := Tick(r, x, e, now, input).run;
      t < |r'.tasks| && if TakenByReset(r, x, now, input, t) then r'.tasks[t].status.TaskPending? else r'.tasks[t] == r.tasks[t]
  {
    var g := Gate(Begin(r), x, input.gate);
    var f := FinalGate(g.run, g.exec, input.finalGate);
    assert g.run.tasks == r.tasks;
    if !f.again {
      ScanKeepsHeld(if f.committed then f.run else r, f.run, f.exec, e, now, input, t);
    }
  }

  // ---------------------------------------------------------------- steps

  /** The steps that end a hold: the holder's own commit, a failed build of whoever has the
      row in its batch, a retry of that very row, and a reset of rewrite. */
  predicate Ends(s: Sys, step: Step, t: TaskId, e: ExecId)
    requires step.Loop? || step.BuildFails? ==> step.e in s.execs
  {
    match step
    case Commit(who, u, _) => who == e && u == t
    case BuildFails(who) => t in s.execs[who].inflight
    case UserRetry(target, capReached, _) => target == Some(t) && Control.Retryable(s.run.status) && !capReached
    case Loop(who, input) => TakenByReset(s.run, s.execs[who], s.now, input, t)
    case _ => false
  }

  lemma HolderSettles(r: Run, e: ExecId, t: TaskId, now: int, result: HandlerResult)
    requires t < |r.tasks| && r.tasks[t].lease == Some(e)
    ensures t < |Settle(r, e, t, now, result).tasks| && Settle(r, e, t, now, result).tasks[t].lease.None?
  {}

  lemma OthersSettle(r: Run, who: ExecId, e: ExecId, u: TaskId, now: int, result: HandlerResult)
    requires u < |r.tasks|
    ensures r.tasks[u].lease == Some(e) && who != e ==> Settle(r, who, u, now, result) == r
    ensures var after := Settle(r, who, u, now, result).tasks;
      |after| == |r.tasks| && forall i :: 0 <= i < |after| && i != u ==> after[i] == r.tasks[i]
  {}

  lemma RetryTakes(r: Run, target: Option<TaskId>, capReached: bool, t: TaskId)
    requires t < |r.tasks| && r.tasks[t].status.TaskRunning?
    ensures var after := Control.Retry(r, target, capReached).run.tasks;
      && t < |after| && (after[t] == r.tasks[t] || after[t].status.TaskPending?)
      && (after[t].status.TaskPending? <==> target == Some(t) && Control.Retryable(r.status) && !capReached)
  {}

  lemma OtherKeeps(s: Sys, step: Step, t: TaskId, e: ExecId, until: int)
    requires Enabled(s, step) && Holds(s.run.tasks, t, e, until) && until <= s.now + LEASE_TTL
    requires !step.Loop? && !step.Commit? && !step.UserRetry?
    ensures Holds(Protocol.Next(s, step).run.tasks, t, e, until) <==> !Ends(s, step, t, e)
    ensures s.now <= Protocol.Next(s, step).now
  {}

  /** Before its lease is over a hold ends by exactly those steps. */
  lemma HoldEndsExactly(s: Sys, step: Step, t: TaskId, e: ExecId, until: int)
    requires Enabled(s, step) && Holds(s.run.tasks, t, e, until) && s.now <= until <= s.now + LEASE_TTL
    ensures Holds(Protocol.Next(s, step).run.tasks, t, e, until) <==> !Ends(s, step, t, e)
    ensures s.now <= Protocol.Next(s, step).now
  {
    match step
    case Loop(who, input) => TickTakes(s.run, s.execs[who], who, s.now, input, t);
    case Commit(who, u, result) =>
      if u == t && who == e {
        HolderSettles(s.run, e, t, s.now, result);
      } else {
        OthersSettle(s.run, who, e, u, s.now, result);
      }
    case UserRetry(target, capReached, _) => RetryTakes(s.run, target, capReached, t);
    case _ => OtherKeeps(s, step, t, e, until);
  }

  /** So nobody takes a row from its holder before the lease is over, but for the last
      three of them. */
  lemma {:induction false} LeaseProtects(states: seq<Sys>, steps: seq<Step>, i: nat, j: nat, t: TaskId, e: ExecId, until: int)
    requires Chain(states, steps) && i <= j <= |steps| && Holds(states[i].run.tasks, t, e, until)
    requires until <= states[i].now + LEASE_TTL
    requires forall k :: i <= k < j ==> states[k].now <= until && !Ends(states[k], steps[k], t, e)
    ensures Holds(states[j].run.tasks, t, e, until)
    decreases j - i
  {
    if i < j {
      HoldEndsExactly(states[i], steps[i], t, e, until);
      LeaseProtects(states, steps, i + 1, j, t, e, until);
    }
  }
}
