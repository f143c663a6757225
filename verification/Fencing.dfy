/** Lease fencing, with any number of executors: a handler result is committed only
    for a claim that nobody has recovered, re-claimed or reset since. */
module Fencing {
  import opened RunModel
  import opened Executor
  import opened Transactions
  import opened Protocol
  import opened Effects

  /** Somebody can still commit task t: its lease names a live executor that has it in flight. */
  predicate Held(s: Sys, t: TaskId) {
    match LeaseOf(s.run, t)
    case Some(e) => e in s.execs && t in s.execs[e].inflight
    case None => false
  }

  /** Claims of t that neither were settled nor can be any more. */
  function Spare(s: Sys, t: TaskId): int {
    Total(Starts(t), s.run.events) - Total(Settles(t), s.run.events) - (if Held(s, t) then 1 else 0)
  }

  /** The live claim of t has seen no fence event since it was made. */
  ghost predicate Unfenced(s: Sys, t: TaskId) {
    Held(s, t) ==> s.execs[LeaseOf(s.run, t).value].inflight[t] == Total(Fences(t), s.run.events)
  }

  ghost predicate InflightKnown(s: Sys) {
    forall e, t {:trigger t in s.execs[e].inflight} :: e in s.execs && t in s.execs[e].inflight ==> t < |s.run.tasks|
  }

  ghost predicate Fenced(s: Sys) { InflightKnown(s) && forall t: TaskId :: Unfenced(s, t) }

  // ---------------------------------------------------------------- one step, one task

  lemma UndisturbedStep(s: Sys, s': Sys, t: TaskId)
    requires InflightKept(s, s') && QuietAt(s.run, s'.run, t) && Unfenced(s, t)
    ensures Spare(s', t) >= Spare(s, t) && Unfenced(s', t)
  {
    assert Held(s', t) ==> Held(s, t);
  }

  lemma CommitStep(s: Sys, step: Step, t: TaskId)
    requires Enabled(s, step) && step.Commit? && Fenced(s)
    ensures Spare(Protocol.Next(s, step), t) >= Spare(s, t) && Unfenced(Protocol.Next(s, step), t)
  {
    var s' := Protocol.Next(s, step);
    SettleEffect(s.run, step.e, step.t, s.now, step.result);
    InflightOnlyByClaim(s, step);
    if Accepted(s.run, step.e, step.t) {
      assert SettledAt(s.run, s'.run, step.t) by {
        if Succeeding(s.run.tasks[step.t], step.result) {
          SuccessSettlesAt(s.run, s'.run, step.t, Spent(step.result));
        }
      }
      if t != step.t {
        UndisturbedStep(s, s', t);
      }
    } else {
      UndisturbedStep(s, s', t);
    }
  }

  lemma ClaimStep(s: Sys, step: Step, t: TaskId)
    requires Enabled(s, step) && Claims(s, step) && Fenced(s)
    ensures Spare(Protocol.Next(s, step), t) >= Spare(s, t) && Unfenced(Protocol.Next(s, step), t)
  {
    var s' := Protocol.Next(s, step);
    TickEffect(s.run, s.execs[step.e], step.e, s.now, step.input);
    var batch := s'.execs[step.e].inflight;
    if t in batch {
      assert ClaimedAt(s.run, s'.run, step.e, t);
      assert batch[t] == Total(Fences(t), s'.run.events);
    } else {
      assert QuietAt(s.run, s'.run, t);
      OutsideBatch(s, s', step.e, t);
    }
  }

  lemma OutsideBatch(s: Sys, s': Sys, e: ExecId, t: TaskId)
    requires QuietAt(s.run, s'.run, t) && Unfenced(s, t)
    requires e in s'.execs && t !in s'.execs[e].inflight
    requires s'.execs == s.execs[e := s'.execs[e]]
    ensures Spare(s', t) >= Spare(s, t) && Unfenced(s', t)
  {
    assert Held(s', t) ==> Held(s, t);
  }

  lemma TaskStep(s: Sys, step: Step, t: TaskId)
    requires Enabled(s, step) && Fenced(s)
    ensures Spare(Protocol.Next(s, step), t) >= Spare(s, t) && Unfenced(Protocol.Next(s, step), t)
  {
    var s' := Protocol.Next(s, step);
    if Claims(s, step) {
      ClaimStep(s, step, t);
    } else if step.Commit? {
      CommitStep(s, step, t);
    } else {
      StepEffect(s, step);
      InflightOnlyByClaim(s, step);
      assert QuietAt(s.run, s'.run, t);
      UndisturbedStep(s, s', t);
    }
  }

  lemma InflightKnownStep(s: Sys, step: Step)
    requires Enabled(s, step) && InflightKnown(s)
    ensures InflightKnown(Protocol.Next(s, step))
  {
    LogGrows(s, step);
    if Claims(s, step) {
      TickEffect(s.run, s.execs[step.e], step.e, s.now, step.input);
    } else {
      InflightOnlyByClaim(s, step);
    }
  }

  // ---------------------------------------------------------------- whole runs

  lemma FencedStep(s: Sys, step: Step)
    requires Enabled(s, step) && Fenced(s)
    ensures Fenced(Protocol.Next(s, step))
  {
    InflightKnownStep(s, step);
    forall t: TaskId
      ensures Unfenced(Protocol.Next(s, step), t)
    {
      TaskStep(s, step, t);
    }
  }

  lemma {:induction false} AlwaysFenced(states: seq<Sys>, steps: seq<Step>, i: nat)
    requires Execution(states, steps) && i <= |steps|
    ensures Fenced(states[i])
  {
    if i > 0 {
      AlwaysFenced(states, steps, i - 1);
      FencedStep(states[i - 1], steps[i - 1]);
    }
  }

  lemma SpareKept(states: seq<Sys>, steps: seq<Step>, i: nat, t: TaskId)
    requires Execution(states, steps) && i < |steps|
    ensures Spare(states[i], t) <= Spare(states[i + 1], t)
  {
    AlwaysFenced(states, steps, i);
    TaskStep(states[i], steps[i], t);
  }

  /** Over any stretch of any run, the claims of t settled never outnumber the
      claims started, plus the one that was live when the stretch began. */
  lemma {:induction false} SettledWithin(states: seq<Sys>, steps: seq<Step>, i: nat, j: nat, t: TaskId)
    requires Execution(states, steps) && i <= j <= |steps|
    ensures Spare(states[i], t) <= Spare(states[j], t)
    decreases j - i
  {
    if i < j {
      SpareKept(states, steps, i, t);
      SettledWithin(states, steps, i + 1, j, t);
    }
  }

  /** Per task, task.succeeded and task.failed together never exceed task.started. */
  lemma SettlesNeverExceedStarts(states: seq<Sys>, steps: seq<Step>, i: nat, t: TaskId)
    requires Execution(states, steps) && i <= |steps|
    ensures Total(Settles(t), states[i].run.events) <= Total(Starts(t), states[i].run.events)
  {
    SettledWithin(states, steps, 0, i, t);
    NothingCounted(states[0].run.events, t);
  }

  lemma NothingCounted(events: seq<Event>, t: TaskId)
    requires events == [Event(1, RunCreated)]
    ensures Total(Settles(t), events) == 0 && Total(Starts(t), events) == 0
  {
    assert events[..0] == [];
  }

  /** After a claim of t is settled, t is settled again only if it was started
      again: a redelivery after a crash cannot repeat a committed result. */
  lemma SettledOncePerClaim(states: seq<Sys>, steps: seq<Step>, i: nat, j: nat, t: TaskId)
    requires Execution(states, steps) && i < j <= |steps| && steps[i].Commit? && steps[i].t == t
    requires Accepted(states[i].run, steps[i].e, t)
    ensures Total(Settles(t), states[i + 1].run.events) == Total(Settles(t), states[i].run.events) + 1
    ensures Total(Settles(t), states[j].run.events) - Total(Settles(t), states[i + 1].run.events)
      <= Total(Starts(t), states[j].run.events) - Total(Starts(t), states[i + 1].run.events)
  {
    var r, step := states[i].run, steps[i];
    SettleEffect(r, step.e, t, states[i].now, step.result);
    if Succeeding(r.tasks[t], step.result) {
      SuccessSettlesAt(r, states[i + 1].run, t, Spent(step.result));
    }
    SettledWithin(states, steps, i + 1, j, t);
  }

  // ---------------------------------------------------------------- whose claim it was

  lemma {:induction false} LogKept(states: seq<Sys>, steps: seq<Step>, i: nat, j: nat)
    requires Execution(states, steps) && i <= j <= |steps|
    ensures states[i].run.events <= states[j].run.events
    decreases j - i
  {
    if i < j {
      LogGrows(states[i], steps[i]);
      LogKept(states, steps, i + 1, j);
    }
  }

  /** Step j is the loop iteration in which e claimed t with this fence count. */
  ghost predicate ClaimedBy(states: seq<Sys>, steps: seq<Step>, j: nat, e: ExecId, t: TaskId, fences: nat)
    requires Execution(states, steps) && j < |steps|
  {
    var r, r' := states[j].run, states[j + 1].run;
    && steps[j].Loop? && steps[j].e == e
    && LeaseOf(r', t) == Some(e) && Total(Starts(t), r'.events) > Total(Starts(t), r.events)
    && Total(Fences(t), r'.events) == fences
  }

  /** Every task in flight goes back to a claim of its executor. */
  lemma {:induction false} ClaimOrigin(states: seq<Sys>, steps: seq<Step>, i: nat, e: ExecId, t: TaskId) returns (j: nat)
    requires Execution(states, steps) && i <= |steps|
    requires e in states[i].execs && t in states[i].execs[e].inflight
    ensures j < i && ClaimedBy(states, steps, j, e, t, states[i].execs[e].inflight[t])
  {
    var s, step := states[i - 1], steps[i - 1];
    if Claims(s, step) && step.e == e {
      TickEffect(s.run, s.execs[e], e, s.now, step.input);
      var res := Tick(s.run, s.execs[e], e, s.now, step.input);
      assert ClaimedAt(s.run, res.run, e, t);
      j := i - 1;
    } else {
      if !Claims(s, step) {
        InflightOnlyByClaim(s, step);
      }
      j := ClaimOrigin(states, steps, i - 1, e, t);
    }
  }

  predicate Fence(b: Body, t: TaskId) {
    || ((b.TaskStarted? || b.TaskRecovered?) && b.task == t)
    || (b.RecheckFailed? && (b.rewrite == t || b.recheck == t))
  }

  lemma {:induction false} NoFenceBetween(before: seq<Event>, after: seq<Event>, t: TaskId)
    requires before <= after
    ensures Total(Fences(t), before) <= Total(Fences(t), after)
    ensures Total(Fences(t), before) == Total(Fences(t), after) ==>
      forall k :: |before| <= k < |after| ==> !Fence(after[k].body, t)
  {
    if before != after {
      NoFenceBetween(before, after[..|after| - 1], t);
    } else {
      assert |before| == |after|;
    }
  }

  /** A result of t is committed at step i only by the executor that claimed t at
      some earlier step j, and no recovery, re-claim or final-gate reset of t is in
      the log after that claim. */
  lemma ResultsAreFenced(states: seq<Sys>, steps: seq<Step>, i: nat) returns (j: nat)
    requires Execution(states, steps) && i < |steps| && steps[i].Commit?
    requires Accepted(states[i].run, steps[i].e, steps[i].t)
    ensures j < i && ClaimedBy(states, steps, j, steps[i].e, steps[i].t, Total(Fences(steps[i].t), states[i].run.events))
    ensures states[j + 1].run.events <= states[i].run.events
    ensures forall k :: |states[j + 1].run.events| <= k < |states[i].run.events| ==> !Fence(states[i].run.events[k].body, steps[i].t)
  {
    var e, t := steps[i].e, steps[i].t;
    AlwaysFenced(states, steps, i);
    assert Unfenced(states[i], t);
    j := ClaimOrigin(states, steps, i, e, t);
    LogKept(states, steps, j + 1, i);
    NoFenceBetween(states[j + 1].run.events, states[i].run.events, t);
  }
}
