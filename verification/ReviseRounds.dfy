/** How often a run can be revised: the bound of one call, times its deliveries. */
module ReviseRounds {
  import opened RunModel
  import opened Executor
  import opened Transactions
  import opened Protocol
  import opened Effects
  import opened Progress

  /** The gate.recheck_failed entries of a log. */
  function Resets(events: seq<Event>): nat {
    if events == [] then 0
    else Resets(events[..|events| - 1]) + (if events[|events| - 1].body.RecheckFailed? then 1 else 0)
  }

  lemma {:induction false} SameResets(before: seq<Event>, after: seq<Event>)
    requires before <= after && forall k :: |before| <= k < |after| ==> !after[k].body.RecheckFailed?
    ensures Resets(after) == Resets(before)
  {
    if |before| < |after| {
      SameResets(before, after[..|after| - 1]);
    } else {
      assert before == after;
    }
  }

  lemma CountedResets(r: Run, r': Run, round: nat, round': nat)
    requires CountsResets(r, r', round, round')
    ensures Resets(r'.events) == Resets(r.events) + (round' - round)
    ensures round' == round || round' == round + 1 <= MAX_REVISE_ROUNDS
  {
    if round' == round {
      SameResets(r.events, r'.events);
    } else {
      SameResets(r.events, r'.events[..|r'.events| - 1]);
    }
  }

  // ---------------------------------------------------------------- steps

  lemma OneMoreEntry(r: Run, r': Run, b: Body)
    requires Plain(b) && OneEntry(r, r', b)
    ensures Resets(r'.events) == Resets(r.events)
  {
    SameResets(r.events, r'.events);
  }

  lemma OthersReset(s: Sys, step: Step)
    requires Enabled(s, step) && !step.Loop?
    ensures Resets(Protocol.Next(s, step).run.events) == Resets(s.run.events)
  {
    var r' := Protocol.Next(s, step).run;
    if step.Commit? {
      SettleNoReset(s.run, step.e, step.t, s.now, step.result);
      SameResets(s.run.events, r'.events);
    } else if step.Note? {
      SameResets(s.run.events, r'.events);
    } else {
      var b := StepEntry(s, step);
      OneMoreEntry(s.run, r', b);
    }
  }

  /** An iteration re-opens the rows once, or not at all. */
  lemma LoopResets(s: Sys, step: Step)
    requires Enabled(s, step) && step.Loop?
    ensures var x, res := s.execs[step.e], Tick(s.run, s.execs[step.e], step.e, s.now, step.input);
      && Resets(res.run.events) == Resets(s.run.events) + (res.exec.reviseRound - x.reviseRound)
      && (res.exec.reviseRound == x.reviseRound || res.exec.reviseRound == x.reviseRound + 1 <= MAX_REVISE_ROUNDS)
  {
    var x := s.execs[step.e];
    if Active(s.run.status) {
      ResetsAreCounted(s.run, x, step.e, s.now, step.input);
      var res := Tick(s.run, x, step.e, s.now, step.input);
      CountedResets(s.run, res.run, x.reviseRound, res.exec.reviseRound);
    }
  }

  lemma {:induction false} ResetsGrow(states: seq<Sys>, steps: seq<Step>, i: nat)
    requires Chain(states, steps) && i <= |steps|
    ensures Resets(states[0].run.events) <= Resets(states[i].run.events)
  {
    if i > 0 {
      ResetsGrow(states, steps, i - 1);
      if steps[i - 1].Loop? {
        LoopResets(states[i - 1], steps[i - 1]);
      } else {
        OthersReset(states[i - 1], steps[i - 1]);
      }
    }
  }

  // ---------------------------------------------------------------- calls

  /** The calls that can still revise once. */
  function Unused(execs: map<ExecId, Exec>): set<ExecId> { set e | e in execs && execs[e].reviseRound < MAX_REVISE_ROUNDS }

  function Deliveries(steps: seq<Step>): nat {
    if steps == [] then 0 else Deliveries(steps[..|steps| - 1]) + (if steps[|steps| - 1].Deliver? then 1 else 0)
  }

  ghost predicate RoundsCounted(s: Sys, deliveries: nat) {
    && (forall e :: e in s.execs ==> s.execs[e].reviseRound >= 1)
    && Resets(s.run.events) + |Unused(s.execs)| <= deliveries
  }

  lemma SubsetSize(a: set<ExecId>, b: set<ExecId>)
    requires a <= b
    ensures |a| <= |b|
  {
    assert b == a + (b - a);
  }

  lemma LoopRounds(s: Sys, step: Step, deliveries: nat)
    requires Enabled(s, step) && step.Loop? && RoundsCounted(s, deliveries)
    ensures RoundsCounted(Protocol.Next(s, step), deliveries)
  {
    var e, x := step.e, s.execs[step.e];
    var res := Tick(s.run, x, e, s.now, step.input);
    var s' := Protocol.Next(s, step);
    var before, after := Unused(s.execs), Unused(s'.execs);
    LoopResets(s, step);
    if res.exec.reviseRound == x.reviseRound {
      assert after <= before;
      SubsetSize(after, before);
    } else {
      assert e in before && after <= before - {e};
      SubsetSize(after, before - {e});
    }
  }

  lemma DeliverRounds(s: Sys, e: ExecId, deliveries: nat)
    requires Enabled(s, Deliver(e)) && RoundsCounted(s, deliveries)
    ensures RoundsCounted(Protocol.Next(s, Deliver(e)), deliveries + 1)
  {
    var before, after := Unused(s.execs), Unused(Protocol.Next(s, Deliver(e)).execs);
    assert after <= before + {e};
    SubsetSize(after, before + {e});
  }

  /** Only a delivery starts a call, and only an iteration counts a round. */
  lemma RoundsKept(s: Sys, step: Step)
    requires Enabled(s, step) && !step.Loop? && !step.Deliver?
    ensures var execs := Protocol.Next(s, step).execs;
      forall e :: e in execs ==> e in s.execs && execs[e].reviseRound == s.execs[e].reviseRound
  {}

  lemma OtherRounds(s: Sys, step: Step, deliveries: nat)
    requires Enabled(s, step) && !step.Loop? && !step.Deliver? && RoundsCounted(s, deliveries)
    ensures RoundsCounted(Protocol.Next(s, step), deliveries)
  {
    OthersReset(s, step);
    RoundsKept(s, step);
    SubsetSize(Unused(Protocol.Next(s, step).execs), Unused(s.execs));
  }

  lemma {:induction false} AlwaysCounted(states: seq<Sys>, steps: seq<Step>, i: nat)
    requires Execution(states, steps) && i <= |steps|
    ensures RoundsCounted(states[i], Deliveries(steps[..i]))
  {
    if i == 0 {
      assert states[0].run.events[..0] == [];
      assert Unused(states[0].execs) == {};
    } else {
      AlwaysCounted(states, steps, i - 1);
      assert steps[..i][..i - 1] == steps[..i - 1];
      if steps[i - 1].Loop? {
        LoopRounds(states[i - 1], steps[i - 1], Deliveries(steps[..i - 1]));
      } else if steps[i - 1].Deliver? {
        DeliverRounds(states[i - 1], steps[i - 1].e, Deliveries(steps[..i - 1]));
      } else {
        OtherRounds(states[i - 1], steps[i - 1], Deliveries(steps[..i - 1]));
      }
    }
  }

  /** In every reachable state rewrite and recheck were re-opened at most once for each
      delivery of the run so far. */
  lemma ResetsWithinDeliveries(states: seq<Sys>, steps: seq<Step>, i: nat)
    requires Execution(states, steps) && i <= |steps|
    ensures Resets(states[i].run.events) <= Deliveries(steps[..i])
  {
    AlwaysCounted(states, steps, i);
  }
}
