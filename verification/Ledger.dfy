/** The books of a run in every reachable state: event numbering, token ledger,
    handler artifacts and the budget limit. */
module Ledger {
  import opened RunModel
  import opened Executor
  import opened Transactions
  import opened Protocol
  import opened Effects
  import Control
  import ExpandGraph

  function HandlerArtifacts(r: Run, t: TaskId): nat { multiset(r.artifacts)[Artifact(Some(t), true)] }

  ghost predicate OneArtifactPerSuccess(r: Run, t: TaskId) {
    HandlerArtifacts(r, t) == Total(Successes(t), r.events)
  }

  ghost predicate Balanced(r: Run) {
    && Numbered(r)
    && r.budgetUsed == Total(Tokens, r.events) && Total(StrayTokens(|r.tasks|), r.events) == 0
    && forall t: TaskId :: OneArtifactPerSuccess(r, t)
  }

  // ---------------------------------------------------------------- one step

  lemma BookkeptBalanced(r: Run, r': Run)
    requires Bookkept(r, r') && Balanced(r)
    ensures Balanced(r')
  {
    forall t: TaskId
      ensures OneArtifactPerSuccess(r', t)
    {
      assert OneArtifactPerSuccess(r, t);
    }
  }

  lemma SuccessBalanced(r: Run, r': Run, t: TaskId, tokens: nat)
    requires Succeeds(r, r', t, tokens) && Balanced(r)
    ensures Balanced(r')
  {
    forall u: TaskId
      ensures OneArtifactPerSuccess(r', u)
    {
      assert OneArtifactPerSuccess(r, u);
    }
  }

  lemma ArtifactBalanced(r: Run, task: Option<TaskId>)
    requires Balanced(r)
    ensures Balanced(Control.UserArtifact(r, task))
  {
    var r' := Control.UserArtifact(r, task);
    forall u: TaskId
      ensures OneArtifactPerSuccess(r', u)
    {
      assert OneArtifactPerSuccess(r, u);
    }
  }

  /** More rows, no more stray usage. */
  lemma {:induction false} StrayShrinks(rows: nat, more: nat, events: seq<Event>)
    requires rows <= more
    ensures Total(StrayTokens(more), events) <= Total(StrayTokens(rows), events)
  {
    if events != [] {
      StrayShrinks(rows, more, events[..|events| - 1]);
    }
  }

  lemma RowsBalanced(r: Run, rows: seq<Task>)
    requires Balanced(r)
    ensures Balanced(AddEvent(r.(tasks := r.tasks + rows), GraphExpanded))
  {
    var r' := AddEvent(r.(tasks := r.tasks + rows), GraphExpanded);
    StrayShrinks(|r.tasks|, |r'.tasks|, r.events);
    forall u: TaskId
      ensures OneArtifactPerSuccess(r', u)
    {
      assert OneArtifactPerSuccess(r, u);
    }
  }

  lemma CommitBalanced(s: Sys, step: Step)
    requires Enabled(s, step) && step.Commit? && Balanced(s.run)
    ensures Balanced(Protocol.Next(s, step).run)
  {
    var r' := Protocol.Next(s, step).run;
    SettleEffect(s.run, step.e, step.t, s.now, step.result);
    if Accepted(s.run, step.e, step.t) && Succeeding(s.run.tasks[step.t], step.result) {
      SuccessBalanced(s.run, r', step.t, Spent(step.result));
    } else {
      BookkeptBalanced(s.run, r');
    }
  }

  lemma BookkeptStepBalanced(s: Sys, step: Step)
    requires Enabled(s, step) && !step.Commit? && !step.UserArtifact? && !step.UserExpand? && Balanced(s.run)
    ensures Balanced(Protocol.Next(s, step).run)
  {
    StepEffect(s, step);
    assert Bookkept(s.run, Protocol.Next(s, step).run);
    BookkeptBalanced(s.run, Protocol.Next(s, step).run);
  }

  lemma BalancedStep(s: Sys, step: Step)
    requires Enabled(s, step) && Balanced(s.run)
    ensures Balanced(Protocol.Next(s, step).run)
  {
    match step
    case Commit(_, _, _) => CommitBalanced(s, step);
    case UserArtifact(task) => ArtifactBalanced(s.run, task);
    case UserExpand(parent, plan) => RowsBalanced(s.run, ExpandGraph.NewRows(plan.children, parent));
    case _ => BookkeptStepBalanced(s, step);
  }

  lemma LimitStep(s: Sys, step: Step)
    requires Enabled(s, step)
    ensures s.run.budgetLimit <= Protocol.Next(s, step).run.budgetLimit
  {
    StepEffect(s, step);
  }

  // ---------------------------------------------------------------- lanes

  function LaneUsage(r: Run, lane: Lane): nat { Total(LaneTokens(lane, LanesOf(r.tasks)), r.events) }

  /** Every token settled belongs to exactly one lane, or to a row outside the run. */
  lemma {:induction false} LaneSplit(lanes: seq<Lane>, events: seq<Event>)
    ensures Total(Tokens, events) == Total(LaneTokens(WriteLane, lanes), events) + Total(LaneTokens(ReviewLane, lanes), events)
      + Total(LaneTokens(ReviseLane, lanes), events) + Total(LaneTokens(AnalystLane, lanes), events)
      + Total(LaneTokens(OrchestratorLane, lanes), events) + Total(LaneTokens(PromiseLane, lanes), events)
      + Total(StrayTokens(|lanes|), events)
  {
    if events != [] {
      LaneSplit(lanes, events[..|events| - 1]);
      var b := events[|events| - 1].body;
      if b.TaskUsage? && b.task < |lanes| {
        match lanes[b.task] {
          case WriteLane => case ReviewLane => case ReviseLane => case AnalystLane => case OrchestratorLane => case PromiseLane =>
        }
      }
    }
  }

  // ---------------------------------------------------------------- whole runs

  lemma InitBalanced(s: Sys)
    requires Init(s)
    ensures Balanced(s.run)
  {
    var r := s.run;
    assert r.events[..0] == [];
    forall t: TaskId
      ensures OneArtifactPerSuccess(r, t)
    {}
  }

  lemma {:induction false} AlwaysBalanced(states: seq<Sys>, steps: seq<Step>, i: nat)
    requires Execution(states, steps) && i <= |steps|
    ensures Balanced(states[i].run)
  {
    if i == 0 {
      InitBalanced(states[0]);
    } else {
      AlwaysBalanced(states, steps, i - 1);
      BalancedStep(states[i - 1], steps[i - 1]);
    }
  }

  /** In every reachable state the run's budget_used is the sum of its task.usage
      events and the sum of its lane ledgers. */
  lemma LedgersAgree(states: seq<Sys>, steps: seq<Step>, i: nat)
    requires Execution(states, steps) && i <= |steps|
    ensures var r := states[i].run;
      && r.budgetUsed == Total(Tokens, r.events)
      && r.budgetUsed == LaneUsage(r, WriteLane) + LaneUsage(r, ReviewLane) + LaneUsage(r, ReviseLane)
        + LaneUsage(r, AnalystLane) + LaneUsage(r, OrchestratorLane) + LaneUsage(r, PromiseLane)
  {
    AlwaysBalanced(states, steps, i);
    LaneSplit(LanesOf(states[i].run.tasks), states[i].run.events);
  }

  /** Handler artifacts of a task are as many as its successes. */
  lemma ArtifactsMatchSuccesses(states: seq<Sys>, steps: seq<Step>, i: nat, t: TaskId)
    requires Execution(states, steps) && i <= |steps|
    ensures HandlerArtifacts(states[i].run, t) == Total(Successes(t), states[i].run.events)
  {
    AlwaysBalanced(states, steps, i);
    assert OneArtifactPerSuccess(states[i].run, t);
  }

  lemma {:induction false} LimitNeverDecreases(states: seq<Sys>, steps: seq<Step>, i: nat, j: nat)
    requires Execution(states, steps) && i <= j <= |steps|
    ensures states[i].run.budgetLimit <= states[j].run.budgetLimit
    decreases j - i
  {
    if i < j {
      LimitStep(states[i], steps[i]);
      LimitNeverDecreases(states, steps, i + 1, j);
    }
  }

  /** A retry out of BUDGET_EXHAUSTED makes room: from then on, whatever else
      happens, no task of unit budget is refused until new usage is settled. */
  lemma RetryMakesRoom(states: seq<Sys>, steps: seq<Step>, i: nat, j: nat, ledger: bool, t: TaskId)
    requires Execution(states, steps) && i < j <= |steps|
    requires steps[i].UserRetry? && states[i].run.status.RunBudgetExhausted? && states[i + 1].run.status.RunRunning?
    requires Total(Tokens, states[j].run.events) == Total(Tokens, states[i + 1].run.events)
    requires t < |states[j].run.tasks| && states[j].run.tasks[t].budget <= 1
    ensures states[j].run.budgetUsed < states[j].run.budgetLimit && !Refused(states[j].run, ledger, t)
  {
    AlwaysBalanced(states, steps, i + 1);
    AlwaysBalanced(states, steps, j);
    LimitNeverDecreases(states, steps, i + 1, j);
  }
}
