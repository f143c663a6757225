/** What the batch chain keeps, however often and late its hooks fire. */
module BatchSafety {
  import opened RunModel
  import opened BatchChain

  // ---------------------------------------------------------------- the invariant

  /** Ended at least once with something else than a cancellation. */
  ghost predicate Passed(run: ChapterRun) { exists s :: s in run.reached && s != RunCancelled }

  /** Every chapter with a run is planned, and all planned chapters before it have
      a run that ended without being cancelled. */
  ghost predicate PrefixOf(runs: map<int, ChapterRun>, numbers: seq<int>) {
    && (forall m :: m in runs ==> m in numbers)
    && (forall m, p :: m in runs && p in numbers && p < m ==> p in runs)
    && (forall m, p :: m in runs && p in numbers && p < m && p in runs ==> Passed(runs[p]))
  }

  /** Nothing, or one plan, then at most one end that is not the late stall of a chapter
      with a run; and only chapters with a run wait for their enqueue. */
  ghost predicate Safe(b: Batch) {
    if b.events == [] then b.runs == map[] && b.enqueues == {}
    else
      && b.events[0].Planned? && b.events[0].numbers != [] && Sorted(b.events[0].numbers)
      && (forall k :: 0 < k < |b.events| ==> !b.events[k].Planned?)
      && (forall k :: 1 < k < |b.events| ==> b.events[k].BatchStalled? && b.events[k].no in b.runs)
      && b.enqueues <= b.runs.Keys && PrefixOf(b.runs, b.events[0].numbers)
  }

  lemma {:induction false} AtMostSorted(numbers: seq<int>, limit: nat)
    requires Sorted(numbers)
    ensures Sorted(AtMost(numbers, limit)) && forall n :: n in AtMost(numbers, limit) ==> n in numbers && n <= limit
  {
    if numbers != [] {
      var rest := numbers[..|numbers| - 1];
      AtMostSorted(rest, limit);
      var kept := AtMost(rest, limit);
      assert forall i :: 0 <= i < |kept| ==> kept[i] in kept;
      forall i | 0 <= i < |kept|
        ensures kept[i] <= numbers[|numbers| - 1]
      {
        assert kept[i] in rest;
      }
    }
  }

  lemma PlanSorted(numbers: seq<int>, limit: Option<nat>)
    requires Sorted(numbers)
    ensures Sorted(PlanNumbers(numbers, limit))
  {
    var cut := if |numbers| > BATCH_MAX_CHAPTERS then numbers[..BATCH_MAX_CHAPTERS] else numbers;
    if limit.Some? && |cut| > limit.value {
      AtMostSorted(cut, limit.value);
    }
  }

  /** The next chapter is the least planned number beyond this one. */
  lemma {:induction false} NextIsLeast(numbers: seq<int>, no: int)
    requires Sorted(numbers)
    ensures NextAfter(numbers, no).None? ==> forall m :: m in numbers ==> m <= no
    ensures NextAfter(numbers, no).Some? ==>
      var next := NextAfter(numbers, no).value; next in numbers && next > no && forall m :: m in numbers && m > no ==> m >= next
  {
    if numbers != [] && numbers[0] <= no {
      NextIsLeast(numbers[1..], no);
      assert forall m :: m in numbers ==> m == numbers[0] || m in numbers[1..];
    }
  }

  lemma {:induction false} FirstPlan(events: seq<BatchEvent>)
    requires events != [] && events[0].Planned? && forall k :: 0 < k < |events| ==> !events[k].Planned?
    ensures Plan(events) == Some(events[0].numbers) && (Ended(events) <==> |events| > 1)
  {
    if |events| > 1 {
      FirstPlan(events[..|events| - 1]);
      assert !events[1].Planned?;
    }
  }

  lemma PlanOf(b: Batch)
    requires Safe(b) && b.events != []
    ensures Plan(b.events) == Some(b.events[0].numbers)
    ensures Ended(b.events) <==> |b.events| > 1
  {
    FirstPlan(b.events);
  }

  lemma PlanStep(b: Batch, numbers: seq<int>, limit: Option<nat>, work: bool, outcome: Dispatch)
    requires Safe(b) && Sorted(numbers)
    ensures Safe(PlanAfterAnalyze(b, numbers, limit, work, outcome))
  {
    if b.events == [] {
      PlanSorted(numbers, limit);
    } else {
      PlanOf(b);
    }
  }

  lemma AdvanceStep(b: Batch, no: int, status: RunStatus, work: bool, outcome: Dispatch)
    requires Safe(b) && no in b.runs && status in b.runs[no].reached
    ensures Safe(AdvanceAfterChapter(b, no, status, work, outcome))
  {
    if b.events != [] {
      PlanOf(b);
      var next := NextAfter(b.events[0].numbers, no);
      NextIsLeast(b.events[0].numbers, no);
      if status != RunCancelled && next.Some? && next.value !in b.runs && !Ended(b.events) {
        assert Passed(b.runs[no]);
        NextDispatchSafe(b, no, next.value, outcome);
      }
    }
  }

  lemma NextDispatchSafe(b: Batch, no: int, next: int, outcome: Dispatch)
    requires Safe(b) && b.events != [] && |b.events| == 1 && no in b.runs && Passed(b.runs[no])
    requires next in b.events[0].numbers && next !in b.runs && no < next
    requires forall m :: m in b.events[0].numbers && m > no ==> m >= next
    ensures Safe(DispatchChapter(b, next, outcome))
  {}

  lemma PassedKept(before: map<int, ChapterRun>, after: map<int, ChapterRun>, numbers: seq<int>)
    requires PrefixOf(before, numbers) && before.Keys == after.Keys
    requires forall p :: p in before ==> before[p].reached <= after[p].reached
    ensures PrefixOf(after, numbers)
  {
    forall p | p in before && Passed(before[p])
      ensures Passed(after[p])
    {
      var s :| s in before[p].reached && s != RunCancelled;
      assert s in after[p].reached;
    }
  }

  lemma MoveStep(b: Batch, step: Step)
    requires Safe(b) && Enabled(b, step) && !step.PlanHook? && !step.AdvanceHook?
    ensures Safe(Next(b, step))
  {
    var b' := Next(b, step);
    if b.events != [] {
      assert b'.runs.Keys == b.runs.Keys;
      PassedKept(b.runs, b'.runs, b.events[0].numbers);
    }
  }

  lemma {:induction false} AlwaysSafe(states: seq<Batch>, steps: seq<Step>, i: nat)
    requires Execution(states, steps) && i <= |steps|
    ensures Safe(states[i])
  {
    if i > 0 {
      AlwaysSafe(states, steps, i - 1);
      var b, step := states[i - 1], steps[i - 1];
      match step
      case PlanHook(numbers, limit, work, outcome) => PlanStep(b, numbers, limit, work, outcome);
      case AdvanceHook(no, status, work, outcome) => AdvanceStep(b, no, status, work, outcome);
      case _ => MoveStep(b, step);
    }
  }

  // ---------------------------------------------------------------- what that means

  /** In every reachable state: the chapters that have a run are the planned numbers
      up to some cut, each with one run, and each of them but the last ended
      without being cancelled before its successor was created; there is at most
      one plan, and behind the first end nothing but late stalls. */
  lemma ChaptersFormAPrefix(states: seq<Batch>, steps: seq<Step>, i: nat) returns (numbers: seq<int>, cut: int)
    requires Execution(states, steps) && i <= |steps|
    ensures Sorted(numbers) && (states[i].events == [] ==> numbers == [])
    ensures states[i].events != [] ==> states[i].events[0] == Planned(numbers)
    ensures forall k :: 0 < k < |states[i].events| ==> !states[i].events[k].Planned?
    ensures forall k :: 1 < k < |states[i].events| ==> states[i].events[k].BatchStalled? && states[i].events[k].no in states[i].runs
    ensures forall m :: m in states[i].runs <==> m in numbers && m <= cut
    ensures forall m :: m in numbers && m < cut ==> m in states[i].runs && Passed(states[i].runs[m])
  {
    AlwaysSafe(states, steps, i);
    numbers, cut := [], 0;
    if states[i].events != [] {
      numbers := states[i].events[0].numbers;
      if exists m :: m in states[i].runs.Keys {
        cut := Greatest(states[i].runs.Keys);
      } else {
        cut := numbers[0] - 1;
      }
    }
  }

  lemma {:induction false} Greatest(keys: set<int>) returns (top: int)
    requires exists k :: k in keys
    ensures top in keys && forall k :: k in keys ==> k <= top
  {
    top :| top in keys;
    if exists k :: k in keys - {top} {
      var rest := Greatest(keys - {top});
      assert forall m :: m in keys ==> m == top || m in keys - {top};
      top := if top > rest then top else rest;
    } else {
      assert forall m :: m in keys ==> m == top || m in keys - {top};
    }
  }

  /** Once the batch has ended no chapter run is ever added, and no event but the stall
      of a chapter that was created before. */
  lemma {:induction false} NothingAfterTheEnd(states: seq<Batch>, steps: seq<Step>, i: nat, j: nat)
    requires Execution(states, steps) && i <= j <= |steps| && Ended(states[i].events)
    ensures states[j].runs.Keys == states[i].runs.Keys && states[j].enqueues <= states[i].enqueues
    ensures states[i].events <= states[j].events
    ensures forall k :: |states[i].events| <= k < |states[j].events| ==>
      states[j].events[k].BatchStalled? && states[j].events[k].no in states[i].enqueues
    decreases j - i
  {
    if i < j {
      AfterEndStep(states[i], steps[i]);
      NothingAfterTheEnd(states, steps, i + 1, j);
    }
  }

  lemma AfterEndStep(b: Batch, step: Step)
    requires Ended(b.events) && Enabled(b, step)
    ensures var b' := Next(b, step);
      && Ended(b'.events) && b'.runs.Keys == b.runs.Keys && b'.enqueues <= b.enqueues
      && b'.events == if step.EnqueueFails? then b.events + [BatchStalled(step.no)] else b.events
  {
    var k :| 0 <= k < |b.events| && !b.events[k].Planned?;
    assert !Next(b, step).events[k].Planned?;
  }

  /** Whatever happens from b on, the log of the batch stays. */
  ghost predicate LogStays(b: Batch) {
    forall states: seq<Batch>, steps, j: nat :: Chain(states, steps) && states[0] == b && j <= |steps| ==>
      states[j].events == b.events
  }

  lemma {:induction false} QuietAfterEnd(states: seq<Batch>, steps: seq<Step>, j: nat)
    requires Chain(states, steps) && j <= |steps| && Ended(states[0].events) && states[0].enqueues == {}
    ensures states[j].events == states[0].events && states[j].enqueues == {}
  {
    if j > 0 {
      QuietAfterEnd(states, steps, j - 1);
      AfterEndStep(states[j - 1], steps[j - 1]);
    }
  }

  /** The end of a reachable batch is its last entry exactly when no chapter waits for
      its enqueue any more. */
  lemma EndIsLastExactly(states: seq<Batch>, steps: seq<Step>, i: nat)
    requires Execution(states, steps) && i <= |steps| && Ended(states[i].events)
    ensures LogStays(states[i]) <==> states[i].enqueues == {}
  {
    var b := states[i];
    AlwaysSafe(states, steps, i);
    if forall no: int :: no !in b.enqueues {
      assert b.enqueues == {};
      forall more: seq<Batch>, next, j: nat | Chain(more, next) && more[0] == b && j <= |next|
        ensures more[j].events == b.events
      {
        QuietAfterEnd(more, next, j);
      }
    } else {
      var no: int :| no in b.enqueues;
      var more := [b, Next(b, EnqueueFails(no))];
      assert Chain(more, [EnqueueFails(no)]) && more[0] == b && more[1].events != b.events;
    }
  }

  const TWO_ENDS := [PlanHook([1, 2], None, true, Created), RunMoves(1, RunCancelled),
                     AdvanceHook(1, RunCancelled, true, Created), EnqueueFails(1)]

  /** A batch with two ends.  The enqueue of chapter 1 hangs behind the commit of its run;
      meanwhile a pause and a resume enqueue that run a second time, an executor takes
      this delivery, the run is cancelled, and the executor's hook terminates the batch.
      Only then the first enqueue fails and stalls it. */
  lemma EndsTwice() returns (states: seq<Batch>)
    ensures Execution(states, TWO_ENDS)
    ensures states[4].events == [Planned([1, 2]), BatchTerminated, BatchStalled(1)]
  {
    var s1 := Next(START, TWO_ENDS[0]);
    assert s1.events == [Planned([1, 2])] && s1.runs == map[1 := ChapterRun(RunPending, {}, false)];
    var s2 := Next(s1, TWO_ENDS[1]);
    assert RunCancelled in END_STATUSES && s2.runs[1].reached == {RunCancelled};
    var s3 := Next(s2, TWO_ENDS[2]);
    FirstPlan(s2.events);
    assert s3.events == [Planned([1, 2]), BatchTerminated];
    states := [START, s1, s2, s3, Next(s3, TWO_ENDS[3])];
  }

  /** A chapter run is created only by the hook of the plan or of the planned chapter
      right before it, which had ended without being cancelled. */
  lemma CreatedAfterPredecessor(states: seq<Batch>, steps: seq<Step>, i: nat, m: int)
    requires Execution(states, steps) && i < |steps| && m !in states[i].runs && m in states[i + 1].runs
    ensures !Ended(states[i].events)
    ensures steps[i].PlanHook? ==> states[i].events == [] && states[i].runs == map[]
    ensures !steps[i].PlanHook? ==>
      && steps[i].AdvanceHook? && steps[i].status != RunCancelled && steps[i].status in states[i].runs[steps[i].no].reached
      && Plan(states[i].events).Some? && NextAfter(Plan(states[i].events).value, steps[i].no) == Some(m)
  {
    AlwaysSafe(states, steps, i);
    if states[i].events != [] {
      PlanOf(states[i]);
    }
  }

  /** Dispatching ends the batch exactly when creating the run was refused, and otherwise
      leaves one more chapter waiting for its enqueue. */
  lemma DispatchOutcome(b: Batch, no: int, outcome: Dispatch)
    requires Safe(b) && !Ended(b.events) && no !in b.runs
    ensures var b' := DispatchChapter(b, no, outcome);
      && (Ended(b'.events) <==> outcome.Refused?)
      && (forall m :: m in b'.runs <==> m in b.runs || (m == no && outcome.Created?))
      && (forall m :: m in b'.enqueues <==> m in b.enqueues || (m == no && outcome.Created?))
      && (forall m :: m in b.runs ==> b'.runs[m] == b.runs[m])
  {
    var b' := DispatchChapter(b, no, outcome);
    if outcome.Refused? {
      assert !b'.events[|b.events|].Planned?;
    }
  }

  // ---------------------------------------------------------------- the closing summary

  function Counted(s: Summary): multiset<int> {
    multiset(s.succeeded) + multiset(s.skipped) + multiset(s.writebackMissing) + multiset(s.undispatched)
  }

  lemma FiledOnce(s: Summary, runs: map<int, ChapterRun>, no: int)
    ensures Counted(Filed(s, runs, no)) == Counted(s) + multiset{no}
  {}

  /** Every planned number lands in exactly one list. */
  lemma {:induction false} SummaryPartitions(numbers: seq<int>, runs: map<int, ChapterRun>)
    ensures Counted(Summarize(numbers, runs)) == multiset(numbers)
  {
    if numbers != [] {
      var rest, no := numbers[..|numbers| - 1], numbers[|numbers| - 1];
      SummaryPartitions(rest, runs);
      assert numbers == rest + [no];
      FiledOnce(Summarize(rest, runs), runs, no);
    }
  }

  /** And it is the list its run asks for. */
  lemma {:induction false} SummaryClassifies(numbers: seq<int>, runs: map<int, ChapterRun>)
    ensures var s := Summarize(numbers, runs);
      && (forall n :: n in s.succeeded ==> Succeeded(runs, n)) && (forall n :: n in s.skipped ==> Skipped(runs, n))
      && (forall n :: n in s.writebackMissing ==> Missing(runs, n)) && (forall n :: n in s.undispatched ==> n in numbers && n !in runs)
  {
    if numbers != [] {
      SummaryClassifies(numbers[..|numbers| - 1], runs);
    }
  }

  lemma AllDispatched(numbers: seq<int>, runs: map<int, ChapterRun>)
    requires forall n :: n in numbers ==> n in runs
    ensures Summarize(numbers, runs).undispatched == []
  {
    SummaryClassifies(numbers, runs);
    var s := Summarize(numbers, runs);
    assert forall k :: 0 <= k < |s.undispatched| ==> s.undispatched[k] in s.undispatched;
  }

  /** When batch.completed is written, every planned chapter is counted exactly once
      as succeeded, skipped or missing its write-back, and none is undispatched. */
  lemma CompletedAccountsForAll(states: seq<Batch>, steps: seq<Step>, i: nat)
    requires Execution(states, steps) && i < |steps|
    requires |states[i].events| < |states[i + 1].events| && states[i + 1].events[|states[i].events|].BatchCompleted?
    ensures states[i].events != [] && states[i].events[0].Planned?
    ensures var s, numbers := states[i + 1].events[|states[i].events|].summary, states[i].events[0].numbers;
      && s == Summarize(numbers, states[i].runs) && s.undispatched == []
      && multiset(s.succeeded) + multiset(s.skipped) + multiset(s.writebackMissing) == multiset(numbers)
  {
    AlwaysSafe(states, steps, i);
    AlwaysSafe(states, steps, i + 1);
    var b := states[i];
    PlanOf(b);
    var numbers := b.events[0].numbers;
    NextIsLeast(numbers, steps[i].no);
    assert NextAfter(numbers, steps[i].no).None? && steps[i].no in b.runs;
    AllDispatched(numbers, b.runs);
    SummaryPartitions(numbers, b.runs);
  }
}
