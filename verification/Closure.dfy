/** For one executor on a fresh graph: whatever is done has all its dependencies
    done, in every state, through both gates. */
module Closure {
  import opened RunModel
  import opened TaskGraph
  import opened Executor
  import opened RowEffects
  import opened RunStates
  import opened Progress

  const STAGE: set<string> := {"review_council", "merge", "rewrite", "recheck"}

  /** A revise-stage row depends on the stage and the reviews only, and cannot
      start before every review is done. */
  ghost predicate StageRow(tasks: seq<Task>, task: Task) {
    && (forall d :: d in task.deps ==> d in STAGE || d in REVIEW_KEYS)
    && ((exists d :: d in task.deps && d in STAGE)
        || forall j :: 0 <= j < |tasks| && IsReview(tasks[j]) ==> tasks[j].key in task.deps)
  }

  /** What the gates need of a graph. */
  ghost predicate Shape(tasks: seq<Task>) {
    && UniqueKeys(tasks) && DepsExist(tasks)
    && (forall i :: 0 <= i < |tasks| && tasks[i].key in STAGE ==> StageRow(tasks, tasks[i]))
    && (forall i :: 0 <= i < |tasks| && "rewrite" in tasks[i].deps ==> tasks[i].key == "recheck")
    && (forall i :: 0 <= i < |tasks| && "recheck" in tasks[i].deps ==> tasks[i].key !in STAGE)
  }

  ghost predicate DepClosed(tasks: seq<Task>) {
    forall i, d :: 0 <= i < |tasks| && Done(tasks[i].status) && d in tasks[i].deps ==> d in DoneKeys(tasks)
  }

  /** Before the first gate, the revise stage has not begun. */
  ghost predicate Untouched(tasks: seq<Task>, x: Exec) {
    !x.gateEvaluated && Find(tasks, "merge").Some? && (exists i :: 0 <= i < |tasks| && IsReview(tasks[i])) ==>
      forall i :: 0 <= i < |tasks| && tasks[i].key in STAGE ==> tasks[i].status.TaskPending?
  }

  /** Before the final gate, nothing behind recheck has begun. */
  ghost predicate Unfinal(tasks: seq<Task>, x: Exec) {
    !x.finalGateDone && Find(tasks, "rewrite").Some? && Find(tasks, "recheck").Some?
    && !tasks[Find(tasks, "recheck").value].status.TaskSkipped? ==>
      forall i :: 0 <= i < |tasks| && "recheck" in tasks[i].deps ==> tasks[i].status.TaskPending?
  }

  /** The executor's batch is what is RUNNING, under its own lease. */
  ghost predicate Owned(tasks: seq<Task>, inflight: set<TaskId>, e: ExecId) {
    && (forall i: TaskId :: i in inflight ==> i < |tasks|)
    && (forall i: TaskId :: i < |tasks| ==> (tasks[i].status.TaskRunning? <==> i in inflight))
    && (forall i: TaskId :: i in inflight ==> tasks[i].lease == Some(e))
    && (forall i: TaskId, d :: i in inflight && d in tasks[i].deps ==> d in DoneKeys(tasks))
  }

  ghost predicate Alone(tasks: seq<Task>, x: Exec, e: ExecId) {
    Untouched(tasks, x) && Unfinal(tasks, x) && Owned(tasks, x.inflight.Keys, e)
  }

  // ---------------------------------------------------------------- small facts

  lemma {:induction false} FindUnique(tasks: seq<Task>, i: nat)
    requires UniqueKeys(tasks) && i < |tasks|
    ensures Find(tasks, tasks[i].key) == Some(i)
  {
    var last := |tasks| - 1;
    if i < last {
      assert tasks[i].key != tasks[last].key;
      FindUnique(tasks[..last], i);
    }
  }

  lemma DoneKey(tasks: seq<Task>, d: string)
    ensures d in DoneKeys(tasks) <==> exists i :: 0 <= i < |tasks| && tasks[i].key == d && Done(tasks[i].status)
  {}

  lemma ShapeKept(before: seq<Task>, after: seq<Task>)
    requires Shape(before) && SameGraph(before, after) && |before| == |after|
    ensures Shape(after)
  {
    forall i, d | 0 <= i < |after| && d in after[i].deps
      ensures HasKey(after, d)
    {
      assert HasKey(before, d);
      var j :| 0 <= j < |before| && before[j].key == d;
      assert after[j].key == d;
    }
    forall i | 0 <= i < |after| && after[i].key in STAGE
      ensures StageRow(after, after[i])
    {
      assert StageRow(before, before[i]);
    }
  }

  /** Rows done before are done after, and new ones have their dependencies done. */
  lemma ClosedByNewRows(before: seq<Task>, after: seq<Task>)
    requires DepClosed(before) && SameGraph(before, after) && |before| == |after|
    requires forall i :: 0 <= i < |before| && Done(before[i].status) ==> Done(after[i].status)
    requires forall i, d :: 0 <= i < |after| && Done(after[i].status) && !Done(before[i].status) && d in after[i].deps ==> d in DoneKeys(after)
    ensures DepClosed(after)
  {
    forall i, d | 0 <= i < |after| && Done(after[i].status) && d in after[i].deps
      ensures d in DoneKeys(after)
    {
      if Done(before[i].status) {
        assert d in DoneKeys(before);
      }
    }
  }

  // ---------------------------------------------------------------- the first gate

  lemma SkipRows(r: Run, i: nat)
    requires UniqueKeys(r.tasks) && i < |r.tasks|
    requires r.tasks[i].key in STAGE ==> r.tasks[i].status.TaskPending?
    ensures SkipStage(r, REVISE_STAGE).tasks[i] == if r.tasks[i].key in STAGE then r.tasks[i].(status := TaskSkipped) else r.tasks[i]
  {
    FindUnique(r.tasks, i);
    SkippedExactly(r, REVISE_STAGE, i);
    assert REVISE_STAGE == ["review_council", "merge", "rewrite", "recheck"];
  }

  /** A passed gate skips the whole stage, over finished reviews. */
  lemma GateCloses(r: Run, x: Exec, e: ExecId)
    requires Shape(r.tasks) && DepClosed(r.tasks) && Alone(r.tasks, x, e) && x.inflight == map[]
    requires !x.gateEvaluated && GateDue(r.tasks)
    ensures var g := Gate(r, x, true); DepClosed(g.run.tasks) && Alone(g.run.tasks, g.exec, e)
  {
    var r1 := AddEvent(r, GateEvaluated(true));
    var after := SkipStage(r1, REVISE_STAGE).tasks;
    forall i | 0 <= i < |after|
      ensures after[i] == if r.tasks[i].key in STAGE then r.tasks[i].(status := TaskSkipped) else r.tasks[i]
    {
      SkipRows(r1, i);
    }
    StageSkipped(r.tasks, after);
  }

  lemma StageSkipped(before: seq<Task>, after: seq<Task>)
    requires Shape(before) && DepClosed(before) && ReviewsDone(before) && |before| == |after|
    requires forall i :: 0 <= i < |before| && before[i].key in STAGE ==> before[i].status.TaskPending?
    requires forall i :: 0 <= i < |before| ==> after[i] == if before[i].key in STAGE then before[i].(status := TaskSkipped) else before[i]
    ensures DepClosed(after)
  {
    forall i, d | 0 <= i < |after| && Done(after[i].status) && !Done(before[i].status) && d in after[i].deps
      ensures d in DoneKeys(after)
    {
      assert StageRow(before, before[i]) && HasKey(before, d);
      var j :| 0 <= j < |before| && before[j].key == d;
      assert after[j].key == d && Done(after[j].status);
    }
    ClosedByNewRows(before, after);
  }

  // ---------------------------------------------------------------- the final gate

  /** A done row that depends on one of the rows a reset re-opens. */
  predicate DoneBehindReset(task: Task) {
    Done(task.status) && task.key != "rewrite" && task.key != "recheck" && ("rewrite" in task.deps || "recheck" in task.deps)
  }

  /** The rows of a reset: rewrite and recheck are open again, the others untouched. */
  ghost predicate ResetRows(before: seq<Task>, after: seq<Task>) {
    && |before| == |after| && SameGraph(before, after)
    && forall i :: 0 <= i < |before| ==>
      if before[i].key == "rewrite" || before[i].key == "recheck" then after[i].status.TaskPending? else after[i] == before[i]
  }

  lemma FinalGateResets(r: Run, x: Exec, verdict: bool)
    requires UniqueKeys(r.tasks) && FinalGate(r, x, verdict).again
    ensures ResetRows(r.tasks, FinalGate(r, x, verdict).run.tasks)
    ensures HasKey(r.tasks, "rewrite") && HasKey(r.tasks, "recheck")
  {
    forall i | 0 <= i < |r.tasks|
      ensures Find(r.tasks, r.tasks[i].key) == Some(i)
    {
      FindUnique(r.tasks, i);
    }
  }

  lemma KeptDone(before: seq<Task>, after: seq<Task>, d: string)
    requires ResetRows(before, after)
    ensures d in DoneKeys(after) <==> d in DoneKeys(before) && d != "rewrite" && d != "recheck"
  {
    DoneKey(before, d);
    DoneKey(after, d);
  }

  lemma ResetClosesExactly(before: seq<Task>, after: seq<Task>)
    requires DepClosed(before) && ResetRows(before, after)
    ensures DepClosed(after) <==> forall i :: 0 <= i < |before| ==> !DoneBehindReset(before[i])
  {
    KeptDone(before, after, "rewrite");
    KeptDone(before, after, "recheck");
    if i :| 0 <= i < |before| && DoneBehindReset(before[i]) {
      assert after[i] == before[i];
    } else {
      forall i, d | 0 <= i < |after| && Done(after[i].status) && d in after[i].deps
        ensures d in DoneKeys(after)
      {
        assert after[i] == before[i] && !DoneBehindReset(before[i]);
        KeptDone(before, after, d);
      }
    }
  }

  /** Re-opening rewrite and recheck keeps everything done dependency-closed exactly when
      no other done row depends on either of them. */
  lemma ReopensExactly(r: Run, x: Exec, verdict: bool)
    requires UniqueKeys(r.tasks) && DepClosed(r.tasks) && FinalGate(r, x, verdict).again
    ensures DepClosed(FinalGate(r, x, verdict).run.tasks) <==> forall i :: 0 <= i < |r.tasks| ==> !DoneBehindReset(r.tasks[i])
  {
    FinalGateResets(r, x, verdict);
    ResetClosesExactly(r.tasks, FinalGate(r, x, verdict).run.tasks);
  }

  /** A reset undoes rewrite and recheck before anything depends on them. */
  lemma FinalGateCloses(r: Run, x: Exec, verdict: bool, e: ExecId)
    requires Shape(r.tasks) && DepClosed(r.tasks) && Alone(r.tasks, x, e) && x.inflight == map[]
    requires FinalGate(r, x, verdict).again
    ensures var f := FinalGate(r, x, verdict); DepClosed(f.run.tasks) && Alone(f.run.tasks, f.exec, e)
  {
    var f := FinalGate(r, x, verdict);
    FinalGateResets(r, x, verdict);
    ReopensExactly(r, x, verdict);
    assert x.inflight.Keys == {};
    ResetAlone(r.tasks, f.run.tasks, x, f.exec, e);
  }

  lemma ResetAlone(before: seq<Task>, after: seq<Task>, x: Exec, x': Exec, e: ExecId)
    requires Untouched(before, x) && Owned(before, {}, e) && x'.inflight == map[]
    requires x'.gateEvaluated == x.gateEvaluated && |before| == |after| && SameGraph(before, after)
    requires forall i :: 0 <= i < |before| ==> after[i] == before[i] || after[i].status.TaskPending?
    requires forall i :: 0 <= i < |before| && "recheck" in before[i].deps ==> before[i].status.TaskPending?
    ensures Alone(after, x', e)
  {
    ResetUntouched(before, after, x, x');
    ResetUnfinal(before, after, x');
    ResetOwned(before, after, e);
    assert x'.inflight.Keys == {};
  }

  lemma ResetOwned(before: seq<Task>, after: seq<Task>, e: ExecId)
    requires Owned(before, {}, e) && |before| == |after|
    requires forall i :: 0 <= i < |before| ==> after[i] == before[i] || after[i].status.TaskPending?
    ensures Owned(after, {}, e)
  {}

  lemma ResetUntouched(before: seq<Task>, after: seq<Task>, x: Exec, x': Exec)
    requires Untouched(before, x) && x'.gateEvaluated == x.gateEvaluated && |before| == |after| && SameGraph(before, after)
    requires forall i :: 0 <= i < |before| ==> after[i] == before[i] || after[i].status.TaskPending?
    ensures Untouched(after, x')
  {
    FindSameKeys(before, after, "merge");
    ReviewRows(before, after);
  }

  lemma ResetUnfinal(before: seq<Task>, after: seq<Task>, x': Exec)
    requires |before| == |after| && SameGraph(before, after)
    requires forall i :: 0 <= i < |before| ==> after[i] == before[i] || after[i].status.TaskPending?
    requires forall i :: 0 <= i < |before| && "recheck" in before[i].deps ==> before[i].status.TaskPending?
    ensures Unfinal(after, x')
  {
    forall i | 0 <= i < |after| && "recheck" in after[i].deps
      ensures after[i].status.TaskPending?
    {
      assert "recheck" in before[i].deps;
    }
  }

  lemma ReviewRows(before: seq<Task>, after: seq<Task>)
    requires SameGraph(before, after) && |before| == |after|
    ensures (exists i :: 0 <= i < |before| && IsReview(before[i])) <==> exists i :: 0 <= i < |after| && IsReview(after[i])
  {
    if i :| 0 <= i < |before| && IsReview(before[i]) {
      assert IsReview(after[i]);
    }
    if i :| 0 <= i < |after| && IsReview(after[i]) {
      assert IsReview(before[i]);
    }
  }

  // ---------------------------------------------------------------- claims

  /** While the gate is not due, no stage row is ready. */
  lemma StageNotReady(tasks: seq<Task>, x: Exec, i: nat) returns (d: string)
    requires Shape(tasks) && Untouched(tasks, x) && !x.gateEvaluated && !GateDue(tasks)
    requires Find(tasks, "merge").Some? && exists j :: 0 <= j < |tasks| && IsReview(tasks[j])
    requires i < |tasks| && tasks[i].key in STAGE
    ensures d in tasks[i].deps && d !in DoneKeys(tasks)
  {
    assert StageRow(tasks, tasks[i]);
    if exists d :: d in tasks[i].deps && d in STAGE {
      d :| d in tasks[i].deps && d in STAGE;
      PendingStageKey(tasks, d);
    } else {
      var j := OpenReview(tasks);
      d := tasks[j].key;
      NotDoneKey(tasks, j);
    }
  }

  lemma OpenReview(tasks: seq<Task>) returns (j: nat)
    requires !GateDue(tasks) && Find(tasks, "merge").Some? && tasks[Find(tasks, "merge").value].status.TaskPending?
    requires exists i :: 0 <= i < |tasks| && IsReview(tasks[i])
    ensures j < |tasks| && IsReview(tasks[j]) && !Done(tasks[j].status)
  {
    j :| j < |tasks| && IsReview(tasks[j]) && !Done(tasks[j].status);
  }

  lemma NotDoneKey(tasks: seq<Task>, j: nat)
    requires UniqueKeys(tasks) && j < |tasks| && !Done(tasks[j].status)
    ensures tasks[j].key !in DoneKeys(tasks)
  {
    DoneKey(tasks, tasks[j].key);
  }

  lemma PendingStageKey(tasks: seq<Task>, d: string)
    requires d in STAGE && forall i :: 0 <= i < |tasks| && tasks[i].key in STAGE ==> tasks[i].status.TaskPending?
    ensures d !in DoneKeys(tasks)
  {
    DoneKey(tasks, d);
  }

  /** How the gates' flags stand when an iteration gets past them. */
  ghost predicate GatesPassed(tasks: seq<Task>, x: Exec, x': Exec) {
    && (x.gateEvaluated || GateDue(tasks) ==> x'.gateEvaluated)
    && (x.finalGateDone ==> x'.finalGateDone)
    && (Find(tasks, "rewrite").Some? && Find(tasks, "recheck").Some? && tasks[Find(tasks, "recheck").value].status.TaskSucceeded?
        ==> x'.finalGateDone)
  }

  lemma GateFlags(r: Run, x: Exec, gate: bool, finalGate: bool)
    requires !Gate(r, x, gate).again && !FinalGate(Gate(r, x, gate).run, Gate(r, x, gate).exec, finalGate).again
    ensures GatesPassed(r.tasks, x, FinalGate(Gate(r, x, gate).run, Gate(r, x, gate).exec, finalGate).exec)
  {}

  lemma ScanFlags(base: Run, r: Run, x: Exec, e: ExecId, now: int, input: TickInput)
    ensures var x' := Scan(base, r, x, e, now, input).exec;
      x'.gateEvaluated == x.gateEvaluated && x'.finalGateDone == x.finalGateDone
      && (Scan(base, r, x, e, now, input).next.Again? ==> x' == x)
  {}

  lemma UntouchedByBatch(base: seq<Task>, r: Run, x: Exec, x': Exec, inflight: set<TaskId>, e: ExecId)
    requires Shape(base) && Alone(base, x, e) && GatesPassed(base, x, x') && Handed(base, r, inflight, e)
    ensures Untouched(r.tasks, x')
  {
    FindSameKeys(base, r.tasks, "merge");
    if !x'.gateEvaluated && Find(base, "merge").Some? && exists i :: 0 <= i < |base| && IsReview(r.tasks[i]) {
      var j :| 0 <= j < |base| && IsReview(r.tasks[j]);
      assert IsReview(base[j]);
      forall i | 0 <= i < |base| && base[i].key in STAGE
        ensures r.tasks[i].status.TaskPending?
      {
        var d := StageNotReady(base, x, i);
      }
    }
  }

  lemma UnfinalByBatch(base: seq<Task>, r: Run, x: Exec, x': Exec, inflight: set<TaskId>, e: ExecId)
    requires Shape(base) && Alone(base, x, e) && GatesPassed(base, x, x') && Handed(base, r, inflight, e)
    ensures Unfinal(r.tasks, x')
  {
    FindSameKeys(base, r.tasks, "rewrite");
    FindSameKeys(base, r.tasks, "recheck");
    if !x'.finalGateDone && Find(base, "rewrite").Some? && Find(base, "recheck").Some? {
      var recheck := Find(base, "recheck").value;
      if !r.tasks[recheck].status.TaskSkipped? {
        NotDoneKey(base, recheck);
      }
    }
  }

  /** Claiming ready rows keeps the books. */
  lemma BatchAlone(base: seq<Task>, r: Run, x: Exec, x': Exec, e: ExecId)
    requires Shape(base) && DepClosed(base) && Alone(base, x, e) && x.inflight == map[]
    requires GatesPassed(base, x, x') && Handed(base, r, x'.inflight.Keys, e)
    ensures DepClosed(r.tasks) && Alone(r.tasks, x', e)
  {
    UntouchedByBatch(base, r, x, x', x'.inflight.Keys, e);
    UnfinalByBatch(base, r, x, x', x'.inflight.Keys, e);
    SameDoneRows(base, r.tasks);
  }

  lemma SameDoneRows(before: seq<Task>, after: seq<Task>)
    requires DepClosed(before) && SameGraph(before, after) && |before| == |after|
    requires forall i :: 0 <= i < |before| ==> (Done(before[i].status) <==> Done(after[i].status))
    ensures DepClosed(after) && DoneKeys(before) == DoneKeys(after)
  {
    forall d
      ensures d in DoneKeys(before) <==> d in DoneKeys(after)
    {
      DoneKey(before, d);
      DoneKey(after, d);
    }
    assert DoneKeys(before) == DoneKeys(after);
  }

  // ---------------------------------------------------------------- one iteration

  /** Flags that were only turned on keep what they guarded. */
  lemma AloneWithFlags(tasks: seq<Task>, x: Exec, x': Exec, e: ExecId)
    requires Alone(tasks, x, e) && x'.inflight == x.inflight
    requires (x.gateEvaluated ==> x'.gateEvaluated) && (x.finalGateDone ==> x'.finalGateDone)
    ensures Alone(tasks, x', e)
  {}

  lemma BatchDoneRows(r: Run, x: Exec, e: ExecId, now: int, input: TickInput)
    ensures var after := ClaimBatch(r, x, ReadyFrom(r.tasks, now, 0), e, now, input).run.tasks;
      |after| == |r.tasks| && SameGraph(r.tasks, after)
      && forall i :: 0 <= i < |after| ==> (Done(r.tasks[i].status) <==> Done(after[i].status))
  {
    var ready := ReadyFrom(r.tasks, now, 0);
    BatchRows(r, e, now, input.cap, x.ledger);
    var c := ClaimFrom(r, ready, 0, e, now, input.cap, x.ledger, []);
    StartBatchRows(c.run, x, c.claimed, input);
    forall i | 0 <= i < |r.tasks| && i in ready
      ensures r.tasks[i].status.TaskPending?
    {
      var j :| 0 <= j < |ready| && ready[j] == i;
      assert Ready(r.tasks, ready[j], now);
    }
    ClaimedDoneRows(r.tasks, c, ready, e, now, input.cap, r);
  }

  lemma ClaimedDoneRows(base: seq<Task>, c: ClaimResult, ready: seq<TaskId>, e: ExecId, now: int, cap: nat, r: Run)
    requires ClaimRowsResult(base, r, ready, e, now, cap, c)
    requires forall i :: 0 <= i < |base| && i in ready ==> base[i].status.TaskPending?
    ensures |c.run.tasks| == |base| && SameGraph(base, c.run.tasks)
    ensures forall i :: 0 <= i < |base| ==> (Done(base[i].status) <==> Done(c.run.tasks[i].status))
    ensures forall i :: 0 <= i < |base| && i in c.claimed ==> !Done(c.run.tasks[i].status)
  {
    forall i | 0 <= i < |base| && i in c.claimed
      ensures i in ready
    {
      var j :| 0 <= j < |c.claimed| && c.claimed[j] == i;
      assert ready[j] == i;
    }
  }

  lemma ScanCloses(base: Run, r: Run, x: Exec, e: ExecId, now: int, input: TickInput)
    requires base.tasks == r.tasks && DepClosed(r.tasks)
    ensures DepClosed(Scan(base, r, x, e, now, input).run.tasks)
  {
    ScanCases(base, r, x, e, now, input);
    BatchDoneRows(r, x, e, now, input);
    SameDoneRows(r.tasks, ClaimBatch(r, x, ReadyFrom(r.tasks, now, 0), e, now, input).run.tasks);
  }

  lemma SleepKeepsRows(base: Run, r: Run, x: Exec, e: ExecId, now: int, input: TickInput)
    requires base.tasks == r.tasks && Scan(base, r, x, e, now, input).next.Again?
    ensures Scan(base, r, x, e, now, input).run.tasks == r.tasks && Scan(base, r, x, e, now, input).exec == x
  {
    ScanCases(base, r, x, e, now, input);
  }

  lemma GateStageCloses(r: Run, x: Exec, verdict: bool, e: ExecId)
    requires Shape(r.tasks) && DepClosed(r.tasks) && Alone(r.tasks, x, e) && x.inflight == map[]
    ensures var g := Gate(r, x, verdict); DepClosed(g.run.tasks) && Alone(g.run.tasks, g.exec, e) && g.exec.inflight == map[]
  {
    var g := Gate(r, x, verdict);
    if g.again {
      GatesKeepRound(r, x, verdict);
      GateCloses(r, x, e);
    } else {
      GatesKeepRows(r, x, verdict);
      AloneWithFlags(r.tasks, x, g.exec, e);
    }
  }

  lemma FinalStageCloses(r: Run, x: Exec, verdict: bool, e: ExecId)
    requires Shape(r.tasks) && DepClosed(r.tasks) && Alone(r.tasks, x, e) && x.inflight == map[]
    ensures var f := FinalGate(r, x, verdict);
      && f.exec.inflight == map[] && f.run.status == r.status
      && (if f.again then DepClosed(f.run.tasks) && Alone(f.run.tasks, f.exec, e) else f.run.tasks == r.tasks)
  {
    GatesKeepRows(r, x, verdict);
    if FinalGate(r, x, verdict).again {
      FinalGateCloses(r, x, verdict, e);
    }
  }

  lemma NothingStale(r: Run, e: ExecId, now: int)
    requires Owned(r.tasks, {}, e)
    ensures !AnyStale(Begin(r).tasks, now)
  {}

  lemma TickCloses(r: Run, x: Exec, e: ExecId, now: int, input: TickInput)
    requires Shape(r.tasks) && DepClosed(r.tasks) && Alone(r.tasks, x, e) && x.inflight == map[] && input.cap > 0
    ensures var res := Tick(r, x, e, now, input);
      DepClosed(res.run.tasks) && (!res.next.Exit? ==> Alone(res.run.tasks, res.exec, e))
  {
    if Active(r.status) {
      var r1 := Begin(r);
      NothingStale(r, e, now);
      var g := Gate(r1, x, input.gate);
      GateStageCloses(r1, x, input.gate, e);
      if g.again {
        assert Tick(r, x, e, now, input) == TickResult(g.run, g.exec, Again);
      } else {
        GatesKeepRows(r1, x, input.gate);
        UngatedCloses(r, g.run, x, g.exec, e, now, input);
      }
    }
  }

  lemma UngatedCloses(r: Run, r1: Run, x: Exec, x1: Exec, e: ExecId, now: int, input: TickInput)
    requires Active(r.status) && r1 == Gate(Begin(r), x, input.gate).run && x1 == Gate(Begin(r), x, input.gate).exec
    requires !AnyStale(Begin(r).tasks, now) && !Gate(Begin(r), x, input.gate).again && r1.tasks == r.tasks
    requires Shape(r.tasks) && DepClosed(r.tasks) && Alone(r.tasks, x, e) && Alone(r.tasks, x1, e)
    requires x.inflight == map[] && x1.inflight == map[] && input.cap > 0
    ensures var res := Tick(r, x, e, now, input);
      DepClosed(res.run.tasks) && (!res.next.Exit? ==> Alone(res.run.tasks, res.exec, e))
  {
    var f := FinalGate(r1, x1, input.finalGate);
    FinalStageCloses(r1, x1, input.finalGate, e);
    if f.again {
      assert Tick(r, x, e, now, input) == TickResult(f.run, f.exec, Again);
    } else {
      GateFlags(Begin(r), x, input.gate, input.finalGate);
      var base := if f.committed then f.run else r;
      assert Tick(r, x, e, now, input) == Scan(base, f.run, f.exec, e, now, input);
      PassedCloses(r, base, f.run, x, f.exec, e, now, input);
    }
  }

  /** Past the gates. */
  lemma PassedCloses(r: Run, base: Run, r1: Run, x: Exec, x1: Exec, e: ExecId, now: int, input: TickInput)
    requires Shape(r.tasks) && DepClosed(r.tasks) && Alone(r.tasks, x, e) && x.inflight == map[] && input.cap > 0
    requires base.tasks == r.tasks && r1.tasks == r.tasks && r1.status.RunRunning? && x1.inflight == x.inflight
    requires GatesPassed(r.tasks, x, x1)
    ensures var res := Scan(base, r1, x1, e, now, input);
      DepClosed(res.run.tasks) && (!res.next.Exit? ==> Alone(res.run.tasks, res.exec, e))
  {
    var res := Scan(base, r1, x1, e, now, input);
    ScanCloses(base, r1, x1, e, now, input);
    ScanFlags(base, r1, x1, e, now, input);
    if res.next.Again? {
      SleepKeepsRows(base, r1, x1, e, now, input);
      AloneWithFlags(r.tasks, x, x1, e);
    } else if res.next.Work? {
      ScanCases(base, r1, x1, e, now, input);
      BatchHanded(r1, x1, e, now, input);
      BatchAlone(r.tasks, res.run, x, res.exec, e);
    }
  }

  // ---------------------------------------------------------------- one commit

  lemma SettledRow(r: Run, e: ExecId, t: TaskId, now: int, result: HandlerResult)
    requires t < |r.tasks| && r.tasks[t].lease == Some(e)
    ensures var r' := Settle(r, e, t, now, result);
      && |r'.tasks| == |r.tasks| && SameGraph(r.tasks, r'.tasks) && !r'.tasks[t].status.TaskRunning?
      && r'.tasks == r.tasks[t := r'.tasks[t]] && !r'.tasks[t].status.TaskSkipped?
  {}

  lemma SettleCloses(r: Run, x: Exec, e: ExecId, t: TaskId, now: int, result: HandlerResult)
    requires Shape(r.tasks) && DepClosed(r.tasks) && Alone(r.tasks, x, e) && t in x.inflight
    ensures var r' := Settle(r, e, t, now, result);
      DepClosed(r'.tasks) && Alone(r'.tasks, x.(inflight := x.inflight - {t}), e)
  {
    var after := Settle(r, e, t, now, result).tasks;
    SettledRow(r, e, t, now, result);
    RowFinished(r.tasks, after, t);
    OwnedLess(r.tasks, after, x.inflight.Keys, t, e);
    assert (x.inflight - {t}).Keys == x.inflight.Keys - {t};
    UnfinalRow(r.tasks, after, x, x.(inflight := x.inflight - {t}), t);
    UntouchedRow(r.tasks, after, x, x.(inflight := x.inflight - {t}), t);
  }

  /** One RUNNING row with finished dependencies is finished or given back. */
  lemma RowFinished(before: seq<Task>, after: seq<Task>, t: nat)
    requires DepClosed(before) && t < |before| && before[t].status.TaskRunning? && |after| == |before|
    requires after == before[t := after[t]] && SameGraph(before, after)
    requires forall d :: d in before[t].deps ==> d in DoneKeys(before)
    ensures DepClosed(after) && DoneKeys(before) <= DoneKeys(after)
  {
    forall d | d in DoneKeys(before)
      ensures d in DoneKeys(after)
    {
      var j :| 0 <= j < |before| && before[j].key == d && Done(before[j].status);
      assert after[j] == before[j];
    }
    ClosedByNewRows(before, after);
  }

  lemma OwnedLess(before: seq<Task>, after: seq<Task>, inflight: set<TaskId>, t: nat, e: ExecId)
    requires Owned(before, inflight, e) && t in inflight && |after| == |before|
    requires after == before[t := after[t]] && !after[t].status.TaskRunning? && DoneKeys(before) <= DoneKeys(after)
    ensures Owned(after, inflight - {t}, e)
  {
    forall i: TaskId, d | i in inflight - {t} && d in after[i].deps
      ensures d in DoneKeys(after)
    {
      assert d in DoneKeys(before);
    }
  }

  lemma UnfinalRow(before: seq<Task>, after: seq<Task>, x: Exec, x': Exec, t: nat)
    requires UniqueKeys(before) && Unfinal(before, x) && x'.finalGateDone == x.finalGateDone
    requires t < |before| && before[t].status.TaskRunning? && |after| == |before| && SameGraph(before, after)
    requires after == before[t := after[t]] && !after[t].status.TaskSkipped?
    ensures Unfinal(after, x')
  {
    FindSameKeys(before, after, "rewrite");
    FindSameKeys(before, after, "recheck");
  }

  lemma UntouchedRow(before: seq<Task>, after: seq<Task>, x: Exec, x': Exec, t: nat)
    requires Untouched(before, x) && x'.gateEvaluated == x.gateEvaluated
    requires t < |before| && before[t].status.TaskRunning? && |after| == |before| && SameGraph(before, after)
    requires after == before[t := after[t]]
    ensures Untouched(after, x')
  {
    FindSameKeys(before, after, "merge");
    if exists i :: 0 <= i < |after| && IsReview(after[i]) {
      var i :| 0 <= i < |after| && IsReview(after[i]);
      assert IsReview(before[i]);
    }
  }
}
