/** One `execute_run` call without a competing executor, as a stretch of the
    system's steps; and the graphs the intents start it on. */
module SoloRun {
  import opened RunModel
  import opened TaskGraph
  import opened Executor
  import opened Protocol
  import opened RowEffects
  import opened Closure
  import Deadlock
  import Progress

  /** Everything but another delivery, a crash, a retry and an expansion. */
  predicate Solo(step: Step) {
    !(step.Deliver? || step.WorkerLost? || step.UserRetry? || step.UserExpand?)
  }

  ghost predicate SoloInvariant(s: Sys, e: ExecId) {
    && s.execs.Keys <= {e} && Shape(s.run.tasks) && DepClosed(s.run.tasks)
    && (e in s.execs ==> Alone(s.run.tasks, s.execs[e], e))
  }

  lemma LoopStep(s: Sys, step: Step, e: ExecId)
    requires Enabled(s, step) && step.Loop? && SoloInvariant(s, e)
    ensures SoloInvariant(Protocol.Next(s, step), e)
  {
    assert step.e == e;
    TickFinishesNothing(s.run, s.execs[e], e, s.now, step.input);
    Progress.TickKeepsRows(s.run, s.execs[e], e, s.now, step.input);
    ShapeKept(s.run.tasks, Protocol.Next(s, step).run.tasks);
    TickCloses(s.run, s.execs[e], e, s.now, step.input);
  }

  lemma CommitStep(s: Sys, step: Step, e: ExecId)
    requires Enabled(s, step) && step.Commit? && SoloInvariant(s, e)
    ensures SoloInvariant(Protocol.Next(s, step), e)
  {
    assert step.e == e;
    Deadlock.SettleKeepsGraph(s.run, e, step.t, s.now, step.result);
    ShapeKept(s.run.tasks, Protocol.Next(s, step).run.tasks);
    SettleCloses(s.run, s.execs[e], e, step.t, s.now, step.result);
  }

  /** A failed provider build gives the batch back and ends the call. */
  lemma BuildFailsStep(s: Sys, step: Step, e: ExecId)
    requires Enabled(s, step) && step.BuildFails? && SoloInvariant(s, e)
    ensures SoloInvariant(Protocol.Next(s, step), e)
  {
    var after := Protocol.Next(s, step).run.tasks;
    assert SameGraph(s.run.tasks, after);
    ShapeKept(s.run.tasks, after);
    SameDoneRows(s.run.tasks, after);
  }

  /** A renewal moves an expiry, nothing else. */
  lemma RenewStep(s: Sys, step: Step, e: ExecId)
    requires Enabled(s, step) && step.RenewLease? && SoloInvariant(s, e)
    ensures SoloInvariant(Protocol.Next(s, step), e)
  {
    RenewRows(s.run, s.execs[e], e, step.t, s.now);
  }

  lemma RenewRows(r: Run, x: Exec, e: ExecId, t: TaskId, now: int)
    requires Shape(r.tasks) && DepClosed(r.tasks) && Alone(r.tasks, x, e) && t < |r.tasks|
    ensures var after := Renew(r, e, t, now).tasks; Shape(after) && DepClosed(after) && Alone(after, x, e)
  {
    var before, after := r.tasks, Renew(r, e, t, now).tasks;
    assert SameGraph(before, after);
    ShapeKept(before, after);
    SameDoneRows(before, after);
    RenewOwned(before, after, x, e);
    RenewFlags(before, after, x);
  }

  lemma RenewOwned(before: seq<Task>, after: seq<Task>, x: Exec, e: ExecId)
    requires Owned(before, x.inflight.Keys, e) && |before| == |after| && DoneKeys(before) == DoneKeys(after)
    requires forall i :: 0 <= i < |before| ==> after[i] == before[i].(expires := after[i].expires)
    ensures Owned(after, x.inflight.Keys, e)
  {}

  lemma RenewFlags(before: seq<Task>, after: seq<Task>, x: Exec)
    requires Untouched(before, x) && Unfinal(before, x) && |before| == |after|
    requires forall i :: 0 <= i < |before| ==> after[i] == before[i].(expires := after[i].expires)
    ensures Untouched(after, x) && Unfinal(after, x)
  {
    FindSameKeys(before, after, "merge");
    FindSameKeys(before, after, "rewrite");
    FindSameKeys(before, after, "recheck");
    ReviewRows(before, after);
  }

  lemma OtherStep(s: Sys, step: Step, e: ExecId)
    requires Enabled(s, step) && Solo(step) && SoloInvariant(s, e)
    requires !step.Loop? && !step.Commit? && !step.BuildFails? && !step.RenewLease?
    ensures SoloInvariant(Protocol.Next(s, step), e)
  {
    var s' := Protocol.Next(s, step);
    assert s'.run.tasks == s.run.tasks;
    if step.Build? {
      AloneWithFlags(s.run.tasks, s.execs[e], s'.execs[e], e);
    }
  }

  lemma SoloStep(s: Sys, step: Step, e: ExecId)
    requires Enabled(s, step) && Solo(step) && SoloInvariant(s, e)
    ensures SoloInvariant(Protocol.Next(s, step), e)
  {
    if step.Loop? {
      LoopStep(s, step, e);
    } else if step.Commit? {
      CommitStep(s, step, e);
    } else if step.BuildFails? {
      BuildFailsStep(s, step, e);
    } else if step.RenewLease? {
      RenewStep(s, step, e);
    } else {
      OtherStep(s, step, e);
    }
  }

  /** A call that starts on fresh rows of a graph the gates can handle. */
  ghost predicate FreshCall(s: Sys, e: ExecId) {
    s.execs == map[e := FRESH] && Shape(s.run.tasks) && forall i :: 0 <= i < |s.run.tasks| ==> Fresh(s.run.tasks[i])
  }

  lemma {:induction false} SoloAlways(states: seq<Sys>, steps: seq<Step>, e: ExecId, i: nat)
    requires Chain(states, steps) && FreshCall(states[0], e) && i <= |steps|
    requires forall k :: 0 <= k < |steps| ==> Solo(steps[k])
    ensures SoloInvariant(states[i], e)
  {
    if i > 0 {
      SoloAlways(states, steps, e, i - 1);
      SoloStep(states[i - 1], steps[i - 1], e);
    }
  }

  /** In every state of the call, whatever is SUCCEEDED or SKIPPED has all its
      dependencies SUCCEEDED or SKIPPED: also after the first gate skips the revise
      stage, and after the final gate re-opens rewrite and recheck. */
  lemma DoneIsClosed(states: seq<Sys>, steps: seq<Step>, e: ExecId, i: nat)
    requires Chain(states, steps) && FreshCall(states[0], e) && i <= |steps|
    requires forall k :: 0 <= k < |steps| ==> Solo(steps[k])
    ensures DepClosed(states[i].run.tasks)
  {
    SoloAlways(states, steps, e, i);
  }

  /** Whenever the final gate can still reset, everything behind recheck is PENDING. */
  lemma PendingBehindRecheck(states: seq<Sys>, steps: seq<Step>, e: ExecId, i: nat, t: nat)
    requires Chain(states, steps) && FreshCall(states[0], e) && i <= |steps|
    requires forall k :: 0 <= k < |steps| ==> Solo(steps[k])
    requires e in states[i].execs && FinalGate(states[i].run, states[i].execs[e], false).again
    requires t < |states[i].run.tasks| && "recheck" in states[i].run.tasks[t].deps
    ensures states[i].run.tasks[t].status.TaskPending?
  {
    SoloAlways(states, steps, e, i);
  }

  // ---------------------------------------------------------------- the graphs of the intents

  function Node(key: string, role: string, deps: seq<string>): Task {
    Task(key, role, deps, 1, TaskPending, 0, 0, None, None, None)
  }

  const WRITE_GRAPH := [
    Node("planner", "chief_planner", []),
    Node("character", "character_designer", ["planner"]),
    Node("promise_contract", "promise_keeper", ["character"]),
    Node("scene_a", "scene_writer", ["character", "promise_contract"]),
    Node("scene_b", "scene_writer", ["character", "promise_contract"]),
    Node("scene_c", "scene_writer", ["character", "promise_contract"]),
    Node("scene_d", "scene_writer", ["character", "promise_contract"]),
    Node("select", "merge_editor", ["scene_a", "scene_b", "scene_c", "scene_d"]),
    Node("review_continuity", "continuity_reviewer", ["select"]),
    Node("review_adversarial", "adversarial_reviewer", ["select"]),
    Node("review_style", "style_editor", ["select"]),
    Node("review_council", "merge_editor", ["review_continuity", "review_adversarial", "review_style"]),
    Node("merge", "merge_editor", ["review_council"]),
    Node("rewrite", "chief_editor", ["merge"]),
    Node("recheck", "continuity_reviewer", ["rewrite"]),
    Node("promise_verify", "promise_keeper", ["recheck"]),
    Node("promise_register", "promise_keeper", ["promise_verify"])]

  const REVISE_GRAPH := [
    Node("merge", "merge_editor", []),
    Node("rewrite", "chief_editor", ["merge"]),
    Node("recheck", "continuity_reviewer", ["rewrite"])]

  const REVIEW_GRAPH := [
    Node("review_continuity", "continuity_reviewer", []),
    Node("review_adversarial", "adversarial_reviewer", []),
    Node("review_style", "style_editor", [])]

  const ANALYZE_GRAPH := [
    Node("analyze_structure", "analyst", []),
    Node("analyze_cast", "analyst", []),
    Node("analyze_hooks", "analyst", []),
    Node("analyze_merge", "merge_editor", ["analyze_structure", "analyze_cast", "analyze_hooks"])]

  /** Rows in dependency order: every dependency is the key of an earlier row. */
  ghost predicate InOrder(tasks: seq<Task>) {
    && UniqueKeys(tasks)
    && forall i, d :: 0 <= i < |tasks| && d in tasks[i].deps ==> HasKey(tasks[..i], d)
  }

  lemma InOrderWellFormed(tasks: seq<Task>)
    requires InOrder(tasks)
    ensures WellFormed(tasks)
  {
    var g := DepsOf(tasks);
    var rank := map k | k in g :: if Find(tasks, k).Some? then Find(tasks, k).value else 0;
    forall k, d | k in g && d in g[k]
      ensures RankOf(rank, d) < RankOf(rank, k)
    {
      var i := RowOf(tasks, k);
      assert HasKey(tasks[..i], d);
      var j :| 0 <= j < i && tasks[j].key == d;
      FindUnique(tasks, i);
      FindUnique(tasks, j);
    }
    assert Ranked(g, rank);
    forall i, d | 0 <= i < |tasks| && d in tasks[i].deps
      ensures HasKey(tasks, d)
    {
      assert HasKey(tasks[..i], d);
      var j :| 0 <= j < i && tasks[j].key == d;
    }
  }

  /** Position of a key in the write graph. */
  function WriteRank(key: string): nat {
    match key
    case "planner" => 0 case "character" => 1 case "promise_contract" => 2
    case "scene_a" => 3 case "scene_b" => 4 case "scene_c" => 5 case "scene_d" => 6
    case "select" => 7 case "review_continuity" => 8 case "review_adversarial" => 9 case "review_style" => 10
    case "review_council" => 11 case "merge" => 12 case "rewrite" => 13 case "recheck" => 14
    case "promise_verify" => 15 case "promise_register" => 16
    case _ => 17
  }

  lemma WriteKeys()
    ensures forall i :: 0 <= i < |WRITE_GRAPH| ==> WriteRank(WRITE_GRAPH[i].key) == i
  {}

  lemma WriteDeps(i: nat, d: string)
    requires i < |WRITE_GRAPH| && d in WRITE_GRAPH[i].deps
    ensures WriteRank(d) < i && WRITE_GRAPH[WriteRank(d)].key == d
  {
    EarlierRow(i, d);
    RankedKey(d);
  }

  lemma EarlierRow(i: nat, d: string)
    requires i < |WRITE_GRAPH| && d in WRITE_GRAPH[i].deps
    ensures WriteRank(d) < i
  {}

  lemma RankedKey(d: string)
    requires WriteRank(d) < |WRITE_GRAPH|
    ensures WRITE_GRAPH[WriteRank(d)].key == d
  {}

  lemma WriteInOrder()
    ensures InOrder(WRITE_GRAPH)
  {
    WriteKeys();
    forall i, d | 0 <= i < |WRITE_GRAPH| && d in WRITE_GRAPH[i].deps
      ensures HasKey(WRITE_GRAPH[..i], d)
    {
      WriteDeps(i, d);
      assert WRITE_GRAPH[..i][WriteRank(d)].key == d;
    }
  }

  lemma WriteStageRows(i: nat)
    requires 11 <= i <= 14
    ensures StageRow(WRITE_GRAPH, WRITE_GRAPH[i])
  {
    if i == 11 {
      var deps := WRITE_GRAPH[11].deps;
      assert deps[0] == "review_continuity" && deps[1] == "review_adversarial" && deps[2] == "review_style";
    } else {
      assert WRITE_GRAPH[i].deps[0] == WRITE_GRAPH[i - 1].key;
    }
  }

  /** The ledger lane of every row of the write graph. */
  lemma WriteLanes()
    ensures forall i :: 0 <= i < |WRITE_GRAPH| ==> LanesOf(WRITE_GRAPH)[i] == WriteLaneAt(i)
  {
    forall i | 0 <= i < |WRITE_GRAPH|
      ensures LanesOf(WRITE_GRAPH)[i] == WriteLaneAt(i)
    {
      LaneAt(i);
    }
  }

  lemma LaneAt(i: nat)
    requires i < |WRITE_GRAPH|
    ensures LaneOf(WRITE_GRAPH[i].key, WRITE_GRAPH[i].role) == WriteLaneAt(i)
  {
    if i == 2 || i >= 8 {
      LaneByKey(i);
    } else {
      LaneByRole(i);
    }
  }

  lemma LaneByKey(i: nat)
    requires i == 2 || 8 <= i < |WRITE_GRAPH|
    ensures LaneOf(WRITE_GRAPH[i].key, WRITE_GRAPH[i].role) == WriteLaneAt(i)
  {
    var key := WRITE_GRAPH[i].key;
    if i == 2 || i >= 15 {
      assert key[..8] == "promise_";
    } else if i <= 11 {
      assert key[0] == 'r' && key[..7] == "review_";
    } else if i == 12 {
      assert key[0] == 'm' && key[..5] == "merge";
    } else {
      assert key[0] == 'r' && key[2] != 'v';
    }
  }

  lemma LaneByRole(i: nat)
    requires i < 8 && i != 2
    ensures LaneOf(WRITE_GRAPH[i].key, WRITE_GRAPH[i].role) == WriteLaneAt(i)
  {
    var key := WRITE_GRAPH[i].key;
    if i <= 1 {
      assert key[1] != 'r' && key[2] != 'i';
    } else {
      assert key[0] == 's';
    }
  }

  /** Reviews but not recheck are review work; the three promise rows have their own ledger. */
  function WriteLaneAt(i: nat): Lane {
    if i == 2 || i >= 15 then PromiseLane
    else if 8 <= i <= 11 then ReviewLane
    else if i == 7 || 12 <= i <= 14 then ReviseLane
    else WriteLane
  }

  /** The 17-task write graph is what the executor and both gates need, and its rows
      draw on the ledgers of their stages. */
  lemma WriteGraphFits()
    ensures WellFormed(WRITE_GRAPH) && Shape(WRITE_GRAPH)
    ensures forall i :: 0 <= i < |WRITE_GRAPH| ==> LanesOf(WRITE_GRAPH)[i] == WriteLaneAt(i)
  {
    WriteLanes();
    WriteInOrder();
    InOrderWellFormed(WRITE_GRAPH);
    WriteKeys();
    forall i | 0 <= i < |WRITE_GRAPH| && WRITE_GRAPH[i].key in STAGE
      ensures StageRow(WRITE_GRAPH, WRITE_GRAPH[i])
    {
      assert 11 <= WriteRank(WRITE_GRAPH[i].key) <= 14;
      WriteStageRows(i);
    }
    WriteTail();
  }

  lemma WriteTail()
    ensures forall i :: 0 <= i < |WRITE_GRAPH| && "rewrite" in WRITE_GRAPH[i].deps ==> WRITE_GRAPH[i].key == "recheck"
    ensures forall i :: 0 <= i < |WRITE_GRAPH| && "recheck" in WRITE_GRAPH[i].deps ==> WRITE_GRAPH[i].key !in STAGE
  {}

  lemma ReviseInOrder()
    ensures InOrder(REVISE_GRAPH)
  {
    assert REVISE_GRAPH[..1][0].key == "merge" && REVISE_GRAPH[..2][1].key == "rewrite";
  }

  lemma ReviseGraphFits()
    ensures WellFormed(REVISE_GRAPH) && Shape(REVISE_GRAPH)
  {
    ReviseInOrder();
    InOrderWellFormed(REVISE_GRAPH);
    ReviseStages();
  }

  lemma ReviseStages()
    ensures forall i :: 0 <= i < |REVISE_GRAPH| ==> StageRow(REVISE_GRAPH, REVISE_GRAPH[i])
    ensures forall i :: 0 <= i < |REVISE_GRAPH| && "rewrite" in REVISE_GRAPH[i].deps ==> REVISE_GRAPH[i].key == "recheck"
    ensures forall i :: 0 <= i < |REVISE_GRAPH| ==> "recheck" !in REVISE_GRAPH[i].deps
  {
    assert REVISE_GRAPH[1].deps[0] == "merge" && REVISE_GRAPH[2].deps[0] == "rewrite";
  }

  /** A graph without revise-stage keys or dependencies on them has nothing to skip or reset. */
  lemma NoStageFits(tasks: seq<Task>)
    requires WellFormed(tasks)
    requires forall i :: 0 <= i < |tasks| ==> tasks[i].key !in STAGE
    ensures Shape(tasks)
  {
    forall i, d | 0 <= i < |tasks| && d in tasks[i].deps
      ensures d !in STAGE
    {
      assert HasKey(tasks, d);
    }
  }

  lemma ReviewGraphFits()
    ensures WellFormed(REVIEW_GRAPH) && Shape(REVIEW_GRAPH)
  {
    assert InOrder(REVIEW_GRAPH);
    InOrderWellFormed(REVIEW_GRAPH);
    NoStageFits(REVIEW_GRAPH);
  }

  lemma AnalyzeInOrder()
    ensures InOrder(ANALYZE_GRAPH)
  {
    var g := ANALYZE_GRAPH;
    assert g[..3][0].key == "analyze_structure" && g[..3][1].key == "analyze_cast" && g[..3][2].key == "analyze_hooks";
  }

  lemma AnalyzeGraphFits()
    ensures WellFormed(ANALYZE_GRAPH) && Shape(ANALYZE_GRAPH)
  {
    AnalyzeInOrder();
    InOrderWellFormed(ANALYZE_GRAPH);
    NoStageFits(ANALYZE_GRAPH);
  }

  /** So a fresh call on the write graph, whatever its roles and budgets, keeps
      everything done dependency-closed. */
  lemma WriteRunIsClosed(states: seq<Sys>, steps: seq<Step>, e: ExecId, i: nat)
    requires Chain(states, steps) && states[0].execs == map[e := FRESH] && i <= |steps|
    requires var tasks := states[0].run.tasks;
      && |tasks| == |WRITE_GRAPH| && SameGraph(WRITE_GRAPH, tasks) && forall k :: 0 <= k < |tasks| ==> Fresh(tasks[k])
    requires forall k :: 0 <= k < |steps| ==> Solo(steps[k])
    ensures DepClosed(states[i].run.tasks)
  {
    WriteGraphFits();
    ShapeKept(WRITE_GRAPH, states[0].run.tasks);
    DoneIsClosed(states, steps, e, i);
  }
}
