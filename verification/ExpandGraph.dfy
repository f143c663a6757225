/** Runtime graph expansion: memoised depths, the validator, and what an accepted
    expansion does to the graph the executor schedules. */
module ExpandGraph {
  import opened RunModel
  import opened TaskGraph
  import opened Decimal

  const MAX_GRAPH_NODES := 64
  const MAX_GRAPH_DEPTH := 8
  const MAX_TASK_FANOUT := 8
  const MAX_TASK_FANIN := 8

  const ROLES: set<string> := {
    "chief_planner", "story_architect", "world_builder", "character_designer", "timeline_analyst",
    "scene_writer", "style_editor", "continuity_reviewer", "adversarial_reviewer", "merge_editor",
    "chief_editor", "analyst", "promise_keeper", "write_reserve_1", "write_reserve_2", "write_reserve_3",
    "review_reserve_1", "review_reserve_2", "review_reserve_3"}

  function MaxChildren(role: string): nat { if role == "world_builder" then 3 else 4 }

  datatype Child = Child(role: string, taskKey: Option<string>, dependsOn: Option<seq<string>>, tokenBudget: int)
  datatype Prior = Prior(dedupeKey: string, reason: string)
  datatype Plan = Plan(children: seq<Child>, reason: string, dedupeKey: string, priors: seq<Prior>)

  datatype Violation =
    | ParentNotFound | ParentNotSucceeded | ReasonRequired | DedupeRequired
    | DuplicateDedupe | ReasonUsed | ChildRequired | NodeLimit
    | UnknownRole(role: string) | BudgetNotPositive(key: string) | DuplicateKey(key: string)
    | FanInLimit(key: string) | MissingDependency(key: string, dependency: string)
    | FanOutLimit | DepthLimit | RoleChildLimit | BudgetExceeded

  /** What `str.strip` removes. */
  predicate IsSpace(c: char) {
    || '\t' <= c <= '\r' || '\U{1c}' <= c <= ' ' || c == '\U{85}' || c == '\U{a0}' || c == '\U{1680}'
    || '\U{2000}' <= c <= '\U{200a}' || c in {'\U{2028}', '\U{2029}', '\U{202f}', '\U{205f}', '\U{3000}'}
  }

  predicate Blank(s: string) { forall i :: 0 <= i < |s| ==> IsSpace(s[i]) }

  function ChildKey(child: Child, parent: string, index: nat): string {
    if child.taskKey.Some? && child.taskKey.value != "" then child.taskKey.value
    else parent + "-expand-" + Render(index + 1)
  }

  function ChildDeps(child: Child, parent: string): seq<string> {
    if child.dependsOn.Some? then child.dependsOn.value else [parent]
  }

  function FanOut(tasks: seq<Task>, key: string): nat {
    if tasks == [] then 0
    else FanOut(tasks[..|tasks| - 1], key) + (if key in tasks[|tasks| - 1].deps then 1 else 0)
  }

  function Requested(children: seq<Child>): int {
    if children == [] then 0
    else Requested(children[..|children| - 1]) + children[|children| - 1].tokenBudget
  }

  // ---------------------------------------------------------------- depths

  ghost function Room(deps: Deps, seen: set<string>): nat { |deps.Keys - seen| }

  lemma LessRoom(deps: Deps, seen: set<string>, key: string)
    requires key in deps && key !in seen
    ensures Room(deps, seen + {key}) < Room(deps, seen)
  {
    assert deps.Keys - seen == (deps.Keys - (seen + {key})) + {key};
  }

  /** `_depths`' memo table over one dependency map.  `truth` is its depth table
      when it has one (`exact`), that is when the map is acyclic. */
  class DepthTable {
    const deps: Deps
    ghost const truth: map<string, nat>
    ghost const exact: bool
    var memo: map<string, nat>

    constructor (deps: Deps, ghost truth: map<string, nat>, ghost exact: bool)
      ensures this.deps == deps && this.truth == truth && this.exact == exact && memo == map[]
    {
      this.deps := deps;
      this.truth := truth;
      this.exact := exact;
      memo := map[];
    }

    ghost predicate Sound()
      reads this
    {
      forall k :: k in memo ==> memo[k] == RankOf(truth, k)
    }

    /** The keys being computed all lie above `key`. */
    ghost predicate Below(key: string, seen: set<string>) {
      forall s :: s in seen ==> RankOf(truth, key) < RankOf(truth, s)
    }

    /** Terminates on every graph (`seen` cuts cycles); on an acyclic one the memo
        only ever holds true depths. */
    method Depth(key: string, seen: set<string>) returns (value: nat)
      requires seen <= deps.Keys
      requires exact ==> Exact(deps, truth) && Sound() && Below(key, seen)
      modifies this
      ensures exact ==> Sound() && value == RankOf(truth, key)
      decreases Room(deps, seen), 1
    {
      if key in memo {
        value := memo[key];
      } else if key in seen || key !in deps {
        assert exact ==> Attained(deps, truth, key);
        value := 0;
      } else {
        value := Deepest(key, seen);
        memo := memo[key := value];
      }
    }

    /** The dependencies of a key lie below it. */
    lemma BelowKey(key: string, parent: string, seen: set<string>)
      requires Ranked(deps, truth) && key in deps && parent in deps[key] && Below(key, seen)
      ensures Below(parent, seen + {key})
    {}

    /** A value above every dependency that one of them explains is the depth. */
    lemma DeepestIsDepth(key: string, value: nat, deepest: string)
      requires Exact(deps, truth) && key in deps
      requires forall d :: d in deps[key] ==> RankOf(truth, d) < value
      requires value == 0 || (deepest in deps[key] && RankOf(truth, deepest) + 1 == value)
      ensures value == RankOf(truth, key)
    {
      assert Attained(deps, truth, key);
    }

    /** `max((depth(parent, seen | {key}) + 1 for parent in deps[key]), default=0)` */
    method Deepest(key: string, seen: set<string>) returns (value: nat)
      requires seen <= deps.Keys && key in deps && key !in seen
      requires exact ==> Exact(deps, truth) && Sound() && Below(key, seen)
      modifies this
      ensures exact ==> Sound() && value == RankOf(truth, key)
      decreases Room(deps, seen), 0
    {
      var above := seen + {key};
      LessRoom(deps, seen, key);
      var parents := deps[key];
      ghost var deepest := key;
      value := 0;
      for i := 0 to |parents|
        invariant exact ==> Sound()
        invariant exact ==> forall j :: 0 <= j < i ==> RankOf(truth, parents[j]) < value
        invariant exact ==> value == 0 || (deepest in parents && RankOf(truth, deepest) + 1 == value)
      {
        var d := OneDeeper(key, parents[i], seen, above);
        if d > value {
          value := d;
          deepest := parents[i];
        }
      }
      if exact {
        DeepestIsDepth(key, value, deepest);
      }
    }

    /** `depth(parent, seen | {key}) + 1` */
    method OneDeeper(key: string, parent: string, seen: set<string>, above: set<string>) returns (value: nat)
      requires above == seen + {key} && above <= deps.Keys && key in deps && parent in deps[key]
      requires exact ==> Exact(deps, truth) && Sound() && Below(key, seen)
      modifies this
      ensures exact ==> Sound() && value == RankOf(truth, parent) + 1
      decreases Room(deps, above), 2
    {
      if exact {
        BelowKey(key, parent, seen);
      }
      value := Depth(parent, above);
      value := value + 1;
    }
  }

  lemma AllLongest(deps: Deps, truth: map<string, nat>, depths: map<string, nat>)
    requires Exact(deps, truth) && forall k :: k in depths ==> depths[k] == RankOf(truth, k)
    ensures forall k :: k in depths ==> LongestFrom(deps, k, depths[k])
  {
    forall k | k in depths
      ensures LongestFrom(deps, k, depths[k])
    {
      DepthIsLongest(deps, truth, k);
    }
  }

  /** The depth of every row; equal to the longest dependency path on acyclic rows. */
  method Depths(tasks: seq<Task>) returns (depths: map<string, nat>)
    ensures forall i :: 0 <= i < |tasks| ==> tasks[i].key in depths
    ensures Acyclic(DepsOf(tasks)) ==> forall k :: k in depths ==> LongestFrom(DepsOf(tasks), k, depths[k])
  {
    var deps := DepsOf(tasks);
    ghost var truth: map<string, nat> := map[];
    if Acyclic(deps) {
      truth := ExactExists(deps);
    }
    ghost var exact := Exact(deps, truth);
    var table := new DepthTable(deps, truth, exact);
    depths := map[];
    for i := 0 to |tasks|
      invariant table.deps == deps && table.truth == truth && table.exact == exact
      invariant exact ==> table.Sound()
      invariant forall j :: 0 <= j < i ==> tasks[j].key in depths
      invariant exact ==> forall k :: k in depths ==> depths[k] == RankOf(truth, k)
    {
      var d := table.Depth(tasks[i].key, {});
      depths := depths[tasks[i].key := d];
    }
    if exact {
      AllLongest(deps, truth, depths);
    }
  }

  // ---------------------------------------------------------------- the validator

  function KeySet(tasks: seq<Task>): set<string> { set i | 0 <= i < |tasks| :: tasks[i].key }

  /** Child i of the plan is admissible next to the rows and the children before it. */
  ghost predicate ChildOk(tasks: seq<Task>, parent: string, children: seq<Child>, i: nat)
    requires i < |children|
  {
    var child, key := children[i], ChildKey(children[i], parent, i);
    && child.role in ROLES && child.tokenBudget > 0
    && key !in KeySet(tasks)
    && (forall j :: 0 <= j < i ==> ChildKey(children[j], parent, j) != key)
    && |ChildDeps(child, parent)| <= MAX_TASK_FANIN
    && (forall d :: d in ChildDeps(child, parent) ==> d in KeySet(tasks))
  }

  ghost predicate ParentOk(tasks: seq<Task>, parent: string, count: nat) {
    && (exists i :: 0 <= i < |tasks| && tasks[i].key == parent && ParentRowOk(tasks, i, FanOut(tasks, parent) + count))
    && FanOut(tasks, parent) + count <= MAX_TASK_FANOUT
    && PathsWithin(DepsOf(tasks), parent, MAX_GRAPH_DEPTH - 1)
  }

  predicate ParentRowOk(tasks: seq<Task>, i: nat, children: nat)
    requires i < |tasks|
  {
    tasks[i].status.TaskSucceeded? && tasks[i].role in ROLES && children <= MaxChildren(tasks[i].role)
  }

  predicate RequestOk(plan: Plan) {
    && !Blank(plan.reason) && !Blank(plan.dedupeKey)
    && (forall i :: 0 <= i < |plan.priors| ==> plan.priors[i].dedupeKey != plan.dedupeKey)
    && (forall i :: 0 <= i < |plan.priors| ==> plan.priors[i].reason != plan.reason)
    && plan.children != []
  }

  ghost predicate Acceptable(tasks: seq<Task>, parent: string, plan: Plan, limit: int, used: int) {
    && RequestOk(plan)
    && |tasks| + |plan.children| <= MAX_GRAPH_NODES
    && (forall i :: 0 <= i < |plan.children| ==> ChildOk(tasks, parent, plan.children, i))
    && ParentOk(tasks, parent, |plan.children|)
    && Requested(plan.children) <= limit - used
  }

  method CheckRequest(plan: Plan) returns (violations: seq<Violation>)
    ensures violations == [] <==> RequestOk(plan)
  {
    violations := [];
    if Blank(plan.reason) {
      violations := violations + [ReasonRequired];
    }
    if Blank(plan.dedupeKey) {
      violations := violations + [DedupeRequired];
    }
    if exists i :: 0 <= i < |plan.priors| && plan.priors[i].dedupeKey == plan.dedupeKey {
      violations := violations + [DuplicateDedupe];
    }
    if exists i :: 0 <= i < |plan.priors| && plan.priors[i].reason == plan.reason {
      violations := violations + [ReasonUsed];
    }
    if plan.children == [] {
      violations := violations + [ChildRequired];
    }
  }

  /** The first dependency that is not an existing row, if any. */
  method MissingDep(deps: seq<string>, keys: set<string>) returns (missing: Option<string>)
    ensures missing.None? <==> forall d :: d in deps ==> d in keys
  {
    for i := 0 to |deps|
      invariant forall j :: 0 <= j < i ==> deps[j] in keys
    {
      if deps[i] !in keys {
        return Some(deps[i]);
      }
    }
    return None;
  }

  method CheckChildren(tasks: seq<Task>, parent: string, children: seq<Child>) returns (violations: seq<Violation>)
    ensures violations == [] <==> forall i :: 0 <= i < |children| ==> ChildOk(tasks, parent, children, i)
  {
    violations := [];
    var byKey := KeySet(tasks);
    var childKeys: set<string> := {};
    for index := 0 to |children|
      invariant violations == [] <==> forall i :: 0 <= i < index ==> ChildOk(tasks, parent, children, i)
      invariant forall k :: k in childKeys <==> exists j :: 0 <= j < index && ChildKey(children[j], parent, j) == k
    {
      var child, key := children[index], ChildKey(children[index], parent, index);
      var found: seq<Violation> := [];
      if child.role !in ROLES {
        found := found + [UnknownRole(child.role)];
      }
      if child.tokenBudget <= 0 {
        found := found + [BudgetNotPositive(key)];
      }
      if key in byKey || key in childKeys {
        found := found + [DuplicateKey(key)];
      }
      childKeys := childKeys + {key};
      var deps := ChildDeps(child, parent);
      if |deps| > MAX_TASK_FANIN {
        found := found + [FanInLimit(key)];
      }
      var missing := MissingDep(deps, byKey);
      if missing.Some? {
        found := found + [MissingDependency(key, missing.value)];
      }
      assert found == [] <==> ChildOk(tasks, parent, children, index);
      violations := violations + found;
    }
  }

  method FindRow(tasks: seq<Task>, key: string) returns (row: Option<nat>)
    ensures row.Some? ==> row.value < |tasks| && tasks[row.value].key == key
    ensures row.None? ==> key !in KeySet(tasks)
  {
    for i := 0 to |tasks|
      invariant forall j :: 0 <= j < i ==> tasks[j].key != key
    {
      if tasks[i].key == key {
        return Some(i);
      }
    }
    return None;
  }

  /** `_depths(tasks).get(parent, 0) + 1 > MAX_GRAPH_DEPTH` */
  method TooDeep(tasks: seq<Task>, parent: string) returns (deep: bool)
    requires parent in KeySet(tasks)
    ensures Acyclic(DepsOf(tasks)) ==> (deep <==> !PathsWithin(DepsOf(tasks), parent, MAX_GRAPH_DEPTH - 1))
  {
    var depths := Depths(tasks);
    deep := depths[parent] + 1 > MAX_GRAPH_DEPTH;
    if Acyclic(DepsOf(tasks)) {
      WithinIffDepth(DepsOf(tasks), parent, depths[parent], MAX_GRAPH_DEPTH - 1);
    }
  }

  /** The parent's own violations: the ones listed first, and the limits listed last. */
  method CheckParent(tasks: seq<Task>, parent: string, count: nat) returns (first: seq<Violation>, limits: seq<Violation>)
    requires UniqueKeys(tasks)
    ensures Acyclic(DepsOf(tasks)) ==> (first + limits == [] <==> ParentOk(tasks, parent, count))
  {
    var row := FindRow(tasks, parent);
    if row.None? {
      return [ParentNotFound], [];
    }
    var role, children := tasks[row.value].role, FanOut(tasks, parent) + count;
    first := if tasks[row.value].status.TaskSucceeded? then [] else [ParentNotSucceeded];
    limits := if children > MAX_TASK_FANOUT then [FanOutLimit] else [];
    var deep := TooDeep(tasks, parent);
    if deep {
      limits := limits + [DepthLimit];
    }
    if role !in ROLES {
      limits := limits + [UnknownRole(role)];
    } else if children > MaxChildren(role) {
      limits := limits + [RoleChildLimit];
    }
    assert (exists i :: 0 <= i < |tasks| && tasks[i].key == parent && ParentRowOk(tasks, i, children))
      <==> ParentRowOk(tasks, row.value, children);
  }

  /** Runtime expansion check: the violation list is empty exactly on acceptable
      requests.  Rows of a run have unique keys (a table constraint). */
  method ValidateExpansion(tasks: seq<Task>, parent: string, plan: Plan, limit: int, used: int) returns (violations: seq<Violation>)
    requires UniqueKeys(tasks)
    ensures Acyclic(DepsOf(tasks)) ==> (violations == [] <==> Acceptable(tasks, parent, plan, limit, used))
  {
    var first, limits := CheckParent(tasks, parent, |plan.children|);
    var request := CheckRequest(plan);
    var nodes := if |tasks| + |plan.children| > MAX_GRAPH_NODES then [NodeLimit] else [];
    var children := CheckChildren(tasks, parent, plan.children);
    var budget := if Requested(plan.children) > limit - used then [BudgetExceeded] else [];
    violations := first + request + nodes + children + limits + budget;
  }

  // ---------------------------------------------------------------- what acceptance means for the graph

  /** Accepted children have a positive budget. */
  function BudgetOf(child: Child): nat { if child.tokenBudget > 0 then child.tokenBudget else 0 }

  /** The rows `expand_run_task` inserts. */
  function NewRows(children: seq<Child>, parent: string): (rows: seq<Task>)
    ensures |rows| == |children|
    ensures forall i :: 0 <= i < |children| ==>
      rows[i] == Task(ChildKey(children[i], parent, i), children[i].role, ChildDeps(children[i], parent),
                      BudgetOf(children[i]), TaskPending, 0, 0, None, None, None)
  {
    seq(|children|, i requires 0 <= i < |children| =>
      Task(ChildKey(children[i], parent, i), children[i].role, ChildDeps(children[i], parent),
           BudgetOf(children[i]), TaskPending, 0, 0, None, None, None))
  }

  lemma AcceptedIsExtension(tasks: seq<Task>, parent: string, children: seq<Child>)
    requires UniqueKeys(tasks)
    requires forall i :: 0 <= i < |children| ==> ChildOk(tasks, parent, children, i)
    ensures Extension(tasks, NewRows(children, parent))
  {
    var rows := NewRows(children, parent);
    var all := tasks + rows;
    forall i, j | 0 <= i < j < |all|
      ensures all[i].key != all[j].key
    {
      if j >= |tasks| {
        assert ChildOk(tasks, parent, children, j - |tasks|);
        if i < |tasks| {
          assert tasks[i].key in KeySet(tasks);
        }
      }
    }
    forall i, d | 0 <= i < |rows| && d in rows[i].deps
      ensures HasKey(tasks, d)
    {
      assert ChildOk(tasks, parent, children, i);
      assert d in KeySet(tasks);
    }
  }

  /** Acceptance keeps the graph fit for the executor: unique keys, existing
      dependencies, no cycle, at most 64 nodes, and the children's token budgets
      fit what is left of the run budget. */
  lemma AcceptedExpansionKeepsGraph(tasks: seq<Task>, parent: string, plan: Plan, limit: int, used: int)
    requires WellFormed(tasks) && Acceptable(tasks, parent, plan, limit, used)
    ensures WellFormed(tasks + NewRows(plan.children, parent))
    ensures |tasks + NewRows(plan.children, parent)| <= MAX_GRAPH_NODES
    ensures used + Requested(plan.children) <= limit
  {
    AcceptedIsExtension(tasks, parent, plan.children);
    ExtensionWellFormed(tasks, NewRows(plan.children, parent));
  }

  /** Default children are exactly one deeper than the parent and stay within the
      depth limit; with only default children the parent's fan-out stays within
      its limit too. */
  lemma DefaultChildrenStayWithinLimits(tasks: seq<Task>, parent: string, plan: Plan, limit: int, used: int, d: nat)
    requires WellFormed(tasks) && Acceptable(tasks, parent, plan, limit, used)
    requires LongestFrom(DepsOf(tasks), parent, d)
    requires forall i :: 0 <= i < |plan.children| ==> plan.children[i].dependsOn.None?
    ensures var all := tasks + NewRows(plan.children, parent);
      && d + 1 <= MAX_GRAPH_DEPTH
      && (forall i :: 0 <= i < |plan.children| ==> LongestFrom(DepsOf(all), ChildKey(plan.children[i], parent, i), d + 1))
      && FanOut(all, parent) == FanOut(tasks, parent) + |plan.children| <= MAX_TASK_FANOUT
  {
    var rows := NewRows(plan.children, parent);
    AcceptedIsExtension(tasks, parent, plan.children);
    WithinIffDepth(DepsOf(tasks), parent, d, MAX_GRAPH_DEPTH - 1);
    forall i | 0 <= i < |plan.children|
      ensures LongestFrom(DepsOf(tasks + rows), ChildKey(plan.children[i], parent, i), d + 1)
    {
      SingleDependencyDepth(tasks, rows, i, parent, d);
    }
    FanOutOfChildren(tasks, rows, parent);
  }

  lemma {:induction false} FanOutOfChildren(tasks: seq<Task>, rows: seq<Task>, parent: string)
    requires forall i :: 0 <= i < |rows| ==> rows[i].deps == [parent]
    ensures FanOut(tasks + rows, parent) == FanOut(tasks, parent) + |rows|
  {
    if rows == [] {
      assert tasks + rows == tasks;
    } else {
      var all := tasks + rows;
      assert all[..|all| - 1] == tasks + rows[..|rows| - 1];
      FanOutOfChildren(tasks, rows[..|rows| - 1], parent);
    }
  }

  /** With explicit dependencies the depth limit is kept exactly when the named
      rows are shallow enough, which the validator does not ask. */
  lemma ChildDepthLimit(tasks: seq<Task>, parent: string, plan: Plan, limit: int, used: int, i: nat)
    requires WellFormed(tasks) && Acceptable(tasks, parent, plan, limit, used) && i < |plan.children|
    ensures PathsWithin(DepsOf(tasks + NewRows(plan.children, parent)), ChildKey(plan.children[i], parent, i), MAX_GRAPH_DEPTH)
      <==> forall d :: d in ChildDeps(plan.children[i], parent) ==> PathsWithin(DepsOf(tasks), d, MAX_GRAPH_DEPTH - 1)
  {
    AcceptedIsExtension(tasks, parent, plan.children);
    NewRowWithin(tasks, NewRows(plan.children, parent), i, MAX_GRAPH_DEPTH);
  }

  // ---------------------------------------------------------------- the limit explicit dependencies escape

  function ChainRow(i: nat): Task {
    Task(Render(i), "scene_writer", if i == 0 then [] else [Render(i - 1)], 1, TaskSucceeded, 1, 0, None, None, None)
  }

  /** n succeeded rows in a line: row i depends on row i - 1. */
  function Chain(n: nat): (rows: seq<Task>)
    ensures |rows| == n && forall i :: 0 <= i < n ==> rows[i] == ChainRow(i)
  {
    seq(n, i requires 0 <= i < n => ChainRow(i))
  }

  lemma ChainKeysUnique(n: nat)
    ensures UniqueKeys(Chain(n)) && DepsExist(Chain(n))
  {
    var rows := Chain(n);
    forall i, j | 0 <= i < j < n
      ensures rows[i].key != rows[j].key
    {
      if Render(i) == Render(j) {
        RenderInjective(i, j);
      }
    }
    forall i, d | 0 <= i < n && d in rows[i].deps
      ensures HasKey(rows, d)
    {
      assert rows[i - 1].key == d;
    }
  }

  function Position(key: string): nat {
    match ParseInt(key)
    case Some(i) => if i >= 0 then i else 0
    case None => 0
  }

  lemma ChainWellFormed(n: nat)
    ensures WellFormed(Chain(n))
  {
    ChainKeysUnique(n);
    var g := DepsOf(Chain(n));
    var rank := map k | k in g :: Position(k);
    forall k, d | k in g && d in g[k]
      ensures RankOf(rank, d) < RankOf(rank, k)
    {
      var i := RowOf(Chain(n), k);
      ParseRender(i);
      ParseRender(i - 1);
    }
    assert Ranked(g, rank);
  }

  lemma {:induction false} ChainPath(n: nat, i: nat) returns (p: seq<string>)
    requires i < n
    ensures Path(DepsOf(Chain(n)), p) && p[0] == Render(i) && |p| == i + 1
  {
    if i == 0 {
      p := [Render(0)];
    } else {
      ChainKeysUnique(n);
      DepsOfUnique(Chain(n), i);
      assert Chain(n)[i].key == Render(i);
      var tail := ChainPath(n, i - 1);
      PathCons(DepsOf(Chain(n)), Render(i), tail);
      p := [Render(i)] + tail;
    }
  }

  lemma ChainStart(n: nat, k: nat)
    requires n > 0
    ensures PathsWithin(DepsOf(Chain(n)), Render(0), k)
  {
    ChainKeysUnique(n);
    DepsOfUnique(Chain(n), 0);
    assert Chain(n)[0].key == Render(0);
    forall p | Path(DepsOf(Chain(n)), p) && p[0] == Render(0)
      ensures |p| <= k + 1
    {
      if |p| > 1 {
        PathTail(DepsOf(Chain(n)), p);
      }
    }
  }

  lemma {:induction false} ChainFanOut(n: nat)
    ensures FanOut(Chain(n), Render(0)) <= 1
    ensures n <= 1 ==> FanOut(Chain(n), Render(0)) == 0
  {
    if n > 0 {
      assert Chain(n)[..n - 1] == Chain(n - 1);
      ChainFanOut(n - 1);
      if n > 2 && Render(0) == Render(n - 2) {
        RenderInjective(0, n - 2);
      }
    }
  }

  const DEEP_PLAN := Plan([Child("scene_writer", Some("child"), Some([Render(8)]), 1)], "r", "d", [])

  lemma DeepPlanAcceptable()
    ensures Acceptable(Chain(9), Render(0), DEEP_PLAN, 100, 0)
  {
    var rows := Chain(9);
    assert RequestOk(DEEP_PLAN) by {
      assert DEEP_PLAN.reason[0] == 'r' && DEEP_PLAN.dedupeKey[0] == 'd';
    }
    assert ChildOk(rows, Render(0), DEEP_PLAN.children, 0) by {
      forall i | 0 <= i < 9
        ensures rows[i].key != "child"
      {
        ParseRender(i);
      }
      assert rows[8].key == Render(8);
    }
    assert ParentOk(rows, Render(0), 1) by {
      ChainFanOut(9);
      ChainStart(9, MAX_GRAPH_DEPTH - 1);
      assert rows[0].key == Render(0) && ParentRowOk(rows, 0, FanOut(rows, Render(0)) + 1);
    }
  }

  /** The depth limit does not hold of accepted expansions with explicit
      dependencies: next to a nine-row line, a child of the first row may name the
      last one and ends up at depth 9. */
  lemma ExplicitDependencyBreaksDepthLimit()
    ensures WellFormed(Chain(9)) && Acceptable(Chain(9), Render(0), DEEP_PLAN, 100, 0)
    ensures !PathsWithin(DepsOf(Chain(9) + NewRows(DEEP_PLAN.children, Render(0))), "child", MAX_GRAPH_DEPTH)
  {
    ChainWellFormed(9);
    DeepPlanAcceptable();
    var p := ChainPath(9, 8);
    assert Render(8) in ChildDeps(DEEP_PLAN.children[0], Render(0));
    ChildDepthLimit(Chain(9), Render(0), DEEP_PLAN, 100, 0, 0);
  }
}
