/** The dependency graph spanned by task rows. */
module TaskGraph {
  import opened RunModel

  type Deps = map<string, seq<string>>

  ghost predicate UniqueKeys(tasks: seq<Task>) {
    forall i, j :: 0 <= i < j < |tasks| ==> tasks[i].key != tasks[j].key
  }

  ghost predicate HasKey(tasks: seq<Task>, key: string) {
    exists i :: 0 <= i < |tasks| && tasks[i].key == key
  }

  ghost predicate DepsExist(tasks: seq<Task>) {
    forall i, d :: 0 <= i < |tasks| && d in tasks[i].deps ==> HasKey(tasks, d)
  }

  function RankOf(rank: map<string, nat>, key: string): nat {
    if key in rank then rank[key] else 0
  }

  ghost predicate Ranked(g: Deps, rank: map<string, nat>) {
    forall k, d :: k in g && d in g[k] ==> RankOf(rank, d) < RankOf(rank, k)
  }

  ghost predicate Acyclic(g: Deps) { exists rank :: Ranked(g, rank) }

  /** `{task.task_key: task.depends_on for task in tasks}`: the last row wins. */
  function DepsOf(tasks: seq<Task>): (g: Deps)
    ensures forall i :: 0 <= i < |tasks| ==> tasks[i].key in g
  {
    if tasks == [] then map[]
    else
      var last := tasks[|tasks| - 1];
      DepsOf(tasks[..|tasks| - 1])[last.key := last.deps]
  }

  lemma {:induction false} RowOf(tasks: seq<Task>, k: string) returns (i: nat)
    requires k in DepsOf(tasks)
    ensures i < |tasks| && tasks[i].key == k && tasks[i].deps == DepsOf(tasks)[k]
  {
    i := |tasks| - 1;
    if tasks[i].key != k {
      i := RowOf(tasks[..i], k);
    }
  }

  lemma DepsOfUnique(tasks: seq<Task>, i: nat)
    requires UniqueKeys(tasks) && i < |tasks|
    ensures DepsOf(tasks)[tasks[i].key] == tasks[i].deps
  {
    var j := RowOf(tasks, tasks[i].key);
  }

  /** What the executor needs of the rows it schedules. */
  ghost predicate WellFormed(tasks: seq<Task>) {
    UniqueKeys(tasks) && DepsExist(tasks) && Acyclic(DepsOf(tasks))
  }

  // ---------------------------------------------------------------- dependency paths

  /** p[0] depends on p[1] depends on ... */
  ghost predicate Path(g: Deps, p: seq<string>) {
    && |p| > 0
    && forall i :: 0 <= i < |p| - 1 ==> p[i] in g && p[i + 1] in g[p[i]]
  }

  /** d is the number of edges of a longest dependency path from key. */
  ghost predicate LongestFrom(g: Deps, key: string, d: nat) {
    && (exists p :: Path(g, p) && p[0] == key && |p| == d + 1)
    && (forall p :: Path(g, p) && p[0] == key ==> |p| <= d + 1)
  }

  lemma PathTail(g: Deps, p: seq<string>)
    requires Path(g, p) && |p| > 1
    ensures Path(g, p[1..]) && p[0] in g && p[1] in g[p[0]]
  {
    forall i | 0 <= i < |p[1..]| - 1
      ensures p[1..][i] in g && p[1..][i + 1] in g[p[1..][i]]
    {
      assert p[i + 1] in g && p[i + 2] in g[p[i + 1]];
    }
  }

  lemma PathCons(g: Deps, key: string, p: seq<string>)
    requires Path(g, p) && key in g && p[0] in g[key]
    ensures Path(g, [key] + p)
  {
    var q := [key] + p;
    forall i | 0 <= i < |q| - 1
      ensures q[i] in g && q[i + 1] in g[q[i]]
    {
      if i > 0 {
        assert p[i - 1] in g && p[i] in g[p[i - 1]];
      }
    }
  }

  // ---------------------------------------------------------------- the depth recurrence

  /** Depth by recursion on a ranking: 0 without recorded dependencies, else one
      more than the deepest dependency. */
  ghost function DepthOf(g: Deps, rank: map<string, nat>, key: string): nat
    requires Ranked(g, rank)
    decreases RankOf(rank, key), if key in g then |g[key]| + 1 else 0
  {
    if key in g then DepthUpTo(g, rank, key, |g[key]|) else 0
  }

  ghost function DepthUpTo(g: Deps, rank: map<string, nat>, key: string, i: nat): nat
    requires Ranked(g, rank) && key in g && i <= |g[key]|
    decreases RankOf(rank, key), i
  {
    if i == 0 then 0
    else
      var before, here := DepthUpTo(g, rank, key, i - 1), DepthOf(g, rank, g[key][i - 1]) + 1;
      if here > before then here else before
  }

  lemma {:induction false} DepthUpToIsMax(g: Deps, rank: map<string, nat>, key: string, i: nat)
    requires Ranked(g, rank) && key in g && i <= |g[key]|
    ensures forall j :: 0 <= j < i ==> DepthOf(g, rank, g[key][j]) < DepthUpTo(g, rank, key, i)
    ensures i > 0 ==> exists j :: 0 <= j < i && DepthOf(g, rank, g[key][j]) + 1 == DepthUpTo(g, rank, key, i)
  {
    if i > 0 {
      DepthUpToIsMax(g, rank, key, i - 1);
      if DepthOf(g, rank, g[key][i - 1]) + 1 == DepthUpTo(g, rank, key, i) {
      } else {
        var j :| 0 <= j < i - 1 && DepthOf(g, rank, g[key][j]) + 1 == DepthUpTo(g, rank, key, i - 1);
      }
    }
  }

  /** The depth of k is 0 or one more than some dependency's. */
  ghost predicate Attained(g: Deps, depth: map<string, nat>, k: string) {
    RankOf(depth, k) == 0 || (k in g && exists d :: d in g[k] && RankOf(depth, d) + 1 == RankOf(depth, k))
  }

  /** A depth table: 0 without dependencies, else one more than the deepest one.
      It ranks the graph. */
  ghost predicate Exact(g: Deps, depth: map<string, nat>) {
    && Ranked(g, depth)
    && (forall k {:trigger Attained(g, depth, k)} :: Attained(g, depth, k))
  }

  lemma ExactExists(g: Deps) returns (depth: map<string, nat>)
    requires Acyclic(g)
    ensures Exact(g, depth)
  {
    ghost var rank :| Ranked(g, rank);
    depth := map k | k in g :: DepthOf(g, rank, k);
    forall k
      ensures k in g ==> forall d :: d in g[k] ==> RankOf(depth, d) < RankOf(depth, k)
      ensures Attained(g, depth, k)
    {
      if k in g {
        DepthUpToIsMax(g, rank, k, |g[k]|);
      }
      if RankOf(depth, k) > 0 {
        var j :| 0 <= j < |g[k]| && DepthOf(g, rank, g[k][j]) + 1 == DepthUpTo(g, rank, k, |g[k]|);
        assert g[k][j] in g[k];
      }
    }
  }

  lemma {:induction false} PathsBounded(g: Deps, depth: map<string, nat>, p: seq<string>)
    requires Ranked(g, depth) && Path(g, p)
    ensures |p| <= RankOf(depth, p[0]) + 1
  {
    if |p| > 1 {
      PathTail(g, p);
      PathsBounded(g, depth, p[1..]);
    }
  }

  lemma {:induction false} DeepestPath(g: Deps, depth: map<string, nat>, key: string) returns (p: seq<string>)
    requires Exact(g, depth)
    ensures Path(g, p) && p[0] == key && |p| == RankOf(depth, key) + 1
    decreases RankOf(depth, key)
  {
    if RankOf(depth, key) == 0 {
      p := [key];
    } else {
      assert Attained(g, depth, key);
      var d :| d in g[key] && RankOf(depth, d) + 1 == RankOf(depth, key);
      var tail := DeepestPath(g, depth, d);
      PathCons(g, key, tail);
      p := [key] + tail;
    }
  }

  /** A depth table holds the lengths of the longest dependency paths. */
  lemma DepthIsLongest(g: Deps, depth: map<string, nat>, key: string)
    requires Exact(g, depth)
    ensures LongestFrom(g, key, RankOf(depth, key))
  {
    var p := DeepestPath(g, depth, key);
    forall q | Path(g, q) && q[0] == key
      ensures |q| <= RankOf(depth, key) + 1
    {
      PathsBounded(g, depth, q);
    }
  }

  /** Every dependency path from key has at most k edges. */
  ghost predicate PathsWithin(g: Deps, key: string, k: int) {
    forall p :: Path(g, p) && p[0] == key ==> |p| <= k + 1
  }

  lemma WithinIffDepth(g: Deps, key: string, d: nat, k: int)
    requires LongestFrom(g, key, d)
    ensures PathsWithin(g, key, k) <==> d <= k
  {
    var p :| Path(g, p) && p[0] == key && |p| == d + 1;
  }

  // ---------------------------------------------------------------- adding rows

  /** New rows with fresh keys whose dependencies are old rows. */
  ghost predicate Extension(tasks: seq<Task>, rows: seq<Task>) {
    && UniqueKeys(tasks + rows)
    && forall i, d :: 0 <= i < |rows| && d in rows[i].deps ==> HasKey(tasks, d)
  }

  /** Old keys keep their dependencies, which are old; new keys have those of their row. */
  lemma ExtensionDeps(tasks: seq<Task>, rows: seq<Task>, k: string)
    requires DepsExist(tasks) && Extension(tasks, rows) && k in DepsOf(tasks + rows)
    ensures k in DepsOf(tasks) ==> DepsOf(tasks + rows)[k] == DepsOf(tasks)[k]
    ensures forall d :: d in DepsOf(tasks + rows)[k] ==> d in DepsOf(tasks)
  {
    var all := tasks + rows;
    var i := RowOf(all, k);
    if k in DepsOf(tasks) {
      var j := RowOf(tasks, k);
      assert all[j] == tasks[j];
    }
    forall d | d in all[i].deps
      ensures d in DepsOf(tasks)
    {
      if i >= |tasks| {
        assert d in rows[i - |tasks|].deps;
      }
      assert HasKey(tasks, d);
    }
  }

  lemma {:induction false} Highest(rank: map<string, nat>, keys: set<string>) returns (top: nat)
    ensures forall k :: k in keys ==> RankOf(rank, k) <= top
  {
    if keys == {} {
      top := 0;
    } else {
      var k :| k in keys;
      var rest := Highest(rank, keys - {k});
      top := if RankOf(rank, k) > rest then RankOf(rank, k) else rest;
    }
  }

  lemma ExtensionAcyclic(tasks: seq<Task>, rows: seq<Task>)
    requires DepsExist(tasks) && Acyclic(DepsOf(tasks)) && Extension(tasks, rows)
    ensures Acyclic(DepsOf(tasks + rows))
  {
    var g, g' := DepsOf(tasks), DepsOf(tasks + rows);
    var before :| Ranked(g, before);
    var top := Highest(before, g.Keys);
    var rank := map k | k in g' :: if k in g then RankOf(before, k) else top + 1;
    forall k, d | k in g' && d in g'[k]
      ensures RankOf(rank, d) < RankOf(rank, k)
    {
      ExtensionDeps(tasks, rows, k);
      KeysKept(tasks, rows, d);
    }
    assert Ranked(g', rank);
  }

  lemma KeysKept(tasks: seq<Task>, rows: seq<Task>, k: string)
    requires k in DepsOf(tasks)
    ensures k in DepsOf(tasks + rows)
  {
    var i := RowOf(tasks, k);
    assert (tasks + rows)[i].key == k;
  }

  lemma ExtensionWellFormed(tasks: seq<Task>, rows: seq<Task>)
    requires WellFormed(tasks) && Extension(tasks, rows)
    ensures WellFormed(tasks + rows)
  {
    var all := tasks + rows;
    ExtensionAcyclic(tasks, rows);
    forall i, d | 0 <= i < |all| && d in all[i].deps
      ensures HasKey(all, d)
    {
      if i >= |tasks| {
        assert d in rows[i - |tasks|].deps;
      }
      assert HasKey(tasks, d);
      var j :| 0 <= j < |tasks| && tasks[j].key == d;
      assert all[j].key == d;
    }
  }

  /** From an old key, the paths of the extended graph are those of the old one. */
  lemma {:induction false} ExtensionPaths(tasks: seq<Task>, rows: seq<Task>, p: seq<string>)
    requires DepsExist(tasks) && Extension(tasks, rows)
    requires |p| > 0 && p[0] in DepsOf(tasks)
    ensures Path(DepsOf(tasks + rows), p) <==> Path(DepsOf(tasks), p)
  {
    var g, g' := DepsOf(tasks), DepsOf(tasks + rows);
    if |p| > 1 {
      KeysKept(tasks, rows, p[0]);
      ExtensionDeps(tasks, rows, p[0]);
      PathSplit(g, p);
      PathSplit(g', p);
      if p[1] in g[p[0]] {
        ExtensionPaths(tasks, rows, p[1..]);
      }
    }
  }

  lemma PathSplit(g: Deps, p: seq<string>)
    requires |p| > 1
    ensures Path(g, p) <==> p[0] in g && p[1] in g[p[0]] && Path(g, p[1..])
  {
    assert [p[0]] + p[1..] == p;
    if Path(g, p) {
      PathTail(g, p);
    }
    if p[0] in g && p[1] in g[p[0]] && Path(g, p[1..]) {
      PathCons(g, p[0], p[1..]);
    }
  }

  /** Below a new row lie the old paths from its dependencies. */
  lemma NewRowPath(tasks: seq<Task>, rows: seq<Task>, i: nat, p: seq<string>)
    requires DepsExist(tasks) && Extension(tasks, rows) && i < |rows|
    requires |p| > 1 && p[0] == rows[i].key
    ensures Path(DepsOf(tasks + rows), p) <==> p[1] in rows[i].deps && Path(DepsOf(tasks), p[1..])
  {
    assert (tasks + rows)[|tasks| + i] == rows[i];
    DepsOfUnique(tasks + rows, |tasks| + i);
    ExtensionDeps(tasks, rows, p[0]);
    PathSplit(DepsOf(tasks + rows), p);
    if p[1] in rows[i].deps {
      ExtensionPaths(tasks, rows, p[1..]);
    }
  }

  /** A new row stays within depth k exactly when its dependencies stay within k - 1. */
  lemma NewRowWithin(tasks: seq<Task>, rows: seq<Task>, i: nat, k: nat)
    requires DepsExist(tasks) && Extension(tasks, rows) && i < |rows|
    ensures PathsWithin(DepsOf(tasks + rows), rows[i].key, k)
      <==> forall d :: d in rows[i].deps ==> PathsWithin(DepsOf(tasks), d, k - 1)
  {
    var g, g', key := DepsOf(tasks), DepsOf(tasks + rows), rows[i].key;
    if PathsWithin(g', key, k) {
      forall d, p | d in rows[i].deps && Path(g, p) && p[0] == d
        ensures |p| <= k
      {
        assert ([key] + p)[1..] == p;
        NewRowPath(tasks, rows, i, [key] + p);
      }
    }
    if forall d :: d in rows[i].deps ==> PathsWithin(g, d, k - 1) {
      forall p | Path(g', p) && p[0] == key
        ensures |p| <= k + 1
      {
        if |p| > 1 {
          NewRowPath(tasks, rows, i, p);
          assert p[1..][0] == p[1];
        }
      }
    }
  }

  /** A new row depending on one old row alone is exactly one deeper. */
  lemma SingleDependencyDepth(tasks: seq<Task>, rows: seq<Task>, i: nat, parent: string, d: nat)
    requires DepsExist(tasks) && Extension(tasks, rows) && i < |rows| && rows[i].deps == [parent]
    requires LongestFrom(DepsOf(tasks), parent, d)
    ensures LongestFrom(DepsOf(tasks + rows), rows[i].key, d + 1)
  {
    var g, g', key := DepsOf(tasks), DepsOf(tasks + rows), rows[i].key;
    var p :| Path(g, p) && p[0] == parent && |p| == d + 1;
    assert ([key] + p)[1..] == p;
    NewRowPath(tasks, rows, i, [key] + p);
    assert ([key] + p)[0] == key && |[key] + p| == d + 2;
    NewRowWithin(tasks, rows, i, d + 1);
    assert PathsWithin(g, parent, d);
    assert PathsWithin(g', key, d + 1);
  }
}
