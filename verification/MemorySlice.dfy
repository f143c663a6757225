/** The accepted-memory slice of a run and its two-second cache. */
module MemorySlice {
  const SLICE_LIMIT := 8
  const TTL := 2.0
  const MAX_KEYS := 64

  datatype Status = Proposed | Accepted | Rejected

  /** A memory row; its id is its position.  `run` is "" for project-wide memories. */
  datatype Row = Row(project: string, run: string, key: string, revision: nat, status: Status, value: string)

  datatype Fact = Fact(key: string, value: string)

  // ---------------------------------------------------------------- revisions

  function CountKey(rows: seq<Row>, project: string, key: string): nat {
    if rows == [] then 0
    else
      var last := rows[|rows| - 1];
      CountKey(rows[..|rows| - 1], project, key) + (if last.project == project && last.key == key then 1 else 0)
  }

  /** `propose_memory` */
  function Propose(rows: seq<Row>, project: string, run: string, key: string, value: string, status: Status): seq<Row> {
    rows + [Row(project, run, key, CountKey(rows, project, key) + 1, status, value)]
  }

  /** `decide_memory` for every candidate of one approval. */
  function DecideAll(rows: seq<Row>, ids: seq<nat>, accept: bool): (after: seq<Row>)
    ensures |after| == |rows|
    ensures forall i :: 0 <= i < |rows| ==>
      after[i] == if i in ids then rows[i].(status := if accept then Accepted else Rejected) else rows[i]
  {
    seq(|rows|, i requires 0 <= i < |rows| =>
      if i in ids then rows[i].(status := if accept then Accepted else Rejected) else rows[i])
  }

  lemma DecideOne(rows: seq<Row>, ids: seq<nat>, id: nat, accept: bool)
    requires id < |rows|
    ensures var before := DecideAll(rows, ids, accept);
      DecideAll(rows, ids + [id], accept) == before[id := before[id].(status := if accept then Accepted else Rejected)]
  {}

  /** The n-th row of a project's key carries revision n. */
  ghost predicate Revised(rows: seq<Row>) {
    forall i :: 0 <= i < |rows| ==> rows[i].revision == CountKey(rows[..i], rows[i].project, rows[i].key) + 1
  }

  lemma ProposeKeepsRevisions(rows: seq<Row>, project: string, run: string, key: string, value: string, status: Status)
    requires Revised(rows)
    ensures Revised(Propose(rows, project, run, key, value, status))
  {
    var more := Propose(rows, project, run, key, value, status);
    forall i | 0 <= i < |more|
      ensures more[i].revision == CountKey(more[..i], more[i].project, more[i].key) + 1
    {
      assert more[..i] == rows[..i];
      if i == |rows| {
        assert rows[..i] == rows;
      }
    }
  }

  lemma {:induction false} SameKeysSameCount(a: seq<Row>, b: seq<Row>, project: string, key: string)
    requires |a| == |b| && forall i :: 0 <= i < |a| ==> a[i].project == b[i].project && a[i].key == b[i].key
    ensures CountKey(a, project, key) == CountKey(b, project, key)
  {
    if a != [] {
      SameKeysSameCount(a[..|a| - 1], b[..|b| - 1], project, key);
    }
  }

  lemma DecideKeepsRevisions(rows: seq<Row>, ids: seq<nat>, accept: bool)
    requires Revised(rows)
    ensures Revised(DecideAll(rows, ids, accept))
  {
    var after := DecideAll(rows, ids, accept);
    forall i | 0 <= i < |after|
      ensures after[i].revision == CountKey(after[..i], after[i].project, after[i].key) + 1
    {
      SameKeysSameCount(rows[..i], after[..i], after[i].project, after[i].key);
    }
  }

  lemma {:induction false} CountGrows(rows: seq<Row>, i: nat, j: nat, project: string, key: string)
    requires i <= j <= |rows|
    ensures CountKey(rows[..i], project, key) <= CountKey(rows[..j], project, key)
    ensures i < j && rows[i].project == project && rows[i].key == key ==>
      CountKey(rows[..i], project, key) < CountKey(rows[..j], project, key)
    decreases j
  {
    if i < j {
      CountGrows(rows, i, j - 1, project, key);
      assert rows[..j][..j - 1] == rows[..j - 1];
    }
  }

  /** So the revisions of a key are 1, 2, 3, ... in the order of its rows. */
  lemma RevisionsAscend(rows: seq<Row>, i: nat, j: nat)
    requires Revised(rows) && i < j < |rows| && rows[i].project == rows[j].project && rows[i].key == rows[j].key
    ensures 1 <= rows[i].revision < rows[j].revision <= CountKey(rows, rows[j].project, rows[j].key)
  {
    CountGrows(rows, i, j, rows[j].project, rows[j].key);
    CountGrows(rows, j, |rows|, rows[j].project, rows[j].key);
    assert rows[..|rows|] == rows;
  }

  // ---------------------------------------------------------------- the slice

  predicate InScope(row: Row, project: string, run: string) {
    row.project == project && row.status.Accepted? && (row.run == run || row.run == "")
  }

  /** Row i is the newest in-scope row of its key among the first n. */
  predicate Newest(rows: seq<Row>, project: string, run: string, n: nat, i: nat)
    requires n <= |rows|
  {
    && i < n && InScope(rows[i], project, run)
    && forall j :: 0 <= j < n && InScope(rows[j], project, run) && rows[j].key == rows[i].key ==>
      rows[j].revision < rows[i].revision || (rows[j].revision == rows[i].revision && j <= i)
  }

  function NewestIds(rows: seq<Row>, project: string, run: string, n: nat, i: nat): seq<nat>
    requires i <= n <= |rows|
  {
    if i == 0 then []
    else NewestIds(rows, project, run, n, i - 1) + (if Newest(rows, project, run, n, i - 1) then [i - 1] else [])
  }

  /** `ids[-limit:]`; 0 takes everything. */
  function LastOf(ids: seq<nat>, limit: nat): seq<nat> {
    if limit == 0 || |ids| <= limit then ids else ids[|ids| - limit..]
  }

  function Facts(rows: seq<Row>, ids: seq<nat>): (facts: seq<Fact>)
    requires forall k :: 0 <= k < |ids| ==> ids[k] < |rows|
    ensures |facts| == |ids| && forall k :: 0 <= k < |ids| ==> facts[k] == FactOf(rows[ids[k]])
  {
    seq(|ids|, k requires 0 <= k < |ids| => FactOf(rows[ids[k]]))
  }

  /** The value is cut to 200 characters. */
  function FactOf(row: Row): Fact {
    Fact(row.key, if |row.value| > 200 then row.value[..200] else row.value)
  }

  lemma {:induction false} NewestIdsAre(rows: seq<Row>, project: string, run: string, n: nat, i: nat)
    requires i <= n <= |rows|
    ensures var ids := NewestIds(rows, project, run, n, i);
      && (forall k: nat :: k in ids <==> k < i && Newest(rows, project, run, n, k))
      && (forall a, b :: 0 <= a < b < |ids| ==> ids[a] < ids[b])
      && (forall k :: 0 <= k < |ids| ==> ids[k] < i)
  {
    if i > 0 {
      NewestIdsAre(rows, project, run, n, i - 1);
    }
  }

  function SliceIds(rows: seq<Row>, project: string, run: string, limit: nat): (ids: seq<nat>)
    ensures forall k :: 0 <= k < |ids| ==> ids[k] < |rows|
  {
    NewestIdsAre(rows, project, run, |rows|, |rows|);
    LastOf(NewestIds(rows, project, run, |rows|, |rows|), limit)
  }

  /** The uncached slice. */
  function Slice(rows: seq<Row>, project: string, run: string, limit: nat): seq<Fact> {
    Facts(rows, SliceIds(rows, project, run, limit))
  }

  /** The dictionary `latest` after n rows: for each key in scope, its newest row. */
  ghost predicate Latest(rows: seq<Row>, project: string, run: string, n: nat, latest: map<string, nat>)
    requires n <= |rows|
  {
    && (forall k :: k in latest ==> latest[k] < n && rows[latest[k]].key == k && Newest(rows, project, run, n, latest[k]))
    && (forall i :: 0 <= i < n && InScope(rows[i], project, run) ==> rows[i].key in latest)
  }

  lemma LatestStep(rows: seq<Row>, project: string, run: string, n: nat, latest: map<string, nat>)
    requires n < |rows| && Latest(rows, project, run, n, latest)
    ensures var row := rows[n];
      Latest(rows, project, run, n + 1,
        if !InScope(row, project, run) then latest
        else if row.key !in latest || row.revision >= rows[latest[row.key]].revision then latest[row.key := n]
        else latest)
  {}

  /** The newest row of a key is unique. */
  lemma NewestUnique(rows: seq<Row>, project: string, run: string, i: nat, j: nat)
    requires Newest(rows, project, run, |rows|, i) && Newest(rows, project, run, |rows|, j) && rows[i].key == rows[j].key
    ensures i == j
  {}

  /** The query of `load_memory_slice`. */
  method QuerySlice(rows: seq<Row>, project: string, run: string, limit: nat) returns (facts: seq<Fact>)
    ensures facts == Slice(rows, project, run, limit)
  {
    var latest: map<string, nat> := map[];
    for n := 0 to |rows|
      invariant Latest(rows, project, run, n, latest)
    {
      LatestStep(rows, project, run, n, latest);
      var row := rows[n];
      if InScope(row, project, run) {
        if row.key !in latest || row.revision >= rows[latest[row.key]].revision {
          latest := latest[row.key := n];
        }
      }
    }
    var recent: seq<nat> := [];
    for i := 0 to |rows|
      invariant recent == NewestIds(rows, project, run, |rows|, i)
    {
      if rows[i].key in latest && latest[rows[i].key] == i {
        recent := recent + [i];
      } else if Newest(rows, project, run, |rows|, i) {
        NewestUnique(rows, project, run, i, latest[rows[i].key]);
        assert false;
      }
    }
    NewestIdsAre(rows, project, run, |rows|, |rows|);
    facts := Facts(rows, LastOf(recent, limit));
  }

  lemma LateIdsKept(ids: seq<nat>, limit: nat, p: nat)
    requires p < |ids|
    ensures limit == 0 || p >= |ids| - limit ==> ids[p] in LastOf(ids, limit)
  {
    var kept := LastOf(ids, limit);
    if limit == 0 || |ids| <= limit {
      assert kept[p] == ids[p];
    } else if p >= |ids| - limit {
      assert kept[p - (|ids| - limit)] == ids[p];
    }
  }

  /** What the slice holds: per key the in-scope ACCEPTED row of the highest
      revision, and of those the `limit` newest. */
  lemma SliceHolds(rows: seq<Row>, project: string, run: string, limit: nat, i: nat)
    requires Revised(rows) && limit > 0 && i < |rows|
    ensures i in SliceIds(rows, project, run, limit) ==>
      InScope(rows[i], project, run) && forall j :: i < j < |rows| && rows[j].key == rows[i].key ==> !InScope(rows[j], project, run)
    ensures |SliceIds(rows, project, run, limit)| <= limit
    ensures Newest(rows, project, run, |rows|, i) && i !in SliceIds(rows, project, run, limit) ==>
      |SliceIds(rows, project, run, limit)| == limit && forall k :: k in SliceIds(rows, project, run, limit) ==> i < k
  {
    var all, ids := NewestIds(rows, project, run, |rows|, |rows|), SliceIds(rows, project, run, limit);
    NewestIdsAre(rows, project, run, |rows|, |rows|);
    if i in ids {
      assert i in all;
      forall j | i < j < |rows| && rows[j].key == rows[i].key && InScope(rows[j], project, run)
        ensures false
      {
        RevisionsAscend(rows, i, j);
      }
    }
    if Newest(rows, project, run, |rows|, i) && i !in ids {
      assert i in all;
      var p :| 0 <= p < |all| && all[p] == i;
      LateIdsKept(all, limit, p);
      forall k | k in ids
        ensures i < k
      {
        var q :| 0 <= q < |ids| && ids[q] == k;
        assert k == all[|all| - limit + q];
      }
    }
  }
}
