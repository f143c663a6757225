/** The cache of `load_memory_slice`, shared by loads that overlap with each other,
    with new memories and with invalidations. */
module MemoryCache {
  import opened RunModel
  import opened MemorySlice

  datatype Key = Key(project: string, run: string)
  datatype Entry = Entry(at: real, facts: seq<Fact>)
  type Cache = map<Key, Entry>

  /** A hit: an entry younger than two seconds. */
  function Lookup(cache: Cache, key: Key, now: real): Option<seq<Fact>> {
    if key in cache && now - cache[key].at < TTL then Some(cache[key].facts) else None
  }

  predicate Oldest(cache: Cache, key: Key) { key in cache && forall k :: k in cache ==> cache[key].at <= cache[k].at }

  /** A full cache gives up an oldest entry first. */
  predicate Stored(before: Cache, key: Key, entry: Entry, after: Cache) {
    if |before| < MAX_KEYS then after == before[key := entry]
    else exists victim :: victim in before && Oldest(before, victim) && after == (before - {victim})[key := entry]
  }

  lemma RemoveOne(cache: Cache, key: Key)
    requires key in cache
    ensures |cache - {key}| == |cache| - 1
  {
    assert (cache - {key}).Keys == cache.Keys - {key};
    assert |cache.Keys - {key}| == |cache.Keys| - 1;
    assert |cache| == |cache.Keys| && |cache - {key}| == |(cache - {key}).Keys|;
  }

  lemma AddOne(cache: Cache, key: Key, entry: Entry)
    ensures |cache[key := entry]| <= |cache| + 1
  {
    assert cache[key := entry].Keys == cache.Keys + {key};
    assert |cache.Keys + {key}| <= |cache.Keys| + 1;
    assert |cache| == |cache.Keys| && |cache[key := entry]| == |cache[key := entry].Keys|;
  }

  lemma StoredEntries(before: Cache, key: Key, entry: Entry, after: Cache)
    requires Stored(before, key, entry, after)
    ensures key in after && after[key] == entry && forall k :: k in after && k != key ==> k in before && after[k] == before[k]
  {}

  lemma StoredStaysSmall(before: Cache, key: Key, entry: Entry, after: Cache)
    requires |before| <= MAX_KEYS && Stored(before, key, entry, after)
    ensures |after| <= MAX_KEYS
  {
    AddOne(before, key, entry);
    if |before| >= MAX_KEYS {
      var victim :| victim in before && Oldest(before, victim) && after == (before - {victim})[key := entry];
      RemoveOne(before, victim);
      AddOne(before - {victim}, key, entry);
    }
  }

  /** The module-level cache dictionary. */
  class SliceCache {
    var entries: Cache

    constructor ()
      ensures entries == map[]
    {
      entries := map[];
    }

    method Get(key: Key, now: real) returns (facts: Option<seq<Fact>>)
      ensures facts == Lookup(entries, key, now)
    {
      if key in entries && now - entries[key].at < TTL {
        return Some(entries[key].facts);
      }
      return None;
    }

    /** `min(cache, key=time)` */
    method FindOldest() returns (oldest: Key)
      requires entries.Keys != {}
      ensures Oldest(entries, oldest)
    {
      var rest := entries.Keys;
      oldest :| oldest in rest;
      rest := rest - {oldest};
      while rest != {}
        invariant rest <= entries.Keys && oldest in entries
        invariant forall k :: k in entries && k !in rest ==> entries[oldest].at <= entries[k].at
        decreases rest
      {
        var k :| k in rest;
        if entries[k].at < entries[oldest].at {
          oldest := k;
        }
        rest := rest - {k};
      }
    }

    method Put(key: Key, at: real, facts: seq<Fact>)
      modifies this
      ensures Stored(old(entries), key, Entry(at, facts), entries)
    {
      if |entries| >= MAX_KEYS {
        assert entries.Keys != {} by {
          assert |entries| == |entries.Keys|;
        }
        var victim := FindOldest();
        entries := entries - {victim};
      }
      entries := entries[key := Entry(at, facts)];
    }

    /** `load_memory_slice` without another load in between. */
    method Load(rows: seq<Row>, key: Key, now: real, limit: nat) returns (facts: seq<Fact>)
      modifies this
      ensures Lookup(entries, key, now) == Some(facts)
      ensures Lookup(old(entries), key, now).Some? ==> facts == old(entries)[key].facts && entries == old(entries)
      ensures Lookup(old(entries), key, now).None? ==>
        facts == Slice(rows, key.project, key.run, limit) && Stored(old(entries), key, Entry(now, facts), entries)
    {
      var hit := Get(key, now);
      if hit.Some? {
        return hit.value;
      }
      facts := QuerySlice(rows, key.project, key.run, limit);
      Put(key, now, facts);
      StoredEntries(old(entries), key, Entry(now, facts), entries);
    }

    method Invalidate()
      modifies this
      ensures entries == map[]
    {
      entries := map[];
    }

    /** The approval endpoint up to its commit: the candidates are decided, then the cache
        is emptied.  Others see the decided rows from the commit on. */
    method Approve(rows: seq<Row>, ids: seq<nat>, accept: bool) returns (after: seq<Row>)
      requires forall k :: 0 <= k < |ids| ==> ids[k] < |rows|
      modifies this
      ensures after == DecideAll(rows, ids, accept) && (Revised(rows) ==> Revised(after))
      ensures forall key, now :: Lookup(entries, key, now).None?
    {
      after := rows;
      for k := 0 to |ids|
        invariant after == DecideAll(rows, ids[..k], accept)
      {
        DecideOne(rows, ids[..k], ids[k], accept);
        assert ids[..k + 1] == ids[..k] + [ids[k]];
        after := after[ids[k] := after[ids[k]].(status := if accept then Accepted else Rejected)];
      }
      assert ids[..|ids|] == ids;
      Invalidate();
      if Revised(rows) {
        DecideKeepsRevisions(rows, ids, accept);
      }
    }
  }

  // ---------------------------------------------------------------- overlapping loads

  /** A load that missed at `at`; its query may have been answered. */
  datatype Load = Load(key: Key, at: real, answer: Option<seq<Fact>>)

  datatype Sys = Sys(rows: seq<Row>, cache: Cache, now: real, loads: map<nat, Load>)

  datatype Step =
    | Pass(seconds: real)
    // commits of new memories and of decisions, and the invalidations of their writers
    | NewMemories(rows: seq<Row>) | Decision(ids: seq<nat>, accept: bool) | InvalidateAll
    | Miss(load: nat, key: Key) | Query(load: nat) | Save(load: nat, cache: Cache)

  ghost predicate Enabled(s: Sys, step: Step) {
    match step
    case Pass(seconds) => seconds >= 0.0
    case Miss(load, key) => load !in s.loads && Lookup(s.cache, key, s.now).None?
    case Query(load) => load in s.loads
    case Save(load, cache) =>
      load in s.loads && s.loads[load].answer.Some?
      && Stored(s.cache, s.loads[load].key, Entry(s.loads[load].at, s.loads[load].answer.value), cache)
    case _ => true
  }

  /** Every load of the process uses the same limit. */
  function Next(s: Sys, step: Step, limit: nat): Sys
    requires step.Query? || step.Save? ==> step.load in s.loads
  {
    match step
    case Pass(seconds) => s.(now := s.now + seconds)
    case NewMemories(rows) => s.(rows := s.rows + rows)
    case Decision(ids, accept) => s.(rows := DecideAll(s.rows, ids, accept))
    case InvalidateAll => s.(cache := map[])
    case Miss(load, key) => s.(loads := s.loads[load := Load(key, s.now, None)])
    case Query(load) =>
      var l := s.loads[load];
      s.(loads := s.loads[load := l.(answer := Some(Slice(s.rows, l.key.project, l.key.run, limit)))])
    case Save(load, cache) => s.(cache := cache, loads := s.loads - {load})
  }

  /** Consecutive states under a list of steps. */
  ghost predicate Chain(states: seq<Sys>, steps: seq<Step>, limit: nat) {
    && |states| == |steps| + 1
    && forall i :: 0 <= i < |steps| ==> Enabled(states[i], steps[i]) && states[i + 1] == Next(states[i], steps[i], limit)
  }

  /** From the start of the process. */
  ghost predicate Execution(states: seq<Sys>, steps: seq<Step>, limit: nat) {
    Chain(states, steps, limit) && states[0].cache == map[] && states[0].loads == map[]
  }

  /** facts were the uncached slice in some state up to i, at or after `at`. */
  ghost predicate SeenSince(states: seq<Sys>, i: nat, key: Key, at: real, facts: seq<Fact>, limit: nat) {
    exists j :: 0 <= j <= i && j < |states| && at <= states[j].now && facts == Slice(states[j].rows, key.project, key.run, limit)
  }

  ghost predicate LoadsBegan(s: Sys) { forall l :: l in s.loads ==> s.loads[l].at <= s.now }

  ghost predicate Backed(states: seq<Sys>, i: nat, limit: nat)
    requires i < |states|
  {
    && |states[i].cache| <= MAX_KEYS
    && (forall k :: k in states[i].cache ==> SeenSince(states, i, k, states[i].cache[k].at, states[i].cache[k].facts, limit))
    && LoadsBegan(states[i])
    && (forall l :: l in states[i].loads && states[i].loads[l].answer.Some? ==>
      SeenSince(states, i, states[i].loads[l].key, states[i].loads[l].at, states[i].loads[l].answer.value, limit))
  }

  lemma Later(states: seq<Sys>, i: nat, key: Key, at: real, facts: seq<Fact>, limit: nat)
    requires SeenSince(states, i, key, at, facts, limit)
    ensures SeenSince(states, i + 1, key, at, facts, limit)
  {}

  lemma EntryStep(states: seq<Sys>, steps: seq<Step>, i: nat, limit: nat, k: Key)
    requires Execution(states, steps, limit) && i < |steps| && Backed(states, i, limit) && k in states[i + 1].cache
    ensures SeenSince(states, i + 1, k, states[i + 1].cache[k].at, states[i + 1].cache[k].facts, limit)
  {
    var s, step := states[i], steps[i];
    if step.Save? {
      var l := s.loads[step.load];
      StoredEntries(s.cache, l.key, Entry(l.at, l.answer.value), step.cache);
      if k == l.key {
        Later(states, i, k, l.at, l.answer.value, limit);
      } else {
        Later(states, i, k, s.cache[k].at, s.cache[k].facts, limit);
      }
    } else {
      Later(states, i, k, s.cache[k].at, s.cache[k].facts, limit);
    }
  }

  lemma LoadStep(states: seq<Sys>, steps: seq<Step>, i: nat, limit: nat, l: nat)
    requires Execution(states, steps, limit) && i < |steps| && Backed(states, i, limit)
    requires l in states[i + 1].loads && states[i + 1].loads[l].answer.Some?
    ensures var load := states[i + 1].loads[l]; SeenSince(states, i + 1, load.key, load.at, load.answer.value, limit)
  {
    var s, s', step := states[i], states[i + 1], steps[i];
    var load := s'.loads[l];
    if step.Query? && step.load == l {
      assert s'.rows == s.rows && s'.now == s.now && s.loads[l].at <= s.now;
    } else {
      assert l in s.loads && s.loads[l] == load;
      Later(states, i, load.key, load.at, load.answer.value, limit);
    }
  }

  lemma SizeStep(states: seq<Sys>, steps: seq<Step>, i: nat, limit: nat)
    requires Execution(states, steps, limit) && i < |steps| && Backed(states, i, limit)
    ensures |states[i + 1].cache| <= MAX_KEYS
    ensures LoadsBegan(states[i + 1])
  {
    var s, step := states[i], steps[i];
    if step.Save? {
      var l := s.loads[step.load];
      StoredStaysSmall(s.cache, l.key, Entry(l.at, l.answer.value), step.cache);
    }
  }

  lemma BackedStep(states: seq<Sys>, steps: seq<Step>, i: nat, limit: nat)
    requires Execution(states, steps, limit) && i < |steps| && Backed(states, i, limit)
    ensures Backed(states, i + 1, limit)
  {
    SizeStep(states, steps, i, limit);
    var s' := states[i + 1];
    forall k | k in s'.cache
      ensures SeenSince(states, i + 1, k, s'.cache[k].at, s'.cache[k].facts, limit)
    {
      EntryStep(states, steps, i, limit, k);
    }
    forall l | l in s'.loads && s'.loads[l].answer.Some?
      ensures SeenSince(states, i + 1, s'.loads[l].key, s'.loads[l].at, s'.loads[l].answer.value, limit)
    {
      LoadStep(states, steps, i, limit, l);
    }
  }

  lemma {:induction false} AlwaysBacked(states: seq<Sys>, steps: seq<Step>, i: nat, limit: nat)
    requires Execution(states, steps, limit) && i <= |steps|
    ensures Backed(states, i, limit)
  {
    if i > 0 {
      AlwaysBacked(states, steps, i - 1, limit);
      BackedStep(states, steps, i - 1, limit);
    }
  }

  lemma {:induction false} ClockAdvances(states: seq<Sys>, steps: seq<Step>, j: nat, i: nat, limit: nat)
    requires Execution(states, steps, limit) && j <= i <= |steps|
    ensures states[j].now <= states[i].now
    decreases i - j
  {
    if j < i {
      assert states[j].now <= states[j + 1].now;
      ClockAdvances(states, steps, j + 1, i, limit);
    }
  }

  /** A cache hit returns what the query would have returned at some moment less than
      two seconds before it; and at most 64 slices are cached. */
  lemma HitIsRecent(states: seq<Sys>, steps: seq<Step>, i: nat, key: Key, limit: nat) returns (j: nat)
    requires Execution(states, steps, limit) && i <= |steps| && Lookup(states[i].cache, key, states[i].now).Some?
    ensures j <= i && 0.0 <= states[i].now - states[j].now < TTL
    ensures Lookup(states[i].cache, key, states[i].now) == Some(Slice(states[j].rows, key.project, key.run, limit))
    ensures |states[i].cache| <= MAX_KEYS
  {
    AlwaysBacked(states, steps, i, limit);
    var entry := states[i].cache[key];
    assert SeenSince(states, i, key, entry.at, entry.facts, limit);
    j :| 0 <= j <= i && entry.at <= states[j].now && entry.facts == Slice(states[j].rows, key.project, key.run, limit);
    ClockAdvances(states, steps, j, i, limit);
  }

  // ---------------------------------------------------------------- when a commit is seen at once

  /** facts are the uncached slice in one of the states up to i. */
  ghost predicate Seen(states: seq<Sys>, i: nat, key: Key, facts: seq<Fact>, limit: nat) {
    exists j :: 0 <= j <= i && j < |states| && facts == Slice(states[j].rows, key.project, key.run, limit)
  }

  ghost predicate HitSeen(states: seq<Sys>, i: nat, key: Key, limit: nat)
    requires i < |states|
  {
    var hit := Lookup(states[i].cache, key, states[i].now);
    hit.Some? ==> Seen(states, i, key, hit.value, limit)
  }

  /** Whatever happens from s on, a hit shows the rows of s or later ones. */
  ghost predicate HitsAreCurrent(s: Sys, limit: nat) {
    forall states, steps, i: nat, key :: Chain(states, steps, limit) && states[0] == s && i <= |steps| ==>
      HitSeen(states, i, key, limit)
  }

  /** No entry that could be hit differs from the rows. */
  ghost predicate NoOldEntry(s: Sys, limit: nat) {
    forall k :: k in s.cache && s.now - s.cache[k].at < TTL ==> s.cache[k].facts == Slice(s.rows, k.project, k.run, limit)
  }

  /** No load that could still be saved and hit was answered from other rows. */
  ghost predicate NoOldAnswer(s: Sys, limit: nat) {
    forall l :: l in s.loads && s.loads[l].answer.Some? && s.now - s.loads[l].at < TTL ==>
      s.loads[l].answer.value == Slice(s.rows, s.loads[l].key.project, s.loads[l].key.run, limit)
  }

  /** Every entry and answer that is young enough to be hit is one of the slices since states[0]. */
  ghost predicate Current(states: seq<Sys>, i: nat, limit: nat)
    requires i < |states|
  {
    && (forall k :: k in states[i].cache && states[i].now - states[i].cache[k].at < TTL ==>
      Seen(states, i, k, states[i].cache[k].facts, limit))
    && (forall l :: l in states[i].loads && states[i].loads[l].answer.Some? && states[i].now - states[i].loads[l].at < TTL ==>
      Seen(states, i, states[i].loads[l].key, states[i].loads[l].answer.value, limit))
  }

  lemma SeenLater(states: seq<Sys>, i: nat, key: Key, facts: seq<Fact>, limit: nat)
    requires Seen(states, i, key, facts, limit)
    ensures Seen(states, i + 1, key, facts, limit)
  {}

  lemma CurrentEntry(states: seq<Sys>, steps: seq<Step>, i: nat, limit: nat, k: Key)
    requires Chain(states, steps, limit) && i < |steps| && Current(states, i, limit)
    requires k in states[i + 1].cache && states[i + 1].now - states[i + 1].cache[k].at < TTL
    ensures Seen(states, i + 1, k, states[i + 1].cache[k].facts, limit)
  {
    var s, step := states[i], steps[i];
    assert s.now <= states[i + 1].now;
    if step.Save? {
      var l := s.loads[step.load];
      StoredEntries(s.cache, l.key, Entry(l.at, l.answer.value), step.cache);
    }
    SeenLater(states, i, k, states[i + 1].cache[k].facts, limit);
  }

  lemma CurrentAnswer(states: seq<Sys>, steps: seq<Step>, i: nat, limit: nat, l: nat)
    requires Chain(states, steps, limit) && i < |steps| && Current(states, i, limit)
    requires l in states[i + 1].loads && states[i + 1].loads[l].answer.Some? && states[i + 1].now - states[i + 1].loads[l].at < TTL
    ensures Seen(states, i + 1, states[i + 1].loads[l].key, states[i + 1].loads[l].answer.value, limit)
  {
    var s, load := states[i], states[i + 1].loads[l];
    assert s.now <= states[i + 1].now;
    if steps[i].Query? && steps[i].load == l {
      assert load.answer.value == Slice(states[i + 1].rows, load.key.project, load.key.run, limit);
    } else {
      assert l in s.loads && s.loads[l] == load;
      SeenLater(states, i, load.key, load.answer.value, limit);
    }
  }

  lemma {:induction false} StaysCurrent(states: seq<Sys>, steps: seq<Step>, i: nat, limit: nat)
    requires Chain(states, steps, limit) && i <= |steps| && NoOldEntry(states[0], limit) && NoOldAnswer(states[0], limit)
    ensures Current(states, i, limit)
  {
    if i > 0 {
      StaysCurrent(states, steps, i - 1, limit);
      forall k | k in states[i].cache && states[i].now - states[i].cache[k].at < TTL
        ensures Seen(states, i, k, states[i].cache[k].facts, limit)
      {
        CurrentEntry(states, steps, i - 1, limit, k);
      }
      forall l | l in states[i].loads && states[i].loads[l].answer.Some? && states[i].now - states[i].loads[l].at < TTL
        ensures Seen(states, i, states[i].loads[l].key, states[i].loads[l].answer.value, limit)
      {
        CurrentAnswer(states, steps, i - 1, limit, l);
      }
    }
  }

  /** Storing is always possible: a full cache has an oldest entry. */
  lemma {:induction false} OldestAmong(cache: Cache, keys: set<Key>) returns (oldest: Key)
    requires keys <= cache.Keys && exists k :: k in keys
    ensures oldest in keys && forall k :: k in keys ==> cache[oldest].at <= cache[k].at
  {
    var first :| first in keys;
    oldest := first;
    assert forall k :: k in keys ==> k == first || k in keys - {first};
    if exists k :: k in keys - {first} {
      var rest := OldestAmong(cache, keys - {first});
      oldest := if cache[rest].at < cache[first].at then rest else first;
    }
  }

  lemma CanStore(cache: Cache, key: Key, entry: Entry) returns (after: Cache)
    ensures Stored(cache, key, entry, after)
  {
    if |cache| < MAX_KEYS {
      after := cache[key := entry];
    } else {
      assert |cache.Keys| == |cache|;
      var k :| k in cache.Keys;
      var victim := OldestAmong(cache, cache.Keys);
      after := (cache - {victim})[key := entry];
    }
  }

  lemma NotCurrent(states: seq<Sys>, steps: seq<Step>, i: nat, key: Key, limit: nat)
    requires Chain(states, steps, limit) && i <= |steps| && !HitSeen(states, i, key, limit)
    ensures !HitsAreCurrent(states[0], limit)
  {}

  /** An old entry is a hit already. */
  lemma OldEntryHits(s: Sys, k: Key, limit: nat)
    requires k in s.cache && s.now - s.cache[k].at < TTL && s.cache[k].facts != Slice(s.rows, k.project, k.run, limit)
    ensures !HitsAreCurrent(s, limit)
  {
    NotCurrent([s], [], 0, k, limit);
  }

  /** One Save turns an old answer into a hit. */
  lemma OldAnswerHits(s: Sys, l: nat, limit: nat)
    requires l in s.loads && s.loads[l].answer.Some? && s.now - s.loads[l].at < TTL
    requires s.loads[l].answer.value != Slice(s.rows, s.loads[l].key.project, s.loads[l].key.run, limit)
    ensures !HitsAreCurrent(s, limit)
  {
    var load := s.loads[l];
    var entry := Entry(load.at, load.answer.value);
    var cache := CanStore(s.cache, load.key, entry);
    StoredEntries(s.cache, load.key, entry, cache);
    var states := [s, Next(s, Save(l, cache), limit)];
    assert Lookup(states[1].cache, load.key, states[1].now) == Some(load.answer.value);
    NotCurrent(states, [Save(l, cache)], 1, load.key, limit);
  }

  /** From a state on every hit shows its rows or later ones exactly when no entry and no
      answer in flight that is young enough to be hit differs from them. */
  lemma CurrentExactly(s: Sys, limit: nat)
    ensures HitsAreCurrent(s, limit) <==> NoOldEntry(s, limit) && NoOldAnswer(s, limit)
  {
    if !NoOldEntry(s, limit) {
      var k :| k in s.cache && s.now - s.cache[k].at < TTL && s.cache[k].facts != Slice(s.rows, k.project, k.run, limit);
      OldEntryHits(s, k, limit);
    } else if !NoOldAnswer(s, limit) {
      var l :| l in s.loads && s.loads[l].answer.Some? && s.now - s.loads[l].at < TTL
        && s.loads[l].answer.value != Slice(s.rows, s.loads[l].key.project, s.loads[l].key.run, limit);
      OldAnswerHits(s, l, limit);
    } else {
      forall states, steps, i: nat, key | Chain(states, steps, limit) && states[0] == s && i <= |steps|
        ensures HitSeen(states, i, key, limit)
      {
        StaysCurrent(states, steps, i, limit);
      }
    }
  }

  predicate Commits(step: Step) { step.NewMemories? || step.Decision? }

  /** A committed decision or memory is seen at once, by every later hit, exactly when no
      young entry and no young answer in flight shows something else for its key. */
  lemma CommitShowsExactly(states: seq<Sys>, steps: seq<Step>, c: nat, limit: nat)
    requires Execution(states, steps, limit) && 0 < c <= |steps| && Commits(steps[c - 1])
    ensures HitsAreCurrent(states[c], limit) <==> NoOldEntry(states[c], limit) && NoOldAnswer(states[c], limit)
  {
    CurrentExactly(states[c], limit);
  }

  /** The writers invalidate before they commit.  That is enough when no load is in flight
      at the invalidation and none begins until the commit. */
  lemma {:induction false} QuietCommitShows(states: seq<Sys>, steps: seq<Step>, b: nat, c: nat, limit: nat)
    requires Chain(states, steps, limit) && b <= c <= |steps| && states[b].cache == map[] && states[b].loads == map[]
    requires forall k :: b <= k < c ==> !steps[k].Miss?
    ensures states[c].cache == map[] && states[c].loads == map[] && HitsAreCurrent(states[c], limit)
    decreases c - b
  {
    if b < c {
      assert states[b + 1] == Next(states[b], steps[b], limit) && Enabled(states[b], steps[b]);
      QuietCommitShows(states, steps, b + 1, c, limit);
    } else {
      CurrentExactly(states[c], limit);
    }
  }

  const PROJECT_KEY := Key("p", "r")
  const PROPOSED := Row("p", "r", "k", 1, MemorySlice.Proposed, "v")
  const APPROVED := PROPOSED.(status := Accepted)
  const EMPTY := Sys([PROPOSED], map[], 0.0, map[])
  const ANSWERED := map[0 := Load(PROJECT_KEY, 0.0, Some([]))]
  const SAVED := map[PROJECT_KEY := Entry(0.0, [])]
  const RACE := [InvalidateAll, Miss(0, PROJECT_KEY), Query(0), Decision([0], true), Save(0, SAVED)]

  lemma OneRowSlice(row: Row, limit: nat)
    requires limit > 0
    ensures Slice([row], row.project, row.run, limit) == if row.status.Accepted? then [FactOf(row)] else []
  {
    var rows := [row];
    assert NewestIds(rows, row.project, row.run, 1, 0) == [];
    assert Newest(rows, row.project, row.run, 1, 0) <==> row.status.Accepted?;
  }

  lemma OldAnswer()
    ensures Enabled(EMPTY, RACE[1]) && Enabled(Next(EMPTY, RACE[1], SLICE_LIMIT), RACE[2])
    ensures Next(Next(EMPTY, RACE[1], SLICE_LIMIT), RACE[2], SLICE_LIMIT) == EMPTY.(loads := ANSWERED)
  {
    OneRowSlice(PROPOSED, SLICE_LIMIT);
  }

  lemma Approves()
    ensures var s := EMPTY.(loads := ANSWERED);
      Enabled(s, RACE[3]) && Next(s, RACE[3], SLICE_LIMIT) == s.(rows := [APPROVED])
  {
    assert DecideAll([PROPOSED], [0], true) == [APPROVED];
  }

  lemma SavedLate(rows: seq<Row>)
    ensures var s := Sys(rows, map[], 0.0, ANSWERED);
      Enabled(s, RACE[4]) && Next(s, RACE[4], SLICE_LIMIT) == Sys(rows, SAVED, 0.0, map[])
  {
    assert SAVED == map[][PROJECT_KEY := Entry(0.0, [])];
    assert ANSWERED - {0} == map[];
  }

  /** An approval that invalidates with no load in flight and then commits can be hidden: a
      load between the two stores the slice from before. */
  lemma StaleAfterCommit() returns (states: seq<Sys>)
    ensures Execution(states, RACE, SLICE_LIMIT) && states[1].cache == map[] && states[1].loads == map[]
    ensures Lookup(states[5].cache, PROJECT_KEY, states[5].now) == Some([])
    ensures Slice(states[5].rows, "p", "r", SLICE_LIMIT) == [Fact("k", "v")]
  {
    var s2 := Next(EMPTY, RACE[1], SLICE_LIMIT);
    var s3 := EMPTY.(loads := ANSWERED);
    var s5 := Sys([APPROVED], SAVED, 0.0, map[]);
    states := [EMPTY, EMPTY, s2, s3, s3.(rows := [APPROVED]), s5];
    assert Next(EMPTY, RACE[0], SLICE_LIMIT) == EMPTY;
    OldAnswer();
    Approves();
    SavedLate([APPROVED]);
    assert Slice(s5.rows, "p", "r", SLICE_LIMIT) == [Fact("k", "v")] by {
      OneRowSlice(APPROVED, SLICE_LIMIT);
    }
  }
}
