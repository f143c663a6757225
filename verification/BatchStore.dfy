/** The batch hooks as they run: events and runs updated in place. */
module BatchStore {
  import opened RunModel
  import opened BatchChain

  /** One entry of the analyst's chapter list. */
  datatype Entry = NotADict | Numbered(no: int) | Unnumbered

  /** A normalised chapter, with the position of its entry. */
  datatype Chapter = Chapter(no: int, position: nat)

  /** The chapter an entry becomes; an unusable number falls back to the 1-based position. */
  function Normalized(entries: seq<Entry>, i: nat): Chapter
    requires i < |entries|
  {
    Chapter(if entries[i].Numbered? then entries[i].no else i + 1, i)
  }

  /** By number, ties in list order. */
  predicate Before(a: Chapter, b: Chapter) { a.no < b.no || (a.no == b.no && a.position < b.position) }

  ghost predicate InOrder(s: seq<Chapter>) { forall i, j :: 0 <= i < j < |s| ==> Before(s[i], s[j]) }

  /** Inserts behind every chapter that is not beyond it. */
  method Insert(s: seq<Chapter>, c: Chapter) returns (r: seq<Chapter>)
    requires InOrder(s) && forall i :: 0 <= i < |s| ==> s[i].position < c.position
    ensures InOrder(r) && |r| == |s| + 1 && forall x :: x in r <==> x in s || x == c
  {
    var k := |s|;
    while k > 0 && s[k - 1].no > c.no
      invariant 0 <= k <= |s| && forall i :: k <= i < |s| ==> s[i].no > c.no
    {
      k := k - 1;
    }
    InsertedInOrder(s, c, k);
    r := s[..k] + [c] + s[k..];
  }

  lemma InsertedInOrder(s: seq<Chapter>, c: Chapter, k: nat)
    requires InOrder(s) && k <= |s| && forall i :: 0 <= i < |s| ==> s[i].position < c.position
    requires (k > 0 ==> s[k - 1].no <= c.no) && forall i :: k <= i < |s| ==> s[i].no > c.no
    ensures var r := s[..k] + [c] + s[k..]; InOrder(r) && forall x :: x in r <==> x in s || x == c
  {
    var r := s[..k] + [c] + s[k..];
    forall i | 0 <= i < k
      ensures Before(s[i], c)
    {
      assert i == k - 1 || Before(s[i], s[k - 1]);
    }
    forall i, j | 0 <= i < j < |r|
      ensures Before(r[i], r[j])
    {
      assert r[i] == if i < k then s[i] else if i == k then c else s[i - 1];
      assert r[j] == if j < k then s[j] else if j == k then c else s[j - 1];
    }
    assert s == s[..k] + s[k..];
  }

  /** Chapter c is what the entry at its position becomes, among the first n entries. */
  predicate FromEntries(entries: seq<Entry>, n: nat, c: Chapter)
    requires n <= |entries|
  {
    c.position < n && !entries[c.position].NotADict? && c == Normalized(entries, c.position)
  }

  /** `normalize_chapters`: the usable entries, each once, sorted by chapter number. */
  method NormalizeChapters(entries: seq<Entry>) returns (chapters: seq<Chapter>)
    ensures InOrder(chapters) && forall c :: c in chapters <==> FromEntries(entries, |entries|, c)
  {
    chapters := [];
    for i := 0 to |entries|
      invariant InOrder(chapters) && forall c :: c in chapters <==> FromEntries(entries, i, c)
    {
      if !entries[i].NotADict? {
        assert forall k :: 0 <= k < |chapters| ==> chapters[k] in chapters;
        chapters := Insert(chapters, Normalized(entries, i));
      }
    }
  }

  method Numbers(chapters: seq<Chapter>) returns (numbers: seq<int>)
    requires InOrder(chapters)
    ensures |numbers| == |chapters| && Sorted(numbers) && forall i :: 0 <= i < |chapters| ==> numbers[i] == chapters[i].no
  {
    numbers := [];
    for i := 0 to |chapters|
      invariant |numbers| == i && forall j :: 0 <= j < i ==> numbers[j] == chapters[j].no
    {
      numbers := numbers + [chapters[i].no];
    }
  }

  class BatchRow {
    var events: seq<BatchEvent>
    var runs: map<int, ChapterRun>
    var enqueues: set<int>

    function State(): Batch
      reads this
    {
      Batch(events, runs, enqueues)
    }

    /** `_load_batch_plan` */
    method LoadPlan() returns (planned: Option<seq<int>>, ended: bool)
      ensures planned == Plan(events) && ended == Ended(events)
    {
      planned, ended := None, false;
      assert events[..0] == [];
      for i := 0 to |events|
        invariant planned == Plan(events[..i])
        invariant ended <==> exists j :: 0 <= j < i && !events[j].Planned?
      {
        assert events[..i + 1][..i] == events[..i];
        if events[i].Planned? {
          planned := Some(events[i].numbers);
        } else {
          ended := true;
        }
      }
      assert events[..|events|] == events;
    }

    method Append(event: BatchEvent)
      modifies this`events
      ensures events == old(events) + [event]
    {
      events := events + [event];
    }

    /** `_dispatch_chapter` for a new key, up to the commit of its run. */
    method Dispatch(no: int, outcome: Dispatch)
      modifies this
      ensures State() == DispatchChapter(old(State()), no, outcome)
    {
      if outcome.Refused? {
        Append(BatchStalled(no));
        return;
      }
      runs := runs[no := ChapterRun(RunPending, {}, false)];
      enqueues := enqueues + {no};
    }

    method FilterAtMost(numbers: seq<int>, limit: nat) returns (kept: seq<int>)
      ensures kept == AtMost(numbers, limit)
    {
      kept := [];
      assert numbers[..0] == [];
      for i := 0 to |numbers|
        invariant kept == AtMost(numbers[..i], limit)
      {
        assert numbers[..i + 1][..i] == numbers[..i];
        if numbers[i] <= limit {
          kept := kept + [numbers[i]];
        }
      }
      assert numbers[..|numbers|] == numbers;
    }

    /** `_plan_batch_after_analyze` */
    method PlanBatch(numbers: seq<int>, limit: Option<nat>, work: bool, outcome: Dispatch)
      modifies this
      ensures State() == PlanAfterAnalyze(old(State()), numbers, limit, work, outcome)
    {
      var planned, ended := LoadPlan();
      if planned.Some? || ended || |numbers| < 2 || !work {
        return;
      }
      var chapters := if |numbers| > BATCH_MAX_CHAPTERS then numbers[..BATCH_MAX_CHAPTERS] else numbers;
      if limit.Some? && |chapters| > limit.value {
        chapters := FilterAtMost(chapters, limit.value);
      }
      var committed := events;
      Append(Planned(chapters));
      if chapters == [] || chapters[0] in runs {
        events := committed;
        return;
      }
      Dispatch(chapters[0], outcome);
    }

    /** The hook of the analyze run, from the chapters its artifact lists. */
    method PlanOutline(entries: seq<Entry>, limit: Option<nat>, work: bool, outcome: Dispatch) returns (numbers: seq<int>)
      modifies this
      ensures State() == PlanAfterAnalyze(old(State()), numbers, limit, work, outcome) && Sorted(numbers)
      ensures forall n :: n in numbers <==> exists i :: 0 <= i < |entries| && !entries[i].NotADict? && Normalized(entries, i).no == n
    {
      var chapters := NormalizeChapters(entries);
      numbers := Numbers(chapters);
      PlanBatch(numbers, limit, work, outcome);
      forall n
        ensures n in numbers <==> exists i :: 0 <= i < |entries| && !entries[i].NotADict? && Normalized(entries, i).no == n
      {
        if i :| 0 <= i < |entries| && !entries[i].NotADict? && Normalized(entries, i).no == n {
          assert Normalized(entries, i) in chapters;
        }
        if n in numbers {
          var k :| 0 <= k < |numbers| && numbers[k] == n;
          assert chapters[k] in chapters && FromEntries(entries, |entries|, chapters[k]);
        }
      }
    }

    method FindNext(numbers: seq<int>, no: int) returns (next: Option<int>)
      ensures next == NextAfter(numbers, no)
    {
      for i := 0 to |numbers|
        invariant NextAfter(numbers, no) == NextAfter(numbers[i..], no)
      {
        if numbers[i] > no {
          return Some(numbers[i]);
        }
        assert numbers[i..][1..] == numbers[i + 1..];
      }
      return None;
    }

    /** `_batch_summary` */
    method BatchSummary(numbers: seq<int>) returns (s: Summary)
      ensures s == Summarize(numbers, runs)
    {
      s := Summary([], [], [], []);
      assert numbers[..0] == [];
      for i := 0 to |numbers|
        invariant s == Summarize(numbers[..i], runs)
      {
        assert numbers[..i + 1][..i] == numbers[..i];
        var no := numbers[i];
        if no !in runs {
          s := s.(undispatched := s.undispatched + [no]);
        } else if !runs[no].status.RunCompleted? {
          s := s.(skipped := s.skipped + [no]);
        } else if !runs[no].writtenBack {
          s := s.(writebackMissing := s.writebackMissing + [no]);
        } else {
          s := s.(succeeded := s.succeeded + [no]);
        }
      }
      assert numbers[..|numbers|] == numbers;
    }

    /** `_advance_batch_after_chapter` */
    method Advance(no: int, status: RunStatus, work: bool, outcome: Dispatch)
      modifies this
      ensures State() == AdvanceAfterChapter(old(State()), no, status, work, outcome)
    {
      var plan, ended := LoadPlan();
      if plan.None? || ended || no !in plan.value {
        return;
      }
      if status.RunCancelled? {
        Append(BatchTerminated);
        return;
      }
      var next := FindNext(plan.value, no);
      if next.None? {
        var summary := BatchSummary(plan.value);
        Append(BatchCompleted(summary));
      } else if !work {
        Append(BatchTerminated);
      } else if next.value !in runs {
        Dispatch(next.value, outcome);
      }
    }
  }
}
