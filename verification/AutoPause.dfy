/** When a run pauses itself, and what a resume does not reset. */
module AutoPause {
  import opened RunModel
  import opened Executor
  import Control

  /** The settle entries of a log, oldest first: true for a retryable provider failure. */
  function Outcomes(events: seq<Event>): seq<bool> {
    if events == [] then []
    else
      var rest, b := Outcomes(events[..|events| - 1]), events[|events| - 1].body;
      if b.TaskFailure? then rest + [b.provider]
      else if b.TaskSuccess? then rest + [false]
      else rest
  }

  /** The last n outcomes exist and are all retryable provider failures. */
  predicate EndsInFailures(outcomes: seq<bool>, n: nat) {
    |outcomes| >= n && forall k :: |outcomes| - n <= k < |outcomes| ==> outcomes[k]
  }

  lemma {:induction false} StreakCountsTheTail(events: seq<Event>, n: nat)
    ensures Streak(events) >= n <==> EndsInFailures(Outcomes(events), n)
  {
    if events != [] && n > 0 {
      var rest, b := events[..|events| - 1], events[|events| - 1].body;
      var o, before := Outcomes(events), Outcomes(rest);
      if b.TaskFailure? || b.TaskSuccess? {
        StreakCountsTheTail(rest, n - 1);
        assert o[..|o| - 1] == before;
        if b.TaskFailure? && b.provider && EndsInFailures(before, n - 1) {
          forall k | |o| - n <= k < |o|
            ensures o[k]
          {
            assert k == |o| - 1 || before[k];
          }
        }
        if EndsInFailures(o, n) {
          forall k | |before| - (n - 1) <= k < |before|
            ensures before[k]
          {
            assert o[k];
          }
          assert o[|o| - 1];
        }
      } else {
        StreakCountsTheTail(rest, n);
      }
    }
  }

  /** Committing a retryable failure pauses the run exactly when the last two
      settled claims of the run, of whatever task, failed the same way. */
  lemma PausesExactly(r: Run, t: TaskId, now: int, jitter: nat)
    requires t < |r.tasks| && r.status.RunRunning?
    ensures CommitRetryable(r, t, now, jitter).status.RunPaused? <==> EndsInFailures(Outcomes(r.events), AUTO_PAUSE_STREAK - 1)
  {
    var r1 := AddEvent(SetTask(r, t, Delayed(r.tasks[t], now, jitter)), TaskFailure(t, true, true));
    assert r1.events[..|r1.events| - 1] == r.events;
    assert Streak(r1.events) == Streak(r.events) + 1;
    StreakCountsTheTail(r.events, AUTO_PAUSE_STREAK - 1);
  }

  lemma SameOutcomes(r: Run, r': Run, b: Body)
    requires r'.events == r.events && !b.TaskFailure? && !b.TaskSuccess?
    ensures Outcomes(AddEvent(r', b).events) == Outcomes(r.events)
  {
    assert AddEvent(r', b).events[..|r.events|] == r.events;
  }

  /** A resume does not start the count afresh: after an automatic pause and a
      resume, the first retryable failure pauses the run again. */
  lemma ResumeKeepsStreak(r: Run, r': Run, t: TaskId, now: int, jitter: nat)
    requires r.status.RunPaused? && EndsInFailures(Outcomes(r.events), AUTO_PAUSE_STREAK)
    requires Outcomes(r'.events) == Outcomes(Control.Resume(r, false).run.events)
    requires r'.status.RunRunning? && t < |r'.tasks|
    ensures CommitRetryable(r', t, now, jitter).status.RunPaused?
  {
    SameOutcomes(r, r.(status := RunRunning), Controlled);
    assert EndsInFailures(Outcomes(r'.events), AUTO_PAUSE_STREAK - 1);
    PausesExactly(r', t, now, jitter);
  }
}
