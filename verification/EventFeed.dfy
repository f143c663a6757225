/** Cursor paging over the event log (`list_events`), polled while events are appended. */
module EventFeed {
  import opened RunModel
  import opened Protocol
  import opened Fencing
  import opened Ledger

  function NonNegative(after: int): nat { if after < 0 then 0 else after }

  /** Rows with a sequence beyond `after`, in order. */
  function Page(events: seq<Event>, after: int): seq<Event> {
    if events == [] then []
    else
      var last := events[|events| - 1];
      Page(events[..|events| - 1], after) + (if last.sequence > NonNegative(after) then [last] else [])
  }

  function NextCursor(page: seq<Event>, after: int): nat {
    if page == [] then NonNegative(after) else page[|page| - 1].sequence
  }

  lemma {:induction false} PageIsSuffix(events: seq<Event>, after: int)
    requires forall i :: 0 <= i < |events| ==> events[i].sequence == i + 1
    ensures Page(events, after) == if NonNegative(after) <= |events| then events[NonNegative(after)..] else []
  {
    var a := NonNegative(after);
    if events != [] {
      var rest := events[..|events| - 1];
      PageIsSuffix(rest, after);
      if a <= |rest| {
        assert events[a..] == rest[a..] + [events[|events| - 1]];
      }
    }
  }

  /** What a client receives that polls these snapshots with the cursors returned. */
  function Received(logs: seq<seq<Event>>, after: int): seq<Event> {
    if logs == [] then []
    else
      var page := Page(logs[0], after);
      page + Received(logs[1..], NextCursor(page, after))
  }

  ghost predicate Growing(logs: seq<seq<Event>>) {
    && (forall k, i :: 0 <= k < |logs| && 0 <= i < |logs[k]| ==> logs[k][i].sequence == i + 1)
    && (forall k :: 0 < k < |logs| ==> logs[k - 1] <= logs[k])
  }

  lemma {:induction false} ReceivesSuffix(logs: seq<seq<Event>>, after: int)
    requires Growing(logs) && logs != [] && 0 <= after <= |logs[0]|
    ensures after <= |logs[|logs| - 1]| && Received(logs, after) == logs[|logs| - 1][after..]
  {
    PageIsSuffix(logs[0], after);
    var page := Page(logs[0], after);
    assert NextCursor(page, after) == |logs[0]|;
    if |logs| > 1 {
      assert logs[0] <= logs[1];
      Shorter(logs);
      ReceivesSuffix(logs[1..], |logs[0]|);
      Prefixes(logs, |logs| - 1);
      TwoParts(logs[0], logs[|logs| - 1], after);
    }
  }

  lemma TwoParts(early: seq<Event>, late: seq<Event>, after: nat)
    requires early <= late && after <= |early|
    ensures late[after..] == early[after..] + late[|early|..]
  {}

  lemma Shorter(logs: seq<seq<Event>>)
    requires Growing(logs) && |logs| > 1
    ensures Growing(logs[1..])
  {
    forall k | 0 < k < |logs[1..]|
      ensures logs[1..][k - 1] <= logs[1..][k]
    {
      assert logs[k] <= logs[k + 1];
    }
  }

  lemma {:induction false} Prefixes(logs: seq<seq<Event>>, k: nat)
    requires Growing(logs) && k < |logs|
    ensures logs[0] <= logs[k]
  {
    if k > 0 {
      Prefixes(logs, k - 1);
    }
  }

  /** The logs a client sees when it polls at these moments. */
  function Snapshots(states: seq<Sys>, polls: seq<nat>): (logs: seq<seq<Event>>)
    requires forall k :: 0 <= k < |polls| ==> polls[k] < |states|
    ensures |logs| == |polls| && forall k :: 0 <= k < |polls| ==> logs[k] == states[polls[k]].run.events
  {
    seq(|polls|, k requires 0 <= k < |polls| => states[polls[k]].run.events)
  }

  /** A client that starts at cursor 0 and polls at any moments of any run of the
      system has, after each poll, received every event so far exactly once and in
      order: its log is the run's log. */
  lemma PollingReceivesTheLog(states: seq<Sys>, steps: seq<Step>, polls: seq<nat>)
    requires Execution(states, steps) && polls != []
    requires forall k :: 0 <= k < |polls| ==> polls[k] < |states|
    requires forall k :: 0 < k < |polls| ==> polls[k - 1] <= polls[k]
    ensures Received(Snapshots(states, polls), 0) == states[polls[|polls| - 1]].run.events
  {
    var logs: seq<seq<Event>> := Snapshots(states, polls);
    forall k, i | 0 <= k < |logs| && 0 <= i < |logs[k]|
      ensures logs[k][i].sequence == i + 1
    {
      AlwaysBalanced(states, steps, polls[k]);
    }
    forall k | 0 < k < |logs|
      ensures logs[k - 1] <= logs[k]
    {
      LogKept(states, steps, polls[k - 1], polls[k]);
    }
    ReceivesSuffix(logs, 0);
  }

  /** In every reachable state events are numbered 1..event_cursor without gaps. */
  lemma EventsNumbered(states: seq<Sys>, steps: seq<Step>, i: nat)
    requires Execution(states, steps) && i <= |steps|
    ensures states[i].run.cursor == |states[i].run.events|
    ensures forall k :: 0 <= k < |states[i].run.events| ==> states[i].run.events[k].sequence == k + 1
  {
    AlwaysBalanced(states, steps, i);
  }
}
