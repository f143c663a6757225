/** The promise ledger: counting fulfilments of a promise and ticking it off. */
module PromiseLedger {
  import opened RunModel

  datatype Status = Open | Developing | Resolved | Abandoned | Excluded

  /** `required_fulfillments` as stored: missing, empty or zero; an integer; or
      something `int` rejects. */
  datatype Required = Unset | Times(n: int) | Unusable

  datatype Fulfillment = Fulfillment(chapter: Option<int>, quote: string)

  datatype Promise = Promise(
    status: Status, fulfillments: seq<Fulfillment>, required: Required, resolvedChapter: Option<Option<int>>, version: int)

  /** PROMISE_TRANSITIONS */
  predicate Allowed(source: Status, target: Status) {
    (source.Open? && target.Developing?) || (source.Developing? && (target.Resolved? || target.Abandoned?))
  }

  function Needed(required: Required): int { if required.Times? then required.n else 1 }

  function Record(fulfillments: seq<Fulfillment>, f: Fulfillment): seq<Fulfillment> {
    if f in fulfillments then fulfillments else fulfillments + [f]
  }

  /** `apply_fulfillment` */
  function Apply(p: Promise, f: Fulfillment): Promise {
    var recorded := Record(p.fulfillments, f);
    var q := p.(fulfillments := recorded, version := p.version + 1);
    if |recorded| >= Needed(p.required) && (p.status.Open? || p.status.Developing?) then
      q.(status := Resolved, resolvedChapter := Some(f.chapter))
    else if p.status.Open? then q.(status := Developing)
    else q
  }

  // ---------------------------------------------------------------- the row

  class PromiseRow {
    var status: Status
    var fulfillments: seq<Fulfillment>
    var required: Required
    var resolvedChapter: Option<Option<int>>
    var version: int

    function Value(): Promise
      reads this
    {
      Promise(status, fulfillments, required, resolvedChapter, version)
    }

    /** `_transition_status`: raises on a transition the table does not have. */
    method Transition(target: Status) returns (raised: bool)
      modifies this`status
      ensures raised == !Allowed(old(status), target)
      ensures status == if raised then old(status) else target
    {
      if !Allowed(status, target) {
        return true;
      }
      status := target;
      return false;
    }

    /** Never raises: each status change it makes is in the table. */
    method ApplyFulfillment(f: Fulfillment)
      modifies this
      ensures Value() == Apply(old(Value()), f)
    {
      if f !in fulfillments {
        fulfillments := fulfillments + [f];
      }
      var needed := if required.Times? then required.n else 1;
      var raised: bool;
      if |fulfillments| >= needed && (status.Open? || status.Developing?) {
        if status.Open? {
          raised := Transition(Developing);
          assert !raised;
        }
        resolvedChapter := Some(f.chapter);
        raised := Transition(Resolved);
        assert !raised;
      } else if status.Open? {
        raised := Transition(Developing);
        assert !raised;
      }
      version := version + 1;
    }
  }

  // ---------------------------------------------------------------- a whole history

  function History(p: Promise, calls: seq<Fulfillment>): Promise {
    if calls == [] then p else Apply(History(p, calls[..|calls| - 1]), calls[|calls| - 1])
  }

  /** First occurrences, in order. */
  function Distinct(calls: seq<Fulfillment>): seq<Fulfillment> {
    if calls == [] then [] else Record(Distinct(calls[..|calls| - 1]), calls[|calls| - 1])
  }

  lemma {:induction false} DistinctIs(calls: seq<Fulfillment>)
    ensures forall f :: f in Distinct(calls) <==> f in calls
    ensures forall i, j :: 0 <= i < j < |Distinct(calls)| ==> Distinct(calls)[i] != Distinct(calls)[j]
    ensures calls != [] ==> Distinct(calls) != []
  {
    if calls != [] {
      DistinctIs(calls[..|calls| - 1]);
      assert calls == calls[..|calls| - 1] + [calls[|calls| - 1]];
    }
  }

  predicate Fresh(p: Promise) { p.status.Open? && p.fulfillments == [] && p.resolvedChapter.None? }

  predicate Met(calls: seq<Fulfillment>, required: Required) { calls != [] && |Distinct(calls)| >= Needed(required) }

  /** A fresh promise after any calls: its records are the distinct ones, every call
      bumps the version, and it is resolved exactly when enough distinct fulfilments
      were reported, otherwise developing from the first call on. */
  lemma {:induction false} HistoryResult(p: Promise, calls: seq<Fulfillment>)
    requires Fresh(p)
    ensures var q := History(p, calls);
      && q.fulfillments == Distinct(calls) && q.version == p.version + |calls| && q.required == p.required
      && (calls == [] ==> q == p)
      && (calls != [] ==> q.status == if Met(calls, p.required) then Resolved else Developing)
      && (q.resolvedChapter.Some? <==> Met(calls, p.required))
  {
    if calls != [] {
      HistoryResult(p, calls[..|calls| - 1]);
      DistinctIs(calls);
    }
  }

  /** Enough is enough: further calls never take a reached count back. */
  lemma {:induction false} MetStays(calls: seq<Fulfillment>, required: Required, k: nat)
    requires k <= |calls| && Met(calls[..k], required)
    ensures Met(calls, required) && |Distinct(calls[..k])| <= |Distinct(calls)|
  {
    if k < |calls| {
      assert calls[..|calls| - 1][..k] == calls[..k];
      MetStays(calls[..|calls| - 1], required, k);
    } else {
      assert calls[..k] == calls;
    }
  }

  lemma {:induction false} ReachingCall(p: Promise, calls: seq<Fulfillment>) returns (k: nat)
    requires Fresh(p) && Met(calls, p.required)
    ensures k < |calls| && !Met(calls[..k], p.required) && Met(calls[..k + 1], p.required)
    ensures History(p, calls).resolvedChapter == Some(calls[k].chapter)
  {
    var before := calls[..|calls| - 1];
    HistoryResult(p, before);
    if Met(before, p.required) {
      k := ReachingCall(p, before);
      assert before[..k] == calls[..k] && before[..k + 1] == calls[..k + 1];
    } else {
      k := |calls| - 1;
      assert calls[..k + 1] == calls;
    }
  }

  /** The required count is reached by one call and stays reached, and the resolving
      chapter is that of this call, whatever is reported later. */
  lemma ResolvedByReachingCall(p: Promise, calls: seq<Fulfillment>) returns (k: nat)
    requires Fresh(p) && Met(calls, p.required)
    ensures k < |calls| && forall n :: 0 <= n <= |calls| ==> (Met(calls[..n], p.required) <==> n > k)
    ensures History(p, calls).resolvedChapter == Some(calls[k].chapter)
  {
    k := ReachingCall(p, calls);
    forall n | 0 <= n <= |calls|
      ensures Met(calls[..n], p.required) <==> n > k
    {
      if n > k {
        assert calls[..n][..k + 1] == calls[..k + 1];
        MetStays(calls[..n], p.required, k + 1);
      } else if Met(calls[..n], p.required) {
        assert calls[..k][..n] == calls[..n];
        MetStays(calls[..k], p.required, n);
      }
    }
  }

  /** Reporting a known fulfilment again changes nothing but the version. */
  lemma RepeatIsIdempotent(p: Promise, calls: seq<Fulfillment>, f: Fulfillment)
    requires Fresh(p) && f in calls
    ensures History(p, calls + [f]) == History(p, calls).(version := History(p, calls).version + 1)
  {
    assert (calls + [f])[..|calls|] == calls;
    HistoryResult(p, calls);
    DistinctIs(calls);
  }

  /** A promise that is resolved, abandoned or excluded keeps its status. */
  lemma {:induction false} EndedStays(p: Promise, calls: seq<Fulfillment>)
    requires p.status.Resolved? || p.status.Abandoned? || p.status.Excluded?
    ensures History(p, calls).status == p.status && History(p, calls).resolvedChapter == p.resolvedChapter
  {
    if calls != [] {
      EndedStays(p, calls[..|calls| - 1]);
    }
  }

  // ---------------------------------------------------------------- verdicts of the model

  /** An entry of the model's list: not a dictionary, or a stripped key with a verdict. */
  datatype Item = NotADict | Item(key: string, fulfilled: bool, quote: string)

  datatype Verdict = Verdict(key: string, fulfilled: bool, quote: string)

  predicate Usable(item: Item, due: set<string>) { item.Item? && item.key != "" && item.key in due }

  function VerdictOf(item: Item): Verdict
    requires item.Item?
  {
    Verdict(item.key, item.fulfilled, if |item.quote| > 500 then item.quote[..500] else item.quote)
  }

  /** The first usable entry of a key. */
  predicate First(items: seq<Item>, due: set<string>, i: nat)
    requires i < |items|
  {
    Usable(items[i], due) && forall j :: 0 <= j < i && Usable(items[j], due) ==> items[j].key != items[i].key
  }

  /** The verdicts of the first usable entries among the first n, in order. */
  function FirstVerdicts(items: seq<Item>, due: set<string>, n: nat): seq<Verdict>
    requires n <= |items|
  {
    if n == 0 then []
    else FirstVerdicts(items, due, n - 1) + (if First(items, due, n - 1) then [VerdictOf(items[n - 1])] else [])
  }

  /** `_normalize_verdicts` */
  method NormalizeVerdicts(items: seq<Item>, due: set<string>) returns (verdicts: seq<Verdict>)
    ensures verdicts == FirstVerdicts(items, due, |items|)
  {
    verdicts := [];
    var seen: set<string> := {};
    for i := 0 to |items|
      invariant verdicts == FirstVerdicts(items, due, i)
      invariant forall key :: key in seen <==> exists j :: 0 <= j < i && Usable(items[j], due) && items[j].key == key
    {
      var item := items[i];
      if item.Item? && item.key != "" && item.key in due && item.key !in seen {
        seen := seen + {item.key};
        verdicts := verdicts + [VerdictOf(item)];
      }
    }
  }

  /** Every verdict is that of a first usable entry. */
  lemma {:induction false} VerdictFrom(items: seq<Item>, due: set<string>, n: nat, k: nat) returns (i: nat)
    requires n <= |items| && k < |FirstVerdicts(items, due, n)|
    ensures i < n && First(items, due, i) && FirstVerdicts(items, due, n)[k] == VerdictOf(items[i])
  {
    if k < |FirstVerdicts(items, due, n - 1)| {
      i := VerdictFrom(items, due, n - 1, k);
    } else {
      i := n - 1;
    }
  }

  lemma {:induction false} FirstAnswer(items: seq<Item>, due: set<string>, i: nat) returns (f: nat)
    requires i < |items| && Usable(items[i], due)
    ensures f <= i && First(items, due, f) && items[f].key == items[i].key
  {
    f := i;
    if !First(items, due, i) {
      var j :| 0 <= j < i && Usable(items[j], due) && items[j].key == items[i].key;
      f := FirstAnswer(items, due, j);
    }
  }

  lemma {:induction false} VerdictOfFirst(items: seq<Item>, due: set<string>, n: nat, f: nat) returns (k: nat)
    requires f < n <= |items| && First(items, due, f)
    ensures k < |FirstVerdicts(items, due, n)| && FirstVerdicts(items, due, n)[k] == VerdictOf(items[f])
  {
    if f == n - 1 {
      k := |FirstVerdicts(items, due, n - 1)|;
    } else {
      k := VerdictOfFirst(items, due, n - 1, f);
    }
  }

  /** Every due key the model answered gets a verdict. */
  lemma AnsweredKeyHasVerdict(items: seq<Item>, due: set<string>, i: nat) returns (k: nat)
    requires i < |items| && Usable(items[i], due)
    ensures k < |FirstVerdicts(items, due, |items|)| && FirstVerdicts(items, due, |items|)[k].key == items[i].key
  {
    var f := FirstAnswer(items, due, i);
    k := VerdictOfFirst(items, due, |items|, f);
  }

  /** Only due keys get one, and none gets two. */
  lemma {:induction false} OneVerdictPerKey(items: seq<Item>, due: set<string>, n: nat, a: nat, b: nat)
    requires n <= |items| && a < b < |FirstVerdicts(items, due, n)|
    ensures FirstVerdicts(items, due, n)[a].key in due
    ensures FirstVerdicts(items, due, n)[a].key != FirstVerdicts(items, due, n)[b].key
  {
    if b < |FirstVerdicts(items, due, n - 1)| {
      OneVerdictPerKey(items, due, n - 1, a, b);
    } else {
      var i := VerdictFrom(items, due, n - 1, a);
    }
  }
}
