/** The repetition detector of the quality gate: 4- to 6-character grams that occur
    too often. */
module Repetition {
  import opened ClueCover

  const FUNCTION_CHARS: set<char> := {
    '\U{7684}', '\U{4e86}', '\U{662f}', '\U{5728}', '\U{6211}', '\U{4f60}', '\U{4ed6}', '\U{5979}', '\U{5b83}', '\U{4eec}',
    '\U{8fd9}', '\U{90a3}', '\U{6709}', '\U{5c31}', '\U{4e5f}', '\U{90fd}', '\U{4e0d}', '\U{8981}', '\U{4f1a}', '\U{80fd}',
    '\U{7740}', '\U{8fc7}', '\U{5730}', '\U{5f97}', '\U{597d}', '\U{513f}', '\U{6ca1}', '\U{628a}', '\U{8bf4}', '\U{770b}',
    '\U{70b9}', '\U{5934}', '\U{6765}', '\U{53bb}', '\U{4e0a}', '\U{91cc}', '\U{4e2d}', '\U{4e2a}', '\U{4e48}', '\U{518d}',
    '\U{53c8}', '\U{8fd8}'}

  const MIN_LENGTH := 32

  datatype Finding = Finding(gram: string, count: nat)

  function Threshold(size: nat): nat { if size == 6 then 5 else if size == 5 then 6 else 8 }

  predicate Uniform(gram: string) { forall i :: 0 <= i < |gram| ==> gram[i] == gram[0] }

  function FunctionCount(gram: string): nat {
    if gram == [] then 0
    else FunctionCount(gram[..|gram| - 1]) + (if gram[|gram| - 1] in FUNCTION_CHARS then 1 else 0)
  }

  /** Neither one repeated character nor more than a third function words. */
  predicate Qualifies(gram: string) { !Uniform(gram) && FunctionCount(gram) * 3 <= |gram| }

  /** Occurrences, overlapping ones included, among the first n starts. */
  function Occurrences(text: string, gram: string, n: nat): nat {
    if n == 0 then 0
    else Occurrences(text, gram, n - 1) + (if MatchesAt(text, gram, n - 1) then 1 else 0)
  }

  function Count(text: string, gram: string): nat { Occurrences(text, gram, |text|) }

  predicate Repeats(text: string, gram: string) {
    4 <= |gram| <= 6 && Qualifies(gram) && Count(text, gram) >= Threshold(|gram|)
  }

  lemma {:induction false} NoMoreStarts(text: string, gram: string, n: nat)
    requires n <= |text| && |gram| >= 1 && n >= |text| - |gram| + 1
    ensures Occurrences(text, gram, n) == Count(text, gram)
    decreases |text| - n
  {
    if n < |text| {
      NoMoreStarts(text, gram, n + 1);
    }
  }

  /** The dictionary of one size: keys in insertion order, each with its count so far. */
  ghost predicate Tally(text: string, size: nat, n: nat, order: seq<string>, counts: map<string, nat>) {
    && (forall g :: g in counts <==> |g| == size && Qualifies(g) && Occurrences(text, g, n) > 0)
    && (forall g :: g in counts ==> counts[g] == Occurrences(text, g, n))
    && (forall g :: g in order <==> g in counts)
    && (forall i, j :: 0 <= i < j < |order| ==> order[i] != order[j])
  }

  lemma OnlyThisGram(text: string, gram: string, g: string, n: nat)
    requires n + |gram| <= |text| && gram == text[n..n + |gram|] && |g| == |gram|
    ensures Occurrences(text, g, n + 1) == Occurrences(text, g, n) + (if g == gram then 1 else 0)
  {}

  lemma TallySkips(text: string, size: nat, n: nat, order: seq<string>, counts: map<string, nat>, gram: string)
    requires Tally(text, size, n, order, counts) && |gram| == size
    requires n + size <= |text| && gram == text[n..n + size] && !Qualifies(gram)
    ensures Tally(text, size, n + 1, order, counts)
  {
    forall g: string | |g| == size && Qualifies(g)
      ensures Occurrences(text, g, n + 1) == Occurrences(text, g, n)
    {
      OnlyThisGram(text, gram, g, n);
    }
  }

  lemma TallyCounts(text: string, size: nat, n: nat, order: seq<string>, counts: map<string, nat>, gram: string)
    requires Tally(text, size, n, order, counts) && |gram| == size
    requires n + size <= |text| && gram == text[n..n + size] && Qualifies(gram)
    ensures var seen := if gram in counts then counts[gram] else 0;
      Tally(text, size, n + 1, if gram in counts then order else order + [gram], counts[gram := seen + 1])
  {
    forall g: string | |g| == size
      ensures Occurrences(text, g, n + 1) == Occurrences(text, g, n) + (if g == gram then 1 else 0)
    {
      OnlyThisGram(text, gram, g, n);
    }
  }

  method CountGrams(text: string, size: nat) returns (order: seq<string>, counts: map<string, nat>)
    requires 4 <= size <= 6 && size <= |text|
    ensures Tally(text, size, |text|, order, counts)
  {
    order, counts := [], map[];
    var end := |text| - size + 1;
    for start := 0 to end
      invariant Tally(text, size, start, order, counts)
    {
      var gram := text[start..start + size];
      if !Qualifies(gram) {
        TallySkips(text, size, start, order, counts, gram);
      } else {
        TallyCounts(text, size, start, order, counts, gram);
        if gram !in counts {
          order := order + [gram];
          counts := counts[gram := 1];
        } else {
          counts := counts[gram := counts[gram] + 1];
        }
      }
    }
    forall g: string | |g| == size
      ensures Occurrences(text, g, end) == Occurrences(text, g, |text|)
    {
      NoMoreStarts(text, g, end);
    }
  }

  // ---------------------------------------------------------------- accepting grams

  ghost predicate Listed(accepted: seq<Finding>, gram: string) { exists i :: 0 <= i < |accepted| && accepted[i].gram == gram }

  /** Part of a longer accepted gram. */
  predicate Shadowed(accepted: seq<Finding>, gram: string) {
    exists i :: 0 <= i < |accepted| && |accepted[i].gram| > |gram| && Contains(accepted[i].gram, gram)
  }

  /** Exactly the repeating grams of these sizes that no longer accepted gram contains,
      each once, with its true count. */
  ghost predicate Accepted(text: string, accepted: seq<Finding>, sizes: set<nat>) {
    && (forall g :: Listed(accepted, g) <==> |g| in sizes && Repeats(text, g) && !Shadowed(accepted, g))
    && (forall i :: 0 <= i < |accepted| ==> accepted[i].count == Count(text, accepted[i].gram))
    && (forall i, j :: 0 <= i < j < |accepted| ==> accepted[i].gram != accepted[j].gram)
  }

  /** `gram in longer`: equal sizes contain each other only when equal. */
  lemma ContainsSize(a: string, b: string)
    requires Contains(a, b) && |a| <= |b|
    ensures a == b
  {
    var k :| 0 <= k <= |a| - |b| && MatchesAt(a, b, k);
  }

  /** While the grams of one size are accepted on top of the longer ones. */
  ghost predicate Accepting(text: string, prior: seq<Finding>, accepted: seq<Finding>, size: nat, looked: seq<string>) {
    && prior <= accepted
    && (forall i :: |prior| <= i < |accepted| ==> |accepted[i].gram| == size && accepted[i].gram in looked)
    && (forall g :: Listed(accepted, g) <==> Listed(prior, g) || (g in looked && Repeats(text, g) && !Shadowed(prior, g)))
    && (forall i :: 0 <= i < |accepted| ==> accepted[i].count == Count(text, accepted[i].gram))
    && (forall i, j :: 0 <= i < j < |accepted| ==> accepted[i].gram != accepted[j].gram)
  }

  /** `any(gram in longer for longer, _ in accepted)` */
  method Covered(accepted: seq<Finding>, gram: string) returns (covered: bool)
    ensures covered <==> exists i :: 0 <= i < |accepted| && Contains(accepted[i].gram, gram)
  {
    for k := 0 to |accepted|
      invariant forall i :: 0 <= i < k ==> !Contains(accepted[i].gram, gram)
    {
      if Contains(accepted[k].gram, gram) {
        return true;
      }
    }
    return false;
  }

  /** For a gram not looked at yet, being covered is being shadowed by a longer one. */
  lemma CoveredIsShadowed(text: string, prior: seq<Finding>, accepted: seq<Finding>, size: nat, looked: seq<string>, gram: string)
    requires Accepting(text, prior, accepted, size, looked) && |gram| == size && gram !in looked
    requires forall i :: 0 <= i < |prior| ==> |prior[i].gram| > size
    ensures (exists i :: 0 <= i < |accepted| && Contains(accepted[i].gram, gram)) <==> Shadowed(prior, gram)
  {
    if i :| 0 <= i < |accepted| && Contains(accepted[i].gram, gram) {
      if i >= |prior| {
        ContainsSize(accepted[i].gram, gram);
        assert false;
      }
      assert accepted[i] == prior[i];
    }
    if i :| 0 <= i < |prior| && |prior[i].gram| > |gram| && Contains(prior[i].gram, gram) {
      assert accepted[i] == prior[i];
    }
  }

  lemma AcceptStep(text: string, prior: seq<Finding>, accepted: seq<Finding>, size: nat, looked: seq<string>, gram: string)
    requires Accepting(text, prior, accepted, size, looked) && |gram| == size && gram !in looked
    requires forall i :: 0 <= i < |prior| ==> |prior[i].gram| > size
    requires Repeats(text, gram) && !Shadowed(prior, gram)
    ensures Accepting(text, prior, accepted + [Finding(gram, Count(text, gram))], size, looked + [gram])
  {
    var more := accepted + [Finding(gram, Count(text, gram))];
    forall g
      ensures Listed(more, g) <==> Listed(accepted, g) || g == gram
    {
      ListedAppend(accepted, Finding(gram, Count(text, gram)), g);
    }
    assert !Listed(accepted, gram);
  }

  lemma ListedAppend(accepted: seq<Finding>, f: Finding, g: string)
    ensures Listed(accepted + [f], g) <==> Listed(accepted, g) || g == f.gram
  {
    var more := accepted + [f];
    assert more[|accepted|] == f;
    if i :| 0 <= i < |accepted| && accepted[i].gram == g {
      assert more[i] == accepted[i];
    }
  }

  lemma RejectStep(text: string, prior: seq<Finding>, accepted: seq<Finding>, size: nat, looked: seq<string>, gram: string)
    requires Accepting(text, prior, accepted, size, looked) && !(Repeats(text, gram) && !Shadowed(prior, gram))
    ensures Accepting(text, prior, accepted, size, looked + [gram])
  {}

  /** The inner loop over the dictionary of one size. */
  method AcceptSize(text: string, size: nat, prior: seq<Finding>, ghost longer: set<nat>) returns (accepted: seq<Finding>)
    requires 4 <= size <= 6 && size <= |text| && Accepted(text, prior, longer) && forall n :: n in longer ==> n > size
    ensures Accepted(text, accepted, longer + {size})
  {
    var order, counts := CountGrams(text, size);
    accepted := prior;
    PriorIsLonger(text, prior, longer, size);
    for k := 0 to |order|
      invariant Accepting(text, prior, accepted, size, order[..k])
    {
      var gram := order[k];
      assert order[..k + 1] == order[..k] + [gram] && gram in counts;
      if counts[gram] < Threshold(size) {
        RejectStep(text, prior, accepted, size, order[..k], gram);
      } else {
        CoveredIsShadowed(text, prior, accepted, size, order[..k], gram);
        var covered := Covered(accepted, gram);
        if covered {
          RejectStep(text, prior, accepted, size, order[..k], gram);
        } else {
          AcceptStep(text, prior, accepted, size, order[..k], gram);
          accepted := accepted + [Finding(gram, counts[gram])];
        }
      }
    }
    assert order[..|order|] == order;
    SizeDone(text, prior, accepted, size, order, counts, longer);
  }

  lemma PriorIsLonger(text: string, prior: seq<Finding>, longer: set<nat>, size: nat)
    requires Accepted(text, prior, longer) && forall n :: n in longer ==> n > size
    ensures forall i :: 0 <= i < |prior| ==> |prior[i].gram| > size
  {
    forall i | 0 <= i < |prior|
      ensures |prior[i].gram| > size
    {
      assert Listed(prior, prior[i].gram);
    }
  }

  lemma SizeDone(text: string, prior: seq<Finding>, accepted: seq<Finding>, size: nat, order: seq<string>,
                 counts: map<string, nat>, longer: set<nat>)
    requires 4 <= size <= 6 && Accepted(text, prior, longer) && forall n :: n in longer ==> n > size
    requires Tally(text, size, |text|, order, counts) && Accepting(text, prior, accepted, size, order)
    ensures Accepted(text, accepted, longer + {size})
  {
    PriorIsLonger(text, prior, longer, size);
    forall g
      ensures Listed(accepted, g) <==> |g| in longer + {size} && Repeats(text, g) && !Shadowed(accepted, g)
    {
      SameShadow(prior, accepted, size, g);
    }
  }

  /** Grams of this size or longer are shadowed only by earlier, longer grams. */
  lemma SameShadow(prior: seq<Finding>, accepted: seq<Finding>, size: nat, g: string)
    requires prior <= accepted && forall i :: |prior| <= i < |accepted| ==> |accepted[i].gram| == size
    ensures |g| >= size ==> (Shadowed(accepted, g) <==> Shadowed(prior, g))
  {
    if i :| 0 <= i < |accepted| && |accepted[i].gram| > |g| && Contains(accepted[i].gram, g) {
      if |g| >= size {
        assert accepted[i] == prior[i];
      }
    }
    if i :| 0 <= i < |prior| && |prior[i].gram| > |g| && Contains(prior[i].gram, g) {
      assert accepted[i] == prior[i];
    }
  }

  // ---------------------------------------------------------------- the report

  ghost predicate Descending(s: seq<Finding>) { forall i, j :: 0 <= i < j < |s| ==> s[i].count >= s[j].count }

  /** Inserts behind every finding that is not rarer. */
  function InsertByCount(s: seq<Finding>, f: Finding): seq<Finding> {
    if s == [] || s[|s| - 1].count >= f.count then s + [f]
    else InsertByCount(s[..|s| - 1], f) + [s[|s| - 1]]
  }

  /** `sorted(accepted, key=count, reverse=True)` */
  function ByCount(s: seq<Finding>): seq<Finding> {
    if s == [] then [] else InsertByCount(ByCount(s[..|s| - 1]), s[|s| - 1])
  }

  lemma {:induction false} InsertPermutes(s: seq<Finding>, f: Finding)
    ensures multiset(InsertByCount(s, f)) == multiset(s) + multiset{f}
  {
    if s != [] && s[|s| - 1].count < f.count {
      InsertPermutes(s[..|s| - 1], f);
      assert s == s[..|s| - 1] + [s[|s| - 1]];
    }
  }

  lemma {:induction false} InsertBounded(s: seq<Finding>, f: Finding, least: nat)
    requires f.count >= least && forall i :: 0 <= i < |s| ==> s[i].count >= least
    ensures forall i :: 0 <= i < |InsertByCount(s, f)| ==> InsertByCount(s, f)[i].count >= least
  {
    if s != [] && s[|s| - 1].count < f.count {
      InsertBounded(s[..|s| - 1], f, least);
    }
  }

  lemma {:induction false} InsertDescends(s: seq<Finding>, f: Finding)
    requires Descending(s)
    ensures Descending(InsertByCount(s, f))
  {
    if s != [] && s[|s| - 1].count < f.count {
      InsertDescends(s[..|s| - 1], f);
      InsertBounded(s[..|s| - 1], f, s[|s| - 1].count);
    }
  }

  lemma {:induction false} ByCountSorts(s: seq<Finding>)
    ensures Descending(ByCount(s)) && multiset(ByCount(s)) == multiset(s)
  {
    if s != [] {
      ByCountSorts(s[..|s| - 1]);
      InsertDescends(ByCount(s[..|s| - 1]), s[|s| - 1]);
      InsertPermutes(ByCount(s[..|s| - 1]), s[|s| - 1]);
      assert s == s[..|s| - 1] + [s[|s| - 1]];
    }
  }

  /** What a report says: true counts of repeating grams, the most frequent ones. */
  ghost predicate Report(text: string, accepted: seq<Finding>, top: seq<Finding>) {
    && Accepted(text, accepted, {4, 5, 6})
    && top <= ByCount(accepted) && |top| == if |accepted| < 3 then |accepted| else 3
  }

  /** `_repetition_findings` on normalised text. */
  method RepetitionFindings(text: string) returns (top: seq<Finding>, ghost accepted: seq<Finding>)
    ensures |text| < MIN_LENGTH ==> top == []
    ensures |text| >= MIN_LENGTH ==> Report(text, accepted, top)
  {
    accepted := [];
    if |text| < MIN_LENGTH {
      return [], accepted;
    }
    var six := AcceptSize(text, 6, [], {});
    var five := AcceptSize(text, 5, six, {6});
    var four := AcceptSize(text, 4, five, {6, 5});
    assert {6, 5} + {4} == {4, 5, 6} && {6} + {5} == {6, 5} && {} + {6} == {6};
    accepted := four;
    ByCountSorts(four);
    assert |multiset(ByCount(four))| == |multiset(four)|;
    top := ByCount(four)[..if |four| < 3 then |four| else 3];
  }

  lemma LongestListed(text: string, accepted: seq<Finding>, gram: string)
    requires Accepted(text, accepted, {4, 5, 6}) && Repeats(text, gram)
    ensures accepted != []
  {
    assert Shadowed(accepted, gram) || Listed(accepted, gram);
  }

  /** Sound and complete: there is a report exactly when some gram repeats. */
  lemma ReportsExactly(text: string, accepted: seq<Finding>, top: seq<Finding>)
    requires Report(text, accepted, top)
    ensures top != [] <==> exists g :: Repeats(text, g)
  {
    if accepted != [] {
      assert Listed(accepted, accepted[0].gram);
    }
    if g :| Repeats(text, g) {
      LongestListed(text, accepted, g);
    }
  }

  /** Every reported gram repeats, with its true count; every repeating gram that is
      not reported is part of a longer accepted one or no more frequent than those
      reported, of which there are then three. */
  lemma ReportIsTrue(text: string, accepted: seq<Finding>, top: seq<Finding>, i: nat)
    requires Report(text, accepted, top) && i < |top|
    ensures Repeats(text, top[i].gram) && top[i].count == Count(text, top[i].gram)
    ensures forall f :: f in accepted && f !in top ==> |top| == 3 && f.count <= top[i].count
  {
    ByCountSorts(accepted);
    var sorted := ByCount(accepted);
    assert top[i] in multiset(sorted);
    var j :| 0 <= j < |accepted| && accepted[j] == top[i];
    assert Listed(accepted, accepted[j].gram);
    forall f | f in accepted && f !in top
      ensures |top| == 3 && f.count <= top[i].count
    {
      assert f in multiset(sorted);
      var k :| 0 <= k < |sorted| && sorted[k] == f;
      assert k >= |top|;
    }
  }
}
