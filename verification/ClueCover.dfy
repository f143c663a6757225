/** Fuzzy clue matching of the quality gate: the clue's longest fragments that occur
    in the text, picked greedily, must cover three fifths of it. */
module ClueCover {

  datatype Fragment = Fragment(start: nat, len: nat)

  predicate MatchesAt(text: string, part: string, k: int) {
    0 <= k <= |text| - |part| && text[k..k + |part|] == part
  }

  /** `part in text` */
  predicate Contains(text: string, part: string) {
    exists k :: 0 <= k <= |text| - |part| && MatchesAt(text, part, k)
  }

  /** A proper fragment of the clue of at least two characters. */
  predicate Window(clue: string, f: Fragment) { 2 <= f.len < |clue| && f.start + f.len <= |clue| }

  predicate Occurs(clue: string, text: string, f: Fragment)
    requires Window(clue, f)
  {
    Contains(text, clue[f.start..f.start + f.len])
  }

  predicate Touches(f: Fragment, g: Fragment) { f.start < g.start + g.len && g.start < f.start + f.len }

  predicate At(f: Fragment, i: int) { f.start <= i < f.start + f.len }

  /** The greedy order: longer first, then leftmost. */
  predicate NotAfter(f: Fragment, g: Fragment) { f.len > g.len || (f.len == g.len && f.start <= g.start) }

  /** A picked fragment that comes first stands in the way of w (or is w). */
  ghost predicate Taken(picked: set<Fragment>, w: Fragment) {
    exists f :: f in picked && NotAfter(f, w) && Touches(f, w)
  }

  ghost predicate CoveredAt(picked: set<Fragment>, i: int) { exists f :: f in picked && At(f, i) }

  ghost predicate Disjoint(picked: set<Fragment>) {
    forall f, g :: f in picked && g in picked && f != g ==> !Touches(f, g)
  }

  ghost predicate AllOccur(clue: string, text: string, picked: set<Fragment>) {
    forall f :: f in picked ==> Window(clue, f) && Occurs(clue, text, f)
  }

  /** The greedy cover: disjoint occurring fragments, such that every occurring
      fragment is picked or blocked by an earlier pick. */
  ghost predicate Cover(clue: string, text: string, picked: set<Fragment>) {
    && AllOccur(clue, text, picked) && Disjoint(picked)
    && (forall w :: Window(clue, w) && Occurs(clue, text, w) ==> Taken(picked, w))
  }

  ghost function Covered(clue: string, picked: set<Fragment>): set<int> {
    set i | 0 <= i < |clue| && CoveredAt(picked, i)
  }

  /** sum / len >= 0.6 */
  ghost predicate Enough(clue: string, picked: set<Fragment>) { 5 * |Covered(clue, picked)| >= 3 * |clue| }

  // ---------------------------------------------------------------- the cover is unique

  lemma {:induction false} SamePick(clue: string, text: string, a: set<Fragment>, b: set<Fragment>, f: Fragment)
    requires Cover(clue, text, a) && Cover(clue, text, b) && f in a
    ensures f in b
    decreases |clue| - f.len, f.start
  {
    assert Taken(b, f);
    var g :| g in b && NotAfter(g, f) && Touches(g, f);
    if g != f {
      SamePick(clue, text, b, a, g);
      assert false;
    }
  }

  /** There is exactly one greedy cover, so the verdict is a function of clue and text. */
  lemma CoverUnique(clue: string, text: string, a: set<Fragment>, b: set<Fragment>)
    requires Cover(clue, text, a) && Cover(clue, text, b)
    ensures a == b
  {
    forall f
      ensures f in a <==> f in b
    {
      if f in a {
        SamePick(clue, text, a, b, f);
      }
      if f in b {
        SamePick(clue, text, b, a, f);
      }
    }
  }

  /** Nothing coverable is left: no fragment without a covered position occurs in the
      text, in particular no two adjacent uncovered characters. */
  lemma CoverIsMaximal(clue: string, text: string, picked: set<Fragment>, w: Fragment)
    requires Cover(clue, text, picked) && Window(clue, w)
    requires forall i :: At(w, i) ==> i !in Covered(clue, picked)
    ensures !Occurs(clue, text, w)
  {
    if Occurs(clue, text, w) {
      assert Taken(picked, w);
      var f :| f in picked && NotAfter(f, w) && Touches(f, w);
      var i := if f.start >= w.start then f.start else w.start;
      assert At(f, i) && At(w, i);
      assert CoveredAt(picked, i);
      assert false;
    }
  }

  // ---------------------------------------------------------------- one window at a time

  /** The windows looked at before length `len`, start `start`. */
  predicate Seen(w: Fragment, len: nat, start: nat) { w.len > len || (w.len == len && w.start < start) }

  ghost predicate Progress(clue: string, text: string, picked: set<Fragment>, len: nat, start: nat) {
    && AllOccur(clue, text, picked) && Disjoint(picked)
    && (forall f :: f in picked ==> Seen(f, len, start))
    && (forall w :: Window(clue, w) && Occurs(clue, text, w) && Seen(w, len, start) ==> Taken(picked, w))
  }

  ghost predicate Marked(clue: string, covered: seq<bool>, picked: set<Fragment>) {
    |covered| == |clue| && forall i :: 0 <= i < |clue| ==> (covered[i] <==> CoveredAt(picked, i))
  }

  /** A window with a covered position is blocked. */
  lemma BlockedStep(clue: string, text: string, picked: set<Fragment>, w: Fragment, i: int)
    requires Progress(clue, text, picked, w.len, w.start) && Window(clue, w) && At(w, i) && CoveredAt(picked, i)
    ensures Progress(clue, text, picked, w.len, w.start + 1)
  {
    var f :| f in picked && At(f, i);
    assert NotAfter(f, w) && Touches(f, w);
    forall v | Window(clue, v) && Occurs(clue, text, v) && Seen(v, w.len, w.start + 1)
      ensures Taken(picked, v)
    {
      if v.len == w.len && v.start == w.start {
        assert v == w;
      }
    }
  }

  lemma AbsentStep(clue: string, text: string, picked: set<Fragment>, w: Fragment)
    requires Progress(clue, text, picked, w.len, w.start) && Window(clue, w) && !Occurs(clue, text, w)
    ensures Progress(clue, text, picked, w.len, w.start + 1)
  {
    forall v | Window(clue, v) && Occurs(clue, text, v) && Seen(v, w.len, w.start + 1)
      ensures Taken(picked, v)
    {
      assert v != w;
      assert Seen(v, w.len, w.start);
    }
  }

  lemma PickStep(clue: string, text: string, picked: set<Fragment>, w: Fragment)
    requires Progress(clue, text, picked, w.len, w.start) && Window(clue, w) && Occurs(clue, text, w)
    requires forall i :: At(w, i) ==> !CoveredAt(picked, i)
    ensures Progress(clue, text, picked + {w}, w.len, w.start + 1)
  {
    var more := picked + {w};
    forall f | f in picked
      ensures !Touches(f, w) && !Touches(w, f)
    {
      var i := if f.start >= w.start then f.start else w.start;
      if Touches(f, w) {
        assert At(f, i) && At(w, i);
        assert CoveredAt(picked, i);
        assert false;
      }
    }
    forall v | Window(clue, v) && Occurs(clue, text, v) && Seen(v, w.len, w.start + 1)
      ensures Taken(more, v)
    {
      if v.len == w.len && v.start == w.start {
        assert v == w && w in more && NotAfter(w, w) && Touches(w, w);
      } else {
        var f :| f in picked && NotAfter(f, v) && Touches(f, v);
        assert f in more;
      }
    }
  }

  lemma PickMarks(clue: string, before: seq<bool>, after: seq<bool>, picked: set<Fragment>, w: Fragment)
    requires Marked(clue, before, picked) && Window(clue, w) && |after| == |before|
    requires forall i :: 0 <= i < |before| ==> after[i] == (before[i] || At(w, i))
    ensures Marked(clue, after, picked + {w})
  {
    forall i | 0 <= i < |clue|
      ensures after[i] <==> CoveredAt(picked + {w}, i)
    {
      if CoveredAt(picked, i) {
        var f :| f in picked && At(f, i);
        assert f in picked + {w};
      }
      if At(w, i) {
        assert w in picked + {w};
      }
    }
  }

  lemma NextLength(clue: string, text: string, picked: set<Fragment>, len: nat)
    requires 2 <= len < |clue| && Progress(clue, text, picked, len, |clue| - len + 1)
    ensures Progress(clue, text, picked, len - 1, 0)
  {}

  lemma AllLengths(clue: string, text: string, picked: set<Fragment>)
    requires Progress(clue, text, picked, 1, 0)
    ensures Cover(clue, text, picked)
  {}

  // ---------------------------------------------------------------- the algorithm

  method AnyCovered(covered: array<bool>, start: nat, end: nat) returns (any: bool)
    requires start <= end <= covered.Length
    ensures any <==> exists i :: start <= i < end && covered[i]
  {
    for i := start to end
      invariant forall j :: start <= j < i ==> !covered[j]
    {
      if covered[i] {
        return true;
      }
    }
    return false;
  }

  method Mark(covered: array<bool>, start: nat, end: nat)
    requires start <= end <= covered.Length
    modifies covered
    ensures forall i :: 0 <= i < covered.Length ==> covered[i] == (old(covered[i]) || start <= i < end)
  {
    for i := start to end
      invariant forall j :: 0 <= j < covered.Length ==> covered[j] == (old(covered[j]) || start <= j < i)
    {
      covered[i] := true;
    }
  }

  /** One window of the nested loops. */
  method TryFragment(clue: string, text: string, covered: array<bool>, w: Fragment, ghost picked: set<Fragment>)
    returns (ghost more: set<Fragment>)
    requires Window(clue, w) && Marked(clue, covered[..], picked) && Progress(clue, text, picked, w.len, w.start)
    modifies covered
    ensures Marked(clue, covered[..], more) && Progress(clue, text, more, w.len, w.start + 1)
  {
    more := picked;
    ghost var before := covered[..];
    var any := AnyCovered(covered, w.start, w.start + w.len);
    if any {
      ghost var i :| w.start <= i < w.start + w.len && covered[i];
      assert before[i] && CoveredAt(picked, i);
      BlockedStep(clue, text, picked, w, i);
    } else if Contains(text, clue[w.start..w.start + w.len]) {
      Mark(covered, w.start, w.start + w.len);
      forall i | At(w, i)
        ensures !CoveredAt(picked, i)
      {
        assert !before[i];
      }
      PickMarks(clue, before, covered[..], picked, w);
      PickStep(clue, text, picked, w);
      more := picked + {w};
    } else {
      AbsentStep(clue, text, picked, w);
    }
  }

  method Count(covered: array<bool>, ghost clue: string, ghost picked: set<Fragment>) returns (sum: nat)
    requires Marked(clue, covered[..], picked)
    ensures sum == |Covered(clue, picked)|
  {
    sum := 0;
    ghost var seen: set<int> := {};
    for i := 0 to covered.Length
      invariant sum == |seen| && seen == set j | 0 <= j < i && covered[..][j]
    {
      if covered[i] {
        sum := sum + 1;
        seen := seen + {i};
      }
    }
    assert seen == Covered(clue, picked);
  }

  /** `_clue_hit`: an exact occurrence hits; otherwise a clue of three characters or
      more hits exactly when its greedy cover is three fifths of it. */
  method ClueHit(clue: string, text: string) returns (hit: bool, ghost picked: set<Fragment>)
    ensures Contains(text, clue) ==> hit
    ensures !Contains(text, clue) && |clue| < 3 ==> !hit
    ensures !Contains(text, clue) && |clue| >= 3 ==> Cover(clue, text, picked) && (hit <==> Enough(clue, picked))
  {
    picked := {};
    if Contains(text, clue) {
      return true, picked;
    }
    if |clue| < 3 {
      return false, picked;
    }
    var covered := new bool[|clue|](_ => false);
    var len := |clue| - 1;
    while len > 1
      invariant 1 <= len < |clue| && Marked(clue, covered[..], picked) && Progress(clue, text, picked, len, 0)
    {
      for start := 0 to |clue| - len + 1
        invariant Marked(clue, covered[..], picked) && Progress(clue, text, picked, len, start)
      {
        picked := TryFragment(clue, text, covered, Fragment(start, len), picked);
      }
      NextLength(clue, text, picked, len);
      len := len - 1;
    }
    AllLengths(clue, text, picked);
    var sum := Count(covered, clue, picked);
    hit := 5 * sum >= 3 * |clue|;
  }
}
