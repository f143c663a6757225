/** Context compilation: merging equal texts, ordering, and greedy selection under a
    token budget. */
module ContextCompiler {
  import opened RunModel

  datatype Block = Block(id: string, content: string, sources: Option<seq<string>>, pinned: bool, priority: Option<int>)

  /** The text two blocks share when their normalised hashes are equal. */
  type Normal = string -> string

  // ---------------------------------------------------------------- tokens

  predicate Cjk(c: char) { '\U{4e00}' <= c <= '\U{9fff}' }

  /** A CJK character weighs four quarters, any other one. */
  function Quarters(text: string): nat {
    if text == [] then 0 else Quarters(text[..|text| - 1]) + (if Cjk(text[|text| - 1]) then 4 else 1)
  }

  function Tokens(text: string): nat { (Quarters(text) + 3) / 4 }

  lemma {:induction false} QuartersAppend(a: string, b: string)
    ensures Quarters(a + b) == Quarters(a) + Quarters(b)
  {
    if b == [] {
      assert a + b == a;
    } else {
      assert (a + b)[..|a + b| - 1] == a + b[..|b| - 1];
      QuartersAppend(a, b[..|b| - 1]);
    }
  }

  /** The count is the least whole number of tokens that covers the text, and
      joining texts never costs more than counting them apart. */
  lemma TokensCover(a: string, b: string)
    ensures 4 * Tokens(a) >= Quarters(a) > 4 * (Tokens(a) - 1)
    ensures Tokens(a) <= |a| <= 4 * Tokens(a)
    ensures Tokens(a + b) <= Tokens(a) + Tokens(b)
  {
    QuartersAppend(a, b);
    QuartersBound(a);
  }

  lemma {:induction false} QuartersBound(a: string)
    ensures |a| <= Quarters(a) <= 4 * |a|
  {
    if a != [] {
      QuartersBound(a[..|a| - 1]);
    }
  }

  // ---------------------------------------------------------------- deduplication

  function NonEmpty(ids: seq<string>): seq<string> {
    if ids == [] then []
    else NonEmpty(ids[..|ids| - 1]) + (if ids[|ids| - 1] != "" then [ids[|ids| - 1]] else [])
  }

  /** The non-empty source ids of a block; its own id when it names none. */
  function Sources(b: Block): seq<string> {
    NonEmpty(if b.sources.Some? then b.sources.value else [b.id])
  }

  function Priority(b: Block): int { if b.priority.Some? then b.priority.value else 100 }

  function Min(a: int, b: int): int { if a <= b then a else b }

  /** `dict.fromkeys(ids)`: first occurrences, in order. */
  function Unique(ids: seq<string>): seq<string> {
    if ids == [] then []
    else
      var rest, last := Unique(ids[..|ids| - 1]), ids[|ids| - 1];
      if last in rest then rest else rest + [last]
  }

  function Combine(previous: Block, b: Block): Block {
    previous.(sources := Some(Unique(Sources(previous) + Sources(b))), pinned := previous.pinned || b.pinned,
              priority := Some(Min(Priority(previous), Priority(b))))
  }

  function FindText(merged: seq<Block>, text: string, norm: Normal): (found: Option<nat>)
    ensures found.Some? ==> found.value < |merged| && norm(merged[found.value].content) == text
    ensures found.None? ==> forall i :: 0 <= i < |merged| ==> norm(merged[i].content) != text
  {
    if merged == [] then None
    else if norm(merged[|merged| - 1].content) == text then Some(|merged| - 1)
    else FindText(merged[..|merged| - 1], text, norm)
  }

  function Merge(merged: seq<Block>, b: Block, norm: Normal): seq<Block> {
    var found := FindText(merged, norm(b.content), norm);
    match found
    case None => merged + [b.(sources := Some(Sources(b)))]
    case Some(i) => merged[i := Combine(merged[i], b)]
  }

  /** `deduplicate_blocks` */
  function Deduplicate(blocks: seq<Block>, norm: Normal): seq<Block> {
    if blocks == [] then [] else Merge(Deduplicate(blocks[..|blocks| - 1], norm), blocks[|blocks| - 1], norm)
  }

  method DeduplicateBlocks(blocks: seq<Block>, norm: Normal) returns (merged: seq<Block>)
    ensures merged == Deduplicate(blocks, norm)
  {
    merged := [];
    assert blocks[..0] == [];
    for i := 0 to |blocks|
      invariant merged == Deduplicate(blocks[..i], norm)
    {
      assert blocks[..i + 1][..i] == blocks[..i];
      var found := FindText(merged, norm(blocks[i].content), norm);
      if found.None? {
        merged := merged + [blocks[i].(sources := Some(Sources(blocks[i])))];
      } else {
        merged := merged[found.value := Combine(merged[found.value], blocks[i])];
      }
    }
    assert blocks[..|blocks|] == blocks;
  }

  // ---------------------------------------------------------------- what merging keeps

  lemma {:induction false} NonEmptyKeeps(ids: seq<string>)
    ensures forall s :: s in NonEmpty(ids) <==> s in ids && s != ""
    ensures (forall s :: s in ids ==> s != "") ==> NonEmpty(ids) == ids
  {
    if ids != [] {
      var rest, last := ids[..|ids| - 1], ids[|ids| - 1];
      NonEmptyKeeps(rest);
      assert ids == rest + [last];
      assert forall s :: s in rest ==> s in ids;
      assert last in ids;
    }
  }

  lemma {:induction false} UniqueKeeps(ids: seq<string>)
    ensures forall s :: s in Unique(ids) <==> s in ids
    ensures forall i, j :: 0 <= i < j < |Unique(ids)| ==> Unique(ids)[i] != Unique(ids)[j]
  {
    if ids != [] {
      UniqueKeeps(ids[..|ids| - 1]);
      assert ids == ids[..|ids| - 1] + [ids[|ids| - 1]];
    }
  }

  /** A merged block's list is already free of empty ids. */
  predicate Settled(b: Block) { b.sources.Some? && Sources(b) == b.sources.value }

  lemma CombineSources(previous: Block, b: Block)
    ensures Settled(Combine(previous, b))
    ensures forall s :: s in Sources(Combine(previous, b)) <==> s in Sources(previous) || s in Sources(b)
  {
    var both := Sources(previous) + Sources(b);
    NonEmptyKeeps(if previous.sources.Some? then previous.sources.value else [previous.id]);
    NonEmptyKeeps(if b.sources.Some? then b.sources.value else [b.id]);
    UniqueKeeps(both);
    NonEmptyKeeps(Unique(both));
  }

  lemma FirstSources(b: Block)
    ensures var first := b.(sources := Some(Sources(b))); Settled(first) && Sources(first) == Sources(b)
  {
    NonEmptyKeeps(if b.sources.Some? then b.sources.value else [b.id]);
    NonEmptyKeeps(Sources(b));
  }

  ghost predicate Distinct(merged: seq<Block>, norm: Normal) {
    forall i, j :: 0 <= i < j < |merged| ==> norm(merged[i].content) != norm(merged[j].content)
  }

  /** m stands for all blocks of its text: their source ids, whether one is pinned,
      their least priority. */
  ghost predicate Represents(m: Block, blocks: seq<Block>, norm: Normal) {
    && (forall s :: s in Sources(m) <==> SomeSource(blocks, norm(m.content), norm, s))
    && (m.pinned <==> exists i :: 0 <= i < |blocks| && norm(blocks[i].content) == norm(m.content) && blocks[i].pinned)
    && (exists i :: 0 <= i < |blocks| && norm(blocks[i].content) == norm(m.content) && Priority(blocks[i]) == Priority(m))
    && (forall i :: 0 <= i < |blocks| && norm(blocks[i].content) == norm(m.content) ==> Priority(m) <= Priority(blocks[i]))
  }

  ghost predicate SomeSource(blocks: seq<Block>, text: string, norm: Normal, s: string) {
    exists i :: 0 <= i < |blocks| && norm(blocks[i].content) == text && s in Sources(blocks[i])
  }

  lemma SomeSourceAppend(before: seq<Block>, b: Block, text: string, norm: Normal, s: string)
    ensures SomeSource(before + [b], text, norm, s) <==> SomeSource(before, text, norm, s) || (norm(b.content) == text && s in Sources(b))
  {
    var blocks := before + [b];
    if i :| 0 <= i < |before| && norm(before[i].content) == text && s in Sources(before[i]) {
      assert blocks[i] == before[i];
    }
    if norm(b.content) == text && s in Sources(b) {
      assert blocks[|before|] == b;
    }
  }

  lemma OtherTextRepresented(m: Block, before: seq<Block>, b: Block, norm: Normal)
    requires Represents(m, before, norm) && norm(b.content) != norm(m.content)
    ensures Represents(m, before + [b], norm)
  {
    var blocks := before + [b];
    forall s
      ensures s in Sources(m) <==> SomeSource(blocks, norm(m.content), norm, s)
    {
      SomeSourceAppend(before, b, norm(m.content), norm, s);
    }
    var i :| 0 <= i < |before| && norm(before[i].content) == norm(m.content) && Priority(before[i]) == Priority(m);
    assert blocks[i] == before[i];
    if m.pinned {
      var j :| 0 <= j < |before| && norm(before[j].content) == norm(m.content) && before[j].pinned;
      assert blocks[j] == before[j];
    }
  }

  lemma NewTextRepresented(before: seq<Block>, b: Block, norm: Normal)
    requires forall i :: 0 <= i < |before| ==> norm(before[i].content) != norm(b.content)
    ensures Represents(b.(sources := Some(Sources(b))), before + [b], norm)
  {
    FirstSources(b);
    var blocks, m := before + [b], b.(sources := Some(Sources(b)));
    assert blocks[|before|] == b;
    forall s
      ensures s in Sources(m) <==> SomeSource(blocks, norm(m.content), norm, s)
    {
      SomeSourceAppend(before, b, norm(m.content), norm, s);
    }
  }

  lemma SameTextRepresented(m: Block, before: seq<Block>, b: Block, norm: Normal)
    requires Represents(m, before, norm) && norm(b.content) == norm(m.content)
    ensures Represents(Combine(m, b), before + [b], norm)
  {
    CombineSources(m, b);
    var blocks, c := before + [b], Combine(m, b);
    forall s
      ensures s in Sources(c) <==> SomeSource(blocks, norm(c.content), norm, s)
    {
      SomeSourceAppend(before, b, norm(m.content), norm, s);
    }
    assert blocks[|before|] == b;
    var i :| 0 <= i < |before| && norm(before[i].content) == norm(m.content) && Priority(before[i]) == Priority(m);
    assert blocks[i] == before[i];
    if m.pinned {
      var j :| 0 <= j < |before| && norm(before[j].content) == norm(m.content) && before[j].pinned;
      assert blocks[j] == before[j];
    }
  }

  /** A deduplicated list: one block per text, standing for all blocks of that text. */
  ghost predicate Good(merged: seq<Block>, blocks: seq<Block>, norm: Normal) {
    && Distinct(merged, norm)
    && (forall j :: 0 <= j < |merged| ==> Settled(merged[j]) && Represents(merged[j], blocks, norm))
    && (forall i :: 0 <= i < |blocks| ==> FindText(merged, norm(blocks[i].content), norm).Some?)
  }

  /** No text is lost, none is doubled, and each keeps all its sources, its pin and
      its most urgent priority. */
  lemma {:induction false} MergedRepresents(blocks: seq<Block>, norm: Normal)
    ensures Good(Deduplicate(blocks, norm), blocks, norm)
  {
    if blocks != [] {
      var before, b := blocks[..|blocks| - 1], blocks[|blocks| - 1];
      MergedRepresents(before, norm);
      assert blocks == before + [b];
      MergeRepresents(Deduplicate(before, norm), before, b, norm);
    }
  }

  lemma MergedAt(merged: seq<Block>, before: seq<Block>, b: Block, norm: Normal, j: nat)
    requires Good(merged, before, norm) && j < |Merge(merged, b, norm)|
    ensures var m := Merge(merged, b, norm)[j]; Settled(m) && Represents(m, before + [b], norm)
  {
    var found := FindText(merged, norm(b.content), norm);
    if found.Some? && j == found.value {
      CombineSources(merged[j], b);
      SameTextRepresented(merged[j], before, b, norm);
    } else if j < |merged| {
      OtherTextRepresented(merged[j], before, b, norm);
    } else {
      FirstSources(b);
      AllTextsNew(merged, before, b, norm);
      NewTextRepresented(before, b, norm);
    }
  }

  lemma AllTextsNew(merged: seq<Block>, before: seq<Block>, b: Block, norm: Normal)
    requires FindText(merged, norm(b.content), norm).None?
    requires forall i :: 0 <= i < |before| ==> FindText(merged, norm(before[i].content), norm).Some?
    ensures forall i :: 0 <= i < |before| ==> norm(before[i].content) != norm(b.content)
  {}

  lemma MergeDistinct(merged: seq<Block>, b: Block, norm: Normal)
    requires Distinct(merged, norm)
    ensures Distinct(Merge(merged, b, norm), norm)
  {}

  lemma MergeFinds(merged: seq<Block>, b: Block, norm: Normal, text: string)
    requires FindText(merged, text, norm).Some? || norm(b.content) == text
    ensures FindText(Merge(merged, b, norm), text, norm).Some?
  {
    var found, after := FindText(merged, text, norm), Merge(merged, b, norm);
    var k := if found.Some? then found.value else |merged|;
    assert norm(after[k].content) == text;
  }

  lemma MergeRepresents(merged: seq<Block>, before: seq<Block>, b: Block, norm: Normal)
    requires Good(merged, before, norm)
    ensures Good(Merge(merged, b, norm), before + [b], norm)
  {
    var after := Merge(merged, b, norm);
    MergeDistinct(merged, b, norm);
    forall j | 0 <= j < |after|
      ensures Settled(after[j]) && Represents(after[j], before + [b], norm)
    {
      MergedAt(merged, before, b, norm, j);
    }
    forall i | 0 <= i < |before + [b]|
      ensures FindText(after, norm((before + [b])[i].content), norm).Some?
    {
      MergeFinds(merged, b, norm, norm((before + [b])[i].content));
    }
  }

  /** Whatever the order of the blocks, a text ends up with the same source ids,
      pinned flag and priority. */
  lemma OrderIndependent(a: seq<Block>, b: seq<Block>, norm: Normal, i: nat, j: nat)
    requires multiset(a) == multiset(b)
    requires i < |Deduplicate(a, norm)| && j < |Deduplicate(b, norm)|
    requires norm(Deduplicate(a, norm)[i].content) == norm(Deduplicate(b, norm)[j].content)
    ensures var m, n := Deduplicate(a, norm)[i], Deduplicate(b, norm)[j];
      && (forall s :: s in Sources(m) <==> s in Sources(n)) && m.pinned == n.pinned && Priority(m) == Priority(n)
  {
    MergedRepresents(a, norm);
    MergedRepresents(b, norm);
    SameElements(a, b);
    SameElements(b, a);
    SameFields(a, b, Deduplicate(a, norm)[i], Deduplicate(b, norm)[j], norm);
    SameFields(b, a, Deduplicate(b, norm)[j], Deduplicate(a, norm)[i], norm);
  }

  lemma SameElements(a: seq<Block>, b: seq<Block>)
    requires multiset(a) == multiset(b)
    ensures forall i :: 0 <= i < |a| ==> a[i] in b
  {
    forall i | 0 <= i < |a|
      ensures a[i] in b
    {
      assert a[i] in multiset(b);
    }
  }

  lemma SameFields(a: seq<Block>, b: seq<Block>, m: Block, n: Block, norm: Normal)
    requires Represents(m, a, norm) && Represents(n, b, norm) && norm(m.content) == norm(n.content)
    requires forall i :: 0 <= i < |a| ==> a[i] in b
    ensures forall s :: s in Sources(m) ==> s in Sources(n)
    ensures (m.pinned ==> n.pinned) && Priority(n) <= Priority(m)
  {
    forall s | s in Sources(m)
      ensures s in Sources(n)
    {
      assert SomeSource(a, norm(m.content), norm, s);
      var i :| 0 <= i < |a| && norm(a[i].content) == norm(m.content) && s in Sources(a[i]);
      var j :| 0 <= j < |b| && b[j] == a[i];
      assert SomeSource(b, norm(n.content), norm, s);
    }
    if m.pinned {
      var i :| 0 <= i < |a| && norm(a[i].content) == norm(m.content) && a[i].pinned;
      var j :| 0 <= j < |b| && b[j] == a[i];
    }
    var i :| 0 <= i < |a| && norm(a[i].content) == norm(m.content) && Priority(a[i]) == Priority(m);
    var j :| 0 <= j < |b| && b[j] == a[i];
  }

  lemma {:induction false} SettledStays(merged: seq<Block>, norm: Normal)
    requires Distinct(merged, norm) && forall j :: 0 <= j < |merged| ==> Settled(merged[j])
    ensures Deduplicate(merged, norm) == merged
  {
    if merged != [] {
      var n := |merged| - 1;
      SettledStays(merged[..n], norm);
      assert merged[n].(sources := Some(Sources(merged[n]))) == merged[n];
      assert merged[..n] + [merged[n]] == merged;
    }
  }

  /** Deduplicating twice changes nothing. */
  lemma DeduplicateIdempotent(blocks: seq<Block>, norm: Normal)
    ensures Deduplicate(Deduplicate(blocks, norm), norm) == Deduplicate(blocks, norm)
  {
    MergedRepresents(blocks, norm);
    SettledStays(Deduplicate(blocks, norm), norm);
  }

  // ---------------------------------------------------------------- ordering

  /** The sort key of the compiler: pinned first, then by priority. */
  predicate Precedes(a: Block, b: Block) { if a.pinned != b.pinned then a.pinned else Priority(a) <= Priority(b) }

  ghost predicate Ordered(s: seq<Block>) { forall i, j :: 0 <= i < j < |s| ==> Precedes(s[i], s[j]) }

  /** Inserts behind everything that precedes it. */
  function Insert(s: seq<Block>, b: Block): seq<Block> {
    if s == [] || Precedes(s[|s| - 1], b) then s + [b]
    else Insert(s[..|s| - 1], b) + [s[|s| - 1]]
  }

  /** `sorted(blocks, key=...)` */
  function Sort(blocks: seq<Block>): seq<Block> {
    if blocks == [] then [] else Insert(Sort(blocks[..|blocks| - 1]), blocks[|blocks| - 1])
  }

  lemma {:induction false} InsertPermutes(s: seq<Block>, b: Block)
    ensures multiset(Insert(s, b)) == multiset(s) + multiset{b}
  {
    if s != [] && !Precedes(s[|s| - 1], b) {
      InsertPermutes(s[..|s| - 1], b);
      assert s == s[..|s| - 1] + [s[|s| - 1]];
    }
  }

  lemma {:induction false} InsertBounded(s: seq<Block>, b: Block, top: Block)
    requires Precedes(b, top) && forall i :: 0 <= i < |s| ==> Precedes(s[i], top)
    ensures forall i :: 0 <= i < |Insert(s, b)| ==> Precedes(Insert(s, b)[i], top)
  {
    if s != [] && !Precedes(s[|s| - 1], b) {
      InsertBounded(s[..|s| - 1], b, top);
    }
  }

  lemma {:induction false} InsertOrdered(s: seq<Block>, b: Block)
    requires Ordered(s)
    ensures Ordered(Insert(s, b))
  {
    if s != [] && !Precedes(s[|s| - 1], b) {
      var rest, last := s[..|s| - 1], s[|s| - 1];
      InsertOrdered(rest, b);
      InsertBounded(rest, b, last);
    } else if s != [] {
      forall i | 0 <= i < |s|
        ensures Precedes(s[i], b)
      {
        assert i == |s| - 1 || Precedes(s[i], s[|s| - 1]);
      }
    }
  }

  lemma {:induction false} SortOrders(blocks: seq<Block>)
    ensures Ordered(Sort(blocks)) && multiset(Sort(blocks)) == multiset(blocks)
  {
    if blocks != [] {
      var rest, last := blocks[..|blocks| - 1], blocks[|blocks| - 1];
      SortOrders(rest);
      InsertOrdered(Sort(rest), last);
      InsertPermutes(Sort(rest), last);
      assert blocks == rest + [last];
    }
  }

  predicate SameRank(b: Block, pinned: bool, priority: int) { b.pinned == pinned && Priority(b) == priority }

  function OfRank(s: seq<Block>, pinned: bool, priority: int): seq<Block> {
    if s == [] then []
    else OfRank(s[..|s| - 1], pinned, priority) + (if SameRank(s[|s| - 1], pinned, priority) then [s[|s| - 1]] else [])
  }

  lemma {:induction false} InsertStable(s: seq<Block>, b: Block, pinned: bool, priority: int)
    requires Ordered(s)
    ensures OfRank(Insert(s, b), pinned, priority) == OfRank(s, pinned, priority) + (if SameRank(b, pinned, priority) then [b] else [])
  {
    if s == [] || Precedes(s[|s| - 1], b) {
      assert (s + [b])[..|s|] == s;
    } else {
      var rest, last := s[..|s| - 1], s[|s| - 1];
      InsertStable(rest, b, pinned, priority);
      assert (Insert(rest, b) + [last])[..|Insert(rest, b)|] == Insert(rest, b);
    }
  }

  /** Blocks of equal rank keep their order. */
  lemma {:induction false} SortStable(blocks: seq<Block>, pinned: bool, priority: int)
    ensures OfRank(Sort(blocks), pinned, priority) == OfRank(blocks, pinned, priority)
  {
    if blocks != [] {
      var rest := blocks[..|blocks| - 1];
      SortStable(rest, pinned, priority);
      SortOrders(rest);
      InsertStable(Sort(rest), blocks[|blocks| - 1], pinned, priority);
    }
  }

  // ---------------------------------------------------------------- selection

  datatype Compiled = Compiled(blocks: seq<Block>, tokens: nat, sources: seq<string>, excluded: seq<string>)

  predicate Fits(c: Compiled, b: Block, budget: int) { c.tokens + Tokens(b.content) <= budget || b.pinned }

  function Select(ordered: seq<Block>, budget: int): Compiled {
    if ordered == [] then Compiled([], 0, [], [])
    else
      var c, b := Select(ordered[..|ordered| - 1], budget), ordered[|ordered| - 1];
      if Fits(c, b, budget) then
        Compiled(c.blocks + [b], c.tokens + Tokens(b.content), c.sources + Sources(b), c.excluded)
      else c.(excluded := c.excluded + Sources(b))
  }

  /** `compile_context` */
  method CompileContext(blocks: seq<Block>, budget: int, norm: Normal) returns (c: Compiled)
    ensures c == Select(Sort(Deduplicate(blocks, norm)), budget)
  {
    var merged := DeduplicateBlocks(blocks, norm);
    var ordered := Sort(merged);
    c := Compiled([], 0, [], []);
    assert ordered[..0] == [];
    for i := 0 to |ordered|
      invariant c == Select(ordered[..i], budget)
    {
      assert ordered[..i + 1][..i] == ordered[..i];
      var b := ordered[i];
      if c.tokens + Tokens(b.content) <= budget || b.pinned {
        c := Compiled(c.blocks + [b], c.tokens + Tokens(b.content), c.sources + Sources(b), c.excluded);
      } else {
        c := c.(excluded := c.excluded + Sources(b));
      }
    }
    assert ordered[..|ordered|] == ordered;
  }

  function TotalTokens(blocks: seq<Block>): nat {
    if blocks == [] then 0 else TotalTokens(blocks[..|blocks| - 1]) + Tokens(blocks[|blocks| - 1].content)
  }

  function PinnedTokens(blocks: seq<Block>): nat {
    if blocks == [] then 0
    else PinnedTokens(blocks[..|blocks| - 1]) + (if blocks[|blocks| - 1].pinned then Tokens(blocks[|blocks| - 1].content) else 0)
  }

  /** What selection keeps of an ordered list. */
  lemma {:induction false} SelectionLaws(ordered: seq<Block>, budget: int)
    ensures var c := Select(ordered, budget);
      && c.tokens == TotalTokens(c.blocks)
      && (forall b :: b in c.blocks ==> b in ordered)
      && (forall b :: b in ordered && b.pinned ==> b in c.blocks)
      && (forall b :: b in ordered && b !in c.blocks ==> c.tokens + Tokens(b.content) > budget)
  {
    if ordered != [] {
      var rest, last := ordered[..|ordered| - 1], ordered[|ordered| - 1];
      SelectionLaws(rest, budget);
      assert ordered == rest + [last];
      var c := Select(rest, budget);
      assert (c.blocks + [last])[..|c.blocks|] == c.blocks;
    }
  }

  /** Every source of an ordered block is listed as used or as excluded, no other. */
  lemma {:induction false} SourcesKept(ordered: seq<Block>, budget: int, s: string)
    ensures var c := Select(ordered, budget);
      (s in c.sources || s in c.excluded) <==> exists i :: 0 <= i < |ordered| && s in Sources(ordered[i])
  {
    if ordered != [] {
      var rest, last := ordered[..|ordered| - 1], ordered[|ordered| - 1];
      SourcesKept(rest, budget, s);
      if i :| 0 <= i < |rest| && s in Sources(rest[i]) {
        assert ordered[i] == rest[i];
      }
      if i :| 0 <= i < |ordered| && s in Sources(ordered[i]) {
        assert i < |rest| ==> rest[i] == ordered[i];
      }
    }
  }

  /** Pinned blocks come first, so they alone can exceed the budget. */
  lemma {:induction false} WithinBudget(ordered: seq<Block>, budget: int)
    requires Ordered(ordered)
    ensures Select(ordered, budget).tokens <= budget || Select(ordered, budget).tokens <= PinnedTokens(ordered)
  {
    if ordered != [] {
      var rest, last := ordered[..|ordered| - 1], ordered[|ordered| - 1];
      WithinBudget(rest, budget);
      if last.pinned {
        AllPinned(ordered);
        SelectAllPinned(rest, budget);
      }
    }
  }

  lemma AllPinned(ordered: seq<Block>)
    requires Ordered(ordered) && ordered != [] && ordered[|ordered| - 1].pinned
    ensures forall i :: 0 <= i < |ordered| ==> ordered[i].pinned
  {
    forall i | 0 <= i < |ordered|
      ensures ordered[i].pinned
    {
      assert i == |ordered| - 1 || Precedes(ordered[i], ordered[|ordered| - 1]);
    }
  }

  lemma {:induction false} SelectAllPinned(ordered: seq<Block>, budget: int)
    requires forall i :: 0 <= i < |ordered| ==> ordered[i].pinned
    ensures Select(ordered, budget).tokens == PinnedTokens(ordered)
  {
    if ordered != [] {
      SelectAllPinned(ordered[..|ordered| - 1], budget);
    }
  }

  lemma {:induction false} PinnedTokensInsert(s: seq<Block>, b: Block)
    ensures PinnedTokens(Insert(s, b)) == PinnedTokens(s) + (if b.pinned then Tokens(b.content) else 0)
  {
    if s == [] || Precedes(s[|s| - 1], b) {
      assert (s + [b])[..|s|] == s;
    } else {
      var rest := s[..|s| - 1];
      PinnedTokensInsert(rest, b);
      assert (Insert(rest, b) + [s[|s| - 1]])[..|Insert(rest, b)|] == Insert(rest, b);
    }
  }

  lemma {:induction false} PinnedTokensSort(blocks: seq<Block>)
    ensures PinnedTokens(Sort(blocks)) == PinnedTokens(blocks)
  {
    if blocks != [] {
      PinnedTokensSort(blocks[..|blocks| - 1]);
      PinnedTokensInsert(Sort(blocks[..|blocks| - 1]), blocks[|blocks| - 1]);
    }
  }

  lemma SortedMembers(blocks: seq<Block>)
    ensures forall b :: b in Sort(blocks) <==> b in blocks
  {
    SortOrders(blocks);
    forall b
      ensures b in Sort(blocks) <==> b in blocks
    {
      assert b in multiset(Sort(blocks)) <==> b in multiset(blocks);
    }
  }

  /** The compiled context: every pinned text is in it, it exceeds the budget at most
      by pinned texts, and no text left out would still fit. */
  lemma CompiledContext(blocks: seq<Block>, budget: int, norm: Normal)
    ensures var merged := Deduplicate(blocks, norm); var c := Select(Sort(merged), budget);
      && (forall b :: b in merged && b.pinned ==> b in c.blocks)
      && (c.tokens <= budget || c.tokens <= PinnedTokens(merged)) && c.tokens == TotalTokens(c.blocks)
      && (forall b :: b in merged && b !in c.blocks ==> c.tokens + Tokens(b.content) > budget)
  {
    var merged := Deduplicate(blocks, norm);
    SortedMembers(merged);
    SortOrders(merged);
    SelectionLaws(Sort(merged), budget);
    WithinBudget(Sort(merged), budget);
    PinnedTokensSort(merged);
  }

  /** Every non-empty source id of the input is reported as used or as excluded, and
      no other id is. */
  lemma NoSourceLost(blocks: seq<Block>, budget: int, norm: Normal, s: string)
    ensures var c := Select(Sort(Deduplicate(blocks, norm)), budget);
      (s in c.sources || s in c.excluded) <==> exists i :: 0 <= i < |blocks| && s in Sources(blocks[i])
  {
    var merged := Deduplicate(blocks, norm);
    MergedRepresents(blocks, norm);
    SortedMembers(merged);
    SourcesKept(Sort(merged), budget, s);
    if i :| 0 <= i < |blocks| && s in Sources(blocks[i]) {
      var j := FindText(merged, norm(blocks[i].content), norm).value;
      assert SomeSource(blocks, norm(merged[j].content), norm, s);
      assert merged[j] in Sort(merged);
    }
    if k :| 0 <= k < |Sort(merged)| && s in Sources(Sort(merged)[k]) {
      assert Sort(merged)[k] in merged;
      var j :| 0 <= j < |merged| && merged[j] == Sort(merged)[k];
      assert SomeSource(blocks, norm(merged[j].content), norm, s);
    }
  }
}
