/** The verdict of the deterministic quality gate. */
module QualityGate {
  import opened RunModel
  import opened ClueCover
  import opened Repetition

  const EVIDENCED_HIGH_THRESHOLD := 2

  datatype Reason = SceneMissing | TooShort | Repetitive | CluesMissed | EvidencedHighs

  /** What is left of a text: CJK characters and digits. */
  function Normalize(text: string): string {
    if text == [] then []
    else
      var last := text[|text| - 1];
      Normalize(text[..|text| - 1]) + (if '\U{4e00}' <= last <= '\U{9fff}' || '0' <= last <= '9' then [last] else [])
  }

  /** A clue hits a text exactly or by its greedy cover. */
  ghost predicate ClueHits(clue: string, text: string) {
    Contains(text, clue) || (|clue| >= 3 && exists picked :: Cover(clue, text, picked) && Enough(clue, picked))
  }

  /** The computed verdict does not depend on which cover is looked at. */
  lemma HitDecides(clue: string, text: string, hit: bool, picked: set<Fragment>)
    requires Contains(text, clue) ==> hit
    requires !Contains(text, clue) && |clue| < 3 ==> !hit
    requires !Contains(text, clue) && |clue| >= 3 ==> Cover(clue, text, picked) && (hit <==> Enough(clue, picked))
    ensures hit <==> ClueHits(clue, text)
  {
    if !Contains(text, clue) && |clue| >= 3 {
      if other :| Cover(clue, text, other) && Enough(clue, other) {
        CoverUnique(clue, text, other, picked);
      }
    }
  }

  /** Whether every clue was missed. */
  method AllMissed(clues: seq<string>, text: string) returns (missed: bool)
    ensures missed <==> forall k :: 0 <= k < |clues| ==> !ClueHits(clues[k], text)
  {
    for i := 0 to |clues|
      invariant forall k :: 0 <= k < i ==> !ClueHits(clues[k], text)
    {
      ghost var picked;
      var hit;
      hit, picked := ClueHit(clues[i], text);
      HitDecides(clues[i], text, hit, picked);
      if hit {
        return false;
      }
    }
    return true;
  }

  ghost predicate Repetitious(text: string) { |text| >= MIN_LENGTH && exists g :: Repeats(text, g) }

  /** The reasons in the order they are checked. */
  function ReasonList(short: bool, repetitive: bool, missed: bool, evidenced: bool): seq<Reason> {
    (if short then [TooShort] else []) + (if repetitive then [Repetitive] else [])
    + (if missed then [CluesMissed] else []) + (if evidenced then [EvidencedHighs] else [])
  }

  ghost predicate NoClueHits(clues: seq<string>, text: string) {
    clues != [] && forall k :: 0 <= k < |clues| ==> !ClueHits(clues[k], text)
  }

  /** The reasons that apply to a text. */
  ghost function Applying(text: string, minWords: nat, clues: seq<string>, highs: nat): seq<Reason> {
    var normalized := Normalize(text);
    ReasonList(|text| < minWords, Repetitious(normalized), NoClueHits(clues, normalized), highs >= EVIDENCED_HIGH_THRESHOLD)
  }

  /** `evaluate_gate`, given the limits and clues parsed from the goal and the count
      of evidenced high findings: it passes exactly when there is no reason not to. */
  method EvaluateGate(scene: Option<string>, minWords: nat, clues: seq<string>, highs: nat) returns (passed: bool, reasons: seq<Reason>)
    ensures scene.None? ==> !passed && reasons == [SceneMissing]
    ensures scene.Some? ==> reasons == Applying(scene.value, minWords, clues, highs)
    ensures passed <==> reasons == []
  {
    if scene.None? {
      return false, [SceneMissing];
    }
    var normalized := Normalize(scene.value);
    var repetitive := FindsRepetition(normalized);
    var missed := false;
    if clues != [] {
      missed := AllMissed(clues, normalized);
    }
    reasons := ReasonList(|scene.value| < minWords, repetitive, missed, highs >= EVIDENCED_HIGH_THRESHOLD);
    passed := reasons == [];
  }

  method FindsRepetition(text: string) returns (found: bool)
    ensures found <==> Repetitious(text)
  {
    ghost var accepted;
    var top;
    top, accepted := RepetitionFindings(text);
    if |text| >= MIN_LENGTH {
      ReportsExactly(text, accepted, top);
    }
    found := top != [];
  }
}
