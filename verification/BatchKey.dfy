/** The per-chapter idempotency key of a batch and its parser. */
module BatchKey {
  import opened RunModel
  import opened Decimal

  const PREFIX := "batch"

  predicate NoColon(s: string) { ':' !in s }

  /** `str.split(":")` */
  function Split(s: string): (parts: seq<string>)
    ensures |parts| >= 1
  {
    if s == [] then [""]
    else
      var rest := Split(s[1..]);
      if s[0] == ':' then [""] + rest else [[s[0]] + rest[0]] + rest[1..]
  }

  function ChapterKey(analyzeRun: string, no: int): string {
    PREFIX + ":" + analyzeRun + ":" + Render(no)
  }

  /** `parse_batch_key` */
  function ParseKey(key: string): Option<(string, int)> {
    var parts := Split(key);
    if |parts| != 3 || parts[0] != PREFIX then None
    else
      match ParseInt(parts[2])
      case Some(no) => Some((parts[1], no))
      case None => None
  }

  lemma {:induction false} SplitPlain(s: string)
    requires NoColon(s)
    ensures Split(s) == [s]
  {
    if s != [] {
      SplitPlain(s[1..]);
      assert [s[0]] + s[1..] == s;
    }
  }

  lemma {:induction false} SplitAtColon(a: string, rest: string)
    requires NoColon(a)
    ensures Split(a + ":" + rest) == [a] + Split(rest)
  {
    var s := a + ":" + rest;
    if a == [] {
      assert s[1..] == rest;
    } else {
      assert s[1..] == a[1..] + ":" + rest;
      SplitAtColon(a[1..], rest);
      var tail := [a[1..]] + Split(rest);
      assert tail[1..] == Split(rest) && [a[0]] + a[1..] == a;
    }
  }

  lemma RenderPlain(no: int)
    ensures NoColon(Render(no))
  {}

  /** The key of chapter `no` of a batch parses back to exactly that batch and chapter. */
  lemma KeyRoundTrip(analyzeRun: string, no: int)
    requires NoColon(analyzeRun)
    ensures ParseKey(ChapterKey(analyzeRun, no)) == Some((analyzeRun, no))
  {
    RenderPlain(no);
    assert ChapterKey(analyzeRun, no) == PREFIX + ":" + (analyzeRun + ":" + Render(no));
    SplitAtColon(PREFIX, analyzeRun + ":" + Render(no));
    SplitAtColon(analyzeRun, Render(no));
    SplitPlain(Render(no));
    ParseRender(no);
  }

  /** So two chapters share a key only if they are the same chapter of the same batch. */
  lemma KeysAreUnique(a: string, m: int, b: string, n: int)
    requires NoColon(a) && NoColon(b) && ChapterKey(a, m) == ChapterKey(b, n)
    ensures a == b && m == n
  {
    KeyRoundTrip(a, m);
    KeyRoundTrip(b, n);
  }

  lemma {:induction false} SplitJoins(s: string)
    ensures Split(s)[0] <= s && NoColon(Split(s)[0])
    ensures |Split(s)| == 3 ==> s == Split(s)[0] + ":" + Split(s)[1] + ":" + Split(s)[2] && NoColon(Split(s)[1]) && NoColon(Split(s)[2])
    ensures |Split(s)| == 2 ==> s == Split(s)[0] + ":" + Split(s)[1] && NoColon(Split(s)[1])
    ensures |Split(s)| == 1 ==> s == Split(s)[0]
  {
    if s != [] {
      SplitJoins(s[1..]);
    }
  }

  /** Whatever parses names a batch without a colon in its id. */
  lemma ParsedKeyShape(key: string)
    requires ParseKey(key).Some?
    ensures NoColon(ParseKey(key).value.0) && PREFIX + ":" + ParseKey(key).value.0 + ":" <= key
  {
    SplitJoins(key);
  }
}
