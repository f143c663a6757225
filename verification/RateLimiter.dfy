/** The sliding-window limiter of the /api/v3/ routes.  Times are seconds of a
    monotone clock; a request reads it once for its window and once more when it is
    recorded or refused. */
module RateLimiter {
  const WINDOW := 60.0

  datatype Request = Request(now: real, later: real)

  // ---------------------------------------------------------------- one key

  /** The hits that are still in the window. */
  function Live(hits: seq<real>, now: real): seq<real> {
    if hits == [] || now - hits[0] < WINDOW then hits else Live(hits[1..], now)
  }

  predicate Admits(hits: seq<real>, limit: nat, r: Request) { |Live(hits, r.now)| < limit }

  function Serve(hits: seq<real>, limit: nat, r: Request): seq<real> {
    if Admits(hits, limit, r) then Live(hits, r.now) + [r.later] else Live(hits, r.now)
  }

  /** `int(x)` */
  function Trunc(x: real): int { if x >= 0.0 then x.Floor else -(-x).Floor }

  function RetryAfter(hits: seq<real>, later: real): int
    requires hits != []
  {
    var seconds := Trunc(WINDOW - (later - hits[0])) + 1;
    if seconds > 1 then seconds else 1
  }

  // ---------------------------------------------------------------- traces of one key

  /** The deque after a trace. */
  function Hits(trace: seq<Request>, limit: nat): seq<real> {
    if trace == [] then [] else Serve(Hits(trace[..|trace| - 1], limit), limit, trace[|trace| - 1])
  }

  /** When the accepted requests of a trace were recorded. */
  function Accepted(trace: seq<Request>, limit: nat): seq<real> {
    if trace == [] then []
    else
      var before, r := trace[..|trace| - 1], trace[|trace| - 1];
      Accepted(before, limit) + (if Admits(Hits(before, limit), limit, r) then [r.later] else [])
  }

  /** A monotone clock. */
  ghost predicate Monotone(trace: seq<Request>) {
    && (forall i :: 0 <= i < |trace| ==> trace[i].now <= trace[i].later)
    && (forall i, j :: 0 <= i < j < |trace| ==> trace[i].later <= trace[j].now)
  }

  /** Accepted requests in the half-open interval [start, start + 60). */
  function InWindow(times: seq<real>, start: real): nat {
    if times == [] then 0
    else InWindow(times[..|times| - 1], start) + (if start <= times[|times| - 1] < start + WINDOW then 1 else 0)
  }

  ghost predicate Ascending(times: seq<real>) { forall i, j :: 0 <= i < j < |times| ==> times[i] <= times[j] }

  /** Any limit + 1 consecutive acceptances span the window. */
  ghost predicate Spaced(times: seq<real>, limit: nat) {
    forall i, j :: 0 <= i && j == i + limit && j < |times| ==> times[j] - times[i] >= WINDOW
  }

  /** The deque is the tail of the accepted times; what left it is out of the window. */
  ghost predicate Tail(times: seq<real>, hits: seq<real>, limit: nat, clock: real) {
    && |hits| <= limit && |hits| <= |times| && hits == times[|times| - |hits|..]
    && (forall i :: 0 <= i < |times| ==> times[i] <= clock)
    && (forall i :: 0 <= i < |times| - |hits| ==> clock - times[i] >= WINDOW)
  }

  lemma {:induction false} LiveIsTail(hits: seq<real>, now: real) returns (k: nat)
    ensures k <= |hits| && Live(hits, now) == hits[k..]
    ensures forall i :: 0 <= i < k ==> now - hits[i] >= WINDOW
    ensures k < |hits| ==> now - hits[k] < WINDOW
  {
    k := 0;
    if hits != [] && now - hits[0] >= WINDOW {
      var j := LiveIsTail(hits[1..], now);
      k := j + 1;
      assert hits[1..][j..] == hits[k..];
    }
  }

  lemma TailAfterPops(times: seq<real>, hits: seq<real>, limit: nat, clock: real, now: real)
    requires Tail(times, hits, limit, clock) && clock <= now
    ensures Tail(times, Live(hits, now), limit, now)
  {
    var k := LiveIsTail(hits, now);
    var live := Live(hits, now);
    assert live == times[|times| - |live|..];
    forall i | 0 <= i < |times| - |live|
      ensures now - times[i] >= WINDOW
    {
      if i >= |times| - |hits| {
        assert times[i] == hits[i - (|times| - |hits|)];
      }
    }
  }

  lemma AcceptKeeps(times: seq<real>, live: seq<real>, limit: nat, now: real, later: real)
    requires Tail(times, live, limit, now) && |live| < limit && now <= later
    requires Ascending(times) && Spaced(times, limit)
    ensures Tail(times + [later], live + [later], limit, later)
    ensures Ascending(times + [later]) && Spaced(times + [later], limit)
  {
    var times', live' := times + [later], live + [later];
    assert live' == times'[|times'| - |live'|..];
    forall i, j | 0 <= i && j == i + limit && j < |times'|
      ensures times'[j] - times'[i] >= WINDOW
    {
      if j == |times| {
        assert i < |times| - |live|;
      }
    }
  }

  /** The state of one key at `clock`. */
  ghost predicate Sound(times: seq<real>, hits: seq<real>, limit: nat, clock: real) {
    Ascending(times) && Spaced(times, limit) && Tail(times, hits, limit, clock)
  }

  lemma ServeKeeps(times: seq<real>, hits: seq<real>, limit: nat, clock: real, r: Request)
    requires Sound(times, hits, limit, clock) && clock <= r.now <= r.later
    ensures Sound(if Admits(hits, limit, r) then times + [r.later] else times, Serve(hits, limit, r), limit, r.later)
  {
    TailAfterPops(times, hits, limit, clock, r.now);
    if Admits(hits, limit, r) {
      AcceptKeeps(times, Live(hits, r.now), limit, r.now, r.later);
    }
  }

  lemma MonotonePrefix(trace: seq<Request>)
    requires Monotone(trace) && trace != []
    ensures Monotone(trace[..|trace| - 1]) && trace[|trace| - 1].now <= trace[|trace| - 1].later
    ensures |trace| > 1 ==> trace[|trace| - 2].later <= trace[|trace| - 1].now
  {}

  lemma {:induction false} TraceInvariant(trace: seq<Request>, limit: nat, clock: real)
    requires limit > 0 && Monotone(trace)
    requires trace != [] ==> clock == trace[|trace| - 1].later
    ensures Sound(Accepted(trace, limit), Hits(trace, limit), limit, clock)
  {
    if trace != [] {
      var before, r := trace[..|trace| - 1], trace[|trace| - 1];
      var earlier := if before == [] then r.now else before[|before| - 1].later;
      MonotonePrefix(trace);
      TraceInvariant(before, limit, earlier);
      ServeKeeps(Accepted(before, limit), Hits(before, limit), limit, earlier, r);
    }
  }

  /** Everything limit or more places before a time in the window is before the window. */
  lemma {:induction false} LeftOfWindow(times: seq<real>, limit: nat, start: real, k: nat)
    requires limit > 0 && Spaced(times, limit) && Ascending(times) && k <= |times| - 1
    requires times[|times| - 1] < start + WINDOW
    ensures InWindow(times[..k], start) <= if k > |times| - limit then k - (|times| - limit) else 0
    decreases k
  {
    var n := |times| - 1;
    if k > 0 {
      assert times[..k][..k - 1] == times[..k - 1];
      LeftOfWindow(times, limit, start, k - 1);
      if k - 1 <= n - limit {
        assert times[n - limit] <= times[n] - WINDOW;
        assert times[k - 1] <= times[n - limit];
      }
    }
  }

  lemma {:induction false} WindowCount(times: seq<real>, limit: nat, start: real)
    requires limit > 0 && Ascending(times) && Spaced(times, limit)
    ensures InWindow(times, start) <= limit
  {
    if times != [] {
      var n := |times| - 1;
      if start <= times[n] < start + WINDOW {
        LeftOfWindow(times, limit, start, n);
      } else {
        WindowCount(times[..n], limit, start);
      }
    }
  }

  /** For any trace of requests of one key under a monotone clock, every half-open
      interval of 60 seconds holds at most `limit` accepted requests. */
  lemma WindowBound(trace: seq<Request>, limit: nat, start: real)
    requires limit > 0 && Monotone(trace)
    ensures InWindow(Accepted(trace, limit), start) <= limit
  {
    TraceInvariant(trace, limit, if trace == [] then 0.0 else trace[|trace| - 1].later);
    WindowCount(Accepted(trace, limit), limit, start);
  }

  // ---------------------------------------------------------------- Retry-After

  /** Without another acceptance, a client refused now is admitted later exactly
      when the oldest hit of its window has left it. */
  lemma AdmittedExactly(hits: seq<real>, limit: nat, refused: Request, retry: Request)
    requires Ascending(hits) && |hits| <= limit && limit > 0 && !Admits(hits, limit, refused)
    requires refused.now <= refused.later <= retry.now
    ensures |hits| == limit && Serve(hits, limit, refused) == hits
    ensures Admits(hits, limit, retry) <==> retry.now - hits[0] >= WINDOW
  {
    var k := LiveIsTail(hits, refused.now);
    var j := LiveIsTail(hits, retry.now);
  }

  /** A refused client that waits the advertised Retry-After (section 10.2.3 of
      RFC 9110, section 4 of RFC 6585) with no other acceptance on its key is
      admitted; and the advertised time is at most one second too long. */
  lemma RetryAfterSuffices(hits: seq<real>, limit: nat, refused: Request, retry: Request)
    requires Ascending(hits) && |hits| <= limit && limit > 0 && !Admits(hits, limit, refused)
    requires refused.now <= refused.later
    requires retry.now >= refused.later + RetryAfter(hits, refused.later) as real
    ensures Admits(hits, limit, retry)
    ensures var wait := RetryAfter(hits, refused.later); wait > 1 ==> !(refused.later + (wait - 1) as real > hits[0] + WINDOW)
  {
    var wait := RetryAfter(hits, refused.later);
    AdmittedExactly(hits, limit, refused, retry);
    var left := WINDOW - (refused.later - hits[0]);
    if left >= 0.0 {
      assert left.Floor as real <= left < left.Floor as real + 1.0;
    }
  }

  // ---------------------------------------------------------------- the middleware

  datatype Kind = Read | Write
  datatype Outcome = Accept | Reject(retryAfter: int)

  /** `AgentRateLimitMiddleware`, one deque per identity and kind. */
  class Limiter {
    const readLimit: nat
    const writeLimit: nat
    var hits: map<(string, Kind), seq<real>>

    constructor (readPerMinute: int, writePerMinute: int)
      ensures readLimit > 0 && writeLimit > 0 && hits == map[]
      ensures readPerMinute > 0 ==> readLimit == readPerMinute
      ensures writePerMinute > 0 ==> writeLimit == writePerMinute
    {
      readLimit := if readPerMinute > 1 then readPerMinute else 1;
      writeLimit := if writePerMinute > 1 then writePerMinute else 1;
      hits := map[];
    }

    function LimitOf(kind: Kind): nat { if kind.Write? then writeLimit else readLimit }

    function HitsOf(key: (string, Kind)): seq<real>
      reads this
    {
      if key in hits then hits[key] else []
    }

    /** `_window` */
    method Window(key: (string, Kind), now: real)
      modifies this
      ensures key in hits && HitsOf(key) == Live(old(HitsOf(key)), now)
      ensures hits == old(hits)[key := HitsOf(key)]
    {
      var live := HitsOf(key);
      while live != [] && now - live[0] >= WINDOW
        invariant Live(live, now) == Live(old(HitsOf(key)), now)
        decreases |live|
      {
        live := live[1..];
      }
      hits := hits[key := live];
    }

    /** `dispatch` on an /api/v3/ path: what is recorded is what `Serve` says, for
        this key alone; a refusal carries the Retry-After of the oldest hit. */
    method Dispatch(key: (string, Kind), now: real, later: real) returns (outcome: Outcome)
      requires LimitOf(key.1) > 0
      modifies this
      ensures HitsOf(key) == Serve(old(HitsOf(key)), LimitOf(key.1), Request(now, later))
      ensures hits == old(hits)[key := HitsOf(key)]
      ensures outcome.Accept? <==> Admits(old(HitsOf(key)), LimitOf(key.1), Request(now, later))
      ensures outcome.Reject? ==> HitsOf(key) != [] && outcome.retryAfter == RetryAfter(HitsOf(key), later)
    {
      Window(key, now);
      if |hits[key]| >= LimitOf(key.1) {
        return Reject(RetryAfter(hits[key], later));
      }
      hits := hits[key := hits[key] + [later]];
      return Accept;
    }
  }
}
