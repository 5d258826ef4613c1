/** The fixed-window limiter over the rate_buckets table (backend/ratelimit/limiter.py:32-80). */
module RateLimiter {
  type Buckets = map<(string, int), int>

  datatype CheckResult = CheckResult(allowed: bool, limit: int, remaining: int, resetAt: int, retryAfter: int)

  function WindowStart(now: int, window: int): int
    requires window >= 1
  {
    now - now % window
  }

  function CountOf(b: Buckets, key: string, start: int): int {
    if (key, start) in b then b[(key, start)] else 0
  }

  function Max(a: int, b: int): int {
    if a >= b then a else b
  }

  function Bumped(b: Buckets, key: string, window: int, now: int): Buckets
    requires window >= 1
  {
    var start := WindowStart(now, window);
    b[(key, start) := CountOf(b, key, start) + 1]
  }

  /** Allowed is "the bucket, this check included, is within the limit". */
  predicate Allowed(b: Buckets, key: string, limit: int, window: int, now: int)
    requires window >= 1
  {
    CountOf(b, key, WindowStart(now, window)) < limit
  }

  class PostgresLimiter {
    var buckets: Buckets

    constructor ()
      ensures buckets == map[]
    {
      buckets := map[];
    }

    /** One check, by the upsert or by read-modify-write: both leave the same counts and answer the
        same.  A refused caller is told the seconds to the next window boundary. */
    method Check(key: string, limit: int, window: int, now: int, upsert: bool) returns (r: CheckResult)
      requires window >= 1
      modifies this
      ensures buckets == Bumped(old(buckets), key, window, now)
      ensures r.allowed == Allowed(old(buckets), key, limit, window, now)
      ensures r.limit == limit
      ensures r.remaining == Max(limit - CountOf(buckets, key, WindowStart(now, window)), 0)
      ensures r.resetAt % window == 0 && now < r.resetAt <= now + window
      ensures r.allowed ==> r.retryAfter == 0
      ensures !r.allowed ==> 1 <= r.retryAfter <= window && now + r.retryAfter == r.resetAt
    {
      var start := now - now % window;
      var resetAt := start + window;
      BoundaryAfter(now, window);
      var count;
      if upsert {
        if (key, start) !in buckets {
          buckets := buckets[(key, start) := 1];
        } else {
          buckets := buckets[(key, start) := buckets[(key, start)] + 1];
        }
        count := buckets[(key, start)];
      } else {
        if (key, start) !in buckets {
          buckets := buckets[(key, start) := 1];
          count := 1;
        } else {
          count := buckets[(key, start)] + 1;
          buckets := buckets[(key, start) := count];
        }
      }
      var allowed := count <= limit;
      r := CheckResult(allowed, limit, Max(limit - count, 0), resetAt,
                       if allowed then 0 else Max(resetAt - now, 1));
    }
  }

  lemma BoundaryAfter(now: int, window: int)
    requires window >= 1
    ensures (WindowStart(now, window) + window) % window == 0
    ensures WindowStart(now, window) % window == 0
    ensures WindowStart(now, window) <= now < WindowStart(now, window) + window
  {
    var q := now / window;
    assert WindowStart(now, window) == q * window;
    MultipleMod(q, window);
    MultipleMod(q + 1, window);
    assert q * window + window == (q + 1) * window;
  }

  lemma NonzeroMultiple(d: int, window: int)
    requires window >= 1
    ensures d >= 1 ==> d * window >= window
    ensures d <= -1 ==> d * window <= -window
  {
  }

  lemma MultipleMod(q: int, window: int)
    requires window >= 1
    ensures (q * window) % window == 0
  {
    var r, d := (q * window) % window, (q * window) / window;
    assert (q - d) * window == r;
    NonzeroMultiple(q - d, window);
  }

  lemma CloseMultiples(a: int, b: int, window: int)
    requires window >= 1 && -window < a * window - b * window < window
    ensures a == b
  {
    assert a * window - b * window == (a - b) * window;
    NonzeroMultiple(a - b, window);
  }

  lemma MultipleOf(n: int, window: int) returns (q: int)
    requires window >= 1 && n % window == 0
    ensures n == q * window
  {
    q := n / window;
  }

  /** Aligned starts at most one window apart are equal. */
  lemma AlignedStartIsUnique(now: int, start: int, window: int)
    requires window >= 1 && start % window == 0
    ensures WindowStart(now, window) == start <==> start <= now < start + window
  {
    hide WindowStart;
    BoundaryAfter(now, window);
    var a := MultipleOf(WindowStart(now, window), window);
    var b := MultipleOf(start, window);
    if start <= now < start + window {
      CloseMultiples(a, b, window);
    }
  }

  // ---------- runs of checks ----------

  datatype Request = Request(key: string, limit: int, window: int, now: int)

  /** The key of interest is always checked with the same limit and window. */
  predicate Uniform(reqs: seq<Request>, key: string, limit: int, window: int) {
    forall i :: 0 <= i < |reqs| ==>
      reqs[i].window >= 1 && (reqs[i].key == key ==> reqs[i].limit == limit && reqs[i].window == window)
  }

  predicate Hits(r: Request, key: string, lo: int, hi: int) {
    r.key == key && lo <= r.now < hi
  }

  /** How many checks of `key` with lo <= now < hi the run makes. */
  function ChecksIn(reqs: seq<Request>, key: string, lo: int, hi: int): nat {
    if reqs == [] then 0
    else (if Hits(reqs[0], key, lo, hi) then 1 else 0) + ChecksIn(reqs[1..], key, lo, hi)
  }

  /** How many of those are allowed when the run starts from buckets b. */
  function AllowedIn(b: Buckets, reqs: seq<Request>, key: string, lo: int, hi: int): nat
    requires forall i :: 0 <= i < |reqs| ==> reqs[i].window >= 1
    decreases |reqs|
  {
    if reqs == [] then 0
    else
      var r := reqs[0];
      (if Hits(r, key, lo, hi) && Allowed(b, r.key, r.limit, r.window, r.now) then 1 else 0)
      + AllowedIn(Bumped(b, r.key, r.window, r.now), reqs[1..], key, lo, hi)
  }

  /** In an aligned window exactly the first `limit` checks pass, less those already counted. */
  lemma {:induction false} AlignedWindowAllowsExactly(b: Buckets, reqs: seq<Request>, key: string, limit: int,
                                                      window: int, start: int)
    requires window >= 1 && start % window == 0
    requires Uniform(reqs, key, limit, window)
    ensures
      var left := Max(limit - CountOf(b, key, start), 0);
      var checks := ChecksIn(reqs, key, start, start + window);
      AllowedIn(b, reqs, key, start, start + window) == if checks <= left then checks else left
    decreases |reqs|
  {
    if reqs != [] {
      var r := reqs[0];
      var b' := Bumped(b, r.key, r.window, r.now);
      if r.key == key {
        AlignedStartIsUnique(r.now, start, window);
      }
      AlignedWindowAllowsExactly(b', reqs[1..], key, limit, window, start);
    }
  }

  /** Allowed checks in a span are allowed checks in two spans that cover it. */
  lemma {:induction false} AllowedInSplits(b: Buckets, reqs: seq<Request>, key: string, lo: int, hi: int,
                                           from: int, mid: int, to: int)
    requires forall i :: 0 <= i < |reqs| ==> reqs[i].window >= 1
    requires from <= lo && hi <= to && from <= mid <= to
    ensures AllowedIn(b, reqs, key, lo, hi) <= AllowedIn(b, reqs, key, from, mid) + AllowedIn(b, reqs, key, mid, to)
    decreases |reqs|
  {
    if reqs != [] {
      var r := reqs[0];
      AllowedInSplits(Bumped(b, r.key, r.window, r.now), reqs[1..], key, lo, hi, from, mid, to);
    }
  }

  /** In any half-open span no longer than the window at most twice the limit passes, whatever the
      checks on other keys and in whatever order the clock readings come. */
  lemma SpanAllowsAtMostTwice(b: Buckets, reqs: seq<Request>, key: string, limit: int, window: int, lo: int, hi: int)
    requires window >= 1 && lo <= hi <= lo + window
    requires forall k :: k in b ==> b[k] >= 0
    requires Uniform(reqs, key, limit, window)
    ensures AllowedIn(b, reqs, key, lo, hi) <= 2 * Max(limit, 0)
  {
    var first := WindowStart(lo, window);
    var second := first + window;
    BoundaryAfter(lo, window);
    AllowedInSplits(b, reqs, key, lo, hi, first, second, second + window);
    AlignedWindowAllowsExactly(b, reqs, key, limit, window, first);
    AlignedWindowAllowsExactly(b, reqs, key, limit, window, second);
  }

  /** `n` checks of one key at the same time. */
  function Burst(key: string, limit: int, window: int, now: int, n: nat): seq<Request> {
    seq(n, _ => Request(key, limit, window, now))
  }

  lemma {:induction false} BurstCounts(reqs: seq<Request>, more: seq<Request>, key: string, lo: int, hi: int)
    requires forall i :: 0 <= i < |reqs| ==> Hits(reqs[i], key, lo, hi)
    ensures ChecksIn(reqs + more, key, lo, hi) >= |reqs|
  {
    if reqs != [] {
      assert (reqs + more)[1..] == reqs[1..] + more;
      BurstCounts(reqs[1..], more, key, lo, hi);
    }
  }

  lemma {:induction false} LateBurstCounts(first: seq<Request>, reqs: seq<Request>, key: string, lo: int, hi: int)
    requires forall i :: 0 <= i < |reqs| ==> Hits(reqs[i], key, lo, hi)
    ensures ChecksIn(first + reqs, key, lo, hi) >= |reqs|
  {
    if first == [] {
      assert first + reqs == reqs == reqs + [];
      BurstCounts(reqs, [], key, lo, hi);
    } else {
      assert (first + reqs)[1..] == first[1..] + reqs;
      LateBurstCounts(first[1..], reqs, key, lo, hi);
    }
  }

  lemma {:induction false} AllowedInJoins(b: Buckets, reqs: seq<Request>, key: string, from: int, mid: int, to: int)
    requires forall i :: 0 <= i < |reqs| ==> reqs[i].window >= 1
    requires from <= mid <= to
    ensures AllowedIn(b, reqs, key, from, to) == AllowedIn(b, reqs, key, from, mid) + AllowedIn(b, reqs, key, mid, to)
    decreases |reqs|
  {
    hide Allowed, Bumped;
    if reqs != [] {
      var r := reqs[0];
      AllowedInJoins(Bumped(b, r.key, r.window, r.now), reqs[1..], key, from, mid, to);
    }
  }

  /** Spans that hold the same checks allow the same. */
  lemma {:induction false} AllowedInSame(b: Buckets, reqs: seq<Request>, key: string, lo: int, hi: int, from: int,
      to: int)
    requires forall i :: 0 <= i < |reqs| ==> reqs[i].window >= 1
    requires forall i :: 0 <= i < |reqs| ==> (Hits(reqs[i], key, lo, hi) <==> Hits(reqs[i], key, from, to))
    ensures AllowedIn(b, reqs, key, lo, hi) == AllowedIn(b, reqs, key, from, to)
    decreases |reqs|
  {
    hide Allowed, Bumped, Hits;
    if reqs != [] {
      var r := reqs[0];
      AllowedInSame(Bumped(b, r.key, r.window, r.now), reqs[1..], key, lo, hi, from, to);
    }
  }

  /** A span that no window boundary cuts passes at most the limit, in every run; with a window of one
      second that is every span within the window. */
  lemma SpanWithinOneWindow(b: Buckets, reqs: seq<Request>, key: string, limit: int, window: int, lo: int, hi: int)
    requires window >= 1 && lo < hi && WindowStart(hi - 1, window) <= lo
    requires forall k :: k in b ==> b[k] >= 0
    requires Uniform(reqs, key, limit, window)
    ensures AllowedIn(b, reqs, key, lo, hi) <= Max(limit, 0)
  {
    var start := WindowStart(hi - 1, window);
    BoundaryAfter(hi - 1, window);
    AllowedInJoins(b, reqs, key, start, lo, start + window);
    AllowedInJoins(b, reqs, key, lo, hi, start + window);
    AlignedWindowAllowsExactly(b, reqs, key, limit, window, start);
  }

  function BurstAcross(key: string, limit: nat, window: int, cut: int): seq<Request> {
    Burst(key, limit, window, cut - 1, limit) + Burst(key, limit, window, cut, limit)
  }

  lemma BurstAcrossIs(key: string, limit: nat, window: int, cut: int)
    requires window >= 1
    ensures
      var reqs := BurstAcross(key, limit, window, cut);
      && Uniform(reqs, key, limit, window) && ChecksIn(reqs, key, cut - window, cut) >= limit
      && ChecksIn(reqs, key, cut, cut + window) >= limit
      && forall i :: 0 <= i < |reqs| ==> reqs[i].window >= 1 && cut - 1 <= reqs[i].now <= cut
  {
    var before, after := Burst(key, limit, window, cut - 1, limit), Burst(key, limit, window, cut, limit);
    BurstCounts(before, after, key, cut - window, cut);
    LateBurstCounts(before, after, key, cut, cut + window);
  }

  /** One aligned window of the burst passes the whole limit. */
  lemma BurstFills(key: string, limit: nat, window: int, cut: int, start: int)
    requires window >= 1 && start % window == 0 && (start == cut - window || start == cut)
    ensures Uniform(BurstAcross(key, limit, window, cut), key, limit, window)
    ensures AllowedIn(map[], BurstAcross(key, limit, window, cut), key, start, start + window) == limit
  {
    hide BurstAcross, ChecksIn, AllowedIn, Uniform;
    BurstAcrossIs(key, limit, window, cut);
    NothingCounted(key, start, limit);
    UniformWindows(BurstAcross(key, limit, window, cut), key, limit, window);
    AlignedWindowAllowsExactly(map[], BurstAcross(key, limit, window, cut), key, limit, window, start);
  }

  lemma UniformWindows(reqs: seq<Request>, key: string, limit: int, window: int)
    requires Uniform(reqs, key, limit, window)
    ensures forall i :: 0 <= i < |reqs| ==> reqs[i].window >= 1
  {
  }

  /** And a span that a boundary cuts can pass exactly twice the limit: a burst before it and one at it. */
  lemma TwiceTheLimitHappens(key: string, limit: nat, window: int, lo: int, hi: int)
    requires window >= 1 && lo < WindowStart(hi - 1, window) && hi <= lo + window
    ensures
      var reqs := BurstAcross(key, limit, window, WindowStart(hi - 1, window));
      Uniform(reqs, key, limit, window) && AllowedIn(map[], reqs, key, lo, hi) == 2 * limit
  {
    hide WindowStart, BurstAcross, AllowedIn, ChecksIn, Uniform;
    var cut := WindowStart(hi - 1, window);
    var reqs := BurstAcross(key, limit, window, cut);
    BoundaryAfter(hi - 1, window);
    PreviousBoundary(cut, window);
    BurstFills(key, limit, window, cut, cut - window);
    BurstFills(key, limit, window, cut, cut);
    BurstAcrossIs(key, limit, window, cut);
    AllowedInJoins(map[], reqs, key, cut - window, cut, cut + window);
    AllowedInSame(map[], reqs, key, lo, hi, cut - window, cut + window);
  }

  lemma NothingCounted(key: string, start: int, limit: nat)
    ensures Max(limit - CountOf(map[], key, start), 0) == limit
  {
  }

  lemma PreviousBoundary(cut: int, window: int)
    requires window >= 1 && cut % window == 0
    ensures (cut - window) % window == 0
  {
    var q := MultipleOf(cut, window);
    MultipleMod(q - 1, window);
    assert (q - 1) * window == cut - window;
  }

  /** A window of one second never passes more than the limit; every longer one can pass twice the limit. */
  lemma TwiceTheLimitNeedsTwoSeconds(b: Buckets, reqs: seq<Request>, key: string, limit: nat, window: int, lo: int)
    requires window >= 1
    requires (forall k :: k in b ==> b[k] >= 0) && Uniform(reqs, key, limit, window)
    ensures window == 1 ==> AllowedIn(b, reqs, key, lo, lo + 1) <= limit
    ensures window >= 2 ==>
              AllowedIn(map[], BurstAcross(key, limit, window, window), key, window - 1, window + 1) == 2 * limit
  {
    hide BurstAcross, AllowedIn, Uniform;
    if window == 1 {
      SpanWithinOneWindow(b, reqs, key, limit, window, lo, lo + 1);
    } else {
      assert WindowStart(window, window) == window;
      TwiceTheLimitHappens(key, limit, window, window - 1, window + 1);
    }
  }
}
