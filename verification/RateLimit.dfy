/** The in-memory fixed-window limiter of safenestt/security/rate_limit.py.

    `Charge` and `Reply` say what one call does to the table and what it answers;
    `InMemoryRateLimiter.Check` is proved against them, and the theorems below are
    about every trace of such calls. */
module RateLimit {
  import opened Basics

  type Bucket = (string, string)

  datatype Call = Call(scope: string, key: string, limit: int, window: int, now: int)
  {
    function Bucket(): Bucket { (scope, key) }
    // `window` is in seconds
    function Expiry(): int { now + window * MICROS }
  }

  datatype Entry = Entry(tokens: int, limit: int, resetAt: int)

  type Entries = map<Bucket, Entry>

  datatype RateLimitResult = RateLimitResult(
    allowed: bool, remaining: int, limit: int, resetAt: int, scope: string, detail: Option<string>)

  // The entry a call is charged to: the live one, or a fresh window opened by the call.
  function Current(entries: Entries, c: Call): Entry {
    if c.Bucket() in entries && entries[c.Bucket()].resetAt > c.now then entries[c.Bucket()]
    else Entry(c.limit, c.limit, c.Expiry())
  }

  function Spend(e: Entry): Entry {
    if e.tokens <= 0 then e else e.(tokens := e.tokens - 1)
  }

  function Charge(entries: Entries, c: Call): Entries {
    entries[c.Bucket() := Spend(Current(entries, c))]
  }

  function Reply(entries: Entries, c: Call): RateLimitResult {
    var e := Current(entries, c);
    if e.tokens <= 0 then RateLimitResult(false, 0, e.limit, e.resetAt, c.scope, Some("rate_limit_exceeded"))
    else RateLimitResult(true, e.tokens - 1, e.limit, e.resetAt, c.scope, None)
  }

  class InMemoryRateLimiter {
    var entries: Entries

    constructor ()
      ensures entries == map[]
    {
      entries := map[];
    }

    method Check(c: Call) returns (r: RateLimitResult)
      modifies this
      ensures entries == Charge(old(entries), c)
      ensures r == Reply(old(entries), c)
    {
      var k := c.Bucket();
      if k !in entries || entries[k].resetAt <= c.now {
        entries := entries[k := Entry(c.limit, c.limit, c.Expiry())];
      }
      var entry := entries[k];
      if entry.tokens <= 0 {
        assert entries[k := entry] == entries;
        return RateLimitResult(false, 0, entry.limit, entry.resetAt, c.scope, Some("rate_limit_exceeded"));
      }
      entry := entry.(tokens := entry.tokens - 1);
      entries := entries[k := entry];
      r := RateLimitResult(true, entry.tokens, entry.limit, entry.resetAt, c.scope, None);
    }
  }

  // ---------------------------------------------------------------- traces

  function Replies(entries: Entries, calls: seq<Call>): (r: seq<RateLimitResult>)
    ensures |r| == |calls|
    decreases |calls|
  {
    if calls == [] then [] else [Reply(entries, calls[0])] + Replies(Charge(entries, calls[0]), calls[1..])
  }

  function After(entries: Entries, calls: seq<Call>): Entries
    decreases |calls|
  {
    if calls == [] then entries else After(Charge(entries, calls[0]), calls[1..])
  }

  // The allowed calls on bucket k whose instant lies in [lo, hi).
  function Grants(entries: Entries, calls: seq<Call>, k: Bucket, lo: int, hi: int): nat
    decreases |calls|
  {
    if calls == [] then 0 else
      var c := calls[0];
      (if c.Bucket() == k && lo <= c.now < hi && Reply(entries, c).allowed then 1 else 0)
      + Grants(Charge(entries, c), calls[1..], k, lo, hi)
  }

  ghost predicate Ordered(calls: seq<Call>) {
    forall i, j :: 0 <= i < j < |calls| ==> calls[i].now <= calls[j].now
  }

  ghost predicate Uniform(calls: seq<Call>, k: Bucket, limit: int, window: int) {
    forall i :: 0 <= i < |calls| && calls[i].Bucket() == k ==> calls[i].limit == limit && calls[i].window == window
  }

  // ---------------------------------------------------------------- one window

  // These calls are all made on k with these settings.
  ghost predicate AllOn(calls: seq<Call>, k: Bucket, limit: int, window: int) {
    forall i :: 0 <= i < |calls| ==> calls[i].Bucket() == k && calls[i].limit == limit && calls[i].window == window
  }

  // The n-th answer given from `left` tokens.
  function Nth(n: nat, left: int, limit: int, resetAt: int, scope: string): RateLimitResult {
    if n < left then RateLimitResult(true, left - 1 - n, limit, resetAt, scope, None)
    else RateLimitResult(false, 0, limit, resetAt, scope, Some("rate_limit_exceeded"))
  }

  lemma {:induction false} RepliesWithin(entries: Entries, calls: seq<Call>, k: Bucket, limit: int, window: int)
    requires AllOn(calls, k, limit, window) && k in entries && entries[k].limit == limit
    requires forall i :: 0 <= i < |calls| ==> calls[i].now < entries[k].resetAt
    ensures forall i :: 0 <= i < |calls| ==>
      Replies(entries, calls)[i] == Nth(i, entries[k].tokens, limit, entries[k].resetAt, k.0)
    decreases |calls|
  {
    if calls != [] {
      RepliesWithin(Charge(entries, calls[0]), calls[1..], k, limit, window);
    }
  }

  /** In one window of a bucket, opened at t, the first `limit` calls are allowed, counting down
      what remains, and all others denied; every answer names the limit and the instant t plus the
      window's seconds. */
  lemma WindowReplies(entries: Entries, calls: seq<Call>, k: Bucket, limit: int, window: int, t: int)
    requires AllOn(calls, k, limit, window) && calls != [] && calls[0].now == t
    requires k in entries ==> entries[k].resetAt <= t
    requires forall i :: 0 <= i < |calls| ==> t <= calls[i].now < t + window * 1_000_000
    ensures forall i :: 0 <= i < |calls| ==>
      Replies(entries, calls)[i] == Nth(i, limit, limit, t + window * 1_000_000, k.0)
  {
    RepliesWithin(Charge(entries, calls[0]), calls[1..], k, limit, window);
  }

  // ---------------------------------------------------------------- the sliding-window bound

  // Tokens handed out by windows opened one after another, `width` apart, over `span`.
  function Budget(limit: nat, span: int, width: int): nat
    requires width > 0
    decreases Max(span, 0)
  {
    if span <= 0 then 0 else limit + Budget(limit, span - width, width)
  }

  lemma {:induction false} BudgetMonotone(limit: nat, small: int, large: int, width: int)
    requires width > 0 && small <= large
    ensures Budget(limit, small, width) <= Budget(limit, large, width)
    decreases Max(small, 0)
  {
    if small > 0 {
      BudgetMonotone(limit, small - width, large - width, width);
    }
  }

  lemma {:induction false} BudgetOfWindows(limit: nat, n: nat, width: int)
    requires width > 0
    ensures Budget(limit, n * width, width) == n * limit
  {
    if n > 0 {
      BudgetOfWindows(limit, n - 1, width);
      assert n * width - width == (n - 1) * width;
      assert n * width >= width;
      assert limit + (n - 1) * limit == n * limit;
    }
  }

  // From a live window, grants before `hi` come from its remaining tokens and from
  // windows opened no earlier than its reset.
  lemma {:induction false} GrantsFromWindow(
    entries: Entries, calls: seq<Call>, k: Bucket, lo: int, hi: int, limit: int, window: int)
    requires window > 0 && Ordered(calls) && Uniform(calls, k, limit, window)
    requires k in entries
    ensures Grants(entries, calls, k, lo, hi)
         <= Max(entries[k].tokens, 0) + Budget(Max(limit, 0), hi - entries[k].resetAt, window * MICROS)
    decreases |calls|
  {
    if calls != [] {
      var c, rest := calls[0], calls[1..];
      var next := Charge(entries, c);
      var width := window * MICROS;
      if c.now >= hi {
        NoGrantsAfter(entries, calls, k, lo, hi);
      } else {
        GrantsFromWindow(next, rest, k, lo, hi, limit, window);
        if c.Bucket() == k && entries[k].resetAt <= c.now {
          BudgetMonotone(Max(limit, 0), hi - c.now, hi - entries[k].resetAt, width);
        }
      }
    }
  }

  lemma {:induction false} NoGrantsAfter(entries: Entries, calls: seq<Call>, k: Bucket, lo: int, hi: int)
    requires Ordered(calls) && (calls != [] ==> calls[0].now >= hi)
    ensures Grants(entries, calls, k, lo, hi) == 0
    decreases |calls|
  {
    if calls != [] {
      NoGrantsAfter(Charge(entries, calls[0]), calls[1..], k, lo, hi);
    }
  }

  // A call that opens a window has all its tokens, and one of them is its own.
  lemma GrantsOfOpening(entries: Entries, calls: seq<Call>, k: Bucket, lo: int, hi: int, limit: int, window: int)
    requires window > 0 && Ordered(calls) && Uniform(calls, k, limit, window)
    requires calls != [] && calls[0].Bucket() == k && calls[0].now < hi
    requires k in entries ==> entries[k].resetAt <= calls[0].now
    ensures Grants(entries, calls, k, lo, hi) <= Budget(Max(limit, 0), hi - calls[0].now, window * MICROS)
  {
    GrantsFromWindow(Charge(entries, calls[0]), calls[1..], k, lo, hi, limit, window);
  }

  // Opening a window spends one of its own tokens, so a stored entry never holds `limit`.
  ghost predicate Opened(entries: Entries, k: Bucket, limit: int) {
    k in entries ==> entries[k].tokens <= Max(limit - 1, 0)
  }

  lemma {:induction false} SlidingFrom(
    entries: Entries, calls: seq<Call>, k: Bucket, lo: int, hi: int, limit: int, window: int)
    requires window > 0 && Ordered(calls) && Uniform(calls, k, limit, window)
    requires Opened(entries, k, limit)
    ensures Grants(entries, calls, k, lo, hi) <= Max(limit - 1, 0) + Budget(Max(limit, 0), hi - lo, window * MICROS)
    decreases |calls|
  {
    if calls != [] {
      var c, rest := calls[0], calls[1..];
      var next := Charge(entries, c);
      if c.now < lo || c.Bucket() != k {
        SlidingFrom(next, rest, k, lo, hi, limit, window);
      } else if c.now >= hi {
        NoGrantsAfter(entries, calls, k, lo, hi);
      } else if k in entries && entries[k].resetAt > c.now {
        GrantsFromWindow(entries, calls, k, lo, hi, limit, window);
        BudgetMonotone(Max(limit, 0), hi - entries[k].resetAt, hi - lo, window * MICROS);
      } else {
        GrantsOfOpening(entries, calls, k, lo, hi, limit, window);
        BudgetMonotone(Max(limit, 0), hi - c.now, hi - lo, window * MICROS);
      }
    }
  }

  /** Under a clock that never runs backwards, any half-open span of n windows holds at
      most (n + 1) * limit - 1 allowed calls on a bucket (none at all for limit <= 0). */
  lemma SlidingWindowBound(calls: seq<Call>, k: Bucket, limit: int, window: int, lo: int, n: nat)
    requires window > 0 && Ordered(calls) && Uniform(calls, k, limit, window)
    ensures Grants(map[], calls, k, lo, lo + n * (window * MICROS))
         <= if limit > 0 then (n + 1) * limit - 1 else 0
  {
    var hi := lo + n * (window * MICROS);
    SlidingFrom(map[], calls, k, lo, hi, limit, window);
    BudgetOfWindows(Max(limit, 0), n, window * MICROS);
    assert limit > 0 ==> (n + 1) * limit == n * limit + limit;
  }

  // ---------------------------------------------------------------- the bound is attained

  function Repeat(c: Call, m: nat): seq<Call> {
    if m == 0 then [] else [c] + Repeat(c, m - 1)
  }

  // m volleys of `limit` calls each, one window apart, the first at instant t.
  function Volleys(k: Bucket, limit: nat, window: nat, t: int, m: nat): seq<Call>
    decreases m
  {
    if m == 0 then [] else
      Repeat(Call(k.0, k.1, limit, window, t), limit) + Volleys(k, limit, window, t + window * MICROS, m - 1)
  }

  // Open a window at 0, drain it just before it ends, then drain the next n at their starts.
  function Burst(k: Bucket, limit: nat, window: nat, n: nat): seq<Call>
    requires limit > 0
  {
    var width := window * MICROS;
    [Call(k.0, k.1, limit, window, 0)]
    + (Repeat(Call(k.0, k.1, limit, window, width - 1), limit - 1) + Volleys(k, limit, window, width, n))
  }

  lemma {:induction false} GrantsOfRepeat(
    entries: Entries, c: Call, m: nat, rest: seq<Call>, lo: int, hi: int)
    requires c.Bucket() in entries && entries[c.Bucket()].tokens >= m && entries[c.Bucket()].resetAt > c.now
    requires lo <= c.now < hi
    ensures Grants(entries, Repeat(c, m) + rest, c.Bucket(), lo, hi)
         == m + Grants(entries[c.Bucket() := entries[c.Bucket()].(tokens := entries[c.Bucket()].tokens - m)],
                       rest, c.Bucket(), lo, hi)
    decreases m
  {
    var k := c.Bucket();
    if m == 0 {
      assert Repeat(c, m) + rest == rest;
      assert entries[k := entries[k].(tokens := entries[k].tokens - 0)] == entries;
    } else {
      var calls, next := Repeat(c, m) + rest, Charge(entries, c);
      assert calls[0] == c && calls[1..] == Repeat(c, m - 1) + rest;
      GrantsOfRepeat(next, c, m - 1, rest, lo, hi);
      assert next[k := next[k].(tokens := next[k].tokens - (m - 1))]
          == entries[k := entries[k].(tokens := entries[k].tokens - m)];
    }
  }

  // A call that opens a window and the limit - 1 repeats that drain it are all allowed.
  lemma GrantsOfVolley(entries: Entries, c: Call, rest: seq<Call>, lo: int, hi: int)
    requires c.limit > 0 && c.window > 0 && lo <= c.now < hi
    requires c.Bucket() in entries ==> entries[c.Bucket()].resetAt <= c.now
    ensures Grants(entries, Repeat(c, c.limit) + rest, c.Bucket(), lo, hi)
         == c.limit + Grants(entries[c.Bucket() := Entry(0, c.limit, c.Expiry())], rest, c.Bucket(), lo, hi)
  {
    var k := c.Bucket();
    var calls, next := Repeat(c, c.limit) + rest, Charge(entries, c);
    assert calls[0] == c && calls[1..] == Repeat(c, c.limit - 1) + rest;
    GrantsOfRepeat(next, c, c.limit - 1, rest, lo, hi);
    assert next[k := next[k].(tokens := next[k].tokens - (c.limit - 1))] == entries[k := Entry(0, c.limit, c.Expiry())];
  }

  lemma {:induction false} GrantsOfVolleys(
    entries: Entries, k: Bucket, limit: nat, window: nat, t: int, m: nat, lo: int, hi: int)
    requires limit > 0 && window > 0 && lo <= t && t + Times(m, window * MICROS) < hi + window * MICROS
    requires k in entries ==> entries[k].resetAt <= t
    ensures Grants(entries, Volleys(k, limit, window, t, m), k, lo, hi) == Times(m, limit)
    decreases m
  {
    if m > 0 {
      var c := Call(k.0, k.1, limit, window, t);
      assert Times(m - 1, window * MICROS) >= 0;
      GrantsOfVolley(entries, c, Volleys(k, limit, window, c.Expiry(), m - 1), lo, hi);
      GrantsOfVolleys(entries[k := Entry(0, limit, c.Expiry())], k, limit, window, c.Expiry(), m - 1, lo, hi);
    }
  }

  // A trace of calls on k with these settings, in order, none before t.
  ghost predicate WellTimed(calls: seq<Call>, k: Bucket, limit: int, window: int, t: int) {
    && Ordered(calls)
    && (forall i :: 0 <= i < |calls| ==> calls[i].Bucket() == k && calls[i].limit == limit && calls[i].window == window)
    && (calls != [] ==> t <= calls[0].now)
  }

  lemma PrependWellTimed(c: Call, rest: seq<Call>)
    requires WellTimed(rest, c.Bucket(), c.limit, c.window, c.now)
    ensures WellTimed([c] + rest, c.Bucket(), c.limit, c.window, c.now)
  {
    forall i | 0 <= i < |rest| ensures c.now <= rest[i].now {
      assert i > 0 ==> rest[0].now <= rest[i].now;
    }
  }

  lemma {:induction false} RepeatWellTimed(c: Call, m: nat, rest: seq<Call>)
    requires WellTimed(rest, c.Bucket(), c.limit, c.window, c.now)
    ensures WellTimed(Repeat(c, m) + rest, c.Bucket(), c.limit, c.window, c.now)
    decreases m
  {
    if m == 0 {
      assert Repeat(c, m) + rest == rest;
    } else {
      RepeatWellTimed(c, m - 1, rest);
      PrependWellTimed(c, Repeat(c, m - 1) + rest);
      assert Repeat(c, m) + rest == [c] + (Repeat(c, m - 1) + rest);
    }
  }

  lemma {:induction false} VolleysWellTimed(k: Bucket, limit: nat, window: nat, t: int, m: nat)
    ensures WellTimed(Volleys(k, limit, window, t, m), k, limit, window, t)
    decreases m
  {
    if m > 0 {
      VolleysWellTimed(k, limit, window, t + window * MICROS, m - 1);
      RepeatWellTimed(Call(k.0, k.1, limit, window, t), limit, Volleys(k, limit, window, t + window * MICROS, m - 1));
    }
  }

  lemma BurstCount(k: Bucket, limit: nat, window: nat, n: nat, lo: int, hi: int)
    requires limit > 0 && window > 0 && n > 0 && lo == window * MICROS - 1 && hi == lo + Times(n, window * MICROS)
    ensures Grants(map[], Burst(k, limit, window, n), k, lo, hi) == Times(n, limit) + limit - 1
  {
    var width := window * MICROS;
    var opening, drain := Call(k.0, k.1, limit, window, 0), Call(k.0, k.1, limit, window, lo);
    var tail, first := Volleys(k, limit, window, width, n), Charge(map[], opening);
    assert Times(n - 1, width) >= 0;
    GrantsOfRepeat(first, drain, limit - 1, tail, lo, hi);
    GrantsOfVolleys(first[k := first[k].(tokens := 0)], k, limit, window, width, n, lo, hi);
    assert Burst(k, limit, window, n)[1..] == Repeat(drain, limit - 1) + tail;
  }

  lemma OpeningWellTimed(opening: Call, drain: Call, m: nat, tail: seq<Call>)
    requires WellTimed(tail, drain.Bucket(), drain.limit, drain.window, drain.now)
    requires opening == drain.(now := opening.now) && opening.now <= drain.now
    ensures WellTimed([opening] + (Repeat(drain, m) + tail), drain.Bucket(), drain.limit, drain.window, opening.now)
  {
    RepeatWellTimed(drain, m, tail);
    PrependWellTimed(opening, Repeat(drain, m) + tail);
  }

  lemma BurstWellTimed(k: Bucket, limit: nat, window: nat, n: nat)
    requires limit > 0 && window > 0
    ensures WellTimed(Burst(k, limit, window, n), k, limit, window, 0)
  {
    var tail := Volleys(k, limit, window, window * MICROS, n);
    VolleysWellTimed(k, limit, window, window * MICROS, n);
    var drain := Call(k.0, k.1, limit, window, window * MICROS - 1);
    OpeningWellTimed(Call(k.0, k.1, limit, window, 0), drain, limit - 1, tail);
  }

  /** The sliding-window bound cannot be improved: for every limit, window and n > 0 there is
      a legal trace that reaches it exactly. */
  lemma BurstAttainsBound(k: Bucket, limit: nat, window: nat, n: nat, lo: int)
    requires limit > 0 && window > 0 && n > 0 && lo == window * MICROS - 1
    ensures Ordered(Burst(k, limit, window, n)) && Uniform(Burst(k, limit, window, n), k, limit, window)
    ensures Grants(map[], Burst(k, limit, window, n), k, lo, lo + n * (window * MICROS)) == (n + 1) * limit - 1
  {
    BurstWellTimed(k, limit, window, n);
    BurstCount(k, limit, window, n, lo, lo + Times(n, window * MICROS));
    TimesIsProduct(n, window * MICROS);
    TimesIsProduct(n + 1, limit);
    assert Times(n + 1, limit) == Times(n, limit) + limit;
  }

  // ---------------------------------------------------------------- buckets do not interfere

  function Only(calls: seq<Call>, k: Bucket): seq<Call> {
    if calls == [] then [] else (if calls[0].Bucket() == k then [calls[0]] else []) + Only(calls[1..], k)
  }

  // The answers given to the calls on k.
  function AnswersTo(calls: seq<Call>, replies: seq<RateLimitResult>, k: Bucket): seq<RateLimitResult>
    requires |calls| == |replies|
  {
    if calls == [] then []
    else (if calls[0].Bucket() == k then [replies[0]] else []) + AnswersTo(calls[1..], replies[1..], k)
  }

  /** What a bucket's callers are told is what they would be told were theirs the only calls,
      whatever the clock does and whatever limits the others use. */
  lemma {:induction false} BucketsDoNotInterfere(entries: Entries, alone: Entries, calls: seq<Call>, k: Bucket)
    requires k in entries <==> k in alone
    requires k in entries ==> entries[k] == alone[k]
    ensures AnswersTo(calls, Replies(entries, calls), k) == Replies(alone, Only(calls, k))
    decreases |calls|
  {
    if calls != [] {
      var c := calls[0];
      var next, rest := Charge(entries, c), calls[1..];
      assert Replies(entries, calls)[1..] == Replies(next, rest);
      if c.Bucket() == k {
        BucketsDoNotInterfere(next, Charge(alone, c), rest, k);
        assert Only(calls, k) == [c] + Only(rest, k) && ([c] + Only(rest, k))[1..] == Only(rest, k);
      } else {
        BucketsDoNotInterfere(next, alone, rest, k);
        assert Only(calls, k) == Only(rest, k);
      }
    }
  }
}
