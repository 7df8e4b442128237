/** The shared-row limiter of safenestt/security/rate_limit.py: one call is three SQL
    statements (insert if absent, conditional reset, conditional decrement) and, when the
    decrement finds no token, a read of the reset time.

    `System` interleaves the statements of any number of workers in any order; every worker
    keeps the instant it read when its call began, so clocks may be skewed. */
module PostgresRateLimit {
  import opened Basics
  import opened RateLimit

  datatype Row = Row(tokens: int, windowStart: int, windowSeconds: int, resetAt: int)

  type Rows = map<Bucket, Row>

  function Inserted(rows: Rows, c: Call): Rows {
    if c.Bucket() in rows then rows else rows[c.Bucket() := Row(c.limit, c.now, c.window, c.Expiry())]
  }

  predicate Expired(rows: Rows, c: Call) {
    c.Bucket() in rows && rows[c.Bucket()].windowStart < c.now - c.window * MICROS
  }

  function Renewed(rows: Rows, c: Call): Rows {
    if !Expired(rows, c) then rows
    else rows[c.Bucket() := rows[c.Bucket()].(tokens := c.limit, windowStart := c.now, resetAt := c.Expiry())]
  }

  predicate Available(rows: Rows, k: Bucket) {
    k in rows && rows[k].tokens > 0
  }

  function Taken(rows: Rows, k: Bucket): Rows {
    if Available(rows, k) then rows[k := rows[k].(tokens := rows[k].tokens - 1)] else rows
  }

  function Granted(c: Call, row: Row): RateLimitResult {
    RateLimitResult(true, row.tokens, c.limit, row.resetAt, c.scope, None)
  }

  function Denied(c: Call, rows: Rows): RateLimitResult {
    RateLimitResult(false, 0, c.limit, if c.Bucket() in rows then rows[c.Bucket()].resetAt else c.Expiry(),
                    c.scope, Some("rate_limit_exceeded"))
  }

  // One call run without interference.
  function CheckRows(rows: Rows, c: Call): Rows {
    Taken(Renewed(Inserted(rows, c), c), c.Bucket())
  }

  function CheckReply(rows: Rows, c: Call): RateLimitResult {
    var ready := Renewed(Inserted(rows, c), c);
    if Available(ready, c.Bucket()) then Granted(c, Taken(ready, c.Bucket())[c.Bucket()]) else Denied(c, ready)
  }

  class PostgresRateLimiter {
    var rows: Rows

    method InsertIfAbsent(c: Call)
      modifies this
      ensures rows == Inserted(old(rows), c)
    {
      if c.Bucket() !in rows {
        rows := rows[c.Bucket() := Row(c.limit, c.now, c.window, c.Expiry())];
      }
    }

    method ResetIfExpired(c: Call)
      modifies this
      ensures rows == Renewed(old(rows), c)
    {
      var k, windowStart := c.Bucket(), c.now - c.window * MICROS;
      if k in rows && rows[k].windowStart < windowStart {
        rows := rows[k := rows[k].(tokens := c.limit, windowStart := c.now, resetAt := c.Expiry())];
      }
    }

    method TakeToken(k: Bucket) returns (returned: Option<Row>)
      modifies this
      ensures rows == Taken(old(rows), k)
      ensures returned == if Available(old(rows), k) then Some(rows[k]) else None
    {
      if k in rows && rows[k].tokens > 0 {
        rows := rows[k := rows[k].(tokens := rows[k].tokens - 1)];
        return Some(rows[k]);
      }
      return None;
    }

    method Check(c: Call) returns (r: RateLimitResult)
      modifies this
      ensures rows == CheckRows(old(rows), c)
      ensures r == CheckReply(old(rows), c)
    {
      InsertIfAbsent(c);
      ResetIfExpired(c);
      var returned := TakeToken(c.Bucket());
      if returned.None? {
        return Denied(c, rows);
      }
      return Granted(c, returned.value);
    }
  }

  // ---------------------------------------------------------------- one window

  function CheckReplies(rows: Rows, calls: seq<Call>): (r: seq<RateLimitResult>)
    ensures |r| == |calls|
    decreases |calls|
  {
    if calls == [] then [] else [CheckReply(rows, calls[0])] + CheckReplies(CheckRows(rows, calls[0]), calls[1..])
  }

  function AfterChecks(rows: Rows, calls: seq<Call>): Rows
    decreases |calls|
  {
    if calls == [] then rows else AfterChecks(CheckRows(rows, calls[0]), calls[1..])
  }

  function Left(tokens: int, n: nat): int {
    if n < tokens then tokens - n else if tokens > 0 then 0 else tokens
  }

  lemma {:induction false} RowRepliesWithin(rows: Rows, calls: seq<Call>, k: Bucket, limit: int, window: int)
    requires AllOn(calls, k, limit, window) && k in rows
    requires forall i :: 0 <= i < |calls| ==> calls[i].now <= rows[k].windowStart + window * MICROS
    ensures forall i :: 0 <= i < |calls| ==>
      CheckReplies(rows, calls)[i] == Nth(i, rows[k].tokens, limit, rows[k].resetAt, k.0)
    ensures AfterChecks(rows, calls) == rows[k := rows[k].(tokens := Left(rows[k].tokens, |calls|))]
    decreases |calls|
  {
    if calls != [] {
      RowRepliesWithin(CheckRows(rows, calls[0]), calls[1..], k, limit, window);
    }
  }

  // A bucket that a call at t opens a window for.
  ghost predicate Opens(rows: Rows, calls: seq<Call>, k: Bucket, limit: int, window: int, t: int) {
    && AllOn(calls, k, limit, window) && calls != [] && calls[0].now == t && window >= 0
    && (k in rows ==> rows[k].windowStart + window * 1_000_000 < t)
    && forall i :: 0 <= i < |calls| ==> t <= calls[i].now <= t + window * 1_000_000
  }

  function OpenedRow(rows: Rows, k: Bucket, tokens: int, window: int, t: int): Row {
    Row(tokens, t, if k in rows then rows[k].windowSeconds else window, t + window * 1_000_000)
  }

  /** In one window of a bucket, opened at t by its first call or by a reset, the first `limit`
      calls are allowed and all others denied, up to and including the instant of the reset that
      every answer names. */
  lemma RowWindowReplies(rows: Rows, calls: seq<Call>, k: Bucket, limit: int, window: int, t: int)
    requires Opens(rows, calls, k, limit, window, t)
    ensures forall i :: 0 <= i < |calls| ==>
      CheckReplies(rows, calls)[i] == Nth(i, limit, limit, t + window * 1_000_000, k.0)
  {
    var next, resetAt, replies := CheckRows(rows, calls[0]), t + window * 1_000_000, CheckReplies(rows, calls);
    OpeningRow(rows, calls[0]);
    RowRepliesWithin(next, calls[1..], k, limit, window);
    assert replies[1..] == CheckReplies(next, calls[1..]);
    RepliesShifted(replies, limit, resetAt, k.0);
  }

  lemma RepliesShifted(replies: seq<RateLimitResult>, limit: int, resetAt: int, scope: string)
    requires replies != [] && replies[0] == Nth(0, limit, limit, resetAt, scope)
    requires forall i :: 0 <= i < |replies| - 1 ==> replies[1..][i] == Nth(i, Left(limit, 1), limit, resetAt, scope)
    ensures forall i :: 0 <= i < |replies| ==> replies[i] == Nth(i, limit, limit, resetAt, scope)
  {
    forall i | 0 < i < |replies| ensures replies[i] == Nth(i, limit, limit, resetAt, scope) {
      assert replies[i] == replies[1..][i - 1];
    }
  }

  /** What that window leaves in the row is what was not spent. */
  lemma RowWindowLeaves(rows: Rows, calls: seq<Call>, k: Bucket, limit: int, window: int, t: int)
    requires Opens(rows, calls, k, limit, window, t)
    ensures AfterChecks(rows, calls) == rows[k := OpenedRow(rows, k, Left(limit, |calls|), window, t)]
  {
    var next := CheckRows(rows, calls[0]);
    OpeningRow(rows, calls[0]);
    assert next == rows[k := OpenedRow(rows, k, Left(limit, 1), window, t)];
    RowRepliesWithin(next, calls[1..], k, limit, window);
  }

  // What a call that opens a window leaves and answers.
  lemma OpeningRow(rows: Rows, c: Call)
    requires c.window >= 0
    requires c.Bucket() in rows ==> rows[c.Bucket()].windowStart + c.window * MICROS < c.now
    ensures CheckRows(rows, c) == rows[c.Bucket() :=
      Row(Left(c.limit, 1), c.now, if c.Bucket() in rows then rows[c.Bucket()].windowSeconds else c.window, c.Expiry())]
    ensures CheckReply(rows, c) == Nth(0, c.limit, c.limit, c.Expiry(), c.scope)
  {
  }

  // ---------------------------------------------------------------- interleaved workers

  datatype Phase = Idle | Inserting(call: Call) | Resetting(call: Call) | Taking(call: Call) | Reading(call: Call)

  datatype System = System(rows: Rows, workers: map<nat, Phase>)
  {
    function At(w: nat): Phase { if w in workers then workers[w] else Idle }
  }

  // Begin: worker w reads its clock and enters the call; Advance: it runs its next statement.
  datatype Step = Begin(worker: nat, call: Call) | Advance(worker: nat)

  function Next(s: System, step: Step): System {
    match step
    case Begin(w, c) => if s.At(w).Idle? then s.(workers := s.workers[w := Inserting(c)]) else s
    case Advance(w) =>
      match s.At(w)
      case Idle => s
      case Inserting(c) => System(Inserted(s.rows, c), s.workers[w := Resetting(c)])
      case Resetting(c) => System(Renewed(s.rows, c), s.workers[w := Taking(c)])
      case Taking(c) => System(Taken(s.rows, c.Bucket()),
                               s.workers[w := if Available(s.rows, c.Bucket()) then Idle else Reading(c)])
      case Reading(c) => s.(workers := s.workers[w := Idle])
  }

  // The answer a caller receives at this step, if one is given.
  function Answer(s: System, step: Step): Option<RateLimitResult> {
    if step.Begin? then None else
      match s.At(step.worker)
      case Taking(c) =>
        if Available(s.rows, c.Bucket()) then Some(Granted(c, Taken(s.rows, c.Bucket())[c.Bucket()])) else None
      case Reading(c) => Some(Denied(c, s.rows))
      case _ => None
  }

  predicate Grants1(s: System, step: Step, k: Bucket) {
    step.Advance? && s.At(step.worker).Taking? && s.At(step.worker).call.Bucket() == k && Available(s.rows, k)
  }

  predicate Resets1(s: System, step: Step, k: Bucket) {
    step.Advance? && s.At(step.worker).Resetting? && s.At(step.worker).call.Bucket() == k
    && Expired(s.rows, s.At(step.worker).call)
  }

  function Run(s: System, schedule: seq<Step>): System
    decreases |schedule|
  {
    if schedule == [] then s else Run(Next(s, schedule[0]), schedule[1..])
  }

  function GrantCount(s: System, schedule: seq<Step>, k: Bucket): nat
    decreases |schedule|
  {
    if schedule == [] then 0
    else (if Grants1(s, schedule[0], k) then 1 else 0) + GrantCount(Next(s, schedule[0]), schedule[1..], k)
  }

  function ResetCount(s: System, schedule: seq<Step>, k: Bucket): nat
    decreases |schedule|
  {
    if schedule == [] then 0
    else (if Resets1(s, schedule[0], k) then 1 else 0) + ResetCount(Next(s, schedule[0]), schedule[1..], k)
  }

  // Tokens still unspent when a reset overwrote them.
  function Forfeited(s: System, schedule: seq<Step>, k: Bucket): int
    decreases |schedule|
  {
    if schedule == [] then 0
    else
      (if Resets1(s, schedule[0], k) then s.rows[k].tokens else 0)
      + Forfeited(Next(s, schedule[0]), schedule[1..], k)
  }

  // The window in force when the bucket's row first exists.
  function FirstWindow(s: System, schedule: seq<Step>, k: Bucket): Option<int>
    decreases |schedule|
  {
    if k in s.rows then Some(s.rows[k].windowStart)
    else if schedule == [] then None
    else FirstWindow(Next(s, schedule[0]), schedule[1..], k)
  }

  // Every call on k, under way or still to begin, uses these settings.
  ghost predicate Settings(s: System, schedule: seq<Step>, k: Bucket, limit: int, window: int) {
    && (forall w :: w in s.workers && !s.workers[w].Idle? && s.workers[w].call.Bucket() == k ==>
          s.workers[w].call.limit == limit && s.workers[w].call.window == window)
    && (forall i :: 0 <= i < |schedule| && schedule[i].Begin? && schedule[i].call.Bucket() == k ==>
          schedule[i].call.limit == limit && schedule[i].call.window == window)
  }

  ghost predicate InRange(rows: Rows, k: Bucket, limit: int) {
    k in rows ==> if limit > 0 then 0 <= rows[k].tokens <= limit else rows[k].tokens == limit
  }

  lemma SettingsPersist(s: System, schedule: seq<Step>, k: Bucket, limit: int, window: int)
    requires schedule != [] && Settings(s, schedule, k, limit, window)
    ensures Settings(Next(s, schedule[0]), schedule[1..], k, limit, window)
  {
    var next := Next(s, schedule[0]);
    forall w | w in next.workers && !next.workers[w].Idle? && next.workers[w].call.Bucket() == k
      ensures next.workers[w].call.limit == limit && next.workers[w].call.window == window
    {
      if w == schedule[0].worker && schedule[0].Advance? {
        assert w in s.workers;
      }
    }
  }

  /** No statement of any worker loses or invents a token, and a window start only ever
      changes by moving forward more than one whole window. */
  lemma {:induction false} StepLedger(s: System, schedule: seq<Step>, k: Bucket, limit: int, window: int)
    requires schedule != [] && Settings(s, schedule, k, limit, window)
    requires k in s.rows
    ensures var step, after := schedule[0], Next(s, schedule[0]).rows;
      && k in after
      && after[k].tokens + (if Grants1(s, step, k) then 1 else 0)
           + (if Resets1(s, step, k) then s.rows[k].tokens else 0)
         == s.rows[k].tokens + (if Resets1(s, step, k) then limit else 0)
      && (after[k].windowStart != s.rows[k].windowStart ==> Resets1(s, step, k))
      && (Resets1(s, step, k) ==> after[k].windowStart > s.rows[k].windowStart + window * MICROS)
      && (InRange(s.rows, k, limit) ==> InRange(after, k, limit))
  {
    var step := schedule[0];
    if step.Advance? && !s.At(step.worker).Idle? {
      assert step.worker in s.workers;
    }
  }

  /** Conservation over every interleaving: what was granted, forfeited at resets and is left
      is what was there plus one full limit per reset. */
  lemma {:induction false} Ledger(s: System, schedule: seq<Step>, k: Bucket, limit: int, window: int)
    requires Settings(s, schedule, k, limit, window)
    requires k in s.rows
    ensures var end := Run(s, schedule).rows;
      && k in end
      && GrantCount(s, schedule, k) + Forfeited(s, schedule, k) + end[k].tokens
         == s.rows[k].tokens + Times(ResetCount(s, schedule, k), limit)
      && end[k].windowStart >= s.rows[k].windowStart + Times(ResetCount(s, schedule, k), window * MICROS + 1)
      && (InRange(s.rows, k, limit) ==> InRange(end, k, limit))
      && (InRange(s.rows, k, limit) && limit >= 0 ==> Forfeited(s, schedule, k) >= 0)
    decreases |schedule|
  {
    if schedule != [] {
      var next, rest := Next(s, schedule[0]), schedule[1..];
      StepLedger(s, schedule, k, limit, window);
      SettingsPersist(s, schedule, k, limit, window);
      Ledger(next, rest, k, limit, window);
    }
  }

  lemma ClosedLedger(s: System, schedule: seq<Step>, k: Bucket, limit: int, window: int)
    requires Settings(s, schedule, k, limit, window) && window >= 0
    requires k in s.rows && InRange(s.rows, k, limit)
    ensures k in Run(s, schedule).rows && InRange(Run(s, schedule).rows, k, limit)
    ensures var span := Run(s, schedule).rows[k].windowStart - s.rows[k].windowStart;
      && span >= 0
      && GrantCount(s, schedule, k) <= Max(limit, 0) + (span / (window * MICROS + 1)) * Max(limit, 0)
  {
    Ledger(s, schedule, k, limit, window);
    var n, width := ResetCount(s, schedule, k), window * MICROS + 1;
    var span := Run(s, schedule).rows[k].windowStart - s.rows[k].windowStart;
    if limit > 0 {
      TimesIsProduct(n, width);
      TimesIsProduct(n, limit);
      QuotientAtLeast(n, width, span);
      ProductMonotone(n, span / width, limit);
    } else {
      NoTokensNoGrants(s, schedule, k, limit, window);
    }
  }

  lemma {:induction false} NoTokensNoGrants(s: System, schedule: seq<Step>, k: Bucket, limit: int, window: int)
    requires Settings(s, schedule, k, limit, window) && limit <= 0
    requires k in s.rows && InRange(s.rows, k, limit)
    ensures GrantCount(s, schedule, k) == 0
    decreases |schedule|
  {
    if schedule != [] {
      StepLedger(s, schedule, k, limit, window);
      SettingsPersist(s, schedule, k, limit, window);
      NoTokensNoGrants(Next(s, schedule[0]), schedule[1..], k, limit, window);
    }
  }

  /** Any number of workers, any interleaving, any clocks: tokens stay in range, and a bucket
      whose window start has moved by `span` has granted at most limit * (1 + span / window),
      where the divisor may even be one microsecond more than the window. */
  lemma {:induction false} ConcurrentGrantBound(s: System, schedule: seq<Step>, k: Bucket, limit: int, window: int)
    requires Settings(s, schedule, k, limit, window) && window >= 0
    requires k !in s.rows
    ensures var end := Run(s, schedule).rows;
      if k !in end then GrantCount(s, schedule, k) == 0
      else
        && InRange(end, k, limit)
        && FirstWindow(s, schedule, k).Some?
        && var span := end[k].windowStart - FirstWindow(s, schedule, k).value;
           span >= 0 && GrantCount(s, schedule, k) <= Max(limit, 0) + (span / (window * MICROS + 1)) * Max(limit, 0)
    decreases |schedule|
  {
    if schedule != [] {
      var next, rest := Next(s, schedule[0]), schedule[1..];
      SettingsPersist(s, schedule, k, limit, window);
      if k in next.rows {
        assert schedule[0].worker in s.workers;
        ClosedLedger(next, rest, k, limit, window);
      } else {
        ConcurrentGrantBound(next, rest, k, limit, window);
      }
    }
  }

  // ---------------------------------------------------------------- answers find their row

  ghost predicate RowsPresent(s: System) {
    forall w :: w in s.workers && (s.workers[w].Resetting? || s.workers[w].Taking? || s.workers[w].Reading?) ==>
      s.workers[w].call.Bucket() in s.rows
  }

  /** The fallback for a missing row is never used: in every reachable state the read after
      a failed decrement finds one. */
  lemma {:induction false} DenialsFindTheirRow(s: System, schedule: seq<Step>)
    requires RowsPresent(s)
    ensures RowsPresent(Run(s, schedule))
    decreases |schedule|
  {
    if schedule != [] {
      var next := Next(s, schedule[0]);
      forall w |
        w in next.workers && (next.workers[w].Resetting? || next.workers[w].Taking? || next.workers[w].Reading?)
        ensures next.workers[w].call.Bucket() in next.rows
      {
        if w == schedule[0].worker && schedule[0].Advance? {
          assert w in s.workers;
        }
      }
      DenialsFindTheirRow(next, schedule[1..]);
    }
  }

  /** A worker left alone for the length of its call gets the answer of `Check`. */
  lemma LoneWorker(s: System, w: nat, c: Call)
    requires s.At(w).Idle?
    ensures var calm := Run(s, [Begin(w, c), Advance(w), Advance(w)]);
      && Run(s, [Begin(w, c), Advance(w), Advance(w), Advance(w), Advance(w)]).rows == CheckRows(s.rows, c)
      && Run(s, [Begin(w, c), Advance(w), Advance(w), Advance(w), Advance(w)]).At(w).Idle?
      && Some(CheckReply(s.rows, c)) ==
         if Answer(calm, Advance(w)).Some? then Answer(calm, Advance(w)) else Answer(Next(calm, Advance(w)), Advance(w))
  {
    var s1 := Next(s, Begin(w, c));
    var s2 := Next(s1, Advance(w));
    var s3 := Next(s2, Advance(w));
    var s4 := Next(s3, Advance(w));
    var s5 := Next(s4, Advance(w));
    var a := Advance(w);
    assert Run(s3, []) == s3 && Run(s5, []) == s5;
    assert [a][1..] == [] && [a, a][1..] == [a] && [a, a, a][1..] == [a, a] && [a, a, a, a][1..] == [a, a, a];
    assert [Begin(w, c), a, a][1..] == [a, a] && [Begin(w, c), a, a, a, a][1..] == [a, a, a, a];
    assert Run(s2, [a]) == s3 && Run(s4, [a]) == s5;
    assert Run(s1, [a, a]) == s3 && Run(s3, [a, a]) == s5;
    assert Run(s2, [a, a, a]) == s5;
    assert Run(s1, [a, a, a, a]) == s5;
  }

  // ---------------------------------------------------------------- calls made one after another

  // The allowed calls on bucket k whose instant lies in [lo, hi), when calls do not overlap.
  function RowGrants(rows: Rows, calls: seq<Call>, k: Bucket, lo: int, hi: int): nat
    decreases |calls|
  {
    if calls == [] then 0 else
      var c := calls[0];
      (if c.Bucket() == k && lo <= c.now < hi && CheckReply(rows, c).allowed then 1 else 0)
      + RowGrants(CheckRows(rows, c), calls[1..], k, lo, hi)
  }

  lemma {:induction false} NoRowGrantsAfter(rows: Rows, calls: seq<Call>, k: Bucket, lo: int, hi: int)
    requires Ordered(calls) && (calls != [] ==> calls[0].now >= hi)
    ensures RowGrants(rows, calls, k, lo, hi) == 0
    decreases |calls|
  {
    if calls != [] {
      NoRowGrantsAfter(CheckRows(rows, calls[0]), calls[1..], k, lo, hi);
    }
  }

  // From a window in force, grants before `hi` come from its remaining tokens and from windows
  // opened after its end, the end itself still belonging to it.
  lemma {:induction false} RowGrantsFromWindow(
    rows: Rows, calls: seq<Call>, k: Bucket, lo: int, hi: int, limit: int, window: int)
    requires window > 0 && Ordered(calls) && Uniform(calls, k, limit, window)
    requires k in rows
    ensures RowGrants(rows, calls, k, lo, hi)
         <= Max(rows[k].tokens, 0)
            + Budget(Max(limit, 0), hi - (rows[k].windowStart + window * MICROS), window * MICROS)
    decreases |calls|
  {
    if calls != [] {
      var c, rest := calls[0], calls[1..];
      if c.now >= hi {
        NoRowGrantsAfter(rows, calls, k, lo, hi);
      } else {
        RowGrantsFromWindow(CheckRows(rows, c), rest, k, lo, hi, limit, window);
        if c.Bucket() == k && Expired(rows, c) {
          BudgetMonotone(Max(limit, 0), hi - c.now, hi - (rows[k].windowStart + window * MICROS), window * MICROS);
        }
      }
    }
  }

  // A call that opens a window has all its tokens, and one of them is its own.
  lemma RowGrantsOfOpening(rows: Rows, calls: seq<Call>, k: Bucket, lo: int, hi: int, limit: int, window: int)
    requires window > 0 && Ordered(calls) && Uniform(calls, k, limit, window)
    requires calls != [] && calls[0].Bucket() == k && calls[0].now < hi && (k !in rows || Expired(rows, calls[0]))
    ensures RowGrants(rows, calls, k, lo, hi) <= Budget(Max(limit, 0), hi - calls[0].now, window * MICROS)
  {
    RowGrantsFromWindow(CheckRows(rows, calls[0]), calls[1..], k, lo, hi, limit, window);
  }

  lemma {:induction false} RowSlidingFrom(
    rows: Rows, calls: seq<Call>, k: Bucket, lo: int, hi: int, limit: int, window: int)
    requires window > 0 && Ordered(calls) && Uniform(calls, k, limit, window)
    requires k in rows ==> rows[k].tokens <= Max(limit - 1, 0)
    ensures RowGrants(rows, calls, k, lo, hi) <= Max(limit - 1, 0) + Budget(Max(limit, 0), hi - lo, window * MICROS)
    decreases |calls|
  {
    if calls != [] {
      var c, rest := calls[0], calls[1..];
      var next, width := CheckRows(rows, c), window * MICROS;
      if c.now < lo || c.Bucket() != k {
        RowSlidingFrom(next, rest, k, lo, hi, limit, window);
      } else if c.now >= hi {
        NoRowGrantsAfter(rows, calls, k, lo, hi);
      } else if k in rows && !Expired(rows, c) {
        RowGrantsFromWindow(rows, calls, k, lo, hi, limit, window);
        BudgetMonotone(Max(limit, 0), hi - (rows[k].windowStart + width), hi - lo, width);
      } else {
        RowGrantsOfOpening(rows, calls, k, lo, hi, limit, window);
        BudgetMonotone(Max(limit, 0), hi - c.now, hi - lo, width);
      }
    }
  }

  /** One call at a time under a clock that never runs backwards, the shared rows keep the same
      bound as the table in memory, calls on a reset instant included. */
  lemma SerialSlidingBound(calls: seq<Call>, k: Bucket, limit: int, window: int, lo: int, n: nat)
    requires window > 0 && Ordered(calls) && Uniform(calls, k, limit, window)
    ensures RowGrants(map[], calls, k, lo, lo + n * (window * MICROS))
         <= if limit > 0 then (n + 1) * limit - 1 else 0
  {
    var hi := lo + n * (window * MICROS);
    RowSlidingFrom(map[], calls, k, lo, hi, limit, window);
    BudgetOfWindows(Max(limit, 0), n, window * MICROS);
    assert limit > 0 ==> (n + 1) * limit == n * limit + limit;
  }

  // ---------------------------------------------------------------- agreement with the in-memory limiter

  ghost predicate Configured(calls: seq<Call>, limit: Bucket -> int, window: Bucket -> int) {
    forall i :: 0 <= i < |calls| ==>
      calls[i].limit == limit(calls[i].Bucket()) && calls[i].window == window(calls[i].Bucket())
  }

  ghost predicate Agree(entries: Entries, rows: Rows, limit: Bucket -> int, window: Bucket -> int) {
    && entries.Keys == rows.Keys
    && forall k :: k in entries ==>
         && entries[k].limit == limit(k)
         && entries[k].tokens == rows[k].tokens
         && entries[k].resetAt == rows[k].resetAt == rows[k].windowStart + window(k) * MICROS
  }

  // No call lands exactly on the reset instant of its bucket's live window.
  ghost predicate OffBoundary(entries: Entries, calls: seq<Call>)
    decreases |calls|
  {
    calls == [] ||
    (!(calls[0].Bucket() in entries && entries[calls[0].Bucket()].resetAt == calls[0].now)
     && OffBoundary(Charge(entries, calls[0]), calls[1..]))
  }

  lemma CallAgrees(entries: Entries, rows: Rows, c: Call, limit: Bucket -> int, window: Bucket -> int)
    requires c.limit == limit(c.Bucket()) && c.window == window(c.Bucket()) > 0
    requires Agree(entries, rows, limit, window)
    ensures Reply(entries, c) == CheckReply(rows, c)
       <==> !(c.Bucket() in entries && entries[c.Bucket()].resetAt == c.now)
    ensures Reply(entries, c) == CheckReply(rows, c) ==>
              Agree(Charge(entries, c), CheckRows(rows, c), limit, window)
  {
  }

  /** Run one call at a time with fixed settings per bucket, the two limiters answer alike
      throughout a trace if and only if no call lands exactly on a reset instant. */
  lemma {:induction false} LimitersAgreeOffBoundary(
    entries: Entries, rows: Rows, calls: seq<Call>, limit: Bucket -> int, window: Bucket -> int)
    requires Configured(calls, limit, window) && forall k :: window(k) > 0
    requires Agree(entries, rows, limit, window)
    ensures Replies(entries, calls) == CheckReplies(rows, calls) <==> OffBoundary(entries, calls)
    decreases |calls|
  {
    if calls != [] {
      var c, rest := calls[0], calls[1..];
      CallAgrees(entries, rows, c, limit, window);
      SameHeadSameTail(Reply(entries, c), Replies(Charge(entries, c), rest),
                       CheckReply(rows, c), CheckReplies(CheckRows(rows, c), rest));
      if Reply(entries, c) == CheckReply(rows, c) {
        LimitersAgreeOffBoundary(Charge(entries, c), CheckRows(rows, c), rest, limit, window);
      }
    }
  }

  lemma SameHeadSameTail<T>(a: T, rest: seq<T>, b: T, bs: seq<T>)
    ensures [a] + rest == [b] + bs <==> a == b && rest == bs
  {
    assert ([a] + rest)[0] == a && ([b] + bs)[0] == b;
    assert ([a] + rest)[1..] == rest && ([b] + bs)[1..] == bs;
  }
}
