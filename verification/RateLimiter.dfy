/** backend/pkg/rate_limiter/rate_limiter.go, as one goroutine sees it.
    Times are nanoseconds since the limiter was made; a caller passes the clock reading in. */
module RateLimiters {
  import opened Circular

  const UNLIMITED := 0
  const DISABLED := -1

  function Max(a: int, b: int): int {
    if a > b then a else b
  }

  // Go's division, which truncates toward zero.
  function Quotient(a: int, b: int): int
    requires b != 0
  {
    if a >= 0 then (if b > 0 then a / b else -(a / -b))
    else (if b > 0 then -(-a / b) else -a / -b)
  }

  function CalculateStep(limit: int, period: int): int {
    if limit == UNLIMITED then UNLIMITED
    else if limit == DISABLED then DISABLED
    else Quotient(period, limit)
  }

  datatype Bucket = Bucket(level: int, at: int)

  const EMPTY := Bucket(0, 0)

  // What is left in the bucket after leaking since the last grant.
  function Leaked(b: Bucket, now: int): int {
    Max(b.level - (now - b.at), 0)
  }

  predicate Grants(period: int, step: int, b: Bucket, now: int) {
    Leaked(b, now) + step <= period
  }

  function After(period: int, step: int, b: Bucket, now: int): Bucket {
    if Grants(period, step, b, now) then Bucket(Leaked(b, now) + step, now) else b
  }

  class RateLimiter {
    const period: int
    const step: int
    var lastAcquiredAt: int
    var bucket: int

    ghost function State(): Bucket
      reads this
    {
      Bucket(bucket, lastAcquiredAt)
    }

    constructor (limit: int, period: int)
      ensures this.period == period && step == CalculateStep(limit, period) && State() == EMPTY
    {
      this.period := period;
      step := CalculateStep(limit, period);
      lastAcquiredAt, bucket := 0, 0;
    }

    method Acquire(now: int) returns (acquired: bool, minSleep: int)
      modifies this
      ensures step == UNLIMITED ==> acquired && minSleep == 0 && State() == old(State())
      ensures step == DISABLED ==> !acquired && minSleep == 0 && State() == old(State())
      ensures step != UNLIMITED && step != DISABLED ==>
                && acquired == Grants(period, step, old(State()), now)
                && State() == After(period, step, old(State()), now)
                && minSleep == if acquired then 0 else step - (period - Leaked(old(State()), now))
    {
      if step == UNLIMITED {
        return true, 0;
      }
      if step == DISABLED {
        return false, 0;
      }
      var level := Max(bucket - (now - lastAcquiredAt), 0);
      if level + step > period {
        return false, step - (period - level);
      }
      lastAcquiredAt := now;
      bucket := level + step;
      return true, 0;
    }
  }

  // ----- The step -----

  lemma QuotientBounds(period: nat, limit: int)
    requires 1 <= limit
    ensures var q := Quotient(period, limit); 0 <= q && q * limit <= period < q * limit + limit
  {
  }

  lemma Multiple(q: int, limit: int)
    requires 1 <= q && 1 <= limit
    ensures q <= q * limit && limit <= q * limit
  {
  }

  lemma FloorAtLeast(period: nat, step: int, limit: int)
    requires 0 < step && step * limit <= period
    ensures limit <= period / step
  {
    assert period == (period / step) * step + period % step;
    if period / step < limit {
      assert (limit - period / step) * step == step * limit - (period / step) * step;
      Multiple(limit - period / step, step);
    }
  }

  // The step is the longest that fits the limit into the period, whatever the sign of the limit; the two special
  // limits stand for themselves.
  lemma StepIsLongestThatFits(limit: int, period: nat)
    ensures limit == UNLIMITED ==> CalculateStep(limit, period) == UNLIMITED
    ensures limit == DISABLED ==> CalculateStep(limit, period) == DISABLED
    ensures 1 <= limit ==> var step := CalculateStep(limit, period);
                             0 <= step && step * limit <= period < (step + 1) * limit
    ensures limit < DISABLED ==> var step := -CalculateStep(limit, period);
                                   0 <= step && step * -limit <= period < (step + 1) * -limit
  {
    if 1 <= limit {
      QuotientBounds(period, limit);
    } else if limit < DISABLED {
      QuotientBounds(period, -limit);
    }
  }

  // A positive limit limits exactly when it is no larger than the period in nanoseconds:
  // a finer one is rounded down to a step of zero, which is the code for an unlimited limiter.
  lemma PositiveLimitIsUnlimitedIffTooFine(limit: int, period: nat)
    requires 1 <= limit
    ensures CalculateStep(limit, period) == UNLIMITED <==> period < limit
    ensures limit <= period ==> 0 < CalculateStep(limit, period) <= period
  {
    QuotientBounds(period, limit);
    var q := Quotient(period, limit);
    if q > 0 {
      Multiple(q, limit);
    }
  }

  // Two thousand million a second is finer than a nanosecond each.
  lemma TooFineForASecond()
    ensures CalculateStep(2_000_000_000, 1_000_000_000) == UNLIMITED
  {
  }

  // ----- Runs -----

  ghost predicate Rated(period: int, step: int) {
    0 < step <= period
  }

  ghost predicate Nondecreasing(ts: seq<int>) {
    forall i, j :: 0 <= i <= j < |ts| ==> ts[i] <= ts[j]
  }

  // The times of the grants among the requests ts, starting from b.
  ghost function GrantTimes(period: int, step: int, b: Bucket, ts: seq<int>): seq<int>
    decreases |ts|
  {
    if ts == [] then [] else
    var rest := GrantTimes(period, step, After(period, step, b, ts[0]), ts[1..]);
    if Grants(period, step, b, ts[0]) then [ts[0]] + rest else rest
  }

  ghost function BucketAfter(period: int, step: int, b: Bucket, ts: seq<int>): Bucket
    decreases |ts|
  {
    if ts == [] then b else BucketAfter(period, step, After(period, step, b, ts[0]), ts[1..])
  }

  // The bucket never overflows the period nor goes below empty.
  lemma {:induction false} BucketStaysInPeriod(period: int, step: int, b: Bucket, ts: seq<int>)
    requires Rated(period, step) && 0 <= b.level <= period
    ensures 0 <= BucketAfter(period, step, b, ts).level <= period
    decreases |ts|
  {
    if ts == [] {
    } else {
      BucketStaysInPeriod(period, step, After(period, step, b, ts[0]), ts[1..]);
    }
  }

  // ----- The rate every window keeps to -----

  // A history of grants keeps the rate when any n of them in a row, spanning time w, satisfy n*step <= period + w.
  ghost predicate KeepsRate(period: int, step: int, g: seq<int>) {
    forall i, j :: 0 <= i <= j < |g| ==> (j - i + 1) * step <= period + (g[j] - g[i])
  }

  // What the grants from the i-th on still weigh at time t.
  function Load(g: seq<int>, step: int, i: nat, t: int): int
    requires i < |g|
  {
    (|g| - i) * step - (t - g[i])
  }

  // The bucket is the heaviest load of any suffix of the grants.
  ghost predicate Tracks(b: Bucket, step: int, g: seq<int>) {
    if g == [] then b.level == 0 else
    && b.at == g[|g| - 1]
    && (forall i :: 0 <= i < |g| ==> Load(g, step, i, b.at) <= b.level)
    && (exists i :: 0 <= i < |g| && Load(g, step, i, b.at) == b.level)
  }

  lemma LoadAfterGrant(g: seq<int>, step: int, i: nat, t: int, now: int)
    requires i < |g|
    ensures Load(g + [now], step, i, now) == Load(g, step, i, t) + step - (now - t)
  {
    assert (|g| + 1 - i) * step == (|g| - i) * step + step;
  }

  lemma GrantKeepsTracking(b: Bucket, step: int, g: seq<int>, now: int)
    requires 0 < step && Tracks(b, step, g)
    ensures Tracks(Bucket(Leaked(b, now) + step, now), step, g + [now])
    requires g == [] ==> b.at <= now
  {
    var g' := g + [now];
    var level := Leaked(b, now) + step;
    assert Load(g', step, |g|, now) == step;
    forall i | 0 <= i < |g'|
      ensures Load(g', step, i, now) <= level
    {
      if i < |g| {
        LoadAfterGrant(g, step, i, b.at, now);
      }
    }
    if g != [] && Leaked(b, now) > 0 {
      var i :| 0 <= i < |g| && Load(g, step, i, b.at) == b.level;
      LoadAfterGrant(g, step, i, b.at, now);
      assert Load(g', step, i, now) == level;
    } else {
      assert Load(g', step, |g|, now) == level;
    }
  }

  // Acquire grants exactly when the history with the new grant still keeps the rate over every window.
  lemma GrantsIffKeepsRate(period: int, step: int, b: Bucket, g: seq<int>, now: int)
    requires Rated(period, step) && Tracks(b, step, g) && KeepsRate(period, step, g)
    requires g == [] ==> b.at <= now
    ensures Grants(period, step, b, now) <==> KeepsRate(period, step, g + [now])
  {
    var g' := g + [now];
    var n := |g|;
    if Grants(period, step, b, now) {
      forall i, j | 0 <= i <= j < |g'|
        ensures (j - i + 1) * step <= period + (g'[j] - g'[i])
      {
        if j == n && i < n {
          LoadAfterGrant(g, step, i, b.at, now);
          assert Load(g, step, i, b.at) <= b.level;
        } else if j < n {
          assert g'[j] == g[j] && g'[i] == g[i];
        }
      }
    } else {
      assert g != [];
      var i :| 0 <= i < n && Load(g, step, i, b.at) == b.level;
      LoadAfterGrant(g, step, i, b.at, now);
      assert g'[n] == now && g'[i] == g[i];
      assert (n - i + 1) * step > period + (g'[n] - g'[i]);
    }
  }

  // Over any run the bucket tracks what has been granted, and what has been granted keeps the rate.
  lemma {:induction false} RunTracks(period: int, step: int, b: Bucket, g: seq<int>, ts: seq<int>)
    requires Rated(period, step) && Tracks(b, step, g) && KeepsRate(period, step, g)
    requires g == [] ==> forall i :: 0 <= i < |ts| ==> b.at <= ts[i]
    ensures Tracks(BucketAfter(period, step, b, ts), step, g + GrantTimes(period, step, b, ts))
    ensures KeepsRate(period, step, g + GrantTimes(period, step, b, ts))
    decreases |ts|
  {
    if ts == [] {
      assert g + [] == g;
    } else {
      GrantsIffKeepsRate(period, step, b, g, ts[0]);
      var rest := GrantTimes(period, step, After(period, step, b, ts[0]), ts[1..]);
      if Grants(period, step, b, ts[0]) {
        GrantKeepsTracking(b, step, g, ts[0]);
        RunTracks(period, step, After(period, step, b, ts[0]), g + [ts[0]], ts[1..]);
        assert g + ([ts[0]] + rest) == g + [ts[0]] + rest;
      } else {
        RunTracks(period, step, b, g, ts[1..]);
      }
    }
  }

  lemma {:induction false} DenialsKeepBucket(period: int, step: int, b: Bucket, ts: seq<int>)
    requires GrantTimes(period, step, b, ts) == []
    ensures BucketAfter(period, step, b, ts) == b
    decreases |ts|
  {
    if ts == [] {
    } else {
      DenialsKeepBucket(period, step, b, ts[1..]);
    }
  }

  ghost predicate AfterStart(ts: seq<int>) {
    forall i :: 0 <= i < |ts| ==> EMPTY.at <= ts[i]
  }

  lemma NewLimiterTracks(period: int, step: int, ts: seq<int>)
    requires Rated(period, step) && AfterStart(ts)
    ensures var b, g := BucketAfter(period, step, EMPTY, ts), GrantTimes(period, step, EMPTY, ts);
            Tracks(b, step, g) && KeepsRate(period, step, g) && (g == [] ==> b == EMPTY)
  {
    var g := GrantTimes(period, step, EMPTY, ts);
    RunTracks(period, step, EMPTY, [], ts);
    assert [] + g == g;
    if g == [] {
      DenialsKeepBucket(period, step, EMPTY, ts);
    }
  }

  // From an empty bucket, what has been granted keeps the rate over every window of grants ...
  lemma GrantsNeverExceedRate(period: int, step: int, ts: seq<int>)
    requires Rated(period, step) && AfterStart(ts)
    ensures KeepsRate(period, step, GrantTimes(period, step, EMPTY, ts))
  {
    NewLimiterTracks(period, step, ts);
  }

  // ... and nothing is denied that would have kept it: after any requests, the next one is granted exactly when
  // the grants made so far and this one keep the rate.
  lemma RunGrantsIffKeepsRate(period: int, step: int, ts: seq<int>, now: int)
    requires Rated(period, step) && AfterStart(ts) && EMPTY.at <= now
    ensures Grants(period, step, BucketAfter(period, step, EMPTY, ts), now)
       <==> KeepsRate(period, step, GrantTimes(period, step, EMPTY, ts) + [now])
  {
    var b, g := BucketAfter(period, step, EMPTY, ts), GrantTimes(period, step, EMPTY, ts);
    NewLimiterTracks(period, step, ts);
    GrantsIffKeepsRate(period, step, b, g, now);
  }

  // ----- No schedule that keeps the rate grants more -----

  ghost function Chosen(ts: seq<int>, choices: seq<bool>): seq<int>
    requires |choices| == |ts|
    decreases |ts|
  {
    if ts == [] then [] else
    var rest := Chosen(ts[1..], choices[1..]);
    if choices[0] then [ts[0]] + rest else rest
  }

  // b has fallen no further behind other than the grants it has made beyond other's account for.
  ghost predicate Ahead(step: int, b: Bucket, granted: nat, other: Bucket, chosen: nat, now: int) {
    granted >= chosen && Leaked(b, now) - Leaked(other, now) <= (granted - chosen) * step
  }

  lemma LeakingKeepsGap(b: Bucket, other: Bucket, surplus: int, now: int, next: int)
    requires now <= next && 0 <= surplus && Leaked(b, now) - Leaked(other, now) <= surplus
    ensures Leaked(b, next) - Leaked(other, next) <= surplus
  {
  }

  lemma LeakingStaysAhead(step: int, b: Bucket, granted: nat, other: Bucket, chosen: nat, now: int, next: int)
    requires 0 < step && now <= next && Ahead(step, b, granted, other, chosen, now)
    ensures Ahead(step, b, granted, other, chosen, next)
  {
    var surplus := (granted - chosen) * step;
    assert 0 <= surplus by {
      if granted > chosen {
        Multiple(granted - chosen, step);
      }
    }
    LeakingKeepsGap(b, other, surplus, now, next);
  }

  function Choose(step: int, b: Bucket, choice: bool, now: int): Bucket {
    if choice then Bucket(Leaked(b, now) + step, now) else b
  }

  lemma RequestStaysAhead(period: int, step: int, b: Bucket, granted: nat, other: Bucket, chosen: nat,
                          choice: bool, now: int)
    requires Rated(period, step) && b.level >= 0 && other.level >= 0
    requires Ahead(step, b, granted, other, chosen, now)
    requires choice ==> Grants(period, step, other, now)
    ensures Ahead(step, After(period, step, b, now), if Grants(period, step, b, now) then granted + 1 else granted,
                  Choose(step, other, choice, now), if choice then chosen + 1 else chosen, now)
  {
    var d := granted - chosen;
    assert (d - 1) * step == d * step - step && (d + 1) * step == d * step + step;
    if choice && !Grants(period, step, b, now) {
      assert d * step > 0;
      assert d >= 1;
    }
  }

  // Whatever schedule g of grants is chosen among the requests ts, as long as it keeps the rate it grants
  // no more often than Acquire does.
  lemma {:induction false} NoRatedScheduleGetsAhead(
      period: int, step: int, b: Bucket, granted: nat, other: Bucket, g: seq<int>, ts: seq<int>, choices: seq<bool>)
    requires Rated(period, step) && Nondecreasing(ts) && |choices| == |ts|
    requires 0 <= b.level && 0 <= other.level
    requires ts != [] ==> other.at <= ts[0] && Ahead(step, b, granted, other, |g|, ts[0])
    requires ts == [] ==> granted >= |g|
    requires Tracks(other, step, g) && KeepsRate(period, step, g + Chosen(ts, choices))
    ensures |g| + |Chosen(ts, choices)| <= granted + |GrantTimes(period, step, b, ts)|
    decreases |ts|
  {
    if ts == [] {
    } else {
      var now := ts[0];
      var chosen := Chosen(ts[1..], choices[1..]);
      var g' := if choices[0] then g + [now] else g;
      KeptByPrefix(period, step, g, g + Chosen(ts, choices));
      if choices[0] {
        assert g + Chosen(ts, choices) == g + [now] + chosen;
        KeptByPrefix(period, step, g + [now], g + [now] + chosen);
        GrantsIffKeepsRate(period, step, other, g, now);
        GrantKeepsTracking(other, step, g, now);
      }
      RequestStaysAhead(period, step, b, granted, other, |g|, choices[0], now);
      var granted' := if Grants(period, step, b, now) then granted + 1 else granted;
      var b', other' := After(period, step, b, now), Choose(step, other, choices[0], now);
      if |ts| > 1 {
        LeakingStaysAhead(step, b', granted', other', |g'|, now, ts[1]);
      }
      NoRatedScheduleGetsAhead(period, step, b', granted', other', g', ts[1..], choices[1..]);
    }
  }

  lemma KeptByPrefix(period: int, step: int, g: seq<int>, h: seq<int>)
    requires g <= h && KeepsRate(period, step, h)
    ensures KeepsRate(period, step, g)
  {
    forall i, j | 0 <= i <= j < |g|
      ensures (j - i + 1) * step <= period + (g[j] - g[i])
    {
      assert g[i] == h[i] && g[j] == h[j];
    }
  }

  lemma AcquireIsOptimal(period: int, step: int, ts: seq<int>, choices: seq<bool>)
    requires Rated(period, step) && Nondecreasing(ts) && (ts != [] ==> 0 <= ts[0])
    requires |choices| == |ts| && KeepsRate(period, step, Chosen(ts, choices))
    ensures |Chosen(ts, choices)| <= |GrantTimes(period, step, EMPTY, ts)|
  {
    assert [] + Chosen(ts, choices) == Chosen(ts, choices);
    NoRatedScheduleGetsAhead(period, step, EMPTY, 0, EMPTY, [], ts, choices);
  }

  // ----- Bursts and retries -----

  ghost function Repeat(t: int, k: nat): seq<int> {
    seq(k, _ => t)
  }

  // How many more steps fit on top of a level.
  function Room(period: int, step: int, level: int): nat
    requires 0 < step
  {
    if level > period then 0 else (period - level) / step
  }

  lemma RoomAfterGrant(period: int, step: int, level: int)
    requires 0 < step
    ensures level + step <= period ==> Room(period, step, level) == Room(period, step, level + step) + 1
    ensures level + step > period ==> Room(period, step, level) == 0
  {
    if level + step <= period {
      var x := period - level;
      assert x == (x / step) * step + x % step;
      assert x - step == (x / step - 1) * step + x % step;
      DivUnique(x - step, x / step - 1, x % step, step);
    } else if level <= period {
      DivUnique(period - level, 0, period - level, step);
    }
  }

  // At one instant exactly as many requests are granted as there is room for.
  lemma {:induction false} BurstGrantsRoom(period: int, step: int, b: Bucket, t: int, k: nat)
    requires Rated(period, step)
    ensures var room := Room(period, step, Leaked(b, t));
            |GrantTimes(period, step, b, Repeat(t, k))| == if k <= room then k else room
    decreases k
  {
    if k == 0 {
    } else {
      assert Repeat(t, k)[1..] == Repeat(t, k - 1);
      BurstGrantsRoom(period, step, After(period, step, b, t), t, k - 1);
      RoomAfterGrant(period, step, Leaked(b, t));
    }
  }

  // A limiter made for a limit admits, from an empty bucket, a burst of floor(period/step) requests,
  // which is at least the limit.
  lemma EmptyBucketAdmitsTheLimit(limit: int, period: nat, t: nat, k: nat)
    requires 1 <= limit <= period
    ensures var step := CalculateStep(limit, period);
            && 0 < step && period / step >= limit
            && |GrantTimes(period, step, EMPTY, Repeat(t, k))| == if k <= period / step then k else period / step
  {
    PositiveLimitIsUnlimitedIffTooFine(limit, period);
    QuotientBounds(period, limit);
    var step := CalculateStep(limit, period);
    FloorAtLeast(period, step, limit);
    BurstGrantsRoom(period, step, EMPTY, t, k);
  }

  lemma DividingLimitFits(period: nat, step: int, limit: int)
    requires 1 <= limit && 0 < step && period % limit == 0 && step * limit <= period < (step + 1) * limit
    ensures period < (limit + 1) * step
  {
    assert (step + 1) * limit == step * limit + limit && (limit + 1) * step == step * limit + step;
    DivUnique(period, step, period - step * limit, limit);
  }

  // The burst is the limit itself exactly when no further step fits into the period, as when the limit divides it.
  lemma BurstIsTheLimitIff(limit: int, period: nat, t: nat, k: nat)
    requires 1 <= limit <= period && k > period
    ensures var step := CalculateStep(limit, period);
            |GrantTimes(period, step, EMPTY, Repeat(t, k))| == limit <==> period < (limit + 1) * step
    ensures period % limit == 0 ==>
              |GrantTimes(period, CalculateStep(limit, period), EMPTY, Repeat(t, k))| == limit
  {
    var step := CalculateStep(limit, period);
    EmptyBucketAdmitsTheLimit(limit, period, t, k);
    StepIsLongestThatFits(limit, period);
    FloorIsAtMost(period, step);
    FloorEqualsIff(period, step, limit);
    if period % limit == 0 {
      DividingLimitFits(period, step, limit);
    }
  }

  lemma FloorIsAtMost(period: nat, step: int)
    requires 0 < step
    ensures period / step <= period
  {
    assert period == (period / step) * step + period % step;
    if period / step > period {
      Multiple(period / step, step);
    }
  }

  lemma FloorEqualsIff(period: nat, step: int, limit: int)
    requires 0 < step && 1 <= limit && step * limit <= period
    ensures period / step == limit <==> period < (limit + 1) * step
  {
    assert (limit + 1) * step == limit * step + step;
    assert period == (period / step) * step + period % step;
    if period < (limit + 1) * step {
      DivUnique(period, limit, period - limit * step, step);
    }
  }

  // After a denial, a retry with no grant in between succeeds exactly when minSleep has passed.
  lemma RetryAfterMinSleep(period: int, step: int, b: Bucket, now: int, retry: int)
    requires Rated(period, step) && now <= retry && !Grants(period, step, b, now)
    ensures var minSleep := step - (period - Leaked(b, now));
            && After(period, step, b, now) == b
            && 0 < minSleep
            && (Grants(period, step, b, retry) <==> retry - now >= minSleep)
  {
  }

  // ----- The virtual scheduling algorithm of the Generic Cell Rate Algorithm
  //       (ATM Forum Traffic Management Specification 4.0, section 4.4.2) -----

  // tat is the theoretical arrival time of the next cell.
  function Conforms(limit: int, tat: int, arrival: int): bool {
    !(arrival < tat - limit)
  }

  function NextTat(increment: int, limit: int, tat: int, arrival: int): int {
    if Conforms(limit, tat, arrival) then Max(arrival, tat) + increment else tat
  }

  ghost function Tat(b: Bucket): int {
    b.at + b.level
  }

  // With increment = step and limit = period - step, the two algorithms stay in step for ever.
  lemma BisimilarToVirtualScheduling(period: int, step: int, b: Bucket, now: int)
    requires Rated(period, step) && b.at <= now
    ensures Grants(period, step, b, now) == Conforms(period - step, Tat(b), now)
    ensures Tat(After(period, step, b, now)) == NextTat(step, period - step, Tat(b), now)
    ensures After(period, step, b, now).at <= now
  {
  }

  ghost function ConformingTimes(increment: int, limit: int, tat: int, ts: seq<int>): seq<int>
    decreases |ts|
  {
    if ts == [] then [] else
    var rest := ConformingTimes(increment, limit, NextTat(increment, limit, tat, ts[0]), ts[1..]);
    if Conforms(limit, tat, ts[0]) then [ts[0]] + rest else rest
  }

  lemma {:induction false} RunsAgreeWithVirtualScheduling(period: int, step: int, b: Bucket, ts: seq<int>)
    requires Rated(period, step) && Nondecreasing(ts) && (ts != [] ==> b.at <= ts[0])
    ensures GrantTimes(period, step, b, ts) == ConformingTimes(step, period - step, Tat(b), ts)
    decreases |ts|
  {
    if ts == [] {
    } else {
      BisimilarToVirtualScheduling(period, step, b, ts[0]);
      RunsAgreeWithVirtualScheduling(period, step, After(period, step, b, ts[0]), ts[1..]);
    }
  }
}
