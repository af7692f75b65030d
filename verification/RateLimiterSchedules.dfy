/** backend/pkg/rate_limiter/rate_limiter.go under any number of goroutines: the loads, the swap and the store of
    Acquire are separate steps, and a run is any sequence of them. */
module RateLimiterSchedules {
  import opened RateLimiters

  // Where a goroutine is in Acquire. Whoever is outside, or has to try again, is at the head of the loop.
  datatype Pc =
    | Head
    | HasNow(now: int)
    | HasLast(now: int, last: int)
    | Passed(now: int, last: int, level: int)   // has found room, is about to swap
    | Swapped(level: int)                       // has swapped, is about to store and to return true

  // grants are the clock readings of the successful swaps, in the order of the swaps.
  datatype System = System(clock: nat, last: int, bucket: int, callers: seq<Pc>, grants: seq<int>)

  datatype Move =
    | Tick(d: nat)
    | ReadClock(t: nat)
    | LoadLast(t: nat)
    | LoadBucket(t: nat)
    | Swap(t: nat)
    | Store(t: nat)

  function Init(callers: nat): System {
    System(0, 0, 0, seq(callers, _ => Head), [])
  }

  predicate Enabled(s: System, m: Move) {
    if m.Tick? then true else
    m.t < |s.callers| &&
    match m
    case ReadClock(t) => s.callers[t].Head?
    case LoadLast(t) => s.callers[t].HasNow?
    case LoadBucket(t) => s.callers[t].HasLast?
    case Swap(t) => s.callers[t].Passed?
    case Store(t) => s.callers[t].Swapped?
  }

  function Goto(s: System, t: nat, pc: Pc): System
    requires t < |s.callers|
  {
    s.(callers := s.callers[t := pc])
  }

  function Apply(period: int, step: int, s: System, m: Move): System
    requires Enabled(s, m)
  {
    match m
    case Tick(d) => s.(clock := s.clock + d)
    case ReadClock(t) => Goto(s, t, HasNow(s.clock))
    case LoadLast(t) => Goto(s, t, HasLast(s.callers[t].now, s.last))
    case LoadBucket(t) =>
      var pc := s.callers[t];
      var level := Max(s.bucket - (pc.now - pc.last), 0);
      Goto(s, t, if level + step > period then Head else Passed(pc.now, pc.last, level))
    case Swap(t) =>
      var pc := s.callers[t];
      if s.last != pc.last then Goto(s, t, Head)
      else Goto(s.(last := pc.now, grants := s.grants + [pc.now]), t, Swapped(pc.level))
    case Store(t) => Goto(s.(bucket := s.callers[t].level + step), t, Head)
  }

  // moves is a run from s to s'.
  ghost predicate Runs(period: int, step: int, s: System, moves: seq<Move>, s': System)
    decreases |moves|
  {
    if moves == [] then s == s'
    else Enabled(s, moves[0]) && Runs(period, step, Apply(period, step, s, moves[0]), moves[1..], s')
  }

  // ----- Any number of goroutines -----

  // Whoever is past the checks has found room, and the clock it read is in the past.
  ghost predicate InHand(period: int, step: int, s: System, pc: Pc) {
    match pc
    case Head => true
    case HasNow(now) => 0 <= now <= s.clock
    case HasLast(now, _) => 0 <= now <= s.clock
    case Passed(now, _, level) => 0 <= now <= s.clock && 0 <= level <= period - step
    case Swapped(level) => 0 <= level <= period - step && s.grants != []
  }

  ghost predicate Sound(period: int, step: int, s: System) {
    && 0 <= s.bucket <= period
    && s.last == (if s.grants == [] then 0 else s.grants[|s.grants| - 1])
    && (forall i :: 0 <= i < |s.grants| ==> 0 <= s.grants[i] <= s.clock)
    && (forall t :: 0 <= t < |s.callers| ==> InHand(period, step, s, s.callers[t]))
  }

  lemma MoveKeepsSound(period: int, step: int, s: System, m: Move)
    requires Rated(period, step) && Sound(period, step, s) && Enabled(s, m)
    ensures Sound(period, step, Apply(period, step, s, m))
  {
    if !m.Tick? {
      assert InHand(period, step, s, s.callers[m.t]);
    }
  }

  lemma {:induction false} RunKeepsSound(period: int, step: int, s: System, moves: seq<Move>, s': System)
    requires Rated(period, step) && Sound(period, step, s) && Runs(period, step, s, moves, s')
    ensures Sound(period, step, s')
    decreases |moves|
  {
    if moves == [] {
    } else {
      MoveKeepsSound(period, step, s, moves[0]);
      RunKeepsSound(period, step, Apply(period, step, s, moves[0]), moves[1..], s');
    }
  }

  // In every schedule the time of the last acquisition is that of the newest grant, and the bucket does not overflow,
  // whatever else goes wrong.
  lemma LastIsNewestGrant(period: int, step: int, callers: nat, moves: seq<Move>, s: System)
    requires Rated(period, step) && Runs(period, step, Init(callers), moves, s)
    ensures s.last == if s.grants == [] then 0 else s.grants[|s.grants| - 1]
    ensures 0 <= s.bucket <= period
  {
    RunKeepsSound(period, step, Init(callers), moves, s);
  }

  // ----- One goroutine -----

  ghost predicate Settled(period: int, step: int, s: System) {
    && Tracks(Bucket(s.bucket, s.last), step, s.grants)
    && KeepsRate(period, step, s.grants)
    && (s.grants == [] ==> s.last == 0)
  }

  ghost predicate Alone(period: int, step: int, s: System) {
    && |s.callers| == 1
    && KeepsRate(period, step, s.grants)
    && match s.callers[0]
       case Head => Settled(period, step, s)
       case HasNow(now) => Settled(period, step, s) && 0 <= now
       case HasLast(now, last) => Settled(period, step, s) && 0 <= now && last == s.last
       case Passed(now, last, level) =>
         && Settled(period, step, s) && 0 <= now && last == s.last
         && level == Leaked(Bucket(s.bucket, s.last), now) && level + step <= period
       case Swapped(level) => s.grants != [] && Tracks(Bucket(level + step, s.last), step, s.grants)
  }

  lemma MoveKeepsAlone(period: int, step: int, s: System, m: Move)
    requires Rated(period, step) && Alone(period, step, s) && Enabled(s, m)
    ensures Alone(period, step, Apply(period, step, s, m))
  {
    if m.Swap? {
      var b, now := Bucket(s.bucket, s.last), s.callers[0].now;
      GrantsIffKeepsRate(period, step, b, s.grants, now);
      GrantKeepsTracking(b, step, s.grants, now);
    }
  }

  lemma {:induction false} AloneKeepsRate(period: int, step: int, s: System, moves: seq<Move>, s': System)
    requires Rated(period, step) && Alone(period, step, s) && Runs(period, step, s, moves, s')
    ensures KeepsRate(period, step, s'.grants)
    decreases |moves|
  {
    if moves == [] {
    } else {
      MoveKeepsAlone(period, step, s, moves[0]);
      AloneKeepsRate(period, step, Apply(period, step, s, moves[0]), moves[1..], s');
    }
  }

  lemma {:induction false} NobodyIsGranted(period: int, step: int, s: System, moves: seq<Move>, s': System)
    requires s.callers == [] && Runs(period, step, s, moves, s')
    ensures s'.grants == s.grants
    decreases |moves|
  {
    if moves == [] {
    } else {
      NobodyIsGranted(period, step, Apply(period, step, s, moves[0]), moves[1..], s');
    }
  }

  // ----- Two goroutines -----

  lemma {:induction false} RunsOn(period: int, step: int, s: System, moves: seq<Move>, s': System, m: Move)
    requires Runs(period, step, s, moves, s') && Enabled(s', m)
    ensures Runs(period, step, s, moves + [m], Apply(period, step, s', m))
    decreases |moves|
  {
    if moves == [] {
      assert [m][1..] == [];
    } else {
      RunsOn(period, step, Apply(period, step, s, moves[0]), moves[1..], s', m);
      assert (moves + [m])[1..] == moves[1..] + [m];
    }
  }

  lemma Continue(period: int, step: int, s: System, moves: seq<Move>, s': System, m: Move, s'': System)
      returns (moves': seq<Move>)
    requires Runs(period, step, s, moves, s') && Enabled(s', m) && s'' == Apply(period, step, s', m)
    ensures Runs(period, step, s, moves', s'')
  {
    RunsOn(period, step, s, moves, s', m);
    moves' := moves + [m];
  }

  // Nobody is in Acquire, the clock still shows 0, and there have been k grants.
  ghost function Quiet(callers: nat, bucket: int, k: nat): System {
    System(0, 0, bucket, seq(callers, _ => Head), seq(k, _ => 0))
  }

  // The first caller has swapped and not yet stored.
  ghost function Midway(callers: nat): System
    requires 2 <= callers
  {
    Goto(Init(callers), 0, Swapped(0)).(grants := [0])
  }

  lemma ReachMidway(period: int, step: int, callers: nat) returns (moves: seq<Move>)
    requires Rated(period, step) && 2 <= callers
    ensures Runs(period, step, Init(callers), moves, Midway(callers))
  {
    var s := Init(callers);
    moves := [];
    moves := Continue(period, step, s, moves, s, ReadClock(0), Goto(s, 0, HasNow(0)));
    moves := Continue(period, step, s, moves, Goto(s, 0, HasNow(0)), LoadLast(0), Goto(s, 0, HasLast(0, 0)));
    moves := Continue(period, step, s, moves, Goto(s, 0, HasLast(0, 0)), LoadBucket(0), Goto(s, 0, Passed(0, 0, 0)));
    moves := Continue(period, step, s, moves, Goto(s, 0, Passed(0, 0, 0)), Swap(0), Midway(callers));
  }

  // The second caller has loaded as well, and neither has stored.
  lemma ReachBothPassed(period: int, step: int, callers: nat) returns (moves: seq<Move>)
    requires Rated(period, step) && 2 <= callers
    ensures Runs(period, step, Init(callers), moves, Goto(Midway(callers), 1, Passed(0, 0, 0)))
  {
    var s, mid := Init(callers), Midway(callers);
    moves := ReachMidway(period, step, callers);
    moves := Continue(period, step, s, moves, mid, ReadClock(1), Goto(mid, 1, HasNow(0)));
    moves := Continue(period, step, s, moves, Goto(mid, 1, HasNow(0)), LoadLast(1), Goto(mid, 1, HasLast(0, 0)));
    moves := Continue(period, step, s, moves, Goto(mid, 1, HasLast(0, 0)), LoadBucket(1),
                      Goto(mid, 1, Passed(0, 0, 0)));
  }

  // The second caller loads after the first has swapped and before it stores, so one of the two grants is not counted.
  lemma TwoGrantsCountedOnce(period: int, step: int, callers: nat) returns (moves: seq<Move>)
    requires Rated(period, step) && 2 <= callers
    ensures Runs(period, step, Init(callers), moves, Quiet(callers, step, 2))
  {
    var s, both := Init(callers), Goto(Midway(callers), 1, Passed(0, 0, 0));
    var stored := Goto(s, 1, Passed(0, 0, 0)).(bucket := step, grants := [0]);
    var again := Goto(s, 1, Swapped(0)).(bucket := step, grants := [0, 0]);
    moves := ReachBothPassed(period, step, callers);
    moves := Continue(period, step, s, moves, both, Store(0), stored);
    moves := Continue(period, step, s, moves, stored, Swap(1), again);
    moves := Continue(period, step, s, moves, again, Store(1), Quiet(callers, step, 2));
  }

  lemma OneMoreGrant(period: int, step: int, callers: nat, moves: seq<Move>, bucket: int, k: nat)
      returns (moves': seq<Move>)
    requires Rated(period, step) && 1 <= callers && 0 <= bucket && bucket + step <= period
    requires Runs(period, step, Init(callers), moves, Quiet(callers, bucket, k))
    ensures Runs(period, step, Init(callers), moves', Quiet(callers, bucket + step, k + 1))
  {
    var s, q, q' := Init(callers), Quiet(callers, bucket, k), Quiet(callers, bucket + step, k + 1);
    moves' := Continue(period, step, s, moves, q, ReadClock(0), Goto(q, 0, HasNow(0)));
    moves' := Continue(period, step, s, moves', Goto(q, 0, HasNow(0)), LoadLast(0), Goto(q, 0, HasLast(0, 0)));
    moves' := Continue(period, step, s, moves', Goto(q, 0, HasLast(0, 0)), LoadBucket(0),
                       Goto(q, 0, Passed(0, 0, bucket)));
    moves' := Continue(period, step, s, moves', Goto(q, 0, Passed(0, 0, bucket)), Swap(0),
                       Goto(q.(grants := q'.grants), 0, Swapped(bucket)));
    moves' := Continue(period, step, s, moves', Goto(q.(grants := q'.grants), 0, Swapped(bucket)), Store(0), q');
  }

  // With the bucket one grant short, one grant too many fits in before it is full.
  lemma {:induction false} Overfill(period: int, step: int, callers: nat, moves: seq<Move>, bucket: int, k: nat)
      returns (moves': seq<Move>, n: nat)
    requires Rated(period, step) && 1 <= callers && 0 <= bucket <= period && k * step == bucket + step
    requires Runs(period, step, Init(callers), moves, Quiet(callers, bucket, k))
    ensures exists full :: Runs(period, step, Init(callers), moves', Quiet(callers, full, n))
    ensures n * step > period
    decreases period - bucket
  {
    if bucket + step > period {
      moves', n := moves, k;
    } else {
      var more := OneMoreGrant(period, step, callers, moves, bucket, k);
      assert (k + 1) * step == k * step + step;
      moves', n := Overfill(period, step, callers, more, bucket + step, k + 1);
    }
  }

  lemma TooManyAtOnce(period: int, step: int, n: nat)
    requires Rated(period, step) && n * step > period
    ensures !KeepsRate(period, step, seq(n, _ => 0))
  {
    var g := seq(n, _ => 0);
    assert (n - 1 - 0 + 1) * step > period + (g[n - 1] - g[0]);
  }

  // Two callers at work, and all others outside.
  ghost function Pair(callers: nat, clock: nat, last: int, bucket: int, a: Pc, b: Pc, grants: seq<int>): System
    requires 2 <= callers
  {
    System(clock, last, bucket, Init(callers).callers[0 := a][1 := b], grants)
  }

  lemma ReachFirstSwap(period: int, step: int, callers: nat) returns (moves: seq<Move>)
    requires Rated(period, step) && 2 <= callers
    ensures Runs(period, step, Init(callers), moves, Pair(callers, 1, 1, 0, Swapped(0), Head, [1]))
  {
    var s := Init(callers);
    var s1 := Pair(callers, 1, 0, 0, Head, Head, []);
    var s2 := Pair(callers, 1, 0, 0, HasNow(1), Head, []);
    var s3 := Pair(callers, 1, 0, 0, HasLast(1, 0), Head, []);
    var s4 := Pair(callers, 1, 0, 0, Passed(1, 0, 0), Head, []);
    moves := [];
    moves := Continue(period, step, s, moves, s, Tick(1), s1);
    moves := Continue(period, step, s, moves, s1, ReadClock(0), s2);
    moves := Continue(period, step, s, moves, s2, LoadLast(0), s3);
    moves := Continue(period, step, s, moves, s3, LoadBucket(0), s4);
    moves := Continue(period, step, s, moves, s4, Swap(0), Pair(callers, 1, 1, 0, Swapped(0), Head, [1]));
  }

  // The same window with the clock moving on: the first caller reads 1 and swaps, and before it stores the second one
  // reads 2, finds the new time and the old bucket, and swaps as well.
  lemma GrantsAtDifferentReadings(period: int, step: int, callers: nat) returns (moves: seq<Move>)
    requires Rated(period, step) && 2 <= callers
    ensures Runs(period, step, Init(callers), moves, Pair(callers, 2, 2, 0, Swapped(0), Swapped(0), [1, 2]))
    ensures KeepsRate(period, step, [1, 2]) <==> 2 * step <= period + 1
  {
    var s, first := Init(callers), Pair(callers, 1, 1, 0, Swapped(0), Head, [1]);
    var s1 := Pair(callers, 2, 1, 0, Swapped(0), Head, [1]);
    var s2 := Pair(callers, 2, 1, 0, Swapped(0), HasNow(2), [1]);
    var s3 := Pair(callers, 2, 1, 0, Swapped(0), HasLast(2, 1), [1]);
    var s4 := Pair(callers, 2, 1, 0, Swapped(0), Passed(2, 1, 0), [1]);
    moves := ReachFirstSwap(period, step, callers);
    moves := Continue(period, step, s, moves, first, Tick(1), s1);
    moves := Continue(period, step, s, moves, s1, ReadClock(1), s2);
    moves := Continue(period, step, s, moves, s2, LoadLast(1), s3);
    moves := Continue(period, step, s, moves, s3, LoadBucket(1), s4);
    moves := Continue(period, step, s, moves, s4, Swap(1), Pair(callers, 2, 2, 0, Swapped(0), Swapped(0), [1, 2]));
    TwoGrantsKeepRateIff(period, step);
  }

  lemma TwoGrantsKeepRateIff(period: int, step: int)
    requires Rated(period, step)
    ensures KeepsRate(period, step, [1, 2]) <==> 2 * step <= period + 1
  {
    var g := [1, 2];
    if KeepsRate(period, step, g) {
      assert (1 - 0 + 1) * step <= period + (g[1] - g[0]);
    }
  }

  // The limiter keeps its rate among that many goroutines, whatever the schedule.
  ghost predicate KeepsRateAmong(period: int, step: int, callers: nat) {
    forall moves, s :: Runs(period, step, Init(callers), moves, s) ==> KeepsRate(period, step, s.grants)
  }

  // It does so for a single goroutine and for no larger number of them.
  lemma KeepsRateIffAlone(period: int, step: int, callers: nat)
    requires Rated(period, step)
    ensures KeepsRateAmong(period, step, callers) <==> callers <= 1
  {
    if callers <= 1 {
      forall moves, s | Runs(period, step, Init(callers), moves, s)
        ensures KeepsRate(period, step, s.grants)
      {
        if callers == 1 {
          AloneKeepsRate(period, step, Init(callers), moves, s);
        } else {
          NobodyIsGranted(period, step, Init(callers), moves, s);
        }
      }
    } else {
      var moves := TwoGrantsCountedOnce(period, step, callers);
      var more, n := Overfill(period, step, callers, moves, step, 2);
      var full :| Runs(period, step, Init(callers), more, Quiet(callers, full, n));
      TooManyAtOnce(period, step, n);
      assert !KeepsRate(period, step, Quiet(callers, full, n).grants);
    }
  }
}
