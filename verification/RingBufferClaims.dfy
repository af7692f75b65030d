/** backend/pkg/ring_buffer/ring_buffer.go: getPushPointer under any number of concurrent pushers.
    start and n are two separate atomics, so between a load and a compare-and-swap anything may happen. */
module RingBufferClaims {
  import opened Circular

  // Where a pusher is in the retry loop. `since` is history: the claims made when it loaded start.
  datatype Pusher =
    | AtLoop
    | LoadedStart(start: nat, since: nat)
    | LoadedBoth(start: nat, n: nat, since: nat)

  datatype Claim = Claim(slot: nat, pusher: nat)

  // claims is history: the slots handed out, in the order of the successful compare-and-swaps.
  datatype Ring = Ring(start: nat, n: nat, pushers: seq<Pusher>, claims: seq<Claim>)

  datatype Step =
    | Arrive                 // one more goroutine starts pushing
    | LoadStart(t: nat)
    | LoadN(t: nat)
    | CompareAndSwap(t: nat) // returns the slot or goes round the loop again

  function New(): Ring {
    Ring(0, 0, [], [])
  }

  predicate Enabled(r: Ring, step: Step) {
    match step
    case Arrive => true
    case LoadStart(t) => t < |r.pushers| && r.pushers[t].AtLoop?
    case LoadN(t) => t < |r.pushers| && r.pushers[t].LoadedStart?
    case CompareAndSwap(t) => t < |r.pushers| && r.pushers[t].LoadedBoth?
  }

  // The loaded values still match the atomic that is swapped: start if the buffer looked full, n otherwise.
  predicate Succeeds(r: Ring, c: nat, p: Pusher)
    requires p.LoadedBoth?
  {
    if p.n == c then r.start == p.start else r.n == p.n
  }

  function Apply(r: Ring, c: nat, step: Step): Ring
    requires 0 < c && Enabled(r, step)
  {
    match step
    case Arrive => r.(pushers := r.pushers + [AtLoop])
    case LoadStart(t) => r.(pushers := r.pushers[t := LoadedStart(r.start, |r.claims|)])
    case LoadN(t) => r.(pushers := r.pushers[t := LoadedBoth(r.pushers[t].start, r.n, r.pushers[t].since)])
    case CompareAndSwap(t) =>
      var p := r.pushers[t];
      var retry := r.(pushers := r.pushers[t := AtLoop]);
      if !Succeeds(r, c, p) then retry else
      var claimed := retry.(claims := r.claims + [Claim((p.start + p.n) % c, t)]);
      if p.n == c then claimed.(start := (p.start + 1) % c) else claimed.(n := p.n + 1)
  }

  predicate Legal(r: Ring, c: nat, steps: seq<Step>)
    requires 0 < c
    decreases |steps|
  {
    steps != [] ==> Enabled(r, steps[0]) && Legal(Apply(r, c, steps[0]), c, steps[1..])
  }

  function Exec(r: Ring, c: nat, steps: seq<Step>): Ring
    requires 0 < c && Legal(r, c, steps)
    decreases |steps|
  {
    if steps == [] then r else Exec(Apply(r, c, steps[0]), c, steps[1..])
  }

  // ----- The invariant -----

  function NAfter(k: nat, c: nat): nat {
    if k < c then k else c
  }

  function StartAfter(k: nat, c: nat): nat
    requires 0 < c
  {
    if k < c then 0 else (k - c) % c
  }

  ghost predicate PusherOk(r: Ring, c: nat, p: Pusher)
    requires 0 < c
  {
    match p
    case AtLoop => true
    case LoadedStart(start, since) => since <= |r.claims| && start == StartAfter(since, c)
    case LoadedBoth(start, n, since) =>
      && since <= |r.claims| && start == StartAfter(since, c)
      && NAfter(since, c) <= n <= NAfter(|r.claims|, c)
  }

  ghost predicate Inv(r: Ring, c: nat)
    requires 0 < c
  {
    && r.n == NAfter(|r.claims|, c)
    && r.start == StartAfter(|r.claims|, c)
    && (forall i :: 0 <= i < |r.claims| ==> r.claims[i].slot == i % c)
    && (forall t :: 0 <= t < |r.pushers| ==> PusherOk(r, c, r.pushers[t]))
  }

  // Whatever the loaded values, if the swap succeeds it claims the slot that is next in order.
  lemma SuccessClaimsNextSlot(r: Ring, c: nat, p: Pusher)
    requires 0 < c && Inv(r, c) && p.LoadedBoth? && PusherOk(r, c, p) && Succeeds(r, c, p)
    ensures (p.start + p.n) % c == |r.claims| % c
    ensures if p.n == c then |r.claims| >= c && (p.start + 1) % c == StartAfter(|r.claims| + 1, c)
            else |r.claims| == p.n < c && StartAfter(|r.claims| + 1, c) == 0
  {
    var k := |r.claims|;
    if p.n == c {
      AddPeriod(p.start, c);
      AddPeriod(k - c, c);
      ModOnce(p.start, c);
      ModAdd(k - c, 1, c);
    } else {
      ModOnce(k, c);
      if k + 1 == c {
        ModOnce(0, c);
      }
    }
  }

  lemma StepKeepsInv(r: Ring, c: nat, step: Step)
    requires 0 < c && Inv(r, c) && Enabled(r, step)
    ensures Inv(Apply(r, c, step), c)
  {
    if step.CompareAndSwap? && Succeeds(r, c, r.pushers[step.t]) {
      SuccessClaimsNextSlot(r, c, r.pushers[step.t]);
    }
  }

  lemma {:induction false} RunKeepsInv(r: Ring, c: nat, steps: seq<Step>)
    requires 0 < c && Inv(r, c) && Legal(r, c, steps)
    ensures Inv(Exec(r, c, steps), c)
    decreases |steps|
  {
    if steps == [] {
    } else {
      StepKeepsInv(r, c, steps[0]);
      RunKeepsInv(Apply(r, c, steps[0]), c, steps[1..]);
    }
  }

  // For any number of pushers and any schedule, despite stale loads and start wrapping round to a value
  // it had before: the k-th successful claim gets slot k mod c, and n and start are where they should be.
  lemma ClaimsGoRoundInOrder(c: nat, steps: seq<Step>)
    requires 0 < c && Legal(New(), c, steps)
    ensures var r := Exec(New(), c, steps);
            var k := |r.claims|;
            && (forall i :: 0 <= i < k ==> r.claims[i].slot == i % c)
            && r.n == (if k < c then k else c)
            && r.start == (if k < c then 0 else k - c) % c
  {
    RunKeepsInv(New(), c, steps);
    ModOnce(0, c);
  }

  // Of any c claims in a row no two share a slot, so a slot is reused only after a whole turn.
  lemma NoSlotIsSharedWithinATurn(c: nat, steps: seq<Step>, i: nat, j: nat)
    requires 0 < c && Legal(New(), c, steps)
    requires i < j < |Exec(New(), c, steps).claims| && j - i < c
    ensures var r := Exec(New(), c, steps); r.claims[i].slot != r.claims[j].slot
  {
    RunKeepsInv(New(), c, steps);
    if i % c == j % c {
      assert (j / c - i / c) * c == j - i;
      SmallMultiple(j / c - i / c, c);
    }
  }

  // The loop is lock-free: a pusher only goes round again if some claim has been made since it loaded start.
  lemma RetryMeansAnotherClaimed(c: nat, steps: seq<Step>, t: nat)
    requires 0 < c && Legal(New(), c, steps)
    requires var r := Exec(New(), c, steps);
             t < |r.pushers| && r.pushers[t].LoadedBoth? && !Succeeds(r, c, r.pushers[t])
    ensures var r := Exec(New(), c, steps); r.pushers[t].since < |r.claims|
  {
    RunKeepsInv(New(), c, steps);
    var r := Exec(New(), c, steps);
    assert PusherOk(r, c, r.pushers[t]);
  }

  // start and n always describe the newest claims, oldest first: the i-th element of the buffer
  // is the slot of the i-th of the last n claims.
  lemma WindowIsNewestClaims(c: nat, steps: seq<Step>, i: nat)
    requires 0 < c && Legal(New(), c, steps)
    requires i < Exec(New(), c, steps).n
    ensures var r := Exec(New(), c, steps);
            r.n <= |r.claims| && r.claims[|r.claims| - r.n + i].slot == (r.start + i) % c
  {
    RunKeepsInv(New(), c, steps);
    var r := Exec(New(), c, steps);
    InvDescribesWindow(r, c, i);
  }

  lemma InvDescribesWindow(r: Ring, c: nat, i: nat)
    requires 0 < c && Inv(r, c) && i < r.n
    ensures r.n <= |r.claims| && r.claims[|r.claims| - r.n + i].slot == (r.start + i) % c
  {
    if |r.claims| >= c {
      ModAdd(|r.claims| - c, i, c);
    }
  }
}
