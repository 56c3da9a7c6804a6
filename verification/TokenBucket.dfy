/**
 Token buckets: `src/token-bucket.ts`.

 Tokens are reals, the clock counts milliseconds. Every operation takes the instant it reads
 from the clock as a parameter `now`, so a run may be given any clock, including one that
 steps back; each theorem says what it asks of the clock.
 */
module TokenBuckets {

  datatype ConsumeResult = ConsumeResult(allowed: bool, remaining: int, retryAfterSec: int)

  /** The fields of one bucket at one instant. */
  datatype BucketState = BucketState(rate: real, bucketSize: real, tokens: real, lastRefill: int) {
    predicate Valid() {
      rate > 0.0 && bucketSize > 0.0 && 0.0 <= tokens <= bucketSize
    }
  }

  function Ceil(x: real): int {
    -((-x).Floor)
  }

  function Min(x: real, y: real): real {
    if x <= y then x else y
  }

  /** Tokens earned in `ms` milliseconds. */
  function Gain(rate: real, ms: int): real {
    ms as real / 1000.0 * rate
  }

  function NewBucket(rate: real, bucketSize: real, now: int): BucketState {
    BucketState(rate, bucketSize, bucketSize, now)
  }

  function Refilled(b: BucketState, now: int): BucketState {
    if now <= b.lastRefill then b
    else b.(tokens := Min(b.bucketSize, b.tokens + Gain(b.rate, now - b.lastRefill)), lastRefill := now)
  }

  /** A count of zero or less is charged as one. */
  function Charge(count: real): real {
    if count <= 0.0 then 1.0 else count
  }

  function Consumed(b: BucketState, count: real, now: int): BucketState {
    var r := Refilled(b, now);
    if r.tokens >= Charge(count) then r.(tokens := r.tokens - Charge(count)) else r
  }

  function ConsumeOutcome(b: BucketState, count: real, now: int): ConsumeResult
    requires b.Valid()
  {
    var r := Refilled(b, now);
    var n := Charge(count);
    if r.tokens >= n
    then ConsumeResult(true, (r.tokens - n).Floor, 0)
    else ConsumeResult(false, 0, Ceil((n - r.tokens) / r.rate))
  }

  function Drained(b: BucketState, now: int): BucketState {
    b.(tokens := 0.0, lastRefill := now)
  }

  function Remaining(b: BucketState, now: int): int {
    Refilled(b, now).tokens.Floor
  }

  function SecondsUntilRefill(b: BucketState, now: int): int
    requires b.Valid()
  {
    var r := Refilled(b, now);
    if r.tokens >= 1.0 then 0 else Ceil((1.0 - r.tokens) / r.rate)
  }

  class TokenBucket {
    const rate: real
    const bucketSize: real
    var tokens: real
    var lastRefill: int

    function State(): BucketState
      reads this
    {
      BucketState(rate, bucketSize, tokens, lastRefill)
    }

    constructor (rate: real, bucketSize: real, now: int)
      requires rate > 0.0 && bucketSize > 0.0
      ensures State() == NewBucket(rate, bucketSize, now) && State().Valid()
    {
      this.rate := rate;
      this.bucketSize := bucketSize;
      this.tokens := bucketSize;
      this.lastRefill := now;
    }

    method Refill(now: int)
      modifies this
      ensures State() == Refilled(old(State()), now)
    {
      var elapsed := (now - lastRefill) as real / 1000.0;
      if elapsed <= 0.0 { return; }
      tokens := Min(bucketSize, tokens + elapsed * rate);
      lastRefill := now;
    }

    method Consume(count: real, now: int) returns (r: ConsumeResult)
      requires State().Valid()
      modifies this
      ensures State() == Consumed(old(State()), count, now) && State().Valid()
      ensures r == ConsumeOutcome(old(State()), count, now)
    {
      RefillKeepsValid(State(), now);
      Refill(now);
      var n := count;
      if n <= 0.0 { n := 1.0; }
      if tokens >= n {
        tokens := tokens - n;
        return ConsumeResult(true, tokens.Floor, 0);
      }
      var deficit := n - tokens;
      r := ConsumeResult(false, 0, Ceil(deficit / rate));
    }

    method Drain(now: int)
      modifies this
      ensures State() == Drained(old(State()), now)
    {
      tokens := 0.0;
      lastRefill := now;
    }

    method GetRemaining(now: int) returns (r: int)
      modifies this
      ensures State() == Refilled(old(State()), now) && r == Remaining(old(State()), now)
    {
      Refill(now);
      r := tokens.Floor;
    }

    method GetSecondsUntilRefill(now: int) returns (r: int)
      requires State().Valid()
      modifies this
      ensures State() == Refilled(old(State()), now) && r == SecondsUntilRefill(old(State()), now)
    {
      Refill(now);
      if tokens >= 1.0 { return 0; }
      r := Ceil((1.0 - tokens) / rate);
    }
  }

  // ---------------------------------------------------------------- arithmetic

  lemma GainAdds(rate: real, a: int, b: int)
    ensures Gain(rate, a + b) == Gain(rate, a) + Gain(rate, b)
  {
    assert (a + b) as real == a as real + b as real;
  }

  lemma GainMonotone(rate: real, a: int, b: int)
    requires rate > 0.0 && a <= b
    ensures Gain(rate, a) <= Gain(rate, b)
    ensures 0 <= a ==> 0.0 <= Gain(rate, a)
  {
    GainAdds(rate, a, b - a);
    GainNonNegative(rate, b - a);
    if 0 <= a { GainNonNegative(rate, a); }
  }

  lemma GainNonNegative(rate: real, ms: int)
    requires rate > 0.0 && 0 <= ms
    ensures 0.0 <= Gain(rate, ms)
  {
    assert ms as real / 1000.0 >= 0.0;
  }

  lemma GainSeconds(rate: real, sec: int)
    ensures Gain(rate, 1000 * sec) == sec as real * rate
  {
    assert (1000 * sec) as real / 1000.0 == sec as real;
  }

  lemma CeilBounds(x: real)
    ensures Ceil(x) as real - 1.0 < x <= Ceil(x) as real
  {
  }

  /** `ceil(x / rate)` is the least whole number k with x <= k * rate. */
  lemma CeilQuotient(x: real, rate: real, k: int)
    requires rate > 0.0
    ensures Ceil(x / rate) <= k <==> x <= k as real * rate
  {
    var q := x / rate;
    assert q * rate == x;
    CeilBounds(q);
    if q <= k as real {
      assert (k as real - q) * rate >= 0.0;
    } else {
      assert (q - k as real) * rate > 0.0;
    }
  }

  // ---------------------------------------------------------------- one bucket, one step

  lemma RefillKeepsValid(b: BucketState, now: int)
    requires b.Valid()
    ensures Refilled(b, now).Valid()
    ensures b.tokens <= Refilled(b, now).tokens <= b.tokens + Gain(b.rate, Refilled(b, now).lastRefill - b.lastRefill)
  {
    if now > b.lastRefill {
      GainNonNegative(b.rate, now - b.lastRefill);
    }
  }

  /** Refilling in two steps is refilling once, also when the cap is reached in between. */
  lemma RefillComposes(b: BucketState, t1: int, t2: int)
    requires b.Valid() && t1 <= t2
    ensures Refilled(Refilled(b, t1), t2) == Refilled(b, t2)
  {
    if t1 > b.lastRefill {
      GainAdds(b.rate, t1 - b.lastRefill, t2 - t1);
      GainNonNegative(b.rate, t1 - b.lastRefill);
      GainNonNegative(b.rate, t2 - t1);
    }
  }

  /** Tokens earned in whole seconds. */
  function Earned(rate: real, sec: nat): real {
    sec as real * rate
  }

  lemma RefilledAfterSeconds(b: BucketState, wait: nat)
    requires b.Valid()
    ensures Refilled(b, b.lastRefill + 1000 * wait).tokens == Min(b.bucketSize, b.tokens + Earned(b.rate, wait))
  {
    GainSeconds(b.rate, wait);
    if wait == 0 { assert Earned(b.rate, wait) == 0.0; }
  }

  /** The reported wait covers what is missing, and no shorter one does. */
  lemma RetryCovers(b: BucketState, n: real, now: int, wait: nat)
    requires b.Valid() && n > 0.0 && !ConsumeOutcome(b, n, now).allowed
    ensures ConsumeOutcome(b, n, now).retryAfterSec <= wait
            <==> n - Refilled(b, now).tokens <= Earned(b.rate, wait)
    ensures Consumed(b, n, now) == Refilled(b, now)
  {
    CeilQuotient(n - Refilled(b, now).tokens, b.rate, wait);
    hide Ceil, Gain, Min;
  }

  lemma AllowedIff(b: BucketState, n: real, now: int)
    requires b.Valid() && n > 0.0
    ensures ConsumeOutcome(b, n, now).allowed <==> Refilled(b, now).tokens >= n
  {
    hide Ceil, Refilled;
  }

  /**
   A refused `consume(n)` reports the least whole number of seconds after which the same call
   succeeds, provided nothing else touches the bucket and n fits into the bucket at all; when
   n exceeds the bucket size no wait is ever enough.
   */
  lemma RetryAfterIsLeast(b: BucketState, n: real, now: int, wait: nat)
    requires b.Valid() && b.lastRefill <= now && n > 0.0
    requires !ConsumeOutcome(b, n, now).allowed
    ensures var after := Consumed(b, n, now);
            after.Valid() &&
            (ConsumeOutcome(after, n, now + 1000 * wait).allowed
             <==> n <= b.bucketSize && ConsumeOutcome(b, n, now).retryAfterSec <= wait)
  {
    var r := Refilled(b, now);
    assert r.lastRefill == now && r.rate == b.rate && r.bucketSize == b.bucketSize;
    hide ConsumeOutcome, Consumed, Refilled, Gain, Earned;
    RefillKeepsValid(b, now);
    RetryCovers(b, n, now, wait);
    RefilledAfterSeconds(r, wait);
    AllowedIff(r, n, now + 1000 * wait);
  }

  /** `remaining` on a grant is the largest whole count that the same instant still grants. */
  lemma RemainingIsLargest(b: BucketState, n: real, now: int, k: int)
    requires b.Valid() && k > 0
    ensures Consumed(b, n, now).Valid()
    ensures ConsumeOutcome(b, n, now).allowed ==>
              (ConsumeOutcome(Consumed(b, n, now), k as real, now).allowed
               <==> k <= ConsumeOutcome(b, n, now).remaining)
  {
    RefillKeepsValid(b, now);
    assert Refilled(Consumed(b, n, now), now) == Consumed(b, n, now);
  }

  // ---------------------------------------------------------------- runs

  datatype Op = Consume(count: real) | Drain | GetRemaining | GetSecondsUntilRefill

  datatype Event = Event(op: Op, now: int)

  function Apply(b: BucketState, e: Event): BucketState {
    match e.op
    case Consume(n) => Consumed(b, n, e.now)
    case Drain => Drained(b, e.now)
    case GetRemaining => Refilled(b, e.now)
    case GetSecondsUntilRefill => Refilled(b, e.now)
  }

  function Run(b: BucketState, es: seq<Event>): BucketState
    decreases |es|
  {
    if es == [] then b else Run(Apply(b, es[0]), es[1..])
  }

  predicate Granted(b: BucketState, e: Event) {
    e.op.Consume? && Refilled(b, e.now).tokens >= Charge(e.op.count)
  }

  /** The tokens handed out by the run. */
  function GrantedTokens(b: BucketState, es: seq<Event>): real
    decreases |es|
  {
    if es == [] then 0.0
    else (if Granted(b, es[0]) then Charge(es[0].op.count) else 0.0) + GrantedTokens(Apply(b, es[0]), es[1..])
  }

  /** No drain happens at an instant before the last refill. */
  predicate NoDrainInThePast(b: BucketState, es: seq<Event>)
    decreases |es|
  {
    es == [] || ((es[0].op.Drain? ==> b.lastRefill <= es[0].now) && NoDrainInThePast(Apply(b, es[0]), es[1..]))
  }

  /** A drain that sets the clock back by more time than the tokens it destroys are worth. */
  predicate Overdraws(b: BucketState, e: Event) {
    e.op.Drain? && b.tokens < Gain(b.rate, b.lastRefill - e.now)
  }

  /** What the budget asks of a run. */
  predicate NeverOverdraws(b: BucketState, es: seq<Event>)
    decreases |es|
  {
    es == [] || (!Overdraws(b, es[0]) && NeverOverdraws(Apply(b, es[0]), es[1..]))
  }

  /** Tokens handed out plus tokens left are covered by tokens held plus what the bucket's clock earned. */
  predicate Conserves(b: BucketState, es: seq<Event>) {
    GrantedTokens(b, es) + Run(b, es).tokens <= b.tokens + Gain(b.rate, Run(b, es).lastRefill - b.lastRefill)
  }

  ghost predicate Monotone(from: int, es: seq<Event>)
    decreases |es|
  {
    es == [] || (from <= es[0].now && Monotone(es[0].now, es[1..]))
  }

  lemma ApplyKeepsValid(b: BucketState, e: Event)
    requires b.Valid()
    ensures Apply(b, e).Valid()
    ensures Apply(b, e).rate == b.rate && Apply(b, e).bucketSize == b.bucketSize
  {
    RefillKeepsValid(b, e.now);
  }

  /** 0 <= tokens <= bucketSize after every run on any clock. */
  lemma {:induction false} RunKeepsValid(b: BucketState, es: seq<Event>)
    requires b.Valid()
    ensures Run(b, es).Valid() && Run(b, es).rate == b.rate && Run(b, es).bucketSize == b.bucketSize
    decreases |es|
  {
    if es != [] {
      ApplyKeepsValid(b, es[0]);
      RunKeepsValid(Apply(b, es[0]), es[1..]);
    }
  }

  lemma {:induction false} RunSplits(b: BucketState, xs: seq<Event>, ys: seq<Event>)
    ensures Run(b, xs + ys) == Run(Run(b, xs), ys)
    ensures GrantedTokens(b, xs + ys) == GrantedTokens(b, xs) + GrantedTokens(Run(b, xs), ys)
    decreases |xs|
  {
    if xs == [] {
      assert xs + ys == ys;
    } else {
      assert (xs + ys)[1..] == xs[1..] + ys;
      RunSplits(Apply(b, xs[0]), xs[1..], ys);
    }
  }

  lemma {:induction false} MonotoneMeansNoDrainInThePast(b: BucketState, from: int, es: seq<Event>)
    requires b.lastRefill <= from && Monotone(from, es)
    ensures NoDrainInThePast(b, es)
    decreases |es|
  {
    if es != [] {
      assert Apply(b, es[0]).lastRefill <= es[0].now;
      MonotoneMeansNoDrainInThePast(Apply(b, es[0]), es[0].now, es[1..]);
    }
  }

  lemma {:induction false} WithoutDrainsAnyClockWillDo(b: BucketState, es: seq<Event>)
    requires forall e <- es :: !e.op.Drain?
    ensures NoDrainInThePast(b, es)
    decreases |es|
  {
    if es != [] {
      WithoutDrainsAnyClockWillDo(Apply(b, es[0]), es[1..]);
    }
  }

  lemma {:induction false} NoDrainInThePastNeverOverdraws(b: BucketState, es: seq<Event>)
    requires b.Valid() && NoDrainInThePast(b, es)
    ensures NeverOverdraws(b, es)
    decreases |es|
  {
    if es != [] {
      if es[0].op.Drain? { GainMonotone(b.rate, b.lastRefill - es[0].now, 0); }
      assert Gain(b.rate, 0) == 0.0;
      ApplyKeepsValid(b, es[0]);
      NoDrainInThePastNeverOverdraws(Apply(b, es[0]), es[1..]);
    }
  }

  lemma BudgetStep(b: BucketState, e: Event)
    requires b.Valid() && (e.op.Drain? ==> b.lastRefill <= e.now)
    ensures var after := Apply(b, e);
            (if Granted(b, e) then Charge(e.op.count) else 0.0) + after.tokens
            <= b.tokens + Gain(b.rate, after.lastRefill - b.lastRefill)
    ensures b.lastRefill <= Apply(b, e).lastRefill
  {
    RefillKeepsValid(b, e.now);
    if e.op.Drain? {
      GainNonNegative(b.rate, e.now - b.lastRefill);
    }
  }

  lemma RunOne(b: BucketState, e: Event)
    ensures Run(b, [e]) == Apply(b, e)
    ensures GrantedTokens(b, [e]) == if Granted(b, e) then Charge(e.op.count) else 0.0
  {
    assert [e][1..] == [];
    assert Run(Apply(b, e), []) == Apply(b, e);
  }

  /** One call conserves exactly when it is not an overdrawing drain. */
  lemma StepConservesIff(b: BucketState, e: Event)
    requires b.Valid()
    ensures Conserves(b, [e]) <==> !Overdraws(b, e)
  {
    RunOne(b, e);
    RefillKeepsValid(b, e.now);
    if e.op.Drain? {
      GainAdds(b.rate, e.now - b.lastRefill, b.lastRefill - e.now);
      assert Gain(b.rate, 0) == 0.0;
    }
  }

  lemma ConservesComposes(b: BucketState, xs: seq<Event>, ys: seq<Event>)
    requires b.Valid() && Conserves(b, xs) && Conserves(Run(b, xs), ys)
    ensures Conserves(b, xs + ys)
  {
    RunSplits(b, xs, ys);
    RunKeepsValid(b, xs);
    var c, d := Run(b, xs), Run(Run(b, xs), ys);
    GainAdds(b.rate, c.lastRefill - b.lastRefill, d.lastRefill - c.lastRefill);
  }

  /**
   Conservation: tokens handed out plus tokens left never exceed tokens held at the start
   plus what the rate earns over the time the bucket has seen pass.
   */
  lemma {:induction false} Budget(b: BucketState, es: seq<Event>)
    requires b.Valid() && NeverOverdraws(b, es)
    ensures Conserves(b, es)
    decreases |es|
  {
    if es != [] {
      hide Overdraws, Conserves, Apply;
      ApplyKeepsValid(b, es[0]);
      StepConservesIff(b, es[0]);
      RunOne(b, es[0]);
      Budget(Apply(b, es[0]), es[1..]);
      ConservesComposes(b, [es[0]], es[1..]);
      assert [es[0]] + es[1..] == es;
    } else {
      assert Gain(b.rate, 0) == 0.0;
    }
  }

  /** The calls from position i up to position j. */
  ghost predicate ConservesBetween(b: BucketState, es: seq<Event>, i: nat, j: nat)
    requires i <= j <= |es|
  {
    Conserves(Run(b, es[..i]), es[i..j])
  }

  lemma {:induction false} SuffixNeverOverdraws(b: BucketState, es: seq<Event>, i: nat)
    requires NeverOverdraws(b, es) && i <= |es|
    ensures NeverOverdraws(Run(b, es[..i]), es[i..])
    decreases i
  {
    if i > 0 {
      SuffixNeverOverdraws(Apply(b, es[0]), es[1..], i - 1);
      assert es[..i][1..] == es[1..][..i - 1] && es[i..] == es[1..][i - 1..];
    }
  }

  lemma {:induction false} PrefixNeverOverdraws(b: BucketState, es: seq<Event>, i: nat)
    requires NeverOverdraws(b, es) && i <= |es|
    ensures NeverOverdraws(b, es[..i])
    decreases i
  {
    if i > 0 {
      PrefixNeverOverdraws(Apply(b, es[0]), es[1..], i - 1);
      assert es[..i][1..] == es[1..][..i - 1];
    }
  }

  lemma {:induction false} SingleStepsNeverOverdraw(b: BucketState, es: seq<Event>)
    requires b.Valid() && forall i, j :: 0 <= i < j <= |es| ==> ConservesBetween(b, es, i, j)
    ensures NeverOverdraws(b, es)
    decreases |es|
  {
    hide Conserves, Overdraws, Apply;
    if es != [] {
      assert ConservesBetween(b, es, 0, 1) && es[..0] == [] && es[0..1] == [es[0]];
      StepConservesIff(b, es[0]);
      ApplyKeepsValid(b, es[0]);
      forall i, j | 0 <= i < j <= |es[1..]| ensures ConservesBetween(Apply(b, es[0]), es[1..], i, j) {
        assert ConservesBetween(b, es, i + 1, j + 1);
        assert es[..i + 1][1..] == es[1..][..i] && es[i + 1..j + 1] == es[1..][i..j];
      }
      SingleStepsNeverOverdraw(Apply(b, es[0]), es[1..]);
    }
  }

  /**
   The exact law: every stretch of a run conserves if and only if no drain in the run sets the clock
   back by more than the tokens it destroys are worth.
   */
  lemma BudgetIff(b: BucketState, es: seq<Event>)
    requires b.Valid()
    ensures (forall i, j :: 0 <= i <= j <= |es| ==> ConservesBetween(b, es, i, j)) <==> NeverOverdraws(b, es)
  {
    if NeverOverdraws(b, es) {
      forall i, j | 0 <= i <= j <= |es| ensures ConservesBetween(b, es, i, j) {
        SuffixNeverOverdraws(b, es, i);
        PrefixNeverOverdraws(Run(b, es[..i]), es[i..], j - i);
        assert es[i..][..j - i] == es[i..j];
        RunKeepsValid(b, es[..i]);
        Budget(Run(b, es[..i]), es[i..j]);
      }
    }
    if forall i, j :: 0 <= i <= j <= |es| ==> ConservesBetween(b, es, i, j) {
      SingleStepsNeverOverdraw(b, es);
    }
  }

  /** All calls read instants of the window. */
  predicate Within(es: seq<Event>, s: int, e: int) {
    forall x <- es :: s <= x.now <= e
  }

  lemma {:induction false} ClockStaysBelow(b: BucketState, es: seq<Event>, e: int)
    requires b.lastRefill <= e && forall x <- es :: x.now <= e
    ensures Run(b, es).lastRefill <= e
    decreases |es|
  {
    if es != [] { ClockStaysBelow(Apply(b, es[0]), es[1..], e); }
  }

  /** Refilling up to the start of the window first changes nothing. */
  lemma StartEquivalent(b: BucketState, es: seq<Event>, s: int)
    requires b.Valid() && b.lastRefill <= s && (es != [] ==> s <= es[0].now)
    ensures GrantedTokens(Refilled(b, s), es) == GrantedTokens(b, es)
    ensures NeverOverdraws(b, es) ==> NeverOverdraws(Refilled(b, s), es)
  {
    if es != [] {
      var r, e := Refilled(b, s), es[0];
      RefillKeepsValid(b, s);
      RefillComposes(b, s, e.now);
      assert Apply(r, e) == Apply(b, e);
      if e.op.Drain? {
        GainMonotone(b.rate, r.lastRefill - e.now, 0);
        assert Gain(b.rate, 0) == 0.0;
      }
    }
  }

  /**
   The window bound: whatever the bucket holds, all calls made at instants of [s, e] together are granted
   at most a full bucket plus what the rate earns from `s` to `e`, also on a clock that jumps about in the
   window, as long as no drain overdraws.
   */
  lemma WindowBound(b: BucketState, es: seq<Event>, s: int, e: int)
    requires b.Valid() && b.lastRefill <= s <= e
    requires Within(es, s, e) && NeverOverdraws(b, es)
    ensures GrantedTokens(b, es) <= b.bucketSize + Gain(b.rate, e - s)
  {
    var r := Refilled(b, s);
    RefillKeepsValid(b, s);
    StartEquivalent(b, es, s);
    Budget(r, es);
    RunKeepsValid(r, es);
    ClockStaysBelow(r, es, e);
    GainMonotone(b.rate, Run(r, es).lastRefill - r.lastRefill, e - s);
  }

  /** Without drains it holds on every clock. */
  lemma WindowBoundWithoutDrains(b: BucketState, es: seq<Event>, s: int, e: int)
    requires b.Valid() && b.lastRefill <= s <= e
    requires Within(es, s, e) && forall x <- es :: !x.op.Drain?
    ensures GrantedTokens(b, es) <= b.bucketSize + Gain(b.rate, e - s)
  {
    WithoutDrainsAnyClockWillDo(b, es);
    NoDrainInThePastNeverOverdraws(b, es);
    WindowBound(b, es, s, e);
  }

  /** With drains it holds on every clock that does not step back. */
  lemma WindowBoundOnMonotoneClock(b: BucketState, es: seq<Event>, s: int, e: int)
    requires b.Valid() && b.lastRefill <= s <= e
    requires Monotone(s, es) && forall x <- es :: x.now <= e
    ensures GrantedTokens(b, es) <= b.bucketSize + Gain(b.rate, e - s)
  {
    MonotoneStaysAbove(s, es);
    MonotoneMeansNoDrainInThePast(b, s, es);
    NoDrainInThePastNeverOverdraws(b, es);
    WindowBound(b, es, s, e);
  }

  lemma {:induction false} MonotoneStaysAbove(from: int, es: seq<Event>)
    requires Monotone(from, es)
    ensures forall x <- es :: from <= x.now
    decreases |es|
  {
    if es != [] { MonotoneStaysAbove(es[0].now, es[1..]); }
  }

  /** The tokens handed out by those calls of the run that read instants of [s, e]. */
  function GrantedIn(b: BucketState, es: seq<Event>, s: int, e: int): real
    decreases |es|
  {
    if es == [] then 0.0
    else (if Granted(b, es[0]) && s <= es[0].now <= e then Charge(es[0].op.count) else 0.0)
         + GrantedIn(Apply(b, es[0]), es[1..], s, e)
  }

  lemma {:induction false} NothingAfterTheWindow(b: BucketState, es: seq<Event>, from: int, s: int, e: int)
    requires Monotone(from, es) && e < from
    ensures GrantedIn(b, es, s, e) == 0.0
    decreases |es|
  {
    if es != [] { NothingAfterTheWindow(Apply(b, es[0]), es[1..], es[0].now, s, e); }
  }

  /** From the first call of the window on, the calls of the window are a prefix of the run. */
  lemma {:induction false} WindowIsPrefix(b: BucketState, es: seq<Event>, from: int, s: int, e: int) returns (j: nat)
    requires Monotone(from, es) && s <= from
    ensures j <= |es| && Monotone(from, es[..j]) && (forall x <- es[..j] :: x.now <= e)
    ensures GrantedIn(b, es, s, e) == GrantedTokens(b, es[..j])
    decreases |es|
  {
    if es == [] {
      j := 0;
    } else if es[0].now > e {
      NothingAfterTheWindow(Apply(b, es[0]), es[1..], es[0].now, s, e);
      j := 0;
    } else {
      var i := WindowIsPrefix(Apply(b, es[0]), es[1..], es[0].now, s, e);
      j := i + 1;
      assert es[..j] == [es[0]] + es[1..][..i] && es[..j][1..] == es[1..][..i];
    }
  }

  /** The window bound for any window inside a longer run, on a clock that does not step back. */
  lemma {:induction false} WindowInsideRun(b: BucketState, es: seq<Event>, from: int, s: int, e: int)
    requires b.Valid() && b.lastRefill <= from && Monotone(from, es) && s <= e
    ensures GrantedIn(b, es, s, e) <= b.bucketSize + Gain(b.rate, e - s)
    decreases |es|
  {
    GainNonNegative(b.rate, e - s);
    if es != [] {
      var first := es[0].now;
      ApplyKeepsValid(b, es[0]);
      if first < s {
        WindowInsideRun(Apply(b, es[0]), es[1..], first, s, e);
      } else if first <= e {
        assert Monotone(first, es);
        var j := WindowIsPrefix(b, es, first, s, e);
        WindowBoundOnMonotoneClock(b, es[..j], first, e);
        GainMonotone(b.rate, e - first, e - s);
      } else {
        NothingAfterTheWindow(Apply(b, es[0]), es[1..], first, s, e);
      }
    }
  }

  // ---------------------------------------------------------------- what each number of an answer means

  /**
   One call, to the token: a count of zero or less costs one token and any other count costs itself; the call is
   granted exactly if the refilled bucket holds that much, and a refused call costs nothing and reports none left.
   */
  lemma ConsumeCosts(b: BucketState, count: real, now: int)
    requires b.Valid()
    ensures var r := Refilled(b, now);
            var cost := if count <= 0.0 then 1.0 else count;
            && (ConsumeOutcome(b, count, now).allowed <==> cost <= r.tokens)
            && GrantedTokens(b, [Event(Consume(count), now)]) == (if cost <= r.tokens then cost else 0.0)
            && Consumed(b, count, now).tokens + GrantedTokens(b, [Event(Consume(count), now)]) == r.tokens
            && Consumed(b, count, now).lastRefill == r.lastRefill
            && (cost > r.tokens ==> ConsumeOutcome(b, count, now).remaining == 0)
  {
    RunOne(b, Event(Consume(count), now));
  }

  /** A new bucket has the given parameters and grants, at once, exactly what fits into it. */
  lemma NewBucketIsFull(rate: real, size: real, now: int, count: real)
    requires rate > 0.0 && size > 0.0 && count > 0.0
    ensures var b := NewBucket(rate, size, now);
            && b.Valid() && b.rate == rate && b.bucketSize == size
            && (Granted(b, Event(Consume(count), now)) <==> count <= size)
  {
  }

  /** `getSecondsUntilRefill` is the least whole number of seconds after which one token can be had. */
  lemma SecondsUntilRefillIsLeast(b: BucketState, now: int, wait: nat)
    requires b.Valid() && b.lastRefill <= now
    ensures Granted(Refilled(b, now), Event(Consume(1.0), now + 1000 * wait))
            <==> 1.0 <= b.bucketSize && SecondsUntilRefill(b, now) <= wait
    ensures 0 <= SecondsUntilRefill(b, now)
  {
    var r := Refilled(b, now);
    assert r.lastRefill == now && r.rate == b.rate && r.bucketSize == b.bucketSize;
    RefillKeepsValid(b, now);
    RefilledAfterSeconds(r, wait);
    assert Granted(r, Event(Consume(1.0), now + 1000 * wait)) <==> Refilled(r, now + 1000 * wait).tokens >= 1.0;
    hide Refilled, Gain, Earned, Granted, Ceil;
    SecondsToOne(r.tokens, r.rate, wait);
  }

  lemma SecondsToOne(tokens: real, rate: real, wait: nat)
    requires rate > 0.0
    ensures tokens >= 1.0 ==> 0.0 <= Earned(rate, wait)
    ensures tokens < 1.0 ==> 0 <= Ceil((1.0 - tokens) / rate)
                             && (1.0 - tokens <= Earned(rate, wait) <==> Ceil((1.0 - tokens) / rate) <= wait)
  {
    CeilQuotient(1.0 - tokens, rate, wait);
    CeilQuotient(1.0 - tokens, rate, -1);
  }

  /** `consume` of a whole count would be granted. */
  predicate GrantsWhole(b: BucketState, k: int, now: int) {
    Granted(b, Event(Consume(k as real), now))
  }

  /** `getRemaining` is the largest whole count that this instant grants. */
  lemma GetRemainingIsLargest(b: BucketState, now: int, k: int)
    requires b.Valid() && k > 0
    ensures GrantsWhole(b, k, now) <==> k <= Remaining(b, now)
    ensures 0 <= Remaining(b, now)
  {
    RefillKeepsValid(b, now);
  }

  // ---------------------------------------------------------------- polling

  /** Two buckets that no caller can tell apart from the instant `t` on. */
  ghost predicate SameFrom(b: BucketState, c: BucketState, t: int) {
    b.Valid() && c.Valid() && b.lastRefill <= t && c.lastRefill <= t && Refilled(b, t) == Refilled(c, t)
  }

  datatype Answer = Answered(result: ConsumeResult) | Number(n: int) | Silent

  function AnswerOf(b: BucketState, e: Event): Answer
    requires b.Valid()
  {
    match e.op
    case Consume(n) => Answered(ConsumeOutcome(b, n, e.now))
    case Drain => Silent
    case GetRemaining => Number(Remaining(b, e.now))
    case GetSecondsUntilRefill => Number(SecondsUntilRefill(b, e.now))
  }

  function Answers(b: BucketState, es: seq<Event>): seq<Answer>
    requires b.Valid()
    decreases |es|
  {
    if es == [] then []
    else
      ApplyKeepsValid(b, es[0]);
      [AnswerOf(b, es[0])] + Answers(Apply(b, es[0]), es[1..])
  }

  lemma SameFromLater(b: BucketState, c: BucketState, t: int, u: int)
    requires SameFrom(b, c, t) && t <= u
    ensures SameFrom(b, c, u)
  {
    RefillComposes(b, t, u);
    RefillComposes(c, t, u);
  }

  lemma {:induction false} SameOutcomes(b: BucketState, c: BucketState, t: int, es: seq<Event>)
    requires SameFrom(b, c, t) && Monotone(t, es)
    ensures Answers(b, es) == Answers(c, es) && GrantedTokens(b, es) == GrantedTokens(c, es)
    decreases |es|
  {
    if es != [] {
      var e := es[0];
      SameFromLater(b, c, t, e.now);
      ApplyKeepsValid(b, e);
      ApplyKeepsValid(c, e);
      assert Refilled(b, e.now).lastRefill == Refilled(c, e.now).lastRefill;
      SameOutcomes(Apply(b, e), Apply(c, e), e.now, es[1..]);
    }
  }

  /** Calls that only look: the two queries, and a `consume` that is refused. */
  predicate IsPoll(b: BucketState, e: Event) {
    !e.op.Drain? && !Granted(b, e)
  }

  predicate AllPolls(b: BucketState, es: seq<Event>)
    decreases |es|
  {
    es == [] || (IsPoll(b, es[0]) && AllPolls(Apply(b, es[0]), es[1..]))
  }

  lemma {:induction false} PollsLeaveTheBucket(b: BucketState, from: int, polls: seq<Event>, t: int)
    requires b.Valid() && b.lastRefill <= from <= t
    requires Monotone(from, polls) && AllPolls(b, polls) && (forall e <- polls :: e.now <= t)
    ensures SameFrom(Run(b, polls), b, t)
    decreases |polls|
  {
    if polls != [] {
      var e := polls[0];
      RefillKeepsValid(b, e.now);
      assert Apply(b, e) == Refilled(b, e.now);
      PollsLeaveTheBucket(Apply(b, e), e.now, polls[1..], t);
      RefillComposes(b, e.now, t);
    }
  }

  /**
   Polling is harmless: any number of queries and refused calls put before a run changes no
   answer and no grant of that run.
   */
  lemma PollingIsHarmless(b: BucketState, from: int, polls: seq<Event>, rest: seq<Event>)
    requires b.Valid() && b.lastRefill <= from
    requires Monotone(from, polls + rest) && AllPolls(b, polls)
    ensures Run(b, polls).Valid()
    ensures Answers(Run(b, polls), rest) == Answers(b, rest)
    ensures GrantedTokens(b, polls + rest) == GrantedTokens(b, rest)
  {
    var t := if polls == [] then from else polls[|polls| - 1].now;
    MonotoneSplits(from, polls, rest);
    PollsLeaveTheBucket(b, from, polls, t);
    SameOutcomes(Run(b, polls), b, t, rest);
    RunSplits(b, polls, rest);
    PollsGrantNothing(b, polls);
  }

  lemma {:induction false} PollsGrantNothing(b: BucketState, polls: seq<Event>)
    requires AllPolls(b, polls)
    ensures GrantedTokens(b, polls) == 0.0
    decreases |polls|
  {
    if polls != [] { PollsGrantNothing(Apply(b, polls[0]), polls[1..]); }
  }

  lemma {:induction false} MonotoneSplits(from: int, xs: seq<Event>, ys: seq<Event>)
    requires Monotone(from, xs + ys)
    ensures var t := if xs == [] then from else xs[|xs| - 1].now;
            from <= t && Monotone(from, xs) && Monotone(t, ys) && (forall e <- xs :: e.now <= t)
    decreases |xs|
  {
    if xs == [] {
      assert xs + ys == ys;
    } else {
      assert (xs + ys)[1..] == xs[1..] + ys;
      MonotoneSplits(xs[0].now, xs[1..], ys);
    }
  }

  /**
   Why drains need the clock: a drain that reads an earlier instant lets the bucket earn the same span of
   time twice. The whole run then hands out two tokens in one instant, from a bucket that holds one.
   */
  lemma DrainInThePastBreaksTheBudget()
    ensures var b := BucketState(1.0, 1.0, 1.0, 1000);
            var es := [Event(Consume(1.0), 1000), Event(Drain, 0), Event(Consume(1.0), 1000)];
            b.Valid() && GrantedTokens(b, es) == 2.0 && !Conserves(b, es) && !NeverOverdraws(b, es)
  {
    var b := BucketState(1.0, 1.0, 1.0, 1000);
    var es := [Event(Consume(1.0), 1000), Event(Drain, 0), Event(Consume(1.0), 1000)];
    var b1 := Apply(b, es[0]);
    assert b1 == BucketState(1.0, 1.0, 0.0, 1000);
    var b2 := Apply(b1, es[1]);
    assert b2 == BucketState(1.0, 1.0, 0.0, 0);
    assert Gain(1.0, 1000) == 1.0;
    var b3 := Apply(b2, es[2]);
    assert b3 == BucketState(1.0, 1.0, 0.0, 1000);
    assert es[1..] == [es[1], es[2]] && es[1..][1..] == [es[2]] && [es[2]][1..] == [];
    assert Run(b2, [es[2]]) == b3 && GrantedTokens(b2, [es[2]]) == 1.0;
    assert Gain(1.0, 0) == 0.0;
    assert Run(b1, es[1..]) == b3 && GrantedTokens(b1, es[1..]) == 1.0;
  }

  /** Inside one window too: three tokens in [0, 1000], where a full bucket plus the earnings are two. */
  lemma DrainsInThePastBreakTheWindow()
    ensures var b := BucketState(1.0, 1.0, 1.0, 0);
            var consume, drain := Event(Consume(1.0), 1000), Event(Drain, 0);
            var es := [consume, drain, consume, drain, consume];
            b.Valid() && Within(es, 0, 1000) && GrantedTokens(b, es) == 3.0 && b.bucketSize + Gain(b.rate, 1000) == 2.0
  {
    var b := BucketState(1.0, 1.0, 1.0, 0);
    var consume, drain := Event(Consume(1.0), 1000), Event(Drain, 0);
    var once := [consume, drain];
    var empty := Apply(b, consume);
    assert Gain(1.0, 1000) == 1.0;
    assert empty == BucketState(1.0, 1.0, 0.0, 1000);
    var back := Apply(empty, drain);
    assert back == BucketState(1.0, 1.0, 0.0, 0) && Apply(back, consume) == empty;
    RunOne(b, consume);
    RunOne(back, consume);
    RunOne(empty, drain);
    RunSplits(b, [consume], [drain]);
    RunSplits(back, [consume], [drain]);
    assert [consume] + [drain] == once;
    RunSplits(back, once, [consume]);
    RunSplits(b, once, once + [consume]);
    assert once + (once + [consume]) == [consume, drain, consume, drain, consume];
  }
}
