/**
 The budget of one key over whole runs of the gatekeeper (`src/durable-object.ts`): how much the
 per-key check can let through while the key keeps its entry in the map, and what losing it gives.
 */
module PerKeyBudget {
  import opened Prelude
  import opened TokenBuckets
  import opened Gatekeeper
  import C = ConfigRegistry
  import K = KeyStore

  /** The row has both fields that a limit of class `k` needs. */
  predicate OwnLimit(row: K.ApiKey, k: RateClass) {
    if k.Bulk? then row.bulkRate.Some? && row.bulkBucket.Some? else row.singleRate.Some? && row.singleBucket.Some?
  }

  predicate HasLimit(s: State, id: string, k: RateClass) {
    id in s.iam.table && OwnLimit(s.iam.table[id], k)
  }

  lemma HasLimitIff(s: State, id: string, k: RateClass)
    ensures HasLimit(s, id, k) <==> Limited(s, id, k)
  {
  }

  /** The step is a check of class `k` for this key, which has a limit of that class. */
  predicate Checks(s: State, a: Action, id: string, k: RateClass) {
    a.CheckPerKey? && a.id == id && a.rateClass == k && HasLimit(s, id, k)
  }

  /** The check lets the purge go on. */
  ghost predicate Passes(s: State, env: C.Env, a: Action)
    requires Sound(s) && a.CheckPerKey?
  {
    CheckOutcome(s, env, a.id, a.rateClass, a.tokens, a.now) == None
  }

  lemma InvIsSound(s: State, env: C.Env)
    requires Inv(s, env)
    ensures Sound(s)
  {
    forall e | e in s.keyBuckets ensures e.bulk.Valid() && e.single.Valid() { assert Fits(e, s, env); }
  }

  /** A key with a limit passes exactly when its bucket grants the charge. */
  lemma PassesIff(s: State, env: C.Env, a: Action)
    requires Sound(s) && a.CheckPerKey? && HasLimit(s, a.id, a.rateClass)
    ensures BucketFor(BucketsOf(s, env, a.id, a.now), a.rateClass).Valid()
    ensures Passes(s, env, a)
            <==> Granted(BucketFor(BucketsOf(s, env, a.id, a.now), a.rateClass), Event(Consume(a.tokens), a.now))
  {
    CheckKeepsSound(s, env, a.id, a.rateClass, a.tokens, a.now);
  }

  // ---------------------------------------------------------------- what limits a key, from the fields of its row

  /** A key with no row, or without one of the two fields of the class, is never refused and gets no entry. */
  lemma UnlimitedKeysPass(s: State, env: C.Env, id: string, k: RateClass, tokens: real, now: int)
    requires Sound(s) && (id in s.iam.table ==>
                            var row := s.iam.table[id];
                            if k.Bulk? then row.bulkRate.None? || row.bulkBucket.None?
                            else row.singleRate.None? || row.singleBucket.None?)
    ensures CheckOutcome(s, env, id, k, tokens, now) == None
    ensures AfterCheck(s, env, id, k, tokens, now) == s
  {
  }

  /** The first check of a key that has both fields passes exactly if the charge fits into the bucket of its row. */
  lemma WithoutEntryStartsFull(s: State, env: C.Env, id: string, tokens: real, now: int)
    requires Sound(s) && id in s.iam.table && !HasEntry(s.keyBuckets, id)
    ensures var row := s.iam.table[id]; var cost := if tokens <= 0.0 then 1.0 else tokens;
            && (row.bulkRate.Some? && row.bulkBucket.Some? ==>
                  (CheckOutcome(s, env, id, Bulk, tokens, now) == None <==> cost <= row.bulkBucket.value))
            && (row.singleRate.Some? && row.singleBucket.Some? ==>
                  (CheckOutcome(s, env, id, Single, tokens, now) == None <==> cost <= row.singleBucket.value))
  {
  }

  /** The buckets that the check finds, and the one it leaves in the entry. */
  lemma CheckedEntry(s: State, env: C.Env, id: string, k: RateClass, tokens: real, now: int)
    requires LruOk(s.keyBuckets, s.uses) && HasLimit(s, id, k)
    ensures var s' := AfterCheck(s, env, id, k, tokens, now);
            && HasEntry(s'.keyBuckets, id) && HasLimit(s', id, k)
            && BucketFor(Entry(s'.keyBuckets, id), k)
               == Consumed(BucketFor(BucketsOf(s, env, id, now), k), tokens, now)
  {
    var s' := AfterCheck(s, env, id, k, tokens, now);
    var m' := s'.keyBuckets;
    assert m'[|m'| - 1].id == id;
    if HasEntry(s.keyBuckets, id) {
      WithoutKeeps(s.keyBuckets, id, Entry(m', id));
    } else {
      assert forall x <- Others(s, id) :: x in s.keyBuckets;
      assert forall x <- s.keyBuckets :: x.id != id;
    }
    assert Entry(m', id) == m'[|m'| - 1];
  }

  /**
   What a refusal of the per-key check says, in every reachable state: 429, not collapsed, nothing sent upstream,
   nothing left; the rate and size of the key's row; and as wait the least number of seconds after which the same
   check of an otherwise idle key passes, if the charge fits into the bucket at all.
   */
  lemma RefusalOfCheck(s: State, env: C.Env, id: string, k: RateClass, tokens: real, now: int, wait: nat)
    requires Inv(s, env) && Sound(s) && CheckOutcome(s, env, id, k, tokens, now).Some?
    requires HasEntry(s.keyBuckets, id) ==> BucketFor(Entry(s.keyBuckets, id), k).lastRefill <= now
    ensures id in s.iam.table && OwnLimit(s.iam.table[id], k) && Sound(AfterCheck(s, env, id, k, tokens, now))
    ensures var r := CheckOutcome(s, env, id, k, tokens, now).value; var row := s.iam.table[id];
            && r.status == 429 && !r.collapsed && !r.reachedUpstream && r.remaining == 0
            && (k.Bulk? ==> r.rate == row.bulkRate.value && r.bucketSize == row.bulkBucket.value)
            && (k.Single? ==> r.rate == row.singleRate.value && r.bucketSize == row.singleBucket.value)
            && r.secondsUntilRefill.Some?
            && (CheckOutcome(AfterCheck(s, env, id, k, tokens, now), env, id, k, tokens, now + 1000 * wait) == None
                <==> (if tokens <= 0.0 then 1.0 else tokens) <= r.bucketSize
                     && r.secondsUntilRefill.value <= wait as real)
  {
    hide *;
    RefusalIsOf(s, env, id, k, tokens, now);
    CheckKeepsSound(s, env, id, k, tokens, now);
    FoundBucketHasLimit(s, env, id, k, now);
    RefusedAgain(BucketFor(BucketsOf(s, env, id, now), k), tokens, now, wait);
    CheckedAgain(s, env, id, k, tokens, now, now + 1000 * wait);
  }

  /** The next check finds the bucket that this one leaves. */
  lemma CheckedAgain(s: State, env: C.Env, id: string, k: RateClass, tokens: real, now: int, later: int)
    requires Inv(s, env) && Sound(s) && HasLimit(s, id, k) && Sound(AfterCheck(s, env, id, k, tokens, now))
    ensures CheckOutcome(AfterCheck(s, env, id, k, tokens, now), env, id, k, tokens, later) == None
            <==> Granted(Consumed(BucketFor(BucketsOf(s, env, id, now), k), tokens, now), Event(Consume(tokens), later))
  {
    assert LruOk(s.keyBuckets, s.uses) by { InvHasOrder(s, env); }
    CheckedEntry(s, env, id, k, tokens, now);
    hide Inv, Sound, HasEntry, Entry, AfterCheck, Limited, HasLimit, CheckOutcome, LruOk, Consumed, Granted;
    PassesIff(AfterCheck(s, env, id, k, tokens, now), env, CheckPerKey(id, k, tokens, later));
  }

  /** The refusal is built from the bucket that refused. */
  lemma RefusalIsOf(s: State, env: C.Env, id: string, k: RateClass, tokens: real, now: int)
    requires Sound(s) && CheckOutcome(s, env, id, k, tokens, now).Some?
    ensures HasLimit(s, id, k) && id in s.iam.table && OwnLimit(s.iam.table[id], k)
    ensures var r, b := CheckOutcome(s, env, id, k, tokens, now).value, BucketFor(BucketsOf(s, env, id, now), k);
            && r.status == 429 && !r.collapsed && !r.reachedUpstream && r.rate == b.rate && r.bucketSize == b.bucketSize
            && b.Valid() && !ConsumeOutcome(b, tokens, now).allowed
            && r.remaining == ConsumeOutcome(b, tokens, now).remaining
            && r.secondsUntilRefill == Some(ConsumeOutcome(b, tokens, now).retryAfterSec as real)
  {
    CheckKeepsSound(s, env, id, k, tokens, now);
    hide Sound, HasEntry, Entry, BucketsOf;
  }

  lemma FoundBucketHasLimit(s: State, env: C.Env, id: string, k: RateClass, now: int)
    requires Inv(s, env) && HasLimit(s, id, k)
    ensures var b, row := BucketFor(BucketsOf(s, env, id, now), k), s.iam.table[id];
            && (k.Bulk? ==> b.rate == row.bulkRate.value && b.bucketSize == row.bulkBucket.value)
            && (k.Single? ==> b.rate == row.singleRate.value && b.bucketSize == row.singleBucket.value)
            && (if HasEntry(s.keyBuckets, id) then b == BucketFor(Entry(s.keyBuckets, id), k) else b.lastRefill == now)
  {
    if HasEntry(s.keyBuckets, id) { EntryHasLimit(s, env, id, k); }
  }

  lemma RefusedAgain(b: BucketState, tokens: real, now: int, wait: nat)
    requires b.Valid() && b.lastRefill <= now && !ConsumeOutcome(b, tokens, now).allowed
    ensures ConsumeOutcome(b, tokens, now).remaining == 0
    ensures Granted(Consumed(b, tokens, now), Event(Consume(tokens), now + 1000 * wait))
            <==> (if tokens <= 0.0 then 1.0 else tokens) <= b.bucketSize
                 && ConsumeOutcome(b, tokens, now).retryAfterSec <= wait
  {
    assert Charge(Charge(tokens)) == Charge(tokens);
    RetryAfterIsLeast(b, Charge(tokens), now, wait);
  }

  // ---------------------------------------------------------------- runs

  /** Tokens that the checks of class `k` let through for this key. */
  ghost function PassedTokens(s: State, env: C.Env, acts: seq<Action>, id: string, k: RateClass): real
    requires Inv(s, env) && Runs(s, env, acts)
    decreases |acts|
  {
    if acts == [] then 0.0
    else
      InvIsSound(s, env);
      StepKeepsInv(s, env, acts[0]);
      (if Checks(s, acts[0], id, k) && Passes(s, env, acts[0]) then Charge(acts[0].tokens) else 0.0)
      + PassedTokens(Next(s, env, acts[0]), env, acts[1..], id, k)
  }

  /** What the run does to the key's bucket of class `k`. */
  function KeyEvents(s: State, env: C.Env, acts: seq<Action>, id: string, k: RateClass): seq<Event>
    decreases |acts|
  {
    if acts == [] then []
    else (if Checks(s, acts[0], id, k) then [Event(Consume(acts[0].tokens), acts[0].now)] else [])
         + KeyEvents(Next(s, env, acts[0]), env, acts[1..], id, k)
  }

  /** The key has its entry before and after every step. */
  predicate Stays(s: State, env: C.Env, acts: seq<Action>, id: string)
    decreases |acts|
  {
    HasEntry(s.keyBuckets, id) && (acts == [] || Stays(Next(s, env, acts[0]), env, acts[1..], id))
  }

  lemma OnlyEntry(m: seq<KeyBuckets>, uses: seq<string>, e: KeyBuckets, f: KeyBuckets)
    requires LruOk(m, uses) && e in m && f in m && e.id == f.id
    ensures e == f
  {
  }

  /** A check of one key leaves the entries of the others, if it leaves them their places. */
  lemma CheckOfAnother(s: State, env: C.Env, a: Action, id: string)
    requires LruOk(s.keyBuckets, s.uses) && HasEntry(s.keyBuckets, id) && HasEntry(Next(s, env, a).keyBuckets, id)
    requires a.CheckPerKey? && a.id != id
    ensures Entry(Next(s, env, a).keyBuckets, id) == Entry(s.keyBuckets, id)
  {
    hide Rebuilt, NewBucket, C.Resolve, Refilled, Limited;
    var m, e' := s.keyBuckets, Entry(Next(s, env, a).keyBuckets, id);
    if Limited(s, a.id, a.rateClass) {
      assert e' in Others(s, a.id);
      if HasEntry(m, a.id) { WithoutKeeps(m, a.id, e'); }
      assert e' in m;
    }
    OnlyEntry(m, s.uses, Entry(m, id), e');
  }

  lemma CheckOfItself(s: State, env: C.Env, a: Action, k: RateClass)
    requires LruOk(s.keyBuckets, s.uses) && a.CheckPerKey? && HasEntry(s.keyBuckets, a.id)
    requires HasEntry(Next(s, env, a).keyBuckets, a.id)
    ensures BucketFor(Entry(Next(s, env, a).keyBuckets, a.id), k)
            == if a.rateClass == k && Limited(s, a.id, k)
               then Apply(BucketFor(Entry(s.keyBuckets, a.id), k), Event(Consume(a.tokens), a.now))
               else BucketFor(Entry(s.keyBuckets, a.id), k)
  {
    hide Rebuilt, NewBucket, C.Resolve, Refilled, K.EffectiveLimit;
    if Limited(s, a.id, a.rateClass) {
      assert Entry(Next(s, env, a).keyBuckets, a.id) !in Others(s, a.id);
    }
  }

  /** A step that leaves the entry changes it only by the check it makes, whatever moves around it. */
  lemma StepOnEntry(s: State, env: C.Env, a: Action, id: string, k: RateClass)
    requires LruOk(s.keyBuckets, s.uses) && HasEntry(s.keyBuckets, id) && HasEntry(Next(s, env, a).keyBuckets, id)
    ensures BucketFor(Entry(Next(s, env, a).keyBuckets, id), k)
            == if Checks(s, a, id, k) then Apply(BucketFor(Entry(s.keyBuckets, id), k), Event(Consume(a.tokens), a.now))
               else BucketFor(Entry(s.keyBuckets, id), k)
  {
    hide Next;
    HasLimitIff(s, id, k);
    hide HasLimit, Limited;
    if a.CheckPerKey? && a.id == id {
      CheckOfItself(s, env, a, k);
    } else if a.CheckPerKey? {
      CheckOfAnother(s, env, a, id);
    } else {
      EntriesComeFromBefore(s, env, a, Entry(Next(s, env, a).keyBuckets, id));
      OnlyEntry(s.keyBuckets, s.uses, Entry(s.keyBuckets, id), Entry(Next(s, env, a).keyBuckets, id));
    }
  }

  /** One step as the entry's bucket sees it. */
  lemma EntryStep(s: State, env: C.Env, a: Action, id: string, k: RateClass)
    requires Inv(s, env) && Sound(s) && HasEntry(s.keyBuckets, id) && HasEntry(Next(s, env, a).keyBuckets, id)
    ensures var b, b' := BucketFor(Entry(s.keyBuckets, id), k), BucketFor(Entry(Next(s, env, a).keyBuckets, id), k);
            if Checks(s, a, id, k) then
              var e := Event(Consume(a.tokens), a.now);
              b' == Apply(b, e) && (Passes(s, env, a) <==> Granted(b, e))
            else b' == b
  {
    InvHasOrder(s, env);
    StepOnEntry(s, env, a, id, k);
    hide Inv, Sound, Next, HasEntry, Entry, Limited, HasLimit, CheckOutcome, Passes, Granted, Apply;
    if Checks(s, a, id, k) { PassesIff(s, env, a); }
  }

  /** The bucket of a key that keeps its entry makes a run of its own, which grants what the checks let through. */
  lemma {:induction false} EntryRuns(s: State, env: C.Env, acts: seq<Action>, id: string, k: RateClass)
    requires Inv(s, env) && Runs(s, env, acts) && Stays(s, env, acts, id)
    ensures var b, es := BucketFor(Entry(s.keyBuckets, id), k), KeyEvents(s, env, acts, id, k);
            PassedTokens(s, env, acts, id, k) == GrantedTokens(b, es)
    decreases |acts|
  {
    hide Inv, Legal, Harmless, Next, Sound, Passes, Granted, Apply, BucketFor, Entry, HasEntry, HasLimit;
    if acts != [] {
      var a, s1 := acts[0], Next(s, env, acts[0]);
      StepKeepsInv(s, env, a);
      InvIsSound(s, env);
      EntryStep(s, env, a, id, k);
      EntryRuns(s1, env, acts[1..], id, k);
      var b, rest := BucketFor(Entry(s.keyBuckets, id), k), KeyEvents(s1, env, acts[1..], id, k);
      if Checks(s, a, id, k) {
        var e := Event(Consume(a.tokens), a.now);
        assert ([e] + rest)[1..] == rest;
      } else {
        assert [] + rest == rest;
      }
    }
  }

  lemma InvHasOrder(s: State, env: C.Env)
    requires Inv(s, env)
    ensures LruOk(s.keyBuckets, s.uses)
  {
  }

  lemma {:induction false} KeyEventsAreCharges(s: State, env: C.Env, acts: seq<Action>, id: string, k: RateClass)
    ensures forall e <- KeyEvents(s, env, acts, id, k) :: e.op.Consume?
    decreases |acts|
  {
    hide Next, Checks;
    if acts != [] { KeyEventsAreCharges(Next(s, env, acts[0]), env, acts[1..], id, k); }
  }

  /**
   On a clock that may jump about: while a key keeps its entry and all its checks read instants of
   [from, to], they let through at most a full bucket plus what the key's own rate earns from `from` to `to`,
   however the checks of other keys, authorizations, configuration and key calls interleave.
   Size and rate are those of the key's row.
   */
  lemma KeyBoundOnAnyClock(s: State, env: C.Env, acts: seq<Action>, id: string, k: RateClass, from: int, to: int)
    requires Inv(s, env) && Runs(s, env, acts) && Stays(s, env, acts, id) && HasLimit(s, id, k)
    requires BucketFor(Entry(s.keyBuckets, id), k).lastRefill <= from <= to
    requires Within(KeyEvents(s, env, acts, id, k), from, to)
    ensures var row, passed := s.iam.table[id], PassedTokens(s, env, acts, id, k);
            && (k.Bulk? ==> passed <= row.bulkBucket.value + Gain(row.bulkRate.value, to - from))
            && (k.Single? ==> passed <= row.singleBucket.value + Gain(row.singleRate.value, to - from))
  {
    EntryRuns(s, env, acts, id, k);
    KeyEventsAreCharges(s, env, acts, id, k);
    assert Fits(Entry(s.keyBuckets, id), s, env);
    WindowBoundWithoutDrains(BucketFor(Entry(s.keyBuckets, id), k), KeyEvents(s, env, acts, id, k), from, to);
  }

  // ---------------------------------------------------------------- any window inside a longer run

  /** Tokens that the checks of class `k` at instants of [from, to] let through for this key. */
  ghost function PassedIn(s: State, env: C.Env, acts: seq<Action>, id: string, k: RateClass, from: int, to: int): real
    requires Inv(s, env) && Runs(s, env, acts)
    decreases |acts|
  {
    if acts == [] then 0.0
    else
      InvIsSound(s, env);
      StepKeepsInv(s, env, acts[0]);
      (if Checks(s, acts[0], id, k) && from <= acts[0].now <= to && Passes(s, env, acts[0])
       then Charge(acts[0].tokens) else 0.0)
      + PassedIn(Next(s, env, acts[0]), env, acts[1..], id, k, from, to)
  }

  /** No step takes the key's entry away; it may be made during the run. */
  predicate NeverLoses(s: State, env: C.Env, acts: seq<Action>, id: string)
    decreases |acts|
  {
    acts == [] || ((HasEntry(s.keyBuckets, id) ==> HasEntry(Next(s, env, acts[0]).keyBuckets, id))
                   && NeverLoses(Next(s, env, acts[0]), env, acts[1..], id))
  }

  /** The clock does not step back from check to check of this key, starting no earlier than `t`. */
  predicate ChecksForward(acts: seq<Action>, id: string, t: int) {
    acts == []
    || (if acts[0].CheckPerKey? && acts[0].id == id then t <= acts[0].now && ChecksForward(acts[1..], id, acts[0].now)
        else ChecksForward(acts[1..], id, t))
  }

  lemma {:induction false} EventsForward(s: State, env: C.Env, acts: seq<Action>, id: string, k: RateClass, t: int)
    requires ChecksForward(acts, id, t)
    ensures Monotone(t, KeyEvents(s, env, acts, id, k))
    decreases |acts|
  {
    hide Next;
    if acts != [] {
      var a, rest := acts[0], KeyEvents(Next(s, env, acts[0]), env, acts[1..], id, k);
      if a.CheckPerKey? && a.id == id {
        EventsForward(Next(s, env, a), env, acts[1..], id, k, a.now);
        assert Checks(s, a, id, k) ==> ([Event(Consume(a.tokens), a.now)] + rest)[1..] == rest;
        LaterStart(t, a.now, rest);
      } else {
        EventsForward(Next(s, env, a), env, acts[1..], id, k, t);
      }
      assert [] + rest == rest;
    }
  }

  lemma LaterStart(t: int, u: int, es: seq<Event>)
    requires t <= u && Monotone(u, es)
    ensures Monotone(t, es)
  {
  }

  lemma {:induction false} KeepsWhatItHas(s: State, env: C.Env, acts: seq<Action>, id: string)
    requires NeverLoses(s, env, acts, id) && HasEntry(s.keyBuckets, id)
    ensures Stays(s, env, acts, id) && HasEntry(End(s, env, acts).keyBuckets, id)
    decreases |acts|
  {
    hide Next, HasEntry;
    if acts != [] { KeepsWhatItHas(Next(s, env, acts[0]), env, acts[1..], id); }
  }

  /** The entry's bucket runs through the key's own checks, and what they let through is what it grants. */
  lemma {:induction false} EntryRunsIn(s: State, env: C.Env, acts: seq<Action>, id: string, k: RateClass,
                                       from: int, to: int)
    requires Inv(s, env) && Runs(s, env, acts) && Stays(s, env, acts, id) && HasEntry(End(s, env, acts).keyBuckets, id)
    ensures var b, es := BucketFor(Entry(s.keyBuckets, id), k), KeyEvents(s, env, acts, id, k);
            && PassedIn(s, env, acts, id, k, from, to) == GrantedIn(b, es, from, to)
            && BucketFor(Entry(End(s, env, acts).keyBuckets, id), k) == Run(b, es)
    decreases |acts|
  {
    hide Inv, Legal, Harmless, Next, Sound, Passes, Granted, Apply, BucketFor, Entry, HasEntry, HasLimit;
    if acts != [] {
      var a, s1 := acts[0], Next(s, env, acts[0]);
      StepKeepsInv(s, env, a);
      InvIsSound(s, env);
      EntryStep(s, env, a, id, k);
      EntryRunsIn(s1, env, acts[1..], id, k, from, to);
      var rest := KeyEvents(s1, env, acts[1..], id, k);
      if Checks(s, a, id, k) {
        assert ([Event(Consume(a.tokens), a.now)] + rest)[1..] == rest;
      } else {
        assert [] + rest == rest;
      }
    }
  }

  /** The key's bucket of class `k` has the rate and size that its row asks for. */
  lemma EntryHasLimit(s: State, env: C.Env, id: string, k: RateClass)
    requires Inv(s, env) && HasEntry(s.keyBuckets, id) && HasLimit(s, id, k)
    ensures var b, row := BucketFor(Entry(s.keyBuckets, id), k), s.iam.table[id];
            && b.Valid()
            && (k.Bulk? ==> b.rate == row.bulkRate.value && b.bucketSize == row.bulkBucket.value)
            && (k.Single? ==> b.rate == row.singleRate.value && b.bucketSize == row.singleBucket.value)
  {
    assert Fits(Entry(s.keyBuckets, id), s, env);
  }

  lemma EntryIsValid(s: State, env: C.Env, id: string, k: RateClass)
    requires Inv(s, env) && HasEntry(s.keyBuckets, id)
    ensures BucketFor(Entry(s.keyBuckets, id), k).Valid()
  {
    assert Fits(Entry(s.keyBuckets, id), s, env);
  }

  /** The window bound for a key that has its entry, with the parameters of the entry. */
  lemma WindowFromEntry(s: State, env: C.Env, acts: seq<Action>, id: string, k: RateClass, t: int, from: int, to: int)
    requires Inv(s, env) && Runs(s, env, acts) && NeverLoses(s, env, acts, id) && ChecksForward(acts, id, t)
    requires HasEntry(s.keyBuckets, id) && BucketFor(Entry(s.keyBuckets, id), k).lastRefill <= t && from <= to
    ensures HasEntry(End(s, env, acts).keyBuckets, id)
    ensures var b := BucketFor(Entry(End(s, env, acts).keyBuckets, id), k);
            PassedIn(s, env, acts, id, k, from, to) <= b.bucketSize + Gain(b.rate, to - from)
  {
    KeepsWhatItHas(s, env, acts, id);
    EntryRunsIn(s, env, acts, id, k, from, to);
    EventsForward(s, env, acts, id, k, t);
    EntryIsValid(s, env, id, k);
    hide Inv, Runs, Next, NeverLoses, ChecksForward, HasEntry, Entry;
    var b, es := BucketFor(Entry(s.keyBuckets, id), k), KeyEvents(s, env, acts, id, k);
    RunKeepsValid(b, es);
    WindowInsideRun(b, es, t, from, to);
  }

  /** A step after which a key has an entry that it had not is a check of this key. */
  lemma EntryIsMadeByCheck(s: State, env: C.Env, a: Action, id: string)
    requires !HasEntry(s.keyBuckets, id)
    ensures HasEntry(Next(s, env, a).keyBuckets, id) <==> a.CheckPerKey? && a.id == id && HasLimit(s, id, a.rateClass)
  {
    if a.CheckPerKey? && HasLimit(s, a.id, a.rateClass) {
      var m' := Next(s, env, a).keyBuckets;
      assert m'[|m'| - 1].id == a.id;
      if a.id != id {
        forall i | 0 <= i < |m'| ensures m'[i].id != id {
          if i < |m'| - 1 {
            assert m'[i] in Others(s, a.id);
            if HasEntry(s.keyBuckets, a.id) { WithoutKeeps(s.keyBuckets, a.id, m'[i]); }
            assert m'[i] in s.keyBuckets;
          }
        }
      }
    } else if !a.CheckPerKey? && HasEntry(Next(s, env, a).keyBuckets, id) {
      EntriesComeFromBefore(s, env, a, Entry(Next(s, env, a).keyBuckets, id));
      assert false;
    }
  }

  /** The full bucket that the first check of the key finds. */
  function FullBucket(s: State, env: C.Env, id: string, k: RateClass, now: int): BucketState
    requires id in s.iam.table
  {
    BucketFor(NewKeyBuckets(s.iam.table[id], s, env, id, now), k)
  }

  /** The entry that the check makes. */
  lemma NewEntryIs(s: State, env: C.Env, a: Action, id: string)
    requires !HasEntry(s.keyBuckets, id) && a.CheckPerKey? && a.id == id && Limited(s, id, a.rateClass)
    ensures HasEntry(Next(s, env, a).keyBuckets, id)
    ensures var e := NewKeyBuckets(s.iam.table[id], s, env, id, a.now);
            Entry(Next(s, env, a).keyBuckets, id)
            == WithBucket(e, a.rateClass, Consumed(BucketFor(e, a.rateClass), a.tokens, a.now))
  {
    hide Config, Consumed, K.EffectiveLimit;
    var m' := Next(s, env, a).keyBuckets;
    assert m'[|m'| - 1].id == id;
    assert forall x <- Others(s, id) :: x in s.keyBuckets;
    assert forall x <- s.keyBuckets :: x.id != id;
    assert Entry(m', id) == m'[|m'| - 1];
  }

  lemma NewBucketsAreFull(s: State, env: C.Env, id: string, k: RateClass, now: int)
    requires Inv(s, env) && id in s.iam.table
    ensures var full := FullBucket(s, env, id, k, now); full.Valid() && full.lastRefill == now
  {
    assert PositiveRates(s.iam.table[id]);
  }

  /** What the check that makes the entry leaves in it, and what it lets through. */
  lemma MadeByCheck(s: State, env: C.Env, a: Action, id: string, k: RateClass)
    requires Inv(s, env) && !HasEntry(s.keyBuckets, id) && a.CheckPerKey? && a.id == id && HasLimit(s, id, a.rateClass)
    ensures HasEntry(Next(s, env, a).keyBuckets, id)
    ensures var full := FullBucket(s, env, id, k, a.now);
            && full.Valid() && full.lastRefill == a.now
            && BucketFor(Entry(Next(s, env, a).keyBuckets, id), k)
               == (if a.rateClass == k then Apply(full, Event(Consume(a.tokens), a.now)) else full)
            && (a.rateClass == k ==> (Passes(s, env, a) <==> Granted(full, Event(Consume(a.tokens), a.now))))
  {
    InvIsSound(s, env);
    HasLimitIff(s, id, a.rateClass);
    NewBucketsAreFull(s, env, id, k, a.now);
    hide Inv, Sound, HasLimit, Limited, Next, CheckOutcome, Passes, Granted, HasEntry, Entry, NewKeyBuckets;
    NewEntryIs(s, env, a, id);
    PassesIff(s, env, a);
  }

  /** The first step of what is let through. */
  lemma PassedInStep(s: State, env: C.Env, acts: seq<Action>, id: string, k: RateClass, from: int, to: int)
    requires Inv(s, env) && Runs(s, env, acts) && acts != [] && Checks(s, acts[0], id, k) && Sound(s)
    ensures Inv(Next(s, env, acts[0]), env)
    ensures PassedIn(s, env, acts, id, k, from, to)
            == (if Passes(s, env, acts[0]) && from <= acts[0].now <= to then Charge(acts[0].tokens) else 0.0)
               + PassedIn(Next(s, env, acts[0]), env, acts[1..], id, k, from, to)
  {
    hide Inv, Next, Legal, Harmless, Sound, Passes, HasLimit;
    StepKeepsInv(s, env, acts[0]);
  }

  /** From the check that makes the entry on, the key's checks make a run of a full bucket. */
  lemma FirstCheckRunsIn(s: State, env: C.Env, acts: seq<Action>, id: string, k: RateClass, from: int, to: int)
    requires Inv(s, env) && acts != [] && Runs(s, env, acts) && NeverLoses(s, env, acts, id)
    requires !HasEntry(s.keyBuckets, id)
    requires acts[0].CheckPerKey? && acts[0].id == id && HasLimit(s, id, acts[0].rateClass)
    ensures HasEntry(End(s, env, acts).keyBuckets, id)
    ensures var full, es := FullBucket(s, env, id, k, acts[0].now), KeyEvents(s, env, acts, id, k);
            && PassedIn(s, env, acts, id, k, from, to) == GrantedIn(full, es, from, to)
            && BucketFor(Entry(End(s, env, acts).keyBuckets, id), k) == Run(full, es)
  {
    assert id in s.iam.table;
    hide Inv, Next, Legal, Harmless, HasEntry, Entry, FullBucket, HasLimit, Granted, Passes, Apply, BucketFor, Fits,
      Sound;
    InvIsSound(s, env);
    var a, s1, later := acts[0], Next(s, env, acts[0]), acts[1..];
    var full, ev := FullBucket(s, env, id, k, a.now), Event(Consume(a.tokens), a.now);
    MadeByCheck(s, env, a, id, k);
    assert Checks(s, a, id, k) <==> a.rateClass == k;
    StepKeepsInv(s, env, a);
    KeepsWhatItHas(s1, env, later, id);
    EntryRunsIn(s1, env, later, id, k, from, to);
    var rest := KeyEvents(s1, env, later, id, k);
    assert [] + rest == rest;
    assert KeyEvents(s, env, acts, id, k) == if a.rateClass == k then [ev] + rest else rest;
    if a.rateClass == k { PassedInStep(s, env, acts, id, k, from, to); }
    assert End(s, env, acts) == End(s1, env, later);
    hide Stays, NeverLoses, Runs, KeyEvents, PassedIn, End, Checks;
    FirstEvent(full, ev, rest, from, to);
  }

  lemma FirstEvent(b: BucketState, e: Event, rest: seq<Event>, from: int, to: int)
    ensures Run(b, [e] + rest) == Run(Apply(b, e), rest)
    ensures GrantedIn(b, [e] + rest, from, to)
            == (if Granted(b, e) && from <= e.now <= to then Charge(e.op.count) else 0.0)
               + GrantedIn(Apply(b, e), rest, from, to)
  {
    hide Apply, Granted;
    assert ([e] + rest)[1..] == rest;
  }

  lemma WindowFromFirstCheck(s: State, env: C.Env, acts: seq<Action>, id: string, k: RateClass, from: int, to: int)
    requires Inv(s, env) && acts != [] && Runs(s, env, acts) && NeverLoses(s, env, acts, id) && from <= to
    requires !HasEntry(s.keyBuckets, id)
    requires acts[0].CheckPerKey? && acts[0].id == id && HasLimit(s, id, acts[0].rateClass)
    requires ChecksForward(acts, id, acts[0].now)
    ensures HasEntry(End(s, env, acts).keyBuckets, id)
    ensures var b := BucketFor(Entry(End(s, env, acts).keyBuckets, id), k);
            PassedIn(s, env, acts, id, k, from, to) <= b.bucketSize + Gain(b.rate, to - from)
  {
    FirstCheckRunsIn(s, env, acts, id, k, from, to);
    MadeByCheck(s, env, acts[0], id, k);
    EventsForward(s, env, acts, id, k, acts[0].now);
    hide Inv, Next, Runs, NeverLoses, ChecksForward, PassedIn, KeyEvents, Passes, HasEntry, Entry, HasLimit;
    var full, es := FullBucket(s, env, id, k, acts[0].now), KeyEvents(s, env, acts, id, k);
    RunKeepsValid(full, es);
    WindowInsideRun(full, es, acts[0].now, from, to);
  }

  /**
   The budget of a key. Take any run in which the key never loses its entry once it has one, and in which the
   clock does not step back between its checks; whatever interleaves. Then for every window [from, to] inside
   the run, from the check that makes the entry on, the checks let through at most the size of the key's row
   plus its rate times the time from `from` to `to`.
   */
  lemma {:induction false} KeyWindowBound(s: State, env: C.Env, acts: seq<Action>, id: string, k: RateClass, t: int,
                                          from: int, to: int)
    requires Inv(s, env) && Runs(s, env, acts) && NeverLoses(s, env, acts, id) && ChecksForward(acts, id, t)
    requires HasEntry(s.keyBuckets, id) ==> BucketFor(Entry(s.keyBuckets, id), k).lastRefill <= t
    requires from <= to && HasEntry(End(s, env, acts).keyBuckets, id) && HasLimit(End(s, env, acts), id, k)
    ensures var row, passed := End(s, env, acts).iam.table[id], PassedIn(s, env, acts, id, k, from, to);
            && (k.Bulk? ==> passed <= row.bulkBucket.value + Gain(row.bulkRate.value, to - from))
            && (k.Single? ==> passed <= row.singleBucket.value + Gain(row.singleRate.value, to - from))
    decreases |acts|
  {
    hide Inv, Next, Legal, Harmless, HasEntry, Entry;
    if HasEntry(s.keyBuckets, id) {
      WindowFromEntry(s, env, acts, id, k, t, from, to);
      EndHasLimit(s, env, acts, id, k);
    } else {
      var a, s1 := acts[0], Next(s, env, acts[0]);
      StepKeepsInv(s, env, a);
      EntryIsMadeByCheck(s, env, a, id);
      if HasEntry(s1.keyBuckets, id) {
        WindowFromFirstCheck(s, env, acts, id, k, from, to);
        EndHasLimit(s, env, acts, id, k);
      } else {
        var u := if a.CheckPerKey? && a.id == id then a.now else t;
        KeyWindowBound(s1, env, acts[1..], id, k, u, from, to);
      }
    }
  }

  lemma EndHasLimit(s: State, env: C.Env, acts: seq<Action>, id: string, k: RateClass)
    requires Inv(s, env) && Runs(s, env, acts)
    requires HasEntry(End(s, env, acts).keyBuckets, id) && HasLimit(End(s, env, acts), id, k)
    ensures var b, row := BucketFor(Entry(End(s, env, acts).keyBuckets, id), k), End(s, env, acts).iam.table[id];
            && (k.Bulk? ==> b.rate == row.bulkRate.value && b.bucketSize == row.bulkBucket.value)
            && (k.Single? ==> b.rate == row.singleRate.value && b.bucketSize == row.singleBucket.value)
  {
    RunKeepsInv(s, env, acts);
    hide Inv, Runs, End;
    EntryHasLimit(End(s, env, acts), env, id, k);
  }
}
