/**
 The whole of `src/durable-object.ts` at once: the object of `Gatekeeper`, whose calls change keys, configuration
 and buckets, and the purges of `PurgeProtocol` that run through it. A step of the whole is a step of each
 machine, or several, or none; `Coupled` says that both are about the same account buckets.
 */
module Gateway {
  import opened Prelude
  import opened TokenBuckets
  import C = ConfigRegistry
  import G = Gatekeeper
  import K = KeyStore
  import P = PurgeProtocol

  datatype State = State(g: G.State, w: P.World)

  /**
   `Purge` is the start of a purge, with the key whose budget it is checked against, if any. `Purging` is
   everything that happens to purges under way and the calls that use a purge bucket. `Serving` is any other
   call.
   */
  datatype Action =
    | Purge(keyId: Option<string>, req: P.Request, flightId: string, now: int)
    | Purging(p: P.Action)
    | Serving(call: G.Action)

  predicate Proper(a: Action) {
    match a
    case Purge(_, _, _, _) => true
    case Purging(p) => !p.Call? && !p.Rebuild?
    case Serving(c) => !c.CheckPerKey? && (c.AccountOp? ==> c.account.S3Account? || c.account.CfProxyAccount?)
  }

  /** The per-key check lets the purge go on. */
  predicate LetsPass(g: G.State, env: C.Env, id: string, req: P.Request, now: int) {
    G.Limited(g, id, req.rateClass) ==>
      Granted(G.BucketFor(G.BucketsOf(g, env, id, now), req.rateClass), Event(Consume(Charge(req.tokens)), now))
  }

  predicate GoesOn(g: G.State, env: C.Env, a: Action)
    requires a.Purge?
  {
    a.keyId.Some? ==> LetsPass(g, env, a.keyId.value, a.req, a.now)
  }

  /**
   A purge goes on to the collapser exactly if it names no key, or the check of its key reports no refusal; a
   refused one leaves the purges alone.
   */
  lemma GoesOnIff(s: State, env: C.Env, a: Action)
    requires G.Sound(s.g) && a.Purge?
    ensures GoesOn(s.g, env, a)
            <==> a.keyId.None?
                 || G.CheckOutcome(s.g, env, a.keyId.value, a.req.rateClass, a.req.tokens, a.now) == None
    ensures PurgeSteps(s, env, a) == if GoesOn(s.g, env, a) then [P.Call(a.req, a.flightId, a.now)] else []
  {
    assert Charge(Charge(a.req.tokens)) == Charge(a.req.tokens);
    if a.keyId.Some? { G.CheckKeepsSound(s.g, env, a.keyId.value, a.req.rateClass, a.req.tokens, a.now); }
    hide G.Sound, G.BucketsOf;
  }

  /** What a step of the purges does to the bucket that the object has for a class, if it does anything to one. */
  ghost function BucketCalls(w: P.World, p: P.Action): seq<G.Action>
    requires P.Shaped(w) && P.Enabled(w, p)
  {
    match P.BucketOp(w, p)
    case None => []
    case Some((b, op)) =>
      if b == w.single then [G.AccountOp(G.SingleAccount, op, p.now)]
      else if b == w.bulk then [G.AccountOp(G.BulkAccount, op, p.now)]
      else []
  }

  function Call(a: Action): P.Action
    requires a.Purge?
  {
    P.Call(a.req, a.flightId, a.now)
  }

  function CheckCalls(a: Action): seq<G.Action>
    requires a.Purge?
  {
    if a.keyId.Some? then [G.CheckPerKey(a.keyId.value, a.req.rateClass, Charge(a.req.tokens), a.now)] else []
  }

  function Instant(call: G.Action): int {
    match call
    case SetConfig(_, now) => now
    case ResetConfigKey(_, now) => now
    case _ => 0
  }

  /** A purge bucket is replaced exactly when its parameters change. */
  function Rebuilds(g: G.State, g': G.State, now: int): seq<P.Action> {
    (if G.SameParameters(g.bulk, g'.bulk) then [] else [P.Rebuild(Bulk, g'.bulk.rate, g'.bulk.bucketSize, now)])
    + (if G.SameParameters(g.single, g'.single) then []
       else [P.Rebuild(Single, g'.single.rate, g'.single.bucketSize, now)])
  }

  /** The steps that the purges take. */
  function PurgeSteps(s: State, env: C.Env, a: Action): seq<P.Action> {
    match a
    case Purge(_, _, _, _) => if GoesOn(s.g, env, a) then [Call(a)] else []
    case Purging(p) => [p]
    case Serving(c) => Rebuilds(s.g, G.Next(s.g, env, c), Instant(c))
  }

  /** The calls that the object serves. */
  ghost function ObjectCalls(s: State, env: C.Env, a: Action): seq<G.Action>
    requires P.Inv(s.w) && P.Runs(s.w, PurgeSteps(s, env, a))
  {
    match a
    case Purge(_, _, _, _) => CheckCalls(a) + if GoesOn(s.g, env, a) then BucketCalls(s.w, Call(a)) else []
    case Purging(p) => BucketCalls(s.w, p)
    case Serving(c) => [c]
  }

  ghost predicate Coupled(s: State) {
    && s.w.bulk < |s.w.heap| && s.w.single < |s.w.heap| && s.w.bulk != s.w.single
    && s.g.bulk == s.w.heap[s.w.bulk] && s.g.single == s.w.heap[s.w.single]
  }

  ghost predicate Inv(s: State, env: C.Env) {
    G.Inv(s.g, env) && P.Inv(s.w) && Coupled(s)
  }

  ghost predicate Enabled(s: State, env: C.Env, a: Action)
    requires Inv(s, env)
  {
    Proper(a) && P.Runs(s.w, PurgeSteps(s, env, a)) && G.Runs(s.g, env, ObjectCalls(s, env, a))
  }

  ghost function Next(s: State, env: C.Env, a: Action): State
    requires Inv(s, env) && Enabled(s, env, a)
  {
    State(G.End(s.g, env, ObjectCalls(s, env, a)), P.End(s.w, PurgeSteps(s, env, a)))
  }

  /** A gateway as it starts over stored rows. */
  function Boot(table: map<C.Name, C.Cell>, keys: map<string, K.ApiKey>, env: C.Env, graceMs: nat, now: int): State {
    var g := G.Boot(table, keys, env, now);
    State(g, P.Init(graceMs, g.bulk, g.single, now))
  }

  lemma BootHasInv(table: map<C.Name, C.Cell>, keys: map<string, K.ApiKey>, env: C.Env, graceMs: nat, now: int)
    requires G.PositiveTable(keys)
    ensures Inv(Boot(table, keys, env, graceMs, now), env)
  {
    G.BootHasInv(table, keys, env, now);
    var g := G.Boot(table, keys, env, now);
    assert g.bulk.Valid() && g.single.Valid();
    P.InitHasInv(graceMs, g.bulk, g.single, now);
  }

  // ---------------------------------------------------------------- both machines stay about the same buckets

  lemma OnePurgeStep(w: P.World, p: P.Action)
    requires P.Inv(w) && P.Runs(w, [p])
    ensures P.Shaped(w) && P.Enabled(w, p) && P.Inv(P.Next(w, p)) && P.End(w, [p]) == P.Next(w, p)
  {
    P.InvIsShaped(w);
    P.StepKeepsInv(w, p);
    assert [p][1..] == [];
    hide P.Next, P.Enabled, P.Inv;
  }

  lemma OneCall(g: G.State, env: C.Env, c: G.Action)
    ensures G.End(g, env, [c]) == G.Next(g, env, c)
  {
    hide G.Next;
    assert [c][1..] == [];
    assert G.End(G.Next(g, env, c), env, []) == G.Next(g, env, c);
  }

  /** What a purge step that replaces nothing leaves of the two buckets in use. */
  lemma PurgeStepOnBuckets(w: P.World, p: P.Action)
    requires P.Shaped(w) && P.Enabled(w, p) && !p.Rebuild? && w.bulk != w.single
    ensures var w' := P.Next(w, p); var op := P.BucketOp(w, p);
            && w'.bulk == w.bulk && w'.single == w.single && |w'.heap| == |w.heap|
            && w.bulk < |w.heap| && w.single < |w.heap|
            && w'.heap[w.bulk] == (if op.Some? && op.value.0 == w.bulk
                                   then Apply(w.heap[w.bulk], Event(op.value.1, p.now)) else w.heap[w.bulk])
            && w'.heap[w.single] == (if op.Some? && op.value.0 == w.single
                                     then Apply(w.heap[w.single], Event(op.value.1, p.now)) else w.heap[w.single])
  {
    hide P.CollapserStep, Apply;
  }

  lemma PurgeStepKeepsCoupled(s: State, env: C.Env, p: P.Action)
    requires Coupled(s) && P.Shaped(s.w) && P.Enabled(s.w, p) && !p.Rebuild?
    ensures Coupled(State(G.End(s.g, env, BucketCalls(s.w, p)), P.Next(s.w, p)))
  {
    PurgeStepOnBuckets(s.w, p);
    hide P.Next, P.BucketOp, P.Enabled, P.Shaped, Apply;
    if P.BucketOp(s.w, p).Some? {
      var (b, op) := P.BucketOp(s.w, p).value;
      OneCall(s.g, env, G.AccountOp(G.SingleAccount, op, p.now));
      OneCall(s.g, env, G.AccountOp(G.BulkAccount, op, p.now));
    }
  }

  lemma CheckLeavesAccountBuckets(g: G.State, env: C.Env, a: Action)
    requires a.Purge?
    ensures var g' := G.End(g, env, CheckCalls(a)); g'.bulk == g.bulk && g'.single == g.single
  {
    if a.keyId.Some? { OneCall(g, env, CheckCalls(a)[0]); }
  }

  /** A call other than a purge leaves a purge bucket alone, or puts a new full one in its place. */
  lemma CallKeepsOrReplaces(g: G.State, env: C.Env, c: G.Action)
    requires Proper(Serving(c))
    ensures var g' := G.Next(g, env, c);
            && g'.bulk == (if G.SameParameters(g.bulk, g'.bulk) then g.bulk
                           else NewBucket(g'.bulk.rate, g'.bulk.bucketSize, Instant(c)))
            && g'.single == (if G.SameParameters(g.single, g'.single) then g.single
                             else NewBucket(g'.single.rate, g'.single.bucketSize, Instant(c)))
  {
    hide C.Resolve, C.Written, Apply;
  }

  lemma RebuildStep(w: P.World, k: RateClass, rate: real, size: real, now: int)
    requires P.Inv(w) && P.Runs(w, [P.Rebuild(k, rate, size, now)])
    ensures var w' := P.End(w, [P.Rebuild(k, rate, size, now)]);
            && w'.heap == w.heap + [NewBucket(rate, size, now)]
            && w'.bulk == (if k.Bulk? then |w.heap| else w.bulk)
              && w'.single == (if k.Single? then |w.heap| else w.single)
  {
    OnePurgeStep(w, P.Rebuild(k, rate, size, now));
  }

  lemma RebuildsKeepCoupled(s: State, g': G.State, now: int)
    requires Coupled(s) && P.Inv(s.w) && P.Runs(s.w, Rebuilds(s.g, g', now))
    requires g'.bulk == if G.SameParameters(s.g.bulk, g'.bulk) then s.g.bulk
             else NewBucket(g'.bulk.rate, g'.bulk.bucketSize, now)
    requires g'.single == if G.SameParameters(s.g.single, g'.single) then s.g.single
             else NewBucket(g'.single.rate, g'.single.bucketSize, now)
    ensures Coupled(State(g', P.End(s.w, Rebuilds(s.g, g', now))))
  {
    hide P.Inv, P.Next, P.Enabled;
    var bulk := P.Rebuild(Bulk, g'.bulk.rate, g'.bulk.bucketSize, now);
    var single := P.Rebuild(Single, g'.single.rate, g'.single.bucketSize, now);
    if G.SameParameters(s.g.bulk, g'.bulk) && G.SameParameters(s.g.single, g'.single) {
      assert Rebuilds(s.g, g', now) == [];
    } else if G.SameParameters(s.g.bulk, g'.bulk) {
      assert Rebuilds(s.g, g', now) == [single];
      RebuildStep(s.w, Single, single.rate, single.bucketSize, now);
    } else if G.SameParameters(s.g.single, g'.single) {
      assert Rebuilds(s.g, g', now) == [bulk];
      RebuildStep(s.w, Bulk, bulk.rate, bulk.bucketSize, now);
    } else {
      assert Rebuilds(s.g, g', now) == [bulk] + [single];
      P.RunsSplit(s.w, [bulk], [single]);
      RebuildStep(s.w, Bulk, bulk.rate, bulk.bucketSize, now);
      RebuildStep(P.End(s.w, [bulk]), Single, single.rate, single.bucketSize, now);
    }
  }

  lemma StepKeepsCoupled(s: State, env: C.Env, a: Action)
    requires Inv(s, env) && Enabled(s, env, a)
    ensures Coupled(Next(s, env, a))
  {
    hide G.Inv, P.Inv, P.Next, P.Enabled, G.Next, G.Legal, G.Harmless, GoesOn, BucketCalls, Rebuilds;
    match a
    case Purge(_, _, _, _) =>
      CheckLeavesAccountBuckets(s.g, env, a);
      var g1 := G.End(s.g, env, CheckCalls(a));
      if GoesOn(s.g, env, a) {
        OnePurgeStep(s.w, Call(a));
        PurgeStepKeepsCoupled(State(g1, s.w), env, Call(a));
        G.EndSplits(s.g, env, CheckCalls(a), BucketCalls(s.w, Call(a)));
      } else {
        assert CheckCalls(a) + [] == CheckCalls(a);
      }
    case Purging(p) =>
      OnePurgeStep(s.w, p);
      PurgeStepKeepsCoupled(s, env, p);
    case Serving(c) =>
      OneCall(s.g, env, c);
      CallKeepsOrReplaces(s.g, env, c);
      RebuildsKeepCoupled(s, G.Next(s.g, env, c), Instant(c));
  }

  /** Every step of the whole keeps what both machines keep, and that they are about the same buckets. */
  lemma StepKeepsInv(s: State, env: C.Env, a: Action)
    requires Inv(s, env) && Enabled(s, env, a)
    ensures Inv(Next(s, env, a), env)
  {
    StepKeepsCoupled(s, env, a);
    hide G.Inv, Coupled;
    G.RunKeepsInv(s.g, env, ObjectCalls(s, env, a));
  }

  lemma PurgesAlwaysServed(g: G.State, env: C.Env, calls: seq<G.Action>)
    requires forall c <- calls :: c.CheckPerKey? || c.AccountOp?
    ensures G.Runs(g, env, calls)
    decreases |calls|
  {
    hide G.Next;
    if calls != [] {
      assert calls[0] in calls;
      PurgesAlwaysServed(G.Next(g, env, calls[0]), env, calls[1..]);
    }
  }

  lemma RunsOne(w: P.World, p: P.Action)
    requires P.Inv(w) && P.Shaped(w)
    ensures P.Runs(w, [p]) <==> P.Enabled(w, p)
  {
    hide P.Next, P.Enabled, P.Inv;
    assert [p][1..] == [];
    if P.Enabled(w, p) { P.StepKeepsInv(w, p); }
  }

  lemma RebuildRuns(w: P.World, k: RateClass, rate: real, size: real, now: int)
    requires P.Inv(w) && rate > 0.0 && size > 0.0
    ensures P.Runs(w, [P.Rebuild(k, rate, size, now)]) <==> w.c.clock <= now
    ensures w.c.clock <= now ==> P.End(w, [P.Rebuild(k, rate, size, now)]).c.clock == now
  {
    P.InvIsShaped(w);
    RunsOne(w, P.Rebuild(k, rate, size, now));
    if w.c.clock <= now {
      P.StepMovesClock(w, P.Rebuild(k, rate, size, now));
      OnePurgeStep(w, P.Rebuild(k, rate, size, now));
    }
  }

  lemma RebuildsRunIff(w: P.World, g: G.State, g': G.State, now: int)
    requires P.Inv(w) && g'.bulk.Valid() && g'.single.Valid()
    ensures P.Runs(w, Rebuilds(g, g', now)) <==> Rebuilds(g, g', now) == [] || w.c.clock <= now
  {
    hide P.Inv, P.Next, P.Enabled;
    var bulk := P.Rebuild(Bulk, g'.bulk.rate, g'.bulk.bucketSize, now);
    var single := P.Rebuild(Single, g'.single.rate, g'.single.bucketSize, now);
    RebuildRuns(w, Bulk, bulk.rate, bulk.bucketSize, now);
    RebuildRuns(w, Single, single.rate, single.bucketSize, now);
    if !G.SameParameters(g.bulk, g'.bulk) && !G.SameParameters(g.single, g'.single) {
      assert Rebuilds(g, g', now) == [bulk] + [single];
      if P.Runs(w, [bulk] + [single]) { P.RunsSplit(w, [bulk], [single]); }
      if w.c.clock <= now {
        RebuildRuns(P.End(w, [bulk]), Single, single.rate, single.bucketSize, now);
        P.RunsJoin(w, [bulk], [single]);
      }
    } else {
      assert Rebuilds(g, g', now) == if !G.SameParameters(g.bulk, g'.bulk) then [bulk]
                                     else if !G.SameParameters(g.single, g'.single) then [single] else [];
    }
  }

  /**
   The whole holds nothing back: a purge can start whenever the clock does not step back, purges under way
   take every step of their own, and a call is served whenever the object alone would serve it, where a call
   that replaces a bucket needs the clock not to step back.
   */
  lemma EnabledIff(s: State, env: C.Env, a: Action)
    requires Inv(s, env) && Proper(a)
    ensures P.Shaped(s.w)
    ensures Enabled(s, env, a) <==>
              match a
              case Purge(_, _, _, now) => GoesOn(s.g, env, a) ==> s.w.c.clock <= now
              case Purging(p) => P.Enabled(s.w, p)
              case Serving(c) =>
                G.Legal(s.g, c) && G.Harmless(s.g, c) && (PurgeSteps(s, env, a) == [] || s.w.c.clock <= Instant(c))
  {
    P.InvIsShaped(s.w);
    hide Inv, Enabled, P.Enabled, P.Shaped, G.Legal, G.Harmless, GoesOn, PurgeSteps;
    match a
    case Purge(_, _, _, _) => PurgeIsEnabledIff(s, env, a);
    case Purging(p) => PurgingIsEnabledIff(s, env, p);
    case Serving(c) => ServingIsEnabledIff(s, env, c);
  }

  lemma PurgeIsEnabledIff(s: State, env: C.Env, a: Action)
    requires Inv(s, env) && a.Purge?
    ensures Enabled(s, env, a) <==> (GoesOn(s.g, env, a) ==> s.w.c.clock <= a.now)
  {
    P.InvIsShaped(s.w);
    CallIsEnabledIff(s.w, Call(a));
    RunsOne(s.w, Call(a));
    hide P.Inv, P.Enabled, G.Inv, GoesOn, Coupled, P.BucketOp;
    if P.Runs(s.w, PurgeSteps(s, env, a)) { PurgesAlwaysServed(s.g, env, ObjectCalls(s, env, a)); }
  }

  lemma PurgingIsEnabledIff(s: State, env: C.Env, p: P.Action)
    requires Inv(s, env) && Proper(Purging(p)) && P.Shaped(s.w)
    ensures Enabled(s, env, Purging(p)) <==> P.Enabled(s.w, p)
  {
    RunsOne(s.w, p);
    hide P.Inv, P.Enabled, G.Inv, Coupled, P.BucketOp;
    if P.Runs(s.w, [p]) { PurgesAlwaysServed(s.g, env, ObjectCalls(s, env, Purging(p))); }
  }

  lemma ServingIsEnabledIff(s: State, env: C.Env, c: G.Action)
    requires Inv(s, env) && Proper(Serving(c))
    ensures Enabled(s, env, Serving(c))
            <==> && G.Legal(s.g, c) && G.Harmless(s.g, c)
                 && (PurgeSteps(s, env, Serving(c)) == [] || s.w.c.clock <= Instant(c))
  {
    hide P.Inv, P.Next, P.Enabled, G.Next, G.Legal, G.Harmless, Rebuilds, Coupled;
    OneServed(s.g, env, c);
    if G.Legal(s.g, c) && G.Harmless(s.g, c) {
      G.StepKeepsInv(s.g, env, c);
      BucketsAreValid(G.Next(s.g, env, c), env);
      RebuildsRunIff(s.w, s.g, G.Next(s.g, env, c), Instant(c));
    }
  }

  lemma BucketsAreValid(g: G.State, env: C.Env)
    requires G.Inv(g, env)
    ensures g.bulk.Valid() && g.single.Valid()
  {
  }

  lemma OneServed(g: G.State, env: C.Env, c: G.Action)
    ensures G.Runs(g, env, [c]) <==> G.Legal(g, c) && G.Harmless(g, c)
  {
    hide G.Next, G.Legal, G.Harmless;
    assert [c][1..] == [];
  }

  lemma CallIsEnabledIff(w: P.World, p: P.Action)
    requires P.Shaped(w) && p.Call?
    ensures P.Enabled(w, p) <==> w.c.clock <= p.now
  {
  }

  /**
   A purge that names a key is checked against that key's budget, whether it then goes on or not; one that names
   none leaves the budgets alone.
   */
  lemma PurgeChargesItsKey(s: State, env: C.Env, a: Action)
    requires Inv(s, env) && Enabled(s, env, a) && a.Purge?
    ensures Next(s, env, a).g.keyBuckets
            == match a.keyId
               case Some(id) => G.AfterCheck(s.g, env, id, a.req.rateClass, a.req.tokens, a.now).keyBuckets
               case None => s.g.keyBuckets
  {
    hide G.Inv, P.Inv, P.Next, P.Enabled, G.Legal, G.Harmless, GoesOn, Coupled, G.AfterCheck, Consumed;
    if GoesOn(s.g, env, a) { OnePurgeStep(s.w, Call(a)); }
    var calls := if GoesOn(s.g, env, a) then BucketCalls(s.w, Call(a)) else [];
    assert ObjectCalls(s, env, a) == CheckCalls(a) + calls;
    G.EndSplits(s.g, env, CheckCalls(a), calls);
    var g1 := G.End(s.g, env, CheckCalls(a));
    AccountCallsKeepBudgets(g1, env, calls);
    if a.keyId.Some? {
      OneCall(s.g, env, CheckCalls(a)[0]);
      SameCharge(s.g, env, a.keyId.value, a.req.rateClass, a.req.tokens, a.now);
    }
  }

  lemma SameCharge(g: G.State, env: C.Env, id: string, k: RateClass, tokens: real, now: int)
    ensures G.AfterCheck(g, env, id, k, Charge(tokens), now) == G.AfterCheck(g, env, id, k, tokens, now)
  {
    assert Charge(Charge(tokens)) == Charge(tokens);
  }

  lemma {:induction false} AccountCallsKeepBudgets(g: G.State, env: C.Env, calls: seq<G.Action>)
    requires forall c <- calls :: c.AccountOp?
    ensures G.End(g, env, calls).keyBuckets == g.keyBuckets
    decreases |calls|
  {
    if calls != [] {
      assert calls[0] in calls;
      AccountCallsKeepBudgets(G.Next(g, env, calls[0]), env, calls[1..]);
    }
  }

  // ---------------------------------------------------------------- runs

  ghost predicate Runs(s: State, env: C.Env, acts: seq<Action>)
    requires Inv(s, env)
    decreases |acts|
  {
    acts == [] || (Enabled(s, env, acts[0])
                   && (StepKeepsInv(s, env, acts[0]); Runs(Next(s, env, acts[0]), env, acts[1..])))
  }

  ghost function End(s: State, env: C.Env, acts: seq<Action>): (s': State)
    requires Inv(s, env) && Runs(s, env, acts)
    ensures Inv(s', env)
    decreases |acts|
  {
    if acts == [] then s
    else
      StepKeepsInv(s, env, acts[0]);
      End(Next(s, env, acts[0]), env, acts[1..])
  }

  ghost function AllPurgeSteps(s: State, env: C.Env, acts: seq<Action>): seq<P.Action>
    requires Inv(s, env) && Runs(s, env, acts)
    decreases |acts|
  {
    if acts == [] then []
    else
      StepKeepsInv(s, env, acts[0]);
      PurgeSteps(s, env, acts[0]) + AllPurgeSteps(Next(s, env, acts[0]), env, acts[1..])
  }

  ghost function AllObjectCalls(s: State, env: C.Env, acts: seq<Action>): seq<G.Action>
    requires Inv(s, env) && Runs(s, env, acts)
    decreases |acts|
  {
    if acts == [] then []
    else
      StepKeepsInv(s, env, acts[0]);
      ObjectCalls(s, env, acts[0]) + AllObjectCalls(Next(s, env, acts[0]), env, acts[1..])
  }

  /**
   Refinement: every run of the whole is at once a run of the purges and a run of the object, so everything
   proved about either holds in it.
   */
  lemma {:induction false} RunsProject(s: State, env: C.Env, acts: seq<Action>)
    requires Inv(s, env) && Runs(s, env, acts)
    ensures P.Runs(s.w, AllPurgeSteps(s, env, acts)) && P.End(s.w, AllPurgeSteps(s, env, acts)) == End(s, env, acts).w
    ensures G.Runs(s.g, env, AllObjectCalls(s, env, acts))
            && G.End(s.g, env, AllObjectCalls(s, env, acts)) == End(s, env, acts).g
    decreases |acts|
  {
    hide G.Inv, P.Inv, Coupled, G.Next, P.Next, P.Enabled, G.Legal, G.Harmless, PurgeSteps, ObjectCalls, Proper;
    if acts != [] {
      var s1 := Next(s, env, acts[0]);
      StepKeepsInv(s, env, acts[0]);
      RunsProject(s1, env, acts[1..]);
      P.RunsJoin(s.w, PurgeSteps(s, env, acts[0]), AllPurgeSteps(s1, env, acts[1..]));
      G.RunsJoin(s.g, env, ObjectCalls(s, env, acts[0]), AllObjectCalls(s1, env, acts[1..]));
      G.EndSplits(s.g, env, ObjectCalls(s, env, acts[0]), AllObjectCalls(s1, env, acts[1..]));
    }
  }

  // ---------------------------------------------------------------- the rate bound, in terms of the configuration

  /** Some step of the list replaces the bucket of class `k`. */
  ghost predicate Replaced(ps: seq<P.Action>, k: RateClass) {
    exists p <- ps :: P.Replaces(p, k)
  }

  lemma RebuildsReplaceIff(g: G.State, g': G.State, now: int, k: RateClass)
    ensures Replaced(Rebuilds(g, g', now), k)
            <==> !G.SameParameters(G.AccountBucket(g, G.AccountOf(k)), G.AccountBucket(g', G.AccountOf(k)))
  {
    hide G.SameParameters;
    var bulk := if G.SameParameters(g.bulk, g'.bulk) then []
      else [P.Rebuild(Bulk, g'.bulk.rate, g'.bulk.bucketSize, now)];
    var single := if G.SameParameters(g.single, g'.single) then []
      else [P.Rebuild(Single, g'.single.rate, g'.single.bucketSize, now)];
    assert Rebuilds(g, g', now) == bulk + single;
    assert forall p :: p in bulk + single <==> p in bulk || p in single;
    if !G.SameParameters(g.bulk, g'.bulk) { assert bulk[0] in bulk && P.Replaces(bulk[0], Bulk); }
    if !G.SameParameters(g.single, g'.single) { assert single[0] in single && P.Replaces(single[0], Single); }
  }

  lemma ReplacedIffParametersMove(s: State, env: C.Env, a: Action, k: RateClass)
    requires Inv(s, env) && Enabled(s, env, a)
    ensures Replaced(PurgeSteps(s, env, a), k)
            <==> !G.SameParameters(G.AccountBucket(s.g, G.AccountOf(k)),
                                   G.AccountBucket(Next(s, env, a).g, G.AccountOf(k)))
  {
    hide G.Inv, P.Inv, G.Next, P.Next, P.Enabled, G.Legal, G.Harmless, BucketCalls, GoesOn;
    match a
    case Serving(c) =>
      OneCall(s.g, env, c);
      RebuildsReplaceIff(s.g, G.Next(s.g, env, c), Instant(c), k);
    case _ =>
      assert !Replaced(PurgeSteps(s, env, a), k);
      PurgesKeepParameters(s, env, a);
  }

  lemma PurgesKeepParameters(s: State, env: C.Env, a: Action)
    requires Inv(s, env) && Enabled(s, env, a) && !a.Serving?
    ensures G.SameParameters(s.g.bulk, Next(s, env, a).g.bulk) && G.SameParameters(s.g.single, Next(s, env, a).g.single)
  {
    StepKeepsCoupled(s, env, a);
    if |PurgeSteps(s, env, a)| == 1 {
      var p := PurgeSteps(s, env, a)[0];
      assert PurgeSteps(s, env, a) == [p];
      OnePurgeStep(s.w, p);
      PurgeStepOnBuckets(s.w, p);
      P.StepKeepsParameters(s.w, p, s.w.bulk);
      P.StepKeepsParameters(s.w, p, s.w.single);
    } else {
      assert PurgeSteps(s, env, a) == [];
    }
  }

  /**
   A step replaces the bucket of a class if and only if it changes the rate or the size that the
   configuration resolves to for it.
   */
  lemma ReplacedIffLimitsMove(s: State, env: C.Env, a: Action, k: RateClass)
    requires Inv(s, env) && Enabled(s, env, a)
    ensures Replaced(PurgeSteps(s, env, a), k)
            <==> G.Limits(Next(s, env, a).g, env, G.AccountOf(k)) != G.Limits(s.g, env, G.AccountOf(k))
  {
    ReplacedIffParametersMove(s, env, a, k);
    StepKeepsInv(s, env, a);
    hide Next, G.Limits, G.InStep, P.Inv, Coupled, PurgeSteps, Replaced;
    G.InStepMeansLimits(s.g, env, G.AccountOf(k));
    G.InStepMeansLimits(Next(s, env, a).g, env, G.AccountOf(k));
  }

  /** The configuration resolves to the same rate and size for the class all along. */
  ghost predicate KeepsLimits(s: State, env: C.Env, acts: seq<Action>, k: RateClass)
    requires Inv(s, env) && Runs(s, env, acts)
    decreases |acts|
  {
    acts == [] || (StepKeepsInv(s, env, acts[0]);
                   G.Limits(Next(s, env, acts[0]).g, env, G.AccountOf(k)) == G.Limits(s.g, env, G.AccountOf(k))
                   && KeepsLimits(Next(s, env, acts[0]), env, acts[1..], k))
  }

  lemma {:induction false} KeepsLimitsIff(s: State, env: C.Env, acts: seq<Action>, k: RateClass)
    requires Inv(s, env) && Runs(s, env, acts)
    ensures KeepsLimits(s, env, acts, k) <==> forall p <- AllPurgeSteps(s, env, acts) :: !P.Replaces(p, k)
    decreases |acts|
  {
    hide Inv, Enabled, Next, G.Limits, P.Replaces, PurgeSteps;
    if acts != [] {
      var s1 := Next(s, env, acts[0]);
      StepKeepsInv(s, env, acts[0]);
      ReplacedIffLimitsMove(s, env, acts[0], k);
      KeepsLimitsIff(s1, env, acts[1..], k);
      var first, rest := PurgeSteps(s, env, acts[0]), AllPurgeSteps(s1, env, acts[1..]);
      assert forall p :: p in first + rest <==> p in first || p in rest;
    }
  }

  lemma LimitsAreSettings(g: G.State, env: C.Env, k: RateClass, rate: real, size: real)
    requires G.Inv(g, env)
    requires C.IsSetting(g.config.table, env, if k.Single? then C.SingleRate else C.BulkRate, rate)
    requires C.IsSetting(g.config.table, env, if k.Single? then C.SingleBucketSize else C.BulkBucketSize, size)
    ensures G.Limits(g, env, G.AccountOf(k)) == (rate, size)
  {
    hide C.IsSetting, C.Resolve;
    C.ResolvesToTheSetting(g.config, env, if k.Single? then C.SingleRate else C.BulkRate);
    C.ResolvesToTheSetting(g.config, env, if k.Single? then C.SingleBucketSize else C.BulkBucketSize);
  }

  /**
   The end-to-end bound as an operator reads it. From any reachable state on, while the configured rate and
   size of a class stay the same, all upstream fetches of the class started in [from, to] together use at
   most the configured size plus the configured rate times the elapsed time. Other configuration and key
   calls, per-key checks, followers, responses and drains may interleave in any way.
   */
  lemma ConfiguredRateBound(s: State, env: C.Env, acts: seq<Action>, k: RateClass, rate: real, size: real,
                            from: int, to: int)
    requires Inv(s, env) && Runs(s, env, acts) && KeepsLimits(s, env, acts, k) && from <= to
    requires C.IsSetting(s.g.config.table, env, if k.Single? then C.SingleRate else C.BulkRate, rate)
    requires C.IsSetting(s.g.config.table, env, if k.Single? then C.SingleBucketSize else C.BulkBucketSize, size)
    ensures P.ClassSpent(End(s, env, acts).w.log, |s.w.log|, k, from, to) <= size + Gain(rate, to - from)
  {
    LimitsAreSettings(s.g, env, k, rate, size);
    RunsProject(s, env, acts);
    KeepsLimitsIff(s, env, acts, k);
    P.EndToEndRateBound(s.w, AllPurgeSteps(s, env, acts), k, from, to);
    hide Runs, KeepsLimits, End, AllPurgeSteps, P.Runs, P.Inv, P.ClassSpent;
    G.InStepMeansLimits(s.g, env, G.AccountOf(k));
  }
}
