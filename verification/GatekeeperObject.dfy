/**
 The `Gatekeeper` class of `src/durable-object.ts` over its managers and bucket objects. Every method
 is proved to take the step of `Gatekeeper.Next` that the theorems there are about.
 */
module GatekeeperObject {
  import opened Prelude
  import opened TokenBuckets
  import opened PolicyTypes
  import opened Gatekeeper
  import C = ConfigRegistry
  import K = KeyStore
  import P = PurgeProtocol
  import F = RequestCollapse

  /** The part of the resolved configuration that buckets are built from. */
  datatype Limits =
    Limits(bulkRate: real, bulkSize: real, singleRate: real, singleSize: real,
           s3Rps: real, s3Burst: real, cfProxyRps: real, cfProxyBurst: real, keyCacheTtlMs: int)
  {
    predicate Positive() {
      bulkRate > 0.0 && bulkSize > 0.0 && singleRate > 0.0 && singleSize > 0.0
      && s3Rps > 0.0 && s3Burst > 0.0 && cfProxyRps > 0.0 && cfProxyBurst > 0.0
    }
  }

  function LimitsOf(r: C.Registry, env: C.Env): Limits {
    Limits(C.Resolve(r, env, C.BulkRate), C.Resolve(r, env, C.BulkBucketSize),
           C.Resolve(r, env, C.SingleRate), C.Resolve(r, env, C.SingleBucketSize),
           C.Resolve(r, env, C.S3Rps), C.Resolve(r, env, C.S3Burst),
           C.Resolve(r, env, C.CfProxyRps), C.Resolve(r, env, C.CfProxyBurst),
           Ceil(C.Resolve(r, env, C.KeyCacheTtlMs)))
  }

  predicate CachePositive(s: C.ConfigState) {
    s.cache.Some? ==> forall n <- s.cache.value :: s.cache.value[n] > 0.0
  }

  class GatekeeperDO {
    const env: C.Env
    const config: C.ConfigManager
    const iam: K.IamManager
    var bulkBucket: TokenBucket
    var singleBucket: TokenBucket
    var s3Bucket: TokenBucket
    var cfProxyBucket: TokenBucket
    var keyBuckets: seq<KeyBuckets>
    ghost var uses: seq<string>

    ghost function Snapshot(): State
      reads this, config, iam, bulkBucket, singleBucket, s3Bucket, cfProxyBucket
    {
      State(config.State(), iam.State(), bulkBucket.State(), singleBucket.State(), s3Bucket.State(),
            cfProxyBucket.State(),
            keyBuckets, uses)
    }

    /** No two fields hold the same bucket object. */
    ghost predicate Apart()
      reads this
    {
      && bulkBucket != singleBucket && bulkBucket != s3Bucket && bulkBucket != cfProxyBucket
      && singleBucket != s3Bucket && singleBucket != cfProxyBucket && s3Bucket != cfProxyBucket
    }

    ghost predicate Valid()
      reads this, config, iam, bulkBucket, singleBucket, s3Bucket, cfProxyBucket
    {
      Apart() && Sound(Snapshot())
    }

    static method LoadLimits(config: C.ConfigManager, env: C.Env) returns (l: Limits)
      requires CachePositive(config.State())
      modifies config
      ensures l.Positive()
      ensures config.State() == C.Loaded(old(config.State()))
      ensures l == LimitsOf(C.RegistryOf(old(config.State())), env)
      ensures C.CacheIsCurrent(old(config.State())) ==>
                && C.IsSetting(config.table, env, C.BulkRate, l.bulkRate)
                && C.IsSetting(config.table, env, C.BulkBucketSize, l.bulkSize)
                && C.IsSetting(config.table, env, C.SingleRate, l.singleRate)
                && C.IsSetting(config.table, env, C.SingleBucketSize, l.singleSize)
                && C.IsSetting(config.table, env, C.S3Rps, l.s3Rps)
                && C.IsSetting(config.table, env, C.S3Burst, l.s3Burst)
                && C.IsSetting(config.table, env, C.CfProxyRps, l.cfProxyRps)
                && C.IsSetting(config.table, env, C.CfProxyBurst, l.cfProxyBurst)
                && (forall ms :: C.IsSetting(config.table, env, C.KeyCacheTtlMs, ms) ==> l.keyCacheTtlMs == Ceil(ms))
    {
      if C.CacheIsCurrent(config.State()) { C.ResolvesToTheSetting(config.State(), env, C.KeyCacheTtlMs); }
      hide C.IsSetting, C.Parsed, Ceil;
      var gw := config.GetConfig(env);
      l := Limits(gw[C.BulkRate], gw[C.BulkBucketSize], gw[C.SingleRate], gw[C.SingleBucketSize],
                  gw[C.S3Rps], gw[C.S3Burst], gw[C.CfProxyRps], gw[C.CfProxyBurst], Ceil(gw[C.KeyCacheTtlMs]));
    }

    constructor (table: map<C.Name, C.Cell>, keys: map<string, K.ApiKey>, env: C.Env, now: int)
      requires PositiveTable(keys)
      ensures Valid() && this.env == env && Snapshot() == Boot(table, keys, env, now)
      ensures forall ms :: C.IsSetting(table, env, C.KeyCacheTtlMs, ms) ==> iam.cacheTtlMs == Ceil(ms)
      ensures fresh(bulkBucket) && fresh(singleBucket) && fresh(s3Bucket) && fresh(cfProxyBucket) && fresh(config)
              && fresh(iam)
    {
      hide Sound, C.Resolve, C.Parsed, C.IsSetting, Ceil;
      BootIsSound(table, keys, env, now);
      var config := new C.ConfigManager(table);
      var l := LoadLimits(config, env);
      var iam := new K.IamManager(keys, l.keyCacheTtlMs);
      this.env, this.config, this.iam := env, config, iam;
      var bulk := new TokenBucket(l.bulkRate, l.bulkSize, now);
      var single := new TokenBucket(l.singleRate, l.singleSize, now);
      var s3 := new TokenBucket(l.s3Rps, l.s3Burst, now);
      var cfProxy := new TokenBucket(l.cfProxyRps, l.cfProxyBurst, now);
      bulkBucket, singleBucket, s3Bucket, cfProxyBucket := bulk, single, s3, cfProxy;
      keyBuckets, uses := [], [];
    }

    // -------------------------------------------------------------- configuration

    /** A new object for changed parameters; the old object is not touched. */
    static method Replacement(b: TokenBucket, rate: real, size: real, now: int) returns (r: TokenBucket, changed: bool)
      requires rate > 0.0 && size > 0.0
      ensures changed <==> Changed(b.State(), rate, size)
      ensures if changed then fresh(r) else r == b
      ensures r.State() == Kept(b.State(), rate, size, now)
    {
      changed := b.rate != rate || b.bucketSize != size;
      r := b;
      if changed { r := new TokenBucket(rate, size, now); }
    }

    method RebuildPurgeBuckets(l: Limits, now: int)
      requires Apart() && l.Positive()
      modifies this
      ensures Apart()
      ensures var s := old(Snapshot());
              Snapshot() == s.(bulk := Kept(s.bulk, l.bulkRate, l.bulkSize, now),
                               single := Kept(s.single, l.singleRate, l.singleSize, now),
                               keyBuckets := if Changed(s.bulk, l.bulkRate, l.bulkSize)
                                 || Changed(s.single, l.singleRate, l.singleSize)
                                             then [] else s.keyBuckets)
    {
      hide Sound, Kept, Changed;
      var bulk, bulkChanged := Replacement(bulkBucket, l.bulkRate, l.bulkSize, now);
      var single, singleChanged := Replacement(singleBucket, l.singleRate, l.singleSize, now);
      bulkBucket, singleBucket := bulk, single;
      if bulkChanged || singleChanged { keyBuckets := []; }
    }

    method RebuildProxyBuckets(l: Limits, now: int)
      requires Apart() && l.Positive()
      modifies this
      ensures Apart()
      ensures var s := old(Snapshot());
              Snapshot() == s.(s3 := Kept(s.s3, l.s3Rps, l.s3Burst, now),
                               cfProxy := Kept(s.cfProxy, l.cfProxyRps, l.cfProxyBurst, now))
    {
      hide Sound, Kept, Changed;
      var s3, _ := Replacement(s3Bucket, l.s3Rps, l.s3Burst, now);
      var cfProxy, _ := Replacement(cfProxyBucket, l.cfProxyRps, l.cfProxyBurst, now);
      s3Bucket, cfProxyBucket := s3, cfProxy;
    }

    method RebuildBuckets(now: int)
      requires Apart() && CachePositive(config.State())
      modifies this, config
      ensures Snapshot() == Rebuilt(old(Snapshot()), env, now) && Apart()
    {
      hide Sound, Kept, Changed, C.Resolve, C.Parsed;
      var l := LoadLimits(config, env);
      RebuildPurgeBuckets(l, now);
      RebuildProxyBuckets(l, now);
    }

    method SetConfig(updates: seq<C.Update>, now: int) returns (thrown: bool, gw: map<C.ConfigKey, real>)
      requires Valid() && Legal(Snapshot(), Action.SetConfig(updates, now))
      modifies this, config
      ensures Valid() && Snapshot() == Next(old(Snapshot()), env, Action.SetConfig(updates, now))
      ensures thrown <==> !C.AllAccepted(updates)
      ensures !thrown ==> forall k: C.ConfigKey :: k in gw && gw[k] == Config(Snapshot(), env, k)
    {
      hide Sound, Kept, Changed, C.Resolve, C.Parsed, Legal;
      StepKeepsSound(Snapshot(), env, Action.SetConfig(updates, now));
      gw := map[];
      thrown := config.SetConfig(updates);
      if thrown { return; }
      RebuildBuckets(now);
      gw := config.GetConfig(env);
    }

    method ResetConfigKey(name: C.Name, now: int) returns (thrown: bool, deleted: bool, gw: map<C.ConfigKey, real>)
      requires Valid()
      modifies this, config
      ensures Valid() && Snapshot() == Next(old(Snapshot()), env, Action.ResetConfigKey(name, now))
      ensures thrown == name.Unlisted? && deleted == (!thrown && name in old(config.table))
      ensures !thrown ==> forall k: C.ConfigKey :: k in gw && gw[k] == Config(Snapshot(), env, k)
    {
      hide Sound, Kept, Changed, C.Resolve, C.Parsed;
      StepKeepsSound(Snapshot(), env, Action.ResetConfigKey(name, now));
      gw := map[];
      thrown, deleted := config.ResetKey(name);
      if thrown { return; }
      if deleted { RebuildBuckets(now); }
      gw := config.GetConfig(env);
    }

    // -------------------------------------------------------------- keys

    method CreateKey(req: K.CreateRequest, id: string, now: int) returns (key: K.ApiKey)
      requires Valid() && Legal(Snapshot(), Action.CreateKey(req, id, now))
      modifies iam
      ensures Valid() && Snapshot() == Next(old(Snapshot()), env, Action.CreateKey(req, id, now))
      ensures key == K.NewRow(req, id, now)
    {
      StepKeepsSound(Snapshot(), env, Action.CreateKey(req, id, now));
      hide Sound;
      key := iam.CreateKey(req, id, now);
    }

    method Authorize(rt: Runtime, id: string, zone: string, contexts: seq<RequestContext>, now: int)
      returns (r: K.AuthResult)
      requires Valid()
      modifies iam
      ensures Valid() && Snapshot() == Next(old(Snapshot()), env, Action.Authorize(id, iam.cacheTtlMs, now))
      ensures r == K.AuthorizeOutcome(rt, old(iam.State()), id, zone, contexts, iam.cacheTtlMs, now)
      ensures old(K.Coherent(iam.State())) ==> r == K.Decide(rt, iam.table, id, zone, contexts, now)
      ensures old(K.Coherent(iam.State())) && r.Granted? ==>
                id in iam.table && r.keyName == iam.table[id].name && r.upstreamTokenId == iam.table[id].upstreamTokenId
    {
      StepKeepsSound(Snapshot(), env, Action.Authorize(id, iam.cacheTtlMs, now));
      hide Sound;
      r := iam.Authorize(rt, id, zone, contexts, now);
    }

    /** The key store's part of `cleanupExpired`. */
    method CleanupExpired(now: int) returns (keysRevoked: nat)
      requires Valid()
      modifies iam
      ensures Valid() && Snapshot() == Next(old(Snapshot()), env, Action.CleanupExpired(now))
      ensures keysRevoked == |set id | id in old(iam.table) && K.Due(old(iam.table)[id], now)|
    {
      StepKeepsSound(Snapshot(), env, Action.CleanupExpired(now));
      hide Sound;
      keysRevoked := iam.RevokeExpired(now);
    }

    method RevokeKey(id: string) returns (changed: bool)
      requires Valid()
      modifies this, iam
      ensures Valid() && Snapshot() == Next(old(Snapshot()), env, Action.RevokeKey(id))
      ensures changed <==> id in old(iam.table) && !old(iam.table)[id].revoked
    {
      hide Sound;
      StepKeepsSound(Snapshot(), env, Action.RevokeKey(id));
      keyBuckets := Without(keyBuckets, id);
      changed := iam.RevokeKey(id);
    }

    method DeleteKey(id: string) returns (deleted: bool)
      requires Valid()
      modifies this, iam
      ensures Valid() && Snapshot() == Next(old(Snapshot()), env, Action.DeleteKey(id))
      ensures deleted <==> id in old(iam.table)
    {
      hide Sound;
      StepKeepsSound(Snapshot(), env, Action.DeleteKey(id));
      keyBuckets := Without(keyBuckets, id);
      deleted := iam.DeleteKey(id);
    }

    method RotateKey(id: string, o: K.Overrides, newId: string, now: int) returns (newKey: Option<K.ApiKey>)
      requires Valid() && Legal(Snapshot(), Action.RotateKey(id, o, newId, now))
      modifies this, iam
      ensures Valid() && Snapshot() == Next(old(Snapshot()), env, Action.RotateKey(id, o, newId, now))
      ensures newKey.Some? <==> K.CanRotate(old(iam.State()), id, now)
    {
      StepKeepsSound(Snapshot(), env, Action.RotateKey(id, o, newId, now));
      newKey := iam.RotateKey(id, o, newId, now);
      if newKey.Some? { keyBuckets := Without(keyBuckets, id); }
    }

    method UpdateKey(id: string, u: K.KeyUpdate) returns (key: Option<K.ApiKey>)
      requires Valid() && Legal(Snapshot(), Action.UpdateKey(id, u))
      modifies this, iam
      ensures Valid() && Snapshot() == Next(old(Snapshot()), env, Action.UpdateKey(id, u))
      ensures key.Some? <==> K.CanUpdate(old(iam.State()), id)
    {
      hide Sound, Legal;
      StepKeepsSound(Snapshot(), env, Action.UpdateKey(id, u));
      key := iam.UpdateKey(id, u);
      if key.Some? { keyBuckets := Without(keyBuckets, id); }
    }

    /** The loop after a bulk call: the buckets of every id that the call reports as gone. */
    method DropBuckets(ids: seq<string>, results: seq<K.BulkStatus>)
      requires |ids| == |results|
      modifies this
      ensures Snapshot() == old(Snapshot()).(keyBuckets := WithoutAll(old(keyBuckets), RevokedIds(ids, results)))
      ensures Apart() == old(Apart())
    {
      WithoutNone(keyBuckets);
      ghost var gone := {};
      for i := 0 to |ids|
        invariant gone == RevokedIds(ids[..i], results[..i])
        invariant keyBuckets == WithoutAll(old(keyBuckets), gone)
        invariant Snapshot() == old(Snapshot()).(keyBuckets := keyBuckets) && Apart() == old(Apart())
      {
        assert RevokedIds(ids[..i + 1], results[..i + 1])
               == gone + if results[i] in {K.BulkStatus.Revoked, K.Deleted} then {ids[i]} else {};
        if results[i] in {K.BulkStatus.Revoked, K.Deleted} {
          WithoutAllPlus(old(keyBuckets), gone, ids[i]);
          keyBuckets := Without(keyBuckets, ids[i]);
          gone := gone + {ids[i]};
        }
      }
      assert ids[..|ids|] == ids && results[..|ids|] == results;
    }

    method BulkRevokeKeys(ids: seq<string>) returns (results: seq<K.BulkStatus>)
      requires Valid()
      modifies this, iam
      ensures Valid() && Snapshot() == Next(old(Snapshot()), env, Action.BulkRevokeKeys(ids))
      ensures results == K.BulkRevokeResults(old(iam.State()), ids)
    {
      hide Sound;
      StepKeepsSound(Snapshot(), env, Action.BulkRevokeKeys(ids));
      ResultsAlign(iam.State(), ids);
      results := iam.BulkRevoke(ids);
      DropBuckets(ids, results);
    }

    method BulkDeleteKeys(ids: seq<string>) returns (results: seq<K.BulkStatus>)
      requires Valid()
      modifies this, iam
      ensures Valid() && Snapshot() == Next(old(Snapshot()), env, Action.BulkDeleteKeys(ids))
      ensures results == K.BulkDeleteResults(old(iam.State()), ids)
    {
      hide Sound;
      StepKeepsSound(Snapshot(), env, Action.BulkDeleteKeys(ids));
      ResultsAlign(iam.State(), ids);
      results := iam.BulkDelete(ids);
      DropBuckets(ids, results);
    }

    // -------------------------------------------------------------- the account buckets

    function BucketOf(k: RateClass): TokenBucket
      reads this
    {
      if k.Single? then singleBucket else bulkBucket
    }

    method Consume(k: RateClass, count: real, now: int) returns (r: ConsumeResult)
      requires Valid()
      modifies bulkBucket, singleBucket
      ensures Valid() && Snapshot() == Next(old(Snapshot()), env, AccountOp(AccountOf(k), Op.Consume(count), now))
      ensures r == ConsumeOutcome(old(BucketOf(k).State()), count, now)
    {
      StepKeepsSound(Snapshot(), env, AccountOp(AccountOf(k), Op.Consume(count), now));
      assert bulkBucket.State().Valid() && singleBucket.State().Valid() && s3Bucket.State().Valid()
        && cfProxyBucket.State().Valid();
      hide Sound;
      var bucket := BucketOf(k);
      r := bucket.Consume(count, now);
    }

    method ConsumeS3RateLimit(now: int) returns (r: ConsumeResult)
      requires Valid()
      modifies s3Bucket
      ensures Valid() && Snapshot() == Next(old(Snapshot()), env, AccountOp(S3Account, Op.Consume(1.0), now))
      ensures r == ConsumeOutcome(old(s3Bucket.State()), 1.0, now)
    {
      StepKeepsSound(Snapshot(), env, AccountOp(S3Account, Op.Consume(1.0), now));
      assert bulkBucket.State().Valid() && singleBucket.State().Valid() && s3Bucket.State().Valid()
        && cfProxyBucket.State().Valid();
      hide Sound;
      var bucket := s3Bucket;
      r := bucket.Consume(1.0, now);
    }

    method ConsumeCfProxyRateLimit(now: int) returns (r: ConsumeResult)
      requires Valid()
      modifies cfProxyBucket
      ensures Valid() && Snapshot() == Next(old(Snapshot()), env, AccountOp(CfProxyAccount, Op.Consume(1.0), now))
      ensures r == ConsumeOutcome(old(cfProxyBucket.State()), 1.0, now)
    {
      StepKeepsSound(Snapshot(), env, AccountOp(CfProxyAccount, Op.Consume(1.0), now));
      assert bulkBucket.State().Valid() && singleBucket.State().Valid() && s3Bucket.State().Valid()
        && cfProxyBucket.State().Valid();
      hide Sound;
      var bucket := cfProxyBucket;
      r := bucket.Consume(1.0, now);
    }

    method DrainCfProxyBucket(now: int)
      requires Valid()
      modifies cfProxyBucket
      ensures Valid() && Snapshot() == Next(old(Snapshot()), env, AccountOp(CfProxyAccount, Op.Drain, now))
    {
      StepKeepsSound(Snapshot(), env, AccountOp(CfProxyAccount, Op.Drain, now));
      hide Sound;
      cfProxyBucket.Drain(now);
    }

    method DrainBucket(k: RateClass, now: int)
      requires Valid()
      modifies bulkBucket, singleBucket
      ensures Valid() && Snapshot() == Next(old(Snapshot()), env, AccountOp(AccountOf(k), Op.Drain, now))
    {
      StepKeepsSound(Snapshot(), env, AccountOp(AccountOf(k), Op.Drain, now));
      hide Sound;
      var bucket := BucketOf(k);
      bucket.Drain(now);
    }

    method GetRateLimitInfo(k: RateClass, now: int) returns (remaining: int, seconds: int, size: real, rate: real)
      requires Valid()
      modifies bulkBucket, singleBucket
      ensures Valid() && Snapshot() == Next(old(Snapshot()), env, AccountOp(AccountOf(k), Op.GetRemaining, now))
      ensures var b := old(BucketOf(k).State());
              remaining == Remaining(b, now) && seconds == SecondsUntilRefill(b, now)
                && (rate, size) == (b.rate, b.bucketSize)
    {
      StepKeepsSound(Snapshot(), env, AccountOp(AccountOf(k), Op.GetRemaining, now));
      assert bulkBucket.State().Valid() && singleBucket.State().Valid();
      hide Sound;
      var bucket := BucketOf(k);
      RefillKeepsValid(bucket.State(), now);
      remaining := bucket.GetRemaining(now);
      seconds := bucket.GetSecondsUntilRefill(now);
      size, rate := bucket.bucketSize, bucket.rate;
    }

    // -------------------------------------------------------------- purge

    /** Takes the entry out of the map, or makes a new one, evicting the oldest at capacity. */
    method TakeBuckets(id: string, now: int) returns (buckets: KeyBuckets)
      requires Valid() && id in iam.table
      modifies this, config
      ensures var s := old(Snapshot());
              Snapshot() == s.(config := if HasEntry(s.keyBuckets, id) then s.config else C.Loaded(s.config),
                               keyBuckets := Others(s, id))
      ensures buckets == old(BucketsOf(Snapshot(), env, id, now)) && Apart()
    {
      if HasEntry(keyBuckets, id) {
        buckets := Entry(keyBuckets, id);
        keyBuckets := Without(keyBuckets, id);
      } else {
        if |keyBuckets| >= MAX_KEY_BUCKETS { keyBuckets := keyBuckets[1..]; }
        var key := iam.table[id];
        var l := LoadLimits(config, env);
        buckets := KeyBuckets(id,
          NewBucket(key.bulkRate.GetOr(l.bulkRate), key.bulkBucket.GetOr(l.bulkSize), now),
          NewBucket(key.singleRate.GetOr(l.singleRate), key.singleBucket.GetOr(l.singleSize), now));
      }
    }

    /** None: the purge may go on. The account buckets are not touched. */
    method CheckPerKeyRateLimit(id: string, k: RateClass, tokens: real, now: int) returns (r: Option<P.PurgeResult>)
      requires Valid()
      modifies this, config
      ensures Valid() && Snapshot() == Next(old(Snapshot()), env, CheckPerKey(id, k, tokens, now))
      ensures Sound(old(Snapshot())) && r == CheckOutcome(old(Snapshot()), env, id, k, tokens, now)
      ensures r.Some? ==> r.value.status == 429 && !r.value.reachedUpstream && r.value.remaining == 0
    {
      hide Sound, Others, BucketsOf;
      CheckKeepsSound(Snapshot(), env, id, k, tokens, now);
      if id !in iam.table { return None; }
      var key := iam.table[id];
      var hasBulkLimit := key.bulkRate.Some? && key.bulkBucket.Some?;
      var hasSingleLimit := key.singleRate.Some? && key.singleBucket.Some?;
      if (k.Bulk? && !hasBulkLimit) || (k.Single? && !hasSingleLimit) { return None; }
      var buckets := TakeBuckets(id, now);
      var bucket := if k.Single? then buckets.single else buckets.bulk;
      var result := ConsumeOutcome(bucket, tokens, now);
      bucket := Consumed(bucket, tokens, now);
      keyBuckets := keyBuckets + [if k.Single? then buckets.(single := bucket) else buckets.(bulk := bucket)];
      uses := uses + [id];
      r := if result.allowed then None else Some(P.Refusal(bucket, result));
    }

    /**
     `doPurge` up to the fetch: what is settled already is the refusal, what is pending goes upstream.
     The bucket object is the one that the rest of this `doPurge` will use, whatever replaces it.
     */
    method BeginPurge(k: RateClass, tokens: real, now: int)
      returns (bucket: TokenBucket, promise: F.Promise<P.PurgeResult>)
      requires Valid()
      modifies bulkBucket, singleBucket
      ensures Valid() && bucket == BucketOf(k)
      ensures Snapshot() == Next(old(Snapshot()), env, AccountOp(AccountOf(k), Op.Consume(Charge(tokens)), now))
      ensures var b := old(BucketOf(k).State());
              var r := ConsumeOutcome(b, Charge(tokens), now);
              promise == if r.allowed then F.Pending else F.Resolved(P.Refusal(b, r))
      ensures promise.Resolved? ==>
                promise.value.status == 429 && !promise.value.reachedUpstream && promise.value.remaining == 0
    {
      assert bulkBucket.State().Valid() && singleBucket.State().Valid();
      hide Sound;
      StepKeepsSound(Snapshot(), env, AccountOp(AccountOf(k), Op.Consume(Charge(tokens)), now));
      bucket := BucketOf(k);
      var r := bucket.Consume(if tokens <= 0.0 then 1.0 else tokens, now);
      promise := if r.allowed then F.Pending else F.Resolved(P.Refusal(bucket.State(), r));
    }
  }

  /** The fetch of a `doPurge` threw. */
  method OnFetchError(bucket: TokenBucket, now: int) returns (r: P.PurgeResult)
    requires bucket.State().Valid()
    modifies bucket
    ensures bucket.State() == Refilled(old(bucket.State()), now)
    ensures r == P.FetchFailed(old(bucket.State()), now) && r.status == 502 && !r.reachedUpstream
  {
    RefillKeepsValid(bucket.State(), now);
    var remaining := bucket.GetRemaining(now);
    var seconds := bucket.GetSecondsUntilRefill(now);
    r := P.PurgeResult(502, P.FAILED_BODY, false, false, remaining, Some(seconds as real), bucket.bucketSize,
                       bucket.rate);
  }

  /** The response head arrived: a 429 drains the bucket at once, before the body is read. */
  method OnResponse(bucket: TokenBucket, status: int, now: int)
    modifies bucket
    ensures bucket.State() == if status == 429 then Drained(old(bucket.State()), now) else old(bucket.State())
  {
    if status == 429 { bucket.Drain(now); }
  }

  /** The body arrived. */
  method OnBody(bucket: TokenBucket, status: int, body: string, header: P.RetryAfter, now: int)
    returns (r: P.PurgeResult)
    requires bucket.State().Valid()
    modifies bucket
    ensures bucket.State() == if status == 429 then old(bucket.State()) else Refilled(old(bucket.State()), now)
    ensures r == P.Upstream(old(bucket.State()), status, body, header, now)
    ensures r.status == status && r.body == body && r.reachedUpstream
  {
    if status == 429 {
      return P.PurgeResult(429, body, false, true, 0, P.ReportedWait(header), bucket.bucketSize, bucket.rate);
    }
    RefillKeepsValid(bucket.State(), now);
    var remaining := bucket.GetRemaining(now);
    var seconds := bucket.GetSecondsUntilRefill(now);
    r := P.PurgeResult(status, body, false, true, remaining, Some(seconds as real), bucket.bucketSize, bucket.rate);
  }
}
