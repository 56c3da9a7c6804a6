/**
 The Gatekeeper object: `src/durable-object.ts`. Account buckets, per-key buckets with their LRU map,
 the rebuild on configuration change, and the calls that change keys or configuration.

 `keyBuckets` is a JavaScript `Map`: a list of entries in insertion order. `uses` records which key
 each successful lookup or insertion was for; the code has no such record.
 */
module Gatekeeper {
  import opened Prelude
  import opened TokenBuckets
  import opened PolicyTypes
  import C = ConfigRegistry
  import K = KeyStore
  import P = PurgeProtocol

  const MAX_KEY_BUCKETS := 1024

  datatype KeyBuckets = KeyBuckets(id: string, bulk: BucketState, single: BucketState)

  datatype State =
    State(config: C.ConfigState, iam: K.IamState,
          bulk: BucketState, single: BucketState, s3: BucketState, cfProxy: BucketState,
          keyBuckets: seq<KeyBuckets>, uses: seq<string>)

  // ---------------------------------------------------------------- the map of per-key buckets

  predicate HasEntry(m: seq<KeyBuckets>, id: string) {
    exists i :: 0 <= i < |m| && m[i].id == id
  }

  function Entry(m: seq<KeyBuckets>, id: string): (e: KeyBuckets)
    requires HasEntry(m, id)
    ensures e in m && e.id == id
  {
    if m[0].id == id then m[0] else Entry(m[1..], id)
  }

  /** `map.delete(id)` */
  function Without(m: seq<KeyBuckets>, id: string): (r: seq<KeyBuckets>)
    ensures |r| <= |m| && !HasEntry(r, id)
  {
    if m == [] then [] else (if m[0].id == id then [] else [m[0]]) + Without(m[1..], id)
  }

  function WithoutAll(m: seq<KeyBuckets>, ids: set<string>): seq<KeyBuckets> {
    if m == [] then [] else (if m[0].id in ids then [] else [m[0]]) + WithoutAll(m[1..], ids)
  }

  // ---------------------------------------------------------------- the operations

  function Config(s: State, env: C.Env, k: C.ConfigKey): real {
    C.Resolve(C.RegistryOf(s.config), env, k)
  }

  /** The old bucket object if the parameters are unchanged, a full new one otherwise. */
  function Kept(b: BucketState, rate: real, size: real, now: int): BucketState {
    if b.rate != rate || b.bucketSize != size then NewBucket(rate, size, now) else b
  }

  predicate Changed(b: BucketState, rate: real, size: real) {
    b.rate != rate || b.bucketSize != size
  }

  function Rebuilt(s: State, env: C.Env, now: int): State {
    State(
      C.Loaded(s.config), s.iam,
      Kept(s.bulk, Config(s, env, C.BulkRate), Config(s, env, C.BulkBucketSize), now),
      Kept(s.single, Config(s, env, C.SingleRate), Config(s, env, C.SingleBucketSize), now),
      Kept(s.s3, Config(s, env, C.S3Rps), Config(s, env, C.S3Burst), now),
      Kept(s.cfProxy, Config(s, env, C.CfProxyRps), Config(s, env, C.CfProxyBurst), now),
      if Changed(s.bulk, Config(s, env, C.BulkRate), Config(s, env, C.BulkBucketSize))
         || Changed(s.single, Config(s, env, C.SingleRate), Config(s, env, C.SingleBucketSize))
      then [] else s.keyBuckets,
      s.uses)
  }

  /** A throw leaves before the rebuild. */
  function AfterSetConfig(s: State, env: C.Env, updates: seq<C.Update>, now: int): State {
    var s1 := s.(config := C.AfterSet(s.config, updates));
    if C.AllAccepted(updates) then Rebuilt(s1, env, now) else s1
  }

  function AfterResetConfigKey(s: State, env: C.Env, name: C.Name, now: int): State {
    if name.Unlisted? then s
    else
      var s1 := s.(config := C.AfterReset(s.config, name));
      if name in s.config.table then Rebuilt(s1, env, now) else s1.(config := C.Loaded(s1.config))
  }

  function NewKeyBuckets(row: K.ApiKey, s: State, env: C.Env, id: string, now: int): KeyBuckets {
    KeyBuckets(id,
      NewBucket(row.bulkRate.GetOr(Config(s, env, C.BulkRate)),
                row.bulkBucket.GetOr(Config(s, env, C.BulkBucketSize)), now),
      NewBucket(row.singleRate.GetOr(Config(s, env, C.SingleRate)),
                row.singleBucket.GetOr(Config(s, env, C.SingleBucketSize)), now))
  }

  function BucketFor(e: KeyBuckets, k: RateClass): BucketState {
    if k.Single? then e.single else e.bulk
  }

  function WithBucket(e: KeyBuckets, k: RateClass, b: BucketState): KeyBuckets {
    if k.Single? then e.(single := b) else e.(bulk := b)
  }

  /** Whether the check applies to the key at all. */
  predicate Limited(s: State, id: string, k: RateClass) {
    id in s.iam.table && K.EffectiveLimit(s.iam.table[id], k).Some?
  }

  /** The buckets the check consumes from: the key's own, or new ones. */
  function BucketsOf(s: State, env: C.Env, id: string, now: int): KeyBuckets
    requires id in s.iam.table
  {
    if HasEntry(s.keyBuckets, id) then Entry(s.keyBuckets, id) else NewKeyBuckets(s.iam.table[id], s, env, id, now)
  }

  /** The other entries: a hit leaves its place, a miss at capacity evicts the first. */
  function Others(s: State, id: string): seq<KeyBuckets> {
    if HasEntry(s.keyBuckets, id) then Without(s.keyBuckets, id)
    else if |s.keyBuckets| >= MAX_KEY_BUCKETS then s.keyBuckets[1..]
    else s.keyBuckets
  }

  function AfterCheck(s: State, env: C.Env, id: string, k: RateClass, tokens: real, now: int): State {
    if !Limited(s, id, k) then s
    else
      var e := BucketsOf(s, env, id, now);
      s.(config := if HasEntry(s.keyBuckets, id) then s.config else C.Loaded(s.config),
         keyBuckets := Others(s, id) + [WithBucket(e, k, Consumed(BucketFor(e, k), tokens, now))],
         uses := s.uses + [id])
  }

  /** The refusal of the per-key check; None lets the purge go on. */
  function CheckOutcome(s: State, env: C.Env, id: string, k: RateClass, tokens: real, now: int): Option<P.PurgeResult>
    requires Sound(s)
  {
    if !Limited(s, id, k) then None
    else
      CheckKeepsSound(s, env, id, k, tokens, now);
      var b := BucketFor(BucketsOf(s, env, id, now), k);
      var r := ConsumeOutcome(b, tokens, now);
      if r.allowed then None else Some(P.Refusal(b, r))
  }

  function RevokedIds(ids: seq<string>, results: seq<K.BulkStatus>): set<string>
    requires |ids| == |results|
  {
    set i | 0 <= i < |ids| && results[i] in {K.BulkStatus.Revoked, K.Deleted} :: ids[i]
  }

  datatype Account = BulkAccount | SingleAccount | S3Account | CfProxyAccount

  function AccountOf(k: RateClass): Account {
    if k.Single? then SingleAccount else BulkAccount
  }

  function AccountBucket(s: State, account: Account): BucketState {
    match account
    case BulkAccount => s.bulk
    case SingleAccount => s.single
    case S3Account => s.s3
    case CfProxyAccount => s.cfProxy
  }

  /** The two settings that an account bucket is built from. */
  function RateKey(account: Account): C.ConfigKey {
    match account
    case BulkAccount => C.BulkRate
    case SingleAccount => C.SingleRate
    case S3Account => C.S3Rps
    case CfProxyAccount => C.CfProxyRps
  }

  function SizeKey(account: Account): C.ConfigKey {
    match account
    case BulkAccount => C.BulkBucketSize
    case SingleAccount => C.SingleBucketSize
    case S3Account => C.S3Burst
    case CfProxyAccount => C.CfProxyBurst
  }

  datatype Action =
    | SetConfig(updates: seq<C.Update>, now: int)
    | ResetConfigKey(name: C.Name, now: int)
    | CreateKey(req: K.CreateRequest, id: string, now: int)
    | RevokeKey(id: string)
    | DeleteKey(id: string)
    | RotateKey(id: string, overrides: K.Overrides, newId: string, now: int)
    | UpdateKey(id: string, update: K.KeyUpdate)
    | BulkRevokeKeys(ids: seq<string>)
    | BulkDeleteKeys(ids: seq<string>)
    | CleanupExpired(now: int)
    | Authorize(id: string, ttl: int, now: int)
    | CheckPerKey(id: string, rateClass: RateClass, tokens: real, now: int)
    | AccountOp(account: Account, op: Op, now: int)

  lemma {:induction false} ResultsAlign(s: K.IamState, ids: seq<string>)
    ensures |K.BulkRevokeResults(s, ids)| == |ids| && |K.BulkDeleteResults(s, ids)| == |ids|
    decreases |ids|
  {
    if ids != [] {
      ResultsAlign(K.RevokeItem(s, ids[0]).0, ids[1..]);
      ResultsAlign(K.AfterDelete(s, ids[0]), ids[1..]);
    }
  }

  function Next(s: State, env: C.Env, a: Action): State {
    match a
    case SetConfig(updates, now) => AfterSetConfig(s, env, updates, now)
    case ResetConfigKey(name, now) => AfterResetConfigKey(s, env, name, now)
    case CreateKey(req, id, now) => s.(iam := K.AfterCreate(s.iam, req, id, now))
    case RevokeKey(id) => s.(iam := K.AfterRevoke(s.iam, id), keyBuckets := Without(s.keyBuckets, id))
    case DeleteKey(id) => s.(iam := K.AfterDelete(s.iam, id), keyBuckets := Without(s.keyBuckets, id))
    case RotateKey(id, o, newId, now) =>
      if K.CanRotate(s.iam, id, now)
      then s.(iam := K.AfterRotate(s.iam, id, o, newId, now), keyBuckets := Without(s.keyBuckets, id))
      else s
    case UpdateKey(id, u) =>
      if K.CanUpdate(s.iam, id)
      then s.(iam := K.AfterUpdate(s.iam, id, u), keyBuckets := Without(s.keyBuckets, id))
      else s
    case BulkRevokeKeys(ids) =>
      ResultsAlign(s.iam, ids);
      s.(iam := K.AfterBulkRevoke(s.iam, ids),
         keyBuckets := WithoutAll(s.keyBuckets, RevokedIds(ids, K.BulkRevokeResults(s.iam, ids))))
    case BulkDeleteKeys(ids) =>
      ResultsAlign(s.iam, ids);
      s.(iam := K.AfterBulkDelete(s.iam, ids),
         keyBuckets := WithoutAll(s.keyBuckets, RevokedIds(ids, K.BulkDeleteResults(s.iam, ids))))
    case CleanupExpired(now) => s.(iam := K.AfterRevokeExpired(s.iam, now))
    case Authorize(id, ttl, now) => s.(iam := K.AfterLookup(s.iam, id, ttl, now))
    case CheckPerKey(id, k, tokens, now) => AfterCheck(s, env, id, k, tokens, now)
    case AccountOp(account, op, now) =>
      match account
      case BulkAccount => s.(bulk := Apply(s.bulk, Event(op, now)))
      case SingleAccount => s.(single := Apply(s.single, Event(op, now)))
      case S3Account => s.(s3 := Apply(s.s3, Event(op, now)))
      case CfProxyAccount => s.(cfProxy := Apply(s.cfProxy, Event(op, now)))
  }

  /** A gatekeeper as its constructor leaves it, over the stored rows. */
  function Boot(table: map<C.Name, C.Cell>, keys: map<string, K.ApiKey>, env: C.Env, now: int): State {
    var config := C.Loaded(C.ConfigState(table, None));
    var r := C.RegistryOf(config);
    State(config, K.IamState(keys, map[], keys.Keys),
          NewBucket(C.Resolve(r, env, C.BulkRate), C.Resolve(r, env, C.BulkBucketSize), now),
          NewBucket(C.Resolve(r, env, C.SingleRate), C.Resolve(r, env, C.SingleBucketSize), now),
          NewBucket(C.Resolve(r, env, C.S3Rps), C.Resolve(r, env, C.S3Burst), now),
          NewBucket(C.Resolve(r, env, C.CfProxyRps), C.Resolve(r, env, C.CfProxyBurst), now),
          [], [])
  }

  /** A gatekeeper starts with full account buckets, each with the rate and size that are set for it. */
  lemma BootFollowsSettings(table: map<C.Name, C.Cell>, keys: map<string, K.ApiKey>, env: C.Env, now: int)
    ensures var s := Boot(table, keys, env, now);
            && C.IsSetting(table, env, C.BulkRate, s.bulk.rate)
            && C.IsSetting(table, env, C.BulkBucketSize, s.bulk.bucketSize)
            && C.IsSetting(table, env, C.SingleRate, s.single.rate)
            && C.IsSetting(table, env, C.SingleBucketSize, s.single.bucketSize)
            && C.IsSetting(table, env, C.S3Rps, s.s3.rate) && C.IsSetting(table, env, C.S3Burst, s.s3.bucketSize)
            && C.IsSetting(table, env, C.CfProxyRps, s.cfProxy.rate)
            && C.IsSetting(table, env, C.CfProxyBurst, s.cfProxy.bucketSize)
            && (forall account :: var b := AccountBucket(s, account); b.tokens == b.bucketSize && b.lastRefill == now)
            && s.keyBuckets == [] && s.iam.table == keys
  {
    var config := C.Loaded(C.ConfigState(table, None));
    forall k ensures C.IsSetting(table, env, k, C.Resolve(C.RegistryOf(config), env, k)) {
      C.ResolvesToTheSetting(config, env, k);
    }
    hide C.IsSetting, C.Resolve, C.RegistryOf;
  }

  // ---------------------------------------------------------------- what callers must respect

  predicate PositiveOrNone(x: Option<real>) {
    x.Some? ==> x.value > 0.0
  }

  predicate PositiveRates(row: K.ApiKey) {
    PositiveOrNone(row.bulkRate) && PositiveOrNone(row.bulkBucket) && PositiveOrNone(row.singleRate)
      && PositiveOrNone(row.singleBucket)
  }

  /** Ids are fresh, rates positive, and the names of a configuration update distinct. */
  predicate Legal(s: State, a: Action) {
    match a
    case CreateKey(req, id, now) => id !in s.iam.used && PositiveRates(K.NewRow(req, id, now))
    case RotateKey(_, _, newId, _) => newId !in s.iam.used
    case UpdateKey(id, u) => id in s.iam.table ==> PositiveRates(K.UpdatedRow(s.iam.table[id], u))
    case SetConfig(updates, _) => C.DistinctNames(updates)
    case _ => true
  }

  // ---------------------------------------------------------------- configuration and buckets in step

  predicate Has(b: BucketState, rate: real, size: real) {
    b.Valid() && b.rate == rate && b.bucketSize == size
  }

  /** Every account bucket has the parameters that the cached registry resolves to. */
  predicate FollowsCache(s: State, env: C.Env) {
    && s.config.cache.Some? && (forall n <- s.config.cache.value :: s.config.cache.value[n] > 0.0)
    && Has(s.bulk, Config(s, env, C.BulkRate), Config(s, env, C.BulkBucketSize))
    && Has(s.single, Config(s, env, C.SingleRate), Config(s, env, C.SingleBucketSize))
    && Has(s.s3, Config(s, env, C.S3Rps), Config(s, env, C.S3Burst))
    && Has(s.cfProxy, Config(s, env, C.CfProxyRps), Config(s, env, C.CfProxyBurst))
  }

  /** In step, each account bucket has the rate and size that the table and the environment set for it. */
  lemma InStepFollowsSettings(s: State, env: C.Env)
    requires InStep(s, env)
    ensures var table := s.config.table;
            && C.IsSetting(table, env, C.BulkRate, s.bulk.rate)
            && C.IsSetting(table, env, C.BulkBucketSize, s.bulk.bucketSize)
            && C.IsSetting(table, env, C.SingleRate, s.single.rate)
            && C.IsSetting(table, env, C.SingleBucketSize, s.single.bucketSize)
            && C.IsSetting(table, env, C.S3Rps, s.s3.rate) && C.IsSetting(table, env, C.S3Burst, s.s3.bucketSize)
            && C.IsSetting(table, env, C.CfProxyRps, s.cfProxy.rate)
            && C.IsSetting(table, env, C.CfProxyBurst, s.cfProxy.bucketSize)
  {
    forall k ensures C.IsSetting(s.config.table, env, k, Config(s, env, k)) {
      C.ResolvesToTheSetting(s.config, env, k);
    }
    hide C.IsSetting, Config;
  }

  /** Moreover the cached registry is what the table says. */
  predicate InStep(s: State, env: C.Env) {
    FollowsCache(s, env) && s.config.cache == Some(C.Parsed(s.config.table))
  }

  lemma RebuildFollows(s: State, env: C.Env, now: int)
    requires s.config.cache.Some? ==> forall n <- s.config.cache.value :: s.config.cache.value[n] > 0.0
    requires s.bulk.Valid() && s.single.Valid() && s.s3.Valid() && s.cfProxy.Valid()
    ensures FollowsCache(Rebuilt(s, env, now), env)
  {
  }

  /** The update is valid, or what it wrote before the bad entry was there already. */
  predicate Harmless(s: State, a: Action) {
    a.SetConfig? && !C.AllAccepted(a.updates) ==>
      forall i :: 0 <= i < C.AcceptedPrefix(a.updates) ==> C.ChangesNothing(s.config.table, a.updates[i])
  }

  /**
   When a configuration call keeps table, cache and buckets in step: exactly when the update is valid,
   or every entry before its first bad one repeats the stored value. Otherwise rows are written that
   the cache does not show and the buckets do not follow.
   */
  lemma SetConfigKeepsInStepIff(s: State, env: C.Env, updates: seq<C.Update>, now: int)
    requires InStep(s, env) && C.DistinctNames(updates)
    ensures InStep(AfterSetConfig(s, env, updates, now), env) <==> Harmless(s, SetConfig(updates, now))
  {
    if C.AllAccepted(updates) {
      RebuildFollows(s.(config := C.AfterSet(s.config, updates)), env, now);
    } else {
      C.WrittenLeavesRegistryIff(s.config.table, updates);
    }
  }

  /**
   A failed update leaves the buckets with the cached registry, and the next valid update repairs what
   the failed one left behind, also for the rows that the failed one wrote.
   */
  lemma ValidUpdateRepairs(s: State, env: C.Env, failed: seq<C.Update>, updates: seq<C.Update>, now: int, later: int)
    requires InStep(s, env) && !C.AllAccepted(failed) && C.AllAccepted(updates)
    ensures var s1 := AfterSetConfig(s, env, failed, now); var s2 := AfterSetConfig(s1, env, updates, later);
            && FollowsCache(s1, env) && InStep(s2, env)
            && s2.config.table == C.Written(C.Written(s.config.table, failed), updates)
  {
    var s1 := AfterSetConfig(s, env, failed, now);
    RebuildFollows(s1.(config := C.AfterSet(s1.config, updates)), env, later);
  }

  /**
   Resetting a key that has no row reloads the cache without rebuilding, so every bucket stays as it is.
   After a failed update that puts all three in step exactly if the rows that the update left behind resolve
   to what the cache said before, for every rate and size.
   */
  lemma ResetOfMissingRowKeepsInStepIff(s: State, env: C.Env, name: C.Name, now: int)
    requires FollowsCache(s, env) && !name.Unlisted? && name !in s.config.table
    ensures var s' := AfterResetConfigKey(s, env, name, now);
            && s'.config == C.ConfigState(s.config.table, Some(C.Parsed(s.config.table)))
            && (forall account :: AccountBucket(s', account) == AccountBucket(s, account))
              && s'.keyBuckets == s.keyBuckets
            && (InStep(s', env) <==> forall account ::
                  && C.Resolve(C.Parsed(s.config.table), env, RateKey(account)) == Config(s, env, RateKey(account))
                  && C.Resolve(C.Parsed(s.config.table), env, SizeKey(account)) == Config(s, env, SizeKey(account)))
  {
    hide C.Resolve, C.Parsed;
    assert s.config.table - {name} == s.config.table;
    var s' := AfterResetConfigKey(s, env, name, now);
    assert forall n <- s'.config.cache.value :: s'.config.cache.value[n] > 0.0 by { ParsedIsPositive(s.config.table); }
    forall account
      ensures Has(AccountBucket(s, account), Config(s, env, RateKey(account)), Config(s, env, SizeKey(account)))
    {}
    assert InStep(s', env) <==> forall account ::
             Has(AccountBucket(s', account), Config(s', env, RateKey(account)), Config(s', env, SizeKey(account))) by {
      AccountsInStep(s', env);
    }
    assert forall k :: Config(s', env, k) == C.Resolve(C.Parsed(s.config.table), env, k);
  }

  lemma ParsedIsPositive(table: map<C.Name, C.Cell>)
    ensures forall n <- C.Parsed(table) :: C.Parsed(table)[n] > 0.0
  {
  }

  /** The conjunction over the four buckets, as a quantifier. */
  lemma AccountsInStep(s: State, env: C.Env)
    requires s.config.cache == Some(C.Parsed(s.config.table))
    ensures InStep(s, env) <==> forall account ::
              Has(AccountBucket(s, account), Config(s, env, RateKey(account)), Config(s, env, SizeKey(account)))
  {
    hide C.Resolve, C.Parsed, Has;
    ParsedIsPositive(s.config.table);
    assert RateKey(BulkAccount) == C.BulkRate && RateKey(SingleAccount) == C.SingleRate;
    assert RateKey(S3Account) == C.S3Rps && RateKey(CfProxyAccount) == C.CfProxyRps;
  }

  /** It happens: an update with a bad second entry, then a reset of a key that was never set. */
  lemma FailedUpdateThenResetLeavesBucketsBehind(now: int)
    ensures var s := Boot(map[], map[], map[], now);
            var updates := [C.Update(C.Known(C.BulkRate), Some(7.0)), C.Update(C.Known(C.SingleRate), None)];
            var s1 := AfterSetConfig(s, map[], updates, now);
            var s2 := AfterResetConfigKey(s1, map[], C.Known(C.S3Rps), now);
            && InStep(s, map[]) && s2.bulk.rate == 50.0 && Config(s2, map[], C.BulkRate) == 7.0 && !InStep(s2, map[])
  {
    var s := Boot(map[], map[], map[], now);
    var first, second := C.Update(C.Known(C.BulkRate), Some(7.0)), C.Update(C.Known(C.SingleRate), None);
    assert [first, second][1..] == [second] && !C.Accepted([first, second][1]);
    assert C.Written(s.config.table, [first, second]) == map[C.Known(C.BulkRate) := C.Number(7.0)];
  }

  lemma StepKeepsInStep(s: State, env: C.Env, a: Action)
    requires InStep(s, env) && Legal(s, a) && Harmless(s, a)
    ensures InStep(Next(s, env, a), env)
  {
    hide Kept, Changed, C.Resolve, C.Written;
    match a
    case SetConfig(updates, now) => SetConfigKeepsInStepIff(s, env, updates, now);
    case ResetConfigKey(name, now) =>
      if !name.Unlisted? && name in s.config.table {
        RebuildFollows(s.(config := C.AfterReset(s.config, name)), env, now);
      } else if !name.Unlisted? {
        assert s.config.table - {name} == s.config.table;
      }
    case AccountOp(_, op, now) =>
      ApplyKeepsValid(s.bulk, Event(op, now));
      ApplyKeepsValid(s.single, Event(op, now));
      ApplyKeepsValid(s.s3, Event(op, now));
      ApplyKeepsValid(s.cfProxy, Event(op, now));
    case _ =>
  }

  // ---------------------------------------------------------------- what happens to an account bucket

  predicate SameParameters(b: BucketState, c: BucketState) {
    b.rate == c.rate && b.bucketSize == c.bucketSize
  }

  /** What the step asks of the bucket itself. */
  function AccountEvent(a: Action, account: Account): seq<Event> {
    if a.AccountOp? && a.account == account then [Event(a.op, a.now)] else []
  }

  /**
   A step that leaves both parameters of a bucket alone leaves the bucket alone, but for the step's own use
   of it. This needs nothing of the state, so it holds after failed updates too.
   */
  lemma StepOnAccount(s: State, env: C.Env, a: Action, account: Account)
    requires SameParameters(AccountBucket(s, account), AccountBucket(Next(s, env, a), account))
    ensures AccountBucket(Next(s, env, a), account) == Run(AccountBucket(s, account), AccountEvent(a, account))
  {
    hide C.Resolve, Apply;
    if a.AccountOp? && a.account == account {
      RunOne(AccountBucket(s, account), Event(a.op, a.now));
    }
  }

  /** Both parameters of the bucket stay the same through the run. */
  predicate KeepsParameters(s: State, env: C.Env, acts: seq<Action>, account: Account)
    decreases |acts|
  {
    acts == [] || (SameParameters(AccountBucket(s, account), AccountBucket(Next(s, env, acts[0]), account))
                   && KeepsParameters(Next(s, env, acts[0]), env, acts[1..], account))
  }

  function AccountEvents(acts: seq<Action>, account: Account): seq<Event> {
    if acts == [] then [] else AccountEvent(acts[0], account) + AccountEvents(acts[1..], account)
  }

  /** Then the bucket at the end is the bucket at the start after exactly the calls that used it. */
  lemma {:induction false} AccountRuns(s: State, env: C.Env, acts: seq<Action>, account: Account)
    requires KeepsParameters(s, env, acts, account)
    ensures AccountBucket(End(s, env, acts), account) == Run(AccountBucket(s, account), AccountEvents(acts, account))
    decreases |acts|
  {
    hide Next, SameParameters, AccountEvent;
    if acts != [] {
      StepOnAccount(s, env, acts[0], account);
      AccountRuns(Next(s, env, acts[0]), env, acts[1..], account);
      RunSplits(AccountBucket(s, account), AccountEvent(acts[0], account), AccountEvents(acts[1..], account));
    }
  }

  /** The resolved rate and size of the account, which are what callers of the configuration see. */
  function Limits(s: State, env: C.Env, account: Account): (real, real) {
    (Config(s, env, RateKey(account)), Config(s, env, SizeKey(account)))
  }

  lemma InStepMeansLimits(s: State, env: C.Env, account: Account)
    requires InStep(s, env)
    ensures AccountBucket(s, account).Valid()
    ensures Limits(s, env, account) == (AccountBucket(s, account).rate, AccountBucket(s, account).bucketSize)
  {
  }

  /**
   A configuration call, `setConfig` or `resetConfigKey`, leaves an account bucket alone, tokens included,
   exactly if both resolved parameters stay the same.
   */
  lemma ConfigCallKeepsTokensIff(s: State, env: C.Env, a: Action, account: Account)
    requires InStep(s, env) && Legal(s, a) && Harmless(s, a) && (a.SetConfig? || a.ResetConfigKey?)
    ensures AccountBucket(Next(s, env, a), account) == AccountBucket(s, account)
            <==> Limits(Next(s, env, a), env, account) == Limits(s, env, account)
  {
    StepKeepsInStep(s, env, a);
    InStepMeansLimits(s, env, account);
    InStepMeansLimits(Next(s, env, a), env, account);
    hide Next, InStep, Limits, Legal, Harmless;
    if Limits(Next(s, env, a), env, account) == Limits(s, env, account) {
      StepOnAccount(s, env, a, account);
      assert AccountEvent(a, account) == [];
    }
  }

  /** The resolved rate and size of the account stay the same through the run. */
  predicate KeepsLimits(s: State, env: C.Env, acts: seq<Action>, account: Account)
    decreases |acts|
  {
    acts == [] || (Limits(Next(s, env, acts[0]), env, account) == Limits(s, env, account)
                   && KeepsLimits(Next(s, env, acts[0]), env, acts[1..], account))
  }

  /** Over runs, the parameters of the bucket move exactly when the resolved ones do. */
  lemma {:induction false} KeepsLimitsIff(s: State, env: C.Env, acts: seq<Action>, account: Account)
    requires InStep(s, env) && Runs(s, env, acts)
    ensures KeepsLimits(s, env, acts, account) <==> KeepsParameters(s, env, acts, account)
    decreases |acts|
  {
    hide Next, InStep, Limits, Legal, Harmless;
    if acts != [] {
      StepKeepsInStep(s, env, acts[0]);
      InStepMeansLimits(s, env, account);
      InStepMeansLimits(Next(s, env, acts[0]), env, account);
      KeepsLimitsIff(Next(s, env, acts[0]), env, acts[1..], account);
    }
  }

  /**
   Over every sequence of calls, configuration calls included: while the resolved rate and size of an account
   do not change, its bucket at the end is the bucket at the start after exactly the calls that used it.
   */
  lemma UnchangedLimitsKeepTokens(s: State, env: C.Env, acts: seq<Action>, account: Account)
    requires InStep(s, env) && Runs(s, env, acts) && KeepsLimits(s, env, acts, account)
    ensures AccountBucket(End(s, env, acts), account) == Run(AccountBucket(s, account), AccountEvents(acts, account))
  {
    KeepsLimitsIff(s, env, acts, account);
    AccountRuns(s, env, acts, account);
  }

  // ---------------------------------------------------------------- per-key buckets fit their rows

  /** Both buckets have what the row says, falling back to the resolved configuration. */
  predicate Fits(e: KeyBuckets, s: State, env: C.Env) {
    && e.id in s.iam.table
    && var row := s.iam.table[e.id];
    && Has(e.bulk, row.bulkRate.GetOr(Config(s, env, C.BulkRate)),
           row.bulkBucket.GetOr(Config(s, env, C.BulkBucketSize)))
    && Has(e.single, row.singleRate.GetOr(Config(s, env, C.SingleRate)),
           row.singleBucket.GetOr(Config(s, env, C.SingleBucketSize)))
  }

  predicate RowsOk(s: State) {
    K.Coherent(s.iam) && forall id <- s.iam.table :: PositiveRates(s.iam.table[id])
  }

  predicate AllFit(s: State, env: C.Env) {
    forall e <- s.keyBuckets :: Fits(e, s, env)
  }

  /** An entry of the map stays an entry only if it was one. */
  lemma {:induction false} WithoutKeeps(m: seq<KeyBuckets>, id: string, e: KeyBuckets)
    ensures e in Without(m, id) <==> e in m && e.id != id
  {
    if m != [] {
      WithoutKeeps(m[1..], id, e);
      assert e in m <==> e == m[0] || e in m[1..];
    }
  }

  lemma {:induction false} WithoutAllKeeps(m: seq<KeyBuckets>, ids: set<string>, e: KeyBuckets)
    ensures e in WithoutAll(m, ids) <==> e in m && e.id !in ids
  {
    if m != [] {
      WithoutAllKeeps(m[1..], ids, e);
      assert e in m <==> e == m[0] || e in m[1..];
    }
  }

  /** Deleting the ids of a set one after the other. */
  lemma {:induction false} WithoutAllPlus(m: seq<KeyBuckets>, ids: set<string>, id: string)
    ensures Without(WithoutAll(m, ids), id) == WithoutAll(m, ids + {id})
  {
    if m != [] {
      WithoutAllPlus(m[1..], ids, id);
      var rest := WithoutAll(m[1..], ids);
      assert WithoutAll(m, ids) == if m[0].id in ids then rest else [m[0]] + rest;
      assert ([m[0]] + rest)[1..] == rest;
    }
  }

  lemma {:induction false} WithoutNone(m: seq<KeyBuckets>)
    ensures WithoutAll(m, {}) == m
  {
    if m != [] { WithoutNone(m[1..]); }
  }

  /** Same rates and buckets; the rest of the row may differ. */
  predicate SameRates(row: K.ApiKey, row': K.ApiKey) {
    row.bulkRate == row'.bulkRate && row.bulkBucket == row'.bulkBucket
    && row.singleRate == row'.singleRate && row.singleBucket == row'.singleBucket
  }

  lemma {:induction false} MentionedFirst(ids: seq<string>, id: string) returns (i: nat)
    requires id in ids
    ensures i < |ids| && ids[i] == id && id !in ids[..i]
  {
    if ids[0] == id { i := 0; }
    else {
      var j := MentionedFirst(ids[1..], id);
      i := j + 1;
      assert ids[..i] == [ids[0]] + ids[1..][..j];
    }
  }

  /** Every id that a bulk delete removes from the table is among those whose buckets go. */
  lemma BulkDeletedIdsAreDropped(s: K.IamState, ids: seq<string>, id: string)
    requires id in s.table && id in ids && |K.BulkDeleteResults(s, ids)| == |ids|
    ensures id in RevokedIds(ids, K.BulkDeleteResults(s, ids))
  {
    var i := MentionedFirst(ids, id);
    K.BulkDeleteReports(s, ids, i);
  }

  lemma BulkKeepsRates(s: State, env: C.Env, a: Action, e: KeyBuckets)
    requires (a.BulkRevokeKeys? || a.BulkDeleteKeys?) && e in Next(s, env, a).keyBuckets && e.id in s.iam.table
    ensures e.id in Next(s, env, a).iam.table && SameRates(s.iam.table[e.id], Next(s, env, a).iam.table[e.id])
  {
    ResultsAlign(s.iam, a.ids);
    if a.BulkRevokeKeys? {
      K.BulkRevokeTable(s.iam, a.ids);
    } else {
      WithoutAllKeeps(s.keyBuckets, RevokedIds(a.ids, K.BulkDeleteResults(s.iam, a.ids)), e);
      if e.id in a.ids { BulkDeletedIdsAreDropped(s.iam, a.ids, e.id); }
      K.BulkDeleteTable(s.iam, a.ids, e.id);
    }
  }

  /** Rows keep their rates in this step, for the ids that keep their buckets. */
  lemma StepKeepsRates(s: State, env: C.Env, a: Action, e: KeyBuckets)
    requires RowsOk(s) && Legal(s, a) && !a.CheckPerKey?
    requires e in Next(s, env, a).keyBuckets && e.id in s.iam.table
    ensures e.id in Next(s, env, a).iam.table && SameRates(s.iam.table[e.id], Next(s, env, a).iam.table[e.id])
  {
    hide K.NewRow, K.RotationRequest, K.UpdatedRow, PositiveRates;
    match a
    case DeleteKey(id) => WithoutKeeps(s.keyBuckets, id, e);
    case UpdateKey(id, _) => WithoutKeeps(s.keyBuckets, id, e);
    case BulkRevokeKeys(_) => BulkKeepsRates(s, env, a, e);
    case BulkDeleteKeys(_) => BulkKeepsRates(s, env, a, e);
    case _ =>
  }

  /** While an entry survives a step, the defaults that it falls back on do not change. */
  lemma StepKeepsDefaults(s: State, env: C.Env, a: Action, e: KeyBuckets)
    requires InStep(s, env) && Legal(s, a) && Harmless(s, a) && e in Next(s, env, a).keyBuckets
    ensures forall k :: k in {C.BulkRate, C.BulkBucketSize, C.SingleRate, C.SingleBucketSize} ==>
              Config(Next(s, env, a), env, k) == Config(s, env, k)
  {
    StepKeepsInStep(s, env, a);
  }

  lemma CheckKeepsAllFit(s: State, env: C.Env, id: string, k: RateClass, tokens: real, now: int)
    requires InStep(s, env) && RowsOk(s) && AllFit(s, env)
    ensures AllFit(AfterCheck(s, env, id, k, tokens, now), env)
    ensures Limited(s, id, k) ==> BucketFor(BucketsOf(s, env, id, now), k).Valid()
  {
    if Limited(s, id, k) {
      var s' := AfterCheck(s, env, id, k, tokens, now);
      var e := BucketsOf(s, env, id, now);
      assert Fits(e, s, env) && e.id == id;
      ApplyKeepsValid(BucketFor(e, k), Event(Consume(tokens), now));
      forall x | x in s'.keyBuckets ensures Fits(x, s', env) {
        if x in Others(s, id) {
          if HasEntry(s.keyBuckets, id) { WithoutKeeps(s.keyBuckets, id, x); }
          assert x in s.keyBuckets;
        }
      }
    }
  }

  lemma StepKeepsAllFit(s: State, env: C.Env, a: Action)
    requires InStep(s, env) && RowsOk(s) && AllFit(s, env) && Legal(s, a) && Harmless(s, a)
    ensures AllFit(Next(s, env, a), env)
  {
    if a.CheckPerKey? {
      CheckKeepsAllFit(s, env, a.id, a.rateClass, a.tokens, a.now);
    } else {
      forall e | e in Next(s, env, a).keyBuckets ensures Fits(e, Next(s, env, a), env) {
        EntriesComeFromBefore(s, env, a, e);
        StepKeepsRates(s, env, a, e);
        StepKeepsDefaults(s, env, a, e);
      }
    }
  }

  lemma EntriesComeFromBefore(s: State, env: C.Env, a: Action, e: KeyBuckets)
    requires !a.CheckPerKey? && e in Next(s, env, a).keyBuckets
    ensures e in s.keyBuckets
  {
    match a
    case RevokeKey(id) => WithoutKeeps(s.keyBuckets, id, e);
    case DeleteKey(id) => WithoutKeeps(s.keyBuckets, id, e);
    case RotateKey(id, _, _, _) => WithoutKeeps(s.keyBuckets, id, e);
    case UpdateKey(id, _) => WithoutKeeps(s.keyBuckets, id, e);
    case BulkRevokeKeys(ids) =>
      ResultsAlign(s.iam, ids);
      WithoutAllKeeps(s.keyBuckets, RevokedIds(ids, K.BulkRevokeResults(s.iam, ids)), e);
    case BulkDeleteKeys(ids) =>
      ResultsAlign(s.iam, ids);
      WithoutAllKeeps(s.keyBuckets, RevokedIds(ids, K.BulkDeleteResults(s.iam, ids)), e);
    case _ =>
  }

  predicate PositiveTable(table: map<string, K.ApiKey>) {
    forall id <- table :: PositiveRates(table[id])
  }

  lemma BulkKeepsPositive(s: K.IamState, ids: seq<string>)
    requires PositiveTable(s.table)
    ensures PositiveTable(K.AfterBulkRevoke(s, ids).table) && PositiveTable(K.AfterBulkDelete(s, ids).table)
  {
    K.BulkRevokeTable(s, ids);
    forall id | id in K.AfterBulkDelete(s, ids).table ensures PositiveRates(K.AfterBulkDelete(s, ids).table[id]) {
      K.BulkDeleteTable(s, ids, id);
    }
  }

  lemma StepKeepsPositive(s: State, env: C.Env, a: Action)
    requires PositiveTable(s.iam.table) && Legal(s, a)
    ensures PositiveTable(Next(s, env, a).iam.table)
  {
    if a.BulkRevokeKeys? || a.BulkDeleteKeys? { BulkKeepsPositive(s.iam, a.ids); }
  }

  /** The credential operation that a step amounts to, if any. */
  function KeyOp(a: Action): Option<K.Op> {
    match a
    case CreateKey(req, id, now) => Some(K.Create(req, id, now))
    case RevokeKey(id) => Some(K.Revoke(id))
    case DeleteKey(id) => Some(K.Delete(id))
    case RotateKey(id, o, newId, now) => Some(K.Rotate(id, o, newId, now))
    case UpdateKey(id, u) => Some(K.Update(id, u))
    case BulkRevokeKeys(ids) => Some(K.BulkRevoke(ids))
    case BulkDeleteKeys(ids) => Some(K.BulkDelete(ids))
    case CleanupExpired(now) => Some(K.RevokeExpired(now))
    case Authorize(id, ttl, now) => Some(K.Authorize(id, ttl, now))
    case _ => None
  }

  /** The key store inside the gatekeeper takes its own steps and no others. */
  lemma StepIsKeyStoreStep(s: State, env: C.Env, a: Action)
    requires Legal(s, a)
    ensures KeyOp(a).Some? ==> K.Fresh(s.iam, KeyOp(a).value)
    ensures Next(s, env, a).iam == if KeyOp(a).Some? then K.Step(s.iam, KeyOp(a).value) else s.iam
  {
    if a.BulkRevokeKeys? || a.BulkDeleteKeys? { ResultsAlign(s.iam, a.ids); }
  }

  lemma StepKeepsRowsOk(s: State, env: C.Env, a: Action)
    requires RowsOk(s) && Legal(s, a)
    ensures RowsOk(Next(s, env, a))
  {
    hide Legal, K.Step, K.Coherent, Next;
    StepKeepsPositive(s, env, a);
    StepIsKeyStoreStep(s, env, a);
    if KeyOp(a).Some? { K.StepKeepsCoherent(s.iam, KeyOp(a).value); }
  }

  // ---------------------------------------------------------------- which calls take an entry away

  /** The call takes effect on this key, so that its buckets must not outlive it. */
  predicate TakesEffectOn(s: State, a: Action, id: string) {
    match a
    case RevokeKey(x) => x == id
    case DeleteKey(x) => x == id
    case RotateKey(x, _, _, now) =>
      x == id && id in s.iam.table && !s.iam.table[id].revoked && !K.PastExpiry(s.iam.table[id], now)
      && s.iam.table[id].policy.Readable?
    case UpdateKey(x, _) => x == id && id in s.iam.table && !s.iam.table[id].revoked
    case BulkRevokeKeys(ids) => id in ids && id in s.iam.table && !s.iam.table[id].revoked
    case BulkDeleteKeys(ids) => id in ids && id in s.iam.table
    case _ => false
  }

  /** The ids that a bulk call reports as gone are those it took effect on. */
  lemma ReportedAsGoneIff(s: State, a: Action, id: string)
    requires a.BulkRevokeKeys? || a.BulkDeleteKeys?
    ensures |K.BulkRevokeResults(s.iam, a.ids)| == |a.ids| && |K.BulkDeleteResults(s.iam, a.ids)| == |a.ids|
    ensures a.BulkRevokeKeys? ==>
              (id in RevokedIds(a.ids, K.BulkRevokeResults(s.iam, a.ids)) <==> TakesEffectOn(s, a, id))
    ensures a.BulkDeleteKeys? ==>
              (id in RevokedIds(a.ids, K.BulkDeleteResults(s.iam, a.ids)) <==> TakesEffectOn(s, a, id))
  {
    ResultsAlign(s.iam, a.ids);
    forall i | 0 <= i < |a.ids|
      ensures K.BulkRevokeResults(s.iam, a.ids)[i] == if a.ids[i] !in s.iam.table then K.NotFound
              else if s.iam.table[a.ids[i]].revoked || a.ids[i] in a.ids[..i] then K.AlreadyRevoked
              else K.BulkStatus.Revoked
      ensures K.BulkDeleteResults(s.iam, a.ids)[i]
              == if a.ids[i] in s.iam.table && a.ids[i] !in a.ids[..i] then K.Deleted else K.NotFound
    {
      K.BulkRevokeReports(s.iam, a.ids, i);
      K.BulkDeleteReports(s.iam, a.ids, i);
    }
    if TakesEffectOn(s, a, id) {
      var i := MentionedFirst(a.ids, id);
    }
  }

  /**
   A call on keys takes away the entries of the keys that it takes effect on, and no others; every other call but
   the check and the configuration calls leaves the map alone.
   */
  lemma KeyCallDropsIff(s: State, env: C.Env, a: Action, e: KeyBuckets)
    requires !a.CheckPerKey? && !a.SetConfig? && !a.ResetConfigKey?
    ensures e in Next(s, env, a).keyBuckets <==> e in s.keyBuckets && !TakesEffectOn(s, a, e.id)
  {
    match a
    case RevokeKey(id) => WithoutKeeps(s.keyBuckets, id, e);
    case DeleteKey(id) => WithoutKeeps(s.keyBuckets, id, e);
    case RotateKey(id, _, _, _) => WithoutKeeps(s.keyBuckets, id, e);
    case UpdateKey(id, _) => WithoutKeeps(s.keyBuckets, id, e);
    case BulkRevokeKeys(ids) =>
      ReportedAsGoneIff(s, a, e.id);
      WithoutAllKeeps(s.keyBuckets, RevokedIds(ids, K.BulkRevokeResults(s.iam, ids)), e);
    case BulkDeleteKeys(ids) =>
      ReportedAsGoneIff(s, a, e.id);
      WithoutAllKeeps(s.keyBuckets, RevokedIds(ids, K.BulkDeleteResults(s.iam, ids)), e);
    case _ =>
  }

  /** A configuration call empties the map exactly if it changes a parameter of a purge bucket. */
  lemma ConfigCallEmptiesIff(s: State, env: C.Env, a: Action)
    requires a.SetConfig? || a.ResetConfigKey?
    ensures var s' := Next(s, env, a);
            s'.keyBuckets == if SameParameters(s.bulk, s'.bulk) && SameParameters(s.single, s'.single)
                             then s.keyBuckets else []
  {
    hide C.Resolve, C.Written;
  }

  // ---------------------------------------------------------------- least recently used

  /** The position of the last use of `id`, or -1. */
  function LastUse(uses: seq<string>, id: string): (i: int)
    ensures -1 <= i < |uses| && (i >= 0 ==> uses[i] == id)
  {
    if uses == [] then -1
    else if uses[|uses| - 1] == id then |uses| - 1
    else LastUse(uses[..|uses| - 1], id)
  }

  /** Within the cap, and in the order of last use, which also makes the ids distinct. */
  predicate LruOk(m: seq<KeyBuckets>, uses: seq<string>) {
    && |m| <= 1024
    && (forall i :: 0 <= i < |m| ==> LastUse(uses, m[i].id) >= 0)
    && (forall i, j :: 0 <= i < j < |m| ==> LastUse(uses, m[i].id) < LastUse(uses, m[j].id))
  }

  lemma LastUseAppend(uses: seq<string>, x: string, id: string)
    ensures LastUse(uses + [x], id) == if id == x then |uses| else LastUse(uses, id)
  {
    assert (uses + [x])[..|uses|] == uses;
  }

  lemma {:induction false} WithoutShortens(m: seq<KeyBuckets>, id: string)
    ensures HasEntry(m, id) ==> |Without(m, id)| < |m|
  {
    if m != [] {
      WithoutShortens(m[1..], id);
      if HasEntry(m, id) && m[0].id != id {
        var j :| 0 <= j < |m| && m[j].id == id;
        assert m[1..][j - 1].id == id;
      }
    }
  }

  /** The first entry stays in front of what is left of the others. */
  lemma FirstStaysFirst(m: seq<KeyBuckets>, rest: seq<KeyBuckets>, uses: seq<string>)
    requires m != [] && LruOk(m, uses) && LruOk(rest, uses) && |rest| < |m|
    requires forall e <- rest :: e in m[1..]
    ensures LruOk([m[0]] + rest, uses)
  {
    hide LastUse;
    forall i | 0 <= i < |rest| ensures LastUse(uses, m[0].id) < LastUse(uses, rest[i].id) {
      assert rest[i] in m[1..];
      var j :| 0 <= j < |m[1..]| && m[1..][j] == rest[i];
      assert m[j + 1] == rest[i];
    }
  }

  lemma LruTail(m: seq<KeyBuckets>, uses: seq<string>)
    requires m != [] && LruOk(m, uses)
    ensures LruOk(m[1..], uses)
  {
    hide LastUse;
  }

  lemma {:induction false} WithoutKeepsOrder(m: seq<KeyBuckets>, id: string, uses: seq<string>)
    requires LruOk(m, uses)
    ensures LruOk(Without(m, id), uses)
  {
    hide LruOk;
    if m != [] {
      var rest := Without(m[1..], id);
      LruTail(m, uses);
      WithoutKeepsOrder(m[1..], id, uses);
      forall e | e in rest ensures e in m[1..] { WithoutKeeps(m[1..], id, e); }
      FirstStaysFirst(m, rest, uses);
      assert [] + rest == rest;
    } else {
      assert Without(m, id) == m;
    }
  }

  lemma {:induction false} WithoutAllKeepsOrder(m: seq<KeyBuckets>, ids: set<string>, uses: seq<string>)
    requires LruOk(m, uses)
    ensures LruOk(WithoutAll(m, ids), uses) && |WithoutAll(m, ids)| <= |m|
  {
    hide LruOk;
    if m != [] {
      var rest := WithoutAll(m[1..], ids);
      LruTail(m, uses);
      WithoutAllKeepsOrder(m[1..], ids, uses);
      forall e | e in rest ensures e in m[1..] { WithoutAllKeeps(m[1..], ids, e); }
      FirstStaysFirst(m, rest, uses);
      assert [] + rest == rest;
    } else {
      assert WithoutAll(m, ids) == m;
    }
  }

  lemma AppendKeepsOrder(m: seq<KeyBuckets>, e: KeyBuckets, uses: seq<string>)
    requires LruOk(m, uses) && |m| < MAX_KEY_BUCKETS && !HasEntry(m, e.id)
    ensures LruOk(m + [e], uses + [e.id])
  {
    forall i | 0 <= i <= |m|
      ensures LastUse(uses + [e.id], (m + [e])[i].id) == if i < |m| then LastUse(uses, m[i].id) else |uses|
    {
      LastUseAppend(uses, e.id, (m + [e])[i].id);
    }
  }

  lemma CheckKeepsLru(s: State, env: C.Env, id: string, k: RateClass, tokens: real, now: int)
    requires LruOk(s.keyBuckets, s.uses)
    ensures var s' := AfterCheck(s, env, id, k, tokens, now); LruOk(s'.keyBuckets, s'.uses)
  {
    if Limited(s, id, k) {
      var others := Others(s, id);
      WithoutKeepsOrder(s.keyBuckets, id, s.uses);
      WithoutShortens(s.keyBuckets, id);
      assert LruOk(others, s.uses) && |others| < MAX_KEY_BUCKETS && !HasEntry(others, id) by {
        if !HasEntry(s.keyBuckets, id) {
          assert forall i :: 0 <= i < |others| ==> others[i] in s.keyBuckets;
        }
      }
      var e := BucketsOf(s, env, id, now);
      AppendKeepsOrder(others, WithBucket(e, k, Consumed(BucketFor(e, k), tokens, now)), s.uses);
    }
  }

  lemma StepKeepsLru(s: State, env: C.Env, a: Action)
    requires LruOk(s.keyBuckets, s.uses)
    ensures LruOk(Next(s, env, a).keyBuckets, Next(s, env, a).uses)
  {
    match a
    case CheckPerKey(id, k, tokens, now) => CheckKeepsLru(s, env, id, k, tokens, now);
    case RevokeKey(id) => WithoutKeepsOrder(s.keyBuckets, id, s.uses);
    case DeleteKey(id) => WithoutKeepsOrder(s.keyBuckets, id, s.uses);
    case RotateKey(id, _, _, _) => WithoutKeepsOrder(s.keyBuckets, id, s.uses);
    case UpdateKey(id, _) => WithoutKeepsOrder(s.keyBuckets, id, s.uses);
    case BulkRevokeKeys(ids) =>
      ResultsAlign(s.iam, ids);
      WithoutAllKeepsOrder(s.keyBuckets, RevokedIds(ids, K.BulkRevokeResults(s.iam, ids)), s.uses);
    case BulkDeleteKeys(ids) =>
      ResultsAlign(s.iam, ids);
      WithoutAllKeepsOrder(s.keyBuckets, RevokedIds(ids, K.BulkDeleteResults(s.iam, ids)), s.uses);
    case _ =>
  }

  function Order(m: seq<KeyBuckets>): seq<string> {
    seq(|m|, i requires 0 <= i < |m| => m[i].id)
  }

  function SetOf(ids: seq<string>): set<string> {
    set x <- ids
  }

  lemma {:induction false} DistinctCount(ids: seq<string>)
    requires forall i, j :: 0 <= i < j < |ids| ==> ids[i] != ids[j]
    ensures |SetOf(ids)| == |ids|
  {
    if ids != [] {
      DistinctCount(ids[1..]);
      assert SetOf(ids) == SetOf(ids[1..]) + {ids[0]};
    }
  }

  /** A check keeps every entry but the first one, which goes at capacity for a key that has none. */
  lemma OnlyTheFirstIsEvicted(s: State, env: C.Env, id: string, k: RateClass, tokens: real, now: int, i: nat)
    requires Limited(s, id, k) && i < |s.keyBuckets|
    requires HasEntry(s.keyBuckets, id) || |s.keyBuckets| < 1024 || i > 0
    ensures HasEntry(AfterCheck(s, env, id, k, tokens, now).keyBuckets, s.keyBuckets[i].id)
  {
    var m, m', e := s.keyBuckets, AfterCheck(s, env, id, k, tokens, now).keyBuckets, s.keyBuckets[i];
    assert m'[|m'| - 1].id == id;
    if e.id != id {
      var others := Others(s, id);
      assert e in others by {
        if HasEntry(m, id) {
          WithoutKeeps(m, id, e);
        } else if |m| >= MAX_KEY_BUCKETS {
          assert others[i - 1] == e;
        }
      }
      var j :| 0 <= j < |others| && others[j] == e;
      assert m'[j].id == e.id;
    }
  }

  /**
   Eviction needs 1024 other keys: when a check evicts an entry, it is the least recently used one,
   and since its last use at least 1024 different keys have been used, counting the new one. So a
   key that is used again before 1024 others keeps its buckets.
   */
  lemma EvictedKeyIsLongUnused(s: State, env: C.Env, id: string, k: RateClass, tokens: real, now: int, i: nat)
    requires LruOk(s.keyBuckets, s.uses) && Limited(s, id, k) && i < |s.keyBuckets|
    requires !HasEntry(AfterCheck(s, env, id, k, tokens, now).keyBuckets, s.keyBuckets[i].id)
    ensures forall j :: 0 <= j < |s.keyBuckets| && j != i ==>
            LastUse(s.uses, s.keyBuckets[i].id) < LastUse(s.uses, s.keyBuckets[j].id)
    ensures exists since: set<string> ::
              |since| == 1024
              && forall x <- since :: LastUse(s.uses + [id], x) > LastUse(s.uses, s.keyBuckets[i].id)
  {
    hide LastUse, AfterCheck;
    var m, rest := s.keyBuckets, Order(s.keyBuckets[1..]);
    if HasEntry(m, id) || |m| < MAX_KEY_BUCKETS || i > 0 {
      OnlyTheFirstIsEvicted(s, env, id, k, tokens, now, i);
      assert false;
    }
    assert forall j :: 0 <= j < |rest| ==> rest[j] == m[j + 1].id;
    DistinctCount(rest);
    var since := SetOf(rest) + {id};
    forall x | x in since ensures LastUse(s.uses + [id], x) > LastUse(s.uses, m[0].id) {
      LastUseAppend(s.uses, id, x);
    }
    assert id !in rest;
    assert |since| == |rest| + 1;
  }

  // ---------------------------------------------------------------- what even failed updates keep

  /** Enough for every call to be served: positive parameters and valid buckets everywhere. */
  ghost predicate Sound(s: State) {
    && (s.config.cache.Some? ==> forall n <- s.config.cache.value :: s.config.cache.value[n] > 0.0)
    && s.bulk.Valid() && s.single.Valid() && s.s3.Valid() && s.cfProxy.Valid()
    && PositiveTable(s.iam.table) && s.iam.table.Keys <= s.iam.used
    && forall e <- s.keyBuckets :: e.bulk.Valid() && e.single.Valid()
  }

  lemma BootIsSound(table: map<C.Name, C.Cell>, keys: map<string, K.ApiKey>, env: C.Env, now: int)
    requires PositiveTable(keys)
    ensures Sound(Boot(table, keys, env, now))
  {
  }

  lemma CheckKeepsSound(s: State, env: C.Env, id: string, k: RateClass, tokens: real, now: int)
    requires Sound(s)
    ensures Sound(AfterCheck(s, env, id, k, tokens, now))
    ensures Limited(s, id, k) ==> BucketFor(BucketsOf(s, env, id, now), k).Valid()
  {
    if Limited(s, id, k) {
      var s' := AfterCheck(s, env, id, k, tokens, now);
      var e := BucketsOf(s, env, id, now);
      ApplyKeepsValid(BucketFor(e, k), Event(Consume(tokens), now));
      forall x | x in s'.keyBuckets ensures x.bulk.Valid() && x.single.Valid() {
        if x in Others(s, id) {
          if HasEntry(s.keyBuckets, id) { WithoutKeeps(s.keyBuckets, id, x); }
          assert x in s.keyBuckets;
        }
      }
    }
  }

  lemma StepKeepsBucketsValid(s: State, env: C.Env, a: Action)
    requires Sound(s)
    ensures var s' := Next(s, env, a); s'.bulk.Valid() && s'.single.Valid() && s'.s3.Valid() && s'.cfProxy.Valid()
    ensures var c := Next(s, env, a).config.cache; c.Some? ==> forall n <- c.value :: c.value[n] > 0.0
  {
    hide Kept, Changed, C.Resolve, C.Written;
    match a
    case SetConfig(updates, now) =>
      if C.AllAccepted(updates) { RebuildFollows(s.(config := C.AfterSet(s.config, updates)), env, now); }
    case ResetConfigKey(name, now) =>
      if !name.Unlisted? && name in s.config.table {
        RebuildFollows(s.(config := C.AfterReset(s.config, name)), env, now);
      }
    case AccountOp(_, op, now) =>
      ApplyKeepsValid(s.bulk, Event(op, now));
      ApplyKeepsValid(s.single, Event(op, now));
      ApplyKeepsValid(s.s3, Event(op, now));
      ApplyKeepsValid(s.cfProxy, Event(op, now));
    case _ =>
  }

  lemma {:induction false} BulkKeepsUsed(s: K.IamState, ids: seq<string>)
    requires s.table.Keys <= s.used
    ensures K.AfterBulkRevoke(s, ids).table.Keys <= K.AfterBulkRevoke(s, ids).used
    ensures K.AfterBulkDelete(s, ids).table.Keys <= K.AfterBulkDelete(s, ids).used
    decreases |ids|
  {
    if ids != [] {
      BulkKeepsUsed(K.RevokeItem(s, ids[0]).0, ids[1..]);
      BulkKeepsUsed(K.AfterDelete(s, ids[0]), ids[1..]);
    }
  }

  lemma StepKeepsUsed(s: K.IamState, op: K.Op)
    requires s.table.Keys <= s.used
    ensures K.Step(s, op).table.Keys <= K.Step(s, op).used
  {
    if op.BulkRevoke? || op.BulkDelete? { BulkKeepsUsed(s, op.ids); }
  }

  /** Also after failed configuration updates, whatever they wrote. */
  lemma StepKeepsSound(s: State, env: C.Env, a: Action)
    requires Sound(s) && Legal(s, a)
    ensures Sound(Next(s, env, a))
  {
    if a.CheckPerKey? {
      CheckKeepsSound(s, env, a.id, a.rateClass, a.tokens, a.now);
    } else {
      StepKeepsPositive(s, env, a);
      StepIsKeyStoreStep(s, env, a);
      StepKeepsBucketsValid(s, env, a);
      hide Next, Legal, K.Step, PositiveTable;
      if KeyOp(a).Some? { StepKeepsUsed(s.iam, KeyOp(a).value); }
      forall e | e in Next(s, env, a).keyBuckets ensures e.bulk.Valid() && e.single.Valid() {
        EntriesComeFromBefore(s, env, a, e);
      }
    }
  }

  // ---------------------------------------------------------------- all reachable states

  ghost predicate Inv(s: State, env: C.Env) {
    RowsOk(s) && InStep(s, env) && AllFit(s, env) && LruOk(s.keyBuckets, s.uses)
  }

  lemma BootHasInv(table: map<C.Name, C.Cell>, keys: map<string, K.ApiKey>, env: C.Env, now: int)
    requires PositiveTable(keys)
    ensures Inv(Boot(table, keys, env, now), env)
  {
  }

  lemma StepKeepsInv(s: State, env: C.Env, a: Action)
    requires Inv(s, env) && Legal(s, a) && Harmless(s, a)
    ensures Inv(Next(s, env, a), env)
  {
    hide Next, Legal, Harmless, RowsOk, InStep, AllFit, LruOk;
    StepKeepsRowsOk(s, env, a);
    StepKeepsInStep(s, env, a);
    StepKeepsAllFit(s, env, a);
    StepKeepsLru(s, env, a);
  }

  predicate Runs(s: State, env: C.Env, acts: seq<Action>)
    decreases |acts|
  {
    acts == [] || (Legal(s, acts[0]) && Harmless(s, acts[0]) && Runs(Next(s, env, acts[0]), env, acts[1..]))
  }

  function End(s: State, env: C.Env, acts: seq<Action>): State
    decreases |acts|
  {
    if acts == [] then s else End(Next(s, env, acts[0]), env, acts[1..])
  }

  /**
   In every state reachable from a start over stored rows: each entry of the per-key map has a row and
   exactly the rates and sizes of that row, falling back to the resolved configuration; the cached
   registry is the table and each account bucket has the resolved parameters; the map is within its
   cap and in order of last use; and the credential cache agrees with the key table.
   */
  lemma {:induction false} RunKeepsInv(s: State, env: C.Env, acts: seq<Action>)
    requires Inv(s, env) && Runs(s, env, acts)
    ensures Inv(End(s, env, acts), env)
    decreases |acts|
  {
    if acts != [] {
      hide Next, Legal, Harmless, RowsOk, InStep, AllFit, LruOk;
      StepKeepsInv(s, env, acts[0]);
      RunKeepsInv(Next(s, env, acts[0]), env, acts[1..]);
    }
  }

  lemma {:induction false} EndSplits(s: State, env: C.Env, xs: seq<Action>, ys: seq<Action>)
    ensures End(s, env, xs + ys) == End(End(s, env, xs), env, ys)
    decreases |xs|
  {
    hide Next;
    if xs == [] {
      assert xs + ys == ys;
    } else {
      assert (xs + ys)[1..] == xs[1..] + ys;
      EndSplits(Next(s, env, xs[0]), env, xs[1..], ys);
    }
  }

  lemma {:induction false} RunsJoin(s: State, env: C.Env, xs: seq<Action>, ys: seq<Action>)
    requires Runs(s, env, xs) && Runs(End(s, env, xs), env, ys)
    ensures Runs(s, env, xs + ys)
    decreases |xs|
  {
    hide Next, Legal, Harmless;
    if xs == [] {
      assert xs + ys == ys;
    } else {
      assert (xs + ys)[1..] == xs[1..] + ys;
      RunsJoin(Next(s, env, xs[0]), env, xs[1..], ys);
    }
  }

  function KeyOps(acts: seq<Action>): seq<K.Op> {
    if acts == [] then []
    else (if KeyOp(acts[0]).Some? then [KeyOp(acts[0]).value] else []) + KeyOps(acts[1..])
  }

  /** Refinement: what a run does to keys is a run of the key store, so everything proved there holds here. */
  lemma {:induction false} RunsAreKeyStoreRuns(s: State, env: C.Env, acts: seq<Action>)
    requires Runs(s, env, acts)
    ensures K.FreshRun(s.iam, KeyOps(acts)) && K.End(s.iam, KeyOps(acts)) == End(s, env, acts).iam
    decreases |acts|
  {
    if acts != [] {
      StepIsKeyStoreStep(s, env, acts[0]);
      RunsAreKeyStoreRuns(Next(s, env, acts[0]), env, acts[1..]);
      hide Next, Legal, Harmless, K.Fresh, K.Step;
      if KeyOp(acts[0]).Some? {
        assert ([KeyOp(acts[0]).value] + KeyOps(acts[1..]))[1..] == KeyOps(acts[1..]);
      } else {
        assert [] + KeyOps(acts[1..]) == KeyOps(acts[1..]);
      }
    }
  }

  /**
   After any run of the whole object, `authorize` answers what the current table decides, and never
   grants an id that was revoked or deleted at the start of the run.
   */
  lemma AuthorizationAfterAnyRun(rt: Runtime, s: State, env: C.Env, acts: seq<Action>, id: string, zone: string,
                                 contexts: seq<RequestContext>, ttl: int, now: int)
    requires Inv(s, env) && Runs(s, env, acts)
    ensures var iam := End(s, env, acts).iam;
            && K.AuthorizeOutcome(rt, iam, id, zone, contexts, ttl, now)
              == K.Decide(rt, iam.table, id, zone, contexts, now)
            && (K.Dead(s.iam, id) ==> K.AuthorizeOutcome(rt, iam, id, zone, contexts, ttl, now).Refused?)
  {
    RunsAreKeyStoreRuns(s, env, acts);
    K.CacheIsInvisible(rt, s.iam, KeyOps(acts), id, zone, contexts, ttl, now);
    if K.Dead(s.iam, id) {
      K.RevocationIsPermanent(rt, s.iam, KeyOps(acts), id, zone, contexts, ttl, now);
    }
  }
}
