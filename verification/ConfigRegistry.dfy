/** The configuration registry and its cache: `src/config-registry.ts`. */
module ConfigRegistry {
  import opened Prelude

  datatype ConfigKey =
    | BulkRate | BulkBucketSize | BulkMaxOps | SingleRate | SingleBucketSize | SingleMaxOps
    | KeyCacheTtlMs | RetentionDays | S3Rps | S3Burst | CfProxyRps | CfProxyBurst

  const ALL_KEYS := [BulkRate, BulkBucketSize, BulkMaxOps, SingleRate, SingleBucketSize, SingleMaxOps,
                     KeyCacheTtlMs, RetentionDays, S3Rps, S3Burst, CfProxyRps, CfProxyBurst]

  function HardDefault(k: ConfigKey): real {
    match k
    case BulkRate => 50.0
    case BulkBucketSize => 500.0
    case BulkMaxOps => 100.0
    case SingleRate => 3000.0
    case SingleBucketSize => 6000.0
    case SingleMaxOps => 500.0
    case KeyCacheTtlMs => 60000.0
    case RetentionDays => 30.0
    case S3Rps => 100.0
    case S3Burst => 200.0
    case CfProxyRps => 200.0
    case CfProxyBurst => 400.0
  }

  /**
   A name in an update or in the table. `key in CONFIG_DEFAULTS` is true of the twelve keys and of
   the names that every object inherits, such as `toString`.
   */
  datatype Name = Known(key: ConfigKey) | Inherited(name: string) | Unlisted(name: string)

  /** A text as `Number(...)` reads it. */
  datatype Cell = Number(value: real) | NotANumber

  type Registry = map<Name, real>
  type Env = map<ConfigKey, Cell>

  /** One entry of an update; the value is None when it is not a finite number. */
  datatype Update = Update(name: Name, value: Option<real>)

  datatype ConfigState = ConfigState(table: map<Name, Cell>, cache: Option<Registry>)

  predicate Usable(c: Cell) {
    c.Number? && c.value > 0.0
  }

  /** The rows that count. */
  function Parsed(table: map<Name, Cell>): Registry {
    map n | n in table && Usable(table[n]) :: table[n].value
  }

  /** Registry over environment over default. */
  function Resolve(registry: Registry, env: Env, k: ConfigKey): real {
    if Known(k) in registry then registry[Known(k)]
    else if k in env && Usable(env[k]) then env[k].value
    else HardDefault(k)
  }

  predicate Accepted(u: Update) {
    !u.name.Unlisted? && u.value.Some? && u.value.value > 0.0
  }

  /** The rows that an update writes: those before the first entry that is not accepted. */
  function Written(table: map<Name, Cell>, updates: seq<Update>): map<Name, Cell>
    decreases |updates|
  {
    if updates == [] || !Accepted(updates[0]) then table
    else Written(table[updates[0].name := Number(updates[0].value.value)], updates[1..])
  }

  predicate AllAccepted(updates: seq<Update>) {
    forall i :: 0 <= i < |updates| ==> Accepted(updates[i])
  }

  function Loaded(s: ConfigState): ConfigState {
    if s.cache.Some? then s else s.(cache := Some(Parsed(s.table)))
  }

  /** When an entry throws, the rows before it stay and the cache is not invalidated. */
  function AfterSet(s: ConfigState, updates: seq<Update>): ConfigState {
    ConfigState(Written(s.table, updates), if AllAccepted(updates) then None else s.cache)
  }

  function AfterReset(s: ConfigState, name: Name): ConfigState {
    if name.Unlisted? then s else ConfigState(s.table - {name}, None)
  }

  /** What the next `getConfig` resolves against. */
  function RegistryOf(s: ConfigState): Registry {
    if s.cache.Some? then s.cache.value else Parsed(s.table)
  }

  // ---------------------------------------------------------------- which value counts, said without resolving

  predicate StoredAs(table: map<Name, Cell>, k: ConfigKey, v: real) {
    Known(k) in table && table[Known(k)] == Number(v) && v > 0.0
  }

  predicate InEnv(env: Env, k: ConfigKey, v: real) {
    k in env && env[k] == Number(v) && v > 0.0
  }

  /**
   What `v` has to be for the key to have it: a positive number in its row; or, if its row has none, a positive
   number in the environment; or, if that has none either, the default.
   */
  ghost predicate IsSetting(table: map<Name, Cell>, env: Env, k: ConfigKey, v: real) {
    || StoredAs(table, k, v)
    || ((forall x :: !StoredAs(table, k, x)) && InEnv(env, k, v))
    || ((forall x :: !StoredAs(table, k, x)) && (forall x :: !InEnv(env, k, x)) && v == HardDefault(k))
  }

  /** The cache, if there is one, says what the table says. */
  predicate CacheIsCurrent(s: ConfigState) {
    s.cache.None? || s.cache == Some(Parsed(s.table))
  }

  /** Resolving gives each key its setting, and no other value is one. */
  lemma ResolvesToTheSetting(s: ConfigState, env: Env, k: ConfigKey)
    requires CacheIsCurrent(s)
    ensures IsSetting(s.table, env, k, Resolve(RegistryOf(s), env, k))
    ensures forall v :: IsSetting(s.table, env, k, v) ==> v == Resolve(RegistryOf(s), env, k)
    ensures Resolve(RegistryOf(s), env, k) > 0.0
  {
    hide HardDefault;
    assert RegistryOf(s) == Parsed(s.table);
    if Known(k) in s.table && s.table[Known(k)].Number? {
      assert s.table[Known(k)].value > 0.0 ==> StoredAs(s.table, k, s.table[Known(k)].value);
    }
    if k in env && env[k].Number? {
      assert env[k].value > 0.0 ==> InEnv(env, k, env[k].value);
    }
    assert HardDefault(k) > 0.0 by { DefaultsAre(); }
  }

  lemma DefaultsAre()
    ensures HardDefault(BulkRate) == 50.0 && HardDefault(BulkBucketSize) == 500.0 && HardDefault(BulkMaxOps) == 100.0
    ensures HardDefault(SingleRate) == 3000.0 && HardDefault(SingleBucketSize) == 6000.0
    ensures HardDefault(SingleMaxOps) == 500.0 && HardDefault(KeyCacheTtlMs) == 60000.0
    ensures HardDefault(RetentionDays) == 30.0 && HardDefault(S3Rps) == 100.0 && HardDefault(S3Burst) == 200.0
    ensures HardDefault(CfProxyRps) == 200.0 && HardDefault(CfProxyBurst) == 400.0
    ensures forall k :: HardDefault(k) > 0.0
  {
  }

  class ConfigManager {
    var table: map<Name, Cell>
    var cache: Option<Registry>

    function State(): ConfigState
      reads this
    {
      ConfigState(table, cache)
    }

    constructor (table: map<Name, Cell>)
      ensures State() == ConfigState(table, None)
    {
      this.table := table;
      this.cache := None;
    }

    method LoadRegistry() returns (r: Registry)
      modifies this
      ensures State() == Loaded(old(State())) && r == RegistryOf(old(State()))
    {
      if cache.Some? { return cache.value; }
      r := map[];
      var rest := table.Keys;
      while rest != {}
        invariant rest <= table.Keys
        invariant r == map n | n in table && n !in rest && Usable(table[n]) :: table[n].value
        decreases |rest|
      {
        var n :| n in rest;
        if Usable(table[n]) {
          r := r[n := table[n].value];
        }
        rest := rest - {n};
      }
      assert r == Parsed(table);
      cache := Some(r);
    }

    method GetConfig(env: Env) returns (config: map<ConfigKey, real>)
      modifies this
      ensures State() == Loaded(old(State()))
      ensures forall k: ConfigKey :: k in config && config[k] == Resolve(RegistryOf(old(State())), env, k)
      ensures CacheIsCurrent(old(State())) ==> forall k: ConfigKey :: IsSetting(table, env, k, config[k])
    {
      var registry := LoadRegistry();
      config := map[];
      for i := 0 to |ALL_KEYS|
        invariant State() == Loaded(old(State()))
        invariant forall j :: 0 <= j < i ==>
                  ALL_KEYS[j] in config && config[ALL_KEYS[j]] == Resolve(registry, env, ALL_KEYS[j])
      {
        var key := ALL_KEYS[i];
        if Known(key) in registry {
          config := config[key := registry[Known(key)]];
        } else if key in env && Usable(env[key]) {
          config := config[key := env[key].value];
        } else {
          config := config[key := HardDefault(key)];
        }
      }
      forall k: ConfigKey ensures k in config && config[k] == Resolve(registry, env, k) {
        EveryKeyIsListed(k);
        var j :| 0 <= j < |ALL_KEYS| && ALL_KEYS[j] == k;
      }
      if CacheIsCurrent(old(State())) {
        forall k: ConfigKey ensures IsSetting(table, env, k, config[k]) {
          ResolvesToTheSetting(old(State()), env, k);
        }
      }
    }

    method SetConfig(updates: seq<Update>) returns (thrown: bool)
      modifies this
      ensures State() == AfterSet(old(State()), updates)
      ensures thrown <==> !AllAccepted(updates)
      ensures thrown <==> exists i :: 0 <= i < |updates| && (updates[i].name.Unlisted? || updates[i].value.None?
                                                             || updates[i].value.value <= 0.0)
    {
      for i := 0 to |updates|
        invariant cache == old(cache)
        invariant forall j :: 0 <= j < i ==> Accepted(updates[j])
        invariant Written(old(table), updates) == Written(table, updates[i..])
      {
        if updates[i].name.Unlisted? { return true; }
        if !(updates[i].value.Some? && updates[i].value.value > 0.0) { return true; }
        table := table[updates[i].name := Number(updates[i].value.value)];
      }
      cache := None;
      thrown := false;
    }

    method ResetKey(name: Name) returns (thrown: bool, deleted: bool)
      modifies this
      ensures State() == AfterReset(old(State()), name)
      ensures thrown == name.Unlisted? && deleted == (!thrown && name in old(table))
    {
      if name.Unlisted? { return true, false; }
      deleted := name in table;
      table := table - {name};
      cache := None;
      thrown := false;
    }
  }

  lemma EveryKeyIsListed(k: ConfigKey)
    ensures k in ALL_KEYS
  {
    assert ALL_KEYS[0] == BulkRate && ALL_KEYS[1] == BulkBucketSize && ALL_KEYS[2] == BulkMaxOps
      && ALL_KEYS[3] == SingleRate;
    assert ALL_KEYS[4] == SingleBucketSize && ALL_KEYS[5] == SingleMaxOps && ALL_KEYS[6] == KeyCacheTtlMs;
    assert ALL_KEYS[7] == RetentionDays && ALL_KEYS[8] == S3Rps && ALL_KEYS[9] == S3Burst;
    assert ALL_KEYS[10] == CfProxyRps && ALL_KEYS[11] == CfProxyBurst;
  }

  // ---------------------------------------------------------------- what an update does

  /** The names of an update are the keys of one object, so they differ. */
  predicate DistinctNames(updates: seq<Update>) {
    forall i, j :: 0 <= i < j < |updates| ==> updates[i].name != updates[j].name
  }

  /** How many entries an update writes before it throws, or all of them. */
  function AcceptedPrefix(updates: seq<Update>): (n: nat)
    ensures n <= |updates| && (forall i :: 0 <= i < n ==> Accepted(updates[i]))
    ensures n < |updates| ==> !Accepted(updates[n])
  {
    if updates == [] || !Accepted(updates[0]) then 0 else 1 + AcceptedPrefix(updates[1..])
  }

  /** Row by row: the entries before the first bad one are written, every other row stays. */
  lemma {:induction false} WrittenRows(table: map<Name, Cell>, updates: seq<Update>, n: Name)
    requires DistinctNames(updates)
    ensures var t, m := Written(table, updates), AcceptedPrefix(updates);
            && (forall i :: 0 <= i < m && updates[i].name == n ==> n in t && t[n] == Number(updates[i].value.value))
            && ((forall i :: 0 <= i < m ==> updates[i].name != n) ==>
                  (n in t <==> n in table) && (n in t ==> t[n] == table[n]))
    decreases |updates|
  {
    if updates != [] && Accepted(updates[0]) {
      var rest := updates[1..];
      WrittenRows(table[updates[0].name := Number(updates[0].value.value)], rest, n);
      forall i | 0 <= i < AcceptedPrefix(updates) ensures i > 0 ==> updates[i] == rest[i - 1] {}
      assert forall i :: 0 <= i < AcceptedPrefix(rest) ==> rest[i] == updates[i + 1];
    }
  }

  /** The entry of the update is already what the registry says. */
  predicate ChangesNothing(table: map<Name, Cell>, u: Update) {
    u.name in table && u.value.Some? && table[u.name] == Number(u.value.value)
  }

  /**
   When writing leaves the parsed registry as it was: exactly when every entry before the first bad
   one repeats the stored value. This is what decides whether a failed update does damage.
   */
  lemma WrittenLeavesRegistryIff(table: map<Name, Cell>, updates: seq<Update>)
    requires DistinctNames(updates)
    ensures Parsed(Written(table, updates)) == Parsed(table)
            <==> forall i :: 0 <= i < AcceptedPrefix(updates) ==> ChangesNothing(table, updates[i])
  {
    var t, m := Written(table, updates), AcceptedPrefix(updates);
    forall i | 0 <= i < m
      ensures Parsed(t) == Parsed(table) ==> ChangesNothing(table, updates[i])
    {
      WrittenRows(table, updates, updates[i].name);
      assert updates[i].name in Parsed(t) && Parsed(t)[updates[i].name] == updates[i].value.value;
    }
    if forall i :: 0 <= i < m ==> ChangesNothing(table, updates[i]) {
      forall n ensures (n in t <==> n in table) && (n in t ==> t[n] == table[n]) {
        WrittenRows(table, updates, n);
      }
      assert t == table;
    }
  }

  lemma RegistryAfterValidUpdate(s: ConfigState, updates: seq<Update>)
    requires AllAccepted(updates)
    ensures RegistryOf(AfterSet(s, updates)) == Parsed(Written(s.table, updates))
  {
  }

  /** A row that a valid update writes is in the registry afterwards. */
  lemma WrittenRowCounts(table: map<Name, Cell>, updates: seq<Update>, i: nat)
    requires AllAccepted(updates) && DistinctNames(updates) && i < |updates|
    ensures var r := Parsed(Written(table, updates));
            updates[i].name in r && r[updates[i].name] == updates[i].value.value
  {
    WrittenRows(table, updates, updates[i].name);
  }

  /** A row that it does not mention counts as it did before. */
  lemma UntouchedRowCountsAsBefore(table: map<Name, Cell>, updates: seq<Update>, n: Name)
    requires DistinctNames(updates) && forall i :: 0 <= i < |updates| ==> updates[i].name != n
    ensures var r := Parsed(Written(table, updates));
            (n in r <==> n in Parsed(table)) && (n in r ==> r[n] == Parsed(table)[n])
  {
    WrittenRows(table, updates, n);
  }

  /** A valid update sets exactly its own keys, above environment and default. */
  lemma ValidUpdateResolves(s: ConfigState, env: Env, updates: seq<Update>, k: ConfigKey)
    requires AllAccepted(updates) && DistinctNames(updates) && s.cache in {None, Some(Parsed(s.table))}
    ensures forall i :: 0 <= i < |updates| && updates[i].name == Known(k) ==>
              Resolve(RegistryOf(AfterSet(s, updates)), env, k) == updates[i].value.value
    ensures (forall i :: 0 <= i < |updates| ==> updates[i].name != Known(k)) ==>
              Resolve(RegistryOf(AfterSet(s, updates)), env, k) == Resolve(RegistryOf(s), env, k)
    ensures IsSetting(AfterSet(s, updates).table, env, k, Resolve(RegistryOf(AfterSet(s, updates)), env, k))
  {
    ResolvesToTheSetting(AfterSet(s, updates), env, k);
    RegistryAfterValidUpdate(s, updates);
    assert RegistryOf(s) == Parsed(s.table);
    hide Parsed, Written, AfterSet, RegistryOf, HardDefault;
    forall i | 0 <= i < |updates| && updates[i].name == Known(k)
      ensures Resolve(Parsed(Written(s.table, updates)), env, k) == updates[i].value.value
    {
      WrittenRowCounts(s.table, updates, i);
    }
    if forall i :: 0 <= i < |updates| ==> updates[i].name != Known(k) {
      UntouchedRowCountsAsBefore(s.table, updates, Known(k));
    }
  }

  /**
   After a reset the key falls back to a positive number in the environment, or else to its default, and no other
   key changes.
   */
  lemma ResetFallsBack(s: ConfigState, env: Env, reset: ConfigKey, k: ConfigKey)
    requires s.cache in {None, Some(Parsed(s.table))}
    ensures Resolve(RegistryOf(AfterReset(s, Known(reset))), env, k)
            == if k == reset then Resolve(map[], env, k) else Resolve(RegistryOf(s), env, k)
    ensures forall v :: InEnv(env, reset, v) ==> Resolve(RegistryOf(AfterReset(s, Known(reset))), env, reset) == v
    ensures (forall v :: !InEnv(env, reset, v)) ==>
              Resolve(RegistryOf(AfterReset(s, Known(reset))), env, reset) == HardDefault(reset)
  {
    ResolvesToTheSetting(AfterReset(s, Known(reset)), env, reset);
  }
}
