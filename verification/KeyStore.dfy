/**
 API keys: `src/iam.ts` on top of `src/credential-manager.ts`.

 The SQL table is a map from id to row. `used` are the ids ever handed out: ids are random, and the
 model takes fresh ones to be distinct from all of them. Each operation reads the clock once.
 */
module KeyStore {
  import opened Prelude
  import opened PolicyTypes
  import opened PolicyEngine

  const MS_PER_DAY := 86400000.0

  /** The policy column: text that `JSON.parse` accepts, or not. */
  datatype StoredPolicy = Readable(doc: PolicyDocument) | Corrupt

  datatype ApiKey =
    ApiKey(id: string, name: string, zoneId: Option<string>, createdAt: int, expiresAt: Option<real>, revoked: bool,
           policy: StoredPolicy, createdBy: Option<string>,
           bulkRate: Option<real>, bulkBucket: Option<real>, singleRate: Option<real>, singleBucket: Option<real>,
           upstreamTokenId: Option<string>)

  datatype CachedKey = CachedKey(key: ApiKey, resolvedPolicy: PolicyDocument, cachedAt: int)

  datatype RateLimit =
    RateLimit(bulkRate: Option<real>, bulkBucket: Option<real>, singleRate: Option<real>, singleBucket: Option<real>)

  datatype CreateRequest =
    CreateRequest(name: string, zoneId: Option<string>, expiresInDays: Option<real>, policy: PolicyDocument,
                  createdBy: Option<string>, rateLimit: Option<RateLimit>, upstreamTokenId: Option<string>)

  datatype Overrides = Overrides(name: Option<string>, expiresInDays: Option<real>)

  /** A field of an update: left out, or set to a value that may be null. */
  datatype Field<+T> = Absent | SetTo(value: T)

  datatype KeyUpdate =
    KeyUpdate(name: Field<string>, expiresAt: Field<Option<real>>,
              bulkRate: Field<Option<real>>, bulkBucket: Field<Option<real>>,
              singleRate: Field<Option<real>>, singleBucket: Field<Option<real>>)

  datatype AuthError = InvalidKey | RevokedKey | ExpiredKey | WrongZone | OutOfScope

  datatype AuthResult =
    | Granted(keyName: string, upstreamTokenId: Option<string>)
    | Refused(error: AuthError, denied: seq<string>)

  datatype BulkStatus = Revoked | AlreadyRevoked | Deleted | NotFound

  datatype IamState = IamState(table: map<string, ApiKey>, cache: map<string, CachedKey>, used: set<string>)

  // ---------------------------------------------------------------- the decision, without a cache

  /** A corrupt policy denies everything. */
  function ResolvedPolicy(row: ApiKey): PolicyDocument {
    if row.policy.Readable? then row.policy.doc else PolicyDocument([])
  }

  /** An expiry of 0 counts as none. */
  predicate Expired(row: ApiKey, now: int) {
    row.expiresAt.Some? && row.expiresAt.value != 0.0 && row.expiresAt.value < now as real
  }

  function ShowField(fields: map<string, FieldValue>, name: string): string {
    if name in fields then FieldText(fields[name]) else "unknown"
  }

  /** `formatDeniedContext` */
  function FormatDenied(ctx: RequestContext): string {
    if ctx.action == "purge:url" then
      if "url" in ctx.fields && ctx.fields["url"].Text? then ctx.fields["url"].text else "unknown-url"
    else if ctx.action == "purge:host" then "host:" + ShowField(ctx.fields, "host")
    else if ctx.action == "purge:tag" then "tag:" + ShowField(ctx.fields, "tag")
    else if ctx.action == "purge:prefix" then "prefix:" + ShowField(ctx.fields, "prefix")
    else if ctx.action == "purge:everything" then "purge_everything"
    else ctx.action + ":" + ctx.resource
  }

  function Denied(rt: Runtime, policy: PolicyDocument, contexts: seq<RequestContext>): seq<string> {
    if contexts == [] then []
    else
      (if Allows(rt, policy, contexts[0]) then [] else [FormatDenied(contexts[0])])
      + Denied(rt, policy, contexts[1..])
  }

  lemma {:induction false} DeniedAppend(rt: Runtime, policy: PolicyDocument, contexts: seq<RequestContext>,
                                        last: RequestContext)
    ensures Denied(rt, policy, contexts + [last])
            == Denied(rt, policy, contexts) + if Allows(rt, policy, last) then [] else [FormatDenied(last)]
  {
    hide Allows, FormatDenied;
    if contexts == [] {
      assert [] + [last] == [last];
    } else {
      assert (contexts + [last])[1..] == contexts[1..] + [last];
      DeniedAppend(rt, policy, contexts[1..], last);
    }
  }

  function Judge(rt: Runtime, key: ApiKey, policy: PolicyDocument, zone: string, contexts: seq<RequestContext>,
                 now: int): AuthResult {
    if key.revoked then Refused(RevokedKey, [])
    else if Expired(key, now) then Refused(ExpiredKey, [])
    else if key.zoneId.Some? && key.zoneId.value != "" && key.zoneId.value != zone then Refused(WrongZone, [])
    else if exists c <- contexts :: !Allows(rt, policy, c) then Refused(OutOfScope, Denied(rt, policy, contexts))
    else Granted(key.name, key.upstreamTokenId)
  }

  /** What `authorize` answers if every call reads the table. */
  function Decide(rt: Runtime, table: map<string, ApiKey>, id: string, zone: string, contexts: seq<RequestContext>,
                  now: int): AuthResult {
    if id in table then Judge(rt, table[id], ResolvedPolicy(table[id]), zone, contexts, now)
    else Refused(InvalidKey, [])
  }

  // ---------------------------------------------------------------- the operations

  /** `getCachedOrLoad`: the entry that the call sees. */
  function Seen(s: IamState, id: string, ttl: int, now: int): Option<CachedKey> {
    if id in s.cache && now - s.cache[id].cachedAt < ttl then Some(s.cache[id])
    else if id in s.table then Some(CachedKey(s.table[id], ResolvedPolicy(s.table[id]), now))
    else None
  }

  function AfterLookup(s: IamState, id: string, ttl: int, now: int): IamState {
    match Seen(s, id, ttl, now)
    case Some(e) => s.(cache := s.cache[id := e])
    case None => s.(cache := s.cache - {id})
  }

  function AuthorizeOutcome(rt: Runtime, s: IamState, id: string, zone: string, contexts: seq<RequestContext>,
                            ttl: int, now: int): AuthResult {
    match Seen(s, id, ttl, now)
    case Some(e) => Judge(rt, e.key, e.resolvedPolicy, zone, contexts, now)
    case None => Refused(InvalidKey, [])
  }

  function NewRow(req: CreateRequest, id: string, now: int): ApiKey {
    var rl := req.rateLimit.GetOr(RateLimit(None, None, None, None));
    ApiKey(id, req.name, req.zoneId, now,
           if req.expiresInDays.Some? && req.expiresInDays.value != 0.0
             then Some(now as real + req.expiresInDays.value * MS_PER_DAY) else None,
           false, Readable(req.policy), req.createdBy,
           rl.bulkRate, rl.bulkBucket, rl.singleRate, rl.singleBucket, req.upstreamTokenId)
  }

  function AfterCreate(s: IamState, req: CreateRequest, id: string, now: int): IamState {
    s.(table := s.table[id := NewRow(req, id, now)], used := s.used + {id})
  }

  function AfterRevoke(s: IamState, id: string): IamState {
    IamState(if id in s.table then s.table[id := s.table[id].(revoked := true)] else s.table, s.cache - {id}, s.used)
  }

  function AfterDelete(s: IamState, id: string): IamState {
    IamState(s.table - {id}, s.cache - {id}, s.used)
  }

  predicate CanRotate(s: IamState, id: string, now: int) {
    id in s.table && !s.table[id].revoked && !Expired(s.table[id], now) && s.table[id].policy.Readable?
  }

  /** What the new key asks for: everything of the old key but its expiry. */
  function RotationRequest(prior: ApiKey, o: Overrides): CreateRequest
    requires prior.policy.Readable?
  {
    CreateRequest(o.name.GetOr(prior.name + " (rotated)"), prior.zoneId, o.expiresInDays, prior.policy.doc,
                  prior.createdBy,
                  if prior.bulkRate.Some? || prior.singleRate.Some?
                  then Some(RateLimit(prior.bulkRate, prior.bulkBucket, prior.singleRate, prior.singleBucket))
                    else None,
                  Some(prior.upstreamTokenId.GetOr("")))
  }

  function AfterRotate(s: IamState, id: string, o: Overrides, newId: string, now: int): IamState {
    if CanRotate(s, id, now) then AfterRevoke(AfterCreate(s, RotationRequest(s.table[id], o), newId, now), id) else s
  }

  function Apply<T>(f: Field<T>, current: T): T {
    if f.SetTo? then f.value else current
  }

  function UpdatedRow(row: ApiKey, u: KeyUpdate): ApiKey {
    row.(name := Apply(u.name, row.name), expiresAt := Apply(u.expiresAt, row.expiresAt),
         bulkRate := Apply(u.bulkRate, row.bulkRate), bulkBucket := Apply(u.bulkBucket, row.bulkBucket),
         singleRate := Apply(u.singleRate, row.singleRate), singleBucket := Apply(u.singleBucket, row.singleBucket))
  }

  predicate CanUpdate(s: IamState, id: string) {
    id in s.table && !s.table[id].revoked
  }

  function AfterUpdate(s: IamState, id: string, u: KeyUpdate): IamState {
    if !CanUpdate(s, id) || u == KeyUpdate(Absent, Absent, Absent, Absent, Absent, Absent) then s
    else IamState(s.table[id := UpdatedRow(s.table[id], u)], s.cache - {id}, s.used)
  }

  /** Due for `revokeExpired`, which counts an expiry of 0 and the very instant of expiry. */
  predicate Due(row: ApiKey, now: int) {
    !row.revoked && row.expiresAt.Some? && row.expiresAt.value <= now as real
  }

  function AfterRevokeExpired(s: IamState, now: int): IamState {
    var t := map id | id in s.table :: if Due(s.table[id], now) then s.table[id].(revoked := true) else s.table[id];
    IamState(t, if exists id <- s.table :: Due(s.table[id], now) then map[] else s.cache, s.used)
  }

  /** One item of `bulkRevoke`. */
  function RevokeItem(s: IamState, id: string): (IamState, BulkStatus) {
    if id !in s.table then (s, NotFound)
    else if s.table[id].revoked then (s, AlreadyRevoked)
    else (AfterRevoke(s, id), BulkStatus.Revoked)
  }

  function AfterBulkRevoke(s: IamState, ids: seq<string>): IamState
    decreases |ids|
  {
    if ids == [] then s else AfterBulkRevoke(RevokeItem(s, ids[0]).0, ids[1..])
  }

  function BulkRevokeResults(s: IamState, ids: seq<string>): seq<BulkStatus>
    decreases |ids|
  {
    if ids == [] then [] else [RevokeItem(s, ids[0]).1] + BulkRevokeResults(RevokeItem(s, ids[0]).0, ids[1..])
  }

  function AfterBulkDelete(s: IamState, ids: seq<string>): IamState
    decreases |ids|
  {
    if ids == [] then s else AfterBulkDelete(AfterDelete(s, ids[0]), ids[1..])
  }

  function BulkDeleteResults(s: IamState, ids: seq<string>): seq<BulkStatus>
    decreases |ids|
  {
    if ids == [] then []
    else [if ids[0] in s.table then Deleted else NotFound] + BulkDeleteResults(AfterDelete(s, ids[0]), ids[1..])
  }

  // ---------------------------------------------------------------- the manager

  class IamManager {
    const cacheTtlMs: int
    var table: map<string, ApiKey>
    var cache: map<string, CachedKey>
    ghost var used: set<string>

    ghost function State(): IamState
      reads this
    {
      IamState(table, cache, used)
    }

    constructor (table: map<string, ApiKey>, cacheTtlMs: int)
      ensures State() == IamState(table, map[], table.Keys) && this.cacheTtlMs == cacheTtlMs
    {
      this.cacheTtlMs := cacheTtlMs;
      this.table := table;
      this.cache := map[];
      this.used := table.Keys;
    }

    method GetCachedOrLoad(id: string, now: int) returns (entry: Option<CachedKey>)
      modifies this
      ensures State() == AfterLookup(old(State()), id, cacheTtlMs, now)
      ensures entry == Seen(old(State()), id, cacheTtlMs, now)
    {
      if id in cache && now - cache[id].cachedAt < cacheTtlMs {
        assert cache[id := cache[id]] == cache;
        return Some(cache[id]);
      }
      if id !in table {
        cache := cache - {id};
        return None;
      }
      var loaded := table[id];
      var resolved := PolicyDocument([]);
      if loaded.policy.Readable? { resolved := loaded.policy.doc; }
      cache := cache[id := CachedKey(loaded, resolved, now)];
      entry := Some(cache[id]);
    }

    static method DeniedContexts(rt: Runtime, policy: PolicyDocument, contexts: seq<RequestContext>)
      returns (denied: seq<string>)
      ensures denied == Denied(rt, policy, contexts)
    {
      hide Allows, FormatDenied;
      denied := [];
      for i := 0 to |contexts|
        invariant denied == Denied(rt, policy, contexts[..i])
      {
        var one := EvaluatePolicy(rt, policy, [contexts[i]]);
        assert one <==> Allows(rt, policy, contexts[i]) by {
          assert contexts[i] in [contexts[i]];
        }
        if !one { denied := denied + [FormatDenied(contexts[i])]; }
        DeniedAppend(rt, policy, contexts[..i], contexts[i]);
        assert contexts[..i + 1] == contexts[..i] + [contexts[i]];
      }
      assert contexts[..|contexts|] == contexts;
    }

    method Authorize(rt: Runtime, id: string, zone: string, contexts: seq<RequestContext>, now: int)
      returns (r: AuthResult)
      modifies this
      ensures State() == AfterLookup(old(State()), id, cacheTtlMs, now)
      ensures r == AuthorizeOutcome(rt, old(State()), id, zone, contexts, cacheTtlMs, now)
      ensures old(Coherent(State())) ==> r == Decide(rt, table, id, zone, contexts, now)
      ensures old(Coherent(State())) && r.Granted? ==>
                id in table && r.keyName == table[id].name && r.upstreamTokenId == table[id].upstreamTokenId
    {
      var entry := GetCachedOrLoad(id, now);
      if entry.None? { return Refused(InvalidKey, []); }
      var key := entry.value.key;
      if key.revoked { return Refused(RevokedKey, []); }
      if key.expiresAt.Some? && key.expiresAt.value != 0.0 && key.expiresAt.value < now as real {
        return Refused(ExpiredKey, []);
      }
      if key.zoneId.Some? && key.zoneId.value != "" && key.zoneId.value != zone {
        return Refused(WrongZone, []);
      }
      var policy := entry.value.resolvedPolicy;
      var allowed := EvaluatePolicy(rt, policy, contexts);
      if !allowed {
        var denied := DeniedContexts(rt, policy, contexts);
        return Refused(OutOfScope, denied);
      }
      r := Granted(key.name, key.upstreamTokenId);
    }

    method CreateKey(req: CreateRequest, id: string, now: int) returns (key: ApiKey)
      requires id !in used
      modifies this
      ensures State() == AfterCreate(old(State()), req, id, now) && key == NewRow(req, id, now)
    {
      var expiresAt := None;
      if req.expiresInDays.Some? && req.expiresInDays.value != 0.0 {
        expiresAt := Some(now as real + req.expiresInDays.value * MS_PER_DAY);
      }
      var rl := req.rateLimit.GetOr(RateLimit(None, None, None, None));
      key := ApiKey(id, req.name, req.zoneId, now, expiresAt, false, Readable(req.policy), req.createdBy,
                    rl.bulkRate, rl.bulkBucket, rl.singleRate, rl.singleBucket, req.upstreamTokenId);
      table := table[id := key];
      used := used + {id};
    }

    method RevokeKey(id: string) returns (changed: bool)
      modifies this
      ensures State() == AfterRevoke(old(State()), id)
      ensures changed <==> id in old(table) && !old(table)[id].revoked
    {
      changed := id in table && !table[id].revoked;
      if changed {
        table := table[id := table[id].(revoked := true)];
      } else if id in table {
        assert table[id := table[id].(revoked := true)] == table;
      }
      cache := cache - {id};
    }

    method DeleteKey(id: string) returns (deleted: bool)
      modifies this
      ensures State() == AfterDelete(old(State()), id)
      ensures deleted <==> id in old(table)
    {
      deleted := id in table;
      table := table - {id};
      cache := cache - {id};
    }

    method RotateKey(id: string, o: Overrides, newId: string, now: int) returns (newKey: Option<ApiKey>)
      requires newId !in used && table.Keys <= used
      modifies this
      ensures State() == AfterRotate(old(State()), id, o, newId, now)
      ensures newKey.Some? <==> CanRotate(old(State()), id, now)
      ensures newKey.Some? ==> newKey.value == NewRow(RotationRequest(old(table)[id], o), newId, now)
    {
      if id !in table { return None; }
      var oldKey := table[id];
      if oldKey.revoked { return None; }
      if oldKey.expiresAt.Some? && oldKey.expiresAt.value != 0.0 && oldKey.expiresAt.value < now as real {
        return None;
      }
      if oldKey.policy.Corrupt? { return None; }
      var rateLimit := None;
      if oldKey.bulkRate.Some? || oldKey.singleRate.Some? {
        rateLimit := Some(RateLimit(oldKey.bulkRate, oldKey.bulkBucket, oldKey.singleRate, oldKey.singleBucket));
      }
      var req := CreateRequest(o.name.GetOr(oldKey.name + " (rotated)"), oldKey.zoneId, o.expiresInDays,
                               oldKey.policy.doc,
                               oldKey.createdBy, rateLimit, Some(oldKey.upstreamTokenId.GetOr("")));
      var key := CreateKey(req, newId, now);
      var _ := RevokeKey(id);
      newKey := Some(key);
    }

    method UpdateKey(id: string, u: KeyUpdate) returns (key: Option<ApiKey>)
      modifies this
      ensures State() == AfterUpdate(old(State()), id, u)
      ensures key == if CanUpdate(old(State()), id) then Some(UpdatedRow(old(table)[id], u)) else None
    {
      if id !in table { return None; }
      if table[id].revoked { return None; }
      if u == KeyUpdate(Absent, Absent, Absent, Absent, Absent, Absent) { return Some(table[id]); }
      var row := table[id];
      if u.name.SetTo? { row := row.(name := u.name.value); }
      if u.expiresAt.SetTo? { row := row.(expiresAt := u.expiresAt.value); }
      if u.bulkRate.SetTo? { row := row.(bulkRate := u.bulkRate.value); }
      if u.bulkBucket.SetTo? { row := row.(bulkBucket := u.bulkBucket.value); }
      if u.singleRate.SetTo? { row := row.(singleRate := u.singleRate.value); }
      if u.singleBucket.SetTo? { row := row.(singleBucket := u.singleBucket.value); }
      table := table[id := row];
      cache := cache - {id};
      key := Some(row);
    }

    method RevokeExpired(now: int) returns (count: nat)
      modifies this
      ensures State() == AfterRevokeExpired(old(State()), now)
      ensures count == |set id | id in old(table) && Due(old(table)[id], now)|
    {
      var due := set id | id in table && Due(table[id], now);
      ghost var before := table;
      assert forall id <- before :: id in due <==> Due(before[id], now);
      table := map id | id in table :: if id in due then table[id].(revoked := true) else table[id];
      count := |due|;
      if count > 0 {
        var id :| id in due;
        cache := map[];
      } else {
        assert due == {};
      }
    }

    method BulkRevoke(ids: seq<string>) returns (results: seq<BulkStatus>)
      modifies this
      ensures State() == AfterBulkRevoke(old(State()), ids)
      ensures results == BulkRevokeResults(old(State()), ids)
    {
      results := [];
      for i := 0 to |ids|
        invariant AfterBulkRevoke(old(State()), ids) == AfterBulkRevoke(State(), ids[i..])
        invariant BulkRevokeResults(old(State()), ids) == results + BulkRevokeResults(State(), ids[i..])
      {
        var id := ids[i];
        assert ids[i..][1..] == ids[i + 1..];
        if id !in table {
          results := results + [NotFound];
        } else if table[id].revoked {
          results := results + [AlreadyRevoked];
        } else {
          var _ := RevokeKey(id);
          results := results + [BulkStatus.Revoked];
        }
      }
    }

    method BulkDelete(ids: seq<string>) returns (results: seq<BulkStatus>)
      modifies this
      ensures State() == AfterBulkDelete(old(State()), ids)
      ensures results == BulkDeleteResults(old(State()), ids)
    {
      results := [];
      for i := 0 to |ids|
        invariant AfterBulkDelete(old(State()), ids) == AfterBulkDelete(State(), ids[i..])
        invariant BulkDeleteResults(old(State()), ids) == results + BulkDeleteResults(State(), ids[i..])
      {
        assert ids[i..][1..] == ids[i + 1..];
        var deleted := DeleteKey(ids[i]);
        results := results + [if deleted then Deleted else NotFound];
      }
    }
  }

  // ---------------------------------------------------------------- runs

  datatype Op =
    | Create(req: CreateRequest, id: string, now: int)
    | Rotate(id: string, overrides: Overrides, newId: string, now: int)
    | Update(id: string, update: KeyUpdate)
    | Revoke(id: string)
    | Delete(id: string)
    | BulkRevoke(ids: seq<string>)
    | BulkDelete(ids: seq<string>)
    | RevokeExpired(now: int)
    | Authorize(id: string, ttl: int, now: int)

  predicate Fresh(s: IamState, op: Op) {
    (op.Create? ==> op.id !in s.used) && (op.Rotate? ==> op.newId !in s.used)
  }

  function Step(s: IamState, op: Op): IamState {
    match op
    case Create(req, id, now) => AfterCreate(s, req, id, now)
    case Rotate(id, o, newId, now) => AfterRotate(s, id, o, newId, now)
    case Update(id, u) => AfterUpdate(s, id, u)
    case Revoke(id) => AfterRevoke(s, id)
    case Delete(id) => AfterDelete(s, id)
    case BulkRevoke(ids) => AfterBulkRevoke(s, ids)
    case BulkDelete(ids) => AfterBulkDelete(s, ids)
    case RevokeExpired(now) => AfterRevokeExpired(s, now)
    case Authorize(id, ttl, now) => AfterLookup(s, id, ttl, now)
  }

  predicate FreshRun(s: IamState, ops: seq<Op>)
    decreases |ops|
  {
    ops == [] || (Fresh(s, ops[0]) && FreshRun(Step(s, ops[0]), ops[1..]))
  }

  function End(s: IamState, ops: seq<Op>): IamState
    decreases |ops|
  {
    if ops == [] then s else End(Step(s, ops[0]), ops[1..])
  }

  /** Every cached entry is the current row with its parsed policy. */
  predicate Coherent(s: IamState) {
    && s.table.Keys <= s.used
    && (forall id <- s.cache ::
        id in s.table && s.cache[id].key == s.table[id] && s.cache[id].resolvedPolicy == ResolvedPolicy(s.table[id]))
  }

  lemma {:induction false} BulkKeepsCoherent(s: IamState, ids: seq<string>)
    requires Coherent(s)
    ensures Coherent(AfterBulkRevoke(s, ids)) && Coherent(AfterBulkDelete(s, ids))
    decreases |ids|
  {
    if ids != [] {
      BulkKeepsCoherent(RevokeItem(s, ids[0]).0, ids[1..]);
      BulkKeepsCoherent(AfterDelete(s, ids[0]), ids[1..]);
    }
  }

  lemma StepKeepsCoherent(s: IamState, op: Op)
    requires Coherent(s) && Fresh(s, op)
    ensures Coherent(Step(s, op))
  {
    if op.BulkRevoke? || op.BulkDelete? { BulkKeepsCoherent(s, op.ids); }
  }

  /**
   The credential cache is invisible: after every run of operations, for every time to live, what
   `authorize` answers is what the table alone decides.
   */
  lemma {:induction false} CacheIsInvisible(rt: Runtime, s: IamState, ops: seq<Op>, id: string, zone: string,
                                            contexts: seq<RequestContext>, ttl: int, now: int)
    requires Coherent(s) && FreshRun(s, ops)
    ensures Coherent(End(s, ops))
    ensures AuthorizeOutcome(rt, End(s, ops), id, zone, contexts, ttl, now)
            == Decide(rt, End(s, ops).table, id, zone, contexts, now)
    decreases |ops|
  {
    if ops != [] {
      StepKeepsCoherent(s, ops[0]);
      CacheIsInvisible(rt, Step(s, ops[0]), ops[1..], id, zone, contexts, ttl, now);
    }
  }

  // ---------------------------------------------------------------- revocation is permanent

  /** Handed out once, and now revoked or gone. */
  predicate Dead(s: IamState, id: string) {
    id in s.used && (id in s.table ==> s.table[id].revoked)
  }

  lemma {:induction false} BulkKeepsDead(s: IamState, ids: seq<string>, id: string)
    requires Dead(s, id)
    ensures Dead(AfterBulkRevoke(s, ids), id) && Dead(AfterBulkDelete(s, ids), id)
    decreases |ids|
  {
    if ids != [] {
      BulkKeepsDead(RevokeItem(s, ids[0]).0, ids[1..], id);
      BulkKeepsDead(AfterDelete(s, ids[0]), ids[1..], id);
    }
  }

  lemma StepKeepsDead(s: IamState, op: Op, id: string)
    requires Dead(s, id) && Fresh(s, op)
    ensures Dead(Step(s, op), id)
  {
    if op.BulkRevoke? || op.BulkDelete? { BulkKeepsDead(s, op.ids, id); }
  }

  lemma {:induction false} DeadForever(s: IamState, ops: seq<Op>, id: string)
    requires Dead(s, id) && FreshRun(s, ops)
    ensures Dead(End(s, ops), id)
    decreases |ops|
  {
    if ops != [] {
      StepKeepsDead(s, ops[0], id);
      DeadForever(Step(s, ops[0]), ops[1..], id);
    }
  }

  /**
   Revocation is permanent: once a key is revoked or deleted, no run of operations makes `authorize`
   succeed for its id again, for any zone, contexts, time to live or instant.
   */
  lemma RevocationIsPermanent(rt: Runtime, s: IamState, ops: seq<Op>, id: string, zone: string,
                              contexts: seq<RequestContext>, ttl: int, now: int)
    requires Coherent(s) && Dead(s, id) && FreshRun(s, ops)
    ensures AuthorizeOutcome(rt, End(s, ops), id, zone, contexts, ttl, now).Refused?
  {
    DeadForever(s, ops, id);
    CacheIsInvisible(rt, s, ops, id, zone, contexts, ttl, now);
  }

  /** What makes a key dead: revoking it, deleting it, rotating it, or a cleanup at which it was due. */
  lemma WaysToDie(s: IamState, id: string, o: Overrides, newId: string, now: int)
    requires Coherent(s) && id in s.table && newId !in s.used
    ensures Dead(AfterRevoke(s, id), id) && Dead(AfterDelete(s, id), id)
    ensures Dead(AfterRotate(s, id, o, newId, now), id) <==> s.table[id].revoked || CanRotate(s, id, now)
    ensures Dead(AfterRevokeExpired(s, now), id) <==> s.table[id].revoked || Due(s.table[id], now)
  {
  }

  lemma {:induction false} BulkRevokeTable(s: IamState, ids: seq<string>)
    ensures AfterBulkRevoke(s, ids).table == map id | id in s.table :: if id in ids then s.table[id].(revoked := true)
            else s.table[id]
    decreases |ids|
  {
    if ids != [] {
      BulkRevokeTable(RevokeItem(s, ids[0]).0, ids[1..]);
    }
  }

  /** `bulkRevoke` item by item: an id counts as revoked at its first mention only. */
  lemma {:induction false} BulkRevokeReports(s: IamState, ids: seq<string>, i: nat)
    requires i < |ids|
    ensures |BulkRevokeResults(s, ids)| == |ids|
    ensures BulkRevokeResults(s, ids)[i]
            == if ids[i] !in s.table then NotFound
               else if s.table[ids[i]].revoked || ids[i] in ids[..i] then AlreadyRevoked
               else BulkStatus.Revoked
    decreases |ids|
  {
    var s1 := RevokeItem(s, ids[0]).0;
    if |ids| > 1 {
      BulkRevokeReports(s1, ids[1..], if i == 0 then 0 else i - 1);
    }
    if i > 0 {
      assert ids[..i] == [ids[0]] + ids[1..][..i - 1];
    }
  }

  /** `bulkDelete` item by item. */
  lemma {:induction false} BulkDeleteReports(s: IamState, ids: seq<string>, i: nat)
    requires i < |ids|
    ensures |BulkDeleteResults(s, ids)| == |ids|
    ensures BulkDeleteResults(s, ids)[i] == if ids[i] in s.table && ids[i] !in ids[..i] then Deleted else NotFound
    decreases |ids|
  {
    var s1 := AfterDelete(s, ids[0]);
    if |ids| > 1 {
      BulkDeleteReports(s1, ids[1..], if i == 0 then 0 else i - 1);
    }
    if i > 0 {
      assert ids[..i] == [ids[0]] + ids[1..][..i - 1];
    }
  }

  /**
   An expired key that is not revoked can come back: an update ends its expiry exactly when it sets
   an expiry that has not passed. Nothing requires an update to extend.
   */
  lemma UpdateRevivesIff(s: IamState, id: string, u: KeyUpdate, now: int)
    requires id in s.table && Expired(s.table[id], now)
    ensures !Expired(AfterUpdate(s, id, u).table[id], now)
            <==> && !s.table[id].revoked && u.expiresAt.SetTo?
                 && !Expired(s.table[id].(expiresAt := u.expiresAt.value), now)
  {
  }

  // ---------------------------------------------------------------- rotation

  /** A per-key limit needs both of its fields. */
  function EffectiveLimit(row: ApiKey, k: RateClass): Option<(real, real)> {
    match k
    case Bulk => if row.bulkRate.Some? && row.bulkBucket.Some? then Some((row.bulkRate.value, row.bulkBucket.value))
      else None
    case Single => if row.singleRate.Some? && row.singleBucket.Some?
      then Some((row.singleRate.value, row.singleBucket.value)) else None
  }

  /** The same answer, apart from the name and the pin that a grant reports. */
  predicate SameDecision(r: AuthResult, q: AuthResult) {
    (r.Granted? && q.Granted?) || r == q
  }

  /** The expiry override is negative and does not land on 0, which would count as no expiry. */
  predicate BornExpired(o: Overrides, now: int) {
    o.expiresInDays.Some? && o.expiresInDays.value < 0.0 && now as real + o.expiresInDays.value * MS_PER_DAY != 0.0
  }

  /**
   Rotation transfers authority exactly. The old key is dead; the new key has the same effective
   limits and, unless its own expiry override puts it in the past, gets the same decision and the
   same denied list for every zone and context list at that instant.
   */
  lemma RotationTransfersAuthority(rt: Runtime, s: IamState, id: string, o: Overrides, newId: string, zone: string,
                                   contexts: seq<RequestContext>, now: int)
    requires Coherent(s) && newId !in s.used && CanRotate(s, id, now)
    ensures var t := AfterRotate(s, id, o, newId, now).table;
            && newId in t && Dead(AfterRotate(s, id, o, newId, now), id)
            && (forall k :: EffectiveLimit(t[newId], k) == EffectiveLimit(s.table[id], k))
            && Decide(rt, t, id, zone, contexts, now) == Refused(RevokedKey, [])
            && (!BornExpired(o, now) ==>
                  SameDecision(Decide(rt, t, newId, zone, contexts, now), Decide(rt, s.table, id, zone, contexts, now)))
            && (BornExpired(o, now) ==> Decide(rt, t, newId, zone, contexts, now) == Refused(ExpiredKey, []))
  {
    var t := AfterRotate(s, id, o, newId, now).table;
    assert newId != id;
    assert t[newId] == NewRow(RotationRequest(s.table[id], o), newId, now);
    ExpiryOfNewRow(RotationRequest(s.table[id], o), newId, now);
  }

  lemma ExpiryOfNewRow(req: CreateRequest, id: string, now: int)
    ensures Expired(NewRow(req, id, now), now)
            <==> req.expiresInDays.Some? && req.expiresInDays.value < 0.0
                 && now as real + req.expiresInDays.value * MS_PER_DAY != 0.0
  {
    if req.expiresInDays.Some? {
      var d := req.expiresInDays.value;
      assert d < 0.0 <==> d * MS_PER_DAY < 0.0;
    }
  }

  /** The pin that a grant reports survives rotation if and only if the old key had one. */
  lemma RotationKeepsPinIff(s: IamState, id: string, o: Overrides, newId: string, now: int)
    requires Coherent(s) && newId !in s.used && CanRotate(s, id, now)
    ensures var t := AfterRotate(s, id, o, newId, now).table;
            t[newId].upstreamTokenId == s.table[id].upstreamTokenId <==> s.table[id].upstreamTokenId.Some?
  {
    assert newId != id;
  }

  /** Rotation without an expiry override drops the expiry: the new key never expires. */
  lemma RotationDropsExpiry(s: IamState, id: string, o: Overrides, newId: string, now: int, later: int)
    requires Coherent(s) && newId !in s.used && CanRotate(s, id, now) && o.expiresInDays.None?
    ensures var t := AfterRotate(s, id, o, newId, now).table; !Expired(t[newId], later) && !Due(t[newId], later)
  {
    assert newId != id;
  }

  /** A live key in its zone is granted an empty list of contexts whatever its policy says. */
  lemma NoContextsNoDenial(rt: Runtime, row: ApiKey, policy: PolicyDocument, zone: string, now: int)
    ensures Judge(rt, row, policy, zone, [], now).Granted?
            <==> !row.revoked && !Expired(row, now) && (row.zoneId.None? || row.zoneId.value in {"", zone})
  {
  }

  /** The denied list names exactly the contexts that the policy does not allow, in order. */
  lemma {:induction false} DeniedIsEmptyIff(rt: Runtime, policy: PolicyDocument, contexts: seq<RequestContext>)
    ensures Denied(rt, policy, contexts) == [] <==> forall c <- contexts :: Allows(rt, policy, c)
  {
    if contexts != [] {
      DeniedIsEmptyIff(rt, policy, contexts[1..]);
      assert forall c :: c in contexts <==> c == contexts[0] || c in contexts[1..];
    }
  }

  // ---------------------------------------------------------------- each answer, by its own condition

  /** The instant of expiry has passed; an expiry of 0 is none. */
  predicate PastExpiry(row: ApiKey, now: int) {
    match row.expiresAt
    case None => false
    case Some(at) => at != 0.0 && at < now as real
  }

  /** A zone of the key's own, which is not the one asked for. */
  predicate Elsewhere(row: ApiKey, zone: string) {
    match row.zoneId
    case None => false
    case Some(own) => own != "" && own != zone
  }

  /** The stored policy can be read and allows the context. */
  predicate Permits(rt: Runtime, row: ApiKey, c: RequestContext) {
    match row.policy
    case Corrupt => false
    case Readable(doc) => Allows(rt, doc, c)
  }

  /**
   Every answer of `authorize` and when it is given, in the order of the checks. A grant reports the name of the
   key and the upstream token that it is pinned to; only a refusal over scope lists anything as denied.
   */
  lemma DecisionIff(rt: Runtime, table: map<string, ApiKey>, id: string, zone: string,
                    contexts: seq<RequestContext>, now: int)
    ensures var r := Decide(rt, table, id, zone, contexts, now);
            && (r == Refused(InvalidKey, []) <==> id !in table)
            && (id in table ==>
                  var row := table[id];
                  && (r == Refused(RevokedKey, []) <==> row.revoked)
                  && (r == Refused(ExpiredKey, []) <==> !row.revoked && PastExpiry(row, now))
                  && (r == Refused(WrongZone, [])
                      <==> !row.revoked && !PastExpiry(row, now) && Elsewhere(row, zone))
                  && (r.Refused? && r.error == OutOfScope
                      <==> && !row.revoked && !PastExpiry(row, now) && !Elsewhere(row, zone)
                           && exists c <- contexts :: !Permits(rt, row, c))
                  && (r == Granted(row.name, row.upstreamTokenId)
                      <==> && !row.revoked && !PastExpiry(row, now) && !Elsewhere(row, zone)
                           && forall c <- contexts :: Permits(rt, row, c))
                  && (r.Granted? ==> r.keyName == row.name && r.upstreamTokenId == row.upstreamTokenId))
  {
    hide MatchesStatement, FormatDenied, Denied;
    if id in table {
      forall c ensures Permits(rt, table[id], c) <==> Allows(rt, ResolvedPolicy(table[id]), c) {}
    }
  }

  /** `at` are the positions of the refused contexts, in order. */
  ghost predicate RefusedAt(rt: Runtime, row: ApiKey, contexts: seq<RequestContext>, at: seq<nat>) {
    && (forall i, j :: 0 <= i < j < |at| ==> at[i] < at[j])
    && (forall k: nat :: k in at <==> k < |contexts| && !Permits(rt, row, contexts[k]))
  }

  /** A refusal over scope lists exactly the contexts that the policy refuses, in order, each as it is reported. */
  lemma OutOfScopeListsTheRefused(rt: Runtime, table: map<string, ApiKey>, id: string, zone: string,
                                  contexts: seq<RequestContext>, now: int) returns (at: seq<nat>)
    requires var r := Decide(rt, table, id, zone, contexts, now); r.Refused? && r.error == OutOfScope
    ensures id in table && RefusedAt(rt, table[id], contexts, at)
    ensures var denied := Decide(rt, table, id, zone, contexts, now).denied;
            |denied| == |at| && forall i :: 0 <= i < |at| ==> at[i] < |contexts|
                                                              && denied[i] == FormatDenied(contexts[at[i]])
  {
    assert id in table && Decide(rt, table, id, zone, contexts, now).denied
                          == Denied(rt, ResolvedPolicy(table[id]), contexts) by { hide Denied, Allows, FormatDenied; }
    at := DeniedPositions(rt, table[id], contexts);
  }

  lemma {:induction false} DeniedPositions(rt: Runtime, row: ApiKey, contexts: seq<RequestContext>)
    returns (at: seq<nat>)
    ensures RefusedAt(rt, row, contexts, at)
    ensures var denied := Denied(rt, ResolvedPolicy(row), contexts);
            |denied| == |at| && forall i :: 0 <= i < |at| ==> at[i] < |contexts|
                                                              && denied[i] == FormatDenied(contexts[at[i]])
    decreases |contexts|
  {
    hide MatchesStatement, FormatDenied;
    if contexts == [] {
      at := [];
    } else {
      var n := |contexts| - 1;
      var before, last := contexts[..n], contexts[n];
      assert contexts == before + [last];
      at := DeniedPositions(rt, row, before);
      DeniedAppend(rt, ResolvedPolicy(row), before, last);
      assert Permits(rt, row, last) <==> Allows(rt, ResolvedPolicy(row), last);
      hide Allows, Permits, Denied;
      assert forall k: nat :: k in at <==> k < n && !Permits(rt, row, before[k]);
      if !Permits(rt, row, last) { at := at + [n]; }
    }
  }

  /** How a refused context is reported that is no purge, or lacks the field by which it would be reported. */
  lemma OtherDenials(ctx: RequestContext)
    ensures ctx.action !in ["purge:url", "purge:host", "purge:tag", "purge:prefix", "purge:everything"] ==>
              FormatDenied(ctx) == ctx.action + ":" + ctx.resource
    ensures ctx.action == "purge:url" && "url" !in ctx.fields ==> FormatDenied(ctx) == "unknown-url"
    ensures ctx.action == "purge:host" && "host" !in ctx.fields ==> FormatDenied(ctx) == "host:unknown"
    ensures ctx.action == "purge:tag" && "tag" !in ctx.fields ==> FormatDenied(ctx) == "tag:unknown"
    ensures ctx.action == "purge:prefix" && "prefix" !in ctx.fields ==> FormatDenied(ctx) == "prefix:unknown"
  {
    var purges := ["purge:url", "purge:host", "purge:tag", "purge:prefix", "purge:everything"];
    assert forall i :: 0 <= i < |purges| ==> purges[i] in purges;
    assert purges[0] == "purge:url" && purges[1] == "purge:host" && purges[2] == "purge:tag";
    assert purges[3] == "purge:prefix" && purges[4] == "purge:everything";
  }

  /** A limit of a class needs the rate and the bucket size of that class, and is exactly those. */
  lemma LimitIsOfTheRow(row: ApiKey, rate: real, size: real)
    ensures EffectiveLimit(row, Bulk) == Some((rate, size))
            <==> row.bulkRate == Some(rate) && row.bulkBucket == Some(size)
    ensures EffectiveLimit(row, Single) == Some((rate, size))
            <==> row.singleRate == Some(rate) && row.singleBucket == Some(size)
  {
  }

  // ---------------------------------------------------------------- what a new, a rotated and an updated key are

  /**
   A created key, at any later instant: it is granted what its policy allows in its zone until the given number of
   days has passed, for good if that number is missing or zero; it reports its name and pin, it has the limits
   asked for, and no other key changes.
   */
  lemma CreatedKeyDecides(rt: Runtime, s: IamState, req: CreateRequest, id: string, now: int, zone: string,
                          contexts: seq<RequestContext>, later: int)
    requires s.table.Keys <= s.used && id !in s.used
    ensures var t := AfterCreate(s, req, id, now).table;
            var days := req.expiresInDays.GetOr(0.0);
            var end := now as real + days * 86400000.0;
            var over := days != 0.0 && end != 0.0 && end < later as real;
            && t.Keys == s.table.Keys + {id} && (forall k <- s.table :: t[k] == s.table[k])
            && (Decide(rt, t, id, zone, contexts, later) == Granted(req.name, req.upstreamTokenId)
                <==> && !over && (req.zoneId.None? || req.zoneId.value == "" || req.zoneId.value == zone)
                     && forall c <- contexts :: Allows(rt, req.policy, c))
            && (match req.rateLimit
                case None => forall k :: EffectiveLimit(t[id], k) == None
                case Some(l) => && t[id].bulkRate == l.bulkRate && t[id].bulkBucket == l.bulkBucket
                                && t[id].singleRate == l.singleRate && t[id].singleBucket == l.singleBucket)
            && t[id].id == id && t[id].createdAt == now && t[id].createdBy == req.createdBy
            && (Decide(rt, t, id, zone, contexts, later) == Refused(ExpiredKey, []) <==> over)
  {
    hide Allows;
    var t := AfterCreate(s, req, id, now).table;
    DecisionIff(rt, t, id, zone, contexts, later);
    forall c ensures Permits(rt, t[id], c) <==> Allows(rt, req.policy, c) {}
  }

  /**
   Rotation: the new key has the given name or the old one marked as rotated; the zone, policy, creator, rates and
   pin of the old key, an absent pin as an empty one; and the instant of rotation as its creation. The old row is only
   marked as revoked, and no other key changes. A key that cannot be rotated is left alone.
   */
  lemma RotatedKeyIs(s: IamState, id: string, o: Overrides, newId: string, now: int)
    requires s.table.Keys <= s.used && newId !in s.used
    ensures var t := AfterRotate(s, id, o, newId, now).table;
            if id in s.table && !s.table[id].revoked && !PastExpiry(s.table[id], now) && s.table[id].policy.Readable?
            then
              && t.Keys == s.table.Keys + {newId}
              && (forall k <- s.table :: t[k] == if k == id then s.table[k].(revoked := true) else s.table[k])
              && var row, row' := s.table[id], t[newId];
              && row'.name == (if o.name.Some? then o.name.value else row.name + " (rotated)")
              && row'.zoneId == row.zoneId && row'.policy == row.policy && row'.createdBy == row.createdBy
              && !row'.revoked && row'.id == newId && row'.createdAt == now
              && row'.bulkRate == row.bulkRate && row'.singleRate == row.singleRate
              && (row.bulkRate.Some? || row.singleRate.Some? ==>
                    row'.bulkBucket == row.bulkBucket && row'.singleBucket == row.singleBucket)
              && row'.upstreamTokenId == Some(if row.upstreamTokenId.Some? then row.upstreamTokenId.value else "")
              && (row'.expiresAt.Some? <==> o.expiresInDays.Some? && o.expiresInDays.value != 0.0)
              && (row'.expiresAt.Some? ==> row'.expiresAt.value == now as real + o.expiresInDays.value * 86400000.0)
            else AfterRotate(s, id, o, newId, now) == s
  {
    assert id in s.table ==> newId != id;
  }

  predicate IsApplied<T(==)>(f: Field<T>, before: T, after: T) {
    match f
    case Absent => after == before
    case SetTo(v) => after == v
  }

  /**
   An update sets each of its six fields on its own, leaves the others and every other key as they are, and drops
   the cached entry; a key that is missing or revoked is left alone.
   */
  lemma UpdateSetsItsFields(s: IamState, id: string, u: KeyUpdate)
    ensures var s' := AfterUpdate(s, id, u);
            if id in s.table && !s.table[id].revoked then
              && s'.table.Keys == s.table.Keys && (forall k <- s.table :: k != id ==> s'.table[k] == s.table[k])
              && var row, row' := s.table[id], s'.table[id];
              && IsApplied(u.name, row.name, row'.name) && IsApplied(u.expiresAt, row.expiresAt, row'.expiresAt)
              && IsApplied(u.bulkRate, row.bulkRate, row'.bulkRate)
              && IsApplied(u.bulkBucket, row.bulkBucket, row'.bulkBucket)
              && IsApplied(u.singleRate, row.singleRate, row'.singleRate)
              && IsApplied(u.singleBucket, row.singleBucket, row'.singleBucket)
              && row'.id == row.id && row'.zoneId == row.zoneId && row'.createdAt == row.createdAt
              && row'.revoked == row.revoked && row'.policy == row.policy && row'.createdBy == row.createdBy
              && row'.upstreamTokenId == row.upstreamTokenId
              && (s' != s ==> id !in s'.cache)
            else s' == s
  {
  }

  /** The ids that an operation is about. */
  function Subjects(op: Op): set<string> {
    match op
    case Create(_, id, _) => {id}
    case Rotate(id, _, newId, _) => {id, newId}
    case Update(id, _) => {id}
    case Revoke(id) => {id}
    case Delete(id) => {id}
    case BulkRevoke(ids) => set id <- ids
    case BulkDelete(ids) => set id <- ids
    case RevokeExpired(_) => {}
    case Authorize(_, _, _) => {}
  }

  lemma {:induction false} BulkDeleteTable(s: IamState, ids: seq<string>, id: string)
    ensures id in AfterBulkDelete(s, ids).table <==> id in s.table && id !in ids
    ensures id in AfterBulkDelete(s, ids).table ==> AfterBulkDelete(s, ids).table[id] == s.table[id]
    decreases |ids|
  {
    if ids != [] { BulkDeleteTable(AfterDelete(s, ids[0]), ids[1..], id); }
  }

  /**
   No operation touches a key that it is not about, except that a cleanup marks as revoked the keys whose expiry
   is set and not after its instant; and asking for authorization never changes a row.
   */
  lemma OtherRowsStay(s: IamState, op: Op, id: string)
    requires id !in Subjects(op)
    ensures id in Step(s, op).table <==> id in s.table
    ensures id in s.table ==>
              Step(s, op).table[id]
              == if op.RevokeExpired? && s.table[id].expiresAt.Some? && s.table[id].expiresAt.value <= op.now as real
                 then s.table[id].(revoked := true) else s.table[id]
  {
    if op.BulkRevoke? { BulkRevokeTable(s, op.ids); }
    if op.BulkDelete? { BulkDeleteTable(s, op.ids, id); }
  }

  /** Revoking marks the row and nothing else of it, and deleting takes it away. */
  lemma RevokeAndDelete(s: IamState, id: string)
    ensures AfterDelete(s, id).table.Keys == s.table.Keys - {id}
    ensures AfterRevoke(s, id).table.Keys == s.table.Keys
    ensures id in s.table ==> AfterRevoke(s, id).table[id] == s.table[id].(revoked := true)
  {
  }
}
