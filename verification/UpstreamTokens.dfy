/**
 Upstream tokens: `src/upstream-tokens.ts`.

 The SQL table is the list of its rows in insertion order. Each operation reads the clock once.
 */
module UpstreamTokens {
  import opened Prelude

  datatype Scope = ZoneScope | AccountScope

  datatype Row =
    Row(id: string, name: string, token: string, zoneIds: string, scope: Scope, createdAt: int, expiresAt: Option<real>)

  datatype CacheEntry = CacheEntry(token: string, cachedAt: int)

  datatype Query = ForZone(name: string) | ForAccount(name: string) | ById(name: string)

  datatype Store = Store(table: seq<Row>, cache: map<string, CacheEntry>)

  // ---------------------------------------------------------------- the zone list as text

  /** `ids.join(',')` */
  function Join(ids: seq<string>): string {
    if ids == [] then [] else if |ids| == 1 then ids[0] else ids[0] + [','] + Join(ids[1..])
  }

  /** `text.split(',')` */
  function Split(text: string): (r: seq<string>)
    ensures |r| >= 1
  {
    if text == [] then [[]]
    else
      var rest := Split(text[1..]);
      if text[0] == ',' then [[]] + rest else [[text[0]] + rest[0]] + rest[1..]
  }

  predicate CommaFree(ids: seq<string>) {
    forall id <- ids :: ',' !in id
  }

  lemma {:induction false} SplitIsCommaFree(text: string)
    ensures CommaFree(Split(text))
  {
    if text != [] {
      SplitIsCommaFree(text[1..]);
      var rest := Split(text[1..]);
      forall id | id in Split(text) ensures ',' !in id {
        if id !in rest {
          assert rest[0] in rest;
        }
      }
    }
  }

  lemma {:induction false} SplitAtFirstComma(head: string, tail: string)
    requires ',' !in head
    ensures Split(head) == [head]
    ensures Split(head + [','] + tail) == [head] + Split(tail)
  {
    if head == [] {
      assert head + [','] + tail == [','] + tail;
    } else {
      SplitAtFirstComma(head[1..], tail);
      var text := head + [','] + tail;
      assert text[0] == head[0] != ',' && text[1..] == head[1..] + [','] + tail;
      assert [head[0]] + head[1..] == head;
      assert ([head[1..]] + Split(tail))[1..] == Split(tail);
    }
  }

  /** Storing a list as text and reading it back is exact for lists with an entry and no commas, and only for those. */
  lemma {:induction false} ListRoundTripIff(ids: seq<string>)
    ensures Split(Join(ids)) == ids <==> ids != [] && CommaFree(ids)
  {
    SplitIsCommaFree(Join(ids));
    if ids != [] && CommaFree(ids) {
      assert ids[0] in ids;
      SplitAtFirstComma(ids[0], if |ids| == 1 then [] else Join(ids[1..]));
      if |ids| > 1 {
        assert CommaFree(ids[1..]) by { assert forall id <- ids[1..] :: id in ids; }
        ListRoundTripIff(ids[1..]);
      }
    }
  }

  // ---------------------------------------------------------------- the plain scan

  predicate Live(r: Row, now: int) {
    r.expiresAt.None? || r.expiresAt.value == 0.0 || r.expiresAt.value > now as real
  }

  predicate Exact(r: Row, name: string) {
    name in Split(r.zoneIds)
  }

  /** A wildcard row with an empty token is passed over: the code takes an empty token for none. */
  predicate Wildcard(r: Row) {
    "*" in Split(r.zoneIds) && r.token != ""
  }

  /** Put `r` before the rows that are not newer. */
  function Place(r: Row, sorted: seq<Row>): seq<Row> {
    if sorted == [] || sorted[0].createdAt <= r.createdAt then [r] + sorted
    else [sorted[0]] + Place(r, sorted[1..])
  }

  /** `ORDER BY created_at DESC`; rows of one instant stay in insertion order. */
  function NewestFirst(rows: seq<Row>): seq<Row> {
    if rows == [] then [] else Place(rows[0], NewestFirst(rows[1..]))
  }

  predicate Selected(q: Query, r: Row) {
    q.ForAccount? ==> r.scope.AccountScope?
  }

  function Select(rows: seq<Row>, q: Query): seq<Row> {
    if rows == [] then []
    else (if Selected(q, rows[0]) then [rows[0]] else []) + Select(rows[1..], q)
  }

  function FirstExact(rows: seq<Row>, name: string, now: int): Option<Row> {
    if rows == [] then None
    else if Live(rows[0], now) && Exact(rows[0], name) then Some(rows[0])
    else FirstExact(rows[1..], name, now)
  }

  function FirstWildcard(rows: seq<Row>, now: int): Option<Row> {
    if rows == [] then None
    else if Live(rows[0], now) && Wildcard(rows[0]) then Some(rows[0])
    else FirstWildcard(rows[1..], now)
  }

  function FindById(rows: seq<Row>, id: string): Option<Row> {
    if rows == [] then None else if rows[0].id == id then Some(rows[0]) else FindById(rows[1..], id)
  }

  /** The row that answers a query at an instant, if any. */
  function Winner(table: seq<Row>, q: Query, now: int): Option<Row> {
    if q.ById? then
      var r := FindById(table, q.name);
      if r.Some? && Live(r.value, now) then r else None
    else
      var rows := NewestFirst(Select(table, q));
      var exact := FirstExact(rows, q.name, now);
      if exact.Some? then exact else FirstWildcard(rows, now)
  }

  function Answer(table: seq<Row>, q: Query, now: int): Option<string> {
    match Winner(table, q, now)
    case Some(r) => Some(r.token)
    case None => None
  }

  // ---------------------------------------------------------------- the scan says what it should

  predicate Descending(rows: seq<Row>) {
    forall i, j :: 0 <= i < j < |rows| ==> rows[i].createdAt >= rows[j].createdAt
  }

  lemma {:induction false} PlaceAdds(r: Row, sorted: seq<Row>)
    ensures multiset(Place(r, sorted)) == multiset(sorted) + multiset{r}
  {
    if sorted != [] {
      PlaceAdds(r, sorted[1..]);
      assert sorted == [sorted[0]] + sorted[1..];
    }
  }

  /** Descending, with everything at most `top`. */
  predicate DescendingFrom(rows: seq<Row>, top: int) {
    rows == [] || (rows[0].createdAt <= top && DescendingFrom(rows[1..], rows[0].createdAt))
  }

  lemma {:induction false} PlaceSorts(r: Row, sorted: seq<Row>, top: int)
    requires DescendingFrom(sorted, top) && r.createdAt <= top
    ensures DescendingFrom(Place(r, sorted), top)
  {
    if sorted != [] && sorted[0].createdAt > r.createdAt {
      PlaceSorts(r, sorted[1..], sorted[0].createdAt);
    } else {
      assert ([r] + sorted)[1..] == sorted;
    }
  }

  lemma {:induction false} DescendingFromMeans(rows: seq<Row>, top: int)
    requires DescendingFrom(rows, top)
    ensures Descending(rows) && forall i :: 0 <= i < |rows| ==> rows[i].createdAt <= top
  {
    if rows != [] {
      DescendingFromMeans(rows[1..], rows[0].createdAt);
      assert forall i :: 0 < i < |rows| ==> rows[i] == rows[1..][i - 1];
    }
  }

  lemma {:induction false} NewestFirstDescends(rows: seq<Row>, top: int)
    requires forall r <- rows :: r.createdAt <= top
    ensures DescendingFrom(NewestFirst(rows), top)
  {
    if rows != [] {
      NewestFirstDescends(rows[1..], top);
      PlaceSorts(rows[0], NewestFirst(rows[1..]), top);
    }
  }

  function Newest(rows: seq<Row>): (top: int)
    ensures forall r <- rows :: r.createdAt <= top
  {
    if rows == [] then 0
    else var t := Newest(rows[1..]); if rows[0].createdAt > t then rows[0].createdAt else t
  }

  lemma {:induction false} NewestFirstSorts(rows: seq<Row>)
    ensures Descending(NewestFirst(rows)) && multiset(NewestFirst(rows)) == multiset(rows)
  {
    if rows != [] {
      NewestFirstSorts(rows[1..]);
      PlaceAdds(rows[0], NewestFirst(rows[1..]));
      assert rows == [rows[0]] + rows[1..];
    }
    NewestFirstDescends(rows, Newest(rows));
    DescendingFromMeans(NewestFirst(rows), Newest(rows));
  }

  lemma {:induction false} SelectKeeps(rows: seq<Row>, q: Query, r: Row)
    ensures r in Select(rows, q) <==> r in rows && Selected(q, r)
  {
    if rows != [] {
      SelectKeeps(rows[1..], q, r);
      assert r in rows <==> r == rows[0] || r in rows[1..];
    }
  }

  lemma ScannedRows(table: seq<Row>, q: Query, r: Row)
    ensures r in NewestFirst(Select(table, q)) <==> r in table && Selected(q, r)
  {
    NewestFirstSorts(Select(table, q));
    SelectKeeps(table, q, r);
    assert r in NewestFirst(Select(table, q)) <==> r in multiset(NewestFirst(Select(table, q)));
  }

  lemma {:induction false} FirstExactIsNewest(rows: seq<Row>, name: string, now: int, r: Row)
    requires Descending(rows) && r in rows && Live(r, now) && Exact(r, name)
    ensures var w := FirstExact(rows, name, now);
            w.Some? && w.value in rows && Live(w.value, now) && Exact(w.value, name) && w.value.createdAt >= r.createdAt
  {
    if !(Live(rows[0], now) && Exact(rows[0], name)) {
      FirstExactIsNewest(rows[1..], name, now, r);
    }
  }

  lemma {:induction false} FirstWildcardIsNewest(rows: seq<Row>, now: int, r: Row)
    requires Descending(rows) && r in rows && Live(r, now) && Wildcard(r)
    ensures var w := FirstWildcard(rows, now);
            w.Some? && w.value in rows && Live(w.value, now) && Wildcard(w.value) && w.value.createdAt >= r.createdAt
  {
    if !(Live(rows[0], now) && Wildcard(rows[0])) {
      FirstWildcardIsNewest(rows[1..], now, r);
    }
  }

  lemma {:induction false} FirstsAreMatches(rows: seq<Row>, name: string, now: int)
    ensures var w := FirstExact(rows, name, now);
            w.Some? ==> w.value in rows && Live(w.value, now) && Exact(w.value, name)
    ensures var w := FirstWildcard(rows, now); w.Some? ==> w.value in rows && Live(w.value, now) && Wildcard(w.value)
  {
    if rows != [] { FirstsAreMatches(rows[1..], name, now); }
  }

  /** Has no expiry, an expiry of 0, or one after this instant. */
  predicate Unexpired(r: Row, now: int) {
    match r.expiresAt
    case None => true
    case Some(at) => at == 0.0 || at > now as real
  }

  /** A row that may answer: for an account it has account scope, for a zone either; unexpired; listing the name. */
  predicate CoversExactly(table: seq<Row>, q: Query, now: int, r: Row) {
    r in table && (q.ForAccount? ==> r.scope == AccountScope) && Unexpired(r, now)
    && q.name in Split(r.zoneIds)
  }

  /** Or listing the star, with a token that is not empty. */
  predicate CoversAll(table: seq<Row>, q: Query, now: int, r: Row) {
    r in table && (q.ForAccount? ==> r.scope == AccountScope) && Unexpired(r, now)
    && "*" in Split(r.zoneIds) && r.token != ""
  }

  /**
   Newest exact, else newest wildcard, and its token is the answer. The winner covers the name exactly and no such
   row is newer; or no live row covers it exactly and the winner is a newest live wildcard; and there is no winner
   exactly when no live row covers the name either way.
   */
  lemma WinnerIsNewest(table: seq<Row>, q: Query, now: int)
    requires !q.ById?
    ensures var w := Winner(table, q, now);
            && (w.Some? ==> CoversExactly(table, q, now, w.value) || CoversAll(table, q, now, w.value))
            && (forall r :: CoversExactly(table, q, now, r) ==>
                  w.Some? && CoversExactly(table, q, now, w.value) && w.value.createdAt >= r.createdAt)
            && (forall r :: CoversAll(table, q, now, r) ==>
                  w.Some? && (CoversExactly(table, q, now, w.value) || w.value.createdAt >= r.createdAt))
            && Answer(table, q, now) == (if w.Some? then Some(w.value.token) else None)
  {
    var rows := NewestFirst(Select(table, q));
    NewestFirstSorts(Select(table, q));
    FirstsAreMatches(rows, q.name, now);
    forall r
      ensures CoversExactly(table, q, now, r) <==> r in rows && Live(r, now) && Exact(r, q.name)
      ensures CoversAll(table, q, now, r) <==> r in rows && Live(r, now) && Wildcard(r)
    {
      ScannedRows(table, q, r);
    }
    hide CoversExactly, CoversAll, Live, Exact, Wildcard, Descending, NewestFirst, Select, FirstExact, FirstWildcard;
    forall r | CoversExactly(table, q, now, r)
      ensures var w := FirstExact(rows, q.name, now);
              w.Some? && CoversExactly(table, q, now, w.value) && w.value.createdAt >= r.createdAt
    {
      FirstExactIsNewest(rows, q.name, now, r);
    }
    forall r | CoversAll(table, q, now, r)
      ensures var w := FirstWildcard(rows, now); w.Some? && w.value.createdAt >= r.createdAt
    {
      FirstWildcardIsNewest(rows, now, r);
    }
  }

  /** `id` is the primary key. */
  predicate DistinctIds(table: seq<Row>) {
    forall i, j :: 0 <= i < j < |table| ==> table[i].id != table[j].id
  }

  lemma {:induction false} FindByIdFinds(table: seq<Row>, r: Row)
    requires DistinctIds(table) && r in table
    ensures FindById(table, r.id) == Some(r)
  {
    if table[0] != r {
      var i :| 0 <= i < |table| && table[i] == r;
      assert r in table[1..] by { assert table[1..][i - 1] == r; }
      FindByIdFinds(table[1..], r);
    }
  }

  /** By its id, a row answers exactly while it is unexpired, whatever its scope and list. */
  lemma ByIdIff(table: seq<Row>, id: string, now: int, r: Row)
    requires DistinctIds(table)
    ensures Winner(table, ById(id), now) == Some(r) <==> r in table && r.id == id && Unexpired(r, now)
    ensures Winner(table, ById(id), now) == Some(r) ==> Answer(table, ById(id), now) == Some(r.token)
  {
    FoundHasId(table, id);
    if r in table && r.id == id { FindByIdFinds(table, r); }
  }

  // ---------------------------------------------------------------- time only removes rows

  lemma {:induction false} FirstsWhileLive(rows: seq<Row>, name: string, t: int, now: int)
    requires t <= now
    ensures var w := FirstExact(rows, name, t); w.Some? && Live(w.value, now) ==> FirstExact(rows, name, now) == w
    ensures FirstExact(rows, name, t).None? ==> FirstExact(rows, name, now).None?
    ensures var w := FirstWildcard(rows, t); w.Some? && Live(w.value, now) ==> FirstWildcard(rows, now) == w
  {
    if rows != [] { FirstsWhileLive(rows[1..], name, t, now); }
  }

  lemma {:induction false} FoundHasId(rows: seq<Row>, id: string)
    ensures FindById(rows, id).Some? ==> FindById(rows, id).value in rows && FindById(rows, id).value.id == id
  {
    if rows != [] { FoundHasId(rows[1..], id); }
  }

  lemma WinnerIsLive(table: seq<Row>, q: Query, now: int)
    ensures Winner(table, q, now).Some? ==> Live(Winner(table, q, now).value, now)
  {
    if !q.ById? { FirstsAreMatches(NewestFirst(Select(table, q)), q.name, now); }
  }

  /** An earlier winner is still the winner if and only if it is still live. */
  lemma WinnerStaysIff(table: seq<Row>, q: Query, t: int, now: int)
    requires t <= now && Winner(table, q, t).Some?
    ensures Winner(table, q, now) == Winner(table, q, t) <==> Live(Winner(table, q, t).value, now)
  {
    WinnerIsLive(table, q, now);
    if !q.ById? { FirstsWhileLive(NewestFirst(Select(table, q)), q.name, t, now); }
  }

  // ---------------------------------------------------------------- the cache

  function CacheKey(q: Query): string {
    match q
    case ForZone(z) => z
    case ForAccount(a) => "account:" + a
    case ById(id) => "id:" + id
  }

  predicate Prefixed(s: string, prefix: string) {
    |prefix| <= |s| && s[..|prefix|] == prefix
  }

  /** A zone id that cannot be mistaken for another query's key; 32 hex digits never can. */
  predicate Proper(q: Query) {
    q.ForZone? ==> !Prefixed(q.name, "account:") && !Prefixed(q.name, "id:")
  }

  lemma KeysOfProperQueriesDiffer(p: Query, q: Query)
    requires Proper(p) && Proper(q) && CacheKey(p) == CacheKey(q)
    ensures p == q
  {
    var k := CacheKey(p);
    assert p.ForAccount? ==> k[..8] == "account:" && k[8..] == p.name;
    assert q.ForAccount? ==> k[..8] == "account:" && k[8..] == q.name;
    assert p.ById? ==> k[..3] == "id:" && k[3..] == p.name;
    assert q.ById? ==> k[..3] == "id:" && k[3..] == q.name;
    assert "account:"[0] == 'a' && "id:"[0] == 'i';
  }

  /** Others can: a zone shares its entry with another query exactly if its id starts with one of the prefixes. */
  lemma ZonesCollideIff(z: string)
    ensures (exists q :: q != ForZone(z) && CacheKey(q) == CacheKey(ForZone(z))) <==> !Proper(ForZone(z))
  {
    if Prefixed(z, "account:") {
      var q := ForAccount(z[8..]);
      assert "account:" + z[8..] == z && q != ForZone(z) && CacheKey(q) == CacheKey(ForZone(z));
    } else if Prefixed(z, "id:") {
      var q := ById(z[3..]);
      assert "id:" + z[3..] == z && q != ForZone(z) && CacheKey(q) == CacheKey(ForZone(z));
    } else {
      forall q | CacheKey(q) == CacheKey(ForZone(z)) ensures q == ForZone(z) {
        KeysOfProperQueriesDiffer(q, ForZone(z));
      }
    }
  }

  function Cached(s: Store, q: Query, ttl: int, now: int): Option<CacheEntry> {
    var k := CacheKey(q);
    if k in s.cache && now - s.cache[k].cachedAt < ttl then Some(s.cache[k]) else None
  }

  function Resolved(s: Store, q: Query, ttl: int, now: int): Option<string> {
    match Cached(s, q, ttl, now)
    case Some(e) => Some(e.token)
    case None => Answer(s.table, q, now)
  }

  function AfterResolve(s: Store, q: Query, ttl: int, now: int): Store {
    var a := Answer(s.table, q, now);
    if Cached(s, q, ttl, now).Some? || a.None? then s
    else s.(cache := s.cache[CacheKey(q) := CacheEntry(a.value, now)])
  }

  function WithTable(s: Store, table: seq<Row>): Store {
    Store(table, map[])
  }

  const MS_PER_DAY := 86400000.0

  datatype CreateRequest =
    CreateRequest(name: string, token: string, scope: Option<Scope>, zoneIds: seq<string>, expiresInDays: Option<real>)

  function NewRow(req: CreateRequest, id: string, now: int): Row {
    Row(id, req.name, req.token, Join(req.zoneIds), req.scope.GetOr(ZoneScope), now,
        if req.expiresInDays.Some? && req.expiresInDays.value != 0.0
        then Some(now as real + req.expiresInDays.value * MS_PER_DAY) else None)
  }

  /** A token registered for a list of ids covers exactly the ids of the list. */
  lemma CreatedTokenCoversItsList(req: CreateRequest, id: string, now: int, name: string)
    requires req.zoneIds != [] && CommaFree(req.zoneIds)
    ensures Exact(NewRow(req, id, now), name) <==> name in req.zoneIds
    ensures Wildcard(NewRow(req, id, now)) <==> "*" in req.zoneIds && req.token != ""
  {
    ListRoundTripIff(req.zoneIds);
  }

  /** An answer is kept: for less than the time to live, the same query is answered the same, whatever happens. */
  lemma ResolutionIsKept(s: Store, q: Query, ttl: int, now: int, later: int)
    ensures var key := match q case ForZone(z) => z case ForAccount(a) => "account:" + a case ById(id) => "id:" + id;
            var s' := AfterResolve(s, q, ttl, now);
            && s'.table == s.table
            && (key in s.cache && now - s.cache[key].cachedAt < ttl ==>
                  s' == s && Resolved(s, q, ttl, now) == Some(s.cache[key].token))
            && (key !in s.cache || now - s.cache[key].cachedAt >= ttl ==>
                  && Resolved(s, q, ttl, now) == Answer(s.table, q, now)
                  && (Resolved(s, q, ttl, now).None? ==> s' == s)
                  && (Resolved(s, q, ttl, now).Some? ==>
                        s'.cache == s.cache[key := CacheEntry(Resolved(s, q, ttl, now).value, now)]
                        && (later - now < ttl ==> Resolved(s', q, ttl, later) == Resolved(s, q, ttl, now))))
  {
  }

  /** What a new token is: added behind the others, until the days given have passed, zone scope if none is given. */
  lemma CreatedTokenIs(s: Store, req: CreateRequest, id: string, now: int, later: int)
    ensures var s' := AfterCreate(s, NewRow(req, id, now)); var n := |s.table|;
            && |s'.table| == n + 1 && s'.table[..n] == s.table && s'.cache == map[]
            && var r := s'.table[n];
            && r.id == id && r.name == req.name && r.token == req.token && r.createdAt == now
            && r.scope == (if req.scope == Some(AccountScope) then AccountScope else ZoneScope)
            && (Unexpired(r, later)
                <==> var days := req.expiresInDays.GetOr(0.0);
                     var end := now as real + days * 86400000.0;
                     days == 0.0 || end == 0.0 || later as real < end)
  {
  }

  function AfterCreate(s: Store, r: Row): Store {
    WithTable(s, s.table + [r])
  }

  function Remaining(rows: seq<Row>, id: string): seq<Row> {
    if rows == [] then [] else (if rows[0].id == id then [] else [rows[0]]) + Remaining(rows[1..], id)
  }

  function AfterDelete(s: Store, id: string): Store {
    if FindById(s.table, id).Some? then WithTable(s, Remaining(s.table, id)) else s
  }

  function AfterBulkDelete(s: Store, ids: seq<string>): Store
    decreases |ids|
  {
    if ids == [] then s else AfterBulkDelete(AfterDelete(s, ids[0]), ids[1..])
  }

  /** Per id, whether its row was there to delete. */
  function BulkDeleteResults(s: Store, ids: seq<string>): seq<bool>
    decreases |ids|
  {
    if ids == [] then []
    else [FindById(s.table, ids[0]).Some?] + BulkDeleteResults(AfterDelete(s, ids[0]), ids[1..])
  }

  /** Gone at a cleanup: an expiry of 0 counts here, though `Live` takes it for none. */
  predicate Due(r: Row, now: int) {
    r.expiresAt.Some? && r.expiresAt.value <= now as real
  }

  function NotDue(rows: seq<Row>, now: int): seq<Row> {
    if rows == [] then [] else (if Due(rows[0], now) then [] else [rows[0]]) + NotDue(rows[1..], now)
  }

  function AfterDeleteExpired(s: Store, now: int): Store {
    if exists r <- s.table :: Due(r, now) then WithTable(s, NotDue(s.table, now)) else s
  }

  /** The fields of an update that are given. */
  datatype TokenUpdate = TokenUpdate(name: Option<string>, expiresAt: Option<Option<real>>)

  function Updated(rows: seq<Row>, id: string, u: TokenUpdate): seq<Row> {
    seq(|rows|, i requires 0 <= i < |rows| =>
      if rows[i].id == id
      then rows[i].(name := u.name.GetOr(rows[i].name), expiresAt := u.expiresAt.GetOr(rows[i].expiresAt))
      else rows[i])
  }

  function AfterUpdate(s: Store, id: string, u: TokenUpdate): Store {
    if FindById(s.table, id).None? || u == TokenUpdate(None, None) then s else WithTable(s, Updated(s.table, id, u))
  }

  class UpstreamTokenManager {
    var table: seq<Row>
    var cache: map<string, CacheEntry>
    const cacheTtlMs: int

    ghost function State(): Store
      reads this
    {
      Store(table, cache)
    }

    constructor (table: seq<Row>, cacheTtlMs: int)
      ensures State() == Store(table, map[]) && this.cacheTtlMs == cacheTtlMs
    {
      this.table := table;
      this.cache := map[];
      this.cacheTtlMs := cacheTtlMs;
    }

    /** `resolveTokenForZone` and `resolveTokenForAccount`, which differ in key and filter only. */
    method ResolveByName(q: Query, now: int) returns (answer: Option<string>)
      requires !q.ById?
      modifies this
      ensures answer == Resolved(old(State()), q, cacheTtlMs, now)
      ensures State() == AfterResolve(old(State()), q, cacheTtlMs, now)
    {
      var key := CacheKey(q);
      if key in cache && now - cache[key].cachedAt < cacheTtlMs { return Some(cache[key].token); }
      var rows := NewestFirst(Select(table, q));
      var wildcardToken := "";
      for i := 0 to |rows|
        invariant State() == old(State())
        invariant FirstExact(rows, q.name, now) == FirstExact(rows[i..], q.name, now)
        invariant if wildcardToken == "" then FirstWildcard(rows, now) == FirstWildcard(rows[i..], now)
                  else FirstWildcard(rows, now).Some? && FirstWildcard(rows, now).value.token == wildcardToken
      {
        var row := rows[i];
        assert rows[i..][0] == row && rows[i..][1..] == rows[i + 1..];
        if row.expiresAt.Some? && row.expiresAt.value != 0.0 && row.expiresAt.value <= now as real { continue; }
        var zones := Split(row.zoneIds);
        if q.name in zones {
          cache := cache[key := CacheEntry(row.token, now)];
          return Some(row.token);
        }
        if "*" in zones && wildcardToken == "" { wildcardToken := row.token; }
      }
      FirstsAreMatches(rows, q.name, now);
      if wildcardToken != "" {
        cache := cache[key := CacheEntry(wildcardToken, now)];
        return Some(wildcardToken);
      }
      answer := None;
    }

    method ResolveById(id: string, now: int) returns (answer: Option<string>)
      modifies this
      ensures answer == Resolved(old(State()), ById(id), cacheTtlMs, now)
      ensures State() == AfterResolve(old(State()), ById(id), cacheTtlMs, now)
    {
      var key := "id:" + id;
      if key in cache && now - cache[key].cachedAt < cacheTtlMs { return Some(cache[key].token); }
      var found := FindById(table, id);
      if found.None? { return None; }
      var row := found.value;
      if row.expiresAt.Some? && row.expiresAt.value != 0.0 && row.expiresAt.value <= now as real { return None; }
      cache := cache[key := CacheEntry(row.token, now)];
      answer := Some(row.token);
    }

    method CreateToken(req: CreateRequest, id: string, now: int)
      modifies this
      ensures State() == AfterCreate(old(State()), NewRow(req, id, now))
    {
      var expiresAt := None;
      if req.expiresInDays.Some? && req.expiresInDays.value != 0.0 {
        expiresAt := Some(now as real + req.expiresInDays.value * MS_PER_DAY);
      }
      table := table + [Row(id, req.name, req.token, Join(req.zoneIds), req.scope.GetOr(ZoneScope), now, expiresAt)];
      cache := map[];
    }

    method UpdateToken(id: string, u: TokenUpdate)
      modifies this
      ensures State() == AfterUpdate(old(State()), id, u)
    {
      if FindById(table, id).None? { return; }
      if u.name.None? && u.expiresAt.None? { return; }
      table := Updated(table, id, u);
      cache := map[];
    }

    method DeleteToken(id: string) returns (deleted: bool)
      modifies this
      ensures State() == AfterDelete(old(State()), id)
      ensures deleted <==> FindById(old(table), id).Some?
    {
      deleted := FindById(table, id).Some?;
      if deleted {
        table := Remaining(table, id);
        cache := map[];
      }
    }

    method DeleteExpired(now: int) returns (count: nat)
      modifies this
      ensures State() == AfterDeleteExpired(old(State()), now)
      ensures count == |old(table)| - |NotDue(old(table), now)|
    {
      var kept := NotDue(table, now);
      NotDueShortensIff(table, now);
      count := |table| - |kept|;
      if count > 0 {
        table := kept;
        cache := map[];
      }
    }

    method BulkDelete(ids: seq<string>) returns (results: seq<bool>)
      modifies this
      ensures State() == AfterBulkDelete(old(State()), ids)
      ensures results == BulkDeleteResults(old(State()), ids)
    {
      results := [];
      for i := 0 to |ids|
        invariant BulkDeleteResults(old(State()), ids) == results + BulkDeleteResults(State(), ids[i..])
        invariant AfterBulkDelete(old(State()), ids) == AfterBulkDelete(State(), ids[i..])
      {
        assert ids[i..][1..] == ids[i + 1..];
        var deleted := DeleteToken(ids[i]);
        results := results + [deleted];
      }
    }
  }

  /** Row by row, a delete takes away the rows of that id and leaves the others in their order. */
  lemma {:induction false} WhatDeletesLeave(rows: seq<Row>, last: Row, id: string)
    ensures Remaining([], id) == []
    ensures Remaining(rows + [last], id) == Remaining(rows, id) + if last.id == id then [] else [last]
  {
    var end := if last.id == id then [] else [last];
    if rows == [] {
      assert [] + [last] == [last] && Remaining([last][1..], id) == [] && end + [] == end == [] + end;
    } else {
      assert (rows + [last])[0] == rows[0] && (rows + [last])[1..] == rows[1..] + [last];
      WhatDeletesLeave(rows[1..], last, id);
      var first := if rows[0].id == id then [] else [rows[0]];
      assert first + (Remaining(rows[1..], id) + end) == first + Remaining(rows[1..], id) + end;
    }
  }

  /** Row by row, a cleanup takes away those with an expiry not after its instant, 0 included. */
  lemma {:induction false} WhatCleanupsLeave(rows: seq<Row>, last: Row, now: int)
    ensures NotDue([], now) == []
    ensures NotDue(rows + [last], now)
            == NotDue(rows, now)
               + if last.expiresAt.Some? && last.expiresAt.value <= now as real then [] else [last]
  {
    var end := if last.expiresAt.Some? && last.expiresAt.value <= now as real then [] else [last];
    if rows == [] {
      assert [] + [last] == [last] && NotDue([last][1..], now) == [] && end + [] == end == [] + end;
    } else {
      assert (rows + [last])[0] == rows[0] && (rows + [last])[1..] == rows[1..] + [last];
      WhatCleanupsLeave(rows[1..], last, now);
      var first := if Due(rows[0], now) then [] else [rows[0]];
      assert first + (NotDue(rows[1..], now) + end) == first + NotDue(rows[1..], now) + end;
    }
  }

  /** The cache goes exactly when a row was written, and a call that finds nothing changes nothing. */
  lemma WritesClearTheCache(s: Store, id: string, u: TokenUpdate, now: int)
    ensures (exists r <- s.table :: r.id == id) ==>
              AfterDelete(s, id) == Store(Remaining(s.table, id), map[])
              && (u.name.Some? || u.expiresAt.Some? ==> AfterUpdate(s, id, u) == Store(Updated(s.table, id, u), map[]))
    ensures (forall r <- s.table :: r.id != id) ==> AfterDelete(s, id) == s && AfterUpdate(s, id, u) == s
    ensures (exists r <- s.table :: r.expiresAt.Some? && r.expiresAt.value <= now as real) ==>
              AfterDeleteExpired(s, now) == Store(NotDue(s.table, now), map[])
    ensures (forall r <- s.table :: r.expiresAt.Some? ==> r.expiresAt.value > now as real) ==>
              AfterDeleteExpired(s, now) == s
  {
    FoundIff(s.table, id);
  }

  lemma {:induction false} FoundIff(rows: seq<Row>, id: string)
    ensures FindById(rows, id).Some? <==> exists r <- rows :: r.id == id
  {
    if rows != [] {
      FoundIff(rows[1..], id);
      assert forall r :: r in rows <==> r == rows[0] || r in rows[1..];
    }
  }

  lemma {:induction false} RemainingKeeps(rows: seq<Row>, id: string, r: Row)
    ensures r in Remaining(rows, id) <==> r in rows && r.id != id
  {
    if rows != [] {
      RemainingKeeps(rows[1..], id, r);
      assert r in rows <==> r == rows[0] || r in rows[1..];
    }
  }

  lemma DeleteTable(s: Store, id: string, r: Row)
    ensures r in AfterDelete(s, id).table <==> r in s.table && r.id != id
  {
    FoundIff(s.table, id);
    RemainingKeeps(s.table, id, r);
  }

  /** A bulk delete takes away exactly the rows of the ids it is given. */
  lemma {:induction false} BulkDeleteTable(s: Store, ids: seq<string>, r: Row)
    ensures r in AfterBulkDelete(s, ids).table <==> r in s.table && r.id !in ids
    decreases |ids|
  {
    hide AfterDelete;
    if ids != [] {
      DeleteTable(s, ids[0], r);
      BulkDeleteTable(AfterDelete(s, ids[0]), ids[1..], r);
      assert r.id in ids <==> r.id == ids[0] || r.id in ids[1..];
    }
  }

  /** Item by item: an id counts as deleted if it had a row, at its first mention only. */
  lemma {:induction false} BulkDeleteReports(s: Store, ids: seq<string>, i: nat)
    requires i < |ids|
    ensures |BulkDeleteResults(s, ids)| == |ids|
    ensures BulkDeleteResults(s, ids)[i] <==> (exists r <- s.table :: r.id == ids[i]) && ids[i] !in ids[..i]
    decreases |ids|
  {
    hide AfterDelete;
    var s1 := AfterDelete(s, ids[0]);
    FoundIff(s.table, ids[0]);
    if |ids| > 1 { BulkDeleteReports(s1, ids[1..], if i == 0 then 0 else i - 1); }
    if i > 0 {
      assert ids[..i] == [ids[0]] + ids[1..][..i - 1];
      forall r ensures r in s1.table <==> r in s.table && r.id != ids[0] { DeleteTable(s, ids[0], r); }
    }
  }

  /** An update sets the fields that are given, in the rows of that id, and nothing else. */
  lemma UpdatedAre(rows: seq<Row>, id: string, u: TokenUpdate, i: nat)
    requires i < |rows|
    ensures |Updated(rows, id, u)| == |rows|
    ensures var r, r' := rows[i], Updated(rows, id, u)[i];
            && (r.id != id ==> r' == r)
            && (r.id == id ==> && (u.name.Some? ==> r'.name == u.name.value) && (u.name.None? ==> r'.name == r.name)
                               && (u.expiresAt.Some? ==> r'.expiresAt == u.expiresAt.value)
                               && (u.expiresAt.None? ==> r'.expiresAt == r.expiresAt))
            && r'.id == r.id && r'.token == r.token && r'.zoneIds == r.zoneIds && r'.scope == r.scope
            && r'.createdAt == r.createdAt
  {
  }

  lemma {:induction false} NotDueShortensIff(rows: seq<Row>, now: int)
    ensures |NotDue(rows, now)| <= |rows|
    ensures |NotDue(rows, now)| < |rows| <==> exists r <- rows :: Due(r, now)
  {
    if rows != [] {
      NotDueShortensIff(rows[1..], now);
      assert forall r :: r in rows <==> r == rows[0] || r in rows[1..];
    }
  }

  // ---------------------------------------------------------------- runs

  datatype Op =
    | Create(row: Row, now: int)
    | Update(id: string, update: TokenUpdate, now: int)
    | Delete(id: string, now: int)
    | BulkDelete(ids: seq<string>, now: int)
    | DeleteExpired(now: int)
    | Resolve(query: Query, ttl: int, now: int)

  function Step(s: Store, op: Op): Store {
    match op
    case Create(r, _) => AfterCreate(s, r)
    case Update(id, u, _) => AfterUpdate(s, id, u)
    case Delete(id, _) => AfterDelete(s, id)
    case BulkDelete(ids, _) => AfterBulkDelete(s, ids)
    case DeleteExpired(now) => AfterDeleteExpired(s, now)
    case Resolve(q, ttl, now) => AfterResolve(s, q, ttl, now)
  }

  function End(s: Store, ops: seq<Op>): Store
    decreases |ops|
  {
    if ops == [] then s else End(Step(s, ops[0]), ops[1..])
  }

  /** The clock does not step back, and queries name proper zones. */
  predicate RunOk(from: int, ops: seq<Op>, to: int)
    decreases |ops|
  {
    if ops == [] then from <= to
    else from <= ops[0].now && (ops[0].Resolve? ==> Proper(ops[0].query)) && RunOk(ops[0].now, ops[1..], to)
  }

  /** Every entry is what a scan of the current table answered at the instant it was cached. */
  ghost predicate Faithful(s: Store, now: int) {
    forall q :: Proper(q) && CacheKey(q) in s.cache ==>
      s.cache[CacheKey(q)].cachedAt <= now
      && Answer(s.table, q, s.cache[CacheKey(q)].cachedAt) == Some(s.cache[CacheKey(q)].token)
  }

  lemma {:induction false} BulkDeleteKeepsFaithful(s: Store, ids: seq<string>, now: int)
    requires Faithful(s, now)
    ensures Faithful(AfterBulkDelete(s, ids), now)
    decreases |ids|
  {
    if ids != [] { BulkDeleteKeepsFaithful(AfterDelete(s, ids[0]), ids[1..], now); }
  }

  lemma StepKeepsFaithful(s: Store, op: Op, from: int)
    requires Faithful(s, from) && from <= op.now && (op.Resolve? ==> Proper(op.query))
    ensures Faithful(Step(s, op), op.now)
  {
    hide Answer;
    if op.BulkDelete? { BulkDeleteKeepsFaithful(s, op.ids, op.now); }
    if op.Resolve? {
      var s' := Step(s, op);
      forall q | Proper(q) && CacheKey(q) in s'.cache
        ensures s'.cache[CacheKey(q)].cachedAt <= op.now
                && Answer(s'.table, q, s'.cache[CacheKey(q)].cachedAt) == Some(s'.cache[CacheKey(q)].token)
      {
        if CacheKey(q) == CacheKey(op.query) { KeysOfProperQueriesDiffer(q, op.query); }
      }
    }
  }

  lemma {:induction false} RunKeepsFaithful(s: Store, ops: seq<Op>, from: int, to: int)
    requires Faithful(s, from) && RunOk(from, ops, to)
    ensures Faithful(End(s, ops), to)
    decreases |ops|
  {
    hide Answer;
    if ops != [] {
      StepKeepsFaithful(s, ops[0], from);
      RunKeepsFaithful(Step(s, ops[0]), ops[1..], ops[0].now, to);
    }
  }

  /**
   Bounded staleness: after every run, an answer is what the plain scan of the current table gives at
   this instant or at one less than the time to live ago; and "no token" is always the answer of now.
   */
  lemma ResolutionIsBoundedlyStale(table: seq<Row>, ops: seq<Op>, from: int, q: Query, ttl: int, now: int)
    requires RunOk(from, ops, now) && Proper(q)
    ensures var s := End(Store(table, map[]), ops);
            exists t :: (t == now || now - ttl < t <= now) && Resolved(s, q, ttl, now) == Answer(s.table, q, t)
    ensures var s := End(Store(table, map[]), ops);
            Resolved(s, q, ttl, now).None? ==> Answer(s.table, q, now).None?
  {
    var s := End(Store(table, map[]), ops);
    RunKeepsFaithful(Store(table, map[]), ops, from, now);
    if Cached(s, q, ttl, now).Some? {
      var t := s.cache[CacheKey(q)].cachedAt;
      assert now - ttl < t <= now && Resolved(s, q, ttl, now) == Answer(s.table, q, t);
    } else {
      assert Resolved(s, q, ttl, now) == Answer(s.table, q, now);
    }
  }

  /** The row whose token a cache hit returns. */
  ghost predicate Behind(s: Store, q: Query, r: Row) {
    CacheKey(q) in s.cache && Winner(s.table, q, s.cache[CacheKey(q)].cachedAt) == Some(r)
  }

  /**
   When a cached answer is the answer of now: the row behind it still wins if and only if it has not
   expired in between, whatever happened to other rows' expiries.
   */
  lemma CacheHitIsCurrentIff(table: seq<Row>, ops: seq<Op>, from: int, q: Query, ttl: int, now: int)
    requires RunOk(from, ops, now) && Proper(q)
    requires Cached(End(Store(table, map[]), ops), q, ttl, now).Some?
    ensures var s := End(Store(table, map[]), ops);
            exists r :: Behind(s, q, r) && Resolved(s, q, ttl, now) == Some(r.token)
              && (Winner(s.table, q, now) == Some(r) <==> Live(r, now))
              && (Live(r, now) ==> Resolved(s, q, ttl, now) == Answer(s.table, q, now))
  {
    var s := End(Store(table, map[]), ops);
    RunKeepsFaithful(Store(table, map[]), ops, from, now);
    var t := s.cache[CacheKey(q)].cachedAt;
    var r := Winner(s.table, q, t).value;
    WinnerStaysIff(s.table, q, t, now);
    assert Behind(s, q, r);
  }

  /**
   What a collision does: after a token was resolved by its id, a zone named after that id is given this
   token, though no scan of the table at any instant gives that zone any token.
   */
  lemma CollisionGivesAWrongToken(ttl: int, now: int, t: int)
    requires ttl > 0
    ensures var table := [Row("1", "a token", "secret", "zone", ZoneScope, 0, None)];
            var s := End(Store(table, map[]), [Resolve(ById("1"), ttl, now)]);
            && Resolved(s, ForZone("id:1"), ttl, now) == Some("secret")
            && Answer(s.table, ForZone("id:1"), t) == None
  {
    var row := Row("1", "a token", "secret", "zone", ZoneScope, 0, None);
    var table := [row];
    var s := Store(table, map[]);
    assert "id:" + "1" == "id:1";
    assert Answer(table, ById("1"), now) == Some("secret");
    var s1 := Step(s, Resolve(ById("1"), ttl, now));
    assert s1 == Store(table, map["id:1" := CacheEntry("secret", now)]);
    assert End(s, [Resolve(ById("1"), ttl, now)]) == End(s1, []);
    SplitAtFirstComma("zone", []);
    assert Select(table[1..], ForZone("id:1")) == [] && Select(table, ForZone("id:1")) == table;
    assert NewestFirst(table[1..]) == [] && NewestFirst(table) == table;
    assert FirstExact(table, "id:1", t) == FirstExact(table[1..], "id:1", t) == None;
    assert FirstWildcard(table, t) == FirstWildcard(table[1..], t) == None;
  }
}
