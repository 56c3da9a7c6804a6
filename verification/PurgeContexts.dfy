/**
 From a purge body to the request contexts that the policy is asked about: `purgeBodyToContexts` and
 `authorizeFromBody` in `src/iam.ts`. A list that the body leaves out is an empty list here.
 `new URL(...)` is a parameter: None when it throws.
 */
module PurgeContexts {
  import opened Prelude
  import opened PolicyTypes
  import opened PolicyEngine
  import K = KeyStore

  /** A plain URL string, or an object with a URL and perhaps headers. */
  datatype PurgeFile = PurgeFile(url: string, headers: seq<(string, string)>)

  datatype PurgeBody =
    PurgeBody(purgeEverything: bool, files: seq<PurgeFile>, hosts: seq<string>, tags: seq<string>,
              prefixes: seq<string>)

  /** `search` is empty or starts with a question mark. */
  datatype ParsedUrl = ParsedUrl(hostname: string, pathname: string, search: string,
                                 searchParams: seq<(string, string)>)

  type UrlParser = string -> Option<ParsedUrl>
  type Fields = map<string, FieldValue>

  /** What a context is about. */
  datatype Item = Everything | File(file: PurgeFile) | Host(host: string) | Tag(tag: string) | Prefix(prefix: string)

  function TextFields(extra: map<string, string>): Fields {
    map n | n in extra :: Text(extra[n])
  }

  /** One field per pair, a later pair over an earlier one of the same name. */
  function Named(prefix: string, pairs: seq<(string, string)>): Fields {
    if pairs == [] then map[]
    else Named(prefix, pairs[..|pairs| - 1])[prefix + pairs[|pairs| - 1].0 := Text(pairs[|pairs| - 1].1)]
  }

  function ParsedFields(p: Option<ParsedUrl>): Fields {
    if p.None? then map[]
    else map["host" := Text(p.value.hostname), "url.path" := Text(p.value.pathname)]
         + if p.value.search == "" then map[]
           else map["url.query" := Text(p.value.search[1..])] + Named("url.query.", p.value.searchParams)
  }

  /** The fields that the item itself determines. */
  function OwnFields(item: Item, parse: UrlParser): Fields {
    match item
    case Everything => map["purge_everything" := Flag(true)]
    case File(f) => map["url" := Text(f.url)] + ParsedFields(parse(f.url)) + Named("header.", f.headers)
    case Host(h) => map["host" := Text(h)]
    case Tag(t) => map["tag" := Text(t)]
    case Prefix(p) => map["prefix" := Text(p)]
  }

  function ActionOf(item: Item): string {
    match item
    case Everything => "purge:everything"
    case File(_) => "purge:url"
    case Host(_) => "purge:host"
    case Tag(_) => "purge:tag"
    case Prefix(_) => "purge:prefix"
  }

  /** The item's own fields over the request fields. */
  function ContextOf(item: Item, zone: string, extra: map<string, string>, parse: UrlParser): RequestContext {
    RequestContext(ActionOf(item), "zone:" + zone, TextFields(extra) + OwnFields(item, parse))
  }

  function Items(body: PurgeBody): seq<Item> {
    if body.purgeEverything then [Everything]
    else
      seq(|body.files|, i requires 0 <= i < |body.files| => File(body.files[i]))
      + seq(|body.hosts|, i requires 0 <= i < |body.hosts| => Host(body.hosts[i]))
      + seq(|body.tags|, i requires 0 <= i < |body.tags| => Tag(body.tags[i]))
      + seq(|body.prefixes|, i requires 0 <= i < |body.prefixes| => Prefix(body.prefixes[i]))
  }

  function ContextsOf(items: seq<Item>, zone: string, extra: map<string, string>,
                      parse: UrlParser): seq<RequestContext> {
    seq(|items|, i requires 0 <= i < |items| => ContextOf(items[i], zone, extra, parse))
  }

  // ---------------------------------------------------------------- the code

  lemma SetIsPlus(m: Fields, n: string, v: FieldValue)
    ensures m[n := v] == m + map[n := v]
  {
  }

  lemma PlusAssociates(a: Fields, b: Fields, c: Fields)
    ensures (a + b) + c == a + (b + c)
  {
  }

  /** One of the two loops that set a field per pair. */
  method SetAll(fields: Fields, prefix: string, pairs: seq<(string, string)>) returns (r: Fields)
    ensures r == fields + Named(prefix, pairs)
  {
    r := fields;
    for i := 0 to |pairs|
      invariant r == fields + Named(prefix, pairs[..i])
    {
      assert pairs[..i + 1][..i] == pairs[..i];
      r := r[prefix + pairs[i].0 := Text(pairs[i].1)];
    }
    assert pairs[..|pairs|] == pairs;
  }

  method SetParsed(base: Fields, p: ParsedUrl) returns (fields: Fields)
    ensures fields == base + ParsedFields(Some(p))
  {
    hide Named;
    fields := base["host" := Text(p.hostname)]["url.path" := Text(p.pathname)];
    ghost var hostAndPath: Fields := map["host" := Text(p.hostname), "url.path" := Text(p.pathname)];
    assert fields == base + hostAndPath;
    if p.search != "" {
      ghost var query: Fields := map["url.query" := Text(p.search[1..])];
      SetIsPlus(fields, "url.query", Text(p.search[1..]));
      fields := SetAll(fields["url.query" := Text(p.search[1..])], "url.query.", p.searchParams);
      PlusAssociates(base, hostAndPath, query);
      PlusAssociates(base, hostAndPath + query, Named("url.query.", p.searchParams));
      PlusAssociates(hostAndPath, query, Named("url.query.", p.searchParams));
    }
  }

  method FileFields(file: PurgeFile, extra: map<string, string>, parse: UrlParser) returns (fields: Fields)
    ensures fields == TextFields(extra) + OwnFields(File(file), parse)
  {
    hide Named, TextFields;
    var base := TextFields(extra)["url" := Text(file.url)];
    fields := base;
    var parsed := parse(file.url);
    if parsed.Some? {
      fields := SetParsed(base, parsed.value);
    }
    assert fields == base + ParsedFields(parsed);
    fields := SetAll(fields, "header.", file.headers);
    SetIsPlus(TextFields(extra), "url", Text(file.url));
    PlusAssociates(TextFields(extra), map["url" := Text(file.url)], ParsedFields(parsed));
    PlusAssociates(TextFields(extra), map["url" := Text(file.url)] + ParsedFields(parsed),
                   Named("header.", file.headers));
  }

  /** The contexts of the first `n` items have been pushed. */
  ghost predicate Pushed(contexts: seq<RequestContext>, body: PurgeBody, n: nat, zone: string,
                         extra: map<string, string>, parse: UrlParser) {
    n <= |Items(body)| && contexts == ContextsOf(Items(body)[..n], zone, extra, parse)
  }

  lemma Push(contexts: seq<RequestContext>, body: PurgeBody, n: nat, zone: string, extra: map<string, string>,
             parse: UrlParser, c: RequestContext)
    requires Pushed(contexts, body, n, zone, extra, parse) && n < |Items(body)|
    requires c == ContextOf(Items(body)[n], zone, extra, parse)
    ensures Pushed(contexts + [c], body, n + 1, zone, extra, parse)
  {
    hide ContextOf, Items;
  }

  lemma PushHost(contexts: seq<RequestContext>, body: PurgeBody, i: nat, zone: string, extra: map<string, string>,
                 parse: UrlParser)
    requires !body.purgeEverything && i < |body.hosts|
    requires Pushed(contexts, body, |body.files| + i, zone, extra, parse)
    ensures Pushed(contexts + [RequestContext("purge:host", "zone:" + zone,
                                               TextFields(extra)["host" := Text(body.hosts[i])])],
                   body, |body.files| + i + 1, zone, extra, parse)
  {
    SetIsPlus(TextFields(extra), "host", Text(body.hosts[i]));
    Push(contexts, body, |body.files| + i, zone, extra, parse,
         RequestContext("purge:host", "zone:" + zone, TextFields(extra)["host" := Text(body.hosts[i])]));
  }

  lemma PushTag(contexts: seq<RequestContext>, body: PurgeBody, i: nat, zone: string, extra: map<string, string>,
                parse: UrlParser)
    requires !body.purgeEverything && i < |body.tags|
    requires Pushed(contexts, body, |body.files| + |body.hosts| + i, zone, extra, parse)
    ensures Pushed(contexts + [RequestContext("purge:tag", "zone:" + zone,
                                               TextFields(extra)["tag" := Text(body.tags[i])])],
                   body, |body.files| + |body.hosts| + i + 1, zone, extra, parse)
  {
    SetIsPlus(TextFields(extra), "tag", Text(body.tags[i]));
    Push(contexts, body, |body.files| + |body.hosts| + i, zone, extra, parse,
         RequestContext("purge:tag", "zone:" + zone, TextFields(extra)["tag" := Text(body.tags[i])]));
  }

  lemma PushPrefix(contexts: seq<RequestContext>, body: PurgeBody, i: nat, zone: string, extra: map<string, string>,
                   parse: UrlParser)
    requires !body.purgeEverything && i < |body.prefixes|
    requires Pushed(contexts, body, |body.files| + |body.hosts| + |body.tags| + i, zone, extra, parse)
    ensures Pushed(contexts + [RequestContext("purge:prefix", "zone:" + zone,
                                               TextFields(extra)["prefix" := Text(body.prefixes[i])])],
                   body, |body.files| + |body.hosts| + |body.tags| + i + 1, zone, extra, parse)
  {
    SetIsPlus(TextFields(extra), "prefix", Text(body.prefixes[i]));
    Push(contexts, body, |body.files| + |body.hosts| + |body.tags| + i, zone, extra, parse,
         RequestContext("purge:prefix", "zone:" + zone, TextFields(extra)["prefix" := Text(body.prefixes[i])]));
  }

  lemma EverythingContext(body: PurgeBody, zone: string, extra: map<string, string>, parse: UrlParser)
    requires body.purgeEverything
    ensures ContextsOf(Items(body), zone, extra, parse)
            == [RequestContext("purge:everything", "zone:" + zone, TextFields(extra)["purge_everything" := Flag(true)])]
  {
    SetIsPlus(TextFields(extra), "purge_everything", Flag(true));
  }

  method PurgeBodyToContexts(body: PurgeBody, zone: string, extra: map<string, string>, parse: UrlParser)
    returns (contexts: seq<RequestContext>)
    ensures contexts == ContextsOf(Items(body), zone, extra, parse)
  {
    var resource, base := "zone:" + zone, TextFields(extra);
    contexts := [];
    if body.purgeEverything {
      EverythingContext(body, zone, extra, parse);
      return [RequestContext("purge:everything", resource, base["purge_everything" := Flag(true)])];
    }
    assert Pushed(contexts, body, 0, zone, extra, parse);
    hide Pushed, TextFields, OwnFields, ContextsOf;
    for i := 0 to |body.files|
      invariant Pushed(contexts, body, i, zone, extra, parse)
    {
      var fields := FileFields(body.files[i], extra, parse);
      Push(contexts, body, i, zone, extra, parse, RequestContext("purge:url", resource, fields));
      contexts := contexts + [RequestContext("purge:url", resource, fields)];
    }
    for i := 0 to |body.hosts|
      invariant Pushed(contexts, body, |body.files| + i, zone, extra, parse)
    {
      PushHost(contexts, body, i, zone, extra, parse);
      contexts := contexts + [RequestContext("purge:host", resource, base["host" := Text(body.hosts[i])])];
    }
    for i := 0 to |body.tags|
      invariant Pushed(contexts, body, |body.files| + |body.hosts| + i, zone, extra, parse)
    {
      PushTag(contexts, body, i, zone, extra, parse);
      contexts := contexts + [RequestContext("purge:tag", resource, base["tag" := Text(body.tags[i])])];
    }
    for i := 0 to |body.prefixes|
      invariant Pushed(contexts, body, |body.files| + |body.hosts| + |body.tags| + i, zone, extra, parse)
    {
      PushPrefix(contexts, body, i, zone, extra, parse);
      contexts := contexts + [RequestContext("purge:prefix", resource, base["prefix" := Text(body.prefixes[i])])];
    }
    AllPushed(contexts, body, zone, extra, parse);
  }

  lemma AllPushed(contexts: seq<RequestContext>, body: PurgeBody, zone: string, extra: map<string, string>,
                  parse: UrlParser)
    requires !body.purgeEverything
    requires Pushed(contexts, body, |body.files| + |body.hosts| + |body.tags| + |body.prefixes|, zone, extra, parse)
    ensures contexts == ContextsOf(Items(body), zone, extra, parse)
  {
    assert Items(body)[..|Items(body)|] == Items(body);
  }

  method AuthorizeFromBody(rt: Runtime, iam: K.IamManager, id: string, zone: string, body: PurgeBody,
                           extra: map<string, string>, parse: UrlParser, now: int) returns (r: K.AuthResult)
    requires K.Coherent(iam.State())
    modifies iam
    ensures iam.State() == K.AfterLookup(old(iam.State()), id, iam.cacheTtlMs, now)
    ensures r == K.Decide(rt, iam.table, id, zone, ContextsOf(Items(body), zone, extra, parse), now)
    ensures r.Granted? ==>
              id in iam.table && r.keyName == iam.table[id].name && r.upstreamTokenId == iam.table[id].upstreamTokenId
  {
    var contexts := PurgeBodyToContexts(body, zone, extra, parse);
    r := iam.Authorize(rt, id, zone, contexts, now);
  }

  // ---------------------------------------------------------------- what the contexts say

  lemma {:induction false} NamedByPrefix(prefix: string, pairs: seq<(string, string)>, n: string)
    requires !StartsWithText(n, prefix)
    ensures n !in Named(prefix, pairs)
  {
    if pairs != [] {
      assert StartsWithText(prefix + pairs[|pairs| - 1].0, prefix);
      NamedByPrefix(prefix, pairs[..|pairs| - 1], n);
    }
  }

  /** Headers and query parameters never land on the fields that describe the URL. */
  lemma UrlNamesAreApart(n: string, headers: seq<(string, string)>, params: seq<(string, string)>)
    requires n in {"url", "host", "url.path", "url.query"}
    ensures n !in Named("header.", headers) && n !in Named("url.query.", params)
  {
    assert n[1] != "header."[1];
    NamedByPrefix("header.", headers, n);
    NamedByPrefix("url.query.", params, n);
  }

  /**
   Nobody can forge what an item is about: whatever the request fields, headers and query parameters
   are called, `url` is the URL of the item, and host and path are those of the parsed URL.
   */
  lemma UrlCannotBeForged(f: PurgeFile, zone: string, extra: map<string, string>, parse: UrlParser)
    ensures var fields := ContextOf(File(f), zone, extra, parse).fields;
            && "url" in fields && fields["url"] == Text(f.url)
            && (parse(f.url).Some? ==>
                  && "host" in fields && fields["host"] == Text(parse(f.url).value.hostname)
                  && "url.path" in fields && fields["url.path"] == Text(parse(f.url).value.pathname))
            && (parse(f.url).Some? && parse(f.url).value.search != "" ==>
                  "url.query" in fields && fields["url.query"] == Text(parse(f.url).value.search[1..]))
  {
    hide Named, TextFields;
    var params := if parse(f.url).Some? then parse(f.url).value.searchParams else [];
    UrlNamesAreApart("url", f.headers, params);
    UrlNamesAreApart("host", f.headers, params);
    UrlNamesAreApart("url.path", f.headers, params);
    UrlNamesAreApart("url.query", f.headers, params);
  }

  /**
   Without a query, the field `url.query` is whatever the request fields say, and so is the host of a URL that
   does not parse.
   */
  lemma RequestFieldsShowThrough(f: PurgeFile, zone: string, extra: map<string, string>, parse: UrlParser, n: string)
    requires n in {"host", "url.path", "url.query"}
    ensures var fields := ContextOf(File(f), zone, extra, parse).fields;
            var p := parse(f.url);
            p.None? || (n == "url.query" && p.value.search == "") ==>
              (n in fields <==> n in extra) && (n in extra ==> fields[n] == Text(extra[n]))
  {
    hide Named;
    UrlNamesAreApart(n, f.headers, if parse(f.url).Some? then parse(f.url).value.searchParams else []);
  }

  /** A pair sets its field unless a later pair of the same name does. */
  lemma {:induction false} LastPairWins(prefix: string, pairs: seq<(string, string)>, i: nat)
    requires i < |pairs| && forall j :: i < j < |pairs| ==> pairs[j].0 != pairs[i].0
    ensures prefix + pairs[i].0 in Named(prefix, pairs)
    ensures Named(prefix, pairs)[prefix + pairs[i].0] == Text(pairs[i].1)
  {
    var n := |pairs| - 1;
    if i < n {
      LastPairWins(prefix, pairs[..n], i);
      assert (prefix + pairs[n].0)[|prefix|..] == pairs[n].0 && (prefix + pairs[i].0)[|prefix|..] == pairs[i].0;
    }
  }

  /** Every header and every query parameter of a URL item is a field, with the value of its last mention. */
  lemma HeadersAndParametersShow(f: PurgeFile, zone: string, extra: map<string, string>, parse: UrlParser, i: nat)
    ensures var fields := ContextOf(File(f), zone, extra, parse).fields;
            i < |f.headers| && (forall j :: i < j < |f.headers| ==> f.headers[j].0 != f.headers[i].0) ==>
              "header." + f.headers[i].0 in fields && fields["header." + f.headers[i].0] == Text(f.headers[i].1)
    ensures var fields := ContextOf(File(f), zone, extra, parse).fields; var p := parse(f.url);
            p.Some? && p.value.search != "" ==>
              var params := p.value.searchParams;
              i < |params| && (forall j :: i < j < |params| ==> params[j].0 != params[i].0) ==>
                "url.query." + params[i].0 in fields && fields["url.query." + params[i].0] == Text(params[i].1)
  {
    if i < |f.headers| && forall j :: i < j < |f.headers| ==> f.headers[j].0 != f.headers[i].0 {
      LastPairWins("header.", f.headers, i);
    }
    var params := if parse(f.url).Some? then parse(f.url).value.searchParams else [];
    if i < |params| && forall j :: i < j < |params| ==> params[j].0 != params[i].0 {
      LastPairWins("url.query.", params, i);
      var name := "url.query." + params[i].0;
      assert name[0] == 'u' && !StartsWithText(name, "header.") by { assert "header."[0] == 'h'; }
      NamedByPrefix("header.", f.headers, name);
    }
    hide Named, TextFields;
  }

  /** What is asked of the policy for a body: one context for each item, in the order of the lists. */
  lemma BodyIsAsked(body: PurgeBody, zone: string, extra: map<string, string>, parse: UrlParser)
    ensures var contexts := ContextsOf(Items(body), zone, extra, parse);
            var files, hosts, tags := |body.files|, |body.hosts|, |body.tags|;
            if body.purgeEverything then
              |contexts| == 1 && Is(contexts[0], "purge:everything", zone, "purge_everything", Flag(true))
            else
              && |contexts| == files + hosts + tags + |body.prefixes|
              && (forall i :: 0 <= i < files ==>
                    Is(contexts[i], "purge:url", zone, "url", Text(body.files[i].url)))
              && (forall i :: 0 <= i < hosts ==>
                    Is(contexts[files + i], "purge:host", zone, "host", Text(body.hosts[i])))
              && (forall i :: 0 <= i < tags ==>
                    Is(contexts[files + hosts + i], "purge:tag", zone, "tag", Text(body.tags[i])))
              && (forall i :: 0 <= i < |body.prefixes| ==>
                    Is(contexts[files + hosts + tags + i], "purge:prefix", zone, "prefix", Text(body.prefixes[i])))
  {
    hide Named, ParsedFields, TextFields, Is, OwnFields;
    var items := Items(body);
    forall i | 0 <= i < |items| ensures AsksFor(ContextOf(items[i], zone, extra, parse), items[i], zone) {
      ItemIsAsked(items[i], zone, extra, parse);
    }
  }

  /** A context for this action in this zone, whose field of that name has that value. */
  predicate Is(c: RequestContext, action: string, zone: string, name: string, value: FieldValue) {
    c.action == action && c.resource == "zone:" + zone && name in c.fields && c.fields[name] == value
  }

  predicate AsksFor(c: RequestContext, item: Item, zone: string) {
    match item
    case Everything => Is(c, "purge:everything", zone, "purge_everything", Flag(true))
    case File(f) => Is(c, "purge:url", zone, "url", Text(f.url))
    case Host(h) => Is(c, "purge:host", zone, "host", Text(h))
    case Tag(t) => Is(c, "purge:tag", zone, "tag", Text(t))
    case Prefix(p) => Is(c, "purge:prefix", zone, "prefix", Text(p))
  }

  lemma ItemIsAsked(item: Item, zone: string, extra: map<string, string>, parse: UrlParser)
    ensures AsksFor(ContextOf(item, zone, extra, parse), item, zone)
  {
    if item.File? { UrlCannotBeForged(item.file, zone, extra, parse); }
  }

  /** All other fields of an item that is no URL are the request fields. */
  lemma OtherFieldsAreRequestFields(item: Item, zone: string, extra: map<string, string>, parse: UrlParser, n: string)
    requires match item
             case Everything => n != "purge_everything"
             case File(_) => false
             case Host(_) => n != "host"
             case Tag(_) => n != "tag"
             case Prefix(_) => n != "prefix"
    ensures var fields := ContextOf(item, zone, extra, parse).fields;
            (n in fields <==> n in extra) && (n in extra ==> fields[n] == Text(extra[n]))
  {
  }

  /** How a denied item is reported. */
  function Subject(item: Item): string {
    match item
    case Everything => "purge_everything"
    case File(f) => f.url
    case Host(h) => "host:" + h
    case Tag(t) => "tag:" + t
    case Prefix(p) => "prefix:" + p
  }

  lemma DeniedItemIsItsSubject(item: Item, zone: string, extra: map<string, string>, parse: UrlParser)
    ensures K.FormatDenied(ContextOf(item, zone, extra, parse)) == Subject(item)
  {
    if item.File? { UrlCannotBeForged(item.file, zone, extra, parse); }
  }

  function DeniedSubjects(rt: Runtime, policy: PolicyDocument, items: seq<Item>, zone: string,
                          extra: map<string, string>, parse: UrlParser): seq<string> {
    if items == [] then []
    else (if Allows(rt, policy, ContextOf(items[0], zone, extra, parse)) then [] else [Subject(items[0])])
         + DeniedSubjects(rt, policy, items[1..], zone, extra, parse)
  }

  /** The denied list of a purge names exactly the refused items of the body, in its order. */
  lemma {:induction false} DeniedListNamesItems(rt: Runtime, policy: PolicyDocument, items: seq<Item>, zone: string,
                                                extra: map<string, string>, parse: UrlParser)
    ensures K.Denied(rt, policy, ContextsOf(items, zone, extra, parse))
            == DeniedSubjects(rt, policy, items, zone, extra, parse)
  {
    hide Allows, K.FormatDenied, ContextOf, Subject;
    if items != [] {
      DeniedListNamesItems(rt, policy, items[1..], zone, extra, parse);
      DeniedItemIsItsSubject(items[0], zone, extra, parse);
      assert ContextsOf(items, zone, extra, parse)[1..] == ContextsOf(items[1..], zone, extra, parse);
    }
  }

  /**
   A purge is granted, with the name of the key and the upstream token it is pinned to, exactly when the key is
   usable in the zone and every item of the body is allowed.
   */
  lemma BodyGrantedIff(rt: Runtime, table: map<string, K.ApiKey>, id: string, zone: string, body: PurgeBody,
                       extra: map<string, string>, parse: UrlParser, now: int)
    ensures var r := K.Decide(rt, table, id, zone, ContextsOf(Items(body), zone, extra, parse), now);
            && (r.Granted? ==> id in table && r == K.Granted(table[id].name, table[id].upstreamTokenId))
            && (r.Granted?
                <==> && id in table && !table[id].revoked && !K.PastExpiry(table[id], now)
                     && !K.Elsewhere(table[id], zone)
                     && forall item <- Items(body) :: K.Permits(rt, table[id], ContextOf(item, zone, extra, parse)))
  {
    hide ContextOf, Items, K.Permits, K.Decide, K.PastExpiry, K.Elsewhere;
    K.DecisionIff(rt, table, id, zone, ContextsOf(Items(body), zone, extra, parse), now);
    var items := Items(body);
    var contexts := ContextsOf(items, zone, extra, parse);
    forall item | item in items ensures ContextOf(item, zone, extra, parse) in contexts {
      var i :| 0 <= i < |items| && items[i] == item;
      assert contexts[i] == ContextOf(item, zone, extra, parse);
    }
    forall c | c in contexts ensures exists item <- items :: c == ContextOf(item, zone, extra, parse) {
      var i :| 0 <= i < |contexts| && contexts[i] == c;
      assert items[i] in items;
    }
  }

  /** Every allow that can apply to a URL purge asks for this host. */
  predicate PinsHost(policy: PolicyDocument, h: string) {
    forall s <- policy.statements :: s.effect.Allow? && MatchesAction(s.actions, "purge:url") ==>
      Leaf("host", Eq, Some(Str(h))) in s.conditions
  }

  /**
   A policy that pins a host is binding: an allowed URL purge has a URL on that host, whatever headers,
   query and request fields come with it. Only a URL that does not parse leaves room: then the host is
   the one in the request fields, and without one the purge is refused.
   */
  lemma HostConditionBinds(rt: Runtime, policy: PolicyDocument, h: string, f: PurgeFile, zone: string,
                           extra: map<string, string>, parse: UrlParser)
    requires PinsHost(policy, h) && Allows(rt, policy, ContextOf(File(f), zone, extra, parse))
    ensures if parse(f.url).Some? then parse(f.url).value.hostname == h else "host" in extra && extra["host"] == h
  {
    var ctx := ContextOf(File(f), zone, extra, parse);
    UrlCannotBeForged(f, zone, extra, parse);
    RequestFieldsShowThrough(f, zone, extra, parse, "host");
    hide ContextOf;
    var s :| s in policy.statements && s.effect.Allow? && MatchesStatement(rt, s, ctx);
    var pin := Leaf("host", Eq, Some(Str(h)));
    var i :| 0 <= i < |s.conditions| && s.conditions[i] == pin;
    assert EvaluateCondition(rt, pin, ctx.fields, 0);
  }
}
