/** Policy evaluation: `src/policy-engine.ts`, lines 1-223. */
module PolicyEngine {
  import opened Prelude
  import opened PolicyTypes
  import Glob

  // ---------------------------------------------------------------- strings

  predicate StartsWithText(s: string, prefix: string) {
    |prefix| <= |s| && s[..|prefix|] == prefix
  }

  predicate EndsWithText(s: string, suffix: string) {
    |suffix| <= |s| && s[|s| - |suffix|..] == suffix
  }

  predicate ContainsText(s: string, part: string) {
    exists i :: 0 <= i <= |s| && StartsWithText(s[i..], part)
  }

  // ---------------------------------------------------------------- matching

  predicate ActionMatches(pattern: string, action: string) {
    || pattern == "*" || pattern == action
    || (EndsWithText(pattern, ":*") && StartsWithText(action, pattern[..|pattern| - 1]))
  }

  predicate ResourceMatches(pattern: string, resource: string) {
    || pattern == "*" || pattern == resource
    || (EndsWithText(pattern, "*") && StartsWithText(resource, pattern[..|pattern| - 1]))
    || StartsWithText(resource, pattern + "/")
  }

  predicate MatchesAction(patterns: seq<string>, action: string) {
    exists p <- patterns :: ActionMatches(p, action)
  }

  predicate MatchesResource(patterns: seq<string>, resource: string) {
    exists p <- patterns :: ResourceMatches(p, resource)
  }

  // ---------------------------------------------------------------- conditions

  function FieldText(v: FieldValue): string {
    match v
    case Text(s) => s
    case Flag(b) => if b then "true" else "false"
  }

  function FieldJson(v: FieldValue): Json {
    match v
    case Text(s) => Str(s)
    case Flag(b) => Bool(b)
  }

  predicate TextPair(v: FieldValue, value: Option<Json>) {
    v.Text? && value.Some? && value.value.Str?
  }

  predicate EvalRegex(rt: Runtime, v: FieldValue, value: Option<Json>, negate: bool) {
    && TextPair(v, value)
    && rt.regexCompiles(value.value.text)
    && rt.regexTest(value.value.text, v.text) != negate
  }

  function Numbers(rt: Runtime, v: FieldValue, value: Option<Json>): Option<(real, real)> {
    if value.None? then None
    else match (rt.numberOf(FieldJson(v)), rt.numberOf(value.value))
      case (Some(a), Some(b)) => Some((a, b))
      case _ => None
  }

  /** A leaf on something inherited: neither a text nor a flag, and not a number. */
  predicate EvaluateInherited(text: string, operator: Operator, value: Option<Json>) {
    match operator
    case Exists => true
    case Ne => true
    case In => value.Some? && value.value.Arr? && Str(text) in value.value.items
    case NotIn => value.Some? && value.value.Arr? && Str(text) !in value.value.items
    case _ => false
  }

  /** What `fields[name]` finds is not undefined. */
  predicate Present(fields: map<string, FieldValue>, name: string) {
    name in fields || Inherited(name)
  }

  /** For values of the declared types, which always convert to numbers; `PolicyValidation` has the others. */
  predicate EvaluateLeaf(rt: Runtime, field: string, operator: Operator, value: Option<Json>,
                         fields: map<string, FieldValue>) {
    if !Present(fields, field) then operator.NotExists?
    else if field !in fields then EvaluateInherited(rt.inheritedText(field), operator, value)
    else
      var v := fields[field];
      match operator
      case Exists => true
      case NotExists => false
      case Eq => value == Some(FieldJson(v))
      case Ne => value != Some(FieldJson(v))
      case Contains => TextPair(v, value) && ContainsText(v.text, value.value.text)
      case NotContains => TextPair(v, value) && !ContainsText(v.text, value.value.text)
      case StartsWith => TextPair(v, value) && StartsWithText(v.text, value.value.text)
      case EndsWith => TextPair(v, value) && EndsWithText(v.text, value.value.text)
      case MatchesRegex => EvalRegex(rt, v, value, false)
      case NotMatchesRegex => EvalRegex(rt, v, value, true)
      case In => value.Some? && value.value.Arr? && Str(FieldText(v)) in value.value.items
      case NotIn => value.Some? && value.value.Arr? && Str(FieldText(v)) !in value.value.items
      case Wildcard => TextPair(v, value) && Glob.EvalWildcard(rt.fold, v.text, value.value.text)
      case Lt => var ns := Numbers(rt, v, value); ns.Some? && ns.value.0 < ns.value.1
      case Gt => var ns := Numbers(rt, v, value); ns.Some? && ns.value.0 > ns.value.1
      case Lte => var ns := Numbers(rt, v, value); ns.Some? && ns.value.0 <= ns.value.1
      case Gte => var ns := Numbers(rt, v, value); ns.Some? && ns.value.0 >= ns.value.1
  }

  /** The evaluator: past the maximum depth a condition counts as false. */
  predicate EvaluateCondition(rt: Runtime, c: Condition, fields: map<string, FieldValue>, depth: nat) {
    depth <= MAX_CONDITION_DEPTH &&
    match c
    case Leaf(field, operator, value) => EvaluateLeaf(rt, field, operator, value, fields)
    case Any(cs) => exists i :: 0 <= i < |cs| && EvaluateCondition(rt, cs[i], fields, depth + 1)
    case All(cs) => forall i :: 0 <= i < |cs| ==> EvaluateCondition(rt, cs[i], fields, depth + 1)
    case Not(n) => !EvaluateCondition(rt, n, fields, depth + 1)
  }

  /** The boolean reading of a condition, without any limit. */
  predicate Meaning(rt: Runtime, c: Condition, fields: map<string, FieldValue>) {
    match c
    case Leaf(field, operator, value) => EvaluateLeaf(rt, field, operator, value, fields)
    case Any(cs) => exists i :: 0 <= i < |cs| && Meaning(rt, cs[i], fields)
    case All(cs) => forall i :: 0 <= i < |cs| ==> Meaning(rt, cs[i], fields)
    case Not(n) => !Meaning(rt, n, fields)
  }

  /**
   Inherited names are fields of every context: an `exists` on a name holds whatever the request is, and a
   `not_exists` never holds, exactly for these names.
   */
  lemma AlwaysPresentIff(rt: Runtime, name: string, value: Option<Json>)
    ensures (forall fields :: EvaluateLeaf(rt, name, Exists, value, fields)) <==> Inherited(name)
    ensures (forall fields :: !EvaluateLeaf(rt, name, NotExists, value, fields)) <==> Inherited(name)
  {
    hide Inherited;
    if !Inherited(name) {
      assert !EvaluateLeaf(rt, name, Exists, value, map[]) && EvaluateLeaf(rt, name, NotExists, value, map[]);
    }
  }

  /** No path through the condition is longer than `limit`. */
  predicate NestsWithin(c: Condition, limit: int) {
    0 <= limit &&
    match c
    case Leaf(_, _, _) => true
    case Any(cs) => forall i :: 0 <= i < |cs| ==> NestsWithin(cs[i], limit - 1)
    case All(cs) => forall i :: 0 <= i < |cs| ==> NestsWithin(cs[i], limit - 1)
    case Not(n) => NestsWithin(n, limit - 1)
  }

  /** Within the depth limit the cutoff is never reached, also under nested `not`. */
  lemma {:induction false} BoundedIsExact(rt: Runtime, c: Condition, fields: map<string, FieldValue>, depth: nat)
    requires NestsWithin(c, MAX_CONDITION_DEPTH - depth)
    ensures EvaluateCondition(rt, c, fields, depth) <==> Meaning(rt, c, fields)
  {
    match c
    case Leaf(_, _, _) =>
    case Any(cs) =>
      forall i | 0 <= i < |cs|
        ensures EvaluateCondition(rt, cs[i], fields, depth + 1) <==> Meaning(rt, cs[i], fields)
      {
        BoundedIsExact(rt, cs[i], fields, depth + 1);
      }
    case All(cs) =>
      forall i | 0 <= i < |cs|
        ensures EvaluateCondition(rt, cs[i], fields, depth + 1) <==> Meaning(rt, cs[i], fields)
      {
        BoundedIsExact(rt, cs[i], fields, depth + 1);
      }
    case Not(n) => BoundedIsExact(rt, n, fields, depth + 1);
  }

  /** `not` repeated n times around a leaf. */
  function Tower(n: nat, leaf: Condition): Condition {
    if n == 0 then leaf else Not(Tower(n - 1, leaf))
  }

  lemma {:induction false} TowerMeaning(rt: Runtime, n: nat, leaf: Condition, fields: map<string, FieldValue>)
    ensures Meaning(rt, Tower(n, leaf), fields) <==> (n % 2 == 0) == Meaning(rt, leaf, fields)
  {
    if n > 0 { TowerMeaning(rt, n - 1, leaf, fields); }
  }

  lemma {:induction false} TowerEvaluation(rt: Runtime, n: nat, leaf: Condition, fields: map<string, FieldValue>,
                                           depth: nat)
    requires leaf.Leaf? && depth <= MAX_CONDITION_DEPTH + 1
    ensures depth + n <= MAX_CONDITION_DEPTH ==>
              (EvaluateCondition(rt, Tower(n, leaf), fields, depth) <==> (n % 2 == 0) == Meaning(rt, leaf, fields))
    ensures depth + n > MAX_CONDITION_DEPTH ==>
              (EvaluateCondition(rt, Tower(n, leaf), fields, depth) <==> (MAX_CONDITION_DEPTH + 1 - depth) % 2 == 1)
  {
    if n > 0 && depth <= MAX_CONDITION_DEPTH {
      TowerEvaluation(rt, n - 1, leaf, fields, depth + 1);
    }
  }

  /**
   Beyond the limit evaluation is not exact: whatever the leaf says, a tower of more than 20 `not`s
   evaluates to true, and that is its meaning only when the leaf happens to agree.
   */
  lemma DeepNotIsTrue(rt: Runtime, n: nat, leaf: Condition, fields: map<string, FieldValue>)
    requires leaf.Leaf? && n > MAX_CONDITION_DEPTH
    ensures EvaluateCondition(rt, Tower(n, leaf), fields, 0)
    ensures Meaning(rt, Tower(n, leaf), fields) <==> (n % 2 == 0) == Meaning(rt, leaf, fields)
  {
    TowerEvaluation(rt, n, leaf, fields, 0);
    TowerMeaning(rt, n, leaf, fields);
  }

  // ---------------------------------------------------------------- statements and policies

  predicate MatchesStatement(rt: Runtime, s: Statement, ctx: RequestContext) {
    && MatchesAction(s.actions, ctx.action)
    && MatchesResource(s.resources, ctx.resource)
    && forall i :: 0 <= i < |s.conditions| ==> EvaluateCondition(rt, s.conditions[i], ctx.fields, 0)
  }

  /** Deny first: some allow matches and no deny does. */
  predicate Allows(rt: Runtime, policy: PolicyDocument, ctx: RequestContext) {
    && (exists s <- policy.statements :: s.effect.Allow? && MatchesStatement(rt, s, ctx))
    && (forall s <- policy.statements :: s.effect.Deny? ==> !MatchesStatement(rt, s, ctx))
  }

  method MatchStatement(rt: Runtime, s: Statement, ctx: RequestContext) returns (r: bool)
    ensures r <==> MatchesStatement(rt, s, ctx)
  {
    if !MatchesAction(s.actions, ctx.action) { return false; }
    if !MatchesResource(s.resources, ctx.resource) { return false; }
    for i := 0 to |s.conditions|
      invariant forall j :: 0 <= j < i ==> EvaluateCondition(rt, s.conditions[j], ctx.fields, 0)
    {
      if !EvaluateCondition(rt, s.conditions[i], ctx.fields, 0) { return false; }
    }
    r := true;
  }

  method EvaluatePolicyForContext(rt: Runtime, policy: PolicyDocument, ctx: RequestContext) returns (allowed: bool)
    ensures allowed <==> Allows(rt, policy, ctx)
  {
    allowed := false;
    for i := 0 to |policy.statements|
      invariant allowed <==> exists j :: 0 <= j < i && MatchesStatement(rt, policy.statements[j], ctx)
      invariant forall j :: 0 <= j < i && policy.statements[j].effect.Deny? ==>
                !MatchesStatement(rt, policy.statements[j], ctx)
    {
      var matched := MatchStatement(rt, policy.statements[i], ctx);
      if matched {
        if policy.statements[i].effect.Deny? { return false; }
        allowed := true;
      }
    }
  }

  method EvaluatePolicy(rt: Runtime, policy: PolicyDocument, contexts: seq<RequestContext>) returns (r: bool)
    ensures r <==> forall c <- contexts :: Allows(rt, policy, c)
  {
    for i := 0 to |contexts|
      invariant forall j :: 0 <= j < i ==> Allows(rt, policy, contexts[j])
    {
      var allowed := EvaluatePolicyForContext(rt, policy, contexts[i]);
      if !allowed { return false; }
    }
    r := true;
  }

  function StatementSet(policy: PolicyDocument): set<Statement> {
    set s <- policy.statements
  }

  /** The decision depends on which statements there are, not on their order or repetition. */
  lemma OrderAndRepetitionDoNotMatter(rt: Runtime, p: PolicyDocument, q: PolicyDocument, ctx: RequestContext)
    requires StatementSet(p) == StatementSet(q)
    ensures Allows(rt, p, ctx) <==> Allows(rt, q, ctx)
  {
    forall s ensures s in p.statements <==> s in q.statements {
      assert s in p.statements <==> s in StatementSet(p);
      assert s in q.statements <==> s in StatementSet(q);
    }
  }

  /** Adding a deny never grants anything, wherever it is put. */
  lemma DenyOnlyTakesAway(rt: Runtime, before: seq<Statement>, deny: Statement, after: seq<Statement>,
                          ctx: RequestContext)
    requires deny.effect.Deny?
    ensures Allows(rt, PolicyDocument(before + [deny] + after), ctx)
            <==> Allows(rt, PolicyDocument(before + after), ctx) && !MatchesStatement(rt, deny, ctx)
  {
    var with, without := before + [deny] + after, before + after;
    forall s ensures s in with <==> s == deny || s in without {}
  }

  lemma PrefixExtends(s: string, prefix: string, more: string)
    requires StartsWithText(s, prefix)
    ensures StartsWithText(s + more, prefix)
  {
    assert (s + more)[..|prefix|] == s[..|prefix|];
  }

  /** A resource pattern that covers a resource covers everything below it. */
  lemma ResourceCoversDescendants(pattern: string, resource: string, child: string)
    requires ResourceMatches(pattern, resource)
    ensures ResourceMatches(pattern, resource + "/" + child)
  {
    var below := "/" + child;
    assert resource + "/" + child == resource + below;
    if pattern == resource {
      assert resource + "/" + child == (pattern + "/") + child;
      assert StartsWithText(resource + "/" + child, pattern + "/");
    } else if pattern != "*" {
      if EndsWithText(pattern, "*") && StartsWithText(resource, pattern[..|pattern| - 1]) {
        PrefixExtends(resource, pattern[..|pattern| - 1], below);
      } else {
        PrefixExtends(resource, pattern + "/", below);
      }
    }
  }

  /** A deny that matches at a resource denies every descendant, for the same action and fields. */
  lemma DenyReachesDescendants(rt: Runtime, p: PolicyDocument, s: Statement, ctx: RequestContext, child: string)
    requires s in p.statements && s.effect.Deny? && MatchesStatement(rt, s, ctx)
    ensures !Allows(rt, p, ctx.(resource := ctx.resource + "/" + child))
  {
    var pattern :| pattern in s.resources && ResourceMatches(pattern, ctx.resource);
    ResourceCoversDescendants(pattern, ctx.resource, child);
    assert MatchesStatement(rt, s, ctx.(resource := ctx.resource + "/" + child));
  }

  // ---------------------------------------------------------------- the cache of compiled expressions

  const MAX_REGEX_CACHE_SIZE := 256

  /** `REGEX_CACHE`: `compiled` holds false for a pattern that does not compile; `order` is insertion order. */
  class RegexCache {
    var order: seq<string>
    var compiled: map<string, bool>

    ghost predicate Valid(rt: Runtime)
      reads this
    {
      && |order| <= 256
      && (forall i, j :: 0 <= i < j < |order| ==> order[i] != order[j])
      && (forall p :: p in order <==> p in compiled)
      && (forall p <- compiled :: compiled[p] == rt.regexCompiles(p))
    }

    constructor (ghost rt: Runtime)
      ensures Valid(rt)
    {
      order := [];
      compiled := map[];
    }

    /** `evalRegex`. The cache stays within its cap, and no answer depends on what it holds. */
    method Eval(rt: Runtime, v: FieldValue, value: Option<Json>, negate: bool) returns (r: bool)
      requires Valid(rt)
      modifies this
      ensures Valid(rt)
      ensures r <==> EvalRegex(rt, v, value, negate)
    {
      if !TextPair(v, value) { return false; }
      var pattern := value.value.text;
      var usable: bool;
      if pattern in compiled {
        usable := compiled[pattern];
      } else {
        usable := rt.regexCompiles(pattern);
        if |order| >= MAX_REGEX_CACHE_SIZE {
          var first := order[0];
          compiled := compiled - {first};
          order := order[1..];
        }
        compiled := compiled[pattern := usable];
        order := order + [pattern];
      }
      if !usable { return false; }
      r := rt.regexTest(pattern, v.text) != negate;
    }
  }
}
