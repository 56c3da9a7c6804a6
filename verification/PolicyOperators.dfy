/**
 What a policy says, in terms of texts and numbers: one law per operator of `evaluateLeaf`, and the patterns for
 actions and resources of `src/policy-engine.ts`. Nothing here mentions how the engine computes an answer.
 */
module PolicyOperators {
  import opened Prelude
  import opened PolicyTypes
  import opened PolicyEngine
  import Glob

  type Fields = map<string, FieldValue>

  // ---------------------------------------------------------------- texts

  lemma StartsWithMeans(rt: Runtime, name: string, prefix: string, fields: Fields)
    requires name in fields && fields[name].Text?
    ensures Meaning(rt, Leaf(name, StartsWith, Some(Str(prefix))), fields)
            <==> exists rest :: fields[name].text == prefix + rest
  {
    var t := fields[name].text;
    if StartsWithText(t, prefix) { assert t == prefix + t[|prefix|..]; }
  }

  lemma EndsWithMeans(rt: Runtime, name: string, suffix: string, fields: Fields)
    requires name in fields && fields[name].Text?
    ensures Meaning(rt, Leaf(name, EndsWith, Some(Str(suffix))), fields)
            <==> exists rest :: fields[name].text == rest + suffix
  {
    var t := fields[name].text;
    if EndsWithText(t, suffix) { assert t == t[..|t| - |suffix|] + suffix; }
  }

  lemma ContainsMeans(rt: Runtime, name: string, part: string, fields: Fields)
    requires name in fields && fields[name].Text?
    ensures Meaning(rt, Leaf(name, Contains, Some(Str(part))), fields)
            <==> exists before, after :: fields[name].text == before + part + after
    ensures Meaning(rt, Leaf(name, NotContains, Some(Str(part))), fields)
            <==> !exists before, after :: fields[name].text == before + part + after
  {
    var t := fields[name].text;
    if ContainsText(t, part) {
      var i :| 0 <= i <= |t| && StartsWithText(t[i..], part);
      assert t == t[..i] + part + t[i..][|part|..];
    }
    forall before, after | t == before + part + after ensures ContainsText(t, part) {
      assert t[|before|..] == part + after;
      assert StartsWithText(t[|before|..], part);
    }
  }

  /** A glob cuts the field's text: the pieces are those of the condition's value, the gaps are on one line. */
  lemma WildcardMeans(rt: Runtime, name: string, pattern: string, fields: Fields)
    requires name in fields && fields[name].Text?
    ensures Meaning(rt, Leaf(name, Wildcard, Some(Str(pattern))), fields)
            <==> exists parts, gaps :: Glob.Splits(rt.fold, Glob.Pieces(pattern), fields[name].text, parts, gaps)
  {
    Glob.WildcardMeansSplits(rt.fold, fields[name].text, pattern);
  }

  /** A pattern that does not compile matches nothing, also when negated. */
  lemma RegexMeans(rt: Runtime, name: string, pattern: string, fields: Fields)
    requires name in fields && fields[name].Text?
    ensures Meaning(rt, Leaf(name, MatchesRegex, Some(Str(pattern))), fields)
            <==> rt.regexCompiles(pattern) && rt.regexTest(pattern, fields[name].text)
    ensures Meaning(rt, Leaf(name, NotMatchesRegex, Some(Str(pattern))), fields)
            <==> rt.regexCompiles(pattern) && !rt.regexTest(pattern, fields[name].text)
  {
  }

  /** The seven operators on texts are false for a flag, and for a value that is no text, negated or not. */
  lemma TextOperatorsNeedTexts(rt: Runtime, name: string, operator: Operator, value: Option<Json>, fields: Fields)
    requires name in fields
    requires operator in {Contains, NotContains, StartsWith, EndsWith, Wildcard, MatchesRegex, NotMatchesRegex}
    requires fields[name].Flag? || value.None? || !value.value.Str?
    ensures !Meaning(rt, Leaf(name, operator, value), fields)
  {
  }

  // ---------------------------------------------------------------- equality and lists

  /** `eq` compares without converting, and `ne` is its complement. */
  lemma EqMeans(rt: Runtime, name: string, value: Option<Json>, fields: Fields)
    requires name in fields
    ensures Meaning(rt, Leaf(name, Eq, value), fields)
            <==> || (exists t :: fields[name] == Text(t) && value == Some(Str(t)))
                 || (exists b :: fields[name] == Flag(b) && value == Some(Bool(b)))
    ensures Meaning(rt, Leaf(name, Ne, value), fields) <==> !Meaning(rt, Leaf(name, Eq, value), fields)
  {
  }

  /** `in` finds the field's text, or the name of its flag, among the texts of a list; `not_in` does not. */
  lemma InMeans(rt: Runtime, name: string, items: seq<Json>, fields: Fields)
    requires name in fields
    ensures var shown := match fields[name] case Text(t) => t case Flag(b) => if b then "true" else "false";
            && (Meaning(rt, Leaf(name, In, Some(Arr(items))), fields)
                <==> exists i :: 0 <= i < |items| && items[i] == Str(shown))
            && (Meaning(rt, Leaf(name, NotIn, Some(Arr(items))), fields)
                <==> forall i :: 0 <= i < |items| ==> items[i] != Str(shown))
  {
  }

  lemma ListOperatorsNeedLists(rt: Runtime, name: string, value: Option<Json>, fields: Fields)
    requires name in fields && (value.None? || !value.value.Arr?)
    ensures !Meaning(rt, Leaf(name, In, value), fields) && !Meaning(rt, Leaf(name, NotIn, value), fields)
  {
  }

  // ---------------------------------------------------------------- numbers

  /** The number that the field converts to. */
  function NumberIn(rt: Runtime, v: FieldValue): Option<real> {
    match v
    case Text(t) => rt.numberOf(Str(t))
    case Flag(b) => rt.numberOf(Bool(b))
  }

  /** The field is on the left, the condition's value on the right. */
  lemma ComparisonsMean(rt: Runtime, name: string, value: Json, fields: Fields)
    requires name in fields && NumberIn(rt, fields[name]).Some? && rt.numberOf(value).Some?
    ensures var x, y := NumberIn(rt, fields[name]).value, rt.numberOf(value).value;
            && (Meaning(rt, Leaf(name, Lt, Some(value)), fields) <==> x < y)
            && (Meaning(rt, Leaf(name, Gt, Some(value)), fields) <==> x > y)
            && (Meaning(rt, Leaf(name, Lte, Some(value)), fields) <==> x <= y)
            && (Meaning(rt, Leaf(name, Gte, Some(value)), fields) <==> x >= y)
  {
  }

  lemma ComparisonsNeedNumbers(rt: Runtime, name: string, operator: Operator, value: Option<Json>, fields: Fields)
    requires name in fields && operator in {Lt, Gt, Lte, Gte}
    requires NumberIn(rt, fields[name]).None? || value.None? || rt.numberOf(value.value).None?
    ensures !Meaning(rt, Leaf(name, operator, value), fields)
  {
  }

  // ---------------------------------------------------------------- fields that are there, and fields that are not

  /** Exactly one of `exists` and `not_exists` holds, by whether the context has the field. */
  lemma ExistsMeans(rt: Runtime, name: string, value: Option<Json>, fields: Fields)
    requires name in fields
    ensures Meaning(rt, Leaf(name, Exists, value), fields) && !Meaning(rt, Leaf(name, NotExists, value), fields)
  {
  }

  /** Of a field that is not there, only `not_exists` holds. */
  lemma AbsentMeans(rt: Runtime, name: string, operator: Operator, value: Option<Json>, fields: Fields)
    requires name !in fields
    requires name !in ["constructor", "hasOwnProperty", "isPrototypeOf", "propertyIsEnumerable", "toLocaleString",
                       "toString", "valueOf", "__proto__", "__defineGetter__", "__defineSetter__",
                       "__lookupGetter__", "__lookupSetter__"]
    ensures Meaning(rt, Leaf(name, operator, value), fields) <==> operator == NotExists
  {
    var names := ["constructor", "hasOwnProperty", "isPrototypeOf", "propertyIsEnumerable", "toLocaleString",
                  "toString", "valueOf", "__proto__", "__defineGetter__", "__defineSetter__",
                  "__lookupGetter__", "__lookupSetter__"];
    assert Inherited(name) ==> name in names;
  }

  /** What every object inherits is there, equals nothing, and is found in a list by its text. */
  lemma InheritedMeans(rt: Runtime, name: string, operator: Operator, value: Option<Json>, fields: Fields)
    requires name !in fields
    requires name in ["constructor", "hasOwnProperty", "isPrototypeOf", "propertyIsEnumerable", "toLocaleString",
                      "toString", "valueOf", "__proto__", "__defineGetter__", "__defineSetter__",
                      "__lookupGetter__", "__lookupSetter__"]
    ensures Meaning(rt, Leaf(name, operator, value), fields)
            <==> || operator in {Exists, Ne}
                 || (operator == In
                     && exists items :: value == Some(Arr(items)) && Str(rt.inheritedText(name)) in items)
                 || (operator == NotIn
                     && exists items :: value == Some(Arr(items)) && Str(rt.inheritedText(name)) !in items)
  {
  }

  // ---------------------------------------------------------------- compounds

  /** `any` and `all` are decided one condition at a time, and `not` is negation. */
  lemma CompoundsMean(rt: Runtime, cs: seq<Condition>, c: Condition, fields: Fields)
    ensures !Meaning(rt, Any([]), fields) && Meaning(rt, All([]), fields)
    ensures Meaning(rt, Any(cs + [c]), fields) <==> Meaning(rt, Any(cs), fields) || Meaning(rt, c, fields)
    ensures Meaning(rt, All(cs + [c]), fields) <==> Meaning(rt, All(cs), fields) && Meaning(rt, c, fields)
    ensures Meaning(rt, Not(c), fields) <==> !Meaning(rt, c, fields)
  {
    var all := cs + [c];
    assert forall i :: 0 <= i < |all| ==> all[i] == if i < |cs| then cs[i] else c;
    assert all[|cs|] == c;
    if Meaning(rt, Any(cs), fields) {
      var i :| 0 <= i < |cs| && Meaning(rt, cs[i], fields);
      assert all[i] == cs[i];
    }
    if Meaning(rt, All(all), fields) {
      forall i | 0 <= i < |cs| ensures Meaning(rt, cs[i], fields) { assert all[i] == cs[i]; }
    }
  }

  // ---------------------------------------------------------------- actions, resources, statements

  /** A pattern names its own action, every action, or, ending in `:*`, the actions behind its colon. */
  lemma ActionMatchesIff(pattern: string, action: string)
    ensures ActionMatches(pattern, action)
            <==> || pattern == "*" || pattern == action
                 || (exists stem, rest :: pattern == stem + ":*" && action == stem + ":" + rest)
  {
    if EndsWithText(pattern, ":*") && StartsWithText(action, pattern[..|pattern| - 1]) {
      var stem := pattern[..|pattern| - 2];
      assert pattern == stem + ":*" && pattern[..|pattern| - 1] == stem + ":";
      assert action == stem + ":" + action[|pattern| - 1..];
    }
    forall stem, rest | pattern == stem + ":*" && action == stem + ":" + rest
      ensures EndsWithText(pattern, ":*") && StartsWithText(action, pattern[..|pattern| - 1])
    {
      assert pattern[..|pattern| - 1] == stem + ":";
    }
  }

  /** A pattern names its own resource and what is below it, every resource, or those that start like it up to `*`. */
  lemma ResourceMatchesIff(pattern: string, resource: string)
    ensures ResourceMatches(pattern, resource)
            <==> || pattern == "*" || pattern == resource
                 || (exists stem, rest :: pattern == stem + "*" && resource == stem + rest)
                 || (exists rest :: resource == pattern + "/" + rest)
  {
    if EndsWithText(pattern, "*") && StartsWithText(resource, pattern[..|pattern| - 1]) {
      var stem := pattern[..|pattern| - 1];
      assert pattern == stem + "*" && resource == stem + resource[|stem|..];
    }
    if StartsWithText(resource, pattern + "/") {
      assert resource == pattern + "/" + resource[|pattern| + 1..];
    }
    forall stem, rest | pattern == stem + "*" && resource == stem + rest
      ensures EndsWithText(pattern, "*") && StartsWithText(resource, pattern[..|pattern| - 1])
    {
      assert pattern[..|pattern| - 1] == stem;
    }
    forall rest | resource == pattern + "/" + rest ensures StartsWithText(resource, pattern + "/") {
      assert resource[..|pattern| + 1] == pattern + "/";
    }
  }

  /**
   A statement whose conditions nest no deeper than 20 matches a context exactly if one of its actions and one of
   its resources do and all its conditions hold there.
   */
  lemma StatementMatchesIff(rt: Runtime, s: Statement, ctx: RequestContext)
    requires forall i :: 0 <= i < |s.conditions| ==> NestsWithin(s.conditions[i], 20)
    ensures MatchesStatement(rt, s, ctx)
            <==> && (exists p <- s.actions :: ActionMatches(p, ctx.action))
                 && (exists p <- s.resources :: ResourceMatches(p, ctx.resource))
                 && Meaning(rt, All(s.conditions), ctx.fields)
  {
    forall i | 0 <= i < |s.conditions|
      ensures EvaluateCondition(rt, s.conditions[i], ctx.fields, 0) <==> Meaning(rt, s.conditions[i], ctx.fields)
    {
      BoundedIsExact(rt, s.conditions[i], ctx.fields, 0);
    }
  }

  /** Twenty-one `not`s are one too many, and twenty are not. */
  lemma TwentyIsTheLimit(rt: Runtime, leaf: Condition, fields: Fields)
    requires leaf.Leaf?
    ensures EvaluateCondition(rt, Tower(20, leaf), fields, 0) <==> Meaning(rt, leaf, fields)
    ensures EvaluateCondition(rt, Tower(21, leaf), fields, 0)
  {
    TowerEvaluation(rt, 20, leaf, fields, 0);
    TowerEvaluation(rt, 21, leaf, fields, 0);
  }

  // ---------------------------------------------------------------- policies

  /** A policy without statements allows nothing. */
  lemma EmptyPolicyDenies(rt: Runtime, ctx: RequestContext)
    ensures !Allows(rt, PolicyDocument([]), ctx)
  {
  }

  /**
   Adding an allow, wherever it is put, allows exactly what it matches and no deny forbids. Together with
   `EmptyPolicyDenies` and `DenyOnlyTakesAway` this says what every policy allows.
   */
  lemma AllowOnlyAdds(rt: Runtime, before: seq<Statement>, allow: Statement, after: seq<Statement>,
                      ctx: RequestContext)
    requires allow.effect.Allow?
    ensures Allows(rt, PolicyDocument(before + [allow] + after), ctx)
            <==> || Allows(rt, PolicyDocument(before + after), ctx)
                 || (MatchesStatement(rt, allow, ctx)
                     && forall s <- before + after :: s.effect.Deny? ==> !MatchesStatement(rt, s, ctx))
  {
    hide MatchesStatement;
    var with, without := before + [allow] + after, before + after;
    forall s ensures s in with <==> s == allow || s in without {}
  }
}
