/**
 Which documents `validatePolicy` accepts, and what they denote: a grammar over the JSON values alone, with the names
 and limits written out, next to the validator of `src/policy-engine.ts`, lines 225-478.
 */
module PolicyAcceptance {
  import opened Prelude
  import opened PolicyTypes
  import opened PolicyEngine
  import opened PolicyValidation

  // ---------------------------------------------------------------- the grammar

  /** How an operator is written. */
  function NameOf(operator: Operator): string {
    match operator
    case Eq => "eq"
    case Ne => "ne"
    case Contains => "contains"
    case NotContains => "not_contains"
    case StartsWith => "starts_with"
    case EndsWith => "ends_with"
    case MatchesRegex => "matches"
    case NotMatchesRegex => "not_matches"
    case In => "in"
    case NotIn => "not_in"
    case Wildcard => "wildcard"
    case Exists => "exists"
    case NotExists => "not_exists"
    case Lt => "lt"
    case Gt => "gt"
    case Lte => "lte"
    case Gte => "gte"
  }

  /** The value that an operator asks for. */
  predicate GoodValue(rt: Runtime, operator: Operator, value: Option<Json>) {
    operator == Exists || operator == NotExists ||
    match value
    case None => false
    case Some(j) =>
      if operator in {In, NotIn} then GoodList(j)
      else if operator in {Eq, Ne} then j.Str? || j.Bool?
      else if operator in {Lt, Gt, Lte, Gte} then j.Str? && rt.numberOf(j).Some?
      else if operator in {MatchesRegex, NotMatchesRegex} then j.Str? && GoodRegex(rt, j.text)
      else j.Str?
  }

  predicate GoodList(j: Json) {
    j.Arr? && |j.items| > 0 && forall i :: 0 <= i < |j.items| ==> j.items[i].Str?
  }

  predicate GoodRegex(rt: Runtime, pattern: string) {
    |pattern| <= 256 && !rt.regexSuspicious(pattern) && rt.regexCompiles(pattern) && !rt.regexSlow(pattern)
  }

  predicate GoodText(j: Json) {
    j.Str? && |j.text| > 0
  }

  predicate GoodTexts(j: Json) {
    j.Arr? && |j.items| > 0 && forall i :: 0 <= i < |j.items| ==> GoodText(j.items[i])
  }

  predicate GoodLeaf(rt: Runtime, props: map<string, Json>) {
    && "field" in props && GoodText(props["field"])
    && "operator" in props
    && exists op :: props["operator"] == Str(NameOf(op))
                    && GoodValue(rt, op, if "value" in props then Some(props["value"]) else None)
  }

  /** A condition on level `depth`, looked at as `any`, else as `all`, else as `not`, else as a leaf. */
  predicate GoodCondition(rt: Runtime, c: Json, depth: nat)
    decreases c, 0
  {
    && depth <= 20 && c.Obj?
    && if "any" in c.props then GoodConditions(rt, c.props["any"], depth + 1)
       else if "all" in c.props then GoodConditions(rt, c.props["all"], depth + 1)
       else if "not" in c.props then GoodCondition(rt, c.props["not"], depth + 1)
       else GoodLeaf(rt, c.props)
  }

  predicate GoodConditions(rt: Runtime, list: Json, depth: nat)
    decreases list, 1
  {
    list.Arr? && |list.items| > 0 && forall i :: 0 <= i < |list.items| ==> GoodCondition(rt, list.items[i], depth)
  }

  predicate GoodStatement(rt: Runtime, s: Json) {
    && s.Obj?
    && "effect" in s.props && (s.props["effect"] == Str("allow") || s.props["effect"] == Str("deny"))
    && "actions" in s.props && GoodTexts(s.props["actions"])
    && "resources" in s.props && GoodTexts(s.props["resources"])
    && ("conditions" in s.props ==>
          && s.props["conditions"].Arr?
          && forall i :: 0 <= i < |s.props["conditions"].items| ==>
               GoodCondition(rt, s.props["conditions"].items[i], 0))
  }

  predicate GoodPolicy(rt: Runtime, p: Json) {
    && p.Obj?
    && "version" in p.props && p.props["version"] == Str("2025-01-01")
    && "statements" in p.props && p.props["statements"].Arr? && |p.props["statements"].items| > 0
    && forall i :: 0 <= i < |p.props["statements"].items| ==> GoodStatement(rt, p.props["statements"].items[i])
  }

  // ---------------------------------------------------------------- the validator accepts exactly this

  lemma ReadFromItsName(text: string, operator: Operator)
    requires ParseOperator(text) == Some(operator)
    ensures text == NameOf(operator)
  {
    assert operator.Eq? ==> text == "eq";
    assert operator.Ne? ==> text == "ne";
    assert operator.Contains? ==> text == "contains";
    assert operator.NotContains? ==> text == "not_contains";
    assert operator.StartsWith? ==> text == "starts_with";
    assert operator.EndsWith? ==> text == "ends_with";
    assert operator.MatchesRegex? ==> text == "matches";
    assert operator.NotMatchesRegex? ==> text == "not_matches";
    assert operator.In? ==> text == "in";
    assert operator.NotIn? ==> text == "not_in";
    assert operator.Wildcard? ==> text == "wildcard";
    assert operator.Exists? ==> text == "exists";
    assert operator.NotExists? ==> text == "not_exists";
    assert operator.Lt? ==> text == "lt";
    assert operator.Gt? ==> text == "gt";
    assert operator.Lte? ==> text == "lte";
    assert operator.Gte? ==> text == "gte";
  }

  lemma NameIsRead(operator: Operator)
    ensures ParseOperator(NameOf(operator)) == Some(operator)
  {
  }

  /** Every operator is read from its own name, and from no other text. */
  lemma OperatorNames(text: string, operator: Operator)
    ensures ParseOperator(text) == Some(operator) <==> text == NameOf(operator)
  {
    hide ParseOperator, NameOf;
    NameIsRead(operator);
    if ParseOperator(text) == Some(operator) { ReadFromItsName(text, operator); }
  }

  lemma {:induction false} ListItemsAccepted(items: seq<Json>, path: seq<Step>, i: nat)
    requires i <= |items|
    ensures ListItemErrors(items, path, i) == [] <==> forall j :: i <= j < |items| ==> items[j].Str?
    decreases |items| - i
  {
    if i < |items| { ListItemsAccepted(items, path, i + 1); }
  }

  lemma ValueAcceptedIff(rt: Runtime, operator: Operator, value: Option<Json>, path: seq<Step>)
    ensures ValueErrors(rt, Some(operator), value, path) == [] <==> GoodValue(rt, operator, value)
  {
    if value.Some? && value.value.Arr? { ListItemsAccepted(value.value.items, path, 0); }
  }

  lemma LeafAcceptedIff(rt: Runtime, c: Json, path: seq<Step>)
    ensures LeafErrors(rt, c, path) == [] <==> c.Obj? && GoodLeaf(rt, c.props)
  {
    hide ParseOperator, ValueErrors, GoodValue, NameOf;
    var operator := OperatorOf(Get(c, "operator"));
    if c.Obj? && "operator" in c.props && c.props["operator"].Str? {
      var text := c.props["operator"].text;
      forall op ensures ParseOperator(text) == Some(op) <==> text == NameOf(op) { OperatorNames(text, op); }
      if operator.Some? {
        ValueAcceptedIff(rt, operator.value, Get(c, "value"), path + [Key("value")]);
      }
    }
  }

  lemma {:induction false} ItemsAcceptedIff(rt: Runtime, list: Json, path: seq<Step>, depth: nat, i: nat)
    requires list.Arr? && i <= |list.items|
    ensures ItemErrors(rt, list, path, depth, i) == []
            <==> forall j :: i <= j < |list.items| ==> GoodCondition(rt, list.items[j], depth + 1)
    decreases list, 0, |list.items| - i
  {
    hide ConditionErrors, GoodCondition;
    if i < |list.items| {
      ConditionAcceptedIff(rt, list.items[i], path + [Index(i)], depth + 1);
      ItemsAcceptedIff(rt, list, path, depth, i + 1);
    }
  }

  /** A condition has no errors exactly if it is in the grammar. */
  lemma {:induction false} ConditionAcceptedIff(rt: Runtime, c: Json, path: seq<Step>, depth: nat)
    ensures ConditionErrors(rt, c, path, depth) == [] <==> GoodCondition(rt, c, depth)
    decreases c, 1
  {
    hide LeafErrors, GoodLeaf;
    LeafAcceptedIff(rt, c, path);
    if c.Arr? { assert LeafErrors(rt, c, path) != []; }
    if Has(c, "any") {
      if c.props["any"].Arr? { ItemsAcceptedIff(rt, c.props["any"], path + [Key("any")], depth, 0); }
    } else if Has(c, "all") {
      if c.props["all"].Arr? { ItemsAcceptedIff(rt, c.props["all"], path + [Key("all")], depth, 0); }
    } else if Has(c, "not") {
      ConditionAcceptedIff(rt, c.props["not"], path + [Key("not")], depth + 1);
    }
  }

  lemma {:induction false} TextsAccepted(items: seq<Json>, path: seq<Step>, i: nat)
    requires i <= |items|
    ensures TextItemErrors(items, path, i) == [] <==> forall j :: i <= j < |items| ==> GoodText(items[j])
    decreases |items| - i
  {
    if i < |items| { TextsAccepted(items, path, i + 1); }
  }

  lemma StringsAcceptedIff(list: Option<Json>, path: seq<Step>)
    ensures StringErrors(list, path) == [] <==> list.Some? && GoodTexts(list.value)
  {
    if list.Some? && list.value.Arr? { TextsAccepted(list.value.items, path, 0); }
  }

  lemma {:induction false} ConditionListAccepted(rt: Runtime, items: seq<Json>, path: seq<Step>, i: nat)
    requires i <= |items|
    ensures ConditionListErrors(rt, items, path, i) == []
            <==> forall j :: i <= j < |items| ==> GoodCondition(rt, items[j], 0)
    decreases |items| - i
  {
    hide ConditionErrors, GoodCondition;
    if i < |items| {
      ConditionAcceptedIff(rt, items[i], path + [Index(i)], 0);
      ConditionListAccepted(rt, items, path, i + 1);
    }
  }

  lemma StatementAcceptedIff(rt: Runtime, s: Json, path: seq<Step>)
    ensures StatementErrors(rt, s, path) == [] <==> GoodStatement(rt, s)
  {
    hide StringErrors, GoodTexts, ConditionListErrors, GoodCondition;
    StringsAcceptedIff(Get(s, "actions"), path + [Key("actions")]);
    StringsAcceptedIff(Get(s, "resources"), path + [Key("resources")]);
    if Has(s, "conditions") && s.props["conditions"].Arr? {
      ConditionListAccepted(rt, s.props["conditions"].items, path + [Key("conditions")], 0);
    }
  }

  lemma {:induction false} StatementListAccepted(rt: Runtime, items: seq<Json>, i: nat)
    requires i <= |items|
    ensures StatementListErrors(rt, items, i) == [] <==> forall j :: i <= j < |items| ==> GoodStatement(rt, items[j])
    decreases |items| - i
  {
    hide StatementErrors, GoodStatement;
    if i < |items| {
      StatementAcceptedIff(rt, items[i], [Key("statements"), Index(i)]);
      StatementListAccepted(rt, items, i + 1);
    }
  }

  /** The validator accepts exactly the documents of the grammar. */
  lemma PolicyAcceptedIff(rt: Runtime, p: Json)
    ensures PolicyErrors(rt, p) == [] <==> GoodPolicy(rt, p)
  {
    hide StatementListErrors, GoodStatement;
    if Has(p, "statements") && p.props["statements"].Arr? {
      StatementListAccepted(rt, p.props["statements"].items, 0);
    }
  }

  // ---------------------------------------------------------------- what is reported

  /** All errors are about something inside `path`. */
  predicate Inside(errors: seq<PolicyError>, path: seq<Step>) {
    forall e <- errors :: path <= e.path
  }

  lemma InsideJoins(a: seq<PolicyError>, b: seq<PolicyError>, path: seq<Step>)
    requires Inside(a, path) && Inside(b, path)
    ensures Inside(a + b, path)
  {
  }

  lemma InsideLonger(errors: seq<PolicyError>, path: seq<Step>, step: Step)
    requires Inside(errors, path + [step])
    ensures Inside(errors, path)
  {
    forall e | e in errors ensures path <= e.path {
      assert path <= path + [step] <= e.path;
    }
  }

  lemma {:induction false} ListItemErrorsInside(items: seq<Json>, path: seq<Step>, i: nat)
    requires i <= |items|
    ensures Inside(ListItemErrors(items, path, i), path)
    decreases |items| - i
  {
    if i < |items| { ListItemErrorsInside(items, path, i + 1); }
  }

  lemma LeafErrorsInside(rt: Runtime, c: Json, path: seq<Step>)
    ensures Inside(LeafErrors(rt, c, path), path)
  {
    hide ParseOperator, ListItemErrors;
    var value := Get(c, "value");
    if value.Some? && value.value.Arr? {
      ListItemErrorsInside(value.value.items, path + [Key("value")], 0);
    }
    InsideLonger(ValueErrors(rt, OperatorOf(Get(c, "operator")), value, path + [Key("value")]), path, Key("value"));
  }

  /** An error of a condition points into that condition. */
  lemma {:induction false} ConditionErrorsInside(rt: Runtime, c: Json, path: seq<Step>, depth: nat)
    ensures Inside(ConditionErrors(rt, c, path, depth), path)
    decreases c, 1
  {
    hide LeafErrors, ItemErrors;
    LeafErrorsInside(rt, c, path);
    if Has(c, "any") {
      ListErrorsInside(rt, c.props["any"], path + [Key("any")], depth);
      InsideLonger(ListErrors(rt, c.props["any"], path + [Key("any")], depth), path, Key("any"));
    } else if Has(c, "all") {
      ListErrorsInside(rt, c.props["all"], path + [Key("all")], depth);
      InsideLonger(ListErrors(rt, c.props["all"], path + [Key("all")], depth), path, Key("all"));
    } else if Has(c, "not") {
      ConditionErrorsInside(rt, c.props["not"], path + [Key("not")], depth + 1);
      InsideLonger(ConditionErrors(rt, c.props["not"], path + [Key("not")], depth + 1), path, Key("not"));
    }
  }

  lemma {:induction false} ListErrorsInside(rt: Runtime, list: Json, path: seq<Step>, depth: nat)
    ensures Inside(ListErrors(rt, list, path, depth), path)
    decreases list, 1
  {
    hide ItemErrors;
    if list.Arr? { ItemErrorsInside(rt, list, path, depth, 0); }
  }

  lemma {:induction false} ItemErrorsInside(rt: Runtime, list: Json, path: seq<Step>, depth: nat, i: nat)
    requires list.Arr? && i <= |list.items|
    ensures Inside(ItemErrors(rt, list, path, depth, i), path)
    decreases list, 0, |list.items| - i
  {
    hide ConditionErrors, Inside;
    if i < |list.items| {
      var first := ConditionErrors(rt, list.items[i], path + [Index(i)], depth + 1);
      ConditionErrorsInside(rt, list.items[i], path + [Index(i)], depth + 1);
      InsideLonger(first, path, Index(i));
      ItemErrorsInside(rt, list, path, depth, i + 1);
      InsideJoins(first, ItemErrors(rt, list, path, depth, i + 1), path);
    } else {
      NothingIsInside(path);
    }
  }

  lemma NothingIsInside(path: seq<Step>)
    ensures Inside([], path)
  {
  }

  /** Some error is about something inside `path`. */
  predicate Blames(errors: seq<PolicyError>, path: seq<Step>) {
    exists e <- errors :: path <= e.path
  }

  lemma BlamesOneItem(errors: seq<PolicyError>, path: seq<Step>, i: nat, j: nat)
    requires Inside(errors, path + [Index(i)])
    ensures Blames(errors, path + [Index(j)]) <==> i == j && errors != []
  {
    if i != j {
      forall e | e in errors ensures !(path + [Index(j)] <= e.path) {
        assert (path + [Index(i)])[|path|] == e.path[|path|];
        assert (path + [Index(j)])[|path|] == Index(j);
      }
    } else if errors != [] {
      assert errors[0] in errors;
    }
  }

  lemma BlamesJoins(a: seq<PolicyError>, b: seq<PolicyError>, path: seq<Step>)
    ensures Blames(a + b, path) <==> Blames(a, path) || Blames(b, path)
  {
    assert forall e :: e in a + b <==> e in a || e in b;
  }

  /** An `any` or `all` blames exactly the items that are not in the grammar. */
  lemma {:induction false} ItemIsBlamedIff(rt: Runtime, list: Json, path: seq<Step>, depth: nat, i: nat, j: nat)
    requires list.Arr? && i <= |list.items| && j < |list.items|
    ensures Blames(ItemErrors(rt, list, path, depth, i), path + [Index(j)])
            <==> i <= j && !GoodCondition(rt, list.items[j], depth + 1)
    decreases |list.items| - i
  {
    hide ConditionErrors, GoodCondition, Blames, Inside;
    if i < |list.items| {
      var first := ConditionErrors(rt, list.items[i], path + [Index(i)], depth + 1);
      ConditionErrorsInside(rt, list.items[i], path + [Index(i)], depth + 1);
      ConditionAcceptedIff(rt, list.items[i], path + [Index(i)], depth + 1);
      BlamesOneItem(first, path, i, j);
      BlamesJoins(first, ItemErrors(rt, list, path, depth, i + 1), path + [Index(j)]);
      ItemIsBlamedIff(rt, list, path, depth, i + 1, j);
    } else {
      NothingIsBlamed(path + [Index(j)]);
    }
  }

  lemma NothingIsBlamed(path: seq<Step>)
    ensures !Blames([], path)
  {
  }

  lemma {:induction false} TextItemErrorsInside(items: seq<Json>, path: seq<Step>, i: nat)
    requires i <= |items|
    ensures Inside(TextItemErrors(items, path, i), path)
    decreases |items| - i
  {
    if i < |items| { TextItemErrorsInside(items, path, i + 1); }
  }

  lemma StringErrorsInside(list: Option<Json>, path: seq<Step>, step: Step)
    ensures Inside(StringErrors(list, path + [step]), path)
  {
    if list.Some? && list.value.Arr? { TextItemErrorsInside(list.value.items, path + [step], 0); }
    InsideLonger(StringErrors(list, path + [step]), path, step);
  }

  lemma {:induction false} ConditionListErrorsInside(rt: Runtime, items: seq<Json>, path: seq<Step>, i: nat)
    requires i <= |items|
    ensures Inside(ConditionListErrors(rt, items, path, i), path)
    decreases |items| - i
  {
    hide ConditionErrors, Inside;
    if i < |items| {
      var first := ConditionErrors(rt, items[i], path + [Index(i)], 0);
      ConditionErrorsInside(rt, items[i], path + [Index(i)], 0);
      InsideLonger(first, path, Index(i));
      ConditionListErrorsInside(rt, items, path, i + 1);
      InsideJoins(first, ConditionListErrors(rt, items, path, i + 1), path);
    } else {
      NothingIsInside(path);
    }
  }

  lemma StatementErrorsInside(rt: Runtime, s: Json, path: seq<Step>)
    ensures Inside(StatementErrors(rt, s, path), path)
  {
    hide StringErrors, ConditionListErrors;
    StringErrorsInside(Get(s, "actions"), path, Key("actions"));
    StringErrorsInside(Get(s, "resources"), path, Key("resources"));
    if Has(s, "conditions") && s.props["conditions"].Arr? {
      var items := s.props["conditions"].items;
      ConditionListErrorsInside(rt, items, path + [Key("conditions")], 0);
      InsideLonger(ConditionListErrors(rt, items, path + [Key("conditions")], 0), path, Key("conditions"));
    }
  }

  lemma {:induction false} StatementBlamedIn(rt: Runtime, items: seq<Json>, i: nat, j: nat)
    requires i <= |items| && j < |items|
    ensures Blames(StatementListErrors(rt, items, i), [Key("statements"), Index(j)])
            <==> i <= j && !GoodStatement(rt, items[j])
    decreases |items| - i
  {
    hide StatementErrors, GoodStatement, Blames, Inside;
    assert forall k :: [Key("statements")] + [Index(k)] == [Key("statements"), Index(k)];
    if i < |items| {
      var first := StatementErrors(rt, items[i], [Key("statements"), Index(i)]);
      StatementErrorsInside(rt, items[i], [Key("statements"), Index(i)]);
      StatementAcceptedIff(rt, items[i], [Key("statements"), Index(i)]);
      BlamesOneItem(first, [Key("statements")], i, j);
      BlamesJoins(first, StatementListErrors(rt, items, i + 1), [Key("statements"), Index(j)]);
      StatementBlamedIn(rt, items, i + 1, j);
    } else {
      NothingIsBlamed([Key("statements"), Index(j)]);
    }
  }

  /** A rejected document blames exactly the statements that are not in the grammar. */
  lemma StatementIsBlamedIff(rt: Runtime, p: Json, j: nat)
    requires p.Obj? && "statements" in p.props && p.props["statements"].Arr? && j < |p.props["statements"].items|
    ensures Blames(PolicyErrors(rt, p), [Key("statements"), Index(j)])
            <==> !GoodStatement(rt, p.props["statements"].items[j])
  {
    hide StatementListErrors, GoodStatement;
    var version := if Get(p, "version") == Some(Str(POLICY_VERSION)) then []
      else [PolicyError([Key("version")], BadVersion)];
    StatementBlamedIn(rt, p.props["statements"].items, 0, j);
    BlamesJoins(version, StatementListErrors(rt, p.props["statements"].items, 0), [Key("statements"), Index(j)]);
    assert !([Key("statements"), Index(j)] <= [Key("version")]);
  }

  // ---------------------------------------------------------------- what is denoted

  /** `c` is the condition written as `j`. */
  predicate Denotes(j: Json, c: Condition)
    decreases c
  {
    j.Obj? &&
    match c
    case Any(cs) => "any" in j.props && ListDenotes(j.props["any"], cs)
    case All(cs) => "any" !in j.props && "all" in j.props && ListDenotes(j.props["all"], cs)
    case Not(n) => "any" !in j.props && "all" !in j.props && "not" in j.props && Denotes(j.props["not"], n)
    case Leaf(field, op, value) =>
      && "any" !in j.props && "all" !in j.props && "not" !in j.props
      && "field" in j.props && j.props["field"] == Str(field)
      && "operator" in j.props && j.props["operator"] == Str(NameOf(op))
      && value == (if "value" in j.props then Some(j.props["value"]) else None)
  }

  predicate ListDenotes(j: Json, cs: seq<Condition>)
    decreases cs
  {
    j.Arr? && |j.items| == |cs| && forall i :: 0 <= i < |cs| ==> Denotes(j.items[i], cs[i])
  }

  lemma {:induction false} ItemsDenoted(list: Json, i: nat)
    requires list.Arr? && i <= |list.items| && DecodeItems(list, i).Some?
    ensures var cs := DecodeItems(list, i).value;
            |cs| == |list.items| - i && forall j :: 0 <= j < |cs| ==> Denotes(list.items[i + j], cs[j])
    decreases list, 0, |list.items| - i
  {
    hide Decode, Denotes;
    if i < |list.items| {
      DecodedIsDenoted(list.items[i]);
      ItemsDenoted(list, i + 1);
      var cs, rest := DecodeItems(list, i).value, DecodeItems(list, i + 1).value;
      forall j | 0 <= j < |cs| ensures Denotes(list.items[i + j], cs[j]) {
        if j > 0 { assert cs[j] == rest[j - 1] && list.items[(i + 1) + (j - 1)] == list.items[i + j]; }
      }
    }
  }

  /** What a condition decodes to is what it denotes. */
  lemma {:induction false} DecodedIsDenoted(c: Json)
    requires Decode(c).Some?
    ensures Denotes(c, Decode(c).value)
    decreases c, 1
  {
    hide ParseOperator, NameOf;
    if Has(c, "any") {
      ItemsDenoted(c.props["any"], 0);
    } else if Has(c, "all") {
      ItemsDenoted(c.props["all"], 0);
    } else if Has(c, "not") {
      DecodedIsDenoted(c.props["not"]);
    } else {
      OperatorNames(c.props["operator"].text, Decode(c).value.operator);
    }
  }

  /** What an accepted statement decodes to: its own effect, texts and conditions, in order. */
  lemma DecodedStatementIs(rt: Runtime, s: Json)
    requires GoodStatement(rt, s)
    ensures var d := DecodeStatement(s);
            && (d.effect.Deny? <==> s.props["effect"] == Str("deny"))
            && (d.effect.Allow? <==> s.props["effect"] == Str("allow"))
            && |d.actions| == |s.props["actions"].items|
            && (forall i :: 0 <= i < |d.actions| ==> s.props["actions"].items[i] == Str(d.actions[i]))
            && |d.resources| == |s.props["resources"].items|
            && (forall i :: 0 <= i < |d.resources| ==> s.props["resources"].items[i] == Str(d.resources[i]))
            && (if "conditions" in s.props then ListDenotes(s.props["conditions"], d.conditions)
                else d.conditions == [])
  {
    hide GoodCondition, Decode, Denotes;
    var d := DecodeStatement(s);
    assert forall i :: 0 <= i < |d.actions| ==> GoodText(s.props["actions"].items[i]);
    assert forall i :: 0 <= i < |d.resources| ==> GoodText(s.props["resources"].items[i]);
    if "conditions" in s.props {
      var items := s.props["conditions"].items;
      forall i | 0 <= i < |items| ensures Denotes(items[i], d.conditions[i]) {
        ConditionAcceptedIff(rt, items[i], [], 0);
        AcceptedDecodes(rt, items[i], [], 0);
        DecodedIsDenoted(items[i]);
      }
    }
  }

  /** And an accepted policy decodes to its statements, in order. */
  lemma DecodedPolicyIs(rt: Runtime, p: Json)
    requires GoodPolicy(rt, p)
    ensures var d := DecodePolicy(p);
            && |d.statements| == |p.props["statements"].items|
            && forall i :: 0 <= i < |d.statements| ==>
                 d.statements[i] == DecodeStatement(p.props["statements"].items[i])
  {
  }

  /** The evaluator looks for the leaf first: an object with `field` and `operator` is read as that leaf. */
  lemma LeafShapeIsReadFirst(rt: Runtime, c: Json, field: string, operator: Operator)
    requires c.Obj? && "field" in c.props && c.props["field"] == Str(field)
    requires "operator" in c.props && c.props["operator"] == Str(NameOf(operator))
    ensures AsEvaluated(rt, c) == Leaf(field, operator, if "value" in c.props then Some(c.props["value"]) else None)
  {
    hide ParseOperator, NameOf;
    OperatorNames(c.props["operator"].text, operator);
  }
}
