/**
 Policy validation: `src/policy-engine.ts`, lines 225-478, and what it guarantees about evaluation.

 Both sides work on raw parsed JSON. `ConditionErrors` is the validator, `EvalRaw` is the evaluator
 as it treats an object it knows nothing about: it may throw. The validator looks for the compound
 shapes first, the evaluator for the leaf shape first; `Plain` are the values on which that makes
 no difference. On others the evaluator reads values that nobody validated, and `ThrowsOn` says exactly
 when that ends in a throw.
 */
module PolicyValidation {
  import opened Prelude
  import opened PolicyTypes
  import opened PolicyEngine

  datatype Step = Key(name: string) | Index(i: nat)

  datatype Problem =
    | TooDeep | NotAnObject | NotANonEmptyArray | BadField | BadOperator | BadValue | BadListItem
    | RegexTooLong | RegexSuspicious | RegexInvalid | RegexTooSlow
    | BadVersion | BadEffect | NotANonEmptyString | NotAnArray

  datatype PolicyError = PolicyError(path: seq<Step>, problem: Problem)

  /** `typeof j === 'object' && j !== null` */
  predicate IsObject(j: Json) {
    j.Obj? || j.Arr?
  }

  predicate Has(j: Json, name: string) {
    j.Obj? && name in j.props
  }

  function Get(j: Json, name: string): (r: Option<Json>)
    ensures r.Some? ==> r.value < j
  {
    if j.Obj? && name in j.props then Some(j.props[name]) else None
  }

  function ParseOperator(s: string): Option<Operator> {
    if s == "eq" then Some(Eq) else if s == "ne" then Some(Ne)
    else if s == "contains" then Some(Contains) else if s == "not_contains" then Some(NotContains)
    else if s == "starts_with" then Some(StartsWith) else if s == "ends_with" then Some(EndsWith)
    else if s == "matches" then Some(MatchesRegex) else if s == "not_matches" then Some(NotMatchesRegex)
    else if s == "in" then Some(In) else if s == "not_in" then Some(NotIn)
    else if s == "wildcard" then Some(Wildcard)
    else if s == "exists" then Some(Exists) else if s == "not_exists" then Some(NotExists)
    else if s == "lt" then Some(Lt) else if s == "gt" then Some(Gt)
    else if s == "lte" then Some(Lte) else if s == "gte" then Some(Gte)
    else None
  }

  function OperatorOf(j: Option<Json>): Option<Operator> {
    if j.Some? && j.value.Str? then ParseOperator(j.value.text) else None
  }

  // ---------------------------------------------------------------- the validator

  function ListItemErrors(items: seq<Json>, path: seq<Step>, i: nat): seq<PolicyError>
    requires i <= |items|
    decreases |items| - i
  {
    if i == |items| then []
    else
      (if items[i].Str? then [] else [PolicyError(path + [Index(i)], BadListItem)])
      + ListItemErrors(items, path, i + 1)
  }

  function RegexErrors(rt: Runtime, pattern: string, path: seq<Step>): seq<PolicyError> {
    if |pattern| > MAX_REGEX_LENGTH then [PolicyError(path, RegexTooLong)]
    else if rt.regexSuspicious(pattern) then [PolicyError(path, RegexSuspicious)]
    else if !rt.regexCompiles(pattern) then [PolicyError(path, RegexInvalid)]
    else if rt.regexSlow(pattern) then [PolicyError(path, RegexTooSlow)]
    else []
  }

  function ValueErrors(rt: Runtime, operator: Option<Operator>, value: Option<Json>,
                       path: seq<Step>): seq<PolicyError> {
    var bad := [PolicyError(path, BadValue)];
    var isText := value.Some? && value.value.Str?;
    if operator in {Some(Exists), Some(NotExists)} then []
    else if operator in {Some(In), Some(NotIn)} then
      if value.Some? && value.value.Arr? && value.value.items != [] then ListItemErrors(value.value.items, path, 0)
      else bad
    else if operator in {Some(Eq), Some(Ne)} then
      if isText || (value.Some? && value.value.Bool?) then [] else bad
    else if operator in {Some(Lt), Some(Gt), Some(Lte), Some(Gte)} then
      if isText && rt.numberOf(value.value).Some? then [] else bad
    else if !isText then bad
    else if operator in {Some(MatchesRegex), Some(NotMatchesRegex)} then RegexErrors(rt, value.value.text, path)
    else []
  }

  function LeafErrors(rt: Runtime, c: Json, path: seq<Step>): seq<PolicyError> {
    var field, operator := Get(c, "field"), OperatorOf(Get(c, "operator"));
    (if field.Some? && field.value.Str? && field.value.text != [] then []
     else [PolicyError(path + [Key("field")], BadField)])
    + (if operator.Some? then [] else [PolicyError(path + [Key("operator")], BadOperator)])
    + ValueErrors(rt, operator, Get(c, "value"), path + [Key("value")])
  }

  /** `validateCondition` */
  function ConditionErrors(rt: Runtime, c: Json, path: seq<Step>, depth: nat): seq<PolicyError>
    decreases c, 0
  {
    if depth > MAX_CONDITION_DEPTH then [PolicyError(path, TooDeep)]
    else if !IsObject(c) then [PolicyError(path, NotAnObject)]
    else if Has(c, "any") then ListErrors(rt, c.props["any"], path + [Key("any")], depth)
    else if Has(c, "all") then ListErrors(rt, c.props["all"], path + [Key("all")], depth)
    else if Has(c, "not") then
      (if IsObject(c.props["not"]) then ConditionErrors(rt, c.props["not"], path + [Key("not")], depth + 1)
       else [PolicyError(path + [Key("not")], NotAnObject)])
    else LeafErrors(rt, c, path)
  }

  function ListErrors(rt: Runtime, list: Json, path: seq<Step>, depth: nat): seq<PolicyError>
    decreases list, 1
  {
    if !list.Arr? || list.items == [] then [PolicyError(path, NotANonEmptyArray)]
    else ItemErrors(rt, list, path, depth, 0)
  }

  function ItemErrors(rt: Runtime, list: Json, path: seq<Step>, depth: nat, i: nat): seq<PolicyError>
    requires list.Arr? && i <= |list.items|
    decreases list, 0, |list.items| - i
  {
    if i == |list.items| then []
    else ConditionErrors(rt, list.items[i], path + [Index(i)], depth + 1) + ItemErrors(rt, list, path, depth, i + 1)
  }

  // ---------------------------------------------------------------- the evaluator on raw values

  datatype Outcome = Value(b: bool) | Throws

  function NotOutcome(o: Outcome): Outcome {
    if o.Value? then Value(!o.b) else Throws
  }

  predicate LooksLikeLeaf(c: Json) {
    Has(c, "field") && Has(c, "operator")
  }

  /** The property name that `fields[field]` asks for; None when the conversion throws. */
  function FieldName(rt: Runtime, field: Json): Option<string> {
    if field.Str? then Some(field.text)
    else if Unconvertible(field) then None
    else Some(rt.propertyName(field))
  }

  predicate Numeric(operator: Operator) {
    operator in {Lt, Gt, Lte, Gte}
  }

  /** `evaluateLeaf`. A numeric comparison converts its value only once the field is found. */
  function EvalRawLeaf(rt: Runtime, c: Json, fields: map<string, FieldValue>): Outcome
    requires LooksLikeLeaf(c)
  {
    match FieldName(rt, c.props["field"])
    case None => Throws
    case Some(name) =>
      match OperatorOf(Get(c, "operator"))
      case None => Value(false)
      case Some(op) =>
        if Numeric(op) && Present(fields, name) && Has(c, "value") && Unconvertible(c.props["value"]) then Throws
        else Value(EvaluateLeaf(rt, name, op, Get(c, "value"), fields))
  }

  /** `evaluateCondition`, the leaf shape first. `in` on a primitive throws, and so does a list method on a non-list. */
  function EvalRaw(rt: Runtime, c: Json, fields: map<string, FieldValue>, depth: nat): Outcome
    decreases c, 0
  {
    if depth > MAX_CONDITION_DEPTH then Value(false)
    else if !IsObject(c) then Throws
    else if LooksLikeLeaf(c) then EvalRawLeaf(rt, c, fields)
    else if Has(c, "any") then
      (if c.props["any"].Arr? then SomeHolds(rt, c.props["any"], fields, depth + 1, 0) else Throws)
    else if Has(c, "all") then
      (if c.props["all"].Arr? then EveryHolds(rt, c.props["all"], fields, depth + 1, 0) else Throws)
    else if Has(c, "not") then NotOutcome(EvalRaw(rt, c.props["not"], fields, depth + 1))
    else Value(false)
  }

  /** `list.some(...)`, which stops at the first true. */
  function SomeHolds(rt: Runtime, list: Json, fields: map<string, FieldValue>, depth: nat, i: nat): Outcome
    requires list.Arr? && i <= |list.items|
    decreases list, 0, |list.items| - i
  {
    if i == |list.items| then Value(false)
    else match EvalRaw(rt, list.items[i], fields, depth)
      case Throws => Throws
      case Value(b) => if b then Value(true) else SomeHolds(rt, list, fields, depth, i + 1)
  }

  /** `list.every(...)`, which stops at the first false. */
  function EveryHolds(rt: Runtime, list: Json, fields: map<string, FieldValue>, depth: nat, i: nat): Outcome
    requires list.Arr? && i <= |list.items|
    decreases list, 0, |list.items| - i
  {
    if i == |list.items| then Value(true)
    else match EvalRaw(rt, list.items[i], fields, depth)
      case Throws => Throws
      case Value(b) => if !b then Value(false) else EveryHolds(rt, list, fields, depth, i + 1)
  }

  // ---------------------------------------------------------------- decoding

  /** On the way that the validator takes, no object is also a leaf for the evaluator. */
  predicate Plain(c: Json)
    decreases c
  {
    if Has(c, "any") then
      !LooksLikeLeaf(c) && (c.props["any"].Arr? ==> ItemsPlain(c.props["any"]))
    else if Has(c, "all") then
      !LooksLikeLeaf(c) && (c.props["all"].Arr? ==> ItemsPlain(c.props["all"]))
    else if Has(c, "not") then
      !LooksLikeLeaf(c) && Plain(c.props["not"])
    else true
  }

  predicate ItemsPlain(list: Json)
    requires list.Arr?
    decreases list
  {
    forall i :: 0 <= i < |list.items| ==> Plain(list.items[i])
  }

  /** The condition that the evaluator reads; `Any([])` never holds. */
  function AsEvaluated(rt: Runtime, c: Json): Condition
    decreases c, 0
  {
    if LooksLikeLeaf(c) then
      (match (OperatorOf(Get(c, "operator")), FieldName(rt, c.props["field"]))
       case (Some(op), Some(name)) => Leaf(name, op, Get(c, "value"))
       case _ => Any([]))
    else if Has(c, "any") then Any(ItemsAsEvaluated(rt, c.props["any"]))
    else if Has(c, "all") then All(ItemsAsEvaluated(rt, c.props["all"]))
    else if Has(c, "not") then Not(AsEvaluated(rt, c.props["not"]))
    else Any([])
  }

  function ItemsAsEvaluated(rt: Runtime, list: Json): seq<Condition>
    decreases list, 1
  {
    if list.Arr? then seq(|list.items|, i requires 0 <= i < |list.items| => AsEvaluated(rt, list.items[i])) else []
  }

  // ---------------------------------------------------------------- when evaluation throws

  /** A leaf with something in it that does not convert. */
  predicate Risky(c: Json)
    requires LooksLikeLeaf(c)
  {
    || Unconvertible(c.props["field"])
    || (OperatorOf(Get(c, "operator")).Some? && Numeric(OperatorOf(Get(c, "operator")).value)
        && Has(c, "value") && Unconvertible(c.props["value"]))
  }

  /** Evaluation comes to a leaf that throws: the items of a list are looked at in order, up to one that decides. */
  predicate ThrowsOn(rt: Runtime, c: Json, fields: map<string, FieldValue>)
    decreases c, 0
  {
    if LooksLikeLeaf(c) then
      || Unconvertible(c.props["field"])
      || (Risky(c) && Present(fields, FieldName(rt, c.props["field"]).value))
    else if Has(c, "any") then ListThrows(rt, c.props["any"], fields, true, 0)
    else if Has(c, "all") then ListThrows(rt, c.props["all"], fields, false, 0)
    else if Has(c, "not") then ThrowsOn(rt, c.props["not"], fields)
    else false
  }

  /** Some item from position i on throws, and none before it throws or is the truth value that stops the list. */
  predicate ListThrows(rt: Runtime, list: Json, fields: map<string, FieldValue>, stop: bool, i: nat)
    decreases list, 2
  {
    list.Arr? && exists k :: && i <= k < |list.items| && ThrowsOn(rt, list.items[k], fields)
                             && forall j :: i <= j < k ==> GoesPast(rt, list.items[j], fields, stop)
  }

  predicate GoesPast(rt: Runtime, c: Json, fields: map<string, FieldValue>, stop: bool)
    decreases c, 1
  {
    !ThrowsOn(rt, c, fields) && Meaning(rt, AsEvaluated(rt, c), fields) != stop
  }

  /** A throw, or the meaning of what is read. */
  function AsRead(rt: Runtime, c: Json, fields: map<string, FieldValue>): Outcome {
    if ThrowsOn(rt, c, fields) then Throws else Value(Meaning(rt, AsEvaluated(rt, c), fields))
  }

  /** No leaf that the evaluator can come to is risky. */
  predicate Safe(c: Json)
    decreases c
  {
    if LooksLikeLeaf(c) then !Risky(c)
    else if Has(c, "any") then c.props["any"].Arr? ==> ItemsSafe(c.props["any"])
    else if Has(c, "all") then c.props["all"].Arr? ==> ItemsSafe(c.props["all"])
    else if Has(c, "not") then Safe(c.props["not"])
    else true
  }

  predicate ItemsSafe(list: Json)
    requires list.Arr?
    decreases list
  {
    forall i :: 0 <= i < |list.items| ==> Safe(list.items[i])
  }

  /** The condition that the validator reads. */
  function Decode(c: Json): Option<Condition>
    decreases c, 0
  {
    if Has(c, "any") then
      (var cs := DecodeList(c.props["any"]); if cs.Some? then Some(Any(cs.value)) else None)
    else if Has(c, "all") then
      (var cs := DecodeList(c.props["all"]); if cs.Some? then Some(All(cs.value)) else None)
    else if Has(c, "not") then
      (var n := Decode(c.props["not"]); if n.Some? then Some(Not(n.value)) else None)
    else
      var field, operator := Get(c, "field"), OperatorOf(Get(c, "operator"));
      if field.Some? && field.value.Str? && operator.Some?
      then Some(Leaf(field.value.text, operator.value, Get(c, "value")))
      else None
  }

  function DecodeList(list: Json): Option<seq<Condition>>
    decreases list, 1
  {
    if list.Arr? then DecodeItems(list, 0) else None
  }

  function DecodeItems(list: Json, i: nat): Option<seq<Condition>>
    requires list.Arr? && i <= |list.items|
    decreases list, 0, |list.items| - i
  {
    if i == |list.items| then Some([])
    else
      var first, rest := Decode(list.items[i]), DecodeItems(list, i + 1);
      if first.Some? && rest.Some? then Some([first.value] + rest.value) else None
  }

  // ---------------------------------------------------------------- the guarantee

  /** An accepted list decodes item by item, each item one level deeper. */
  lemma {:induction false} AcceptedItems(rt: Runtime, list: Json, path: seq<Step>, depth: nat, i: nat)
    requires list.Arr? && i <= |list.items| && depth <= MAX_CONDITION_DEPTH
    requires ItemErrors(rt, list, path, depth, i) == []
    ensures var cs := DecodeItems(list, i);
            && cs.Some? && |cs.value| == |list.items| - i
            && (forall j :: 0 <= j < |cs.value| ==>
                  Decode(list.items[i + j]) == Some(cs.value[j])
                    && NestsWithin(cs.value[j], MAX_CONDITION_DEPTH - depth - 1))
    decreases list, 0, |list.items| - i
  {
    hide ConditionErrors, Decode, NestsWithin;
    if i < |list.items| {
      AcceptedDecodes(rt, list.items[i], path + [Index(i)], depth + 1);
      AcceptedItems(rt, list, path, depth, i + 1);
      var cs, rest := DecodeItems(list, i).value, DecodeItems(list, i + 1).value;
      forall j | 0 <= j < |cs|
        ensures Decode(list.items[i + j]) == Some(cs[j]) && NestsWithin(cs[j], MAX_CONDITION_DEPTH - depth - 1)
      {
        if j > 0 {
          assert cs[j] == rest[j - 1] && list.items[(i + 1) + (j - 1)] == list.items[i + j];
        }
      }
    }
  }

  /** What the validator accepts is a condition that nests within the depth limit. */
  lemma {:induction false} AcceptedDecodes(rt: Runtime, c: Json, path: seq<Step>, depth: nat)
    requires ConditionErrors(rt, c, path, depth) == []
    ensures depth <= MAX_CONDITION_DEPTH
    ensures Decode(c).Some? && NestsWithin(Decode(c).value, MAX_CONDITION_DEPTH - depth)
    decreases c, 1
  {
    if Has(c, "any") {
      AcceptedItems(rt, c.props["any"], path + [Key("any")], depth, 0);
    } else if Has(c, "all") {
      AcceptedItems(rt, c.props["all"], path + [Key("all")], depth, 0);
    } else if Has(c, "not") {
      AcceptedDecodes(rt, c.props["not"], path + [Key("not")], depth + 1);
    }
  }

  lemma {:induction false} AcceptedItem(rt: Runtime, list: Json, path: seq<Step>, depth: nat, i: nat, j: nat)
    requires list.Arr? && i <= j < |list.items| && ItemErrors(rt, list, path, depth, i) == []
    ensures ConditionErrors(rt, list.items[j], path + [Index(j)], depth + 1) == []
    decreases |list.items| - i
  {
    hide ConditionErrors;
    if i < j { AcceptedItem(rt, list, path, depth, i + 1, j); }
  }

  /** What the next item means for the rest of the list. */
  lemma ListThrowsStep(rt: Runtime, list: Json, fields: map<string, FieldValue>, stop: bool, i: nat)
    requires list.Arr? && i < |list.items|
    ensures ListThrows(rt, list, fields, stop, i)
            <==> || ThrowsOn(rt, list.items[i], fields)
                 || (GoesPast(rt, list.items[i], fields, stop) && ListThrows(rt, list, fields, stop, i + 1))
  {
    hide ThrowsOn, GoesPast;
  }

  /** `some` and `every` are the two quantifiers over what is read, unless an item throws before one decides. */
  lemma {:induction false} ListIsRead(rt: Runtime, list: Json, fields: map<string, FieldValue>, depth: nat, i: nat)
    requires list.Arr? && i <= |list.items|
    requires forall k :: i <= k < |list.items| ==>
               EvalRaw(rt, list.items[k], fields, depth) == AsRead(rt, list.items[k], fields)
    ensures var cs := ItemsAsEvaluated(rt, list);
            && SomeHolds(rt, list, fields, depth, i)
               == (if ListThrows(rt, list, fields, true, i) then Throws
                   else Value(exists j :: i <= j < |cs| && Meaning(rt, cs[j], fields)))
            && EveryHolds(rt, list, fields, depth, i)
               == (if ListThrows(rt, list, fields, false, i) then Throws
                   else Value(forall j :: i <= j < |cs| ==> Meaning(rt, cs[j], fields)))
    decreases |list.items| - i
  {
    hide EvalRaw, Meaning, AsEvaluated, ThrowsOn, ListThrows;
    if i < |list.items| {
      ListThrowsStep(rt, list, fields, true, i);
      ListThrowsStep(rt, list, fields, false, i);
      assert ItemsAsEvaluated(rt, list)[i] == AsEvaluated(rt, list.items[i]);
      ListIsRead(rt, list, fields, depth, i + 1);
    } else {
      NothingLeftThrows(rt, list, fields, i);
    }
  }

  lemma NothingLeftThrows(rt: Runtime, list: Json, fields: map<string, FieldValue>, i: nat)
    requires list.Arr? && i == |list.items|
    ensures !ListThrows(rt, list, fields, true, i) && !ListThrows(rt, list, fields, false, i)
  {
  }

  /** A leaf, accepted or not, throws on some request if and only if something in it does not convert. */
  lemma LeafThrowsOnSomeIff(rt: Runtime, c: Json)
    requires LooksLikeLeaf(c)
    ensures (exists fields :: EvalRaw(rt, c, fields, 0) == Throws) <==> Risky(c)
  {
    hide EvaluateLeaf, ParseOperator;
    if Risky(c) && !Unconvertible(c.props["field"]) {
      var fields := map[FieldName(rt, c.props["field"]).value := Text("")];
      assert EvalRaw(rt, c, fields, 0) == Throws;
    } else if Risky(c) {
      assert EvalRaw(rt, c, map[], 0) == Throws;
    }
  }

  lemma LeafIsRead(rt: Runtime, c: Json, fields: map<string, FieldValue>, depth: nat)
    requires LooksLikeLeaf(c) && depth <= MAX_CONDITION_DEPTH
    ensures EvalRaw(rt, c, fields, depth) == AsRead(rt, c, fields)
  {
    hide EvaluateLeaf, ParseOperator, Present;
  }

  lemma AnyShapeIsRead(rt: Runtime, c: Json, fields: map<string, FieldValue>, depth: nat)
    requires !LooksLikeLeaf(c) && depth <= MAX_CONDITION_DEPTH && Has(c, "any") && c.props["any"].Arr?
    requires var items := c.props["any"].items;
             forall k :: 0 <= k < |items| ==> EvalRaw(rt, items[k], fields, depth + 1) == AsRead(rt, items[k], fields)
    ensures EvalRaw(rt, c, fields, depth) == AsRead(rt, c, fields)
  {
    ListIsRead(rt, c.props["any"], fields, depth + 1, 0);
    hide LooksLikeLeaf, ListThrows, SomeHolds, EveryHolds, ItemsAsEvaluated, Unconvertible;
  }

  lemma AllShapeIsRead(rt: Runtime, c: Json, fields: map<string, FieldValue>, depth: nat)
    requires !LooksLikeLeaf(c) && depth <= MAX_CONDITION_DEPTH && !Has(c, "any") && Has(c, "all") && c.props["all"].Arr?
    requires var items := c.props["all"].items;
             forall k :: 0 <= k < |items| ==> EvalRaw(rt, items[k], fields, depth + 1) == AsRead(rt, items[k], fields)
    ensures EvalRaw(rt, c, fields, depth) == AsRead(rt, c, fields)
  {
    ListIsRead(rt, c.props["all"], fields, depth + 1, 0);
    hide LooksLikeLeaf, ListThrows, SomeHolds, EveryHolds, ItemsAsEvaluated, Unconvertible;
  }

  lemma NotShapeIsRead(rt: Runtime, c: Json, fields: map<string, FieldValue>, depth: nat)
    requires !LooksLikeLeaf(c) && depth <= MAX_CONDITION_DEPTH && !Has(c, "any") && !Has(c, "all") && Has(c, "not")
    requires EvalRaw(rt, c.props["not"], fields, depth + 1) == AsRead(rt, c.props["not"], fields)
    ensures EvalRaw(rt, c, fields, depth) == AsRead(rt, c, fields)
  {
    hide LooksLikeLeaf, Unconvertible;
  }

  /**
   On what the validator accepts the evaluator throws exactly when it comes to a leaf that throws, and
   otherwise answers the unbounded meaning of what it reads, so the cutoff is never reached.
   */
  lemma {:induction false} ConditionIsRead(rt: Runtime, c: Json, path: seq<Step>, fields: map<string, FieldValue>,
                                           depth: nat)
    requires ConditionErrors(rt, c, path, depth) == []
    ensures EvalRaw(rt, c, fields, depth) == AsRead(rt, c, fields)
    decreases c, 1
  {
    hide EvalRaw, AsRead, LeafErrors;
    if LooksLikeLeaf(c) {
      LeafIsRead(rt, c, fields, depth);
    } else if Has(c, "any") {
      ItemsAreRead(rt, c.props["any"], path + [Key("any")], fields, depth);
      AnyShapeIsRead(rt, c, fields, depth);
    } else if Has(c, "all") {
      ItemsAreRead(rt, c.props["all"], path + [Key("all")], fields, depth);
      AllShapeIsRead(rt, c, fields, depth);
    } else if Has(c, "not") {
      ConditionIsRead(rt, c.props["not"], path + [Key("not")], fields, depth + 1);
      NotShapeIsRead(rt, c, fields, depth);
    } else {
      LeafErrorsUnlessLeaf(rt, c, path);
    }
  }

  lemma LeafErrorsUnlessLeaf(rt: Runtime, c: Json, path: seq<Step>)
    requires LeafErrors(rt, c, path) == []
    ensures LooksLikeLeaf(c)
  {
    hide ParseOperator, ValueErrors;
  }

  lemma {:induction false} ItemsAreRead(rt: Runtime, list: Json, path: seq<Step>, fields: map<string, FieldValue>,
                                        depth: nat)
    requires list.Arr? && ItemErrors(rt, list, path, depth, 0) == []
    ensures forall k :: 0 <= k < |list.items| ==>
              EvalRaw(rt, list.items[k], fields, depth + 1) == AsRead(rt, list.items[k], fields)
    decreases list, 0
  {
    hide ConditionErrors, EvalRaw, AsRead;
    forall k | 0 <= k < |list.items|
      ensures EvalRaw(rt, list.items[k], fields, depth + 1) == AsRead(rt, list.items[k], fields)
    {
      AcceptedItem(rt, list, path, depth, 0, k);
      ConditionIsRead(rt, list.items[k], path + [Index(k)], fields, depth + 1);
    }
  }

  /** Without a risky leaf nothing throws, on any request. */
  lemma {:induction false} SafeNeverThrows(rt: Runtime, c: Json, fields: map<string, FieldValue>)
    requires Safe(c)
    ensures !ThrowsOn(rt, c, fields)
    decreases c, 1
  {
    hide Unconvertible, Present, Meaning;
    if !LooksLikeLeaf(c) {
      if Has(c, "any") {
        SafeItemsNeverThrow(rt, c.props["any"], fields);
      } else if Has(c, "all") {
        SafeItemsNeverThrow(rt, c.props["all"], fields);
      } else if Has(c, "not") {
        SafeNeverThrows(rt, c.props["not"], fields);
      }
    }
  }

  lemma {:induction false} SafeItemsNeverThrow(rt: Runtime, list: Json, fields: map<string, FieldValue>)
    requires list.Arr? ==> ItemsSafe(list)
    ensures !ListThrows(rt, list, fields, true, 0) && !ListThrows(rt, list, fields, false, 0)
    decreases list, 0
  {
    hide ThrowsOn, Safe;
    if list.Arr? {
      forall i | 0 <= i < |list.items| ensures !ThrowsOn(rt, list.items[i], fields) {
        SafeNeverThrows(rt, list.items[i], fields);
      }
    }
  }

  /** The values that the validator looked at convert, so only mixed shapes can throw. */
  lemma {:induction false} AcceptedPlainIsSafe(rt: Runtime, c: Json, path: seq<Step>, depth: nat)
    requires ConditionErrors(rt, c, path, depth) == [] && Plain(c)
    ensures Safe(c)
    decreases c, 1
  {
    hide ParseOperator, RegexErrors;
    if Has(c, "any") {
      AcceptedPlainItemsAreSafe(rt, c.props["any"], path + [Key("any")], depth);
    } else if Has(c, "all") {
      AcceptedPlainItemsAreSafe(rt, c.props["all"], path + [Key("all")], depth);
    } else if Has(c, "not") {
      AcceptedPlainIsSafe(rt, c.props["not"], path + [Key("not")], depth + 1);
    }
  }

  lemma {:induction false} AcceptedPlainItemsAreSafe(rt: Runtime, list: Json, path: seq<Step>, depth: nat)
    requires list.Arr? && ItemErrors(rt, list, path, depth, 0) == [] && ItemsPlain(list)
    ensures ItemsSafe(list)
    decreases list, 0
  {
    hide ConditionErrors, Safe, Plain;
    forall i | 0 <= i < |list.items| ensures Safe(list.items[i]) {
      AcceptedItem(rt, list, path, depth, 0, i);
      AcceptedPlainIsSafe(rt, list.items[i], path + [Index(i)], depth + 1);
    }
  }

  /** What it reads nests within the limit, so the cutoff is never reached. */
  lemma {:induction false} ReadNests(rt: Runtime, c: Json, path: seq<Step>, depth: nat)
    requires ConditionErrors(rt, c, path, depth) == []
    ensures depth <= MAX_CONDITION_DEPTH && NestsWithin(AsEvaluated(rt, c), MAX_CONDITION_DEPTH - depth)
    decreases c
  {
    if !LooksLikeLeaf(c) {
      if Has(c, "any") {
        ReadItemsNest(rt, c.props["any"], path + [Key("any")], depth);
      } else if Has(c, "all") {
        ReadItemsNest(rt, c.props["all"], path + [Key("all")], depth);
      } else if Has(c, "not") {
        ReadNests(rt, c.props["not"], path + [Key("not")], depth + 1);
      }
    }
  }

  lemma {:induction false} ReadItemsNest(rt: Runtime, list: Json, path: seq<Step>, depth: nat)
    requires list.Arr? && ItemErrors(rt, list, path, depth, 0) == []
    ensures forall i :: 0 <= i < |list.items| ==>
            NestsWithin(ItemsAsEvaluated(rt, list)[i], MAX_CONDITION_DEPTH - depth - 1)
    decreases list
  {
    hide ConditionErrors, NestsWithin, AsEvaluated;
    forall i | 0 <= i < |list.items|
      ensures NestsWithin(ItemsAsEvaluated(rt, list)[i], MAX_CONDITION_DEPTH - depth - 1)
    {
      AcceptedItem(rt, list, path, depth, 0, i);
      ReadNests(rt, list.items[i], path + [Index(i)], depth + 1);
    }
  }

  lemma {:induction false} ItemReadingsAgreeIff(rt: Runtime, list: Json, path: seq<Step>, depth: nat)
    requires list.Arr? && depth <= MAX_CONDITION_DEPTH && ItemErrors(rt, list, path, depth, 0) == []
    ensures DecodeItems(list, 0) == Some(ItemsAsEvaluated(rt, list))
            <==> ItemsPlain(list)
    decreases list, 0
  {
    hide ConditionErrors, Decode, DecodeItems, AsEvaluated, Plain, NestsWithin;
    AcceptedItems(rt, list, path, depth, 0);
    var cs, ds := DecodeItems(list, 0).value, ItemsAsEvaluated(rt, list);
    forall i | 0 <= i < |list.items| ensures cs[i] == ds[i] <==> Plain(list.items[i]) {
      assert Decode(list.items[0 + i]) == Some(cs[i]);
      AcceptedItem(rt, list, path, depth, 0, i);
      ReadingsAgreeIff(rt, list.items[i], path + [Index(i)], depth + 1);
    }
    assert cs == ds <==> forall i :: 0 <= i < |list.items| ==> cs[i] == ds[i];
  }

  /**
   The validator and the evaluator read an accepted condition alike if and only if it is plain: no
   object on the validator's way has `field` and `operator` beside the `any`, `all` or `not` it goes by.
   */
  lemma {:induction false} ReadingsAgreeIff(rt: Runtime, c: Json, path: seq<Step>, depth: nat)
    requires ConditionErrors(rt, c, path, depth) == []
    ensures Decode(c) == Some(AsEvaluated(rt, c)) <==> Plain(c)
    decreases c, 1
  {
    hide ParseOperator, ValueErrors;
    AcceptedDecodes(rt, c, path, depth);
    if Has(c, "any") {
      AcceptedItems(rt, c.props["any"], path + [Key("any")], depth, 0);
      ItemReadingsAgreeIff(rt, c.props["any"], path + [Key("any")], depth);
    } else if Has(c, "all") {
      AcceptedItems(rt, c.props["all"], path + [Key("all")], depth, 0);
      ItemReadingsAgreeIff(rt, c.props["all"], path + [Key("all")], depth);
    } else if Has(c, "not") {
      ReadingsAgreeIff(rt, c.props["not"], path + [Key("not")], depth + 1);
    }
  }

  /**
   What validation guarantees: a condition without validation errors never reaches the depth cutoff. It
   throws exactly on the requests that lead it to a leaf with something that does not convert, and otherwise
   evaluates to the unbounded boolean meaning of what the evaluator reads. If it is plain, that is what was
   validated, and it never throws.
   */
  lemma AcceptedConditionsEvaluateExactly(rt: Runtime, c: Json, path: seq<Step>, fields: map<string, FieldValue>)
    requires ConditionErrors(rt, c, path, 0) == []
    ensures EvalRaw(rt, c, fields, 0) == AsRead(rt, c, fields)
    ensures Decode(c).Some? && (Decode(c).value == AsEvaluated(rt, c) <==> Plain(c))
    ensures Plain(c) ==> EvalRaw(rt, c, fields, 0) == Value(Meaning(rt, Decode(c).value, fields))
  {
    hide ConditionErrors, EvalRaw, Meaning, Decode, AsEvaluated, Plain, NestsWithin, ThrowsOn, Safe;
    ConditionIsRead(rt, c, path, fields, 0);
    AcceptedDecodes(rt, c, path, 0);
    ReadingsAgreeIff(rt, c, path, 0);
    if Plain(c) {
      AcceptedPlainIsSafe(rt, c, path, 0);
      SafeNeverThrows(rt, c, fields);
    }
  }

  function ExistsLeaf(field: string): Json {
    Obj(map["field" := Str(field), "operator" := Str("exists")])
  }

  /**
   Why mixed shapes are excluded: an object with `field`, `operator` and `not` is validated as a
   negation and evaluated as a leaf.
   */
  lemma MixedShapesAreReadTwoWays(rt: Runtime)
    ensures var c := Obj(map["field" := Str("a"), "operator" := Str("exists"), "not" := ExistsLeaf("a")]);
            var fields := map["a" := Flag(true)];
            && ConditionErrors(rt, c, [], 0) == []
            && Decode(c) == Some(Not(Leaf("a", Exists, None)))
            && EvalRaw(rt, c, fields, 0) == Value(true)
            && !Meaning(rt, Decode(c).value, fields)
  {
    var leaf := ExistsLeaf("a");
    var c := Obj(map["field" := Str("a"), "operator" := Str("exists"), "not" := leaf]);
    assert ParseOperator("exists") == Some(Exists);
    assert ConditionErrors(rt, c, [], 0) == [] by {
      assert LeafErrors(rt, leaf, [Key("not")]) == [];
      assert ConditionErrors(rt, leaf, [Key("not")], 1) == [];
      assert [] + [Key("not")] == [Key("not")];
    }
    hide ConditionErrors, LeafErrors, ValueErrors, ParseOperator, Inherited;
    assert Decode(leaf) == Some(Leaf("a", Exists, None));
  }

  function Own(name: string): Json {
    Obj(map[name := Num(1.0)])
  }

  lemma AnyOfAccepted(rt: Runtime, rest: map<string, Json>)
    requires "any" !in rest
    ensures ConditionErrors(rt, Obj(rest["any" := Arr([ExistsLeaf("a")])]), [], 0) == []
  {
    var leaf, list := ExistsLeaf("a"), Arr([ExistsLeaf("a")]);
    assert ParseOperator("exists") == Some(Exists);
    assert LeafErrors(rt, leaf, [Key("any"), Index(0)]) == [];
    assert [] + [Key("any")] == [Key("any")] && [Key("any")] + [Index(0)] == [Key("any"), Index(0)];
    assert ConditionErrors(rt, leaf, [Key("any"), Index(0)], 1) == [];
    assert ItemErrors(rt, list, [Key("any")], 0, 1) == [];
  }

  /** An accepted condition that throws on every request: nobody validated its `field`. */
  lemma UnvalidatedFieldThrows(rt: Runtime, fields: map<string, FieldValue>)
    ensures var c := Obj(map["field" := Own("toString"), "operator" := Str("exists"), "any" := Arr([ExistsLeaf("a")])]);
            ConditionErrors(rt, c, [], 0) == [] && EvalRaw(rt, c, fields, 0) == Throws
  {
    AnyOfAccepted(rt, map["field" := Own("toString"), "operator" := Str("exists")]);
  }

  /** And one that throws exactly on the requests that have its field: nobody validated its `value`. */
  lemma UnvalidatedValueThrowsIff(rt: Runtime, fields: map<string, FieldValue>)
    ensures var rest := map["field" := Str("a"), "operator" := Str("lt"), "value" := Own("toString")];
            var c := Obj(rest["any" := Arr([ExistsLeaf("a")])]);
            ConditionErrors(rt, c, [], 0) == [] && (EvalRaw(rt, c, fields, 0) == Throws <==> "a" in fields)
  {
    var rest := map["field" := Str("a"), "operator" := Str("lt"), "value" := Own("toString")];
    AnyOfAccepted(rt, rest);
    var c := Obj(rest["any" := Arr([ExistsLeaf("a")])]);
    hide ConditionErrors;
    assert OperatorOf(Get(c, "operator")) == Some(Lt) && FieldName(rt, c.props["field"]) == Some("a");
    assert Unconvertible(c.props["value"]) && !Inherited("a");
    hide OperatorOf, FieldName, Unconvertible, Inherited, EvaluateLeaf;
  }

  // ---------------------------------------------------------------- whole documents

  function StringErrors(list: Option<Json>, path: seq<Step>): seq<PolicyError> {
    if list.None? || !list.value.Arr? || list.value.items == [] then [PolicyError(path, NotANonEmptyArray)]
    else TextItemErrors(list.value.items, path, 0)
  }

  function TextItemErrors(items: seq<Json>, path: seq<Step>, i: nat): seq<PolicyError>
    requires i <= |items|
    decreases |items| - i
  {
    if i == |items| then []
    else (if items[i].Str? && items[i].text != [] then [] else [PolicyError(path + [Index(i)], NotANonEmptyString)])
         + TextItemErrors(items, path, i + 1)
  }

  function ConditionListErrors(rt: Runtime, items: seq<Json>, path: seq<Step>, i: nat): seq<PolicyError>
    requires i <= |items|
    decreases |items| - i
  {
    if i == |items| then []
    else ConditionErrors(rt, items[i], path + [Index(i)], 0) + ConditionListErrors(rt, items, path, i + 1)
  }

  /** `validateStatement` */
  function StatementErrors(rt: Runtime, s: Json, path: seq<Step>): seq<PolicyError> {
    if !IsObject(s) then [PolicyError(path, NotAnObject)]
    else
      (if Get(s, "effect") == Some(Str("allow")) || Get(s, "effect") == Some(Str("deny")) then []
       else [PolicyError(path + [Key("effect")], BadEffect)])
      + StringErrors(Get(s, "actions"), path + [Key("actions")])
      + StringErrors(Get(s, "resources"), path + [Key("resources")])
      + match Get(s, "conditions")
        case None => []
        case Some(cs) =>
          if cs.Arr? then ConditionListErrors(rt, cs.items, path + [Key("conditions")], 0)
          else [PolicyError(path + [Key("conditions")], NotAnArray)]
  }

  function StatementListErrors(rt: Runtime, items: seq<Json>, i: nat): seq<PolicyError>
    requires i <= |items|
    decreases |items| - i
  {
    if i == |items| then []
    else StatementErrors(rt, items[i], [Key("statements"), Index(i)]) + StatementListErrors(rt, items, i + 1)
  }

  /** `validatePolicy` */
  function PolicyErrors(rt: Runtime, policy: Json): seq<PolicyError> {
    if !IsObject(policy) then [PolicyError([], NotAnObject)]
    else
      (if Get(policy, "version") == Some(Str(POLICY_VERSION)) then [] else [PolicyError([Key("version")], BadVersion)])
      + match Get(policy, "statements")
        case Some(list) =>
          if list.Arr? && list.items != [] then StatementListErrors(rt, list.items, 0)
          else [PolicyError([Key("statements")], NotANonEmptyArray)]
        case None => [PolicyError([Key("statements")], NotANonEmptyArray)]
  }

  function Texts(list: Option<Json>): seq<string> {
    if list.Some? && list.value.Arr?
    then seq(|list.value.items|, i requires 0 <= i < |list.value.items| =>
      if list.value.items[i].Str? then list.value.items[i].text else [])
    else []
  }

  function ConditionsOf(s: Json): seq<Json> {
    match Get(s, "conditions")
    case Some(cs) => if cs.Arr? then cs.items else []
    case None => []
  }

  /** The typed statement; a condition that does not decode becomes one that never holds. */
  function DecodeStatement(s: Json): Statement {
    var cs := ConditionsOf(s);
    Statement(
      if Get(s, "effect") == Some(Str("deny")) then Deny else Allow,
      Texts(Get(s, "actions")),
      Texts(Get(s, "resources")),
      seq(|cs|, i requires 0 <= i < |cs| => Decode(cs[i]).GetOr(Any([]))))
  }

  function StatementsOf(policy: Json): seq<Json> {
    match Get(policy, "statements")
    case Some(list) => if list.Arr? then list.items else []
    case None => []
  }

  function DecodePolicy(policy: Json): PolicyDocument {
    var ss := StatementsOf(policy);
    PolicyDocument(seq(|ss|, i requires 0 <= i < |ss| => DecodeStatement(ss[i])))
  }

  lemma {:induction false} AcceptedConditionList(rt: Runtime, items: seq<Json>, path: seq<Step>, i: nat, j: nat)
    requires i <= j < |items| && ConditionListErrors(rt, items, path, i) == []
    ensures ConditionErrors(rt, items[j], path + [Index(j)], 0) == []
    decreases |items| - i
  {
    hide ConditionErrors;
    if i < j { AcceptedConditionList(rt, items, path, i + 1, j); }
  }

  lemma {:induction false} AcceptedStatementList(rt: Runtime, items: seq<Json>, i: nat, j: nat)
    requires i <= j < |items| && StatementListErrors(rt, items, i) == []
    ensures StatementErrors(rt, items[j], [Key("statements"), Index(j)]) == []
    decreases |items| - i
  {
    hide StatementErrors;
    if i < j { AcceptedStatementList(rt, items, i + 1, j); }
  }

  /** The statement matches under the unbounded reading of its conditions. */
  predicate MeansMatch(rt: Runtime, s: Statement, ctx: RequestContext) {
    && MatchesAction(s.actions, ctx.action)
    && MatchesResource(s.resources, ctx.resource)
    && forall i :: 0 <= i < |s.conditions| ==> Meaning(rt, s.conditions[i], ctx.fields)
  }

  /** Deny first, under the unbounded reading. */
  predicate MeansAllow(rt: Runtime, policy: PolicyDocument, ctx: RequestContext) {
    && (exists s <- policy.statements :: s.effect.Allow? && MeansMatch(rt, s, ctx))
    && (forall s <- policy.statements :: s.effect.Deny? ==> !MeansMatch(rt, s, ctx))
  }

  lemma AcceptedConditionOf(rt: Runtime, s: Json, path: seq<Step>, i: nat)
    requires StatementErrors(rt, s, path) == [] && i < |ConditionsOf(s)|
    ensures ConditionErrors(rt, ConditionsOf(s)[i], path + [Key("conditions")] + [Index(i)], 0) == []
  {
    hide ConditionErrors;
    AcceptedConditionList(rt, ConditionsOf(s), path + [Key("conditions")], 0, i);
  }

  /** An accepted statement, decoded, matches by the unbounded meaning of its conditions. */
  lemma AcceptedStatement(rt: Runtime, s: Json, path: seq<Step>, ctx: RequestContext)
    requires StatementErrors(rt, s, path) == []
    ensures MatchesStatement(rt, DecodeStatement(s), ctx) <==> MeansMatch(rt, DecodeStatement(s), ctx)
    ensures forall i :: 0 <= i < |ConditionsOf(s)| ==>
            Decode(ConditionsOf(s)[i]) == Some(DecodeStatement(s).conditions[i])
  {
    hide StatementErrors, ConditionErrors, EvaluateCondition, Decode, Meaning, ConditionsOf, NestsWithin;
    var cs, d := ConditionsOf(s), DecodeStatement(s);
    forall i | 0 <= i < |cs|
      ensures Decode(cs[i]) == Some(d.conditions[i])
      ensures EvaluateCondition(rt, d.conditions[i], ctx.fields, 0) <==> Meaning(rt, d.conditions[i], ctx.fields)
    {
      AcceptedConditionOf(rt, s, path, i);
      AcceptedDecodes(rt, cs[i], path + [Key("conditions")] + [Index(i)], 0);
      BoundedIsExact(rt, d.conditions[i], ctx.fields, 0);
    }
  }

  /**
   A policy without validation errors decides by the unbounded meaning of its conditions: allowed if
   and only if some allow statement means to match and no deny statement does.
   */
  lemma AcceptedPoliciesDecideExactly(rt: Runtime, policy: Json, ctx: RequestContext)
    requires PolicyErrors(rt, policy) == []
    ensures DecodePolicy(policy).statements != []
    ensures Allows(rt, DecodePolicy(policy), ctx) <==> MeansAllow(rt, DecodePolicy(policy), ctx)
  {
    hide ConditionErrors, StatementErrors, EvaluateCondition, Decode, DecodeStatement, Meaning, MatchesStatement,
      MeansMatch;
    var raw, doc := StatementsOf(policy), DecodePolicy(policy);
    forall s | s in doc.statements
      ensures MatchesStatement(rt, s, ctx) <==> MeansMatch(rt, s, ctx)
    {
      var i :| 0 <= i < |raw| && doc.statements[i] == s;
      AcceptedStatementList(rt, raw, 0, i);
      AcceptedStatement(rt, raw[i], [Key("statements"), Index(i)], ctx);
    }
  }

  // ---------------------------------------------------------------- the engine on the document as stored

  /** The conditions of a statement, in order, up to the first that fails or throws. */
  function ConditionsHold(rt: Runtime, cs: seq<Json>, fields: map<string, FieldValue>): Outcome {
    EveryHolds(rt, Arr(cs), fields, 0, 0)
  }

  /** `matchesStatement` on a stored statement whose lists are lists of texts. */
  function RawMatches(rt: Runtime, s: Json, ctx: RequestContext): Outcome {
    if !MatchesAction(Texts(Get(s, "actions")), ctx.action) then Value(false)
    else if !MatchesResource(Texts(Get(s, "resources")), ctx.resource) then Value(false)
    else ConditionsHold(rt, ConditionsOf(s), ctx.fields)
  }

  predicate IsDeny(s: Json) {
    Get(s, "effect") == Some(Str("deny"))
  }

  /** `evaluatePolicyForContext`, with what is allowed so far. */
  function RawDecision(rt: Runtime, ss: seq<Json>, ctx: RequestContext, allowed: bool): Outcome {
    if ss == [] then Value(allowed)
    else match RawMatches(rt, ss[0], ctx)
      case Throws => Throws
      case Value(matched) =>
        if matched && IsDeny(ss[0]) then Value(false)
        else RawDecision(rt, ss[1..], ctx, allowed || matched)
  }

  /** The statement and the policy that the engine reads. */
  function StatementAsEvaluated(rt: Runtime, s: Json): Statement {
    DecodeStatement(s).(conditions := ItemsAsEvaluated(rt, Arr(ConditionsOf(s))))
  }

  function PolicyAsEvaluated(rt: Runtime, policy: Json): PolicyDocument {
    var ss := StatementsOf(policy);
    PolicyDocument(seq(|ss|, i requires 0 <= i < |ss| => StatementAsEvaluated(rt, ss[i])))
  }

  /** Matching the statement throws: it gets to its conditions, and they throw before one of them fails. */
  predicate StatementThrows(rt: Runtime, s: Json, ctx: RequestContext) {
    && MatchesAction(Texts(Get(s, "actions")), ctx.action)
    && MatchesResource(Texts(Get(s, "resources")), ctx.resource)
    && ListThrows(rt, Arr(ConditionsOf(s)), ctx.fields, false, 0)
  }

  /** A statement after which the engine goes on: no throw, and no deny that matches. */
  predicate LeavesOpen(rt: Runtime, s: Json, ctx: RequestContext) {
    !StatementThrows(rt, s, ctx) && !(IsDeny(s) && MeansMatch(rt, StatementAsEvaluated(rt, s), ctx))
  }

  /** The decision throws: some statement does, and no deny before it matches. */
  predicate PolicyThrows(rt: Runtime, ss: seq<Json>, ctx: RequestContext) {
    exists k :: && 0 <= k < |ss| && StatementThrows(rt, ss[k], ctx)
                && forall j :: 0 <= j < k ==> LeavesOpen(rt, ss[j], ctx)
  }

  predicate PlainStatement(s: Json) {
    forall i :: 0 <= i < |ConditionsOf(s)| ==> Plain(ConditionsOf(s)[i])
  }

  predicate PlainPolicy(policy: Json) {
    forall i :: 0 <= i < |StatementsOf(policy)| ==> PlainStatement(StatementsOf(policy)[i])
  }

  predicate SafePolicy(policy: Json) {
    forall i :: 0 <= i < |StatementsOf(policy)| ==> ItemsSafe(Arr(ConditionsOf(StatementsOf(policy)[i])))
  }

  /**
   Matching an accepted statement throws exactly when its conditions lead to a throw, and otherwise answers
   the meaning of what the engine reads.
   */
  lemma AcceptedStatementMatches(rt: Runtime, s: Json, path: seq<Step>, ctx: RequestContext)
    requires StatementErrors(rt, s, path) == []
    ensures RawMatches(rt, s, ctx)
            == if StatementThrows(rt, s, ctx) then Throws else Value(MeansMatch(rt, StatementAsEvaluated(rt, s), ctx))
  {
    hide StatementErrors, ConditionErrors, EvalRaw, Meaning, AsEvaluated, ConditionsOf, ThrowsOn, ListThrows;
    var cs := ConditionsOf(s);
    forall i | 0 <= i < |cs| ensures EvalRaw(rt, cs[i], ctx.fields, 0) == AsRead(rt, cs[i], ctx.fields) {
      AcceptedConditionOf(rt, s, path, i);
      ConditionIsRead(rt, cs[i], path + [Key("conditions")] + [Index(i)], ctx.fields, 0);
    }
    ListIsRead(rt, Arr(cs), ctx.fields, 0, 0);
  }

  /** It is read as it was validated if and only if its conditions are plain. */
  lemma StatementReadingsAgreeIff(rt: Runtime, s: Json, path: seq<Step>)
    requires StatementErrors(rt, s, path) == []
    ensures StatementAsEvaluated(rt, s) == DecodeStatement(s) <==> PlainStatement(s)
    ensures PlainStatement(s) ==> ItemsSafe(Arr(ConditionsOf(s)))
  {
    hide StatementErrors, ConditionErrors, AsEvaluated, ConditionsOf, Decode, Plain, NestsWithin, Safe;
    var cs, d, e := ConditionsOf(s), DecodeStatement(s), StatementAsEvaluated(rt, s);
    forall i | 0 <= i < |cs|
      ensures e.conditions[i] == d.conditions[i] <==> Plain(cs[i])
      ensures Plain(cs[i]) ==> Safe(cs[i])
    {
      AcceptedConditionOf(rt, s, path, i);
      AcceptedDecodes(rt, cs[i], path + [Key("conditions")] + [Index(i)], 0);
      ReadingsAgreeIff(rt, cs[i], path + [Key("conditions")] + [Index(i)], 0);
      if Plain(cs[i]) { AcceptedPlainIsSafe(rt, cs[i], path + [Key("conditions")] + [Index(i)], 0); }
    }
    assert e.conditions == d.conditions <==> forall i :: 0 <= i < |cs| ==> e.conditions[i] == d.conditions[i];
  }

  lemma PolicyThrowsStep(rt: Runtime, ss: seq<Json>, ctx: RequestContext)
    requires ss != []
    ensures PolicyThrows(rt, ss, ctx)
            <==> StatementThrows(rt, ss[0], ctx) || (LeavesOpen(rt, ss[0], ctx) && PolicyThrows(rt, ss[1..], ctx))
  {
    hide StatementThrows, LeavesOpen;
    var rest := ss[1..];
    if PolicyThrows(rt, rest, ctx) && LeavesOpen(rt, ss[0], ctx) {
      var k :| && 0 <= k < |rest| && StatementThrows(rt, rest[k], ctx)
               && forall j :: 0 <= j < k ==> LeavesOpen(rt, rest[j], ctx);
      assert StatementThrows(rt, ss[k + 1], ctx);
      assert forall j :: 0 < j < k + 1 ==> ss[j] == rest[j - 1];
    }
    if PolicyThrows(rt, ss, ctx) && !StatementThrows(rt, ss[0], ctx) {
      var k :| && 0 <= k < |ss| && StatementThrows(rt, ss[k], ctx)
               && forall j :: 0 <= j < k ==> LeavesOpen(rt, ss[j], ctx);
      assert StatementThrows(rt, rest[k - 1], ctx);
      assert forall j :: 0 <= j < k - 1 ==> rest[j] == ss[j + 1];
    }
  }

  /** The statement is matched as `AcceptedStatementMatches` says, and `d` is what the engine reads. */
  predicate ReadAs(rt: Runtime, s: Json, d: Statement, ctx: RequestContext) {
    && d == StatementAsEvaluated(rt, s)
    && RawMatches(rt, s, ctx) == if StatementThrows(rt, s, ctx) then Throws else Value(MeansMatch(rt, d, ctx))
  }

  /** What is allowed so far, and what the statements say on top of it. */
  predicate Decides(rt: Runtime, ds: seq<Statement>, ctx: RequestContext, allowed: bool) {
    && (allowed || exists i :: 0 <= i < |ds| && ds[i].effect.Allow? && MeansMatch(rt, ds[i], ctx))
    && forall i :: 0 <= i < |ds| && ds[i].effect.Deny? ==> !MeansMatch(rt, ds[i], ctx)
  }

  lemma DecidesStep(rt: Runtime, ds: seq<Statement>, ctx: RequestContext, allowed: bool)
    requires ds != []
    ensures Decides(rt, ds, ctx, allowed)
            <==> && !(ds[0].effect.Deny? && MeansMatch(rt, ds[0], ctx))
                 && Decides(rt, ds[1..], ctx, allowed || MeansMatch(rt, ds[0], ctx))
  {
    hide MeansMatch;
    assert forall i :: 0 <= i < |ds| - 1 ==> ds[1..][i] == ds[i + 1];
    assert forall i :: 0 < i < |ds| ==> ds[i] == ds[1..][i - 1];
  }

  lemma {:induction false} RawDecisionIs(rt: Runtime, ss: seq<Json>, ds: seq<Statement>, ctx: RequestContext,
                                         allowed: bool)
    requires |ss| == |ds| && forall i :: 0 <= i < |ss| ==> ReadAs(rt, ss[i], ds[i], ctx)
    ensures RawDecision(rt, ss, ctx, allowed)
            == if PolicyThrows(rt, ss, ctx) then Throws else Value(Decides(rt, ds, ctx, allowed))
  {
    hide RawMatches, MeansMatch, StatementThrows, PolicyThrows;
    if ss != [] {
      PolicyThrowsStep(rt, ss, ctx);
      DecidesStep(rt, ds, ctx, allowed);
      assert ReadAs(rt, ss[0], ds[0], ctx) && (ds[0].effect.Deny? <==> IsDeny(ss[0]));
      hide Decides, StatementAsEvaluated, IsDeny;
      if !StatementThrows(rt, ss[0], ctx) {
        RawDecisionIs(rt, ss[1..], ds[1..], ctx, allowed || MeansMatch(rt, ds[0], ctx));
      }
    } else {
      NoStatementThrows(rt, ctx);
    }
  }

  lemma NoStatementThrows(rt: Runtime, ctx: RequestContext)
    ensures !PolicyThrows(rt, [], ctx)
  {
  }

  /**
   The engine run on any stored policy that the validator accepted throws exactly when some statement leads
   to a throw before a matching deny, and otherwise decides by the unbounded meaning of what it reads. That
   is the policy which was validated if and only if no condition has two shapes.
   */
  lemma StoredPoliciesDecideAsRead(rt: Runtime, policy: Json, ctx: RequestContext)
    requires PolicyErrors(rt, policy) == []
    ensures RawDecision(rt, StatementsOf(policy), ctx, false)
            == if PolicyThrows(rt, StatementsOf(policy), ctx) then Throws
               else Value(MeansAllow(rt, PolicyAsEvaluated(rt, policy), ctx))
    ensures PolicyAsEvaluated(rt, policy) == DecodePolicy(policy) <==> PlainPolicy(policy)
    ensures PlainPolicy(policy) ==> SafePolicy(policy)
  {
    hide StatementErrors, RawMatches, MeansMatch, PlainStatement, Decode, AsEvaluated, ConditionsOf, StatementThrows,
      PolicyThrows, StatementAsEvaluated, ItemsSafe;
    var raw, doc := StatementsOf(policy), PolicyAsEvaluated(rt, policy);
    forall i | 0 <= i < |raw|
      ensures ReadAs(rt, raw[i], doc.statements[i], ctx)
      ensures doc.statements[i] == DecodePolicy(policy).statements[i] <==> PlainStatement(raw[i])
      ensures PlainStatement(raw[i]) ==> ItemsSafe(Arr(ConditionsOf(raw[i])))
    {
      AcceptedStatementList(rt, raw, 0, i);
      AcceptedStatementMatches(rt, raw[i], [Key("statements"), Index(i)], ctx);
      StatementReadingsAgreeIff(rt, raw[i], [Key("statements"), Index(i)]);
    }
    RawDecisionIs(rt, raw, doc.statements, ctx, false);
    var read, decoded := doc.statements, DecodePolicy(policy).statements;
    assert read == decoded <==> forall i :: 0 <= i < |raw| ==> read[i] == decoded[i];
  }

  /** A policy without risky leaves throws on no request. */
  lemma SafePoliciesNeverThrow(rt: Runtime, policy: Json, ctx: RequestContext)
    requires SafePolicy(policy)
    ensures !PolicyThrows(rt, StatementsOf(policy), ctx)
  {
    hide ListThrows, ItemsSafe;
    var ss := StatementsOf(policy);
    forall i | 0 <= i < |ss| ensures !StatementThrows(rt, ss[i], ctx) {
      SafeItemsNeverThrow(rt, Arr(ConditionsOf(ss[i])), ctx.fields);
    }
  }

  /** So accepted policies of one shape never throw, and the engine answers what the validated policy means. */
  lemma StoredPoliciesDecideExactly(rt: Runtime, policy: Json, ctx: RequestContext)
    requires PolicyErrors(rt, policy) == [] && PlainPolicy(policy)
    ensures RawDecision(rt, StatementsOf(policy), ctx, false) == Value(Allows(rt, DecodePolicy(policy), ctx))
  {
    hide PolicyErrors, PlainPolicy, RawDecision, MeansAllow, Allows, SafePolicy, PolicyThrows;
    StoredPoliciesDecideAsRead(rt, policy, ctx);
    SafePoliciesNeverThrow(rt, policy, ctx);
    AcceptedPoliciesDecideExactly(rt, policy, ctx);
  }
}
