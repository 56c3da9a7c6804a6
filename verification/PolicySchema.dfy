/**
 The schema that a policy passes on its way in (`src/routes/admin-schemas.ts`, lines 16-67), before the
 create route validates and stores it (`src/routes/admin-keys.ts`). The schema answers with a copy that has
 the listed properties only, so what is stored is the copy. A union takes its first alternative that fits.
 */
module PolicySchema {
  import opened Prelude
  import opened PolicyTypes
  import opened PolicyEngine
  import opened PolicyValidation
  import A = PolicyAcceptance

  predicate NonEmptyText(j: Option<Json>) {
    j.Some? && j.value.Str? && j.value.text != []
  }

  predicate NonEmptyTexts(j: Option<Json>) {
    j.Some? && j.value.Arr? && j.value.items != [] && forall i :: 0 <= i < |j.value.items| ==>
      NonEmptyText(Some(j.value.items[i]))
  }

  predicate ConditionValue(j: Json) {
    j.Str? || j.Bool? || (j.Arr? && forall i :: 0 <= i < |j.items| ==> j.items[i].Str?)
  }

  predicate FitsLeaf(c: Json) {
    NonEmptyText(Get(c, "field")) && OperatorOf(Get(c, "operator")).Some?
      && (Has(c, "value") ==> ConditionValue(c.props["value"]))
  }

  function LeafCopy(c: Json): Json
    requires FitsLeaf(c)
  {
    Obj(map["field" := c.props["field"], "operator" := c.props["operator"]]
        + if Has(c, "value") then map["value" := c.props["value"]] else map[])
  }

  function ConditionCopy(c: Json): Option<Json>
    decreases c, 0
  {
    if FitsLeaf(c) then Some(LeafCopy(c))
    else if Has(c, "any") && ListCopy(c.props["any"]).Some? then Some(Obj(map["any" := ListCopy(c.props["any"]).value]))
    else if Has(c, "all") && ListCopy(c.props["all"]).Some? then Some(Obj(map["all" := ListCopy(c.props["all"]).value]))
    else if Has(c, "not") && ConditionCopy(c.props["not"]).Some?
      then Some(Obj(map["not" := ConditionCopy(c.props["not"]).value]))
    else None
  }

  /** `z.array(conditionSchema).min(1)` */
  function ListCopy(list: Json): Option<Json>
    decreases list, 1
  {
    if list.Arr? && list.items != [] && forall i :: 0 <= i < |list.items| ==> ConditionCopy(list.items[i]).Some?
    then Some(Arr(seq(|list.items|, i requires 0 <= i < |list.items| => ConditionCopy(list.items[i]).value)))
    else None
  }

  predicate FitsStatement(s: Json) {
    && Get(s, "effect") in {Some(Str("allow")), Some(Str("deny"))}
    && NonEmptyTexts(Get(s, "actions")) && NonEmptyTexts(Get(s, "resources"))
    && (Has(s, "conditions")
        ==> s.props["conditions"].Arr? && (s.props["conditions"].items != [] ==> ListCopy(s.props["conditions"]).Some?))
  }

  function StatementCopy(s: Json): Option<Json> {
    if !FitsStatement(s) then None
    else
      var rest := map["effect" := s.props["effect"], "actions" := s.props["actions"],
                      "resources" := s.props["resources"]];
      Some(Obj(rest + if Has(s, "conditions") then map["conditions" := ListCopy(s.props["conditions"]).GetOr(Arr([]))]
               else map[]))
  }

  function PolicyCopy(p: Json): Option<Json> {
    var ss := StatementsOf(p);
    if Get(p, "version") == Some(Str(POLICY_VERSION)) && ss != [] && forall i :: 0 <= i < |ss| ==>
      StatementCopy(ss[i]).Some?
    then Some(Obj(map["version" := Str(POLICY_VERSION),
                      "statements" := Arr(seq(|ss|, i requires 0 <= i < |ss| => StatementCopy(ss[i]).value))]))
    else None
  }

  // ---------------------------------------------------------------- one shape each

  lemma LeafCopyFits(c: Json)
    requires FitsLeaf(c)
    ensures FitsLeaf(LeafCopy(c)) && LeafCopy(LeafCopy(c)) == LeafCopy(c) && Plain(LeafCopy(c))
  {
    hide ParseOperator, ConditionValue;
  }

  /** Whatever comes in, the copy is plain, and copying it again changes nothing. */
  lemma {:induction false} CopyIsPlain(c: Json)
    requires ConditionCopy(c).Some?
    ensures Plain(ConditionCopy(c).value) && ConditionCopy(ConditionCopy(c).value) == ConditionCopy(c)
    decreases c, 0
  {
    hide ParseOperator, ConditionValue;
    if FitsLeaf(c) {
      LeafCopyFits(c);
    } else if Has(c, "any") && ListCopy(c.props["any"]).Some? {
      ListCopyIsPlain(c.props["any"]);
    } else if Has(c, "all") && ListCopy(c.props["all"]).Some? {
      ListCopyIsPlain(c.props["all"]);
    } else {
      CopyIsPlain(c.props["not"]);
    }
  }

  lemma {:induction false} ListCopyIsPlain(list: Json)
    requires ListCopy(list).Some?
    ensures ListCopy(list).value.Arr? && ListCopy(ListCopy(list).value) == ListCopy(list)
    ensures var copy := ListCopy(list).value.items; forall i :: 0 <= i < |copy| ==> Plain(copy[i])
    decreases list, 1
  {
    hide ConditionCopy, Plain;
    var copy := ListCopy(list).value.items;
    forall i | 0 <= i < |list.items| ensures Plain(copy[i]) && ConditionCopy(copy[i]) == Some(copy[i]) {
      CopyIsPlain(list.items[i]);
    }
    assert seq(|copy|, i requires 0 <= i < |copy| => ConditionCopy(copy[i]).value) == copy;
  }

  lemma StatementCopyIsPlain(s: Json)
    requires StatementCopy(s).Some?
    ensures PlainStatement(StatementCopy(s).value)
  {
    hide ListCopy, Plain, NonEmptyTexts;
    var copy := StatementCopy(s).value;
    if Has(s, "conditions") && s.props["conditions"].items != [] {
      ListCopyIsPlain(s.props["conditions"]);
      assert ConditionsOf(copy) == ListCopy(s.props["conditions"]).value.items;
    } else if Has(s, "conditions") {
      assert ListCopy(s.props["conditions"]).None? by { EmptyListHasNoCopy(s.props["conditions"]); }
      assert ConditionsOf(copy) == [];
    } else {
      assert ConditionsOf(copy) == [];
    }
  }

  lemma EmptyListHasNoCopy(list: Json)
    requires list.Arr? && list.items == []
    ensures ListCopy(list).None?
  {
  }

  lemma PolicyCopyIsPlain(p: Json)
    requires PolicyCopy(p).Some?
    ensures PlainPolicy(PolicyCopy(p).value)
  {
    hide StatementCopy, PlainStatement;
    var ss, copy := StatementsOf(p), PolicyCopy(p).value;
    forall i | 0 <= i < |ss| ensures PlainStatement(StatementsOf(copy)[i]) {
      StatementCopyIsPlain(ss[i]);
    }
  }

  // ---------------------------------------------------------------- the copy says the same

  /** Every object is a leaf, or has one of `any`, `all` and `not`, and not two of these. */
  predicate OneShape(c: Json)
    decreases c, 0
  {
    c.Obj? &&
    if LooksLikeLeaf(c) then !Has(c, "any") && !Has(c, "all") && !Has(c, "not")
    else if Has(c, "any") then !Has(c, "all") && !Has(c, "not") && AllOneShape(c.props["any"])
    else if Has(c, "all") then !Has(c, "not") && AllOneShape(c.props["all"])
    else Has(c, "not") && OneShape(c.props["not"])
  }

  predicate AllOneShape(list: Json)
    decreases list, 1
  {
    list.Arr? && forall i :: 0 <= i < |list.items| ==> OneShape(list.items[i])
  }

  /** Whatever else an object of one shape carries, its copy decodes to the same condition. */
  lemma {:induction false} CopyMeansTheSame(c: Json)
    requires OneShape(c) && ConditionCopy(c).Some?
    ensures Decode(ConditionCopy(c).value) == Decode(c)
    decreases c, 0
  {
    hide ParseOperator, ConditionValue;
    if FitsLeaf(c) {
      assert LooksLikeLeaf(c);
    } else if Has(c, "any") && ListCopy(c.props["any"]).Some? {
      ListCopyMeansTheSame(c.props["any"], 0);
    } else if Has(c, "all") && ListCopy(c.props["all"]).Some? {
      ListCopyMeansTheSame(c.props["all"], 0);
    } else {
      CopyMeansTheSame(c.props["not"]);
    }
  }

  lemma {:induction false} ListCopyMeansTheSame(list: Json, i: nat)
    requires AllOneShape(list) && ListCopy(list).Some? && i <= |list.items|
    ensures ListCopy(list).value.Arr? && |ListCopy(list).value.items| == |list.items|
    ensures DecodeItems(ListCopy(list).value, i) == DecodeItems(list, i)
    decreases list, 1, |list.items| - i
  {
    hide OneShape, ConditionCopy, Decode;
    if i < |list.items| {
      CopyMeansTheSame(list.items[i]);
      ListCopyMeansTheSame(list, i + 1);
    }
  }

  predicate OneShapeStatement(s: Json) {
    forall i :: 0 <= i < |ConditionsOf(s)| ==> OneShape(ConditionsOf(s)[i])
  }

  lemma StatementCopyMeansTheSame(s: Json)
    requires OneShapeStatement(s) && StatementCopy(s).Some?
    ensures DecodeStatement(StatementCopy(s).value) == DecodeStatement(s)
  {
    hide OneShape, ConditionCopy, Decode;
    var copy := StatementCopy(s).value;
    assert Get(copy, "effect") == Get(s, "effect") && Get(copy, "actions") == Get(s, "actions")
           && Get(copy, "resources") == Get(s, "resources");
    var cs, ds := ConditionsOf(s), ConditionsOf(copy);
    assert |ds| == |cs| by {
      if Has(s, "conditions") && cs == [] { EmptyListHasNoCopy(s.props["conditions"]); }
    }
    forall i | 0 <= i < |cs| ensures Decode(ds[i]) == Decode(cs[i]) {
      assert ds[i] == ConditionCopy(cs[i]).value;
      CopyMeansTheSame(cs[i]);
    }
    assert DecodeStatement(copy).conditions == DecodeStatement(s).conditions;
  }

  /** So a policy whose conditions have one shape each is stored as it was sent. */
  lemma PolicyCopyMeansTheSame(p: Json)
    requires PolicyCopy(p).Some? && forall i :: 0 <= i < |StatementsOf(p)| ==> OneShapeStatement(StatementsOf(p)[i])
    ensures DecodePolicy(PolicyCopy(p).value) == DecodePolicy(p)
  {
    hide StatementCopy, OneShapeStatement, DecodeStatement;
    var ss, copy := StatementsOf(p), PolicyCopy(p).value;
    assert |StatementsOf(copy)| == |ss|;
    forall i | 0 <= i < |ss| ensures DecodeStatement(StatementsOf(copy)[i]) == DecodeStatement(ss[i]) {
      StatementCopyMeansTheSame(ss[i]);
    }
  }

  /** The value of a leaf, if it has one, is a text, a flag or a list of texts. */
  predicate TypedValues(c: Json)
    decreases c, 0
  {
    if Has(c, "any") then AllTyped(c.props["any"])
    else if Has(c, "all") then AllTyped(c.props["all"])
    else if Has(c, "not") then TypedValues(c.props["not"])
    else Has(c, "value") ==>
           || c.props["value"].Str? || c.props["value"].Bool?
           || (c.props["value"].Arr? && forall i :: 0 <= i < |c.props["value"].items| ==>
                 c.props["value"].items[i].Str?)
  }

  predicate AllTyped(list: Json)
    decreases list, 1
  {
    list.Arr? ==> forall i :: 0 <= i < |list.items| ==> TypedValues(list.items[i])
  }

  /** The schema refuses no valid condition of one shape with typed values. */
  lemma {:induction false} ValidConditionsPass(rt: Runtime, c: Json, depth: nat)
    requires A.GoodCondition(rt, c, depth) && OneShape(c) && TypedValues(c)
    ensures ConditionCopy(c).Some?
    decreases c, 0
  {
    hide ParseOperator, A.NameOf, A.GoodValue;
    if Has(c, "any") {
      ValidListsPass(rt, c.props["any"], depth + 1);
    } else if Has(c, "all") {
      ValidListsPass(rt, c.props["all"], depth + 1);
    } else if Has(c, "not") {
      ValidConditionsPass(rt, c.props["not"], depth + 1);
    } else {
      A.LeafAcceptedIff(rt, c, []);
      assert FitsLeaf(c);
    }
  }

  lemma {:induction false} ValidListsPass(rt: Runtime, list: Json, depth: nat)
    requires A.GoodConditions(rt, list, depth) && AllOneShape(list) && AllTyped(list)
    ensures ListCopy(list).Some?
    decreases list, 1
  {
    hide ConditionCopy, OneShape, TypedValues;
    forall i | 0 <= i < |list.items| ensures ConditionCopy(list.items[i]).Some? {
      ValidConditionsPass(rt, list.items[i], depth);
    }
  }

  /**
   End to end: for every policy that a create request may carry, if the schema and the validator let it in,
   the engine run on what was stored never throws and decides exactly what the stored policy means.
   */
  lemma RoutePoliciesDecideExactly(rt: Runtime, p: Json, ctx: RequestContext)
    requires PolicyCopy(p).Some? && PolicyErrors(rt, PolicyCopy(p).value) == []
    ensures RawDecision(rt, StatementsOf(PolicyCopy(p).value), ctx, false)
            == Value(Allows(rt, DecodePolicy(PolicyCopy(p).value), ctx))
    ensures Allows(rt, DecodePolicy(PolicyCopy(p).value), ctx)
            <==> MeansAllow(rt, DecodePolicy(PolicyCopy(p).value), ctx)
  {
    hide PolicyErrors, PlainPolicy, RawDecision, MeansAllow, Allows, PolicyCopy;
    PolicyCopyIsPlain(p);
    StoredPoliciesDecideExactly(rt, PolicyCopy(p).value, ctx);
    AcceptedPoliciesDecideExactly(rt, PolicyCopy(p).value, ctx);
  }

  /** The object that validator and evaluator read in two ways comes out as the leaf that the evaluator reads. */
  lemma MixedShapeIsStripped()
    ensures ConditionCopy(Obj(map["field" := Str("a"), "operator" := Str("exists"), "not" := ExistsLeaf("a")]))
            == Some(ExistsLeaf("a"))
  {
    var c := Obj(map["field" := Str("a"), "operator" := Str("exists"), "not" := ExistsLeaf("a")]);
    assert ParseOperator("exists") == Some(Exists);
    assert LeafCopy(c).props == ExistsLeaf("a").props;
  }
}
