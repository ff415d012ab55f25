/** Which actions concern the running type script, and where its cells stand relative to the OTXs. */
module TypePlan {
  import opened Base
  import opened View
  import opened Context
  import opened Plan
  import opened Engine

  function TypeHash(cx: CobuildContext): Hash32 { cx.script.current.hash }

  function TypeInputs(cx: CobuildContext): seq<nat> { cx.script.indices.inputs }

  function TypeOutputs(cx: CobuildContext): seq<nat> { cx.script.TypeOutputs() }

  predicate CurrentTypePresent(cx: CobuildContext) { TypeInputs(cx) != [] || TypeOutputs(cx) != [] }

  /** Does the tx-level scope, everything outside the OTX ranges, mention the type? */
  predicate TxLevelScopeMentionsType(cx: CobuildContext) {
    match cx.otxLayouts
    case NoLayout => CurrentTypePresent(cx)
    case Complete(layout) => Escapes(TypeInputs(cx), layout.inputRange) || Escapes(TypeOutputs(cx), layout.outputRange)
  }

  function ActionScope(relation: OtxTypeRelation): TypeActionOtxScope {
    if relation.MentionsType() then InOtxScope(relation) else TargetOnly
  }

  function WithScope(actions: seq<RelatedAction>, scope: TypeActionOtxScope): seq<TypeRelatedAction> {
    seq(|actions|, i requires 0 <= i < |actions| => TypeRelatedAction(actions[i], scope))
  }

  function OtxTypeActions(cx: CobuildContext, i: nat): Result<seq<TypeRelatedAction>> {
    if i >= |cx.OtxEntries()| then Err(InvalidOtxLayout)
    else
      var entry := cx.OtxEntries()[i];
      var relation :- cx.script.TypeRelationForOtx(entry);
      var all :- MessageActions(entry.view.message);
      var mine := Filter(all, IsTypeAction(TypeHash(cx)));
      if !relation.MentionsType() && mine == [] then Ok([])
      else if !cx.script.TargetsExist(all) then Err(InvalidMessageTarget)
      else Ok(WithScope(OtxActions(i, entry, mine), ActionScope(relation)))
  }

  function OtxTypeActionsOf(cx: CobuildContext): nat -> Result<seq<TypeRelatedAction>>
  {
    (i: nat) => OtxTypeActions(cx, i)
  }

  function TxTypeActions(cx: CobuildContext): Result<seq<TypeRelatedAction>> {
    var unique :- cx.witnesses.UniqueMessage();
    match unique
    case None => Ok([])
    case Some((w, message)) =>
      (var all :- MessageActions(message);
       var mine := Filter(all, IsTypeAction(TypeHash(cx)));
       if !TxLevelScopeMentionsType(cx) && mine == [] then Ok([])
       else if !cx.script.TargetsExist(all) then Err(InvalidMessageTarget)
       else Ok(WithScope(TxActions(w, mine), TargetOnly)))
  }

  function PlanType(cx: CobuildContext): Result<TypeValidationPlan> {
    if !cx.script.current.CurrentType? then Err(InvalidContextInput)
    else
      var otxs :- Collect(OtxTypeActionsOf(cx), |cx.OtxEntries()|);
      var tx :- TxTypeActions(cx);
      Ok(TypeValidationPlan(TypeHash(cx), Flatten(otxs) + tx))
  }

  class TypePlanBuilder {
    const cx: CobuildContext
    var relatedActions: seq<TypeRelatedAction>

    constructor (cx: CobuildContext)
      ensures this.cx == cx && relatedActions == []
    {
      this.cx := cx;
      relatedActions := [];
    }

    method AddOtxAction(i: nat) returns (r: Result<()>)
      requires i < |cx.OtxEntries()|
      modifies this
      ensures match OtxTypeActions(cx, i)
              case Ok(actions) => r == Ok(()) && relatedActions == old(relatedActions) + actions
              case Err(e) => r == Err(e)
    {
      var entry := cx.OtxEntries()[i];
      var covered :- cx.script.CoveredCurrentTypeInBaseOutputs(entry);
      var relation := OtxTypeRelation(
        Meets(TypeInputs(cx), entry.layout.baseInputs), Meets(TypeInputs(cx), entry.layout.appendInputs),
        Meets(TypeOutputs(cx), entry.layout.baseOutputs), covered,
        Meets(TypeOutputs(cx), entry.layout.appendOutputs));
      var all :- ParseActions(entry.view.message);
      var mine := FilterActions(all, IsTypeAction(TypeHash(cx)));
      if !relation.MentionsType() && |mine| == 0 {
        assert relatedActions == relatedActions + [];
        return Ok(());
      }
      var _ :- cx.script.ValidateActionTargets(all);
      relatedActions := relatedActions + WithScope(OtxActions(i, entry, mine), ActionScope(relation));
      return Ok(());
    }

    method AddOtxActions() returns (r: Result<()>)
      modifies this
      ensures match Collect(OtxTypeActionsOf(cx), |cx.OtxEntries()|)
              case Ok(otxs) => r == Ok(()) && relatedActions == old(relatedActions) + Flatten(otxs)
              case Err(e) => r == Err(e)
    {
      ghost var f := OtxTypeActionsOf(cx);
      ghost var otxs: seq<seq<TypeRelatedAction>> := [];
      assert relatedActions == relatedActions + Flatten(otxs);
      for i := 0 to |cx.OtxEntries()|
        invariant Collect(f, i) == Ok(otxs) && relatedActions == old(relatedActions) + Flatten(otxs)
      {
        assert f(i) == OtxTypeActions(cx, i);
        var added := AddOtxAction(i);
        if added.Err? {
          CollectStops(f, i, |cx.OtxEntries()|);
          return Err(added.error);
        }
        ghost var next := otxs + [f(i).value];
        FlattenSnoc(old(relatedActions), otxs, f(i).value);
        assert Collect(f, i + 1) == Ok(next);
        otxs := next;
      }
      return Ok(());
    }

    method AddTxLevelActions() returns (r: Result<()>)
      modifies this
      ensures match TxTypeActions(cx)
              case Ok(actions) => r == Ok(()) && relatedActions == old(relatedActions) + actions
              case Err(e) => r == Err(e)
    {
      var unique :- cx.witnesses.FindUniqueMessage();
      if unique.None? {
        assert relatedActions == relatedActions + [];
        return Ok(());
      }
      var (w, message) := unique.value;
      var scopeRelated := TxLevelScopeMentionsType(cx);
      var all :- ParseActions(message);
      var mine := FilterActions(all, IsTypeAction(TypeHash(cx)));
      if !scopeRelated && |mine| == 0 {
        assert relatedActions == relatedActions + [];
        return Ok(());
      }
      var _ :- cx.script.ValidateActionTargets(all);
      relatedActions := relatedActions + WithScope(TxActions(w, mine), TargetOnly);
      return Ok(());
    }
  }

  /** `plan_type_validation`: first the OTXs, then the tx-level message. */
  method PlanTypeValidation(cx: CobuildContext) returns (r: Result<TypeValidationPlan>)
    ensures r == PlanType(cx)
  {
    if !cx.script.current.CurrentType? {
      return Err(InvalidContextInput);
    }
    var builder := new TypePlanBuilder(cx);
    var _ :- builder.AddOtxActions();
    ghost var otxs := Flatten(Collect(OtxTypeActionsOf(cx), |cx.OtxEntries()|).value);
    assert builder.relatedActions == otxs by { assert [] + otxs == otxs; }
    var _ :- builder.AddTxLevelActions();
    return Ok(TypeValidationPlan(TypeHash(cx), builder.relatedActions));
  }
}
