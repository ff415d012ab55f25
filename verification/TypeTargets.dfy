/** What a type plan promises of its actions: real targets, for every message it heeds, and the right OTX scope. */
module TypeTargets {
  import opened Base
  import opened Transaction
  import opened Context
  import opened Plan
  import opened Engine
  import opened TypePlan
  import opened BuiltFacts
  import opened TypeFacts
  import opened Related

  /** The related actions of a finished plan: one list for each OTX, then the tx-level one. */
  predicate TypeMadeOf(cx: CobuildContext, related: seq<TypeRelatedAction>,
                       parts: seq<seq<TypeRelatedAction>>, last: seq<TypeRelatedAction>) {
    && |parts| == |cx.OtxEntries()|
    && (forall i: nat | i < |parts| :: OtxTypeActions(cx, i) == Ok(parts[i]))
    && TxTypeActions(cx) == Ok(last)
    && related == Flatten(parts) + last
  }

  lemma TypeParts(cx: CobuildContext, plan: TypeValidationPlan)
    returns (parts: seq<seq<TypeRelatedAction>>, last: seq<TypeRelatedAction>)
    requires PlanType(cx) == Ok(plan)
    ensures TypeMadeOf(cx, plan.relatedActions, parts, last)
  {
    var f := OtxTypeActionsOf(cx);
    parts := Collect(f, |cx.OtxEntries()|).value;
    last := TxTypeActions(cx).value;
    forall i: nat | i < |parts| ensures OtxTypeActions(cx, i) == Ok(parts[i]) {
      assert f(i) == Ok(parts[i]);
    }
  }

  /** Element `k` of the joined lists: in the list of an OTX, or in the last one. */
  lemma TypePartAt(parts: seq<seq<TypeRelatedAction>>, last: seq<TypeRelatedAction>, k: nat)
    returns (inOtx: bool, i: nat, local: nat)
    requires k < |Flatten(parts) + last|
    ensures inOtx ==> i < |parts|
    ensures var actions := if inOtx then parts[i] else last;
            local < |actions| && (Flatten(parts) + last)[k] == actions[local]
  {
    inOtx := k < |Flatten(parts)|;
    if inOtx {
      i, local := FlattenPlace(parts, k);
    } else {
      i, local := 0, k - |Flatten(parts)|;
    }
  }

  // ---------- the scope each action carries ----------

  /** An OTX action carries its OTX's relation when that mentions the type; every other action is target-only. */
  predicate ScopeRight(cx: CobuildContext, a: TypeRelatedAction) {
    match a.action.origin
    case FromTx(_) => a.otxTypeScope == TargetOnly
    case FromOtx(_, i, _) =>
      && i < |cx.OtxEntries()|
      && var r := cx.script.TypeRelationForOtx(cx.OtxEntries()[i]);
         r.Ok? && a.otxTypeScope == if r.value.MentionsType() then InOtxScope(r.value) else TargetOnly
  }

  lemma OtxScopeRight(cx: CobuildContext, i: nat, actions: seq<TypeRelatedAction>, local: nat)
    requires OtxTypeActions(cx, i) == Ok(actions) && local < |actions|
    ensures i < |cx.OtxEntries()| && actions[local].action.origin == OriginAt(cx, i) && ScopeRight(cx, actions[local])
  {}

  lemma TxScopeRight(cx: CobuildContext, actions: seq<TypeRelatedAction>, local: nat)
    requires TxTypeActions(cx) == Ok(actions) && local < |actions|
    ensures actions[local].action.origin.FromTx? && ScopeRight(cx, actions[local])
  {}

  /** Every related action of a type plan carries the scope of the OTX it came from. */
  lemma RelatedScopesRight(cx: CobuildContext, plan: TypeValidationPlan, k: nat)
    requires PlanType(cx) == Ok(plan) && k < |plan.relatedActions|
    ensures ScopeRight(cx, plan.relatedActions[k])
  {
    var i, actions, local := RelatedFrom(cx, plan, k);
    if OtxTypeActions(cx, i) == Ok(actions) {
      OtxScopeRight(cx, i, actions, local);
    } else {
      TxScopeRight(cx, actions, local);
    }
    assert plan.relatedActions[k] == actions[local];
  }

  /** Where related action `k` came from: the list of some OTX, or the tx-level list. */
  lemma RelatedFrom(cx: CobuildContext, plan: TypeValidationPlan, k: nat)
    returns (i: nat, actions: seq<TypeRelatedAction>, local: nat)
    requires PlanType(cx) == Ok(plan) && k < |plan.relatedActions|
    ensures local < |actions| && plan.relatedActions[k] == actions[local]
    ensures OtxTypeActions(cx, i) == Ok(actions) || TxTypeActions(cx) == Ok(actions)
  {
    var parts, last := TypeParts(cx, plan);
    var inOtx;
    inOtx, i, local := TypePartAt(parts, last, k);
    actions := if inOtx then parts[i] else last;
  }

  // ---------- targets ----------

  lemma OtxTypeTargeted(tx: Tx, t: Hash32, cx: CobuildContext, i: nat)
    requires cx.script == ContextOf(tx, CurrentType(t)) && i < |cx.OtxEntries()| && OtxTypeActions(cx, i).Ok?
    requires OtxTypeActions(cx, i).value != [] || OtxMentions(cx, i)
    ensures AllTargeted(tx, cx.OtxEntries()[i].view.message)
  {
    CheckedIsTargeted(tx, CurrentType(t), cx, cx.OtxEntries()[i].view.message);
  }

  lemma TxTypeTargeted(tx: Tx, t: Hash32, cx: CobuildContext)
    requires cx.script == ContextOf(tx, CurrentType(t)) && TxTypeActions(cx).Ok?
    requires cx.witnesses.UniqueMessage().Ok? && cx.witnesses.UniqueMessage().value.Some?
    requires TxTypeActions(cx).value != [] || TxLevelScopeMentionsType(cx)
    ensures AllTargeted(tx, cx.witnesses.UniqueMessage().value.value.1)
  {
    CheckedIsTargeted(tx, CurrentType(t), cx, cx.witnesses.UniqueMessage().value.value.1);
  }

  /**
   * Every message that contributed an action to a type plan is aimed at scripts of the transaction, action by
   * action.
   */
  lemma TypeMessageTargeted(tx: Tx, t: Hash32, cx: CobuildContext, plan: TypeValidationPlan, k: nat)
    requires Build(tx, CurrentType(t)) == Ok(cx) && PlanType(cx) == Ok(plan) && k < |plan.relatedActions|
    ensures var m := MessageBehind(cx, plan.relatedActions[k].action.origin); m.Some? && AllTargeted(tx, m.value)
  {
    SummariesOfWitnesses(tx, CurrentType(t), cx);
    var i, actions, local := RelatedFrom(cx, plan, k);
    if OtxTypeActions(cx, i) == Ok(actions) {
      OtxScopeRight(cx, i, actions, local);
      OtxTypeTargeted(tx, t, cx, i);
    } else {
      TxScopeRight(cx, actions, local);
      TxTypeTargeted(tx, t, cx);
    }
  }

  /**
   * So is every message whose scope mentions the type, whether it contributed an action or not: that of each OTX
   * whose relation mentions it, and the tx-level one when the scope outside the OTXs does.
   */
  lemma ScopedMessagesTargeted(tx: Tx, t: Hash32, cx: CobuildContext, plan: TypeValidationPlan)
    requires Build(tx, CurrentType(t)) == Ok(cx) && PlanType(cx) == Ok(plan)
    ensures forall i: nat | i < |cx.OtxEntries()| && OtxMentions(cx, i) ::
              AllTargeted(tx, cx.OtxEntries()[i].view.message)
    ensures cx.witnesses.UniqueMessage().Ok?
    ensures TxLevelScopeMentionsType(cx) && cx.witnesses.UniqueMessage().value.Some? ==>
              AllTargeted(tx, cx.witnesses.UniqueMessage().value.value.1)
  {
    SummariesOfWitnesses(tx, CurrentType(t), cx);
    var parts, last := TypeParts(cx, plan);
    forall i: nat | i < |cx.OtxEntries()| && OtxMentions(cx, i)
      ensures AllTargeted(tx, cx.OtxEntries()[i].view.message)
    {
      assert OtxTypeActions(cx, i) == Ok(parts[i]);
      OtxTypeTargeted(tx, t, cx, i);
    }
    if TxLevelScopeMentionsType(cx) && cx.witnesses.UniqueMessage().value.Some? {
      TxTypeTargeted(tx, t, cx);
    }
  }
}
