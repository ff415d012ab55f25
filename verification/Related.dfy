/**
 * The related actions of a plan are the matching ones of all actions, and what a plan relies on targets real
 * scripts.
 */
module Related {
  import opened Base
  import opened LazyReader
  import opened View
  import opened Transaction
  import opened Preimage
  import opened Context
  import opened Plan
  import opened Engine
  import opened LockPlan
  import opened TypePlan
  import opened BuiltFacts
  import opened ExactPlan

  function OfAction(p: ActionView -> bool): RelatedAction -> bool { (r: RelatedAction) => p(r.action) }

  // ---------- filtering before or after an origin is attached ----------

  function WithOrigin(o: ActionOrigin, actions: seq<ActionView>): seq<RelatedAction> {
    seq(|actions|, i requires 0 <= i < |actions| => RelatedAction(o, actions[i]))
  }

  lemma {:induction false} FilterWithOrigin(o: ActionOrigin, actions: seq<ActionView>, p: ActionView -> bool)
    ensures WithOrigin(o, Filter(actions, p)) == Filter(WithOrigin(o, actions), OfAction(p))
  {
    if actions == [] {
    } else {
      var n := |actions| - 1;
      FilterWithOrigin(o, actions[..n], p);
      assert WithOrigin(o, actions)[..n] == WithOrigin(o, actions[..n]);
    }
  }

  lemma {:induction false} FilterFlatten<T>(xs: seq<seq<T>>, ys: seq<seq<T>>, p: T -> bool)
    requires |ys| == |xs| && forall i: nat | i < |xs| :: ys[i] == Filter(xs[i], p)
    ensures Flatten(ys) == Filter(Flatten(xs), p)
  {
    if xs == [] {
    } else {
      var n := |xs| - 1;
      FilterFlatten(xs[..n], ys[..n], p);
      FilterAppend(Flatten(xs[..n]), xs[n], p);
    }
  }

  // ---------- the lock plan ----------

  lemma TxLevelFiltered(cx: CobuildContext)
    requires TxRelatedActions(cx).Ok? && TxLevelActions(cx).Ok?
    ensures TxRelatedActions(cx).value == Filter(TxLevelActions(cx).value, OfAction(IsLockAction(LockHash(cx))))
  {
    var unique := cx.witnesses.UniqueMessage().value;
    if unique.Some? {
      var all := MessageActions(unique.value.1).value;
      FilterWithOrigin(FromTx(unique.value.0), all, IsLockAction(LockHash(cx)));
      assert TxActions(unique.value.0, all) == WithOrigin(FromTx(unique.value.0), all);
    }
  }

  function OriginAt(cx: CobuildContext, i: nat): ActionOrigin
    requires i < |cx.OtxEntries()|
  {
    FromOtx(cx.OtxEntries()[i].layout.witnessIndex, i, MessageLayoutOf(cx.OtxEntries()[i].layout))
  }

  lemma OtxFiltered(cx: CobuildContext, h: Blake2b, i: nat)
    requires i < |cx.OtxEntries()| && OtxContribution(cx, h, i).Ok? && OtxActionsAt(cx, i).Ok?
    ensures OtxContribution(cx, h, i).value.actions
            == Filter(OtxActionsAt(cx, i).value, OfAction(IsLockAction(LockHash(cx))))
  {
    var all := MessageActions(cx.OtxEntries()[i].view.message).value;
    FilterWithOrigin(OriginAt(cx, i), all, IsLockAction(LockHash(cx)));
    assert OtxActionsAt(cx, i).value == WithOrigin(OriginAt(cx, i), all);
    assert OtxContribution(cx, h, i).value.actions
        == WithOrigin(OriginAt(cx, i), Filter(all, IsLockAction(LockHash(cx))));
  }

  lemma OtxsFiltered(cx: CobuildContext, h: Blake2b, cs: seq<Contribution>, all: seq<seq<RelatedAction>>)
    requires Collect(Contributions(cx, h), |cx.OtxEntries()|) == Ok(cs)
    requires Collect(OtxActionsOf(cx), |cx.OtxEntries()|) == Ok(all)
    ensures AllRelated(cs) == Filter(Flatten(all), OfAction(IsLockAction(LockHash(cx))))
  {
    var ys := seq(|cs|, i requires 0 <= i < |cs| => cs[i].actions);
    forall i: nat | i < |all| ensures ys[i] == Filter(all[i], OfAction(IsLockAction(LockHash(cx)))) {
      CollectedOtxFiltered(cx, h, i, cs[i], all[i]);
    }
    FilterFlatten(all, ys, OfAction(IsLockAction(LockHash(cx))));
  }

  lemma CollectedOtxFiltered(cx: CobuildContext, h: Blake2b, i: nat, c: Contribution, all: seq<RelatedAction>)
    requires i < |cx.OtxEntries()| && Contributions(cx, h)(i) == Ok(c) && OtxActionsOf(cx)(i) == Ok(all)
    ensures c.actions == Filter(all, OfAction(IsLockAction(LockHash(cx))))
  {
    OtxFiltered(cx, h, i);
  }

  /** The filter passes see each action alone. */
  lemma {:induction false} FilterSame<T>(xs: seq<T>, p: T -> bool, q: T -> bool)
    requires forall x :: p(x) == q(x)
    ensures Filter(xs, p) == Filter(xs, q)
  {
    if xs == [] {
    } else {
      FilterSame(xs[..|xs| - 1], p, q);
    }
  }

  /** Aimed at the inputs under this lock. */
  predicate AimedAtLock(a: ActionView, lock: Hash32) { a.scriptRole == InputLock && a.scriptHash == lock }

  /** Aimed at inputs or outputs of this type. */
  predicate AimedAtType(a: ActionView, t: Hash32) {
    (a.scriptRole == InputType || a.scriptRole == OutputType) && a.scriptHash == t
  }

  /** The lock plan's related actions are, in order, all actions of the transaction aimed at this input lock. */
  lemma LockPlanRelatesAll(cx: CobuildContext, h: Blake2b, plan: LockValidationPlan, all: seq<RelatedAction>)
    requires PlanLock(cx, h) == Ok(plan) && AllActions(cx) == Ok(all)
    ensures plan.relatedActions == Filter(all, (r: RelatedAction) => AimedAtLock(r.action, LockHash(cx)))
  {
    LockPlanFiltered(cx, h, plan, all);
    FilterSame(all, OfAction(IsLockAction(LockHash(cx))), (r: RelatedAction) => AimedAtLock(r.action, LockHash(cx)));
  }

  lemma LockPlanFiltered(cx: CobuildContext, h: Blake2b, plan: LockValidationPlan, all: seq<RelatedAction>)
    requires PlanLock(cx, h) == Ok(plan) && AllActions(cx) == Ok(all)
    ensures plan.relatedActions == Filter(all, OfAction(IsLockAction(LockHash(cx))))
  {
    var cs := Collect(Contributions(cx, h), |cx.OtxEntries()|).value;
    var otxs := Collect(OtxActionsOf(cx), |cx.OtxEntries()|).value;
    TxLevelFiltered(cx);
    OtxsFiltered(cx, h, cs, otxs);
    FilterAppend(TxLevelActions(cx).value, Flatten(otxs), OfAction(IsLockAction(LockHash(cx))));
  }

  // ---------- the type plan ----------

  function Plain(actions: seq<TypeRelatedAction>): seq<RelatedAction> {
    seq(|actions|, i requires 0 <= i < |actions| => actions[i].action)
  }

  lemma OtxTypeFiltered(cx: CobuildContext, i: nat)
    requires OtxTypeActions(cx, i).Ok? && OtxActionsAt(cx, i).Ok?
    ensures Plain(OtxTypeActions(cx, i).value)
            == Filter(OtxActionsAt(cx, i).value, OfAction(IsTypeAction(TypeHash(cx))))
  {
    var all := MessageActions(cx.OtxEntries()[i].view.message).value;
    FilterWithOrigin(OriginAt(cx, i), all, IsTypeAction(TypeHash(cx)));
    assert OtxActionsAt(cx, i).value == WithOrigin(OriginAt(cx, i), all);
    assert Plain(OtxTypeActions(cx, i).value) == WithOrigin(OriginAt(cx, i), Filter(all, IsTypeAction(TypeHash(cx))));
  }

  lemma TxTypeFiltered(cx: CobuildContext)
    requires TxTypeActions(cx).Ok? && TxLevelActions(cx).Ok?
    ensures Plain(TxTypeActions(cx).value) == Filter(TxLevelActions(cx).value, OfAction(IsTypeAction(TypeHash(cx))))
  {
    var unique := cx.witnesses.UniqueMessage().value;
    if unique.Some? {
      var all := MessageActions(unique.value.1).value;
      FilterWithOrigin(FromTx(unique.value.0), all, IsTypeAction(TypeHash(cx)));
      assert TxActions(unique.value.0, all) == WithOrigin(FromTx(unique.value.0), all);
      assert Plain(TxTypeActions(cx).value)
          == WithOrigin(FromTx(unique.value.0), Filter(all, IsTypeAction(TypeHash(cx))));
    }
  }

  lemma {:induction false} PlainFlatten(xs: seq<seq<TypeRelatedAction>>, ys: seq<seq<RelatedAction>>)
    requires |ys| == |xs| && forall i: nat | i < |xs| :: ys[i] == Plain(xs[i])
    ensures Flatten(ys) == Plain(Flatten(xs))
  {
    if xs == [] {
    } else {
      PlainFlatten(xs[..|xs| - 1], ys[..|xs| - 1]);
    }
  }

  lemma OtxTypesFiltered(cx: CobuildContext, xs: seq<seq<TypeRelatedAction>>, all: seq<seq<RelatedAction>>)
    requires Collect(OtxTypeActionsOf(cx), |cx.OtxEntries()|) == Ok(xs)
    requires Collect(OtxActionsOf(cx), |cx.OtxEntries()|) == Ok(all)
    ensures Plain(Flatten(xs)) == Filter(Flatten(all), OfAction(IsTypeAction(TypeHash(cx))))
  {
    EachTypeFiltered(cx, xs, all);
    PlainFiltered(xs, all, OfAction(IsTypeAction(TypeHash(cx))));
  }

  lemma EachTypeFiltered(cx: CobuildContext, xs: seq<seq<TypeRelatedAction>>, all: seq<seq<RelatedAction>>)
    requires Collect(OtxTypeActionsOf(cx), |cx.OtxEntries()|) == Ok(xs)
    requires Collect(OtxActionsOf(cx), |cx.OtxEntries()|) == Ok(all)
    ensures |xs| == |all|
    ensures forall i: nat | i < |all| :: Plain(xs[i]) == Filter(all[i], OfAction(IsTypeAction(TypeHash(cx))))
  {
    forall i: nat | i < |all| ensures Plain(xs[i]) == Filter(all[i], OfAction(IsTypeAction(TypeHash(cx)))) {
      CollectedTypeFiltered(cx, i, xs[i], all[i]);
    }
  }

  lemma PlainFiltered(xs: seq<seq<TypeRelatedAction>>, all: seq<seq<RelatedAction>>, p: RelatedAction -> bool)
    requires |xs| == |all| && forall i: nat | i < |all| :: Plain(xs[i]) == Filter(all[i], p)
    ensures Plain(Flatten(xs)) == Filter(Flatten(all), p)
  {
    var ys := seq(|xs|, i requires 0 <= i < |xs| => Plain(xs[i]));
    FilterFlatten(all, ys, p);
    PlainFlatten(xs, ys);
  }

  lemma CollectedTypeFiltered(cx: CobuildContext, i: nat, x: seq<TypeRelatedAction>, all: seq<RelatedAction>)
    requires OtxTypeActionsOf(cx)(i) == Ok(x) && OtxActionsOf(cx)(i) == Ok(all)
    ensures Plain(x) == Filter(all, OfAction(IsTypeAction(TypeHash(cx))))
  {
    OtxTypeFiltered(cx, i);
  }

  /**
   * The type plan's related actions: first the OTX actions aimed at this type in either role, then the
   * tx-level ones.
   */
  lemma TypePlanRelatesAll(cx: CobuildContext, plan: TypeValidationPlan, all: seq<RelatedAction>)
    requires PlanType(cx) == Ok(plan) && AllActions(cx) == Ok(all)
    ensures TxLevelActions(cx).Ok? && TxLevelActions(cx).value <= all
    ensures var tx := TxLevelActions(cx).value;
            Plain(plan.relatedActions)
            == Filter(all[|tx|..], (r: RelatedAction) => AimedAtType(r.action, TypeHash(cx)))
               + Filter(tx, (r: RelatedAction) => AimedAtType(r.action, TypeHash(cx)))
  {
    TypePlanFiltered(cx, plan, all);
    var tx := TxLevelActions(cx).value;
    var p := (r: RelatedAction) => AimedAtType(r.action, TypeHash(cx));
    FilterSame(all[|tx|..], OfAction(IsTypeAction(TypeHash(cx))), p);
    FilterSame(tx, OfAction(IsTypeAction(TypeHash(cx))), p);
  }

  lemma TypePlanFiltered(cx: CobuildContext, plan: TypeValidationPlan, all: seq<RelatedAction>)
    requires PlanType(cx) == Ok(plan) && AllActions(cx) == Ok(all)
    ensures TxLevelActions(cx).Ok? && TxLevelActions(cx).value <= all
    ensures var tx := TxLevelActions(cx).value;
            Plain(plan.relatedActions)
            == Filter(all[|tx|..], OfAction(IsTypeAction(TypeHash(cx))))
               + Filter(tx, OfAction(IsTypeAction(TypeHash(cx))))
  {
    var xs := Collect(OtxTypeActionsOf(cx), |cx.OtxEntries()|).value;
    var otxs := Collect(OtxActionsOf(cx), |cx.OtxEntries()|).value;
    OtxTypesFiltered(cx, xs, otxs);
    TxTypeFiltered(cx);
    PlainAppend(Flatten(xs), TxTypeActions(cx).value);
    assert all[|TxLevelActions(cx).value|..] == Flatten(otxs);
  }

  lemma PlainAppend(a: seq<TypeRelatedAction>, b: seq<TypeRelatedAction>)
    ensures Plain(a + b) == Plain(a) + Plain(b)
  {}

  // ---------- targets ----------

  /** A script of the action's role and hash occurs in the transaction. */
  predicate TargetInTx(tx: Tx, a: ActionView) {
    match a.scriptRole
    case InputLock => exists n: nat | n < |tx.inputs| :: tx.inputs[n].lockHash == a.scriptHash
    case InputType => exists n: nat | n < |tx.inputs| :: tx.inputs[n].typeHash == Some(a.scriptHash)
    case OutputType => exists n: nat | n < |tx.outputs| :: tx.outputs[n].typeHash == Some(a.scriptHash)
  }

  lemma TargetMeaning(tx: Tx, current: CurrentScript, a: ActionView)
    ensures ContextOf(tx, current).HasTarget(a) <==> TargetInTx(tx, a)
  {
    match a.scriptRole
    case InputLock =>
    case InputType =>
      if n: nat :| n < |tx.inputs| && tx.inputs[n].typeHash == Some(a.scriptHash) {
        assert tx.inputs[n].typeHash.value in ContextOf(tx, current).inputTypes;
      }
    case OutputType =>
      if n: nat :| n < |tx.outputs| && tx.outputs[n].typeHash == Some(a.scriptHash) {
        assert tx.outputs[n].typeHash.value in ContextOf(tx, current).outputTypes;
      }
  }

  /** Every action of the message is aimed at a script of the transaction. */
  predicate AllTargeted(tx: Tx, message: Cursor) {
    && MessageActions(message).Ok?
    && forall k: nat | k < |MessageActions(message).value| :: TargetInTx(tx, MessageActions(message).value[k])
  }

  lemma CheckedIsTargeted(tx: Tx, current: CurrentScript, cx: CobuildContext, message: Cursor)
    requires cx.script == ContextOf(tx, current)
    requires MessageActions(message).Ok? && cx.script.TargetsExist(MessageActions(message).value)
    ensures AllTargeted(tx, message)
  {
    forall k: nat | k < |MessageActions(message).value| ensures TargetInTx(tx, MessageActions(message).value[k]) {
      assert cx.script.HasTarget(MessageActions(message).value[k]);
      TargetMeaning(tx, current, MessageActions(message).value[k]);
    }
  }

  lemma ContributingOtxTargeted(tx: Tx, lock: Hash32, cx: CobuildContext, h: Blake2b, i: nat)
    requires cx.script == ContextOf(tx, CurrentLock(lock)) && i < |cx.OtxEntries()| && OtxContribution(cx, h, i).Ok?
    requires OtxContribution(cx, h, i).value != Contribution([], [])
    ensures AllTargeted(tx, cx.OtxEntries()[i].view.message)
  {
    CheckedIsTargeted(tx, CurrentLock(lock), cx, cx.OtxEntries()[i].view.message);
  }

  /**
   * Whatever a required signature binds is aimed at scripts of the transaction: the message of its OTX, or the
   * tx-level one.
   */
  lemma SignedMessageTargeted(tx: Tx, lock: Hash32, h: Blake2b, cx: CobuildContext, plan: LockValidationPlan, k: nat)
    requires Build(tx, CurrentLock(lock)) == Ok(cx) && PlanLock(cx, h) == Ok(plan) && k < |plan.requiredSignatures|
    ensures var r := plan.requiredSignatures[k];
            if r.origin.TxLevel? then
              var unique := cx.witnesses.UniqueMessage();
              unique.Ok? && (unique.value.Some? ==> AllTargeted(tx, unique.value.value.1))
            else
              forall i: nat | i < |cx.OtxEntries()| && CarriedBy(cx, i, r.carrierWitnessIndex) ::
                AllTargeted(tx, cx.OtxEntries()[i].view.message)
  {
    var r := plan.requiredSignatures[k];
    SummariesOfWitnesses(tx, CurrentLock(lock), cx);
    BuiltWitnessesAscend(tx, CurrentLock(lock), cx);
    var txPart, ss := PlanParts(cx, h, plan);
    if k < |txPart| {
      TxLevelMessageTargeted(tx, lock, cx, h, txPart);
      TxLevelMeaning(cx, lock, h, txPart);
      assert r == txPart[k];
    } else {
      var i, local := OtxPartAt(cx, h, plan.requiredSignatures, txPart, ss, k);
      ContributingOtxTargeted(tx, lock, cx, h, i);
      assert CarriedBy(cx, i, r.carrierWitnessIndex);
      forall n: nat | n < |cx.OtxEntries()| && CarriedBy(cx, n, r.carrierWitnessIndex)
        ensures AllTargeted(tx, cx.OtxEntries()[n].view.message)
      {
        SameCarrierSameOtx(cx, i, n, r.carrierWitnessIndex);
      }
    }
  }

  lemma TxLevelMessageTargeted(tx: Tx, lock: Hash32, cx: CobuildContext, h: Blake2b, txPart: seq<SigningRequirement>)
    requires cx.script == ContextOf(tx, CurrentLock(lock)) && TxLevelSignature(cx, h) == Ok(txPart) && txPart != []
    ensures cx.witnesses.UniqueMessage().Ok?
    ensures cx.witnesses.UniqueMessage().value.Some? ==> AllTargeted(tx, cx.witnesses.UniqueMessage().value.value.1)
  {
    var unique := cx.witnesses.UniqueMessage().value;
    if unique.Some? {
      CheckedIsTargeted(tx, CurrentLock(lock), cx, unique.value.1);
    }
  }

  /** The message an action came from. */
  function MessageBehind(cx: CobuildContext, o: ActionOrigin): Option<Cursor> {
    match o
    case FromTx(_) =>
      (var unique := cx.witnesses.UniqueMessage();
       if unique.Ok? && unique.value.Some? then Some(unique.value.value.1) else None)
    case FromOtx(_, i, _) => if i < |cx.OtxEntries()| then Some(cx.OtxEntries()[i].view.message) else None
  }

  /** The related actions of a finished plan: the tx-level ones, then one list for each OTX. */
  predicate RelatedMadeOf(cx: CobuildContext, h: Blake2b, related: seq<RelatedAction>, tx: seq<RelatedAction>,
                          parts: seq<seq<RelatedAction>>)
  {
    && TxRelatedActions(cx) == Ok(tx)
    && |parts| == |cx.OtxEntries()|
    && (forall i: nat | i < |parts| ::
          OtxContribution(cx, h, i).Ok? && OtxContribution(cx, h, i).value.actions == parts[i])
    && related == tx + Flatten(parts)
  }

  lemma RelatedParts(cx: CobuildContext, h: Blake2b, plan: LockValidationPlan)
    returns (tx: seq<RelatedAction>, parts: seq<seq<RelatedAction>>)
    requires PlanLock(cx, h) == Ok(plan)
    ensures RelatedMadeOf(cx, h, plan.relatedActions, tx, parts)
  {
    tx := TxRelatedActions(cx).value;
    var f := Contributions(cx, h);
    var cs := Collect(f, |cx.OtxEntries()|).value;
    parts := seq(|cs|, i requires 0 <= i < |cs| => cs[i].actions);
    forall i: nat | i < |parts| ensures OtxContribution(cx, h, i) == Ok(cs[i]) {
      assert f(i) == Ok(cs[i]);
    }
  }

  lemma OtxRelatedTargeted(tx: Tx, lock: Hash32, cx: CobuildContext, h: Blake2b, i: nat, actions: seq<RelatedAction>,
                           local: nat)
    requires cx.script == ContextOf(tx, CurrentLock(lock)) && i < |cx.OtxEntries()| && local < |actions|
    requires OtxContribution(cx, h, i).Ok? && OtxContribution(cx, h, i).value.actions == actions
    ensures var m := MessageBehind(cx, actions[local].origin); m.Some? && AllTargeted(tx, m.value)
  {
    OtxRelatedOrigin(cx, h, i, local);
    ContributingOtxTargeted(tx, lock, cx, h, i);
  }

  /** Every message that contributed a related action is aimed at scripts of the transaction, action by action. */
  lemma RelatedMessageTargeted(tx: Tx, lock: Hash32, h: Blake2b, cx: CobuildContext, plan: LockValidationPlan, k: nat)
    requires Build(tx, CurrentLock(lock)) == Ok(cx) && PlanLock(cx, h) == Ok(plan) && k < |plan.relatedActions|
    ensures var m := MessageBehind(cx, plan.relatedActions[k].origin); m.Some? && AllTargeted(tx, m.value)
  {
    SummariesOfWitnesses(tx, CurrentLock(lock), cx);
    var txPart, parts := RelatedParts(cx, h, plan);
    if k < |txPart| {
      TxRelatedTargeted(tx, lock, cx, txPart, k);
      assert plan.relatedActions[k] == txPart[k];
    } else {
      var i, local := JoinedAt(txPart, parts, k);
      OtxRelatedTargeted(tx, lock, cx, h, i, parts[i], local);
    }
  }

  lemma TxRelatedTargeted(tx: Tx, lock: Hash32, cx: CobuildContext, actions: seq<RelatedAction>, k: nat)
    requires cx.script == ContextOf(tx, CurrentLock(lock)) && TxRelatedActions(cx) == Ok(actions) && k < |actions|
    ensures var m := MessageBehind(cx, actions[k].origin); m.Some? && AllTargeted(tx, m.value)
  {
    CheckedIsTargeted(tx, CurrentLock(lock), cx, cx.witnesses.UniqueMessage().value.value.1);
  }

  lemma OtxRelatedOrigin(cx: CobuildContext, h: Blake2b, i: nat, local: nat)
    requires i < |cx.OtxEntries()| && OtxContribution(cx, h, i).Ok? && local < |OtxContribution(cx, h, i).value.actions|
    ensures OtxContribution(cx, h, i).value.actions[local].origin == OriginAt(cx, i)
  {
    var mine := Filter(MessageActions(cx.OtxEntries()[i].view.message).value, IsLockAction(LockHash(cx)));
    assert OtxContribution(cx, h, i).value.actions == WithOrigin(OriginAt(cx, i), mine);
  }
}
