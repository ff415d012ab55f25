/** What a tx-level requirement signs does not depend on the lock that plans it. */
module Agreement {
  import opened Base
  import opened LazyReader
  import opened Transaction
  import opened Preimage
  import opened Witness
  import opened Context
  import opened Plan
  import opened Engine
  import opened LockPlan
  import opened BuiltFacts
  import opened ExactPlan

  /** A carrier with a message is the transaction's one SighashAll witness, so its message is the unique one. */
  lemma CarrierMessageIsUnique(cx: CobuildContext, index: nat, seal: Cursor, message: Cursor)
    requires cx.witnesses.CarrierView(index) == Ok(WithMessage(seal, message)) && cx.witnesses.UniqueMessage().Ok?
    ensures cx.witnesses.UniqueMessage() == Ok(Some((index, message)))
  {
    UniqueMessageMeaning(cx.witnesses, |cx.witnesses.summaries|);
  }

  function MessageOf(unique: Option<(nat, Cursor)>): Option<Cursor> {
    if unique.Some? then Some(unique.value.1) else None
  }

  /** So the fallback to the carrier's own message is never taken. */
  lemma SignedMessageIsUnique(cx: CobuildContext, index: nat)
    requires cx.witnesses.CarrierView(index).Ok? && cx.witnesses.UniqueMessage().Ok?
    ensures var unique := cx.witnesses.UniqueMessage().value;
            SignedMessage(unique, cx.witnesses.CarrierView(index).value) == MessageOf(unique)
  {
    var carrier := cx.witnesses.CarrierView(index).value;
    if carrier.WithMessage? {
      CarrierMessageIsUnique(cx, index, carrier.seal, carrier.message);
    }
  }

  /** What a planned tx-level requirement is made of. */
  predicate TxLevelHolds(cx: CobuildContext, h: Blake2b, r: SigningRequirement) {
    && LockInputs(cx) != []
    && r.carrierWitnessIndex == LockInputs(cx)[0]
    && cx.witnesses.OthersEmpty(LockInputs(cx), r.carrierWitnessIndex)
    && cx.witnesses.CarrierView(r.carrierWitnessIndex).Ok?
    && cx.witnesses.CarrierView(r.carrierWitnessIndex).value.seal.ReadAll(MalformedCobuild) == Ok(r.seal)
    && cx.witnesses.UniqueMessage().Ok?
    && TxSigningHash(h, MessageOf(cx.witnesses.UniqueMessage().value), cx.tx) == Ok(r.signingMessageHash)
  }

  lemma TxLevelSignatureHolds(cx: CobuildContext, h: Blake2b, tx: seq<SigningRequirement>, k: nat)
    requires TxLevelSignature(cx, h) == Ok(tx) && k < |tx|
    ensures TxLevelHolds(cx, h, tx[k])
  {
    SignedMessageIsUnique(cx, LockInputs(cx)[0]);
  }

  lemma PlannedTxLevelHolds(tx: Tx, lock: Hash32, h: Blake2b, cx: CobuildContext, plan: LockValidationPlan, k: nat)
    requires Build(tx, CurrentLock(lock)) == Ok(cx) && PlanLock(cx, h) == Ok(plan)
    requires k < |plan.requiredSignatures| && plan.requiredSignatures[k].origin == TxLevel
    ensures TxLevelHolds(cx, h, plan.requiredSignatures[k])
  {
    var rs := plan.requiredSignatures;
    var txPart, ss := PlanParts(cx, h, plan);
    if k >= |txPart| {
      var i, local := OtxPartAt(cx, h, rs, txPart, ss, k);
    } else {
      TxLevelSignatureHolds(cx, h, txPart, k);
      assert rs[k] == txPart[k];
    }
  }

  /** Only an empty witness is summarised as empty. */
  lemma EmptySummary(w: Cursor)
    requires Classify(w).Ok?
    ensures Classify(w).value.0.Empty? <==> w.size == 0
  {}

  /** Every other witness of the group is absent or empty. */
  predicate OnlyCarrierSpeaks(tx: Tx, lock: Hash32, carrier: nat) {
    forall n: nat | n < |tx.inputs| && LockAt(tx, lock, n) && n != carrier ::
      n >= |tx.witnesses| || tx.witnesses[n].size == 0
  }

  lemma CarrierOfGroup(tx: Tx, lock: Hash32, h: Blake2b, cx: CobuildContext, plan: LockValidationPlan, k: nat)
    requires Build(tx, CurrentLock(lock)) == Ok(cx) && PlanLock(cx, h) == Ok(plan)
    requires k < |plan.requiredSignatures| && plan.requiredSignatures[k].origin == TxLevel
    ensures FirstLock(tx, lock, plan.requiredSignatures[k].carrierWitnessIndex)
    ensures OnlyCarrierSpeaks(tx, lock, plan.requiredSignatures[k].carrierWitnessIndex)
  {
    PlannedTxLevelHolds(tx, lock, h, cx, plan, k);
    SummariesOfWitnesses(tx, CurrentLock(lock), cx);
    LockInputsMeaning(tx, lock, LockInputs(cx));
    var carrier := plan.requiredSignatures[k].carrierWitnessIndex;
    forall n: nat | n < |tx.inputs| && LockAt(tx, lock, n) && n != carrier
      ensures n >= |tx.witnesses| || tx.witnesses[n].size == 0
    {
      assert n in LockInputs(cx);
      if n < |tx.witnesses| {
        EmptySummary(tx.witnesses[n]);
      }
    }
  }

  /** The scan does not depend on the running script. */
  lemma ScanIgnoresScript(tx: Tx, a: CurrentScript, b: CurrentScript)
    ensures Build(tx, a).Ok? <==> Build(tx, b).Ok?
    ensures Build(tx, a).Ok? ==> Build(tx, a).value.witnesses == Build(tx, b).value.witnesses
  {}

  /**
   * Agreement across lock groups: two locks of one transaction that both plan a tx-level requirement ask
   * for a signature over the same hash, whatever their carriers look like; each carrier is the first input
   * of its own group, and no other witness of the group says anything.
   */
  lemma LockGroupsAgree(tx: Tx, a: Hash32, b: Hash32, h: Blake2b, p: LockValidationPlan, q: LockValidationPlan,
                        k: nat, l: nat)
    requires Build(tx, CurrentLock(a)).Ok? && PlanLock(Build(tx, CurrentLock(a)).value, h) == Ok(p)
    requires Build(tx, CurrentLock(b)).Ok? && PlanLock(Build(tx, CurrentLock(b)).value, h) == Ok(q)
    requires k < |p.requiredSignatures| && p.requiredSignatures[k].origin == TxLevel
    requires l < |q.requiredSignatures| && q.requiredSignatures[l].origin == TxLevel
    ensures p.requiredSignatures[k].signingMessageHash == q.requiredSignatures[l].signingMessageHash
    ensures FirstLock(tx, a, p.requiredSignatures[k].carrierWitnessIndex)
    ensures FirstLock(tx, b, q.requiredSignatures[l].carrierWitnessIndex)
    ensures OnlyCarrierSpeaks(tx, a, p.requiredSignatures[k].carrierWitnessIndex)
    ensures OnlyCarrierSpeaks(tx, b, q.requiredSignatures[l].carrierWitnessIndex)
  {
    var ca, cb := Build(tx, CurrentLock(a)).value, Build(tx, CurrentLock(b)).value;
    ScanIgnoresScript(tx, CurrentLock(a), CurrentLock(b));
    PlannedTxLevelHolds(tx, a, h, ca, p, k);
    PlannedTxLevelHolds(tx, b, h, cb, q, l);
    CarrierOfGroup(tx, a, h, ca, p, k);
    CarrierOfGroup(tx, b, h, cb, q, l);
  }
}
