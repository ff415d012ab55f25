/** The safety theorem of the lock: a transaction it accepts has every one of its inputs under a verified signature. */
module Coverage {
  import opened Base
  import opened View
  import opened Layout
  import opened Transaction
  import opened Preimage
  import opened Partition
  import opened Context
  import opened Plan
  import opened Engine
  import opened LockPlan
  import opened Entry
  import opened BuiltFacts
  import opened ExactPlan

  /** Input `index` lies in the part of the transaction that the requirement is about. */
  predicate Covers(cx: CobuildContext, r: SigningRequirement, index: nat) {
    match r.origin
    case TxLevel => cx.otxLayouts.Complete? ==> !cx.otxLayouts.layout.inputRange.Contains(index)
    case OtxBase =>
      exists i: nat | i < |cx.OtxEntries()| :: CarriedBy(cx, i, r.carrierWitnessIndex) && InPart(cx, i, Base, index)
    case OtxAppendSegment(j) =>
      exists i: nat | i < |cx.OtxEntries()| ::
        CarriedBy(cx, i, r.carrierWitnessIndex) && InPart(cx, i, Segment(j), index)
  }

  predicate InPart(cx: CobuildContext, i: nat, p: Part, index: nat) {
    Owns(cx.OtxEntries(), i, p, Inputs, index)
  }

  function OriginOf(p: Part): SignatureOrigin {
    match p
    case Base => OtxBase
    case Segment(j) => OtxAppendSegment(j)
  }

  /** An input inside the OTX range has exactly one owner, and its owner's requirement is demanded. */
  lemma OwnerDemands(tx: Tx, lock: Hash32, cx: CobuildContext, index: nat) returns (i: nat, p: Part)
    requires Build(tx, CurrentLock(lock)) == Ok(cx) && LockAt(tx, lock, index)
    requires cx.otxLayouts.Complete? && cx.otxLayouts.layout.inputRange.Contains(index)
    ensures InPart(cx, i, p, index) && Demands(cx, lock, OriginOf(p), cx.OtxEntries()[i].layout.witnessIndex)
    ensures forall j: nat, q: Part :: InPart(cx, j, q, index) ==> j == i && q == p
  {
    var s, start, otxs := LayoutOrigin(tx, CurrentLock(lock), cx);
    SummariesOfWitnesses(tx, CurrentLock(lock), cx);
    i, p := OwnerExists(StartCounts(start), otxs, Inputs, index);
    forall j: nat, q: Part | InPart(cx, j, q, index) ensures j == i && q == p {
      OwnerUnique(StartCounts(start), otxs, Inputs, index, i, p, j, q);
    }
    PartDemands(cx, lock, i, p, index);
  }

  lemma PartDemands(cx: CobuildContext, lock: Hash32, i: nat, p: Part, index: nat)
    requires LockAt(cx.tx, lock, index) && InPart(cx, i, p, index)
    ensures Demands(cx, lock, OriginOf(p), cx.OtxEntries()[i].layout.witnessIndex)
  {
    assert CarriedBy(cx, i, cx.OtxEntries()[i].layout.witnessIndex);
    assert LockInside(cx.tx, lock, cx.OtxEntries()[i].layout.PartOf(p, Inputs));
  }

  /** Outside the OTX range a tx-level requirement is demanded, as soon as anything is. */
  lemma OutsideDemands(tx: Tx, lock: Hash32, cx: CobuildContext, index: nat) returns (first: nat)
    requires Build(tx, CurrentLock(lock)) == Ok(cx) && LockAt(tx, lock, index)
    requires cx.otxLayouts.Complete? ==> !cx.otxLayouts.layout.inputRange.Contains(index)
    requires exists o, c :: Demands(cx, lock, o, c)
    ensures Demands(cx, lock, TxLevel, first)
  {
    SummariesOfWitnesses(tx, CurrentLock(lock), cx);
    LockInputsMeaning(tx, lock, LockInputs(cx));
    first := LockInputs(cx)[0];
    if cx.otxLayouts.Complete? {
      CompleteLayoutSetsFlag(tx, CurrentLock(lock), cx);
    }
  }

  /**
   * Lock coverage.  If the contract accepts, every input of the lock is covered by a requirement whose
   * signature verified: the tx-level one when the input stands outside the OTX range or there is none,
   * and otherwise the one of the single OTX part that owns the input.
   */
  lemma EveryLockInputIsCovered(tx: Tx, lock: Hash32, h: Blake2b, verify: Verifier, index: nat) returns (k: nat)
    requires Verdict(tx, lock, h, verify) == None && LockAt(tx, lock, index)
    ensures Build(tx, CurrentLock(lock)).Ok? && PlanOf(tx, lock, h).Ok?
    ensures var cx, rs := Build(tx, CurrentLock(lock)).value, PlanOf(tx, lock, h).value.requiredSignatures;
            && k < |rs|
            && verify(rs[k].seal, rs[k].signingMessageHash)
            && Covers(cx, rs[k], index)
  {
    var cx, plan := Build(tx, CurrentLock(lock)).value, PlanOf(tx, lock, h).value;
    var rs := plan.requiredSignatures;
    PlanIsExact(tx, lock, h, cx, plan);
    if cx.otxLayouts.Complete? && cx.otxLayouts.layout.inputRange.Contains(index) {
      var i, p := OwnerDemands(tx, lock, cx, index);
      var carrier := cx.OtxEntries()[i].layout.witnessIndex;
      assert CarriedBy(cx, i, carrier);
      k :| k < |rs| && rs[k].origin == OriginOf(p) && rs[k].carrierWitnessIndex == carrier;
    } else {
      assert Requires(rs, rs[0].origin, rs[0].carrierWitnessIndex);
      var first := OutsideDemands(tx, lock, cx, index);
      k :| k < |rs| && rs[k].origin == TxLevel && rs[k].carrierWitnessIndex == first;
    }
  }
}
