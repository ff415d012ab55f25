/** The contract's verdict on every transaction, said without planner, builder or writers. */
module ExactVerdict {
  import opened Base
  import opened View
  import opened Layout
  import opened Transaction
  import opened Preimage
  import opened Scope
  import opened Context
  import opened Plan
  import opened Engine
  import opened LockPlan
  import opened Entry
  import opened BuiltFacts
  import opened ExactPlan
  import opened Agreement
  import opened Binding
  import opened PlanSuccess
  import opened LockFaults

  /** The bytes of the one readable seal for the lock. */
  predicate SealIs(lock: Hash32, seals: seq<LockSealView>, seal: Bytes) {
    exists k: nat | k < |seals| ::
      OnlySeal(lock, seals, |seals|, k) && seals[k].seal.ReadAll(MalformedCobuild) == Ok(seal)
  }

  function BaseHashOf(h: Blake2b, e: OtxLayoutEntry, tx: Tx): Hash32
    requires Placed(e.view, e.layout, tx)
  {
    h(OTX_BASE_PERSONAL, EncodeBase(BaseScopeOf(e.view, e.layout, tx)))
  }

  /** The seal and the hash that answer a demand: the carrier's own seal, and the hash of the encoded scope. */
  predicate TxAnswer(cx: CobuildContext, h: Blake2b, carrier: nat, seal: Bytes, hash: Hash32) {
    && Readable(cx.tx) && cx.witnesses.UniqueMessage().Ok?
    && carrier < |cx.witnesses.summaries|
    && CarrierSeal(cx.witnesses.summaries[carrier]).Some?
    && CarrierSeal(cx.witnesses.summaries[carrier]).value.ReadAll(MalformedCobuild) == Ok(seal)
    && var m := MessageOf(cx.witnesses.UniqueMessage().value);
       (m.Some? ==> m.value.InBounds()) && hash == h(TxPersonal(m), EncodeTx(TxScopeOf(m, cx.tx)))
  }

  predicate BaseAnswer(cx: CobuildContext, h: Blake2b, lock: Hash32, i: nat, seal: Bytes, hash: Hash32)
    requires i < |cx.OtxEntries()|
  {
    var e := cx.OtxEntries()[i];
    Placed(e.view, e.layout, cx.tx) && SealIs(lock, e.view.baseSeals, seal) && hash == BaseHashOf(h, e, cx.tx)
  }

  predicate SegmentAnswer(cx: CobuildContext, h: Blake2b, lock: Hash32, i: nat, j: nat, seal: Bytes, hash: Hash32)
    requires i < |cx.OtxEntries()|
  {
    var e := cx.OtxEntries()[i];
    && Placed(e.view, e.layout, cx.tx) && j < |e.view.appendSegments|
    && SealIs(lock, e.view.appendSegments[j].seals, seal)
    && IsAppendHash(h, AppendScopeOf(e.view, e.layout, cx.tx, j, BaseHashOf(h, e, cx.tx)), hash)
  }

  predicate Answers(cx: CobuildContext, h: Blake2b, lock: Hash32, o: SignatureOrigin, carrier: nat, seal: Bytes,
                    hash: Hash32)
  {
    match o
    case TxLevel => TxAnswer(cx, h, carrier, seal, hash)
    case OtxBase =>
      exists i: nat | i < |cx.OtxEntries()| :: CarriedBy(cx, i, carrier) && BaseAnswer(cx, h, lock, i, seal, hash)
    case OtxAppendSegment(j) =>
      exists i: nat | i < |cx.OtxEntries()| ::
        CarriedBy(cx, i, carrier) && SegmentAnswer(cx, h, lock, i, j, seal, hash)
  }

  lemma SealIsMeaning(lock: Hash32, seals: seq<LockSealView>, seal: Bytes)
    ensures UniqueLockSeal(lock, seals) == Ok(seal) <==> SealIs(lock, seals, seal)
  {
    UniqueLockSealMeaning(lock, seals, seal);
    if k: nat :| OnlySeal(lock, seals, |seals|, k) && seals[k].seal.ReadAll(MalformedCobuild) == Ok(seal) {
      assert k < |seals|;
    }
  }

  lemma BaseIsAnswer(cx: CobuildContext, h: Blake2b, lock: Hash32, i: nat, seal: Bytes, hash: Hash32)
    requires i < |cx.OtxEntries()| && Placed(cx.OtxEntries()[i].view, cx.OtxEntries()[i].layout, cx.tx)
    requires UniqueLockSeal(lock, cx.OtxEntries()[i].view.baseSeals) == Ok(seal)
    requires OtxBaseHash(h, cx.OtxEntries()[i].view, cx.OtxEntries()[i].layout, cx.tx) == Ok(hash)
    ensures BaseAnswer(cx, h, lock, i, seal, hash)
  {
    PlacedHashes(h, cx.OtxEntries()[i], cx.tx);
    SealIsMeaning(lock, cx.OtxEntries()[i].view.baseSeals, seal);
  }

  lemma SegmentIsAnswer(cx: CobuildContext, h: Blake2b, lock: Hash32, i: nat, j: nat, base: Hash32, seal: Bytes,
                        hash: Hash32)
    requires i < |cx.OtxEntries()| && Placed(cx.OtxEntries()[i].view, cx.OtxEntries()[i].layout, cx.tx)
    requires j < |cx.OtxEntries()[i].view.appendSegments|
    requires UniqueLockSeal(lock, cx.OtxEntries()[i].view.appendSegments[j].seals) == Ok(seal)
    requires OtxBaseHash(h, cx.OtxEntries()[i].view, cx.OtxEntries()[i].layout, cx.tx) == Ok(base)
    requires AppendSegmentHash(h, cx.OtxEntries()[i].view, cx.OtxEntries()[i].layout, j, cx.tx, base) == Ok(hash)
    ensures SegmentAnswer(cx, h, lock, i, j, seal, hash)
  {
    PlacedHashes(h, cx.OtxEntries()[i], cx.tx);
    SealIsMeaning(lock, cx.OtxEntries()[i].view.appendSegments[j].seals, seal);
    assert base == BaseHashOf(h, cx.OtxEntries()[i], cx.tx);
  }

  lemma JustifiedAnswers(cx: CobuildContext, h: Blake2b, lock: Hash32, i: nat, r: SigningRequirement)
    requires i < |cx.OtxEntries()| && LockHash(cx) == lock && Justified(cx, h, cx.OtxEntries()[i], r)
    requires Placed(cx.OtxEntries()[i].view, cx.OtxEntries()[i].layout, cx.tx)
    ensures Answers(cx, h, lock, r.origin, r.carrierWitnessIndex, r.seal, r.signingMessageHash)
  {
    var e := cx.OtxEntries()[i];
    assert CarriedBy(cx, i, r.carrierWitnessIndex);
    match r.origin
    case OtxBase => BaseIsAnswer(cx, h, lock, i, r.seal, r.signingMessageHash);
    case OtxAppendSegment(j) =>
      SegmentIsAnswer(cx, h, lock, i, j, OtxBaseHash(h, e.view, e.layout, cx.tx).value, r.seal, r.signingMessageHash);
  }

  lemma TxLevelAnswers(tx: Tx, lock: Hash32, cx: CobuildContext, h: Blake2b, r: SigningRequirement)
    requires Build(tx, CurrentLock(lock)) == Ok(cx) && Readable(tx) && TxLevelHolds(cx, h, r)
    ensures TxAnswer(cx, h, r.carrierWitnessIndex, r.seal, r.signingMessageHash)
  {
    SummariesOfWitnesses(tx, CurrentLock(lock), cx);
    CarrierMeaning(cx.witnesses, r.carrierWitnessIndex);
    var unique := cx.witnesses.UniqueMessage().value;
    if unique.Some? {
      UniqueMessageGood(tx, CurrentLock(lock), cx, unique.value.0, unique.value.1);
    }
    TxHashNeverFaults(h, MessageOf(unique), tx);
  }

  /** A planned requirement carries an answer to its own demand. */
  lemma PlannedAnswers(tx: Tx, lock: Hash32, cx: CobuildContext, h: Blake2b, plan: LockValidationPlan, k: nat)
    requires Build(tx, CurrentLock(lock)) == Ok(cx) && Readable(tx) && PlanLock(cx, h) == Ok(plan)
    requires k < |plan.requiredSignatures|
    ensures var r := plan.requiredSignatures[k];
            Answers(cx, h, lock, r.origin, r.carrierWitnessIndex, r.seal, r.signingMessageHash)
  {
    var r := plan.requiredSignatures[k];
    SummariesOfWitnesses(tx, CurrentLock(lock), cx);
    if r.origin.TxLevel? {
      PlannedTxLevelHolds(tx, lock, h, cx, plan, k);
      TxLevelAnswers(tx, lock, cx, h, r);
    } else {
      PlanIsExact(tx, lock, h, cx, plan);
      var i: nat :| i < |cx.OtxEntries()| && Justified(cx, h, cx.OtxEntries()[i], r);
      EntrySound(tx, CurrentLock(lock), cx, i);
      JustifiedAnswers(cx, h, lock, i, r);
    }
  }

  lemma SealsAgree(lock: Hash32, seals: seq<LockSealView>, a: Bytes, b: Bytes)
    requires SealIs(lock, seals, a) && SealIs(lock, seals, b)
    ensures a == b
  {
    SealIsMeaning(lock, seals, a);
    SealIsMeaning(lock, seals, b);
  }

  lemma BaseAnswersAgree(cx: CobuildContext, h: Blake2b, lock: Hash32, i: nat, a: Bytes, x: Hash32, b: Bytes, y: Hash32)
    requires i < |cx.OtxEntries()|
    requires BaseAnswer(cx, h, lock, i, a, x) && BaseAnswer(cx, h, lock, i, b, y)
    ensures a == b && x == y
  {
    SealsAgree(lock, cx.OtxEntries()[i].view.baseSeals, a, b);
  }

  lemma SegmentAnswersAgree(cx: CobuildContext, h: Blake2b, lock: Hash32, i: nat, j: nat,
                            a: Bytes, x: Hash32, b: Bytes, y: Hash32)
    requires i < |cx.OtxEntries()|
    requires SegmentAnswer(cx, h, lock, i, j, a, x) && SegmentAnswer(cx, h, lock, i, j, b, y)
    ensures a == b && x == y
  {
    SealsAgree(lock, cx.OtxEntries()[i].view.appendSegments[j].seals, a, b);
  }

  /** A demand has one answer. */
  lemma AnswersAgree(cx: CobuildContext, h: Blake2b, lock: Hash32, o: SignatureOrigin, carrier: nat,
                     a: Bytes, x: Hash32, b: Bytes, y: Hash32)
    requires WitnessesAscend(cx)
    requires Answers(cx, h, lock, o, carrier, a, x) && Answers(cx, h, lock, o, carrier, b, y)
    ensures a == b && x == y
  {
    match o
    case TxLevel =>
    case OtxBase =>
      var i: nat :| i < |cx.OtxEntries()| && CarriedBy(cx, i, carrier) && BaseAnswer(cx, h, lock, i, a, x);
      var n: nat :| n < |cx.OtxEntries()| && CarriedBy(cx, n, carrier) && BaseAnswer(cx, h, lock, n, b, y);
      SameCarrierSameOtx(cx, i, n, carrier);
      BaseAnswersAgree(cx, h, lock, i, a, x, b, y);
    case OtxAppendSegment(j) =>
      var i: nat :| i < |cx.OtxEntries()| && CarriedBy(cx, i, carrier) && SegmentAnswer(cx, h, lock, i, j, a, x);
      var n: nat :| n < |cx.OtxEntries()| && CarriedBy(cx, n, carrier) && SegmentAnswer(cx, h, lock, n, j, b, y);
      SameCarrierSameOtx(cx, i, n, carrier);
      SegmentAnswersAgree(cx, h, lock, i, j, a, x, b, y);
  }

  /** The verifier accepts the answer to every demand. */
  ghost predicate AllAnswersVerify(cx: CobuildContext, h: Blake2b, lock: Hash32, verify: Verifier) {
    forall o, carrier, seal, hash |
      Demands(cx, lock, o, carrier) && Answers(cx, h, lock, o, carrier, seal, hash) :: verify(seal, hash)
  }

  /** The transaction calls for some signature of the lock. */
  ghost predicate SomeDemand(cx: CobuildContext, lock: Hash32) {
    exists o, carrier :: Demands(cx, lock, o, carrier)
  }

  ghost predicate Accepts(tx: Tx, lock: Hash32, h: Blake2b, verify: Verifier) {
    && Build(tx, CurrentLock(lock)).Ok?
    && var cx := Build(tx, CurrentLock(lock)).value;
       && Plannable(cx, lock)
       && SomeDemand(cx, lock)
       && AllAnswersVerify(cx, h, lock, verify)
  }

  lemma PlannedVerify(tx: Tx, lock: Hash32, cx: CobuildContext, h: Blake2b, plan: LockValidationPlan, verify: Verifier)
    requires Build(tx, CurrentLock(lock)) == Ok(cx) && Readable(tx) && PlanLock(cx, h) == Ok(plan)
    ensures AllVerify(plan.requiredSignatures, verify) <==> AllAnswersVerify(cx, h, lock, verify)
  {
    var rs := plan.requiredSignatures;
    PlanIsExact(tx, lock, h, cx, plan);
    BuiltWitnessesAscend(tx, CurrentLock(lock), cx);
    if AllVerify(rs, verify) {
      forall o, carrier, seal, hash | Demands(cx, lock, o, carrier) && Answers(cx, h, lock, o, carrier, seal, hash)
        ensures verify(seal, hash)
      {
        var k: nat :| k < |rs| && rs[k].origin == o && rs[k].carrierWitnessIndex == carrier;
        PlannedAnswers(tx, lock, cx, h, plan, k);
        AnswersAgree(cx, h, lock, o, carrier, seal, hash, rs[k].seal, rs[k].signingMessageHash);
      }
    }
    if AllAnswersVerify(cx, h, lock, verify) {
      forall k: nat | k < |rs| ensures verify(rs[k].seal, rs[k].signingMessageHash) {
        assert Requires(rs, rs[k].origin, rs[k].carrierWitnessIndex);
        PlannedAnswers(tx, lock, cx, h, plan, k);
      }
    }
  }

  lemma SomethingDemanded(tx: Tx, lock: Hash32, cx: CobuildContext, h: Blake2b, plan: LockValidationPlan)
    requires Build(tx, CurrentLock(lock)) == Ok(cx) && PlanLock(cx, h) == Ok(plan)
    ensures plan.requiredSignatures != [] <==> SomeDemand(cx, lock)
  {
    var rs := plan.requiredSignatures;
    PlanIsExact(tx, lock, h, cx, plan);
    if rs != [] {
      assert Requires(rs, rs[0].origin, rs[0].carrierWitnessIndex);
    }
  }

  /**
   * The exact verdict.  The contract accepts a transaction if and only if its witnesses scan, the transaction is
   * plannable for the lock, it calls for some signature, and the verifier accepts, for every one it calls for, the
   * seal in its place over the hash of the encoded scope.
   */
  lemma VerdictIsExact(tx: Tx, lock: Hash32, h: Blake2b, verify: Verifier)
    requires Readable(tx)
    ensures Verdict(tx, lock, h, verify) == None <==> Accepts(tx, lock, h, verify)
  {
    var built := Build(tx, CurrentLock(lock));
    if built.Ok? {
      var cx := built.value;
      PlanSucceedsExactly(tx, lock, cx, h);
      if PlanLock(cx, h).Ok? {
        PlannedVerify(tx, lock, cx, h, PlanLock(cx, h).value, verify);
        SomethingDemanded(tx, lock, cx, h, PlanLock(cx, h).value);
      }
    }
  }

  /**
   * Every verdict.  The four cases exclude each other: nothing to sign is a semantic failure, a refused answer a
   * verification failure, and every core error is the build's or the planner's first fault.
   */
  lemma EveryVerdict(tx: Tx, lock: Hash32, h: Blake2b, verify: Verifier, c: nat)
    requires Readable(tx) && (FirstLock(tx, lock, c) || forall n: nat :: !LockAt(tx, lock, n))
    ensures var built := Build(tx, CurrentLock(lock));
            match Verdict(tx, lock, h, verify)
            case None =>
              && built.Ok? && AllPlaced(built.value) && LockFault(built.value, lock, c).None?
              && SomeDemand(built.value, lock)
              && AllAnswersVerify(built.value, h, lock, verify)
            case Some(LockSemanticFailure) =>
              && built.Ok? && AllPlaced(built.value) && LockFault(built.value, lock, c).None?
              && !SomeDemand(built.value, lock)
            case Some(VerifyFailure) =>
              && built.Ok? && AllPlaced(built.value) && LockFault(built.value, lock, c).None?
              && SomeDemand(built.value, lock)
              && !AllAnswersVerify(built.value, h, lock, verify)
            case Some(Core(e)) =>
              built == Err(e) || (built.Ok? && AllPlaced(built.value) && LockFault(built.value, lock, c) == Some(e))
  {
    var built := Build(tx, CurrentLock(lock));
    if built.Ok? {
      var cx := built.value;
      PlanFaultIsExact(tx, lock, cx, h, c);
      if PlanLock(cx, h).Ok? {
        PlannedVerify(tx, lock, cx, h, PlanLock(cx, h).value, verify);
        SomethingDemanded(tx, lock, cx, h, PlanLock(cx, h).value);
      }
    }
  }
}
