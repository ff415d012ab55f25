/** The plain case, end to end: from the bytes a witness builder prints to the contract's verdict. */
module Acceptance {
  import opened Base
  import opened Molecule
  import opened Entity
  import opened LazyReader
  import opened View
  import opened Layout
  import opened Collector
  import opened Witness
  import opened Language
  import opened Transaction
  import opened Preimage
  import opened Scope
  import opened LazyCodec
  import opened Context
  import opened Plan
  import opened Engine
  import opened LockPlan
  import opened Entry
  import opened BuiltFacts
  import opened ExactPlan
  import opened Binding

  function SealOnlyValue(seal: Bytes): Value { Items([Raw(seal)]) }

  function SealOnlyTable(seal: Bytes): Bytes { Offsetted([PackNumber(|seal|) + seal]) }

  lemma SealOnlyBuilt(seal: Bytes)
    ensures Typed(SighashAllOnlySchema(), SealOnlyValue(seal))
    ensures Molecule.Build(SighashAllOnlySchema(), SealOnlyValue(seal)) == SealOnlyTable(seal)
  {
    var v := SealOnlyValue(seal);
    var fields := SighashAllOnlySchema().fields;
    assert seq(|fields|, i requires 0 <= i < |fields| => Molecule.Build(fields[i], v.items[i]))
        == [PackNumber(|seal|) + seal];
  }

  /** The cursor looks at a SighashAllOnly witness with this seal. */
  predicate SealOnlyWitness(w: Cursor, seal: Bytes) {
    |SealOnlyTable(seal)| < U32_LIMIT && Window(w, PackNumber(SIGHASH_ALL_ONLY_ID) + SealOnlyTable(seal))
  }

  /** It is classified as such, and its seal is read back. */
  lemma SealOnlyClassified(w: Cursor, seal: Bytes) returns (c: Cursor)
    requires SealOnlyWitness(w, seal)
    ensures Classify(w) == Ok((SighashAllOnlySummary(c), Ignore)) && c.ReadAll(MalformedCobuild) == Ok(seal)
  {
    SealOnlyBuilt(seal);
    var v, table := SealOnlyValue(seal), SealOnlyTable(seal);
    var b := WitnessBuild(SIGHASH_ALL_ONLY_ID, v);
    WitnessBuildThenParse(SIGHASH_ALL_ONLY_ID, v);
    EncodedWitnessIsClassified(w, b);
    NumberOfPack(SIGHASH_ALL_ONLY_ID);
    NumberInside([], PackNumber(SIGHASH_ALL_ONLY_ID), table, 0);
    assert [] + PackNumber(SIGHASH_ALL_ONLY_ID) + table == b && b[4..] == table;
    var item := Cursor(w.source, w.offset + 4, w.size - 4);
    SighashAllOnlyAccepted(item, table);
    SplitOffsetted([PackNumber(|seal|) + seal]);
    assert Item(table, 0)[4..] == seal;
    c := SummarizeCobuild(SighashAllOnly(item)).value.seal;
  }

  lemma EmptyClassified(w: Cursor)
    requires w.size == 0
    ensures Classify(w) == Ok((Empty, Ignore))
  {}

  /** A transaction whose first input is the lock's, with one seal-only witness in front and no other. */
  predicate Plain(tx: Tx, lock: Hash32, seal: Bytes) {
    && LockAt(tx, lock, 0)
    && |tx.witnesses| > 0 && SealOnlyWitness(tx.witnesses[0], seal)
    && forall i: nat | 0 < i < |tx.witnesses| :: tx.witnesses[i].size == 0
  }

  lemma PlainScan(tx: Tx, lock: Hash32, seal: Bytes) returns (c: Cursor)
    requires Plain(tx, lock, seal)
    ensures c.ReadAll(MalformedCobuild) == Ok(seal)
    ensures var cs := Classified(tx.witnesses);
            && cs[0] == Ok((SighashAllOnlySummary(c), Ignore))
            && forall i: nat | 0 < i < |cs| :: cs[i] == Ok((Empty, Ignore))
  {
    c := SealOnlyClassified(tx.witnesses[0], seal);
    forall i: nat | 0 < i < |tx.witnesses| ensures Classify(tx.witnesses[i]) == Ok((Empty, Ignore)) {
      EmptyClassified(tx.witnesses[i]);
    }
  }

  lemma QuietScan(cs: seq<Classification>, limits: Counts)
    requires forall i: nat | i < |cs| :: cs[i].Ok? && cs[i].value.1 == Ignore
    ensures ScansTo(cs, limits, NoLayout)
  {
    ScanLanguage(cs, limits, BuiltLayout(Range(0, 0), Range(0, 0), []));
  }

  lemma PlainContext(tx: Tx, lock: Hash32, seal: Bytes) returns (cx: CobuildContext, c: Cursor)
    requires Plain(tx, lock, seal)
    ensures Engine.Build(tx, CurrentLock(lock)) == Ok(cx) && cx.otxLayouts == NoLayout
    ensures c.ReadAll(MalformedCobuild) == Ok(seal) && PlainSummaries(cx.witnesses, c)
  {
    c := PlainScan(tx, lock, seal);
    var cs := Classified(tx.witnesses);
    QuietScan(cs, tx.EntityCounts());
    cx := Engine.Build(tx, CurrentLock(lock)).value;
    SummariesOfWitnesses(tx, CurrentLock(lock), cx);
    assert forall i: nat | i < |cs| :: cx.witnesses.summaries[i] == cs[i].value.0;
  }

  /** A seal-only witness in front, empty ones behind it. */
  predicate PlainSummaries(scan: WitnessScan, c: Cursor) {
    && scan.hasCobuildWitnessLayout == HasCobuild(scan.summaries)
    && |scan.summaries| > 0 && scan.summaries[0] == SighashAllOnlySummary(c)
    && forall i: nat | 0 < i < |scan.summaries| :: scan.summaries[i].Empty?
  }

  lemma PlainScanAnswers(scan: WitnessScan, c: Cursor)
    requires PlainSummaries(scan, c)
    ensures scan.hasCobuildWitnessLayout && scan.UniqueMessage() == Ok(None)
    ensures scan.CarrierView(0) == Ok(SealOnly(c))
    ensures forall indices :: scan.OthersEmpty(indices, 0)
  {
    UniqueMessageMeaning(scan, |scan.summaries|);
    assert scan.summaries[0].IsCobuild();
  }

  lemma PlainTxLevel(tx: Tx, lock: Hash32, seal: Bytes, cx: CobuildContext, c: Cursor, h: Blake2b)
    requires Engine.Build(tx, CurrentLock(lock)) == Ok(cx) && cx.otxLayouts == NoLayout && LockAt(tx, lock, 0)
    requires c.ReadAll(MalformedCobuild) == Ok(seal) && PlainSummaries(cx.witnesses, c)
    requires TxSigningHash(h, None, tx).Ok?
    ensures TxLevelSignature(cx, h) == Ok([SigningRequirement(TxLevel, 0, seal, TxSigningHash(h, None, tx).value)])
  {
    PlainScanAnswers(cx.witnesses, c);
    SummariesOfWitnesses(tx, CurrentLock(lock), cx);
    LockInputsMeaning(tx, lock, LockInputs(cx));
    assert LockInputs(cx)[0] == 0;
    OneTxLevel(cx, seal, c, h);
  }

  lemma OneTxLevel(cx: CobuildContext, seal: Bytes, c: Cursor, h: Blake2b)
    requires cx.otxLayouts == NoLayout && LockInputs(cx) != [] && LockInputs(cx)[0] == 0
    requires cx.witnesses.hasCobuildWitnessLayout && cx.witnesses.UniqueMessage() == Ok(None)
    requires cx.witnesses.OthersEmpty(LockInputs(cx), 0) && cx.witnesses.CarrierView(0) == Ok(SealOnly(c))
    requires c.ReadAll(MalformedCobuild) == Ok(seal) && TxSigningHash(h, None, cx.tx).Ok?
    ensures TxLevelSignature(cx, h) == Ok([SigningRequirement(TxLevel, 0, seal, TxSigningHash(h, None, cx.tx).value)])
  {}

  lemma PlanJoins(cx: CobuildContext, h: Blake2b, tx: seq<SigningRequirement>, actions: seq<RelatedAction>,
                  cs: seq<Contribution>)
    requires cx.script.current.CurrentLock? && TxLevelSignature(cx, h) == Ok(tx) && TxRelatedActions(cx) == Ok(actions)
    requires Collect(Contributions(cx, h), |cx.OtxEntries()|) == Ok(cs) && !Uncovered(cx, tx + AllSignatures(cs))
    ensures PlanLock(cx, h) == Ok(LockValidationPlan(LockHash(cx), tx + AllSignatures(cs), actions + AllRelated(cs)))
  {}

  lemma NothingContributed(cx: CobuildContext, h: Blake2b)
    requires cx.otxLayouts == NoLayout
    ensures Collect(Contributions(cx, h), |cx.OtxEntries()|) == Ok([])
  {
    assert |cx.OtxEntries()| == 0;
  }

  lemma QuietPlan(cx: CobuildContext, h: Blake2b, rs: seq<SigningRequirement>)
    requires cx.script.current.CurrentLock? && cx.otxLayouts == NoLayout && cx.witnesses.UniqueMessage() == Ok(None)
    requires TxLevelSignature(cx, h) == Ok(rs)
    ensures PlanLock(cx, h) == Ok(LockValidationPlan(LockHash(cx), rs, []))
  {
    NothingContributed(cx, h);
    PlanJoins(cx, h, rs, [], []);
    assert rs + AllSignatures([]) == rs;
  }

  /**
   * The plain case: the contract accepts exactly when the verifier accepts the seal for the hash of the
   * message-free tx-level scope, and the only other verdict is a failed verification.
   */
  lemma PlainVerdict(tx: Tx, lock: Hash32, seal: Bytes, h: Blake2b, verify: Verifier)
    requires Plain(tx, lock, seal) && Readable(tx) && TxFits(TxScopeOf(None, tx))
    ensures Verdict(tx, lock, h, verify)
         == if verify(seal, h(TX_WITHOUT_MESSAGE_PERSONAL, EncodeTx(TxScopeOf(None, tx)))) then None
         else Some(VerifyFailure)
  {
    var cx, c := PlainContext(tx, lock, seal);
    TxHashNeverFaults(h, None, tx);
    PlainTxLevel(tx, lock, seal, cx, c, h);
    var rs := [SigningRequirement(TxLevel, 0, seal, TxSigningHash(h, None, tx).value)];
    SummariesOfWitnesses(tx, CurrentLock(lock), cx);
    PlainScanAnswers(cx.witnesses, c);
    QuietPlan(cx, h, rs);
    JudgeOne(PlanOf(tx, lock, h), verify, rs[0]);
  }

  lemma JudgeOne(plan: Result<LockValidationPlan>, verify: Verifier, r: SigningRequirement)
    requires plan.Ok? && plan.value.requiredSignatures == [r]
    ensures Judge(plan, verify) == if verify(r.seal, r.signingMessageHash) then None else Some(VerifyFailure)
  {
    assert AllVerify([r], verify) == verify([r][0].seal, [r][0].signingMessageHash);
  }
}
