/**
 * When the planner succeeds, said of the transaction: the conditions are one SighashAll message at most, readable
 * seals where the lock occurs, quiet witnesses beside the carrier, real targets, and lengths that fit.
 */
module PlanSuccess {
  import opened Base
  import opened LazyReader
  import opened View
  import opened Layout
  import opened Transaction
  import opened Preimage
  import opened Scope
  import opened Witness
  import opened Context
  import opened Plan
  import opened Engine
  import opened LockPlan
  import opened BuiltFacts
  import opened ExactPlan
  import opened Agreement
  import opened Binding
  import opened FinalCheck
  import opened Related

  // ---------- messages ----------

  /** Some action of the message is aimed at this lock. */
  predicate Concerns(message: Cursor, lock: Hash32) {
    && MessageActions(message).Ok?
    && exists k: nat | k < |MessageActions(message).value| ::
         AimedAtLock(MessageActions(message).value[k], lock)
  }

  /** The actions can be read; and they have their targets, if the message is signed or concerns the lock. */
  predicate Usable(tx: Tx, lock: Hash32, message: Cursor, signed: bool) {
    MessageActions(message).Ok? && (signed || Concerns(message, lock) ==> AllTargeted(tx, message))
  }

  lemma TargetsExistMeaning(tx: Tx, current: CurrentScript, cx: CobuildContext, message: Cursor)
    requires cx.script == ContextOf(tx, current) && MessageActions(message).Ok?
    ensures cx.script.TargetsExist(MessageActions(message).value) <==> AllTargeted(tx, message)
  {
    var actions := MessageActions(message).value;
    forall k: nat | k < |actions| ensures cx.script.HasTarget(actions[k]) <==> TargetInTx(tx, actions[k]) {
      TargetMeaning(tx, current, actions[k]);
    }
  }

  lemma {:induction false} FilterMeaning<T>(xs: seq<T>, p: T -> bool)
    ensures Filter(xs, p) == [] <==> forall k: nat | k < |xs| :: !p(xs[k])
  {
    if xs == [] {
    } else {
      var n := |xs| - 1;
      FilterMeaning(xs[..n], p);
      assert forall k: nat | k < n :: xs[..n][k] == xs[k];
      if Filter(xs, p) == [] {
        assert !p(xs[n]) && Filter(xs[..n], p) == [];
      }
    }
  }

  lemma MineMeaning(message: Cursor, lock: Hash32)
    requires MessageActions(message).Ok?
    ensures Filter(MessageActions(message).value, IsLockAction(lock)) != [] <==> Concerns(message, lock)
  {
    FilterMeaning(MessageActions(message).value, IsLockAction(lock));
  }

  // ---------- the tx-level part ----------

  /** At most one SighashAll witness, and its message is usable. */
  predicate MessageReady(cx: CobuildContext, lock: Hash32, signed: bool) {
    && (forall i: nat, j: nat | i < j < |cx.witnesses.summaries| ::
          !(cx.witnesses.summaries[i].SighashAllSummary? && cx.witnesses.summaries[j].SighashAllSummary?))
    && (forall w: nat | w < |cx.witnesses.summaries| && cx.witnesses.summaries[w].SighashAllSummary? ::
          Usable(cx.tx, lock, cx.witnesses.summaries[w].message, signed))
  }

  predicate TxLevelDemanded(cx: CobuildContext, lock: Hash32) {
    exists c: nat | c < |cx.tx.inputs| :: Demands(cx, lock, TxLevel, c)
  }

  /** The seal of a carrier witness. */
  function CarrierSeal(s: Summary): Option<Cursor> {
    match s
    case SighashAllSummary(seal, _) => Some(seal)
    case SighashAllOnlySummary(seal) => Some(seal)
    case _ => None
  }

  /** Witness `c` is a carrier with a readable seal, and the rest of the group is silent. */
  predicate CarrierReady(cx: CobuildContext, lock: Hash32, c: nat) {
    && OnlyCarrierSpeaks(cx.tx, lock, c)
    && c < |cx.witnesses.summaries|
    && CarrierSeal(cx.witnesses.summaries[c]).Some?
    && CarrierSeal(cx.witnesses.summaries[c]).value.ReadAll(MalformedCobuild).Ok?
  }

  /** Every cell's data and every trailing witness has a four-byte length. */
  predicate TxLengthsFit(tx: Tx) { Readable(tx) && TxFits(TxScopeOf(None, tx)) }

  predicate TxLevelReady(cx: CobuildContext, lock: Hash32) {
    && MessageReady(cx, lock, TxLevelDemanded(cx, lock))
    && forall c: nat | c < |cx.tx.inputs| && Demands(cx, lock, TxLevel, c) ::
         CarrierReady(cx, lock, c) && TxLengthsFit(cx.tx)
  }

  /** The same, said of the message search. */
  lemma MessageReadyMeaning(cx: CobuildContext, lock: Hash32, signed: bool)
    ensures MessageReady(cx, lock, signed) <==>
              && cx.witnesses.UniqueMessage().Ok?
              && (cx.witnesses.UniqueMessage().value.Some? ==>
                    Usable(cx.tx, lock, cx.witnesses.UniqueMessage().value.value.1, signed))
  {
    UniqueMessageMeaning(cx.witnesses, |cx.witnesses.summaries|);
  }

  lemma RelatedSucceeds(tx: Tx, lock: Hash32, cx: CobuildContext)
    requires cx.tx == tx && cx.script == ContextOf(tx, CurrentLock(lock))
    ensures TxRelatedActions(cx).Ok? <==> MessageReady(cx, lock, false)
  {
    MessageReadyMeaning(cx, lock, false);
    var unique := cx.witnesses.UniqueMessage();
    if unique.Ok? && unique.value.Some? && MessageActions(unique.value.value.1).Ok? {
      TargetsExistMeaning(tx, CurrentLock(lock), cx, unique.value.value.1);
      MineMeaning(unique.value.value.1, lock);
    }
  }

  /** What the tx-level step checks, once the unique message is known. */
  lemma TxLevelSteps(cx: CobuildContext, h: Blake2b, c: nat)
    requires cx.witnesses.hasCobuildWitnessLayout && NeedsTxLevelSignature(cx) && LockInputs(cx)[0] == c
    requires cx.witnesses.UniqueMessage().Ok?
    ensures var m := MessageOf(cx.witnesses.UniqueMessage().value);
            TxLevelSignature(cx, h).Ok? <==>
              && cx.witnesses.OthersEmpty(LockInputs(cx), c)
              && cx.witnesses.CarrierView(c).Ok?
              && (m.Some? ==> cx.CheckedMessageActions(m.value).Ok?)
              && TxSigningHash(h, m, cx.tx).Ok?
              && cx.witnesses.CarrierView(c).value.seal.ReadAll(MalformedCobuild).Ok?
  {
    if cx.witnesses.CarrierView(c).Ok? {
      SignedMessageIsUnique(cx, c);
    }
  }

  lemma QuietMeaning(tx: Tx, lock: Hash32, cx: CobuildContext, c: nat)
    requires Build(tx, CurrentLock(lock)) == Ok(cx)
    ensures cx.witnesses.OthersEmpty(LockInputs(cx), c) <==> OnlyCarrierSpeaks(tx, lock, c)
  {
    SummariesOfWitnesses(tx, CurrentLock(lock), cx);
    LockInputsMeaning(tx, lock, LockInputs(cx));
    forall n: nat | n < |tx.witnesses| ensures cx.witnesses.summaries[n].Empty? <==> tx.witnesses[n].size == 0 {
      EmptySummary(tx.witnesses[n]);
    }
    OthersMeaning(cx.witnesses, LockInputs(cx), c);
    if OnlyCarrierSpeaks(tx, lock, c) {
      forall n: nat | n in LockInputs(cx) && n != c ensures n >= |tx.witnesses| || cx.witnesses.summaries[n].Empty? {
        assert LockAt(tx, lock, n);
      }
    }
  }

  lemma OthersMeaning(scan: WitnessScan, indices: seq<nat>, c: nat)
    ensures scan.OthersEmpty(indices, c) <==>
              forall n: nat | n in indices && n != c :: n >= |scan.summaries| || scan.summaries[n].Empty?
  {
    if forall n: nat | n in indices && n != c :: n >= |scan.summaries| || scan.summaries[n].Empty? {
      assert forall i: nat | i < |indices| :: indices[i] in indices;
    }
  }

  lemma CarrierMeaning(scan: WitnessScan, c: nat)
    ensures scan.CarrierView(c).Ok? <==> c < |scan.summaries| && CarrierSeal(scan.summaries[c]).Some?
    ensures scan.CarrierView(c).Ok? ==> CarrierSeal(scan.summaries[c]) == Some(scan.CarrierView(c).value.seal)
  {}

  lemma TxLengths(h: Blake2b, m: Option<Cursor>, tx: Tx)
    requires Readable(tx) && (m.Some? ==> m.value.InBounds())
    ensures TxSigningHash(h, m, tx).Ok? <==> TxLengthsFit(tx)
  {
    TxHashNeverFaults(h, m, tx);
    assert TxScopeOf(m, tx).cells == TxScopeOf(None, tx).cells;
    assert TxScopeOf(m, tx).extraWitnesses == TxScopeOf(None, tx).extraWitnesses;
  }

  lemma TxDemandMeaning(tx: Tx, lock: Hash32, cx: CobuildContext)
    requires Build(tx, CurrentLock(lock)) == Ok(cx)
    ensures forall c: nat :: Demands(cx, lock, TxLevel, c) <==>
              cx.witnesses.hasCobuildWitnessLayout && NeedsTxLevelSignature(cx) && LockInputs(cx)[0] == c
    ensures TxLevelDemanded(cx, lock) <==> cx.witnesses.hasCobuildWitnessLayout && NeedsTxLevelSignature(cx)
  {
    SummariesOfWitnesses(tx, CurrentLock(lock), cx);
    LockInputsMeaning(tx, lock, LockInputs(cx));
    forall c: nat | Demands(cx, lock, TxLevel, c) ensures LockInputs(cx) != [] && LockInputs(cx)[0] == c {
      assert LockAt(tx, lock, c) && c in LockInputs(cx);
      FirstLockIsUnique(tx, lock, c, LockInputs(cx)[0]);
    }
    if cx.witnesses.hasCobuildWitnessLayout && NeedsTxLevelSignature(cx) {
      assert Demands(cx, lock, TxLevel, LockInputs(cx)[0]);
      assert LockAt(tx, lock, LockInputs(cx)[0]);
    }
  }

  /** The tx-level step and the tx-level actions succeed exactly under `TxLevelReady`. */
  lemma TxLevelSucceeds(tx: Tx, lock: Hash32, cx: CobuildContext, h: Blake2b)
    requires Build(tx, CurrentLock(lock)) == Ok(cx) && Readable(tx)
    ensures TxLevelSignature(cx, h).Ok? && TxRelatedActions(cx).Ok? <==> TxLevelReady(cx, lock)
  {
    SummariesOfWitnesses(tx, CurrentLock(lock), cx);
    RelatedSucceeds(tx, lock, cx);
    TxDemandMeaning(tx, lock, cx);
    MessageReadyMeaning(cx, lock, false);
    MessageReadyMeaning(cx, lock, true);
    if TxLevelDemanded(cx, lock) && cx.witnesses.UniqueMessage().Ok? {
      DemandedSucceeds(tx, lock, cx, h);
      assert Demands(cx, lock, TxLevel, LockInputs(cx)[0]);
      LockInputsMeaning(tx, lock, LockInputs(cx));
    }
  }

  lemma DemandedSucceeds(tx: Tx, lock: Hash32, cx: CobuildContext, h: Blake2b)
    requires Build(tx, CurrentLock(lock)) == Ok(cx) && Readable(tx) && cx.witnesses.UniqueMessage().Ok?
    requires cx.witnesses.hasCobuildWitnessLayout && NeedsTxLevelSignature(cx)
    ensures TxLevelSignature(cx, h).Ok? <==>
              && MessageReady(cx, lock, true)
              && CarrierReady(cx, lock, LockInputs(cx)[0]) && TxLengthsFit(tx)
  {
    var c, m := LockInputs(cx)[0], MessageOf(cx.witnesses.UniqueMessage().value);
    SummariesOfWitnesses(tx, CurrentLock(lock), cx);
    TxLevelSteps(cx, h, c);
    QuietMeaning(tx, lock, cx, c);
    CarrierMeaning(cx.witnesses, c);
    MessageReadyMeaning(cx, lock, true);
    if m.Some? {
      UniqueMessageGood(tx, CurrentLock(lock), cx, cx.witnesses.UniqueMessage().value.value.0, m.value);
      CheckedMeaning(tx, lock, cx, m.value);
    }
    TxLengths(h, m, tx);
  }

  lemma CheckedMeaning(tx: Tx, lock: Hash32, cx: CobuildContext, message: Cursor)
    requires cx.tx == tx && cx.script == ContextOf(tx, CurrentLock(lock))
    ensures cx.CheckedMessageActions(message).Ok? <==> Usable(tx, lock, message, true)
  {
    if MessageActions(message).Ok? {
      TargetsExistMeaning(tx, CurrentLock(lock), cx, message);
    }
  }

  // ---------- one OTX ----------

  /** The lock has exactly one seal there, and it can be read. */
  predicate HasSeal(lock: Hash32, seals: seq<LockSealView>) {
    exists k: nat | k < |seals| :: OnlySeal(lock, seals, |seals|, k) && seals[k].seal.ReadAll(MalformedCobuild).Ok?
  }

  lemma HasSealMeaning(lock: Hash32, seals: seq<LockSealView>)
    ensures UniqueLockSeal(lock, seals).Ok? <==> HasSeal(lock, seals)
  {
    if UniqueLockSeal(lock, seals).Ok? {
      UniqueLockSealMeaning(lock, seals, UniqueLockSeal(lock, seals).value);
    }
    if k: nat :| OnlySeal(lock, seals, |seals|, k) && seals[k].seal.ReadAll(MalformedCobuild).Ok? {
      UniqueLockSealMeaning(lock, seals, seals[k].seal.ReadAll(MalformedCobuild).value);
    }
  }

  predicate BaseDemanded(cx: CobuildContext, lock: Hash32, i: nat)
    requires i < |cx.OtxEntries()|
  {
    LockInside(cx.tx, lock, cx.OtxEntries()[i].layout.baseInputs)
  }

  predicate OtxDemanded(cx: CobuildContext, lock: Hash32, i: nat)
    requires i < |cx.OtxEntries()|
  {
    || BaseDemanded(cx, lock, i)
    || exists j: nat | j < |cx.OtxEntries()[i].layout.appendSegments| :: SegmentHolds(cx, lock, i, j)
  }

  /** Everything a segment covers has a four-byte length. */
  predicate SegmentLengthsFit(e: OtxLayoutEntry, j: nat, tx: Tx)
    requires Placed(e.view, e.layout, tx) && j < |e.view.appendSegments|
  {
    && SegmentFits(SegmentAt(e.view, e.layout, tx, j))
    && (CoversPrevious(e.view.appendSegments[j].segmentFlags) ==>
          Fits(j) && forall i: nat | i < j :: SegmentFits(SegmentAt(e.view, e.layout, tx, i)))
  }

  predicate SegmentReady(cx: CobuildContext, lock: Hash32, i: nat, j: nat)
    requires i < |cx.OtxEntries()|
  {
    var e := cx.OtxEntries()[i];
    && Placed(e.view, e.layout, cx.tx) && j < |e.view.appendSegments|
    && HasSeal(lock, e.view.appendSegments[j].seals)
    && SegmentLengthsFit(e, j, cx.tx)
  }

  predicate SegmentsReady(cx: CobuildContext, lock: Hash32, i: nat)
    requires i < |cx.OtxEntries()|
  {
    forall j: nat | j < |cx.OtxEntries()[i].layout.appendSegments| && SegmentHolds(cx, lock, i, j) ::
      SegmentReady(cx, lock, i, j)
  }

  /** Lengths that fit, and a seal for every part that holds an input of the lock. */
  predicate PartsReady(cx: CobuildContext, lock: Hash32, i: nat)
    requires i < |cx.OtxEntries()|
  {
    var e := cx.OtxEntries()[i];
    && Placed(e.view, e.layout, cx.tx) && BaseFits(BaseScopeOf(e.view, e.layout, cx.tx))
    && (BaseDemanded(cx, lock, i) ==> HasSeal(lock, e.view.baseSeals))
    && SegmentsReady(cx, lock, i)
  }

  /** What OTX `i` needs: a usable message and, where the lock occurs, its seals and lengths. */
  predicate OtxReady(cx: CobuildContext, lock: Hash32, i: nat)
    requires i < |cx.OtxEntries()|
  {
    && Usable(cx.tx, lock, cx.OtxEntries()[i].view.message, OtxDemanded(cx, lock, i))
    && (OtxDemanded(cx, lock, i) ==> PartsReady(cx, lock, i))
  }

  lemma AppendLengths(h: Blake2b, e: OtxLayoutEntry, j: nat, tx: Tx, base: Hash32)
    requires Placed(e.view, e.layout, tx) && j < |e.view.appendSegments|
    ensures AppendSegmentHash(h, e.view, e.layout, j, tx, base).Ok? <==> SegmentLengthsFit(e, j, tx)
  {
    PlacedHashes(h, e, tx);
    ScopeLengths(e, j, tx, base);
  }

  lemma ScopeLengths(e: OtxLayoutEntry, j: nat, tx: Tx, base: Hash32)
    requires Placed(e.view, e.layout, tx) && j < |e.view.appendSegments|
    ensures AppendFits(AppendScopeOf(e.view, e.layout, tx, j, base)) <==> SegmentLengthsFit(e, j, tx)
  {
    if CoversPrevious(e.view.appendSegments[j].segmentFlags) {
      var before := SegmentsBefore(e.view, e.layout, tx, j);
      assert forall i: nat | i < j :: before[i] == SegmentAt(e.view, e.layout, tx, i);
    }
  }

  lemma SegmentSucceeds(cx: CobuildContext, lock: Hash32, h: Blake2b, i: nat, base: Hash32, j: nat)
    requires i < |cx.OtxEntries()| && LockHash(cx) == lock
    requires Placed(cx.OtxEntries()[i].view, cx.OtxEntries()[i].layout, cx.tx)
    requires j < |cx.OtxEntries()[i].layout.appendSegments|
    ensures SegmentSignature(cx, h, cx.OtxEntries()[i], base, j).Ok? <==> SegmentReady(cx, lock, i, j)
  {
    var e := cx.OtxEntries()[i];
    HasSealMeaning(lock, e.view.appendSegments[j].seals);
    AppendLengths(h, e, j, cx.tx, base);
  }

  lemma CollectSucceeds<T>(f: nat -> Result<T>, n: nat)
    ensures Collect(f, n).Ok? <==> forall k: nat | k < n :: f(k).Ok?
  {}

  lemma SegmentsSucceed(cx: CobuildContext, lock: Hash32, h: Blake2b, i: nat, base: Hash32)
    requires i < |cx.OtxEntries()| && LockHash(cx) == lock && cx.script == ContextOf(cx.tx, CurrentLock(lock))
    requires Placed(cx.OtxEntries()[i].view, cx.OtxEntries()[i].layout, cx.tx)
    ensures var e := cx.OtxEntries()[i];
            Collect(SegmentSignaturesOf(cx, h, e, base), |SignedSegments(cx, e)|).Ok? <==> SegmentsReady(cx, lock, i)
  {
    var e := cx.OtxEntries()[i];
    var f, js := SegmentSignaturesOf(cx, h, e, base), SignedSegments(cx, e);
    CollectSucceeds(f, |js|);
    MatchingMeaning(|e.layout.appendSegments|, SegmentHit(cx, e));
    forall j: nat | j < |e.layout.appendSegments|
      ensures j in js <==> SegmentHolds(cx, lock, i, j)
      ensures SegmentSignature(cx, h, e, base, j).Ok? <==> SegmentReady(cx, lock, i, j)
    {
      HitMeaning(cx, lock, i, OtxAppendSegment(j));
      SegmentSucceeds(cx, lock, h, i, base, j);
    }
    forall k: nat | k < |js| ensures f(k).Ok? <==> SegmentReady(cx, lock, i, js[k]) {
      assert js[k] in js;
    }
  }

  lemma PartsSucceed(cx: CobuildContext, lock: Hash32, h: Blake2b, i: nat)
    requires i < |cx.OtxEntries()| && LockHash(cx) == lock && cx.script == ContextOf(cx.tx, CurrentLock(lock))
    requires Placed(cx.OtxEntries()[i].view, cx.OtxEntries()[i].layout, cx.tx)
    ensures OtxSignatures(cx, h, cx.OtxEntries()[i]).Ok? <==> PartsReady(cx, lock, i)
  {
    var e := cx.OtxEntries()[i];
    PlacedHashes(h, e, cx.tx);
    var hash := OtxBaseHash(h, e.view, e.layout, cx.tx);
    if hash.Ok? {
      HitMeaning(cx, lock, i, OtxBase);
      HasSealMeaning(lock, e.view.baseSeals);
      SegmentsSucceed(cx, lock, h, i, hash.value);
    }
  }

  lemma SignsMeaning(cx: CobuildContext, lock: Hash32, i: nat)
    requires i < |cx.OtxEntries()| && cx.script == ContextOf(cx.tx, CurrentLock(lock))
    ensures SignsOtx(cx, cx.OtxEntries()[i]) <==> OtxDemanded(cx, lock, i)
  {
    var e := cx.OtxEntries()[i];
    HitMeaning(cx, lock, i, OtxBase);
    MatchingMeaning(|e.layout.appendSegments|, SegmentHit(cx, e));
    forall j: nat | j < |e.layout.appendSegments|
      ensures j in SignedSegments(cx, e) <==> SegmentHolds(cx, lock, i, j)
    {
      HitMeaning(cx, lock, i, OtxAppendSegment(j));
    }
    if SignedSegments(cx, e) != [] {
      assert SignedSegments(cx, e)[0] in SignedSegments(cx, e);
    }
  }

  lemma OtxSucceeds(cx: CobuildContext, lock: Hash32, h: Blake2b, i: nat)
    requires i < |cx.OtxEntries()| && LockHash(cx) == lock && cx.script == ContextOf(cx.tx, CurrentLock(lock))
    requires Placed(cx.OtxEntries()[i].view, cx.OtxEntries()[i].layout, cx.tx)
    ensures OtxContribution(cx, h, i).Ok? <==> OtxReady(cx, lock, i)
  {
    var message := cx.OtxEntries()[i].view.message;
    SignsMeaning(cx, lock, i);
    PartsSucceed(cx, lock, h, i);
    if MessageActions(message).Ok? {
      TargetsExistMeaning(cx.tx, CurrentLock(lock), cx, message);
      MineMeaning(message, lock);
    }
  }

  // ---------- the whole plan ----------

  /** Everything the planner can object to, in terms of the transaction: no hash function, no order of checks. */
  predicate Plannable(cx: CobuildContext, lock: Hash32) {
    TxLevelReady(cx, lock) && forall i: nat | i < |cx.OtxEntries()| :: OtxReady(cx, lock, i)
  }

  lemma ContributionsSucceed(tx: Tx, lock: Hash32, cx: CobuildContext, h: Blake2b)
    requires Build(tx, CurrentLock(lock)) == Ok(cx) && Readable(tx)
    ensures Collect(Contributions(cx, h), |cx.OtxEntries()|).Ok? <==>
              forall i: nat | i < |cx.OtxEntries()| :: OtxReady(cx, lock, i)
  {
    SummariesOfWitnesses(tx, CurrentLock(lock), cx);
    CollectSucceeds(Contributions(cx, h), |cx.OtxEntries()|);
    forall i: nat | i < |cx.OtxEntries()| ensures Contributions(cx, h)(i).Ok? <==> OtxReady(cx, lock, i) {
      EntrySound(tx, CurrentLock(lock), cx, i);
      OtxSucceeds(cx, lock, h, i);
    }
  }

  /**
   * Exactly when there is a plan.  On a built context the planner succeeds if and only if the transaction is
   * plannable for the lock; in particular success does not depend on the hash function.
   */
  lemma PlanSucceedsExactly(tx: Tx, lock: Hash32, cx: CobuildContext, h: Blake2b)
    requires Build(tx, CurrentLock(lock)) == Ok(cx) && Readable(tx)
    ensures PlanLock(cx, h).Ok? <==> Plannable(cx, lock)
  {
    SummariesOfWitnesses(tx, CurrentLock(lock), cx);
    TxLevelSucceeds(tx, lock, cx, h);
    ContributionsSucceed(tx, lock, cx, h);
    var cs := Collect(Contributions(cx, h), |cx.OtxEntries()|);
    if TxLevelSignature(cx, h).Ok? && cs.Ok? {
      NothingUncovered(tx, lock, cx, h, AllSignatures(cs.value));
    }
  }
}
