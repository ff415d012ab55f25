/**
 * The planner's last check can never fail: an uncovered lock input was already given a tx-level requirement,
 * or an error.
 */
module FinalCheck {
  import opened Base
  import opened LazyReader
  import opened View
  import opened Layout
  import opened Transaction
  import opened Preimage
  import opened WriterErrors
  import opened Witness
  import opened Context
  import opened Plan
  import opened Engine
  import opened LockPlan
  import opened BuiltFacts
  import opened ExactPlan

  lemma ActionErrors(message: Cursor)
    ensures OtherError(MessageActions(message))
  {
    if message.Slice(0).Some? && message.Slice(0).value.DynvecLength().Some? {
      var actions := message.Slice(0).value;
      forall i: nat ensures OtherError(ActionAt(actions)(i)) {
        if actions.Slice(i).Some? {
          ActionError(i, actions.Slice(i).value);
        }
      }
    }
  }

  lemma ActionError(i: nat, c: Cursor)
    ensures OtherError(ActionOf(i, c))
  {}

  lemma {:induction false} SealErrors(hash: Hash32, seals: seq<LockSealView>, n: nat)
    requires n <= |seals|
    ensures OtherError(SealBefore(hash, seals, n))
  {
    if n == 0 {
    } else {
      SealErrors(hash, seals, n - 1);
    }
  }

  lemma UniqueSealErrors(hash: Hash32, seals: seq<LockSealView>)
    ensures OtherError(UniqueLockSeal(hash, seals))
  {
    SealErrors(hash, seals, |seals|);
  }

  lemma UniqueMessageErrors(scan: WitnessScan)
    ensures OtherError(scan.UniqueMessage())
  {
    scan.MessageErrorIsDuplicate(|scan.summaries|);
  }

  lemma TxRelatedErrors(cx: CobuildContext)
    ensures OtherError(TxRelatedActions(cx))
  {
    UniqueMessageErrors(cx.witnesses);
    var unique := cx.witnesses.UniqueMessage();
    if unique.Ok? && unique.value.Some? {
      ActionErrors(unique.value.value.1);
    }
  }

  lemma TxLevelErrors(cx: CobuildContext, h: Blake2b)
    ensures OtherError(TxLevelSignature(cx, h))
  {
    UniqueMessageErrors(cx.witnesses);
    if NeedsTxLevelSignature(cx) {
      var carrier, unique := cx.witnesses.CarrierView(LockInputs(cx)[0]), cx.witnesses.UniqueMessage();
      if carrier.Ok? && unique.Ok? {
        var message := SignedMessage(unique.value, carrier.value);
        TxHashErrors(h, message, cx.tx);
        if message.Some? {
          CheckedErrors(cx, message.value);
        }
      }
    }
  }

  lemma CheckedErrors(cx: CobuildContext, message: Cursor)
    ensures OtherError(cx.CheckedMessageActions(message))
  {
    ActionErrors(message);
  }

  lemma SegmentErrors(cx: CobuildContext, h: Blake2b, e: OtxLayoutEntry, baseHash: Hash32)
    ensures OtherError(Collect(SegmentSignaturesOf(cx, h, e, baseHash), |SignedSegments(cx, e)|))
  {
    forall k: nat ensures OtherError(SegmentSignaturesOf(cx, h, e, baseHash)(k)) {
      if k < |SignedSegments(cx, e)| {
        SegmentError(cx, h, e, baseHash, SignedSegments(cx, e)[k]);
      }
    }
  }

  lemma SegmentError(cx: CobuildContext, h: Blake2b, e: OtxLayoutEntry, baseHash: Hash32, j: nat)
    ensures OtherError(SegmentSignature(cx, h, e, baseHash, j))
  {
    if j < |e.view.appendSegments| {
      UniqueSealErrors(LockHash(cx), e.view.appendSegments[j].seals);
      SegmentHashErrors(h, e.view, e.layout, j, cx.tx, baseHash);
    }
  }

  lemma OtxSignatureErrors(cx: CobuildContext, h: Blake2b, e: OtxLayoutEntry)
    ensures OtherError(OtxSignatures(cx, h, e))
  {
    BaseHashErrors(h, e.view, e.layout, cx.tx);
    var hash := OtxBaseHash(h, e.view, e.layout, cx.tx);
    if hash.Ok? {
      BaseError(cx, e, hash.value);
      SegmentErrors(cx, h, e, hash.value);
    }
  }

  lemma BaseError(cx: CobuildContext, e: OtxLayoutEntry, baseHash: Hash32)
    ensures OtherError(BaseSignature(cx, e, baseHash))
  {
    UniqueSealErrors(LockHash(cx), e.view.baseSeals);
  }

  lemma ContributionErrors(cx: CobuildContext, h: Blake2b, i: nat)
    requires i < |cx.OtxEntries()|
    ensures OtherError(OtxContribution(cx, h, i))
  {
    ActionErrors(cx.OtxEntries()[i].view.message);
    OtxSignatureErrors(cx, h, cx.OtxEntries()[i]);
  }

  lemma CollectedErrors(cx: CobuildContext, h: Blake2b)
    ensures OtherError(Collect(Contributions(cx, h), |cx.OtxEntries()|))
  {
    forall i: nat ensures OtherError(Contributions(cx, h)(i)) {
      if i < |cx.OtxEntries()| {
        ContributionErrors(cx, h, i);
      }
    }
  }

  lemma FirstIsTxLevel(tx: seq<SigningRequirement>, rs: seq<SigningRequirement>)
    requires tx != [] && tx[0].origin == TxLevel
    ensures HasTxLevel(tx + rs)
  {
    assert (tx + rs)[0].origin.TxLevel?;
  }

  /** An input outside the range has its tx-level requirement by the time the check runs. */
  lemma NothingUncovered(tx: Tx, lock: Hash32, cx: CobuildContext, h: Blake2b, rs: seq<SigningRequirement>)
    requires Build(tx, CurrentLock(lock)) == Ok(cx) && TxLevelSignature(cx, h).Ok?
    ensures !Uncovered(cx, TxLevelSignature(cx, h).value + rs)
  {
    if cx.otxLayouts.Complete? && Escapes(LockInputs(cx), cx.otxLayouts.layout.inputRange) {
      CompleteLayoutSetsFlag(tx, CurrentLock(lock), cx);
      TxLevelPart(cx, h, TxLevelSignature(cx, h).value);
      FirstIsTxLevel(TxLevelSignature(cx, h).value, rs);
    }
  }

  /** Redundant final check: on a built context it never reports missing coverage, whatever else goes wrong. */
  lemma FinalCheckNeverFires(tx: Tx, lock: Hash32, h: Blake2b, cx: CobuildContext)
    requires Build(tx, CurrentLock(lock)) == Ok(cx)
    ensures PlanLock(cx, h) != Err(MissingLockGroupCoverage)
  {
    TxLevelErrors(cx, h);
    TxRelatedErrors(cx);
    CollectedErrors(cx, h);
    var cs := Collect(Contributions(cx, h), |cx.OtxEntries()|);
    if TxLevelSignature(cx, h).Ok? && cs.Ok? {
      NothingUncovered(tx, lock, cx, h, AllSignatures(cs.value));
    }
  }
}
