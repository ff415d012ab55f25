/**
 * The planner's error, for every transaction: the first fault in the order of its checks, in terms of what is
 * signed.
 */
module LockFaults {
  import opened Base
  import opened LazyReader
  import opened View
  import opened Layout
  import opened Transaction
  import opened Preimage
  import opened Scope
  import opened Witness
  import opened Context
  import opened Plan
  import opened Engine
  import opened LockPlan
  import opened BuiltFacts
  import opened ExactPlan
  import opened Agreement
  import opened Binding
  import opened FinalCheck
  import opened PlanSuccess
  import opened TypePlanSuccess

  type Fault = Option<CoreError>

  /** The first of two. */
  function Then(a: Fault, b: Fault): Fault { if a.Some? then a else b }

  function When(wrong: bool, e: CoreError): Fault { if wrong then Some(e) else None }

  function FaultOf<T>(r: Result<T>): Fault { if r.Err? then Some(r.error) else None }

  /** The first fault among `n`, in order. */
  function FirstOf(g: nat -> Fault, n: nat): Fault { if n == 0 then None else Then(FirstOf(g, n - 1), g(n - 1)) }

  lemma {:induction false} CollectFault<T>(f: nat -> Result<T>, g: nat -> Fault, n: nat)
    requires forall i: nat | i < n :: FaultOf(f(i)) == g(i)
    ensures FaultOf(Collect(f, n)) == FirstOf(g, n)
  {
    if n == 0 {
    } else {
      CollectFault(f, g, n - 1);
    }
  }

  // ---------- seals ----------

  /** The first seal for the lock. */
  predicate FirstSeal(lock: Hash32, seals: seq<LockSealView>, k: nat) {
    k < |seals| && seals[k].scriptHash == lock && forall j: nat | j < k :: seals[j].scriptHash != lock
  }

  predicate CanRead(seal: LockSealView) { seal.seal.ReadAll(MalformedCobuild).Ok? }

  /** No seal, a first one that cannot be read, or a second one. */
  function SealFault(lock: Hash32, seals: seq<LockSealView>): Fault {
    if forall k: nat | k < |seals| :: seals[k].scriptHash != lock then Some(MissingLockSeal)
    else if exists k: nat | k < |seals| :: FirstSeal(lock, seals, k) && !CanRead(seals[k]) then Some(MalformedCobuild)
    else if exists j: nat, k: nat | j < k < |seals| :: seals[j].scriptHash == lock && seals[k].scriptHash == lock
    then Some(DuplicateLockSeal)
    else None
  }

  lemma {:induction false} SealsSoFar(lock: Hash32, seals: seq<LockSealView>, n: nat)
    requires n <= |seals|
    ensures match SealBefore(lock, seals, n)
            case Ok(None) => forall k: nat | k < n :: seals[k].scriptHash != lock
            case Ok(Some(_)) =>
              exists k: nat | k < n ::
                && FirstSeal(lock, seals, k) && CanRead(seals[k])
                && forall j: nat | j < n && seals[j].scriptHash == lock :: j == k
            case Err(e) =>
              if e == MalformedCobuild then exists k: nat | k < n :: FirstSeal(lock, seals, k) && !CanRead(seals[k])
              else
                && e == DuplicateLockSeal
                && exists j: nat, k: nat | j < k < n ::
                     FirstSeal(lock, seals, j) && CanRead(seals[j]) && seals[k].scriptHash == lock
  {
    if n == 0 {
    } else {
      SealsSoFar(lock, seals, n - 1);
    }
  }

  lemma FirstSealIsUnique(lock: Hash32, seals: seq<LockSealView>, j: nat, k: nat)
    requires FirstSeal(lock, seals, j) && FirstSeal(lock, seals, k)
    ensures j == k
  {}

  lemma SealFaultMeaning(lock: Hash32, seals: seq<LockSealView>)
    ensures FaultOf(UniqueLockSeal(lock, seals)) == SealFault(lock, seals)
  {
    SealsSoFar(lock, seals, |seals|);
    forall j: nat, k: nat | FirstSeal(lock, seals, j) && FirstSeal(lock, seals, k) ensures j == k {
      FirstSealIsUnique(lock, seals, j, k);
    }
  }

  // ---------- one OTX ----------

  /** What is wrong with segment `j`, if it holds an input of the lock: its seal, or a length. */
  function SegmentFaults(cx: CobuildContext, lock: Hash32, i: nat): nat -> Fault
    requires i < |cx.OtxEntries()|
    requires Placed(cx.OtxEntries()[i].view, cx.OtxEntries()[i].layout, cx.tx)
  {
    (j: nat) =>
      if j < |cx.OtxEntries()[i].layout.appendSegments| && SegmentHolds(cx, lock, i, j)
      then SegmentFault(cx.OtxEntries()[i], lock, j, cx.tx) else None
  }

  function SegmentFault(e: OtxLayoutEntry, lock: Hash32, j: nat, tx: Tx): Fault
    requires Placed(e.view, e.layout, tx) && j < |e.view.appendSegments|
  {
    Then(SealFault(lock, e.view.appendSegments[j].seals), When(!SegmentLengthsFit(e, j, tx), HashInputTooLarge))
  }

  /** What is wrong with an OTX: its message, its base lengths, its base seal, then segment after segment. */
  function LockOtxFault(cx: CobuildContext, lock: Hash32, i: nat): Fault
    requires i < |cx.OtxEntries()|
    requires Placed(cx.OtxEntries()[i].view, cx.OtxEntries()[i].layout, cx.tx)
  {
    var e := cx.OtxEntries()[i];
    Then(MessageFault(cx.tx, e.view.message, OtxDemanded(cx, lock, i) || Concerns(e.view.message, lock)),
         if OtxDemanded(cx, lock, i) then PartsFault(cx, lock, i) else None)
  }

  function PartsFault(cx: CobuildContext, lock: Hash32, i: nat): Fault
    requires i < |cx.OtxEntries()|
    requires Placed(cx.OtxEntries()[i].view, cx.OtxEntries()[i].layout, cx.tx)
  {
    var e := cx.OtxEntries()[i];
    Then(When(!BaseFits(BaseScopeOf(e.view, e.layout, cx.tx)), HashInputTooLarge),
         Then(if BaseDemanded(cx, lock, i) then SealFault(lock, e.view.baseSeals) else None,
              FirstOf(SegmentFaults(cx, lock, i), |e.layout.appendSegments|)))
  }

  lemma SegmentStep(cx: CobuildContext, lock: Hash32, h: Blake2b, i: nat, base: Hash32, j: nat)
    requires i < |cx.OtxEntries()| && LockHash(cx) == lock
    requires Placed(cx.OtxEntries()[i].view, cx.OtxEntries()[i].layout, cx.tx)
    requires j < |cx.OtxEntries()[i].layout.appendSegments|
    ensures FaultOf(SegmentSignature(cx, h, cx.OtxEntries()[i], base, j))
         == SegmentFault(cx.OtxEntries()[i], lock, j, cx.tx)
  {
    var e := cx.OtxEntries()[i];
    SealFaultMeaning(lock, e.view.appendSegments[j].seals);
    AppendLengths(h, e, j, cx.tx, base);
    PlacedHashes(h, e, cx.tx);
  }

  lemma {:induction false} MatchingPrefix(m: nat, n: nat, p: nat -> bool)
    requires m <= n
    ensures Matching(m, p) <= Matching(n, p)
    decreases n
  {
    if m == n {
    } else {
      MatchingPrefix(m, n - 1, p);
    }
  }

  /** Collecting over the matching indices finds the first fault among all indices that match. */
  lemma {:induction false} MatchedFault<T>(f: nat -> Result<T>, p: nat -> bool, g: nat -> Fault, n: nat, all: nat)
    requires n <= all
    requires forall k: nat | k < |Matching(all, p)| :: FaultOf(f(k)) == g(Matching(all, p)[k])
    requires forall j: nat | j < all && !p(j) :: g(j) == None
    ensures FaultOf(Collect(f, |Matching(n, p)|)) == FirstOf(g, n)
    decreases n
  {
    if n == 0 {
    } else {
      MatchedFault(f, p, g, n - 1, all);
      if p(n - 1) {
        MatchedAt(n - 1, all, p);
        MatchedStep(f, g, |Matching(n - 1, p)|, n - 1);
      } else {
        assert g(n - 1) == None;
      }
    }
  }

  lemma MatchedStep<T>(f: nat -> Result<T>, g: nat -> Fault, k: nat, n: nat)
    requires FaultOf(Collect(f, k)) == FirstOf(g, n) && FaultOf(f(k)) == g(n)
    ensures FaultOf(Collect(f, k + 1)) == FirstOf(g, n + 1)
  {
    CollectStep(f, k);
  }

  /** A matching index stands behind the matching ones before it. */
  lemma MatchedAt(n: nat, all: nat, p: nat -> bool)
    requires n < all && p(n)
    ensures var k := |Matching(n, p)|;
            k < |Matching(all, p)| && Matching(all, p)[k] == n && |Matching(n + 1, p)| == k + 1
  {
    MatchingPrefix(n + 1, all, p);
    assert Matching(n + 1, p)[|Matching(n, p)|] == n;
  }

  lemma CollectStep<T>(f: nat -> Result<T>, k: nat)
    ensures FaultOf(Collect(f, k + 1)) == Then(FaultOf(Collect(f, k)), FaultOf(f(k)))
  {}

  lemma SegmentsStep(cx: CobuildContext, lock: Hash32, h: Blake2b, i: nat, base: Hash32)
    requires i < |cx.OtxEntries()| && LockHash(cx) == lock && cx.script == ContextOf(cx.tx, CurrentLock(lock))
    requires Placed(cx.OtxEntries()[i].view, cx.OtxEntries()[i].layout, cx.tx)
    ensures var e := cx.OtxEntries()[i];
            FaultOf(Collect(SegmentSignaturesOf(cx, h, e, base), |SignedSegments(cx, e)|))
            == FirstOf(SegmentFaults(cx, lock, i), |e.layout.appendSegments|)
  {
    var e, n := cx.OtxEntries()[i], |cx.OtxEntries()[i].layout.appendSegments|;
    var f, p, g := SegmentSignaturesOf(cx, h, e, base), SegmentHit(cx, e), SegmentFaults(cx, lock, i);
    MatchingMeaning(n, p);
    forall j: nat | j < n ensures p(j) <==> SegmentHolds(cx, lock, i, j) {
      HitMeaning(cx, lock, i, OtxAppendSegment(j));
    }
    forall k: nat | k < |Matching(n, p)| ensures FaultOf(f(k)) == g(Matching(n, p)[k]) {
      assert Matching(n, p)[k] in Matching(n, p);
      SegmentStep(cx, lock, h, i, base, Matching(n, p)[k]);
    }
    MatchedFault(f, p, g, n, n);
  }

  lemma PartsStep(cx: CobuildContext, lock: Hash32, h: Blake2b, i: nat)
    requires i < |cx.OtxEntries()| && LockHash(cx) == lock && cx.script == ContextOf(cx.tx, CurrentLock(lock))
    requires Placed(cx.OtxEntries()[i].view, cx.OtxEntries()[i].layout, cx.tx)
    ensures FaultOf(OtxSignatures(cx, h, cx.OtxEntries()[i])) == PartsFault(cx, lock, i)
  {
    var e := cx.OtxEntries()[i];
    PlacedHashes(h, e, cx.tx);
    var hash := OtxBaseHash(h, e.view, e.layout, cx.tx);
    if hash.Ok? {
      HitMeaning(cx, lock, i, OtxBase);
      SealFaultMeaning(lock, e.view.baseSeals);
      SegmentsStep(cx, lock, h, i, hash.value);
    }
  }

  lemma LockOtxStep(cx: CobuildContext, lock: Hash32, h: Blake2b, i: nat)
    requires i < |cx.OtxEntries()| && LockHash(cx) == lock && cx.script == ContextOf(cx.tx, CurrentLock(lock))
    requires Placed(cx.OtxEntries()[i].view, cx.OtxEntries()[i].layout, cx.tx)
    ensures FaultOf(OtxContribution(cx, h, i)) == LockOtxFault(cx, lock, i)
  {
    var message := cx.OtxEntries()[i].view.message;
    SignsMeaning(cx, lock, i);
    PartsStep(cx, lock, h, i);
    if MessageActions(message).Ok? {
      TargetsExistMeaning(cx.tx, CurrentLock(lock), cx, message);
      MineMeaning(message, lock);
    }
  }

  predicate AllPlaced(cx: CobuildContext) {
    forall i: nat | i < |cx.OtxEntries()| :: Placed(cx.OtxEntries()[i].view, cx.OtxEntries()[i].layout, cx.tx)
  }

  function LockOtxFaults(cx: CobuildContext, lock: Hash32): nat -> Fault
    requires AllPlaced(cx)
  {
    (i: nat) => if i < |cx.OtxEntries()| then LockOtxFault(cx, lock, i) else None
  }

  lemma OtxsStep(cx: CobuildContext, lock: Hash32, h: Blake2b)
    requires LockHash(cx) == lock && cx.script == ContextOf(cx.tx, CurrentLock(lock)) && AllPlaced(cx)
    ensures FaultOf(Collect(Contributions(cx, h), |cx.OtxEntries()|))
         == FirstOf(LockOtxFaults(cx, lock), |cx.OtxEntries()|)
  {
    forall i: nat | i < |cx.OtxEntries()|
      ensures FaultOf(Contributions(cx, h)(i)) == LockOtxFaults(cx, lock)(i)
    {
      LockOtxStep(cx, lock, h, i);
    }
    CollectFault(Contributions(cx, h), LockOtxFaults(cx, lock), |cx.OtxEntries()|);
  }

  // ---------- tx level ----------

  /** What is wrong with the tx-level message: two of them, or a fault of the one there is. */
  ghost function TxMessageFault(cx: CobuildContext, lock: Hash32, signed: bool): Fault {
    var summaries := cx.witnesses.summaries;
    if TwoMessages(summaries) then Some(DuplicateSighashAll)
    else if exists w: nat :: w < |summaries| && summaries[w].SighashAllSummary? then
      var w: nat :| w < |summaries| && summaries[w].SighashAllSummary?;
      MessageFault(cx.tx, summaries[w].message, signed || Concerns(summaries[w].message, lock))
    else None
  }

  lemma TxMessageMeaning(cx: CobuildContext, lock: Hash32, signed: bool)
    ensures TxMessageFault(cx, lock, signed) ==
              match cx.witnesses.UniqueMessage()
              case Err(e) => Some(e)
              case Ok(None) => None
              case Ok(Some((_, m))) => MessageFault(cx.tx, m, signed || Concerns(m, lock))
  {
    UniqueMessageMeaning(cx.witnesses, |cx.witnesses.summaries|);
    var unique := cx.witnesses.UniqueMessage();
    if unique.Ok? && unique.value.Some? {
      var (w, m) := unique.value.value;
      assert cx.witnesses.summaries[w].SighashAllSummary?;
    }
  }

  predicate IsCarrier(cx: CobuildContext, c: nat) {
    c < |cx.witnesses.summaries| && CarrierSeal(cx.witnesses.summaries[c]).Some?
  }

  /** What is wrong with a called-for tx-level requirement of carrier `c`. */
  ghost function DemandFault(cx: CobuildContext, lock: Hash32, c: nat): Fault {
    Then(When(!OnlyCarrierSpeaks(cx.tx, lock, c) || !IsCarrier(cx, c), InvalidLockGroupWitness),
         Then(TxMessageFault(cx, lock, true),
              Then(When(!TxLengthsFit(cx.tx), HashInputTooLarge),
                   When(!CarrierReady(cx, lock, c), MalformedCobuild))))
  }

  /** Tx level first, the tx-level actions for the lock, then OTX after OTX. */
  ghost function LockFault(cx: CobuildContext, lock: Hash32, c: nat): Fault
    requires AllPlaced(cx)
  {
    Then(if Demands(cx, lock, TxLevel, c) then DemandFault(cx, lock, c) else None,
         Then(TxMessageFault(cx, lock, false), FirstOf(LockOtxFaults(cx, lock), |cx.OtxEntries()|)))
  }

  lemma RelatedStep(tx: Tx, lock: Hash32, cx: CobuildContext)
    requires cx.tx == tx && cx.script == ContextOf(tx, CurrentLock(lock))
    ensures FaultOf(TxRelatedActions(cx)) == TxMessageFault(cx, lock, false)
  {
    TxMessageMeaning(cx, lock, false);
    var unique := cx.witnesses.UniqueMessage();
    if unique.Ok? && unique.value.Some? && MessageActions(unique.value.value.1).Ok? {
      TargetsExistMeaning(tx, CurrentLock(lock), cx, unique.value.value.1);
      MineMeaning(unique.value.value.1, lock);
    }
  }

  /** The checks of a called-for tx-level requirement, in order, over the unique message. */
  function TxLevelChecks(cx: CobuildContext, h: Blake2b, c: nat): Fault
    requires LockInputs(cx) != [] && LockInputs(cx)[0] == c
  {
    Then(When(!cx.witnesses.OthersEmpty(LockInputs(cx), c) || cx.witnesses.CarrierView(c).Err?,
              InvalidLockGroupWitness),
         Then(FaultOf(cx.witnesses.UniqueMessage()),
              if cx.witnesses.CarrierView(c).Ok? && cx.witnesses.UniqueMessage().Ok? then
                var m := MessageOf(cx.witnesses.UniqueMessage().value);
                Then(if m.Some? then FaultOf(cx.CheckedMessageActions(m.value)) else None,
                     Then(FaultOf(TxSigningHash(h, m, cx.tx)),
                          FaultOf(cx.witnesses.CarrierView(c).value.seal.ReadAll(MalformedCobuild))))
              else None))
  }

  lemma TxLevelChecked(cx: CobuildContext, h: Blake2b, c: nat)
    requires cx.witnesses.hasCobuildWitnessLayout && NeedsTxLevelSignature(cx) && LockInputs(cx)[0] == c
    ensures FaultOf(TxLevelSignature(cx, h)) == TxLevelChecks(cx, h, c)
  {
    if cx.witnesses.CarrierView(c).Ok? && cx.witnesses.UniqueMessage().Ok? {
      SignedMessageIsUnique(cx, c);
    }
  }

  lemma CheckedFault(tx: Tx, lock: Hash32, cx: CobuildContext, message: Cursor)
    requires cx.tx == tx && cx.script == ContextOf(tx, CurrentLock(lock))
    ensures FaultOf(cx.CheckedMessageActions(message)) == MessageFault(tx, message, true)
  {
    if MessageActions(message).Ok? {
      TargetsExistMeaning(tx, CurrentLock(lock), cx, message);
    }
  }

  lemma LengthFault(h: Blake2b, m: Option<Cursor>, tx: Tx)
    requires Readable(tx) && (m.Some? ==> m.value.InBounds())
    ensures FaultOf(TxSigningHash(h, m, tx)) == When(!TxLengthsFit(tx), HashInputTooLarge)
  {
    TxLengths(h, m, tx);
    TxHashNeverFaults(h, m, tx);
  }

  lemma SealReadFault(c: Cursor)
    ensures FaultOf(c.ReadAll(MalformedCobuild)) == When(c.ReadAll(MalformedCobuild).Err?, MalformedCobuild)
  {}

  lemma DemandStep(tx: Tx, lock: Hash32, cx: CobuildContext, h: Blake2b, c: nat)
    requires Build(tx, CurrentLock(lock)) == Ok(cx) && Readable(tx)
    requires cx.witnesses.hasCobuildWitnessLayout && NeedsTxLevelSignature(cx) && LockInputs(cx)[0] == c
    ensures FaultOf(TxLevelSignature(cx, h)) == DemandFault(cx, lock, c)
  {
    SummariesOfWitnesses(tx, CurrentLock(lock), cx);
    TxLevelChecked(cx, h, c);
    QuietMeaning(tx, lock, cx, c);
    CarrierMeaning(cx.witnesses, c);
    TxMessageMeaning(cx, lock, true);
    if cx.witnesses.CarrierView(c).Ok? && cx.witnesses.UniqueMessage().Ok? {
      var m := MessageOf(cx.witnesses.UniqueMessage().value);
      if m.Some? {
        UniqueMessageGood(tx, CurrentLock(lock), cx, cx.witnesses.UniqueMessage().value.value.0, m.value);
        CheckedFault(tx, lock, cx, m.value);
      }
      LengthFault(h, m, tx);
      SealReadFault(cx.witnesses.CarrierView(c).value.seal);
    }
  }

  lemma PlanSteps(tx: Tx, lock: Hash32, cx: CobuildContext, h: Blake2b)
    requires Build(tx, CurrentLock(lock)) == Ok(cx)
    ensures FaultOf(PlanLock(cx, h))
         == Then(FaultOf(TxLevelSignature(cx, h)),
                 Then(FaultOf(TxRelatedActions(cx)), FaultOf(Collect(Contributions(cx, h), |cx.OtxEntries()|))))
  {
    SummariesOfWitnesses(tx, CurrentLock(lock), cx);
    var cs := Collect(Contributions(cx, h), |cx.OtxEntries()|);
    if TxLevelSignature(cx, h).Ok? && cs.Ok? {
      NothingUncovered(tx, lock, cx, h, AllSignatures(cs.value));
    }
  }

  /**
   * The exact outcome.  With `c` the lock's first input, the planner fails on a built context exactly with the first
   * fault in the order of its checks, and succeeds when there is none.
   */
  lemma PlanFaultIsExact(tx: Tx, lock: Hash32, cx: CobuildContext, h: Blake2b, c: nat)
    requires Build(tx, CurrentLock(lock)) == Ok(cx) && Readable(tx)
    requires FirstLock(tx, lock, c) || forall n: nat :: !LockAt(tx, lock, n)
    ensures AllPlaced(cx) && FaultOf(PlanLock(cx, h)) == LockFault(cx, lock, c)
  {
    SummariesOfWitnesses(tx, CurrentLock(lock), cx);
    forall i: nat | i < |cx.OtxEntries()| ensures Placed(cx.OtxEntries()[i].view, cx.OtxEntries()[i].layout, tx) {
      EntrySound(tx, CurrentLock(lock), cx, i);
    }
    PlanSteps(tx, lock, cx, h);
    RelatedStep(tx, lock, cx);
    OtxsStep(cx, lock, h);
    TxLevelFault(tx, lock, cx, h, c);
  }

  lemma TxLevelFault(tx: Tx, lock: Hash32, cx: CobuildContext, h: Blake2b, c: nat)
    requires Build(tx, CurrentLock(lock)) == Ok(cx) && Readable(tx)
    requires FirstLock(tx, lock, c) || forall n: nat :: !LockAt(tx, lock, n)
    ensures FaultOf(TxLevelSignature(cx, h))
         == if Demands(cx, lock, TxLevel, c) then DemandFault(cx, lock, c) else None
  {
    SummariesOfWitnesses(tx, CurrentLock(lock), cx);
    TxDemandMeaning(tx, lock, cx);
    LockInputsMeaning(tx, lock, LockInputs(cx));
    if cx.witnesses.hasCobuildWitnessLayout && NeedsTxLevelSignature(cx) {
      assert LockAt(tx, lock, LockInputs(cx)[0]);
      FirstLockIsUnique(tx, lock, c, LockInputs(cx)[0]);
      DemandStep(tx, lock, cx, h, c);
    }
  }
}
