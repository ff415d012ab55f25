/** Which scopes the running lock must sign, and which actions concern it. */
module LockPlan {
  import opened Base
  import opened LazyReader
  import opened View
  import opened Layout
  import opened Preimage
  import opened HashWriter
  import opened Witness
  import opened Context
  import opened Plan
  import opened Engine

  // ---------- the plan, recomputed from scratch at every step ----------

  function LockHash(cx: CobuildContext): Hash32 { cx.script.current.hash }

  function LockInputs(cx: CobuildContext): seq<nat> { cx.script.indices.inputs }

  predicate NeedsTxLevelSignature(cx: CobuildContext) {
    LockInputs(cx) != [] && (cx.otxLayouts.NoLayout? || Escapes(LockInputs(cx), cx.otxLayouts.layout.inputRange))
  }

  /** The message a tx-level signature covers: the transaction's own, else the carrier's, else none. */
  function SignedMessage(unique: Option<(nat, Cursor)>, carrier: CarrierView): Option<Cursor> {
    if unique.Some? then Some(unique.value.1)
    else if carrier.WithMessage? then Some(carrier.message)
    else None
  }

  function TxLevelSignature(cx: CobuildContext, h: Blake2b): Result<seq<SigningRequirement>> {
    if !cx.witnesses.hasCobuildWitnessLayout || !NeedsTxLevelSignature(cx) then Ok([])
    else if !cx.witnesses.OthersEmpty(LockInputs(cx), LockInputs(cx)[0]) then Err(InvalidLockGroupWitness)
    else
      var carrier :- cx.witnesses.CarrierView(LockInputs(cx)[0]);
      var unique :- cx.witnesses.UniqueMessage();
      var message := SignedMessage(unique, carrier);
      var _ :- if message.Some? then cx.CheckedMessageActions(message.value) else Ok([]);
      var hash :- TxSigningHash(h, message, cx.tx);
      var seal :- carrier.seal.ReadAll(MalformedCobuild);
      Ok([SigningRequirement(TxLevel, LockInputs(cx)[0], seal, hash)])
  }

  function TxRelatedActions(cx: CobuildContext): Result<seq<RelatedAction>> {
    var unique :- cx.witnesses.UniqueMessage();
    match unique
    case None => Ok([])
    case Some((w, message)) =>
      (var all :- MessageActions(message);
       var mine := Filter(all, IsLockAction(LockHash(cx)));
       if mine == [] then Ok([])
       else if !cx.script.TargetsExist(all) then Err(InvalidMessageTarget)
       else Ok(TxActions(w, mine)))
  }

  predicate SignsBase(cx: CobuildContext, entry: OtxLayoutEntry) {
    Meets(LockInputs(cx), entry.layout.baseInputs)
  }

  predicate SignsSegment(cx: CobuildContext, entry: OtxLayoutEntry, j: nat)
    requires j < |entry.layout.appendSegments|
  {
    Meets(LockInputs(cx), entry.layout.appendSegments[j].inputs)
  }

  /** The append segments that hold an input of the lock, in order. */
  function SignedSegments(cx: CobuildContext, entry: OtxLayoutEntry): seq<nat> {
    Matching(|entry.layout.appendSegments|, SegmentHit(cx, entry))
  }

  function SegmentHit(cx: CobuildContext, entry: OtxLayoutEntry): nat -> bool {
    (j: nat) => j < |entry.layout.appendSegments| && SignsSegment(cx, entry, j)
  }

  function SegmentSignature(cx: CobuildContext, h: Blake2b, entry: OtxLayoutEntry, baseHash: Hash32,
                            j: nat): Result<SigningRequirement>
  {
    if j >= |entry.view.appendSegments| then Err(InvalidOtxLayout)
    else
      var seal :- UniqueLockSeal(LockHash(cx), entry.view.appendSegments[j].seals);
      var hash :- AppendSegmentHash(h, entry.view, entry.layout, j, cx.tx, baseHash);
      Ok(SigningRequirement(OtxAppendSegment(j), entry.layout.witnessIndex, seal, hash))
  }

  function SegmentSignaturesOf(cx: CobuildContext, h: Blake2b, entry: OtxLayoutEntry,
                               baseHash: Hash32): nat -> Result<SigningRequirement>
  {
    (k: nat) =>
      if k < |SignedSegments(cx, entry)| then SegmentSignature(cx, h, entry, baseHash, SignedSegments(cx, entry)[k])
      else Err(InvalidOtxLayout)
  }

  function BaseSignature(cx: CobuildContext, entry: OtxLayoutEntry, baseHash: Hash32): Result<seq<SigningRequirement>> {
    if !SignsBase(cx, entry) then Ok([])
    else
      var seal :- UniqueLockSeal(LockHash(cx), entry.view.baseSeals);
      Ok([SigningRequirement(OtxBase, entry.layout.witnessIndex, seal, baseHash)])
  }

  function PartSignatures(cx: CobuildContext, h: Blake2b, entry: OtxLayoutEntry,
                          baseHash: Hash32): Result<seq<SigningRequirement>>
  {
    var base :- BaseSignature(cx, entry, baseHash);
    var segments :- Collect(SegmentSignaturesOf(cx, h, entry, baseHash), |SignedSegments(cx, entry)|);
    Ok(base + segments)
  }

  function OtxSignatures(cx: CobuildContext, h: Blake2b, entry: OtxLayoutEntry): Result<seq<SigningRequirement>> {
    var baseHash :- OtxBaseHash(h, entry.view, entry.layout, cx.tx);
    PartSignatures(cx, h, entry, baseHash)
  }

  /** What one OTX adds to the plan. */
  datatype Contribution = Contribution(signatures: seq<SigningRequirement>, actions: seq<RelatedAction>)

  predicate SignsOtx(cx: CobuildContext, entry: OtxLayoutEntry) {
    SignsBase(cx, entry) || SignedSegments(cx, entry) != []
  }

  function OtxContribution(cx: CobuildContext, h: Blake2b, i: nat): Result<Contribution>
    requires i < |cx.OtxEntries()|
  {
    var entry := cx.OtxEntries()[i];
    var all :- MessageActions(entry.view.message);
    var mine := Filter(all, IsLockAction(LockHash(cx)));
    if !SignsOtx(cx, entry) && mine == [] then Ok(Contribution([], []))
    else if !cx.script.TargetsExist(all) then Err(InvalidMessageTarget)
    else
      var signatures :- if SignsOtx(cx, entry) then OtxSignatures(cx, h, entry) else Ok([]);
      Ok(Contribution(signatures, OtxActions(i, entry, mine)))
  }

  function Contributions(cx: CobuildContext, h: Blake2b): nat -> Result<Contribution> {
    (i: nat) => if i < |cx.OtxEntries()| then OtxContribution(cx, h, i) else Err(InvalidOtxLayout)
  }

  function AllSignatures(cs: seq<Contribution>): seq<SigningRequirement> {
    Flatten(seq(|cs|, i requires 0 <= i < |cs| => cs[i].signatures))
  }

  function AllRelated(cs: seq<Contribution>): seq<RelatedAction> {
    Flatten(seq(|cs|, i requires 0 <= i < |cs| => cs[i].actions))
  }

  predicate HasTxLevel(signatures: seq<SigningRequirement>) {
    exists i: nat | i < |signatures| :: signatures[i].origin.TxLevel?
  }

  predicate HasOtx(signatures: seq<SigningRequirement>) {
    exists i: nat | i < |signatures| :: !signatures[i].origin.TxLevel?
  }

  predicate Uncovered(cx: CobuildContext, signatures: seq<SigningRequirement>) {
    && HasOtx(signatures) && !HasTxLevel(signatures)
    && cx.otxLayouts.Complete?
    && Escapes(LockInputs(cx), cx.otxLayouts.layout.inputRange)
  }

  function PlanLock(cx: CobuildContext, h: Blake2b): Result<LockValidationPlan> {
    if !cx.script.current.CurrentLock? then Err(InvalidContextInput)
    else
      var tx :- TxLevelSignature(cx, h);
      var txActions :- TxRelatedActions(cx);
      var cs :- Collect(Contributions(cx, h), |cx.OtxEntries()|);
      if Uncovered(cx, tx + AllSignatures(cs)) then Err(MissingLockGroupCoverage)
      else Ok(LockValidationPlan(LockHash(cx), tx + AllSignatures(cs), txActions + AllRelated(cs)))
  }

  // ---------- the builder, with its cache of parsed tx-level actions ----------

  datatype TxLevelActionCache = TxLevelActionCache(witnessIndex: nat, actions: seq<ActionView>, targetsChecked: bool)

  /** The message is the one its witness carries. */
  predicate Carries(cx: CobuildContext, w: nat, message: Cursor) {
    var summaries := cx.witnesses.summaries;
    w < |summaries| && summaries[w].SighashAllSummary? && summaries[w].message == message
  }

  /** A cached parse is the parse of that witness's message, and a cached check really holds. */
  predicate CacheTrue(cx: CobuildContext, cache: Option<TxLevelActionCache>) {
    cache.Some? ==>
      var c := cache.value;
      && c.witnessIndex < |cx.witnesses.summaries|
      && cx.witnesses.summaries[c.witnessIndex].SighashAllSummary?
      && MessageActions(cx.witnesses.summaries[c.witnessIndex].message) == Ok(c.actions)
      && (c.targetsChecked ==> cx.script.TargetsExist(c.actions))
  }

  lemma UniqueMessageCarried(cx: CobuildContext)
    ensures var unique := cx.witnesses.UniqueMessage();
            unique.Ok? && unique.value.Some? ==> Carries(cx, unique.value.value.0, unique.value.value.1)
  {
    UniqueMessageMeaning(cx.witnesses, |cx.witnesses.summaries|);
  }

  class LockPlanBuilder {
    const cx: CobuildContext
    const blake2b: Blake2b
    var requiredSignatures: seq<SigningRequirement>
    var relatedActions: seq<RelatedAction>
    var cache: Option<TxLevelActionCache>

    constructor (cx: CobuildContext, blake2b: Blake2b)
      ensures this.cx == cx && this.blake2b == blake2b
      ensures requiredSignatures == [] && relatedActions == [] && cache == None
    {
      this.cx := cx;
      this.blake2b := blake2b;
      requiredSignatures, relatedActions, cache := [], [], None;
    }

    /** Parse the message of witness `w`, or reuse the cached parse. */
    method TxLevelMessageActions(w: nat, message: Cursor) returns (r: Result<seq<ActionView>>)
      requires CacheTrue(cx, cache) && Carries(cx, w, message)
      modifies this`cache
      ensures r == MessageActions(message) && CacheTrue(cx, cache)
      ensures r.Ok? ==> cache.Some? && cache.value.witnessIndex == w && cache.value.actions == r.value
    {
      if cache.Some? && cache.value.witnessIndex == w {
        return Ok(cache.value.actions);
      }
      var actions :- ParseActions(message);
      cache := Some(TxLevelActionCache(w, actions, false));
      return Ok(actions);
    }

    /** Check the targets once; later checks of the same witness are answered from the cache. */
    method EnsureTargetsChecked(w: nat, actions: seq<ActionView>) returns (r: Result<()>)
      requires CacheTrue(cx, cache)
      requires cache.Some? && cache.value.witnessIndex == w ==> cache.value.actions == actions
      modifies this`cache
      ensures CacheTrue(cx, cache)
      ensures r == if cx.script.TargetsExist(actions) then Ok(()) else Err(InvalidMessageTarget)
    {
      if cache.Some? && cache.value.witnessIndex == w && cache.value.targetsChecked {
        return Ok(());
      }
      var _ :- cx.script.ValidateActionTargets(actions);
      if cache.Some? && cache.value.witnessIndex == w {
        cache := Some(cache.value.(targetsChecked := true));
      }
      return Ok(());
    }

    method CheckedTxLevelMessageActions(w: nat, message: Cursor) returns (r: Result<seq<ActionView>>)
      requires CacheTrue(cx, cache) && Carries(cx, w, message)
      modifies this`cache
      ensures r == cx.CheckedMessageActions(message) && CacheTrue(cx, cache)
    {
      var actions :- TxLevelMessageActions(w, message);
      var _ :- EnsureTargetsChecked(w, actions);
      return Ok(actions);
    }

    method AddTxLevelRequirement() returns (r: Result<()>)
      requires CacheTrue(cx, cache)
      modifies this`requiredSignatures, this`cache
      ensures CacheTrue(cx, cache)
      ensures match TxLevelSignature(cx, blake2b)
              case Ok(signatures) => r == Ok(()) && requiredSignatures == old(requiredSignatures) + signatures
              case Err(e) => r == Err(e)
    {
      if !cx.witnesses.hasCobuildWitnessLayout || !NeedsTxLevelSignature(cx) {
        assert requiredSignatures == requiredSignatures + [];
        return Ok(());
      }
      var carrierIndex := LockInputs(cx)[0];
      var _ :- cx.witnesses.EnsureNonCarrierWitnessesEmpty(LockInputs(cx), carrierIndex);
      var carrier :- cx.witnesses.CarrierView(carrierIndex);
      var unique :- cx.witnesses.FindUniqueMessage();
      UniqueMessageCarried(cx);
      var message := SignedMessage(unique, carrier);
      if message.Some? {
        var w := if unique.Some? then unique.value.0 else carrierIndex;
        var _ :- CheckedTxLevelMessageActions(w, message.value);
      }
      var hash :- ComputeTxSigningHash(blake2b, message, cx.tx);
      var seal :- carrier.seal.ReadAll(MalformedCobuild);
      requiredSignatures := requiredSignatures + [SigningRequirement(TxLevel, carrierIndex, seal, hash)];
      return Ok(());
    }

    method AddTxLevelActions() returns (r: Result<()>)
      requires CacheTrue(cx, cache)
      modifies this`relatedActions, this`cache
      ensures CacheTrue(cx, cache)
      ensures match TxRelatedActions(cx)
              case Ok(actions) => r == Ok(()) && relatedActions == old(relatedActions) + actions
              case Err(e) => r == Err(e)
    {
      var unique :- cx.witnesses.FindUniqueMessage();
      if unique.None? {
        assert relatedActions == relatedActions + [];
        return Ok(());
      }
      UniqueMessageCarried(cx);
      var (w, message) := unique.value;
      var all :- TxLevelMessageActions(w, message);
      var mine := FilterActions(all, IsLockAction(LockHash(cx)));
      if |mine| == 0 {
        assert relatedActions == relatedActions + [];
        return Ok(());
      }
      var _ :- EnsureTargetsChecked(w, all);
      relatedActions := relatedActions + TxActions(w, mine);
      return Ok(());
    }

    method RequiredAppendSegmentIndices(entry: OtxLayoutEntry) returns (r: seq<nat>)
      ensures r == SignedSegments(cx, entry)
    {
      r := [];
      var segments := entry.layout.appendSegments;
      ghost var hit := SegmentHit(cx, entry);
      for j := 0 to |segments|
        invariant r == Matching(j, hit)
      {
        if Meets(LockInputs(cx), segments[j].inputs) {
          r := r + [j];
        }
      }
    }

    method AddBaseSignature(entry: OtxLayoutEntry, baseSignature: bool, baseHash: Hash32) returns (r: Result<()>)
      requires baseSignature == SignsBase(cx, entry)
      modifies this`requiredSignatures
      ensures match BaseSignature(cx, entry, baseHash)
              case Ok(signatures) => r == Ok(()) && requiredSignatures == old(requiredSignatures) + signatures
              case Err(e) => r == Err(e)
    {
      if !baseSignature {
        assert requiredSignatures == requiredSignatures + [];
        return Ok(());
      }
      var seal :- FindUniqueLockSeal(LockHash(cx), entry.view.baseSeals);
      var requirement := SigningRequirement(OtxBase, entry.layout.witnessIndex, seal, baseHash);
      requiredSignatures := requiredSignatures + [requirement];
      return Ok(());
    }

    method AddOtxSignatures(entry: OtxLayoutEntry, baseSignature: bool, segmentIndices: seq<nat>)
      returns (r: Result<()>)
      requires baseSignature == SignsBase(cx, entry) && segmentIndices == SignedSegments(cx, entry)
      modifies this`requiredSignatures
      ensures match OtxSignatures(cx, blake2b, entry)
              case Ok(signatures) => r == Ok(()) && requiredSignatures == old(requiredSignatures) + signatures
              case Err(e) => r == Err(e)
    {
      var baseHash :- ComputeOtxBaseHash(blake2b, entry.view, entry.layout, cx.tx);
      r := AddPartSignatures(entry, baseSignature, segmentIndices, baseHash);
    }

    method AddPartSignatures(entry: OtxLayoutEntry, baseSignature: bool, segmentIndices: seq<nat>, baseHash: Hash32)
      returns (r: Result<()>)
      requires baseSignature == SignsBase(cx, entry) && segmentIndices == SignedSegments(cx, entry)
      modifies this`requiredSignatures
      ensures match PartSignatures(cx, blake2b, entry, baseHash)
              case Ok(signatures) => r == Ok(()) && requiredSignatures == old(requiredSignatures) + signatures
              case Err(e) => r == Err(e)
    {
      var _ :- AddBaseSignature(entry, baseSignature, baseHash);
      ghost var base := BaseSignature(cx, entry, baseHash).value;
      r := AddSegmentSignatures(entry, segmentIndices, baseHash);
      if r.Ok? {
        ghost var segments := Collect(SegmentSignaturesOf(cx, blake2b, entry, baseHash), |segmentIndices|).value;
        JoinAssociates(old(requiredSignatures), base, segments);
      }
    }

    /** The loop over the hit segments. */
    method AddSegmentSignatures(entry: OtxLayoutEntry, segmentIndices: seq<nat>, baseHash: Hash32)
      returns (r: Result<()>)
      requires segmentIndices == SignedSegments(cx, entry)
      modifies this`requiredSignatures
      ensures match Collect(SegmentSignaturesOf(cx, blake2b, entry, baseHash), |segmentIndices|)
              case Ok(signatures) => r == Ok(()) && requiredSignatures == old(requiredSignatures) + signatures
              case Err(e) => r == Err(e)
    {
      ghost var item := SegmentSignaturesOf(cx, blake2b, entry, baseHash);
      ghost var added: seq<SigningRequirement> := [];
      assert requiredSignatures == requiredSignatures + added;
      for k := 0 to |segmentIndices|
        invariant Collect(item, k) == Ok(added) && requiredSignatures == old(requiredSignatures) + added
      {
        var signature := ComputeSegmentSignature(entry, segmentIndices[k], baseHash);
        if signature.Err? {
          CollectStops(item, k, |segmentIndices|);
          return Err(signature.error);
        }
        ghost var next := added + [signature.value];
        assert Collect(item, k + 1) == Ok(next);
        assert old(requiredSignatures) + added + [signature.value] == old(requiredSignatures) + next;
        requiredSignatures := requiredSignatures + [signature.value];
        added := next;
      }
      return Ok(());
    }

    method ComputeSegmentSignature(entry: OtxLayoutEntry, j: nat, baseHash: Hash32)
      returns (r: Result<SigningRequirement>)
      ensures r == SegmentSignature(cx, blake2b, entry, baseHash, j)
    {
      if j >= |entry.view.appendSegments| {
        return Err(InvalidOtxLayout);
      }
      var seal :- FindUniqueLockSeal(LockHash(cx), entry.view.appendSegments[j].seals);
      var hash :- ComputeAppendSegmentHash(blake2b, entry.view, entry.layout, j, cx.tx, baseHash);
      return Ok(SigningRequirement(OtxAppendSegment(j), entry.layout.witnessIndex, seal, hash));
    }

    method AddOtxRequirement(i: nat) returns (r: Result<()>)
      requires i < |cx.OtxEntries()|
      modifies this`requiredSignatures, this`relatedActions
      ensures match OtxContribution(cx, blake2b, i)
              case Ok(c) =>
                r == Ok(()) && requiredSignatures == old(requiredSignatures) + c.signatures
                && relatedActions == old(relatedActions) + c.actions
              case Err(e) => r == Err(e)
    {
      var entry := cx.OtxEntries()[i];
      var baseSignature := SignsBase(cx, entry);
      var segmentIndices := RequiredAppendSegmentIndices(entry);
      var all :- ParseActions(entry.view.message);
      var mine := FilterActions(all, IsLockAction(LockHash(cx)));
      var needsSignature := baseSignature || |segmentIndices| != 0;
      assert needsSignature == SignsOtx(cx, entry);
      if !needsSignature && |mine| == 0 {
        assert requiredSignatures == requiredSignatures + [] && relatedActions == relatedActions + [];
        return Ok(());
      }
      var _ :- cx.script.ValidateActionTargets(all);
      relatedActions := relatedActions + OtxActions(i, entry, mine);
      if needsSignature {
        r := AddOtxSignatures(entry, baseSignature, segmentIndices);
      } else {
        assert requiredSignatures == requiredSignatures + [];
        return Ok(());
      }
    }

    /** One turn of the loop over the OTXs. */
    method AddNextOtx(i: nat, ghost cs: seq<Contribution>) returns (r: Result<()>, ghost next: seq<Contribution>)
      requires i < |cx.OtxEntries()| && Collect(Contributions(cx, blake2b), i) == Ok(cs)
      modifies this`requiredSignatures, this`relatedActions
      ensures r.Ok? ==>
                && |next| == |cs| + 1 && next == cs + [next[|cs|]]
                && Collect(Contributions(cx, blake2b), i + 1) == Ok(next)
                && requiredSignatures == old(requiredSignatures) + next[|cs|].signatures
                && relatedActions == old(relatedActions) + next[|cs|].actions
      ensures r.Err? ==> Collect(Contributions(cx, blake2b), |cx.OtxEntries()|) == Err(r.error)
    {
      ghost var f := Contributions(cx, blake2b);
      next := cs;
      assert f(i) == OtxContribution(cx, blake2b, i);
      r := AddOtxRequirement(i);
      if r.Err? {
        CollectStops(f, i, |cx.OtxEntries()|);
      } else {
        next := cs + [f(i).value];
      }
    }

    method AddOtxRequirements() returns (r: Result<()>)
      modifies this`requiredSignatures, this`relatedActions
      ensures match Collect(Contributions(cx, blake2b), |cx.OtxEntries()|)
              case Ok(cs) =>
                r == Ok(()) && requiredSignatures == old(requiredSignatures) + AllSignatures(cs)
                && relatedActions == old(relatedActions) + AllRelated(cs)
              case Err(e) => r == Err(e)
    {
      ghost var cs: seq<Contribution> := [];
      assert requiredSignatures == requiredSignatures + AllSignatures(cs);
      assert relatedActions == relatedActions + AllRelated(cs);
      for i := 0 to |cx.OtxEntries()|
        invariant Collect(Contributions(cx, blake2b), i) == Ok(cs)
        invariant requiredSignatures == old(requiredSignatures) + AllSignatures(cs)
        invariant relatedActions == old(relatedActions) + AllRelated(cs)
      {
        ghost var next;
        r, next := AddNextOtx(i, cs);
        if r.Err? {
          return;
        }
        ContributionSnoc(old(requiredSignatures), old(relatedActions), cs, next[|cs|]);
        cs := next;
      }
      return Ok(());
    }

    method EnsureOtxLockGroupCoverage() returns (r: Result<()>)
      ensures r == if Uncovered(cx, requiredSignatures) then Err(MissingLockGroupCoverage) else Ok(())
    {
      var hasTxLevel, hasOtx := HasTxLevel(requiredSignatures), HasOtx(requiredSignatures);
      if hasOtx && !hasTxLevel {
        if cx.otxLayouts.Complete? {
          if Escapes(LockInputs(cx), cx.otxLayouts.layout.inputRange) {
            return Err(MissingLockGroupCoverage);
          }
        }
      }
      return Ok(());
    }
  }

  lemma ContributionSnoc(sigs: seq<SigningRequirement>, acts: seq<RelatedAction>, cs: seq<Contribution>,
                         c: Contribution)
    ensures (sigs + AllSignatures(cs)) + c.signatures == sigs + AllSignatures(cs + [c])
    ensures (acts + AllRelated(cs)) + c.actions == acts + AllRelated(cs + [c])
  {
    var ss := seq(|cs|, i requires 0 <= i < |cs| => cs[i].signatures);
    var aa := seq(|cs|, i requires 0 <= i < |cs| => cs[i].actions);
    var next := cs + [c];
    assert seq(|next|, i requires 0 <= i < |next| => next[i].signatures) == ss + [c.signatures];
    assert seq(|next|, i requires 0 <= i < |next| => next[i].actions) == aa + [c.actions];
    FlattenSnoc(sigs, ss, c.signatures);
    FlattenSnoc(acts, aa, c.actions);
  }

  /** `plan_lock_validation`: the cached builder returns the recomputed plan, or its error. */
  method PlanLockValidation(cx: CobuildContext, blake2b: Blake2b) returns (r: Result<LockValidationPlan>)
    ensures r == PlanLock(cx, blake2b)
  {
    if !cx.script.current.CurrentLock? {
      return Err(InvalidContextInput);
    }
    var builder := new LockPlanBuilder(cx, blake2b);
    var _ :- builder.AddTxLevelRequirement();
    ghost var tx := TxLevelSignature(cx, blake2b).value;
    assert builder.requiredSignatures == tx by { assert [] + tx == tx; }
    var _ :- builder.AddTxLevelActions();
    ghost var txActions := TxRelatedActions(cx).value;
    assert builder.relatedActions == txActions by { assert [] + txActions == txActions; }
    var _ :- builder.AddOtxRequirements();
    var _ :- builder.EnsureOtxLockGroupCoverage();
    return Ok(LockValidationPlan(LockHash(cx), builder.requiredSignatures, builder.relatedActions));
  }
}
