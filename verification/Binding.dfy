/**
 * From a planned hash to the content it signs: no writer faults on a built layout, and the covered cells are
 * inside.
 */
module Binding {
  import opened Base
  import opened LazyReader
  import opened View
  import opened Layout
  import opened Transaction
  import opened Preimage
  import opened Scope
  import opened Faithful
  import opened Context
  import opened Plan
  import opened Engine
  import opened Entry
  import opened BuiltFacts
  import opened ExactPlan
  import opened Coverage
  import opened Agreement
  import opened Stability

  // ---------- no-fault hashing ----------

  function ScopeHash(h: Blake2b, personal: string, fits: bool, encoded: Bytes): Result<Hash32> {
    if fits then Ok(h(personal, encoded)) else Err(HashInputTooLarge)
  }

  function BaseScopeHash(h: Blake2b, e: OtxLayoutEntry, tx: Tx): Result<Hash32>
    requires Placed(e.view, e.layout, tx)
  {
    var s := BaseScopeOf(e.view, e.layout, tx);
    ScopeHash(h, OTX_BASE_PERSONAL, BaseFits(s), EncodeBase(s))
  }

  function AppendScopeHash(h: Blake2b, e: OtxLayoutEntry, j: nat, tx: Tx, baseHash: Hash32): Result<Hash32>
    requires Placed(e.view, e.layout, tx) && j < |e.view.appendSegments|
  {
    var s := AppendScopeOf(e.view, e.layout, tx, j, baseHash);
    ScopeHash(h, OTX_APPEND_SEGMENT_PERSONAL, AppendFits(s), EncodeAppend(s))
  }

  function TxPersonal(message: Option<Cursor>): string {
    if message.Some? then TX_WITH_MESSAGE_PERSONAL else TX_WITHOUT_MESSAGE_PERSONAL
  }

  lemma PlacedHashes(h: Blake2b, e: OtxLayoutEntry, tx: Tx)
    requires Placed(e.view, e.layout, tx)
    ensures OtxBaseHash(h, e.view, e.layout, tx) == BaseScopeHash(h, e, tx)
    ensures forall j: nat, baseHash: Hash32 | j < |e.view.appendSegments| ::
              AppendSegmentHash(h, e.view, e.layout, j, tx, baseHash) == AppendScopeHash(h, e, j, tx, baseHash)
  {
    BasePreimageIsScope(e.view, e.layout, tx);
    forall j: nat, baseHash: Hash32 | j < |e.view.appendSegments|
      ensures AppendSegmentHash(h, e.view, e.layout, j, tx, baseHash) == AppendScopeHash(h, e, j, tx, baseHash)
    {
      AppendPreimageIsScope(e.view, e.layout, tx, j, baseHash);
    }
  }

  /**
   * No-fault hashing.  On a built layout the OTX hashes are the hashes of the encoded scopes; the only error
   * left is a length that needs more than four bytes.  No mask bit is missing, no range too short, and no
   * entity past the transaction is ever asked for.
   */
  lemma BuiltHashesNeverFault(tx: Tx, current: CurrentScript, cx: CobuildContext, h: Blake2b, i: nat)
    requires Build(tx, current) == Ok(cx) && Readable(tx) && i < |cx.OtxEntries()|
    ensures var e := cx.OtxEntries()[i];
            && Placed(e.view, e.layout, tx)
            && OtxBaseHash(h, e.view, e.layout, tx) == BaseScopeHash(h, e, tx)
            && forall j: nat, baseHash: Hash32 | j < |e.view.appendSegments| ::
                 AppendSegmentHash(h, e.view, e.layout, j, tx, baseHash) == AppendScopeHash(h, e, j, tx, baseHash)
  {
    EntrySound(tx, current, cx, i);
    PlacedHashes(h, cx.OtxEntries()[i], tx);
  }

  lemma TxHashNeverFaults(h: Blake2b, message: Option<Cursor>, tx: Tx)
    requires Readable(tx) && (message.Some? ==> message.value.InBounds())
    ensures var s := TxScopeOf(message, tx);
            TxSigningHash(h, message, tx) == ScopeHash(h, TxPersonal(message), TxFits(s), EncodeTx(s))
  {
    TxPreimageIsScope(message, tx);
  }

  /**
   * Relocation, of built contexts: an OTX whose covered base content is the same in two transactions has the
   * same base hash in both, wherever their layouts put it.
   */
  lemma RelocatedOtxKeepsItsHash(tx: Tx, current: CurrentScript, cx: CobuildContext, i: nat,
                                 tx': Tx, current': CurrentScript, cx': CobuildContext, i': nat, h: Blake2b)
    requires Build(tx, current) == Ok(cx) && Readable(tx) && i < |cx.OtxEntries()|
    requires Build(tx', current') == Ok(cx') && Readable(tx') && i' < |cx'.OtxEntries()|
    ensures var e, e' := cx.OtxEntries()[i], cx'.OtxEntries()[i'];
            var a, b := Site(e.view, e.layout, tx), Site(e'.view, e'.layout, tx');
            && a.Ok() && b.Ok()
            && (SameBase(a, b) ==> OtxBaseHash(h, e.view, e.layout, tx) == OtxBaseHash(h, e'.view, e'.layout, tx'))
  {
    EntrySound(tx, current, cx, i);
    EntrySound(tx', current', cx', i');
    var e, e' := cx.OtxEntries()[i], cx'.OtxEntries()[i'];
    var a, b := Site(e.view, e.layout, tx), Site(e'.view, e'.layout, tx');
    if SameBase(a, b) {
      BaseRelocation(a, b);
    }
  }

  // ---------- what a requirement's hash binds ----------

  function CellAt(tx: Tx, index: nat): ResolvedCell
    requires index < |tx.inputs|
  {
    ResolvedCell(tx.inputs[index].resolvedOutput, tx.inputs[index].resolvedData)
  }

  /** The hash is that of the OTX's base scope, in which input `index` stands with its resolved cell. */
  predicate BaseBinds(h: Blake2b, tx: Tx, e: OtxLayoutEntry, hash: Hash32, index: nat) {
    && Placed(e.view, e.layout, tx)
    && e.layout.baseInputs.Contains(index) && index < |tx.inputs|
    && IsBaseHash(h, BaseScopeOf(e.view, e.layout, tx), hash)
    && HoldsCell(BaseScopeOf(e.view, e.layout, tx), tx, e.layout.baseInputs, index)
  }

  predicate IsBaseHash(h: Blake2b, s: BaseScope, hash: Hash32) { hash == h(OTX_BASE_PERSONAL, EncodeBase(s)) }

  /** The resolved cell of input `index` stands at its place in the base scope. */
  predicate HoldsCell(s: BaseScope, tx: Tx, range: Range, index: nat)
    requires range.Contains(index) && index < |tx.inputs|
  {
    index - range.start < |s.inputs| && s.inputs[index - range.start].cell == CellAt(tx, index)
  }

  /** The hash is that of the segment's scope over the OTX's base hash, with input `index` raw and resolved. */
  predicate SegmentBinds(h: Blake2b, tx: Tx, e: OtxLayoutEntry, j: nat, hash: Hash32, index: nat) {
    && Placed(e.view, e.layout, tx)
    && j < |e.view.appendSegments| && j < |e.layout.appendSegments|
    && e.layout.appendSegments[j].inputs.Contains(index) && index < |tx.inputs|
    && var base := h(OTX_BASE_PERSONAL, EncodeBase(BaseScopeOf(e.view, e.layout, tx)));
       IsAppendHash(h, AppendScopeOf(e.view, e.layout, tx, j, base), hash)
       && HoldsInput(SegmentAt(e.view, e.layout, tx, j), tx, e.layout.appendSegments[j].inputs, index)
  }

  predicate IsAppendHash(h: Blake2b, s: AppendScope, hash: Hash32)
  {
    hash == h(OTX_APPEND_SEGMENT_PERSONAL, EncodeAppend(s))
  }

  /** Input `index` of the transaction stands, raw and resolved, at its place in the segment's scope. */
  predicate HoldsInput(s: SegmentScope, tx: Tx, range: Range, index: nat)
    requires range.Contains(index) && index < |tx.inputs|
  {
    index - range.start < |s.inputs|
    && s.inputs[index - range.start] == SegmentInput(tx.inputs[index].cell.Raw(), CellAt(tx, index))
  }

  /** The hash is that of the tx-level scope over the transaction's one message, with every resolved cell. */
  predicate TxBinds(h: Blake2b, cx: CobuildContext, hash: Hash32, index: nat) {
    && Readable(cx.tx)
    && cx.witnesses.UniqueMessage().Ok?
    && var message := MessageOf(cx.witnesses.UniqueMessage().value);
       && (message.Some? ==> message.value.InBounds())
       && index < |cx.tx.inputs|
       && hash == h(TxPersonal(message), EncodeTx(TxScopeOf(message, cx.tx)))
       && TxScopeOf(message, cx.tx).cells[index] == CellAt(cx.tx, index)
  }

  predicate Binds(h: Blake2b, cx: CobuildContext, r: SigningRequirement, index: nat) {
    match r.origin
    case TxLevel => TxBinds(h, cx, r.signingMessageHash, index)
    case OtxBase =>
      exists i: nat | i < |cx.OtxEntries()| ::
        CarriedBy(cx, i, r.carrierWitnessIndex) && BaseBinds(h, cx.tx, cx.OtxEntries()[i], r.signingMessageHash, index)
    case OtxAppendSegment(j) =>
      exists i: nat | i < |cx.OtxEntries()| ::
        && CarriedBy(cx, i, r.carrierWitnessIndex)
        && SegmentBinds(h, cx.tx, cx.OtxEntries()[i], j, r.signingMessageHash, index)
  }

  lemma BaseCovered(h: Blake2b, tx: Tx, e: OtxLayoutEntry, hash: Hash32, index: nat)
    requires Placed(e.view, e.layout, tx) && e.layout.baseInputs.Contains(index)
    requires OtxBaseHash(h, e.view, e.layout, tx) == Ok(hash)
    ensures BaseBinds(h, tx, e, hash, index)
  {
    PlacedHashes(h, e, tx);
    BaseHoldsCell(e.view, e.layout, tx, index);
    assert IsBaseHash(h, BaseScopeOf(e.view, e.layout, tx), hash);
  }

  lemma BaseHoldsCell(otx: OtxView, layout: OtxLayout, tx: Tx, index: nat)
    requires Placed(otx, layout, tx) && layout.baseInputs.Contains(index)
    ensures index < |tx.inputs| && HoldsCell(BaseScopeOf(otx, layout, tx), tx, layout.baseInputs, index)
  {
    assert layout.BaseOf(Inputs).count == otx.Count(Inputs)
        && layout.BaseOf(Inputs).End() <= tx.EntityCounts().At(Inputs);
    var at := InBase(otx, layout, tx, Inputs, index - layout.baseInputs.start);
  }

  lemma SegmentCovered(h: Blake2b, tx: Tx, e: OtxLayoutEntry, j: nat, baseHash: Hash32, hash: Hash32, index: nat)
    requires Placed(e.view, e.layout, tx) && j < |e.view.appendSegments|
             && e.layout.appendSegments[j].inputs.Contains(index)
    requires OtxBaseHash(h, e.view, e.layout, tx) == Ok(baseHash)
    requires AppendSegmentHash(h, e.view, e.layout, j, tx, baseHash) == Ok(hash)
    ensures SegmentBinds(h, tx, e, j, hash, index)
  {
    PlacedHashes(h, e, tx);
    assert SegmentPlaced(e.view.appendSegments[j], e.layout.appendSegments[j], tx);
    SegmentHoldsInput(e.view.appendSegments[j], e.layout.appendSegments[j], tx, index);
    assert IsAppendHash(h, AppendScopeOf(e.view, e.layout, tx, j, baseHash), hash);
  }

  lemma SegmentHoldsInput(v: OtxAppendSegmentView, l: OtxAppendSegmentLayout, tx: Tx, index: nat)
    requires SegmentPlaced(v, l, tx) && l.inputs.Contains(index)
    ensures index < |tx.inputs| && HoldsInput(SegmentScopeOf(v, l, tx), tx, l.inputs, index)
  {
    assert l.Of(Inputs).End() <= tx.EntityCounts().At(Inputs);
  }

  lemma TxLevelCovered(tx: Tx, lock: Hash32, h: Blake2b, cx: CobuildContext, r: SigningRequirement, index: nat)
    requires Build(tx, CurrentLock(lock)) == Ok(cx) && Readable(tx) && TxLevelHolds(cx, h, r) && index < |tx.inputs|
    ensures TxBinds(h, cx, r.signingMessageHash, index)
  {
    SummariesOfWitnesses(tx, CurrentLock(lock), cx);
    var unique := cx.witnesses.UniqueMessage().value;
    if unique.Some? {
      UniqueMessageGood(tx, CurrentLock(lock), cx, unique.value.0, unique.value.1);
    }
    TxHashNeverFaults(h, MessageOf(unique), tx);
  }

  lemma JustifiedBinds(tx: Tx, lock: Hash32, h: Blake2b, cx: CobuildContext, i: nat, r: SigningRequirement, index: nat)
    requires Build(tx, CurrentLock(lock)) == Ok(cx) && Readable(tx) && i < |cx.OtxEntries()|
    requires Justified(cx, h, cx.OtxEntries()[i], r) && Covers(cx, r, index)
    ensures Binds(h, cx, r, index)
  {
    SummariesOfWitnesses(tx, CurrentLock(lock), cx);
    BuiltWitnessesAscend(tx, CurrentLock(lock), cx);
    EntrySound(tx, CurrentLock(lock), cx, i);
    var e := cx.OtxEntries()[i];
    assert CarriedBy(cx, i, r.carrierWitnessIndex);
    match r.origin
    case OtxBase =>
      var n: nat :| n < |cx.OtxEntries()| && CarriedBy(cx, n, r.carrierWitnessIndex) && InPart(cx, n, Base, index);
      SameCarrierSameOtx(cx, i, n, r.carrierWitnessIndex);
      BaseCovered(h, tx, e, r.signingMessageHash, index);
    case OtxAppendSegment(j) =>
      var n: nat :| n < |cx.OtxEntries()| && CarriedBy(cx, n, r.carrierWitnessIndex)
          && InPart(cx, n, Segment(j), index);
      SameCarrierSameOtx(cx, i, n, r.carrierWitnessIndex);
      SegmentCovered(h, tx, e, j, OtxBaseHash(h, e.view, e.layout, tx).value, r.signingMessageHash, index);
  }

  /**
   * What acceptance means for each input of the lock: one of the verified signatures is over the hash of a
   * scope that contains the input's resolved cell.
   */
  lemma AcceptedInputIsSigned(tx: Tx, lock: Hash32, h: Blake2b, verify: Verifier, index: nat) returns (k: nat)
    requires Verdict(tx, lock, h, verify) == None && LockAt(tx, lock, index) && Readable(tx)
    ensures Build(tx, CurrentLock(lock)).Ok? && PlanOf(tx, lock, h).Ok?
    ensures var cx, rs := Build(tx, CurrentLock(lock)).value, PlanOf(tx, lock, h).value.requiredSignatures;
            && k < |rs|
            && verify(rs[k].seal, rs[k].signingMessageHash)
            && Covers(cx, rs[k], index)
            && Binds(h, cx, rs[k], index)
  {
    k := EveryLockInputIsCovered(tx, lock, h, verify, index);
    var cx, plan := Build(tx, CurrentLock(lock)).value, PlanOf(tx, lock, h).value;
    var r := plan.requiredSignatures[k];
    if r.origin.TxLevel? {
      PlannedTxLevelHolds(tx, lock, h, cx, plan, k);
      TxLevelCovered(tx, lock, h, cx, r, index);
    } else {
      PlanIsExact(tx, lock, h, cx, plan);
      var i: nat :| i < |cx.OtxEntries()| && Justified(cx, h, cx.OtxEntries()[i], r);
      JustifiedBinds(tx, lock, h, cx, i, r, index);
    }
  }
}
