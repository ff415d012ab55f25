/** What can change around an OTX without touching its signatures, said of whole transactions. */
module Stability {
  import opened Base
  import opened LazyReader
  import opened View
  import opened Layout
  import opened Transaction
  import opened Preimage
  import opened Scope
  import opened Faithful
  import opened Injective

  /** An OTX with its place in a transaction. */
  datatype Site = Site(otx: OtxView, layout: OtxLayout, tx: Tx) {
    predicate Ok() { Placed(otx, layout, tx) }

    function Input(i: nat): TxInput
      requires Ok() && i < otx.baseInputCells
    {
      tx.inputs[InBase(otx, layout, tx, Inputs, i)]
    }

    function Output(i: nat): TxOutput
      requires Ok() && i < otx.baseOutputCells
    {
      tx.outputs[InBase(otx, layout, tx, Outputs, i)]
    }

    function CellDep(i: nat): Bytes
      requires Ok() && i < otx.baseCellDeps
    {
      tx.cellDeps[InBase(otx, layout, tx, CellDeps, i)]
    }

    function HeaderDep(i: nat): Bytes
      requires Ok() && i < otx.baseHeaderDeps
    {
      tx.headerDeps[InBase(otx, layout, tx, HeaderDeps, i)]
    }

    function Preimage(): Result<Bytes> { OtxBasePreimage(otx, layout, tx) }

    function Scope(): BaseScope
      requires Ok()
    {
      BaseScopeOf(otx, layout, tx)
    }
  }

  /** Same message, permissions, counts and masks. */
  predicate SameHeader(a: OtxView, b: OtxView)
    requires a.message.InBounds() && b.message.InBounds()
  {
    && a.message.Content() == b.message.Content()
    && a.appendPermissions == b.appendPermissions
    && a.baseInputCells == b.baseInputCells && a.baseInputMasks == b.baseInputMasks
    && a.baseOutputCells == b.baseOutputCells && a.baseOutputMasks == b.baseOutputMasks
    && a.baseCellDeps == b.baseCellDeps && a.baseCellDepMasks == b.baseCellDepMasks
    && a.baseHeaderDeps == b.baseHeaderDeps && a.baseHeaderDepMasks == b.baseHeaderDepMasks
  }

  /** Input `i` of both base parts: the resolved cells agree, and so does every field the mask covers. */
  predicate SameInput(a: Site, b: Site, i: nat)
    requires a.Ok() && b.Ok() && i < a.otx.baseInputCells && i < b.otx.baseInputCells
  {
    var x, y := a.Input(i), b.Input(i);
    && x.resolvedOutput == y.resolvedOutput && x.resolvedData == y.resolvedData
    && (a.otx.IncludesSince(i) == Ok(true) ==> x.cell.since == y.cell.since)
    && (a.otx.IncludesPreviousOutput(i) == Ok(true) ==> x.cell.previousOutput == y.cell.previousOutput)
  }

  predicate SameOutput(a: Site, b: Site, i: nat)
    requires a.Ok() && b.Ok() && i < a.otx.baseOutputCells && i < b.otx.baseOutputCells
  {
    var x, y := a.Output(i), b.Output(i);
    && (a.otx.IncludesCapacity(i) == Ok(true) ==> x.cell.capacity == y.cell.capacity)
    && (a.otx.IncludesLock(i) == Ok(true) ==> x.cell.lock == y.cell.lock)
    && (a.otx.IncludesType(i) == Ok(true) ==> x.cell.typeScript == y.cell.typeScript)
    && (a.otx.IncludesData(i) == Ok(true) ==> x.data == y.data)
  }

  /** Everything a base signature is meant to cover is the same at both sites. */
  predicate SameBase(a: Site, b: Site)
    requires a.Ok() && b.Ok()
  {
    && SameHeader(a.otx, b.otx)
    && (forall i: nat | i < a.otx.baseInputCells :: SameInput(a, b, i))
    && (forall i: nat | i < a.otx.baseOutputCells :: SameOutput(a, b, i))
    && (forall i: nat | i < a.otx.baseCellDeps && a.otx.baseCellDepMasks.Get(i) == Ok(true) ::
          a.CellDep(i) == b.CellDep(i))
    && (forall i: nat | i < a.otx.baseHeaderDeps && a.otx.baseHeaderDepMasks.Get(i) == Ok(true) ::
          a.HeaderDep(i) == b.HeaderDep(i))
  }

  lemma SameBaseSameScope(a: Site, b: Site)
    requires a.Ok() && b.Ok() && SameBase(a, b)
    ensures a.Scope() == b.Scope()
  {
    var s, t := a.Scope(), b.Scope();
    forall i: nat | i < |s.inputs| ensures s.inputs[i] == t.inputs[i] {
      assert SameInput(a, b, i);
    }
    forall i: nat | i < |s.outputs| ensures s.outputs[i] == t.outputs[i] {
      assert SameOutput(a, b, i);
    }
    assert s.cellDeps == t.cellDeps && s.headerDeps == t.headerDeps;
  }

  lemma SameScopeSameBase(a: Site, b: Site)
    requires a.Ok() && b.Ok() && a.Scope() == b.Scope()
    ensures SameBase(a, b)
  {
    var s, t := a.Scope(), b.Scope();
    assert |s.inputs| == |t.inputs| && |s.outputs| == |t.outputs|;
    assert |s.cellDeps| == |t.cellDeps| && |s.headerDeps| == |t.headerDeps|;
    forall i: nat | i < a.otx.baseInputCells ensures SameInput(a, b, i) {
      assert s.inputs[i] == t.inputs[i];
    }
    forall i: nat | i < a.otx.baseOutputCells ensures SameOutput(a, b, i) {
      assert s.outputs[i] == t.outputs[i];
    }
    forall i: nat | i < a.otx.baseCellDeps && a.otx.baseCellDepMasks.Get(i) == Ok(true)
      ensures a.CellDep(i) == b.CellDep(i)
    {
      assert s.cellDeps[i] == t.cellDeps[i];
    }
    forall i: nat | i < a.otx.baseHeaderDeps && a.otx.baseHeaderDepMasks.Get(i) == Ok(true)
      ensures a.HeaderDep(i) == b.HeaderDep(i)
    {
      assert s.headerDeps[i] == t.headerDeps[i];
    }
  }

  /**
   * Relocation: at two sites with the same covered content the base preimage is the same, wherever the
   * parts start, whatever surrounds them, and whatever the masked-out fields, seals and segments are.
   */
  lemma BaseRelocation(a: Site, b: Site)
    requires a.Ok() && b.Ok() && SameBase(a, b)
    ensures a.Preimage() == b.Preimage()
  {
    SameBaseSameScope(a, b);
    BasePreimageIsScope(a.otx, a.layout, a.tx);
    BasePreimageIsScope(b.otx, b.layout, b.tx);
  }

  /**
   * And conversely: equal base preimages mean the same covered content, exactly when the covered outputs
   * agree on which of them carry a type script.
   */
  lemma BasePreimageDetermines(a: Site, b: Site)
    requires a.Ok() && b.Ok() && a.tx.Valid() && b.tx.Valid()
    requires SelfDelimiting(a.otx.message.Content()) && SelfDelimiting(b.otx.message.Content())
    requires a.Preimage().Ok? && a.Preimage() == b.Preimage()
    ensures SameBase(a, b) <==> SameTypePresence(a.Scope(), b.Scope())
  {
    BasePreimageIsScope(a.otx, a.layout, a.tx);
    BasePreimageIsScope(b.otx, b.layout, b.tx);
    PlacedScopeValid(a.otx, a.layout, a.tx);
    PlacedScopeValid(b.otx, b.layout, b.tx);
    BaseInjective(a.Scope(), b.Scope());
    if SameBase(a, b) {
      SameBaseSameScope(a, b);
    }
    if a.Scope() == b.Scope() {
      SameScopeSameBase(a, b);
    }
  }

  // ---------- append segments ----------

  /** Editing, adding or removing later segments leaves a segment's preimage alone. */
  lemma LaterSegmentsDoNotMatter(a: Site, b: Site, j: nat, baseHash: Hash32)
    requires a.Ok() && b.Ok() && j < |a.otx.appendSegments| && j < |b.otx.appendSegments|
    requires forall i: nat | i <= j :: SegmentAt(a.otx, a.layout, a.tx, i) == SegmentAt(b.otx, b.layout, b.tx, i)
    ensures AppendSegmentPreimage(a.otx, a.layout, j, a.tx, baseHash)
            == AppendSegmentPreimage(b.otx, b.layout, j, b.tx, baseHash)
  {
    AppendPreimageIsScope(a.otx, a.layout, a.tx, j, baseHash);
    AppendPreimageIsScope(b.otx, b.layout, b.tx, j, baseHash);
    assert a.otx.appendSegments[j].segmentFlags == SegmentAt(a.otx, a.layout, a.tx, j).flags;
    assert SegmentsBefore(a.otx, a.layout, a.tx, j) == SegmentsBefore(b.otx, b.layout, b.tx, j);
  }

  /** A segment that covers only itself has one preimage, at whatever position and among whatever others. */
  lemma OwnOnlySegmentMoves(a: Site, i: nat, b: Site, j: nat, baseHash: Hash32)
    requires a.Ok() && b.Ok() && i < |a.otx.appendSegments| && j < |b.otx.appendSegments|
    requires SegmentAt(a.otx, a.layout, a.tx, i) == SegmentAt(b.otx, b.layout, b.tx, j)
    requires !CoversPrevious(a.otx.appendSegments[i].segmentFlags)
    ensures AppendSegmentPreimage(a.otx, a.layout, i, a.tx, baseHash)
            == AppendSegmentPreimage(b.otx, b.layout, j, b.tx, baseHash)
  {
    AppendPreimageIsScope(a.otx, a.layout, a.tx, i, baseHash);
    AppendPreimageIsScope(b.otx, b.layout, b.tx, j, baseHash);
    assert a.otx.appendSegments[i].segmentFlags == SegmentAt(a.otx, a.layout, a.tx, i).flags;
    assert b.otx.appendSegments[j].segmentFlags == SegmentAt(b.otx, b.layout, b.tx, j).flags;
  }

  /**
   * Equal append preimages, at whatever sites, cover the same base hash, flags and entities exactly when both
   * segments cover the previous ones or neither does.
   */
  lemma AppendPreimageDetermines(a: Site, i: nat, b: Site, j: nat, ha: Hash32, hb: Hash32)
    requires a.Ok() && b.Ok() && a.tx.Valid() && b.tx.Valid()
    requires i < |a.otx.appendSegments| && j < |b.otx.appendSegments|
    requires AppendSegmentPreimage(a.otx, a.layout, i, a.tx, ha).Ok?
    requires AppendSegmentPreimage(a.otx, a.layout, i, a.tx, ha) == AppendSegmentPreimage(b.otx, b.layout, j, b.tx, hb)
    ensures AppendScopeOf(a.otx, a.layout, a.tx, i, ha) == AppendScopeOf(b.otx, b.layout, b.tx, j, hb)
       <==> CoversPrevious(a.otx.appendSegments[i].segmentFlags) == CoversPrevious(b.otx.appendSegments[j].segmentFlags)
  {
    AppendPreimageIsScope(a.otx, a.layout, a.tx, i, ha);
    AppendPreimageIsScope(b.otx, b.layout, b.tx, j, hb);
    AppendScopeValid(a, i, ha);
    AppendScopeValid(b, j, hb);
    AppendInjective(AppendScopeOf(a.otx, a.layout, a.tx, i, ha), AppendScopeOf(b.otx, b.layout, b.tx, j, hb));
  }

  /** A segment that covers the previous ones binds its position: equal preimages are at the same index. */
  lemma CoveringSegmentBindsPosition(a: Site, i: nat, b: Site, j: nat, ha: Hash32, hb: Hash32)
    requires a.Ok() && b.Ok() && a.tx.Valid() && b.tx.Valid()
    requires i < |a.otx.appendSegments| && j < |b.otx.appendSegments|
    requires CoversPrevious(a.otx.appendSegments[i].segmentFlags)
             && CoversPrevious(b.otx.appendSegments[j].segmentFlags)
    requires AppendSegmentPreimage(a.otx, a.layout, i, a.tx, ha).Ok?
    requires AppendSegmentPreimage(a.otx, a.layout, i, a.tx, ha) == AppendSegmentPreimage(b.otx, b.layout, j, b.tx, hb)
    ensures i == j && ha == hb
    ensures forall k: nat | k <= i :: SegmentAt(a.otx, a.layout, a.tx, k) == SegmentAt(b.otx, b.layout, b.tx, k)
  {
    var s, t := AppendScopeOf(a.otx, a.layout, a.tx, i, ha), AppendScopeOf(b.otx, b.layout, b.tx, j, hb);
    AppendPreimageDetermines(a, i, b, j, ha, hb);
    assert |s.previous.value| == |t.previous.value|;
    forall k: nat | k < i ensures SegmentAt(a.otx, a.layout, a.tx, k) == SegmentAt(b.otx, b.layout, b.tx, k) {
      assert s.previous.value[k] == t.previous.value[k];
    }
  }

  /**
   * Equal tx-level preimages of one personalisation cover the same message, transaction hash, resolved cells and
   * trailing witnesses exactly when the transactions have equally many inputs.
   */
  lemma TxPreimageDetermines(m: Option<Cursor>, a: Tx, n: Option<Cursor>, b: Tx)
    requires a.Valid() && b.Valid() && m.Some? == n.Some?
    requires m.Some? ==> m.value.InBounds() && SelfDelimiting(m.value.Content())
    requires n.Some? ==> n.value.InBounds() && SelfDelimiting(n.value.Content())
    requires TxPreimage(m, a).Ok? && TxPreimage(m, a) == TxPreimage(n, b)
    ensures TxScopeOf(m, a) == TxScopeOf(n, b) <==> |a.inputs| == |b.inputs|
  {
    TxPreimageIsScope(m, a);
    TxPreimageIsScope(n, b);
    TxInjective(TxScopeOf(m, a), TxScopeOf(n, b));
    assert |TxScopeOf(m, a).cells| == |a.inputs| && |TxScopeOf(n, b).cells| == |b.inputs|;
  }

  /** When the transaction hash fixes the input count, as a real one does, tx-level injectivity holds outright. */
  lemma TxPreimageDeterminesOutright(m: Option<Cursor>, a: Tx, n: Option<Cursor>, b: Tx)
    requires a.Valid() && b.Valid() && m.Some? == n.Some?
    requires m.Some? ==> m.value.InBounds() && SelfDelimiting(m.value.Content())
    requires n.Some? ==> n.value.InBounds() && SelfDelimiting(n.value.Content())
    requires TxPreimage(m, a).Ok? && TxPreimage(m, a) == TxPreimage(n, b)
    requires a.txHash == b.txHash ==> |a.inputs| == |b.inputs|
    ensures TxScopeOf(m, a) == TxScopeOf(n, b)
  {
    TxPreimageIsScope(m, a);
    TxPreimageIsScope(n, b);
    TxHashBound(TxScopeOf(m, a), TxScopeOf(n, b));
    TxPreimageDetermines(m, a, n, b);
  }

  lemma AppendScopeValid(a: Site, j: nat, h: Hash32)
    requires a.Ok() && a.tx.Valid() && j < |a.otx.appendSegments|
    requires AppendFits(AppendScopeOf(a.otx, a.layout, a.tx, j, h))
    ensures ValidAppend(AppendScopeOf(a.otx, a.layout, a.tx, j, h))
  {
    var s := AppendScopeOf(a.otx, a.layout, a.tx, j, h);
    assert SegmentPlaced(a.otx.appendSegments[j], a.layout.appendSegments[j], a.tx);
    SegmentScopeValid(a.otx.appendSegments[j], a.layout.appendSegments[j], a.tx);
    if s.previous.Some? {
      forall i: nat | i < |s.previous.value| ensures ValidSegment(s.previous.value[i]) {
        assert SegmentPlaced(a.otx.appendSegments[i], a.layout.appendSegments[i], a.tx);
        assert s.previous.value[i] == SegmentAt(a.otx, a.layout, a.tx, i);
        SegmentScopeValid(a.otx.appendSegments[i], a.layout.appendSegments[i], a.tx);
      }
    }
  }

  /** In an accepted OTX only the last segment may close the list. */
  lemma ClosingSegmentIsLast(otx: OtxView, j: nat)
    requires ValidOtxView(otx) && j < |otx.appendSegments|
    requires !AllowsMoreAfter(otx.appendSegments[j].segmentFlags)
    ensures j + 1 == |otx.appendSegments|
  {}
}
