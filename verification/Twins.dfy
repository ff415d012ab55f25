/** Transactions that differ in covered content and still sign alike: where injectivity ends, on real inputs. */
module Twins {
  import opened Base
  import opened Molecule
  import opened LazyReader
  import opened View
  import opened Transaction
  import opened Preimage
  import opened Scope
  import opened Faithful
  import opened Injective
  import opened Stability
  import opened Context
  import opened Engine

  // ---------- a base output that loses its type script ----------

  /** A covered base output that has a type script and no data. */
  predicate Splittable(a: Site, i: nat) {
    && a.Ok() && i < a.otx.baseOutputCells
    && a.otx.IncludesType(i) == Ok(true) && a.otx.IncludesData(i) == Ok(true)
    && a.Output(i).cell.typeScript.Some? && a.Output(i).data == []
  }

  /** The output without its type script, printed anew, its data being the script's tail. */
  function TwinOutput(o: TxOutput): TxOutput
    requires o.cell.Valid() && o.cell.typeScript.Some?
  {
    TxOutput(
      CellOutput(Offsetted([o.cell.capacity, o.cell.lock, []]), o.cell.capacity, o.cell.lock, None),
      o.cell.typeScript.value[4..] + [0, 0, 0, 0],
      None)
  }

  lemma TwinOutputValid(o: TxOutput)
    requires o.cell.Valid() && o.cell.typeScript.Some?
    ensures TwinOutput(o).cell.Valid()
  {
    var before, after := [o.cell.capacity, o.cell.lock, o.cell.TypeBytes()], [o.cell.capacity, o.cell.lock, []];
    OffsettedLength(before);
    OffsettedLength(after);
    assert PartStart(after, 2) == PartStart(before, 2) by {
      assert PartStart(after, 1) == PartStart(before, 1);
    }
    assert PartStart(after, 3) == PartStart(after, 2) && PartStart(before, 3) >= PartStart(before, 2);
  }

  /** The same site in the transaction with that output replaced. */
  function TwinSite(a: Site, i: nat): Site
    requires Splittable(a, i) && a.tx.Valid()
  {
    var at := InBase(a.otx, a.layout, a.tx, Outputs, i);
    Site(a.otx, a.layout, a.tx.(outputs := a.tx.outputs[at := TwinOutput(a.tx.outputs[at])]))
  }

  lemma TwinSiteOk(a: Site, i: nat)
    requires Splittable(a, i) && a.tx.Valid()
    ensures TwinSite(a, i).Ok() && TwinSite(a, i).tx.Valid()
  {
    var b := TwinSite(a, i);
    TwinOutputValid(a.Output(i));
    assert b.tx.EntityCounts() == a.tx.EntityCounts();
    forall j: nat | j < |b.otx.appendSegments|
      ensures SegmentPlaced(b.otx.appendSegments[j], b.layout.appendSegments[j], b.tx)
    {
      assert SegmentPlaced(a.otx.appendSegments[j], a.layout.appendSegments[j], a.tx);
    }
  }

  lemma TwinOutputAt(a: Site, i: nat, k: nat)
    requires Splittable(a, i) && a.tx.Valid() && TwinSite(a, i).Ok() && k < a.otx.baseOutputCells
    ensures var b := TwinSite(a, i);
            b.Output(k) == if k == i then TwinOutput(a.Output(i)) else a.Output(k)
  {}

  lemma ShiftedAt(a: Site, i: nat)
    requires Splittable(a, i) && a.tx.Valid() && TwinSite(a, i).Ok()
    ensures CarriesType(a.Scope().outputs[i]) && SelfDelimiting(a.Scope().outputs[i].typeScript.value.value)
    ensures a.Scope().outputs[i].data == Some([])
    ensures TwinSite(a, i).Scope().outputs[i] == Shifted(a.Scope().outputs[i])
  {
    assert a.Output(i).cell.Valid();
    TwinOutputAt(a, i, i);
  }

  lemma TwinScope(a: Site, i: nat)
    requires Splittable(a, i) && a.tx.Valid() && TwinSite(a, i).Ok()
    requires CarriesType(a.Scope().outputs[i]) && SelfDelimiting(a.Scope().outputs[i].typeScript.value.value)
    requires TwinSite(a, i).Scope().outputs[i] == Shifted(a.Scope().outputs[i])
    ensures TwinSite(a, i).Scope() == a.Scope().(outputs := a.Scope().outputs[i := Shifted(a.Scope().outputs[i])])
  {
    var s, t := a.Scope(), TwinSite(a, i).Scope();
    TwinSameRest(a, i);
    forall k: nat | k < |s.outputs| && k != i ensures t.outputs[k] == s.outputs[k] {
      TwinOutputAt(a, i, k);
    }
    assert t.outputs == s.outputs[i := t.outputs[i]];
    assert t == s.(outputs := t.outputs);
  }

  /** Everything but the outputs. */
  lemma TwinSameRest(a: Site, i: nat)
    requires Splittable(a, i) && a.tx.Valid() && TwinSite(a, i).Ok()
    ensures var s, t := a.Scope(), TwinSite(a, i).Scope();
            t.inputs == s.inputs && t.cellDeps == s.cellDeps && t.headerDeps == s.headerDeps
  {}

  lemma ShiftedFits(s: BaseScope, i: nat)
    requires i < |s.outputs| && CarriesType(s.outputs[i]) && SelfDelimiting(s.outputs[i].typeScript.value.value)
    requires s.outputs[i].data == Some([])
    ensures BaseFits(s.(outputs := s.outputs[i := Shifted(s.outputs[i])])) <==> BaseFits(s)
  {
    var t := s.(outputs := s.outputs[i := Shifted(s.outputs[i])]);
    PackOfNumberAt(s.outputs[i].typeScript.value.value, 0);
    assert Fits(|Or(t.outputs[i].data, [])|) && Fits(|Or(s.outputs[i].data, [])|);
    assert forall k: nat | k < |s.outputs| && k != i :: t.outputs[k] == s.outputs[k];
  }

  /**
   * Every placed OTX of a valid transaction with such an output has a twin: another valid transaction, the same
   * placed OTX, a different covered output, and the same base preimage.
   */
  lemma BasePreimageTwin(a: Site, i: nat)
    requires Splittable(a, i) && a.tx.Valid()
    ensures var b := TwinSite(a, i);
            b.Ok() && b.tx.Valid() && a.Preimage() == b.Preimage() && !SameBase(a, b)
  {
    var b := TwinSite(a, i);
    TwinSiteOk(a, i);
    ShiftedAt(a, i);
    TwinScope(a, i);
    ShiftedEncodesTheSame(a.Scope(), i);
    ShiftedFits(a.Scope(), i);
    BasePreimageIsScope(a.otx, a.layout, a.tx);
    BasePreimageIsScope(b.otx, b.layout, b.tx);
    TwinOutputAt(a, i, i);
    assert !SameOutput(a, b, i);
  }

  /**
   * The twin is one the code builds: its context has the same OTXs in the same places, and the OTX has the same
   * base hash in both, over different covered outputs.
   */
  lemma ContextTwin(tx: Tx, current: CurrentScript, cx: CobuildContext, i: nat, k: nat, h: Blake2b)
    returns (tx': Tx, cx': CobuildContext)
    requires Engine.Build(tx, current) == Ok(cx) && tx.Valid() && i < |cx.OtxEntries()|
    requires Splittable(Site(cx.OtxEntries()[i].view, cx.OtxEntries()[i].layout, tx), k)
    ensures tx'.Valid() && tx'.inputs == tx.inputs && tx'.witnesses == tx.witnesses
    ensures Engine.Build(tx', current) == Ok(cx') && cx'.OtxEntries() == cx.OtxEntries()
    ensures var e := cx.OtxEntries()[i];
            && Site(e.view, e.layout, tx').Ok()
            && OtxBaseHash(h, e.view, e.layout, tx') == OtxBaseHash(h, e.view, e.layout, tx)
            && !SameBase(Site(e.view, e.layout, tx), Site(e.view, e.layout, tx'))
  {
    var a := Site(cx.OtxEntries()[i].view, cx.OtxEntries()[i].layout, tx);
    BasePreimageTwin(a, k);
    tx' := TwinSite(a, k).tx;
    cx' := SameScanBuilds(tx, tx', current, cx);
  }

  /** The scan sees witnesses and entity counts only. */
  lemma SameScanBuilds(tx: Tx, tx': Tx, current: CurrentScript, cx: CobuildContext) returns (cx': CobuildContext)
    requires Engine.Build(tx, current) == Ok(cx)
    requires tx'.witnesses == tx.witnesses && tx'.EntityCounts() == tx.EntityCounts()
    ensures Engine.Build(tx', current) == Ok(cx') && cx'.OtxEntries() == cx.OtxEntries()
  {
    cx' := Engine.Build(tx', current).value;
  }

  // ---------- an input that turns into a trailing witness ----------

  /** The transaction without its last input, whose resolved cell now stands as a witness in its place. */
  function TxTwin(a: Tx): Tx
    requires a.inputs != [] && |a.witnesses| >= |a.inputs|
    requires |a.inputs[|a.inputs| - 1].resolvedOutput| >= 4
  {
    var n := |a.inputs| - 1;
    var moved := a.inputs[n].resolvedOutput[4..] + [0, 0, 0, 0];
    a.(inputs := a.inputs[..n], witnesses := a.witnesses[n := Cursor(moved, 0, |moved|)])
  }

  lemma TxTwinScope(m: Option<Cursor>, a: Tx)
    requires a.Valid() && a.inputs != [] && |a.witnesses| >= |a.inputs|
    requires m.Some? ==> m.value.InBounds()
    ensures TxTwin(a).Valid() && |a.inputs[|a.inputs| - 1].resolvedOutput| >= 4
    ensures TxScopeOf(m, TxTwin(a)) == CellAsWitness(TxScopeOf(m, a))
  {
    var b, n := TxTwin(a), |a.inputs| - 1;
    var s, t := TxScopeOf(m, a), TxScopeOf(m, b);
    assert SelfDelimiting(a.inputs[n].resolvedOutput);
    assert b.Valid();
    assert t.cells == s.cells[..n];
    var w := b.witnesses[n];
    assert w.Content() == w.source;
    assert t.extraWitnesses == [w.Content()] + s.extraWitnesses;
  }

  lemma EqualEncodings(m: Option<Cursor>, a: Tx, b: Tx)
    requires a.Valid() && b.Valid() && a.inputs != []
    requires a.inputs[|a.inputs| - 1].resolvedData == []
    requires |a.inputs[|a.inputs| - 1].resolvedOutput| >= 4
    requires m.Some? ==> m.value.InBounds() && SelfDelimiting(m.value.Content())
    requires TxPreimage(m, a).Ok?
    requires TxScopeOf(m, b) == CellAsWitness(TxScopeOf(m, a))
    ensures TxPreimage(m, b) == TxPreimage(m, a)
  {
    TxPreimageIsScope(m, a);
    TxPreimageIsScope(m, b);
    CellBoundaryAmbiguous(TxScopeOf(m, a));
  }

  /**
   * A transaction whose last input has no data signs like the one without that input, provided the two are given
   * the same transaction hash: nothing else in the tx-level preimage counts the inputs.
   */
  lemma TxPreimageTwin(m: Option<Cursor>, a: Tx)
    requires a.Valid() && a.inputs != [] && |a.witnesses| >= |a.inputs|
    requires a.inputs[|a.inputs| - 1].resolvedData == []
    requires m.Some? ==> m.value.InBounds() && SelfDelimiting(m.value.Content())
    requires TxPreimage(m, a).Ok?
    ensures |a.inputs[|a.inputs| - 1].resolvedOutput| >= 4
    ensures var b := TxTwin(a);
            b.Valid() && b.txHash == a.txHash && |b.inputs| < |a.inputs| && TxPreimage(m, b) == TxPreimage(m, a)
  {
    TxTwinScope(m, a);
    EqualEncodings(m, a, TxTwin(a));
  }
}
