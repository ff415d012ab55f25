/**
 * On an accepted layout the hash writers never fault: each preimage is the encoding of its scope, and
 * the only error left is a count or length that does not fit four bytes.
 */
module Faithful {
  import opened Base
  import opened LazyReader
  import opened View
  import opened Layout
  import opened Transaction
  import opened Preimage
  import opened Scope

  lemma Assoc(a: Bytes, b: Bytes, c: Bytes)
    ensures (a + b) + c == a + (b + c)
  {}

  /** The writer appended `b`, or nothing fits. */
  predicate Appended(r: Result<Bytes>, s: Bytes, b: Bytes, fits: bool) {
    r == if fits then Ok(s + b) else Err(HashInputTooLarge)
  }

  lemma PrefixedAppended(s: Bytes, b: Bytes)
    ensures Appended(WithLenPrefixed(s, b), s, Prefixed(b), Fits(|b|))
  {
    Assoc(s, PackNumber(|b|), b);
  }

  lemma {:induction false} WrittenAppended(s: Bytes, item: ItemWriter, parts: seq<Bytes>, fits: nat -> bool, n: nat)
    requires n <= |parts|
    requires forall t: Bytes, i: nat | i < n :: Appended(item(t, i), t, parts[i], fits(i))
    ensures Appended(Written(s, item, n), s, Flatten(parts[..n]), forall i: nat | i < n :: fits(i))
  {
    if n == 0 {
      assert s + [] == s;
    } else {
      WrittenAppended(s, item, parts, fits, n - 1);
      assert parts[..n][..n - 1] == parts[..n - 1];
      Assoc(s, Flatten(parts[..n - 1]), parts[n - 1]);
      assert Flatten(parts[..n]) == Flatten(parts[..n - 1]) + parts[n - 1];
      var before := Written(s, item, n - 1);
      if before.Ok? {
        assert Appended(item(before.value, n - 1), before.value, parts[n - 1], fits(n - 1));
      }
    }
  }

  /** A counted loop of items. */
  lemma CountedAppended(s: Bytes, item: ItemWriter, parts: seq<Bytes>, fits: nat -> bool)
    requires forall t: Bytes, i: nat | i < |parts| :: Appended(item(t, i), t, parts[i], fits(i))
    ensures Appended(Counted(s, |parts|, item), s, List(parts), Fits(|parts|) && forall i: nat | i < |parts| :: fits(i))
  {
    var head := s + PackNumber(|parts|);
    WrittenAppended(head, item, parts, fits, |parts|);
    assert parts[..|parts|] == parts;
    Assoc(s, PackNumber(|parts|), Flatten(parts));
  }

  lemma MaskedAppended(s: Bytes, mask: Bytes, item: ItemWriter, parts: seq<Bytes>, fits: nat -> bool)
    requires forall t: Bytes, i: nat | i < |parts| :: Appended(item(t, i), t, parts[i], fits(i))
    ensures Appended(MaskedItems(s, |parts|, mask, item), s, Masked(mask, parts),
                     Fits(|parts|) && Fits(|mask|) && forall i: nat | i < |parts| :: fits(i))
  {
    var count := PackNumber(|parts|);
    PrefixedAppended(s + count, mask);
    WrittenAppended(s + count + Prefixed(mask), item, parts, fits, |parts|);
    assert parts[..|parts|] == parts;
    Assoc(s, count, Prefixed(mask));
    Assoc(s, count + Prefixed(mask), Flatten(parts));
  }

  // ---------- items ----------

  lemma FiveFields(s: Bytes, a: Bytes, b: Bytes, c: Bytes, d: Bytes, e: Bytes)
    ensures s + a + b + c + d + e == s + (a + b + c + d + e)
  {
    Assoc(s, a, b);
    Assoc(s, a + b, c);
    Assoc(s, a + b + c, d);
    Assoc(s, a + b + c + d, e);
  }

  lemma BaseInputItemAppended(s: Bytes, otx: OtxView, layout: OtxLayout, tx: Tx, i: nat)
    requires Placed(otx, layout, tx) && i < otx.baseInputCells
    ensures Appended(BaseInputItem(s, otx, layout.baseInputs, tx, i), s,
                     EncodeBaseInput(BaseInputAt(otx, layout, tx, i), i),
                     Fits(i) && Fits(|BaseInputAt(otx, layout, tx, i).cell.data|))
  {
    var at := InBase(otx, layout, tx, Inputs, i);
    var x := BaseInputAt(otx, layout, tx, i);
    var before := s + PackNumber(i) + Or(x.since, Zeros(8)) + Or(x.previousOutput, Zeros(36)) + x.cell.output;
    PrefixedAppended(before, x.cell.data);
    FiveFields(s, PackNumber(i), Or(x.since, Zeros(8)), Or(x.previousOutput, Zeros(36)), x.cell.output,
               Prefixed(x.cell.data));
  }

  lemma BaseOutputItemAppended(s: Bytes, otx: OtxView, layout: OtxLayout, tx: Tx, i: nat)
    requires Placed(otx, layout, tx) && i < otx.baseOutputCells
    ensures Appended(BaseOutputItem(s, otx, layout.baseOutputs, tx, i), s,
                     EncodeBaseOutput(BaseOutputAt(otx, layout, tx, i), i),
                     Fits(i) && Fits(|Or(BaseOutputAt(otx, layout, tx, i).data, [])|))
  {
    var at := InBase(otx, layout, tx, Outputs, i);
    var x := BaseOutputAt(otx, layout, tx, i);
    var before := s + PackNumber(i) + Or(x.capacity, Zeros(8)) + Or(x.lock, DEFAULT_SCRIPT) + TypeBytes(x.typeScript);
    PrefixedAppended(before, Or(x.data, []));
    FiveFields(s, PackNumber(i), Or(x.capacity, Zeros(8)), Or(x.lock, DEFAULT_SCRIPT), TypeBytes(x.typeScript),
               Prefixed(Or(x.data, [])));
  }

  lemma BaseCellDepItemAppended(s: Bytes, otx: OtxView, layout: OtxLayout, tx: Tx, i: nat)
    requires Placed(otx, layout, tx) && i < otx.baseCellDeps
    ensures Appended(BaseCellDepItem(s, otx, layout.baseCellDeps, tx, i), s,
                     EncodeDep(BaseCellDepAt(otx, layout, tx, i), 37, i), Fits(i))
  {
    var at := InBase(otx, layout, tx, CellDeps, i);
    Assoc(s, PackNumber(i), Or(BaseCellDepAt(otx, layout, tx, i), Zeros(37)));
  }

  lemma BaseHeaderDepItemAppended(s: Bytes, otx: OtxView, layout: OtxLayout, tx: Tx, i: nat)
    requires Placed(otx, layout, tx) && i < otx.baseHeaderDeps
    ensures Appended(BaseHeaderDepItem(s, otx, layout.baseHeaderDeps, tx, i), s,
                     EncodeDep(BaseHeaderDepAt(otx, layout, tx, i), 32, i), Fits(i))
  {
    var at := InBase(otx, layout, tx, HeaderDeps, i);
    Assoc(s, PackNumber(i), Or(BaseHeaderDepAt(otx, layout, tx, i), Zeros(32)));
  }

  lemma SegmentInputItemAppended(s: Bytes, range: Range, tx: Tx, i: nat)
    requires i < range.count && range.End() <= |tx.inputs|
    ensures var x := SegmentInputAt(range, tx, i);
            Appended(SegmentInputItem(s, range, tx, i), s, EncodeSegmentInput(x, i), Fits(i) && Fits(|x.cell.data|))
  {
    var x := SegmentInputAt(range, tx, i);
    PrefixedAppended(s + PackNumber(i) + x.raw + x.cell.output, x.cell.data);
    Assoc(s, PackNumber(i), x.raw);
    Assoc(s, PackNumber(i) + x.raw, x.cell.output);
    Assoc(s, PackNumber(i) + x.raw + x.cell.output, Prefixed(x.cell.data));
  }

  lemma SegmentOutputItemAppended(s: Bytes, range: Range, tx: Tx, i: nat)
    requires i < range.count && range.End() <= |tx.outputs|
    ensures var x := SegmentOutputAt(range, tx, i);
            Appended(SegmentOutputItem(s, range, tx, i), s, EncodeSegmentOutput(x, i), Fits(i) && Fits(|x.data|))
  {
    var x := SegmentOutputAt(range, tx, i);
    PrefixedAppended(s + PackNumber(i) + x.raw, x.data);
    Assoc(s, PackNumber(i), x.raw);
    Assoc(s, PackNumber(i) + x.raw, Prefixed(x.data));
  }

  // ---------- the four blocks of a base part ----------

  lemma BaseInputsAppended(s: Bytes, otx: OtxView, layout: OtxLayout, tx: Tx)
    requires Placed(otx, layout, tx)
    ensures var scope := BaseScopeOf(otx, layout, tx);
            Appended(BaseInputs(s, otx, layout.baseInputs, tx), s,
                     Masked(scope.inputMask, BaseInputParts(scope.inputs)),
                     Fits(|scope.inputs|) && Fits(|scope.inputMask|)
                     && forall i: nat | i < |scope.inputs| :: Fits(|scope.inputs[i].cell.data|))
  {
    var xs := BaseScopeOf(otx, layout, tx).inputs;
    var item := BaseInputWriter(otx, layout.baseInputs, tx);
    var fits := (i: nat) => i < |xs| ==> Fits(i) && Fits(|xs[i].cell.data|);
    forall t: Bytes, i: nat | i < |xs| ensures Appended(item(t, i), t, BaseInputParts(xs)[i], fits(i)) {
      BaseInputItemAppended(t, otx, layout, tx, i);
    }
    MaskedAppended(s, otx.baseInputMasks.bytes, item, BaseInputParts(xs), fits);
    assert forall i: nat | i < |xs| :: fits(i) == (Fits(i) && Fits(|xs[i].cell.data|));
  }

  function OutputFits(xs: seq<BaseOutput>): nat -> bool {
    (i: nat) => i < |xs| ==> Fits(i) && Fits(|Or(xs[i].data, [])|)
  }

  lemma BaseOutputWriterAppends(otx: OtxView, layout: OtxLayout, tx: Tx)
    requires Placed(otx, layout, tx)
    ensures var xs := BaseScopeOf(otx, layout, tx).outputs;
            forall t: Bytes, i: nat | i < |xs| ::
              Appended(BaseOutputWriter(otx, layout.baseOutputs, tx)(t, i), t, BaseOutputParts(xs)[i],
                       OutputFits(xs)(i))
  {
    var xs := BaseScopeOf(otx, layout, tx).outputs;
    var item := BaseOutputWriter(otx, layout.baseOutputs, tx);
    forall t: Bytes, i: nat | i < |xs| ensures Appended(item(t, i), t, BaseOutputParts(xs)[i], OutputFits(xs)(i)) {
      BaseOutputItemAppended(t, otx, layout, tx, i);
    }
  }

  lemma BaseOutputsAppended(s: Bytes, otx: OtxView, layout: OtxLayout, tx: Tx)
    requires Placed(otx, layout, tx)
    ensures var scope := BaseScopeOf(otx, layout, tx);
            Appended(BaseOutputs(s, otx, layout.baseOutputs, tx), s,
                     Masked(scope.outputMask, BaseOutputParts(scope.outputs)),
                     Fits(|scope.outputs|) && Fits(|scope.outputMask|)
                     && forall i: nat | i < |scope.outputs| :: Fits(|Or(scope.outputs[i].data, [])|))
  {
    var xs := BaseScopeOf(otx, layout, tx).outputs;
    BaseOutputWriterAppends(otx, layout, tx);
    MaskedAppended(s, otx.baseOutputMasks.bytes, BaseOutputWriter(otx, layout.baseOutputs, tx), BaseOutputParts(xs),
                   OutputFits(xs));
    assert forall i: nat | i < |xs| :: OutputFits(xs)(i) == (Fits(i) && Fits(|Or(xs[i].data, [])|));
  }

  lemma BaseCellDepsAppended(s: Bytes, otx: OtxView, layout: OtxLayout, tx: Tx)
    requires Placed(otx, layout, tx)
    ensures var scope := BaseScopeOf(otx, layout, tx);
            Appended(BaseCellDeps(s, otx, layout.baseCellDeps, tx), s,
                     Masked(scope.cellDepMask, DepParts(scope.cellDeps, 37)),
                     Fits(|scope.cellDeps|) && Fits(|scope.cellDepMask|))
  {
    var xs := BaseScopeOf(otx, layout, tx).cellDeps;
    var item := BaseCellDepWriter(otx, layout.baseCellDeps, tx);
    forall t: Bytes, i: nat | i < |xs| ensures Appended(item(t, i), t, DepParts(xs, 37)[i], Fits(i)) {
      BaseCellDepItemAppended(t, otx, layout, tx, i);
    }
    MaskedAppended(s, otx.baseCellDepMasks.bytes, item, DepParts(xs, 37), Fits);
  }

  lemma BaseHeaderDepsAppended(s: Bytes, otx: OtxView, layout: OtxLayout, tx: Tx)
    requires Placed(otx, layout, tx)
    ensures var scope := BaseScopeOf(otx, layout, tx);
            Appended(BaseHeaderDeps(s, otx, layout.baseHeaderDeps, tx), s,
                     Masked(scope.headerDepMask, DepParts(scope.headerDeps, 32)),
                     Fits(|scope.headerDeps|) && Fits(|scope.headerDepMask|))
  {
    var xs := BaseScopeOf(otx, layout, tx).headerDeps;
    var item := BaseHeaderDepWriter(otx, layout.baseHeaderDeps, tx);
    forall t: Bytes, i: nat | i < |xs| ensures Appended(item(t, i), t, DepParts(xs, 32)[i], Fits(i)) {
      BaseHeaderDepItemAppended(t, otx, layout, tx, i);
    }
    MaskedAppended(s, otx.baseHeaderDepMasks.bytes, item, DepParts(xs, 32), Fits);
  }

  lemma BaseCellsAppended(s: Bytes, otx: OtxView, layout: OtxLayout, tx: Tx)
    requires Placed(otx, layout, tx)
    ensures var scope := BaseScopeOf(otx, layout, tx);
            Appended(BaseCells(s, otx, layout, tx), s, EncodeCells(scope), CellsFit(scope))
  {
    var scope := BaseScopeOf(otx, layout, tx);
    var inputs, outputs := Masked(scope.inputMask, BaseInputParts(scope.inputs)),
                           Masked(scope.outputMask, BaseOutputParts(scope.outputs));
    BaseInputsAppended(s, otx, layout, tx);
    BaseOutputsAppended(s + inputs, otx, layout, tx);
    Assoc(s, inputs, outputs);
  }

  lemma BaseDepsAppended(s: Bytes, otx: OtxView, layout: OtxLayout, tx: Tx)
    requires Placed(otx, layout, tx)
    ensures var scope := BaseScopeOf(otx, layout, tx);
            Appended(BaseDeps(s, otx, layout, tx), s, EncodeDeps(scope), DepsFit(scope))
  {
    var scope := BaseScopeOf(otx, layout, tx);
    var cellDeps, headerDeps := Masked(scope.cellDepMask, DepParts(scope.cellDeps, 37)),
                                Masked(scope.headerDepMask, DepParts(scope.headerDeps, 32));
    BaseCellDepsAppended(s, otx, layout, tx);
    BaseHeaderDepsAppended(s + cellDeps, otx, layout, tx);
    Assoc(s, cellDeps, headerDeps);
  }

  /** The base preimage of a placed OTX is the encoding of its scope; nothing else can go wrong. */
  lemma BasePreimageIsScope(otx: OtxView, layout: OtxLayout, tx: Tx)
    requires Placed(otx, layout, tx)
    ensures var scope := BaseScopeOf(otx, layout, tx);
            OtxBasePreimage(otx, layout, tx)
            == if BaseFits(scope) then Ok(EncodeBase(scope)) else Err(HashInputTooLarge)
  {
    var scope := BaseScopeOf(otx, layout, tx);
    var head := scope.message + [scope.permissions];
    BaseCellsAppended(head, otx, layout, tx);
    BaseDepsAppended(head + EncodeCells(scope), otx, layout, tx);
    BasePreimageSteps(otx, layout, tx, head);
  }

  lemma BasePreimageSteps(otx: OtxView, layout: OtxLayout, tx: Tx, head: Bytes)
    requires otx.message.InBounds() && head == otx.message.Content() + [otx.appendPermissions]
    ensures OtxBasePreimage(otx, layout, tx)
         == match BaseCells(head, otx, layout, tx)
            case Ok(c) => BaseDeps(c, otx, layout, tx)
            case Err(e) => Err(e)
  {
    assert [] + otx.message.Content() == otx.message.Content();
  }

  // ---------- append segments ----------

  lemma SegmentCellsAppended(s: Bytes, v: OtxAppendSegmentView, l: OtxAppendSegmentLayout, tx: Tx)
    requires SegmentPlaced(v, l, tx)
    ensures var x := SegmentScopeOf(v, l, tx);
            Appended(SegmentCells(s, v, l, tx), s, EncodeSegmentCells(x), SegmentCellsFit(x))
  {
    assert l.Of(Inputs).End() <= |tx.inputs| && l.Of(Outputs).End() <= |tx.outputs|;
    assert l.Of(Inputs).count == v.Count(Inputs) && l.Of(Outputs).count == v.Count(Outputs);
    var x := SegmentScopeOf(v, l, tx);
    var a, b := List(SegmentInputParts(x.inputs)), List(SegmentOutputParts(x.outputs));
    SegmentInputsAppended(s, l.inputs, tx);
    SegmentOutputsAppended(s + a, l.outputs, tx);
    Assoc(s, a, b);
  }

  lemma SegmentDepsAppended(s: Bytes, v: OtxAppendSegmentView, l: OtxAppendSegmentLayout, tx: Tx)
    requires SegmentPlaced(v, l, tx)
    ensures var x := SegmentScopeOf(v, l, tx);
            Appended(SegmentDeps(s, v, l, tx), s, EncodeSegmentDeps(x), SegmentDepsFit(x))
  {
    assert l.Of(CellDeps).End() <= |tx.cellDeps| && l.Of(HeaderDeps).End() <= |tx.headerDeps|;
    assert l.Of(CellDeps).count == v.Count(CellDeps) && l.Of(HeaderDeps).count == v.Count(HeaderDeps);
    var x := SegmentScopeOf(v, l, tx);
    var c, d := List(IndexedParts(x.cellDeps)), List(IndexedParts(x.headerDeps));
    SegmentCellDepsAppended(s, l.cellDeps, tx);
    SegmentHeaderDepsAppended(s + c, l.headerDeps, tx);
    Assoc(s, c, d);
  }

  lemma SegmentEntitiesAppended(s: Bytes, otx: OtxView, layout: OtxLayout, tx: Tx, j: nat)
    requires Placed(otx, layout, tx) && j < |otx.appendSegments|
    ensures var scope := SegmentAt(otx, layout, tx, j);
            Appended(SegmentItem(s, otx, layout, tx, j), s, EncodeSegment(scope), SegmentFits(scope))
  {
    var v, l := otx.appendSegments[j], layout.appendSegments[j];
    assert SegmentPlaced(v, l, tx);
    var x := SegmentAt(otx, layout, tx, j);
    var head := s + [x.flags];
    SegmentCellsAppended(head, v, l, tx);
    SegmentDepsAppended(head + EncodeSegmentCells(x), v, l, tx);
    Assoc(s, [x.flags], EncodeSegmentCells(x));
    Assoc(s, [x.flags] + EncodeSegmentCells(x), EncodeSegmentDeps(x));
  }

  lemma SegmentInputsAppended(s: Bytes, range: Range, tx: Tx)
    requires range.End() <= |tx.inputs|
    ensures var xs := SegmentInputsOf(range, tx);
            Appended(Counted(s, range.count, SegmentInputWriter(range, tx)), s, List(SegmentInputParts(xs)),
                     Fits(|xs|) && forall i: nat | i < |xs| :: Fits(|xs[i].cell.data|))
  {
    var xs := SegmentInputsOf(range, tx);
    var item := SegmentInputWriter(range, tx);
    var fits := (i: nat) => i < |xs| ==> Fits(i) && Fits(|xs[i].cell.data|);
    forall t: Bytes, i: nat | i < |xs| ensures Appended(item(t, i), t, SegmentInputParts(xs)[i], fits(i)) {
      SegmentInputItemAppended(t, range, tx, i);
    }
    CountedAppended(s, item, SegmentInputParts(xs), fits);
    assert forall i: nat | i < |xs| :: fits(i) == (Fits(i) && Fits(|xs[i].cell.data|));
  }

  lemma SegmentOutputsAppended(s: Bytes, range: Range, tx: Tx)
    requires range.End() <= |tx.outputs|
    ensures var xs := SegmentOutputsOf(range, tx);
            Appended(Counted(s, range.count, SegmentOutputWriter(range, tx)), s, List(SegmentOutputParts(xs)),
                     Fits(|xs|) && forall i: nat | i < |xs| :: Fits(|xs[i].data|))
  {
    var xs := SegmentOutputsOf(range, tx);
    var item := SegmentOutputWriter(range, tx);
    var fits := (i: nat) => i < |xs| ==> Fits(i) && Fits(|xs[i].data|);
    forall t: Bytes, i: nat | i < |xs| ensures Appended(item(t, i), t, SegmentOutputParts(xs)[i], fits(i)) {
      SegmentOutputItemAppended(t, range, tx, i);
    }
    CountedAppended(s, item, SegmentOutputParts(xs), fits);
    assert forall i: nat | i < |xs| :: fits(i) == (Fits(i) && Fits(|xs[i].data|));
  }

  lemma SegmentCellDepsAppended(s: Bytes, range: Range, tx: Tx)
    requires range.End() <= |tx.cellDeps|
    ensures Appended(Counted(s, range.count, SegmentCellDepWriter(range, tx)), s,
                     List(IndexedParts(InRange(range, tx.cellDeps))), Fits(range.count))
  {
    var xs := InRange(range, tx.cellDeps);
    var item := SegmentCellDepWriter(range, tx);
    forall t: Bytes, i: nat | i < |xs| ensures Appended(item(t, i), t, IndexedParts(xs)[i], Fits(i)) {
      Assoc(t, PackNumber(i), xs[i]);
    }
    CountedAppended(s, item, IndexedParts(xs), Fits);
  }

  lemma SegmentHeaderDepsAppended(s: Bytes, range: Range, tx: Tx)
    requires range.End() <= |tx.headerDeps|
    ensures Appended(Counted(s, range.count, SegmentHeaderDepWriter(range, tx)), s,
                     List(IndexedParts(InRange(range, tx.headerDeps))), Fits(range.count))
  {
    var xs := InRange(range, tx.headerDeps);
    var item := SegmentHeaderDepWriter(range, tx);
    forall t: Bytes, i: nat | i < |xs| ensures Appended(item(t, i), t, IndexedParts(xs)[i], Fits(i)) {
      Assoc(t, PackNumber(i), xs[i]);
    }
    CountedAppended(s, item, IndexedParts(xs), Fits);
  }

  lemma PreviousSegmentsAppended(s: Bytes, otx: OtxView, layout: OtxLayout, tx: Tx, j: nat)
    requires Placed(otx, layout, tx) && j <= |otx.appendSegments|
    ensures var xs := SegmentsBefore(otx, layout, tx, j);
            Appended(Counted(s, j, SegmentWriter(otx, layout, tx)), s, List(SegmentParts(xs)),
                     Fits(j) && forall i: nat | i < j :: SegmentFits(xs[i]))
  {
    var xs := SegmentsBefore(otx, layout, tx, j);
    var item := SegmentWriter(otx, layout, tx);
    var fits := (i: nat) => i < |xs| ==> SegmentFits(xs[i]);
    forall t: Bytes, i: nat | i < |xs| ensures Appended(item(t, i), t, SegmentParts(xs)[i], fits(i)) {
      SegmentEntitiesAppended(t, otx, layout, tx, i);
    }
    CountedAppended(s, item, SegmentParts(xs), fits);
    assert forall i: nat | i < |xs| :: fits(i) == SegmentFits(xs[i]);
  }

  /** The preimage of an append segment of a placed OTX is the encoding of its scope. */
  lemma AppendPreimageIsScope(otx: OtxView, layout: OtxLayout, tx: Tx, j: nat, baseHash: Hash32)
    requires Placed(otx, layout, tx) && j < |otx.appendSegments|
    ensures var scope := AppendScopeOf(otx, layout, tx, j, baseHash);
            AppendSegmentPreimage(otx, layout, j, tx, baseHash)
              == if AppendFits(scope) then Ok(EncodeAppend(scope)) else Err(HashInputTooLarge)
  {
    assert SegmentPlaced(otx.appendSegments[j], layout.appendSegments[j], tx);
    if CoversPrevious(otx.appendSegments[j].segmentFlags) {
      var xs := SegmentsBefore(otx, layout, tx, j);
      PreviousSegmentsAppended(baseHash, otx, layout, tx, j);
      SegmentEntitiesAppended(baseHash + List(SegmentParts(xs)), otx, layout, tx, j);
    } else {
      assert baseHash + [] == baseHash;
      SegmentEntitiesAppended(baseHash, otx, layout, tx, j);
    }
  }

  // ---------- the whole transaction ----------

  lemma TxCellsAppended(s: Bytes, tx: Tx)
    ensures var xs := CellsOf(tx);
            Appended(Written(s, TxInputWriter(tx), |tx.inputs|), s, Flatten(CellParts(xs)),
                     forall i: nat | i < |xs| :: Fits(|xs[i].data|))
  {
    var xs := CellsOf(tx);
    var item := TxInputWriter(tx);
    var fits := (i: nat) => i < |xs| ==> Fits(|xs[i].data|);
    forall t: Bytes, i: nat | i < |xs| ensures Appended(item(t, i), t, CellParts(xs)[i], fits(i)) {
      PrefixedAppended(t + xs[i].output, xs[i].data);
      Assoc(t, xs[i].output, Prefixed(xs[i].data));
    }
    WrittenAppended(s, item, CellParts(xs), fits, |xs|);
    assert CellParts(xs)[..|xs|] == CellParts(xs);
    assert forall i: nat | i < |xs| :: fits(i) == Fits(|xs[i].data|);
  }

  lemma TxWitnessItemAppended(s: Bytes, tx: Tx, i: nat)
    requires i < ExtraWitnesses(tx) && tx.witnesses[|tx.inputs| + i].InBounds()
    ensures var w := tx.witnesses[|tx.inputs| + i].Content();
            Appended(TxWitnessItem(s, tx, i), s, Prefixed(w), Fits(|w|))
  {
    var w := tx.witnesses[|tx.inputs| + i].Content();
    Assoc(s, PackNumber(|w|), w);
  }

  lemma TxWitnessesAppended(s: Bytes, tx: Tx)
    requires forall i: nat | i < |tx.witnesses| :: tx.witnesses[i].InBounds()
    ensures var xs := ExtraWitnessesOf(tx);
            Appended(Written(s, TxWitnessWriter(tx), ExtraWitnesses(tx)), s, Flatten(PrefixedParts(xs)),
                     forall i: nat | i < |xs| :: Fits(|xs[i]|))
  {
    var xs := ExtraWitnessesOf(tx);
    var item := TxWitnessWriter(tx);
    var fits := (i: nat) => i < |xs| ==> Fits(|xs[i]|);
    forall t: Bytes, i: nat | i < |xs| ensures Appended(item(t, i), t, PrefixedParts(xs)[i], fits(i)) {
      TxWitnessItemAppended(t, tx, i);
    }
    WrittenAppended(s, item, PrefixedParts(xs), fits, |xs|);
    assert PrefixedParts(xs)[..|xs|] == PrefixedParts(xs);
    assert forall i: nat | i < |xs| :: fits(i) == Fits(|xs[i]|);
  }

  /** The tx-level preimage is the encoding of its scope. */
  lemma TxPreimageIsScope(message: Option<Cursor>, tx: Tx)
    requires message.Some? ==> message.value.InBounds()
    requires forall i: nat | i < |tx.witnesses| :: tx.witnesses[i].InBounds()
    ensures var scope := TxScopeOf(message, tx);
            TxPreimage(message, tx) == if TxFits(scope) then Ok(EncodeTx(scope)) else Err(HashInputTooLarge)
  {
    var scope := TxScopeOf(message, tx);
    assert message.Some? ==> [] + scope.message.value == scope.message.value;
    var head := Or(scope.message, []) + tx.txHash;
    TxCellsAppended(head, tx);
    TxWitnessesAppended(head + Flatten(CellParts(scope.cells)), tx);
  }
}
