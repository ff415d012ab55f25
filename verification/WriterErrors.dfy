/** The errors a hash writer can report, on any input at all: coverage is never among them. */
module WriterErrors {
  import opened Base
  import opened LazyReader
  import opened View
  import opened Layout
  import opened Transaction
  import opened Preimage

  predicate OtherError<T>(r: Result<T>) { r.Err? ==> r.error != MissingLockGroupCoverage }

  ghost predicate OtherErrors(item: ItemWriter) { forall t: Bytes, i: nat :: OtherError(item(t, i)) }

  lemma {:induction false} WrittenErrors(s: Bytes, item: ItemWriter, n: nat)
    requires OtherErrors(item)
    ensures OtherError(Written(s, item, n))
  {
    if n == 0 {
    } else {
      WrittenErrors(s, item, n - 1);
    }
  }

  lemma CountedErrors(s: Bytes, n: nat, item: ItemWriter)
    requires OtherErrors(item)
    ensures OtherError(Counted(s, n, item))
  {
    if WithCount(s, n).Ok? {
      WrittenErrors(WithCount(s, n).value, item, n);
    }
  }

  lemma MaskedErrors(s: Bytes, n: nat, mask: Bytes, item: ItemWriter)
    requires OtherErrors(item)
    ensures OtherError(MaskedItems(s, n, mask, item))
  {
    var count := WithCount(s, n);
    if count.Ok? && WithLenPrefixed(count.value, mask).Ok? {
      WrittenErrors(WithLenPrefixed(count.value, mask).value, item, n);
    }
  }

  // ---------- base parts ----------

  lemma BaseInputsErrors(s: Bytes, otx: OtxView, range: Range, tx: Tx)
    ensures OtherError(BaseInputs(s, otx, range, tx))
  {
    assert OtherErrors(BaseInputWriter(otx, range, tx));
    MaskedErrors(s, otx.baseInputCells, otx.baseInputMasks.bytes, BaseInputWriter(otx, range, tx));
  }

  lemma BaseOutputsErrors(s: Bytes, otx: OtxView, range: Range, tx: Tx)
    ensures OtherError(BaseOutputs(s, otx, range, tx))
  {
    assert OtherErrors(BaseOutputWriter(otx, range, tx));
    MaskedErrors(s, otx.baseOutputCells, otx.baseOutputMasks.bytes, BaseOutputWriter(otx, range, tx));
  }

  lemma BaseCellDepsErrors(s: Bytes, otx: OtxView, range: Range, tx: Tx)
    ensures OtherError(BaseCellDeps(s, otx, range, tx))
  {
    assert OtherErrors(BaseCellDepWriter(otx, range, tx));
    MaskedErrors(s, otx.baseCellDeps, otx.baseCellDepMasks.bytes, BaseCellDepWriter(otx, range, tx));
  }

  lemma BaseHeaderDepsErrors(s: Bytes, otx: OtxView, range: Range, tx: Tx)
    ensures OtherError(BaseHeaderDeps(s, otx, range, tx))
  {
    assert OtherErrors(BaseHeaderDepWriter(otx, range, tx));
    MaskedErrors(s, otx.baseHeaderDeps, otx.baseHeaderDepMasks.bytes, BaseHeaderDepWriter(otx, range, tx));
  }

  lemma BaseCellsErrors(s: Bytes, otx: OtxView, layout: OtxLayout, tx: Tx)
    ensures OtherError(BaseCells(s, otx, layout, tx))
  {
    BaseInputsErrors(s, otx, layout.baseInputs, tx);
    var inputs := BaseInputs(s, otx, layout.baseInputs, tx);
    if inputs.Ok? {
      BaseOutputsErrors(inputs.value, otx, layout.baseOutputs, tx);
    }
  }

  lemma BaseDepsErrors(s: Bytes, otx: OtxView, layout: OtxLayout, tx: Tx)
    ensures OtherError(BaseDeps(s, otx, layout, tx))
  {
    BaseCellDepsErrors(s, otx, layout.baseCellDeps, tx);
    var cellDeps := BaseCellDeps(s, otx, layout.baseCellDeps, tx);
    if cellDeps.Ok? {
      BaseHeaderDepsErrors(cellDeps.value, otx, layout.baseHeaderDeps, tx);
    }
  }

  lemma BaseHashErrors(h: Blake2b, otx: OtxView, layout: OtxLayout, tx: Tx)
    ensures OtherError(OtxBaseHash(h, otx, layout, tx))
  {
    var message := WithCursor([], otx.message, MalformedCobuild);
    if message.Ok? {
      BasePartsErrors(message.value + [otx.appendPermissions], otx, layout, tx);
    }
  }

  lemma BasePartsErrors(head: Bytes, otx: OtxView, layout: OtxLayout, tx: Tx)
    ensures OtherError(BaseCells(head, otx, layout, tx))
    ensures BaseCells(head, otx, layout, tx).Ok? ==>
              OtherError(BaseDeps(BaseCells(head, otx, layout, tx).value, otx, layout, tx))
  {
    BaseCellsErrors(head, otx, layout, tx);
    if BaseCells(head, otx, layout, tx).Ok? {
      BaseDepsErrors(BaseCells(head, otx, layout, tx).value, otx, layout, tx);
    }
  }

  // ---------- append segments ----------

  lemma SegmentCellsErrors(s: Bytes, segment: OtxAppendSegmentView, ranges: OtxAppendSegmentLayout, tx: Tx)
    ensures OtherError(SegmentCells(s, segment, ranges, tx))
  {
    var item := SegmentInputWriter(ranges.inputs, tx);
    assert OtherErrors(item) && OtherErrors(SegmentOutputWriter(ranges.outputs, tx));
    CountedErrors(s, segment.inputCells, item);
    var inputs := Counted(s, segment.inputCells, item);
    if inputs.Ok? {
      CountedErrors(inputs.value, segment.outputCells, SegmentOutputWriter(ranges.outputs, tx));
    }
  }

  lemma SegmentDepsErrors(s: Bytes, segment: OtxAppendSegmentView, ranges: OtxAppendSegmentLayout, tx: Tx)
    ensures OtherError(SegmentDeps(s, segment, ranges, tx))
  {
    var item := SegmentCellDepWriter(ranges.cellDeps, tx);
    assert OtherErrors(item) && OtherErrors(SegmentHeaderDepWriter(ranges.headerDeps, tx));
    CountedErrors(s, segment.cellDeps, item);
    var cellDeps := Counted(s, segment.cellDeps, item);
    if cellDeps.Ok? {
      CountedErrors(cellDeps.value, segment.headerDeps, SegmentHeaderDepWriter(ranges.headerDeps, tx));
    }
  }

  lemma SegmentItemErrors(s: Bytes, otx: OtxView, layout: OtxLayout, tx: Tx, j: nat)
    ensures OtherError(SegmentItem(s, otx, layout, tx, j))
  {
    if j < |otx.appendSegments| && j < |layout.appendSegments| {
      var segment, ranges := otx.appendSegments[j], layout.appendSegments[j];
      var head := s + [ranges.flags];
      SegmentCellsErrors(head, segment, ranges, tx);
      var cells := SegmentCells(head, segment, ranges, tx);
      if cells.Ok? {
        SegmentDepsErrors(cells.value, segment, ranges, tx);
      }
    }
  }

  lemma SegmentHashErrors(h: Blake2b, otx: OtxView, layout: OtxLayout, j: nat, tx: Tx, baseHash: Hash32)
    ensures OtherError(AppendSegmentHash(h, otx, layout, j, tx, baseHash))
  {
    if j < |otx.appendSegments| && j < |layout.appendSegments| {
      var item := SegmentWriter(otx, layout, tx);
      forall t: Bytes, i: nat ensures OtherError(item(t, i)) {
        SegmentItemErrors(t, otx, layout, tx, i);
      }
      CountedErrors(baseHash, j, item);
      var previous :=
        if CoversPrevious(layout.appendSegments[j].flags) then Counted(baseHash, j, item) else Ok(baseHash);
      if previous.Ok? {
        SegmentItemErrors(previous.value, otx, layout, tx, j);
      }
    }
  }

  // ---------- the whole transaction ----------

  lemma TxHashErrors(h: Blake2b, message: Option<Cursor>, tx: Tx)
    ensures OtherError(TxSigningHash(h, message, tx))
  {
    assert OtherErrors(TxInputWriter(tx)) && OtherErrors(TxWitnessWriter(tx));
    var m := if message.Some? then WithCursor([], message.value, MalformedCobuild) else Ok([]);
    if m.Ok? {
      WrittenErrors(m.value + tx.txHash, TxInputWriter(tx), |tx.inputs|);
      var inputs := Written(m.value + tx.txHash, TxInputWriter(tx), |tx.inputs|);
      if inputs.Ok? {
        WrittenErrors(inputs.value, TxWitnessWriter(tx), ExtraWitnesses(tx));
      }
    }
  }
}
