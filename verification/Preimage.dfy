/** The signing preimages, writer by writer, with the errors the writers can report. */
module Preimage {
  import opened Base
  import opened LazyReader
  import opened View
  import opened Layout
  import opened Transaction

  const TX_WITHOUT_MESSAGE_PERSONAL := "ckbcb_tnm_core1\0"
  const TX_WITH_MESSAGE_PERSONAL := "ckbcb_twm_core1\0"
  const OTX_BASE_PERSONAL := "ckbcb_otb_core1\0"
  const OTX_APPEND_SEGMENT_PERSONAL := "ckbcb_ots_core1\0"

  /** Blake2b with a personalisation: any function of the two. */
  type Blake2b = (string, Bytes) -> Hash32

  function Zeros(n: nat): (b: Bytes)
    ensures |b| == n
  {
    seq(n, _ => 0)
  }

  /** The Molecule encoding of the default script. */
  const DEFAULT_SCRIPT: Bytes := [53, 0, 0, 0, 16, 0, 0, 0, 48, 0, 0, 0, 49, 0, 0, 0] + Zeros(37)

  // Every writer is a function from the bytes hashed so far to the bytes hashed after it.

  function WithCount(s: Bytes, n: nat): Result<Bytes> {
    var prefix :- CheckedLenPrefix(n);
    Ok(s + prefix)
  }

  function WithLenPrefixed(s: Bytes, b: Bytes): Result<Bytes> {
    var t :- WithCount(s, |b|);
    Ok(t + b)
  }

  function WithCursor(s: Bytes, c: Cursor, error: CoreError): Result<Bytes> {
    var content :- c.ReadAll(error);
    Ok(s + content)
  }

  function CheckedIndex(range: Range, localIndex: nat): Result<nat> {
    if localIndex >= range.count then Err(InvalidOtxLayout) else Ok(range.start + localIndex)
  }

  type ItemWriter = (Bytes, nat) -> Result<Bytes>

  /** A writer's loop: item after item, or the first error. */
  function Written(s: Bytes, item: ItemWriter, n: nat): Result<Bytes> {
    if n == 0 then Ok(s)
    else
      var t :- Written(s, item, n - 1);
      item(t, n - 1)
  }

  lemma {:induction false} WrittenStops(s: Bytes, item: ItemWriter, i: nat, n: nat)
    requires i <= n && Written(s, item, i).Err?
    ensures Written(s, item, n) == Written(s, item, i)
    decreases n
  {
    if i == n {
    } else {
      WrittenStops(s, item, i, n - 1);
    }
  }

  /** A count, a mask, then the items. */
  function MaskedItems(s: Bytes, n: nat, mask: Bytes, item: ItemWriter): Result<Bytes> {
    var t :- WithCount(s, n);
    var u :- WithLenPrefixed(t, mask);
    Written(u, item, n)
  }

  // ---------- base parts ----------

  function BaseInputItem(s: Bytes, otx: OtxView, range: Range, tx: Tx, i: nat): Result<Bytes> {
    var at :- CheckedIndex(range, i);
    var input :- tx.Input(at);
    var t :- WithCount(s, i);
    var withSince :- otx.IncludesSince(i);
    var withPrevious :- otx.IncludesPreviousOutput(i);
    WithLenPrefixed(
      t + (if withSince then input.cell.since else Zeros(8))
        + (if withPrevious then input.cell.previousOutput else Zeros(36))
        + input.resolvedOutput,
      input.resolvedData)
  }

  function BaseInputWriter(otx: OtxView, range: Range, tx: Tx): ItemWriter {
    (s: Bytes, i: nat) => BaseInputItem(s, otx, range, tx, i)
  }

  function BaseInputs(s: Bytes, otx: OtxView, range: Range, tx: Tx): Result<Bytes> {
    MaskedItems(s, otx.baseInputCells, otx.baseInputMasks.bytes, BaseInputWriter(otx, range, tx))
  }

  function BaseOutputItem(s: Bytes, otx: OtxView, range: Range, tx: Tx, i: nat): Result<Bytes> {
    var at :- CheckedIndex(range, i);
    var output :- tx.Output(at);
    var t :- WithCount(s, i);
    var withCapacity :- otx.IncludesCapacity(i);
    var withLock :- otx.IncludesLock(i);
    var withType :- otx.IncludesType(i);
    var withData :- otx.IncludesData(i);
    WithLenPrefixed(
      t + (if withCapacity then output.cell.capacity else Zeros(8))
        + (if withLock then output.cell.lock else DEFAULT_SCRIPT)
        + (if withType then output.cell.TypeBytes() else []),
      if withData then output.data else [])
  }

  function BaseOutputWriter(otx: OtxView, range: Range, tx: Tx): ItemWriter {
    (s: Bytes, i: nat) => BaseOutputItem(s, otx, range, tx, i)
  }

  function BaseOutputs(s: Bytes, otx: OtxView, range: Range, tx: Tx): Result<Bytes> {
    MaskedItems(s, otx.baseOutputCells, otx.baseOutputMasks.bytes, BaseOutputWriter(otx, range, tx))
  }

  function BaseCellDepItem(s: Bytes, otx: OtxView, range: Range, tx: Tx, i: nat): Result<Bytes> {
    var t :- WithCount(s, i);
    var included :- otx.baseCellDepMasks.Get(i);
    if !included then Ok(t + Zeros(37))
    else
      var at :- CheckedIndex(range, i);
      var dep :- tx.CellDep(at);
      Ok(t + dep)
  }

  function BaseCellDepWriter(otx: OtxView, range: Range, tx: Tx): ItemWriter {
    (s: Bytes, i: nat) => BaseCellDepItem(s, otx, range, tx, i)
  }

  function BaseCellDeps(s: Bytes, otx: OtxView, range: Range, tx: Tx): Result<Bytes> {
    MaskedItems(s, otx.baseCellDeps, otx.baseCellDepMasks.bytes, BaseCellDepWriter(otx, range, tx))
  }

  function BaseHeaderDepItem(s: Bytes, otx: OtxView, range: Range, tx: Tx, i: nat): Result<Bytes> {
    var t :- WithCount(s, i);
    var included :- otx.baseHeaderDepMasks.Get(i);
    if !included then Ok(t + Zeros(32))
    else
      var at :- CheckedIndex(range, i);
      var dep :- tx.HeaderDep(at);
      Ok(t + dep)
  }

  function BaseHeaderDepWriter(otx: OtxView, range: Range, tx: Tx): ItemWriter {
    (s: Bytes, i: nat) => BaseHeaderDepItem(s, otx, range, tx, i)
  }

  function BaseHeaderDeps(s: Bytes, otx: OtxView, range: Range, tx: Tx): Result<Bytes> {
    MaskedItems(s, otx.baseHeaderDeps, otx.baseHeaderDepMasks.bytes, BaseHeaderDepWriter(otx, range, tx))
  }

  function BaseCells(s: Bytes, otx: OtxView, layout: OtxLayout, tx: Tx): Result<Bytes> {
    var inputs :- BaseInputs(s, otx, layout.baseInputs, tx);
    BaseOutputs(inputs, otx, layout.baseOutputs, tx)
  }

  function BaseDeps(s: Bytes, otx: OtxView, layout: OtxLayout, tx: Tx): Result<Bytes> {
    var cellDeps :- BaseCellDeps(s, otx, layout.baseCellDeps, tx);
    BaseHeaderDeps(cellDeps, otx, layout.baseHeaderDeps, tx)
  }

  function OtxBasePreimage(otx: OtxView, layout: OtxLayout, tx: Tx): Result<Bytes> {
    var message :- WithCursor([], otx.message, MalformedCobuild);
    var cells :- BaseCells(message + [otx.appendPermissions], otx, layout, tx);
    BaseDeps(cells, otx, layout, tx)
  }

  function OtxBaseHash(h: Blake2b, otx: OtxView, layout: OtxLayout, tx: Tx): Result<Hash32> {
    var preimage :- OtxBasePreimage(otx, layout, tx);
    Ok(h(OTX_BASE_PERSONAL, preimage))
  }

  // ---------- append segments ----------

  function SegmentInputItem(s: Bytes, range: Range, tx: Tx, i: nat): Result<Bytes> {
    var at :- CheckedIndex(range, i);
    var input :- tx.Input(at);
    var t :- WithCount(s, i);
    WithLenPrefixed(t + input.cell.Raw() + input.resolvedOutput, input.resolvedData)
  }

  function SegmentInputWriter(range: Range, tx: Tx): ItemWriter {
    (s: Bytes, i: nat) => SegmentInputItem(s, range, tx, i)
  }

  function SegmentOutputItem(s: Bytes, range: Range, tx: Tx, i: nat): Result<Bytes> {
    var at :- CheckedIndex(range, i);
    var t :- WithCount(s, i);
    var output :- tx.Output(at);
    WithLenPrefixed(t + output.cell.raw, output.data)
  }

  function SegmentOutputWriter(range: Range, tx: Tx): ItemWriter {
    (s: Bytes, i: nat) => SegmentOutputItem(s, range, tx, i)
  }

  function SegmentCellDepItem(s: Bytes, range: Range, tx: Tx, i: nat): Result<Bytes> {
    var at :- CheckedIndex(range, i);
    var t :- WithCount(s, i);
    var dep :- tx.CellDep(at);
    Ok(t + dep)
  }

  function SegmentCellDepWriter(range: Range, tx: Tx): ItemWriter {
    (s: Bytes, i: nat) => SegmentCellDepItem(s, range, tx, i)
  }

  function SegmentHeaderDepItem(s: Bytes, range: Range, tx: Tx, i: nat): Result<Bytes> {
    var at :- CheckedIndex(range, i);
    var t :- WithCount(s, i);
    var dep :- tx.HeaderDep(at);
    Ok(t + dep)
  }

  function SegmentHeaderDepWriter(range: Range, tx: Tx): ItemWriter {
    (s: Bytes, i: nat) => SegmentHeaderDepItem(s, range, tx, i)
  }

  /** A count, then that many items. */
  function Counted(s: Bytes, count: nat, item: ItemWriter): Result<Bytes> {
    var t :- WithCount(s, count);
    Written(t, item, count)
  }

  function SegmentCells(s: Bytes, segment: OtxAppendSegmentView, ranges: OtxAppendSegmentLayout, tx: Tx): Result<Bytes>
  {
    var inputs :- Counted(s, segment.inputCells, SegmentInputWriter(ranges.inputs, tx));
    Counted(inputs, segment.outputCells, SegmentOutputWriter(ranges.outputs, tx))
  }

  function SegmentDeps(s: Bytes, segment: OtxAppendSegmentView, ranges: OtxAppendSegmentLayout, tx: Tx): Result<Bytes> {
    var cellDeps :- Counted(s, segment.cellDeps, SegmentCellDepWriter(ranges.cellDeps, tx));
    Counted(cellDeps, segment.headerDeps, SegmentHeaderDepWriter(ranges.headerDeps, tx))
  }

  function SegmentEntities(s: Bytes, otx: OtxView, layout: OtxLayout, j: nat, tx: Tx): Result<Bytes> {
    if j >= |otx.appendSegments| || j >= |layout.appendSegments| then Err(InvalidOtxLayout)
    else
      var cells :- SegmentCells(s, otx.appendSegments[j], layout.appendSegments[j], tx);
      SegmentDeps(cells, otx.appendSegments[j], layout.appendSegments[j], tx)
  }

  /** One segment as a signed item: its flags, then its entities. */
  function SegmentItem(s: Bytes, otx: OtxView, layout: OtxLayout, tx: Tx, j: nat): Result<Bytes> {
    if j >= |layout.appendSegments| then Err(InvalidOtxLayout)
    else SegmentEntities(s + [layout.appendSegments[j].flags], otx, layout, j, tx)
  }

  function SegmentWriter(otx: OtxView, layout: OtxLayout, tx: Tx): ItemWriter {
    (s: Bytes, j: nat) => SegmentItem(s, otx, layout, tx, j)
  }

  function AppendSegmentPreimage(otx: OtxView, layout: OtxLayout, j: nat, tx: Tx, baseHash: Hash32): Result<Bytes> {
    if j >= |layout.appendSegments| || j >= |otx.appendSegments| then Err(InvalidOtxLayout)
    else
      var previous :-
        if CoversPrevious(layout.appendSegments[j].flags) then Counted(baseHash, j, SegmentWriter(otx, layout, tx))
        else Ok(baseHash);
      SegmentItem(previous, otx, layout, tx, j)
  }

  function AppendSegmentHash(h: Blake2b, otx: OtxView, layout: OtxLayout, j: nat, tx: Tx,
                             baseHash: Hash32): Result<Hash32>
  {
    var preimage :- AppendSegmentPreimage(otx, layout, j, tx, baseHash);
    Ok(h(OTX_APPEND_SEGMENT_PERSONAL, preimage))
  }

  // ---------- the whole transaction ----------

  function TxInputItem(s: Bytes, tx: Tx, i: nat): Result<Bytes> {
    var input :- tx.Input(i);
    WithLenPrefixed(s + input.resolvedOutput, input.resolvedData)
  }

  function TxInputWriter(tx: Tx): ItemWriter {
    (s: Bytes, i: nat) => TxInputItem(s, tx, i)
  }

  /** The witnesses past the last input. */
  function TxWitnessItem(s: Bytes, tx: Tx, i: nat): Result<Bytes> {
    var w :- tx.Witness(|tx.inputs| + i);
    var t :- WithCount(s, w.size);
    WithCursor(t, w, MissingHashInput)
  }

  function TxWitnessWriter(tx: Tx): ItemWriter {
    (s: Bytes, i: nat) => TxWitnessItem(s, tx, i)
  }

  function ExtraWitnesses(tx: Tx): nat {
    if |tx.witnesses| > |tx.inputs| then |tx.witnesses| - |tx.inputs| else 0
  }

  function TxPreimage(message: Option<Cursor>, tx: Tx): Result<Bytes> {
    var m :- if message.Some? then WithCursor([], message.value, MalformedCobuild) else Ok([]);
    var inputs :- Written(m + tx.txHash, TxInputWriter(tx), |tx.inputs|);
    Written(inputs, TxWitnessWriter(tx), ExtraWitnesses(tx))
  }

  function TxSigningHash(h: Blake2b, message: Option<Cursor>, tx: Tx): Result<Hash32> {
    var preimage :- TxPreimage(message, tx);
    Ok(h(if message.Some? then TX_WITH_MESSAGE_PERSONAL else TX_WITHOUT_MESSAGE_PERSONAL, preimage))
  }
}
