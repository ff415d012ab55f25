/**
 * What a signature covers, as data.  A scope holds no index into the transaction: it is the content a
 * signing preimage binds, and on an accepted layout the preimage is exactly the encoding of its scope.
 */
module Scope {
  import opened Base
  import opened LazyReader
  import opened View
  import opened Layout
  import opened Transaction
  import opened Preimage

  datatype ResolvedCell = ResolvedCell(output: Bytes, data: Bytes)

  /** A field is present exactly when the mask covers it. */
  datatype BaseInput = BaseInput(since: Option<Bytes>, previousOutput: Option<Bytes>, cell: ResolvedCell)

  datatype BaseOutput = BaseOutput(
    capacity: Option<Bytes>, lock: Option<Bytes>, typeScript: Option<Option<Bytes>>, data: Option<Bytes>)

  datatype BaseScope = BaseScope(
    message: Bytes, permissions: Byte,
    inputMask: Bytes, inputs: seq<BaseInput>,
    outputMask: Bytes, outputs: seq<BaseOutput>,
    cellDepMask: Bytes, cellDeps: seq<Option<Bytes>>,
    headerDepMask: Bytes, headerDeps: seq<Option<Bytes>>)

  datatype SegmentInput = SegmentInput(raw: Bytes, cell: ResolvedCell)
  datatype SegmentOutput = SegmentOutput(raw: Bytes, data: Bytes)

  datatype SegmentScope = SegmentScope(
    flags: Byte, inputs: seq<SegmentInput>, outputs: seq<SegmentOutput>,
    cellDeps: seq<Bytes>, headerDeps: seq<Bytes>)

  datatype AppendScope = AppendScope(baseHash: Hash32, previous: Option<seq<SegmentScope>>, own: SegmentScope)

  datatype TxScope = TxScope(
    message: Option<Bytes>, txHash: Hash32, cells: seq<ResolvedCell>, extraWitnesses: seq<Bytes>)

  // ---------- encodings ----------

  function Prefixed(b: Bytes): Bytes { PackNumber(|b|) + b }

  function Or(field: Option<Bytes>, default: Bytes): Bytes {
    if field.Some? then field.value else default
  }

  function TypeBytes(t: Option<Option<Bytes>>): Bytes {
    if t.Some? && t.value.Some? then t.value.value else []
  }

  function EncodeBaseInput(x: BaseInput, i: nat): Bytes {
    PackNumber(i) + Or(x.since, Zeros(8)) + Or(x.previousOutput, Zeros(36)) + x.cell.output + Prefixed(x.cell.data)
  }

  function EncodeBaseOutput(x: BaseOutput, i: nat): Bytes {
    PackNumber(i) + Or(x.capacity, Zeros(8)) + Or(x.lock, DEFAULT_SCRIPT) + TypeBytes(x.typeScript)
        + Prefixed(Or(x.data, []))
  }

  function EncodeDep(x: Option<Bytes>, size: nat, i: nat): Bytes { PackNumber(i) + Or(x, Zeros(size)) }

  function BaseInputParts(xs: seq<BaseInput>): seq<Bytes> {
    seq(|xs|, i requires 0 <= i < |xs| => EncodeBaseInput(xs[i], i))
  }

  function BaseOutputParts(xs: seq<BaseOutput>): seq<Bytes> {
    seq(|xs|, i requires 0 <= i < |xs| => EncodeBaseOutput(xs[i], i))
  }

  function DepParts(xs: seq<Option<Bytes>>, size: nat): seq<Bytes> {
    seq(|xs|, i requires 0 <= i < |xs| => EncodeDep(xs[i], size, i))
  }

  /** A count, then the items. */
  function List(parts: seq<Bytes>): Bytes { PackNumber(|parts|) + Flatten(parts) }

  /** A count, a mask, then the items. */
  function Masked(mask: Bytes, parts: seq<Bytes>): Bytes {
    PackNumber(|parts|) + Prefixed(mask) + Flatten(parts)
  }

  function EncodeCells(s: BaseScope): Bytes {
    Masked(s.inputMask, BaseInputParts(s.inputs)) + Masked(s.outputMask, BaseOutputParts(s.outputs))
  }

  function EncodeDeps(s: BaseScope): Bytes {
    Masked(s.cellDepMask, DepParts(s.cellDeps, 37)) + Masked(s.headerDepMask, DepParts(s.headerDeps, 32))
  }

  function EncodeBase(s: BaseScope): Bytes {
    s.message + [s.permissions] + EncodeCells(s) + EncodeDeps(s)
  }

  function EncodeSegmentInput(x: SegmentInput, i: nat): Bytes {
    PackNumber(i) + x.raw + x.cell.output + Prefixed(x.cell.data)
  }

  function EncodeSegmentOutput(x: SegmentOutput, i: nat): Bytes { PackNumber(i) + x.raw + Prefixed(x.data) }

  function SegmentInputParts(xs: seq<SegmentInput>): seq<Bytes> {
    seq(|xs|, i requires 0 <= i < |xs| => EncodeSegmentInput(xs[i], i))
  }

  function SegmentOutputParts(xs: seq<SegmentOutput>): seq<Bytes> {
    seq(|xs|, i requires 0 <= i < |xs| => EncodeSegmentOutput(xs[i], i))
  }

  function IndexedParts(xs: seq<Bytes>): seq<Bytes> {
    seq(|xs|, i requires 0 <= i < |xs| => PackNumber(i) + xs[i])
  }

  function EncodeSegmentCells(s: SegmentScope): Bytes {
    List(SegmentInputParts(s.inputs)) + List(SegmentOutputParts(s.outputs))
  }

  function EncodeSegmentDeps(s: SegmentScope): Bytes {
    List(IndexedParts(s.cellDeps)) + List(IndexedParts(s.headerDeps))
  }

  function EncodeSegment(s: SegmentScope): Bytes { [s.flags] + EncodeSegmentCells(s) + EncodeSegmentDeps(s) }

  function SegmentParts(xs: seq<SegmentScope>): seq<Bytes> {
    seq(|xs|, i requires 0 <= i < |xs| => EncodeSegment(xs[i]))
  }

  function EncodeAppend(a: AppendScope): Bytes {
    a.baseHash + (if a.previous.Some? then List(SegmentParts(a.previous.value)) else []) + EncodeSegment(a.own)
  }

  function CellParts(xs: seq<ResolvedCell>): seq<Bytes> {
    seq(|xs|, i requires 0 <= i < |xs| => xs[i].output + Prefixed(xs[i].data))
  }

  function PrefixedParts(xs: seq<Bytes>): seq<Bytes> {
    seq(|xs|, i requires 0 <= i < |xs| => Prefixed(xs[i]))
  }

  function EncodeTx(s: TxScope): Bytes {
    Or(s.message, []) + s.txHash + Flatten(CellParts(s.cells)) + Flatten(PrefixedParts(s.extraWitnesses))
  }

  // ---------- what fits the four-byte prefixes ----------

  predicate Fits(n: nat) { n < U32_LIMIT }

  predicate CellsFit(s: BaseScope) {
    && Fits(|s.inputs|) && Fits(|s.inputMask|)
    && (forall i: nat | i < |s.inputs| :: Fits(|s.inputs[i].cell.data|))
    && Fits(|s.outputs|) && Fits(|s.outputMask|)
    && (forall i: nat | i < |s.outputs| :: Fits(|Or(s.outputs[i].data, [])|))
  }

  predicate DepsFit(s: BaseScope) {
    Fits(|s.cellDeps|) && Fits(|s.cellDepMask|) && Fits(|s.headerDeps|) && Fits(|s.headerDepMask|)
  }

  predicate BaseFits(s: BaseScope) { CellsFit(s) && DepsFit(s) }

  predicate SegmentCellsFit(s: SegmentScope) {
    && Fits(|s.inputs|) && (forall i: nat | i < |s.inputs| :: Fits(|s.inputs[i].cell.data|))
    && Fits(|s.outputs|) && (forall i: nat | i < |s.outputs| :: Fits(|s.outputs[i].data|))
  }

  predicate SegmentDepsFit(s: SegmentScope) { Fits(|s.cellDeps|) && Fits(|s.headerDeps|) }

  predicate SegmentFits(s: SegmentScope) { SegmentCellsFit(s) && SegmentDepsFit(s) }

  predicate AppendFits(a: AppendScope) {
    && (a.previous.Some? ==>
          Fits(|a.previous.value|) && forall i: nat | i < |a.previous.value| :: SegmentFits(a.previous.value[i]))
    && SegmentFits(a.own)
  }

  predicate TxFits(s: TxScope) {
    && (forall i: nat | i < |s.cells| :: Fits(|s.cells[i].data|))
    && (forall i: nat | i < |s.extraWitnesses| :: Fits(|s.extraWitnesses[i]|))
  }

  // ---------- scopes of accepted layouts ----------

  /** The OTX's counts and masks agree with its layout, and its parts lie inside the transaction. */
  predicate Placed(otx: OtxView, layout: OtxLayout, tx: Tx) {
    && MasksValid(otx)
    && otx.message.InBounds()
    && (forall k: Kind :: layout.BaseOf(k).count == otx.Count(k) && layout.BaseOf(k).End() <= tx.EntityCounts().At(k))
    && |layout.appendSegments| == |otx.appendSegments|
    && forall j: nat | j < |otx.appendSegments| :: SegmentPlaced(otx.appendSegments[j], layout.appendSegments[j], tx)
  }

  predicate SegmentPlaced(s: OtxAppendSegmentView, l: OtxAppendSegmentLayout, tx: Tx) {
    && l.flags == s.segmentFlags
    && forall k: Kind :: l.Of(k).count == s.Count(k) && l.Of(k).End() <= tx.EntityCounts().At(k)
  }

  function BaseInputAt(otx: OtxView, layout: OtxLayout, tx: Tx, i: nat): BaseInput
    requires Placed(otx, layout, tx) && i < otx.baseInputCells
  {
    var input := tx.inputs[InBase(otx, layout, tx, Inputs, i)];
    BaseInput(
      if otx.IncludesSince(i) == Ok(true) then Some(input.cell.since) else None,
      if otx.IncludesPreviousOutput(i) == Ok(true) then Some(input.cell.previousOutput) else None,
      ResolvedCell(input.resolvedOutput, input.resolvedData))
  }

  /** The transaction index of local entity `i` of the base part. */
  function InBase(otx: OtxView, layout: OtxLayout, tx: Tx, k: Kind, i: nat): (at: nat)
    requires Placed(otx, layout, tx) && i < otx.Count(k)
    ensures at < tx.EntityCounts().At(k)
  {
    layout.BaseOf(k).start + i
  }

  function BaseOutputAt(otx: OtxView, layout: OtxLayout, tx: Tx, i: nat): BaseOutput
    requires Placed(otx, layout, tx) && i < otx.baseOutputCells
  {
    var output := tx.outputs[InBase(otx, layout, tx, Outputs, i)];
    BaseOutput(
      if otx.IncludesCapacity(i) == Ok(true) then Some(output.cell.capacity) else None,
      if otx.IncludesLock(i) == Ok(true) then Some(output.cell.lock) else None,
      if otx.IncludesType(i) == Ok(true) then Some(output.cell.typeScript) else None,
      if otx.IncludesData(i) == Ok(true) then Some(output.data) else None)
  }

  function BaseCellDepAt(otx: OtxView, layout: OtxLayout, tx: Tx, i: nat): Option<Bytes>
    requires Placed(otx, layout, tx) && i < otx.baseCellDeps
  {
    if otx.baseCellDepMasks.Get(i) == Ok(true) then Some(tx.cellDeps[InBase(otx, layout, tx, CellDeps, i)]) else None
  }

  function BaseHeaderDepAt(otx: OtxView, layout: OtxLayout, tx: Tx, i: nat): Option<Bytes>
    requires Placed(otx, layout, tx) && i < otx.baseHeaderDeps
  {
    if otx.baseHeaderDepMasks.Get(i) == Ok(true) then Some(tx.headerDeps[InBase(otx, layout, tx, HeaderDeps, i)])
    else None
  }

  function BaseScopeOf(otx: OtxView, layout: OtxLayout, tx: Tx): BaseScope
    requires Placed(otx, layout, tx)
  {
    BaseScope(
      otx.message.Content(), otx.appendPermissions,
      otx.baseInputMasks.bytes,
      seq(otx.baseInputCells, i requires 0 <= i < otx.baseInputCells => BaseInputAt(otx, layout, tx, i)),
      otx.baseOutputMasks.bytes,
      seq(otx.baseOutputCells, i requires 0 <= i < otx.baseOutputCells => BaseOutputAt(otx, layout, tx, i)),
      otx.baseCellDepMasks.bytes,
      seq(otx.baseCellDeps, i requires 0 <= i < otx.baseCellDeps => BaseCellDepAt(otx, layout, tx, i)),
      otx.baseHeaderDepMasks.bytes,
      seq(otx.baseHeaderDeps, i requires 0 <= i < otx.baseHeaderDeps => BaseHeaderDepAt(otx, layout, tx, i)))
  }

  function SegmentInputAt(range: Range, tx: Tx, i: nat): SegmentInput
    requires i < range.count && range.End() <= |tx.inputs|
  {
    var input := tx.inputs[range.start + i];
    SegmentInput(input.cell.Raw(), ResolvedCell(input.resolvedOutput, input.resolvedData))
  }

  function SegmentOutputAt(range: Range, tx: Tx, i: nat): SegmentOutput
    requires i < range.count && range.End() <= |tx.outputs|
  {
    SegmentOutput(tx.outputs[range.start + i].cell.raw, tx.outputs[range.start + i].data)
  }

  /** The entities of a range. */
  function InRange(range: Range, all: seq<Bytes>): (r: seq<Bytes>)
    requires range.End() <= |all|
    ensures |r| == range.count && forall i: nat | i < range.count :: r[i] == all[range.start + i]
  {
    all[range.start..range.End()]
  }

  function SegmentInputsOf(range: Range, tx: Tx): seq<SegmentInput>
    requires range.End() <= |tx.inputs|
  {
    seq(range.count, i requires 0 <= i < range.count => SegmentInputAt(range, tx, i))
  }

  function SegmentOutputsOf(range: Range, tx: Tx): seq<SegmentOutput>
    requires range.End() <= |tx.outputs|
  {
    seq(range.count, i requires 0 <= i < range.count => SegmentOutputAt(range, tx, i))
  }

  function SegmentScopeOf(s: OtxAppendSegmentView, l: OtxAppendSegmentLayout, tx: Tx): SegmentScope
    requires SegmentPlaced(s, l, tx)
  {
    assert l.Of(Inputs).End() <= |tx.inputs| && l.Of(Outputs).End() <= |tx.outputs|;
    assert l.Of(CellDeps).End() <= |tx.cellDeps| && l.Of(HeaderDeps).End() <= |tx.headerDeps|;
    SegmentScope(
      s.segmentFlags, SegmentInputsOf(l.inputs, tx), SegmentOutputsOf(l.outputs, tx),
      InRange(l.cellDeps, tx.cellDeps), InRange(l.headerDeps, tx.headerDeps))
  }

  /** Segment `j` of a placed OTX. */
  function SegmentAt(otx: OtxView, layout: OtxLayout, tx: Tx, j: nat): SegmentScope
    requires Placed(otx, layout, tx) && j < |otx.appendSegments|
  {
    SegmentScopeOf(otx.appendSegments[j], layout.appendSegments[j], tx)
  }

  function SegmentsBefore(otx: OtxView, layout: OtxLayout, tx: Tx, n: nat): seq<SegmentScope>
    requires Placed(otx, layout, tx) && n <= |otx.appendSegments|
  {
    seq(n, i requires 0 <= i < n => SegmentAt(otx, layout, tx, i))
  }

  function AppendScopeOf(otx: OtxView, layout: OtxLayout, tx: Tx, j: nat, baseHash: Hash32): AppendScope
    requires Placed(otx, layout, tx) && j < |otx.appendSegments|
  {
    AppendScope(
      baseHash,
      if CoversPrevious(otx.appendSegments[j].segmentFlags)
      then Some(SegmentsBefore(otx, layout, tx, j)) else None,
      SegmentAt(otx, layout, tx, j))
  }

  function CellsOf(tx: Tx): seq<ResolvedCell> {
    seq(|tx.inputs|, i requires 0 <= i < |tx.inputs| =>
      ResolvedCell(tx.inputs[i].resolvedOutput, tx.inputs[i].resolvedData))
  }

  function ExtraWitnessesOf(tx: Tx): seq<Bytes>
    requires forall i: nat | i < |tx.witnesses| :: tx.witnesses[i].InBounds()
  {
    seq(ExtraWitnesses(tx), i requires 0 <= i < ExtraWitnesses(tx) => tx.witnesses[|tx.inputs| + i].Content())
  }

  function TxScopeOf(message: Option<Cursor>, tx: Tx): TxScope
    requires message.Some? ==> message.value.InBounds()
    requires forall i: nat | i < |tx.witnesses| :: tx.witnesses[i].InBounds()
  {
    TxScope(if message.Some? then Some(message.value.Content()) else None, tx.txHash, CellsOf(tx), ExtraWitnessesOf(tx))
  }
}
