/** The hashing code itself: every writer appends to one running hasher, field by field, loop by loop. */
module HashWriter {
  import opened Base
  import opened LazyReader
  import opened View
  import opened Layout
  import opened Transaction
  import opened Preimage

  class Hasher {
    const personal: string
    var stream: Bytes

    constructor (personal: string)
      ensures this.personal == personal && stream == []
    {
      this.personal := personal;
      stream := [];
    }

    method Update(b: Bytes)
      modifies this
      ensures stream == old(stream) + b
    {
      stream := stream + b;
    }

    function Finalize(h: Blake2b): Hash32
      reads this
    {
      h(personal, stream)
    }
  }

  /** The writer left the stream the specification says, or reported exactly its error. */
  predicate Wrote(r: Result<()>, spec: Result<Bytes>, after: Bytes) {
    match spec
    case Ok(s) => r == Ok(()) && after == s
    case Err(e) => r == Err(e)
  }

  method WriteCount(h: Hasher, count: nat) returns (r: Result<()>)
    modifies h
    ensures Wrote(r, WithCount(old(h.stream), count), h.stream)
  {
    var prefix :- CheckedLenPrefix(count);
    h.Update(prefix);
    return Ok(());
  }

  const CHUNK_SIZE := 256

  /** The first `n` bytes of a window, as far as they have been read. */
  function Streamed(c: Cursor, n: nat): Bytes
    requires n > 0 ==> c.offset + n <= |c.source|
  {
    if n == 0 then [] else c.source[c.offset..c.offset + n]
  }

  function ChunkAt(c: Cursor, offset: nat): Cursor
    requires offset < c.size
  {
    Cursor(c.source, c.offset + offset, if c.size - offset < CHUNK_SIZE then c.size - offset else CHUNK_SIZE)
  }

  lemma NextChunk(c: Cursor, offset: nat)
    requires offset < c.size && (offset > 0 ==> c.offset + offset <= |c.source|)
    ensures var chunk := ChunkAt(c, offset);
            var bytes := chunk.Read(CHUNK_SIZE);
            match bytes
            case None => !c.InBounds()
            case Some(b) =>
              && c.offset + offset + chunk.size <= |c.source|
              && Streamed(c, offset) + b == Streamed(c, offset + chunk.size)
  {}

  /** The window is streamed in chunks; it is hashed whole or reported unreadable. */
  method WriteCursor(h: Hasher, c: Cursor, error: CoreError) returns (r: Result<()>)
    modifies h
    ensures Wrote(r, WithCursor(old(h.stream), c, error), h.stream)
  {
    var offset := 0;
    ghost var start := h.stream;
    assert start == start + [];
    while offset < c.size
      invariant 0 <= offset <= c.size
      invariant offset > 0 ==> c.offset + offset <= |c.source|
      invariant h.stream == start + Streamed(c, offset)
    {
      var chunk := ChunkAt(c, offset);
      var bytes := chunk.Read(CHUNK_SIZE);
      NextChunk(c, offset);
      if bytes.None? {
        assert c.ReadAll(error) == Err(error);
        return Err(error);
      }
      JoinAssociates(start, Streamed(c, offset), bytes.value);
      h.Update(bytes.value);
      offset := offset + chunk.size;
    }
    assert c.ReadAll(error) == Ok(Streamed(c, c.size));
    return Ok(());
  }

  method WriteLenPrefixed(h: Hasher, b: Bytes) returns (r: Result<()>)
    modifies h
    ensures Wrote(r, WithLenPrefixed(old(h.stream), b), h.stream)
  {
    var prefix :- CheckedLenPrefix(|b|);
    h.Update(prefix);
    h.Update(b);
    return Ok(());
  }

  // ---------- base parts ----------

  method WriteBaseInputItem(h: Hasher, otx: OtxView, range: Range, tx: Tx, i: nat) returns (r: Result<()>)
    modifies h
    ensures Wrote(r, BaseInputItem(old(h.stream), otx, range, tx, i), h.stream)
  {
    var at :- CheckedIndex(range, i);
    var input :- tx.Input(at);
    var _ :- WriteCount(h, i);
    var withSince :- otx.IncludesSince(i);
    h.Update(if withSince then input.cell.since else Zeros(8));
    var withPrevious :- otx.IncludesPreviousOutput(i);
    h.Update(if withPrevious then input.cell.previousOutput else Zeros(36));
    h.Update(input.resolvedOutput);
    var _ :- WriteLenPrefixed(h, input.resolvedData);
    return Ok(());
  }

  method WriteOtxBaseInputCells(h: Hasher, otx: OtxView, range: Range, tx: Tx) returns (r: Result<()>)
    modifies h
    ensures Wrote(r, BaseInputs(old(h.stream), otx, range, tx), h.stream)
  {
    var _ :- WriteCount(h, otx.baseInputCells);
    var _ :- WriteLenPrefixed(h, otx.baseInputMasks.bytes);
    ghost var head := h.stream;
    for i := 0 to otx.baseInputCells
      invariant Written(head, BaseInputWriter(otx, range, tx), i) == Ok(h.stream)
    {
      r := WriteBaseInputItem(h, otx, range, tx, i);
      if r.Err? {
        WrittenStops(head, BaseInputWriter(otx, range, tx), i + 1, otx.baseInputCells);
        return;
      }
    }
    return Ok(());
  }

  method WriteBaseOutputItem(h: Hasher, otx: OtxView, range: Range, tx: Tx, i: nat) returns (r: Result<()>)
    modifies h
    ensures Wrote(r, BaseOutputItem(old(h.stream), otx, range, tx, i), h.stream)
  {
    var at :- CheckedIndex(range, i);
    var output :- tx.Output(at);
    var _ :- WriteCount(h, i);
    var withCapacity :- otx.IncludesCapacity(i);
    h.Update(if withCapacity then output.cell.capacity else Zeros(8));
    var withLock :- otx.IncludesLock(i);
    h.Update(if withLock then output.cell.lock else DEFAULT_SCRIPT);
    var withType :- otx.IncludesType(i);
    h.Update(if withType then output.cell.TypeBytes() else []);
    var withData :- otx.IncludesData(i);
    var _ :- WriteLenPrefixed(h, if withData then output.data else []);
    return Ok(());
  }

  method WriteOtxBaseOutputCells(h: Hasher, otx: OtxView, range: Range, tx: Tx) returns (r: Result<()>)
    modifies h
    ensures Wrote(r, BaseOutputs(old(h.stream), otx, range, tx), h.stream)
  {
    var _ :- WriteCount(h, otx.baseOutputCells);
    var _ :- WriteLenPrefixed(h, otx.baseOutputMasks.bytes);
    ghost var head := h.stream;
    for i := 0 to otx.baseOutputCells
      invariant Written(head, BaseOutputWriter(otx, range, tx), i) == Ok(h.stream)
    {
      r := WriteBaseOutputItem(h, otx, range, tx, i);
      if r.Err? {
        WrittenStops(head, BaseOutputWriter(otx, range, tx), i + 1, otx.baseOutputCells);
        return;
      }
    }
    return Ok(());
  }

  method WriteBaseCellDepItem(h: Hasher, otx: OtxView, range: Range, tx: Tx, i: nat) returns (r: Result<()>)
    modifies h
    ensures Wrote(r, BaseCellDepItem(old(h.stream), otx, range, tx, i), h.stream)
  {
    var _ :- WriteCount(h, i);
    var included :- otx.baseCellDepMasks.Get(i);
    if !included {
      h.Update(Zeros(37));
      return Ok(());
    }
    var at :- CheckedIndex(range, i);
    var dep :- tx.CellDep(at);
    h.Update(dep);
    return Ok(());
  }

  method WriteOtxBaseCellDeps(h: Hasher, otx: OtxView, range: Range, tx: Tx) returns (r: Result<()>)
    modifies h
    ensures Wrote(r, BaseCellDeps(old(h.stream), otx, range, tx), h.stream)
  {
    var _ :- WriteCount(h, otx.baseCellDeps);
    var _ :- WriteLenPrefixed(h, otx.baseCellDepMasks.bytes);
    ghost var head := h.stream;
    for i := 0 to otx.baseCellDeps
      invariant Written(head, BaseCellDepWriter(otx, range, tx), i) == Ok(h.stream)
    {
      r := WriteBaseCellDepItem(h, otx, range, tx, i);
      if r.Err? {
        WrittenStops(head, BaseCellDepWriter(otx, range, tx), i + 1, otx.baseCellDeps);
        return;
      }
    }
    return Ok(());
  }

  method WriteBaseHeaderDepItem(h: Hasher, otx: OtxView, range: Range, tx: Tx, i: nat) returns (r: Result<()>)
    modifies h
    ensures Wrote(r, BaseHeaderDepItem(old(h.stream), otx, range, tx, i), h.stream)
  {
    var _ :- WriteCount(h, i);
    var included :- otx.baseHeaderDepMasks.Get(i);
    if !included {
      h.Update(Zeros(32));
      return Ok(());
    }
    var at :- CheckedIndex(range, i);
    var dep :- tx.HeaderDep(at);
    h.Update(dep);
    return Ok(());
  }

  method WriteOtxBaseHeaderDeps(h: Hasher, otx: OtxView, range: Range, tx: Tx) returns (r: Result<()>)
    modifies h
    ensures Wrote(r, BaseHeaderDeps(old(h.stream), otx, range, tx), h.stream)
  {
    var _ :- WriteCount(h, otx.baseHeaderDeps);
    var _ :- WriteLenPrefixed(h, otx.baseHeaderDepMasks.bytes);
    ghost var head := h.stream;
    for i := 0 to otx.baseHeaderDeps
      invariant Written(head, BaseHeaderDepWriter(otx, range, tx), i) == Ok(h.stream)
    {
      r := WriteBaseHeaderDepItem(h, otx, range, tx, i);
      if r.Err? {
        WrittenStops(head, BaseHeaderDepWriter(otx, range, tx), i + 1, otx.baseHeaderDeps);
        return;
      }
    }
    return Ok(());
  }

  method ComputeOtxBaseHash(h: Blake2b, otx: OtxView, layout: OtxLayout, tx: Tx) returns (r: Result<Hash32>)
    ensures r == OtxBaseHash(h, otx, layout, tx)
  {
    var hasher := new Hasher(OTX_BASE_PERSONAL);
    var _ :- WriteCursor(hasher, otx.message, MalformedCobuild);
    hasher.Update([otx.appendPermissions]);
    var _ :- WriteOtxBaseInputCells(hasher, otx, layout.baseInputs, tx);
    var _ :- WriteOtxBaseOutputCells(hasher, otx, layout.baseOutputs, tx);
    var _ :- WriteOtxBaseCellDeps(hasher, otx, layout.baseCellDeps, tx);
    var _ :- WriteOtxBaseHeaderDeps(hasher, otx, layout.baseHeaderDeps, tx);
    assert OtxBasePreimage(otx, layout, tx) == Ok(hasher.stream);
    return Ok(hasher.Finalize(h));
  }

  // ---------- append segments ----------

  method WriteSegmentInputItem(h: Hasher, range: Range, tx: Tx, i: nat) returns (r: Result<()>)
    modifies h
    ensures Wrote(r, SegmentInputItem(old(h.stream), range, tx, i), h.stream)
  {
    var at :- CheckedIndex(range, i);
    var input :- tx.Input(at);
    var _ :- WriteCount(h, i);
    h.Update(input.cell.Raw());
    h.Update(input.resolvedOutput);
    var _ :- WriteLenPrefixed(h, input.resolvedData);
    return Ok(());
  }

  method WriteOtxAppendSegmentInputCells(h: Hasher, count: nat, range: Range, tx: Tx) returns (r: Result<()>)
    modifies h
    ensures Wrote(r, Counted(old(h.stream), count, SegmentInputWriter(range, tx)), h.stream)
  {
    var _ :- WriteCount(h, count);
    ghost var head := h.stream;
    for i := 0 to count
      invariant Written(head, SegmentInputWriter(range, tx), i) == Ok(h.stream)
    {
      r := WriteSegmentInputItem(h, range, tx, i);
      if r.Err? {
        WrittenStops(head, SegmentInputWriter(range, tx), i + 1, count);
        return;
      }
    }
    return Ok(());
  }

  method WriteSegmentOutputItem(h: Hasher, range: Range, tx: Tx, i: nat) returns (r: Result<()>)
    modifies h
    ensures Wrote(r, SegmentOutputItem(old(h.stream), range, tx, i), h.stream)
  {
    var at :- CheckedIndex(range, i);
    var _ :- WriteCount(h, i);
    var output :- tx.Output(at);
    h.Update(output.cell.raw);
    var _ :- WriteLenPrefixed(h, output.data);
    return Ok(());
  }

  method WriteOtxAppendSegmentOutputCells(h: Hasher, count: nat, range: Range, tx: Tx) returns (r: Result<()>)
    modifies h
    ensures Wrote(r, Counted(old(h.stream), count, SegmentOutputWriter(range, tx)), h.stream)
  {
    var _ :- WriteCount(h, count);
    ghost var head := h.stream;
    for i := 0 to count
      invariant Written(head, SegmentOutputWriter(range, tx), i) == Ok(h.stream)
    {
      r := WriteSegmentOutputItem(h, range, tx, i);
      if r.Err? {
        WrittenStops(head, SegmentOutputWriter(range, tx), i + 1, count);
        return;
      }
    }
    return Ok(());
  }

  method WriteSegmentCellDepItem(h: Hasher, range: Range, tx: Tx, i: nat) returns (r: Result<()>)
    modifies h
    ensures Wrote(r, SegmentCellDepItem(old(h.stream), range, tx, i), h.stream)
  {
    var at :- CheckedIndex(range, i);
    var _ :- WriteCount(h, i);
    var dep :- tx.CellDep(at);
    h.Update(dep);
    return Ok(());
  }

  method WriteOtxAppendSegmentCellDeps(h: Hasher, count: nat, range: Range, tx: Tx) returns (r: Result<()>)
    modifies h
    ensures Wrote(r, Counted(old(h.stream), count, SegmentCellDepWriter(range, tx)), h.stream)
  {
    var _ :- WriteCount(h, count);
    ghost var head := h.stream;
    for i := 0 to count
      invariant Written(head, SegmentCellDepWriter(range, tx), i) == Ok(h.stream)
    {
      r := WriteSegmentCellDepItem(h, range, tx, i);
      if r.Err? {
        WrittenStops(head, SegmentCellDepWriter(range, tx), i + 1, count);
        return;
      }
    }
    return Ok(());
  }

  method WriteSegmentHeaderDepItem(h: Hasher, range: Range, tx: Tx, i: nat) returns (r: Result<()>)
    modifies h
    ensures Wrote(r, SegmentHeaderDepItem(old(h.stream), range, tx, i), h.stream)
  {
    var at :- CheckedIndex(range, i);
    var _ :- WriteCount(h, i);
    var dep :- tx.HeaderDep(at);
    h.Update(dep);
    return Ok(());
  }

  method WriteOtxAppendSegmentHeaderDeps(h: Hasher, count: nat, range: Range, tx: Tx) returns (r: Result<()>)
    modifies h
    ensures Wrote(r, Counted(old(h.stream), count, SegmentHeaderDepWriter(range, tx)), h.stream)
  {
    var _ :- WriteCount(h, count);
    ghost var head := h.stream;
    for i := 0 to count
      invariant Written(head, SegmentHeaderDepWriter(range, tx), i) == Ok(h.stream)
    {
      r := WriteSegmentHeaderDepItem(h, range, tx, i);
      if r.Err? {
        WrittenStops(head, SegmentHeaderDepWriter(range, tx), i + 1, count);
        return;
      }
    }
    return Ok(());
  }

  method WriteOtxAppendSegmentEntities(h: Hasher, otx: OtxView, layout: OtxLayout, j: nat, tx: Tx)
    returns (r: Result<()>)
    modifies h
    ensures Wrote(r, SegmentEntities(old(h.stream), otx, layout, j, tx), h.stream)
  {
    if j >= |otx.appendSegments| || j >= |layout.appendSegments| {
      return Err(InvalidOtxLayout);
    }
    var segment, ranges := otx.appendSegments[j], layout.appendSegments[j];
    var _ :- WriteOtxAppendSegmentInputCells(h, segment.inputCells, ranges.inputs, tx);
    var _ :- WriteOtxAppendSegmentOutputCells(h, segment.outputCells, ranges.outputs, tx);
    var _ :- WriteOtxAppendSegmentCellDeps(h, segment.cellDeps, ranges.cellDeps, tx);
    var _ :- WriteOtxAppendSegmentHeaderDeps(h, segment.headerDeps, ranges.headerDeps, tx);
    return Ok(());
  }

  method WriteSegmentItem(h: Hasher, otx: OtxView, layout: OtxLayout, tx: Tx, j: nat) returns (r: Result<()>)
    modifies h
    ensures Wrote(r, SegmentItem(old(h.stream), otx, layout, tx, j), h.stream)
  {
    if j >= |layout.appendSegments| {
      return Err(InvalidOtxLayout);
    }
    h.Update([layout.appendSegments[j].flags]);
    var _ :- WriteOtxAppendSegmentEntities(h, otx, layout, j, tx);
    return Ok(());
  }

  method WritePreviousSegments(h: Hasher, otx: OtxView, layout: OtxLayout, count: nat, tx: Tx) returns (r: Result<()>)
    modifies h
    ensures Wrote(r, Counted(old(h.stream), count, SegmentWriter(otx, layout, tx)), h.stream)
  {
    var _ :- WriteCount(h, count);
    ghost var head := h.stream;
    for i := 0 to count
      invariant Written(head, SegmentWriter(otx, layout, tx), i) == Ok(h.stream)
    {
      r := WriteSegmentItem(h, otx, layout, tx, i);
      if r.Err? {
        WrittenStops(head, SegmentWriter(otx, layout, tx), i + 1, count);
        return;
      }
    }
    return Ok(());
  }

  method ComputeAppendSegmentHash(h: Blake2b, otx: OtxView, layout: OtxLayout, j: nat, tx: Tx, baseHash: Hash32)
    returns (r: Result<Hash32>)
    ensures r == AppendSegmentHash(h, otx, layout, j, tx, baseHash)
  {
    if j >= |layout.appendSegments| || j >= |otx.appendSegments| {
      return Err(InvalidOtxLayout);
    }
    var hasher := new Hasher(OTX_APPEND_SEGMENT_PERSONAL);
    hasher.Update(baseHash);
    assert hasher.stream == baseHash;
    if CoversPrevious(layout.appendSegments[j].flags) {
      var _ :- WritePreviousSegments(hasher, otx, layout, j, tx);
    }
    var _ :- WriteSegmentItem(hasher, otx, layout, tx, j);
    assert AppendSegmentPreimage(otx, layout, j, tx, baseHash) == Ok(hasher.stream);
    return Ok(hasher.Finalize(h));
  }

  // ---------- the whole transaction ----------

  method WriteTxInputItem(h: Hasher, tx: Tx, i: nat) returns (r: Result<()>)
    modifies h
    ensures Wrote(r, TxInputItem(old(h.stream), tx, i), h.stream)
  {
    var input :- tx.Input(i);
    h.Update(input.resolvedOutput);
    var _ :- WriteLenPrefixed(h, input.resolvedData);
    return Ok(());
  }

  method WriteTxInputs(h: Hasher, tx: Tx) returns (r: Result<()>)
    modifies h
    ensures Wrote(r, Written(old(h.stream), TxInputWriter(tx), |tx.inputs|), h.stream)
  {
    ghost var head := h.stream;
    for i := 0 to |tx.inputs|
      invariant Written(head, TxInputWriter(tx), i) == Ok(h.stream)
    {
      r := WriteTxInputItem(h, tx, i);
      if r.Err? {
        WrittenStops(head, TxInputWriter(tx), i + 1, |tx.inputs|);
        return;
      }
    }
    return Ok(());
  }

  method WriteTxWitnessItem(h: Hasher, tx: Tx, i: nat) returns (r: Result<()>)
    modifies h
    ensures Wrote(r, TxWitnessItem(old(h.stream), tx, i), h.stream)
  {
    var w :- tx.Witness(|tx.inputs| + i);
    var _ :- WriteCount(h, w.size);
    var _ :- WriteCursor(h, w, MissingHashInput);
    return Ok(());
  }

  method WriteTxWitnesses(h: Hasher, tx: Tx) returns (r: Result<()>)
    modifies h
    ensures Wrote(r, Written(old(h.stream), TxWitnessWriter(tx), ExtraWitnesses(tx)), h.stream)
  {
    ghost var head := h.stream;
    for i := 0 to ExtraWitnesses(tx)
      invariant Written(head, TxWitnessWriter(tx), i) == Ok(h.stream)
    {
      r := WriteTxWitnessItem(h, tx, i);
      if r.Err? {
        WrittenStops(head, TxWitnessWriter(tx), i + 1, ExtraWitnesses(tx));
        return;
      }
    }
    return Ok(());
  }

  method ComputeTxSigningHash(h: Blake2b, message: Option<Cursor>, tx: Tx) returns (r: Result<Hash32>)
    ensures r == TxSigningHash(h, message, tx)
  {
    var hasher := new Hasher(if message.Some? then TX_WITH_MESSAGE_PERSONAL else TX_WITHOUT_MESSAGE_PERSONAL);
    if message.Some? {
      var _ :- WriteCursor(hasher, message.value, MalformedCobuild);
    }
    hasher.Update(tx.txHash);
    var _ :- WriteTxInputs(hasher, tx);
    var _ :- WriteTxWitnesses(hasher, tx);
    assert TxPreimage(message, tx) == Ok(hasher.stream);
    return Ok(hasher.Finalize(h));
  }
}
