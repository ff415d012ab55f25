/**
 * The lazy reader the contract runs on: a cursor is a window onto a byte source that is read only
 * where an accessor looks.  Nothing is copied, so a window may reach past the source until it is read.
 */
module LazyReader {
  import opened Base

  datatype Cursor = Cursor(source: Bytes, offset: nat, size: nat) {
    predicate InBounds() { offset + size <= |source| }

    function Content(): Bytes
      requires InBounds()
    {
      source[offset..offset + size]
    }

    /** `read_at` into an `n`-byte buffer: at most the cursor's size, and never past the source. */
    function Read(n: nat): Option<Bytes> {
      var len := if size < n then size else n;
      if len == 0 then Some([])
      else if offset + len <= |source| then Some(source[offset..offset + len])
      else None
    }

    /** All bytes of the window, or the caller's error. */
    function ReadAll(error: CoreError): (r: Result<Bytes>)
      ensures InBounds() ==> r == Ok(Content())
      ensures r.Ok? ==> |r.value| == size
      ensures r.Err? ==> r.error == error
    {
      assert InBounds() && size == 0 ==> Content() == [];
      Read(size).OrErr(error)
    }

    function At(k: nat): Cursor { Cursor(source, offset + k, size) }

    function Number(): (r: Option<nat>)
      ensures r.Some? ==> r.value < U32_LIMIT
    {
      var b :- Read(4);
      if |b| == 4 then PackOfNumberAt(b, 0); Some(NumberAt(b, 0)) else None
    }

    function Byte(): Option<Byte> {
      var b :- Read(1);
      if |b| == 1 then Some(b[0]) else None
    }

    /** A 32-byte array: the window must be exactly that long. */
    function Hash(): Option<Hash32> {
      var b :- Read(32);
      if |b| == 32 && size == 32 then Some(b) else None
    }

    function OffsetNumber(i: nat): Option<nat> { At(4 * (i + 1)).Number() }

    /** `get_item_count` on a cursor that stands on the first offset. */
    function GetItemCount(): Option<nat> {
      var first :- Number();
      if first % 4 != 0 || first < 4 then None else Some(first / 4 - 1)
    }

    function ItemCount(): Option<nat> { At(4).GetItemCount() }

    /** `verify_dynvec`: sorted offsets, but the last one is not compared with the total size. */
    predicate VerifyDynvec() {
      && Number() == Some(size)
      && (size == 4
          || (&& size >= 8
              && At(4).Number().Some?
              && At(4).Number().value % 4 == 0
              && 8 <= At(4).Number().value <= size
              && (forall i: nat | i < ItemCount().value :: OffsetNumber(i).Some?)
              && (forall i: nat | i + 1 < ItemCount().value ::
                    OffsetNumber(i).value <= OffsetNumber(i + 1).value)))
    }

    predicate VerifyTable(fieldCount: nat) {
      && VerifyDynvec()
      && if size == 4 then fieldCount == 0 else ItemCount() == Some(fieldCount)
    }

    function DynvecLength(): Option<nat> {
      if size == 4 then Some(0)
      else if size < 4 then None
      else Cursor(source, offset + 4, size - 4).GetItemCount()
    }

    /** `dynvec_slice_by_index` and `table_slice_by_index`. */
    function Slice(i: nat): Option<Cursor> {
      var total :- Number();
      var count :- ItemCount();
      if i >= count then None
      else
        var start :- OffsetNumber(i);
        var end :- if i + 1 == count then Some(total) else OffsetNumber(i + 1);
        if end < start then None else Some(Cursor(source, offset + start, end - start))
    }

    /** `fixvec_slice_raw_bytes`: the bytes after the count, which must fit the window. */
    function RawBytes(): Option<Cursor> {
      var n :- Number();
      if 4 + n > size then None else Some(Cursor(source, offset + 4, n))
    }

    function SliceByte(i: nat): Option<Byte> {
      var c :- Slice(i);
      c.Byte()
    }

    function SliceNumber(i: nat): (r: Option<nat>)
      ensures r.Some? ==> r.value < U32_LIMIT
    {
      var c :- Slice(i);
      c.Number()
    }

    function SliceHash(i: nat): Option<Hash32> {
      var c :- Slice(i);
      c.Hash()
    }

    function SliceRaw(i: nat): Option<Cursor> {
      var c :- Slice(i);
      c.RawBytes()
    }
  }

  // ---------- `verify(false)` of the generated lazy types ----------

  predicate VerifyAction(c: Cursor) {
    c.VerifyTable(4) && c.SliceHash(0).Some? && c.SliceHash(2).Some?
  }

  predicate VerifyLockSeal(c: Cursor) {
    c.VerifyTable(2) && c.SliceHash(0).Some?
  }

  /** A vector's `verify`: the offset table, then every item. */
  predicate VerifyVec(c: Cursor, item: Cursor -> bool) {
    && c.VerifyDynvec()
    && c.DynvecLength().Some?
    && forall i: nat | i < c.DynvecLength().value :: c.Slice(i).Some? && item(c.Slice(i).value)
  }

  predicate VerifyMessage(c: Cursor) {
    c.VerifyTable(1) && c.Slice(0).Some? && VerifyVec(c.Slice(0).value, VerifyAction)
  }

  predicate VerifyAppendSegment(c: Cursor) {
    c.VerifyTable(6) && c.Slice(5).Some? && VerifyVec(c.Slice(5).value, VerifyLockSeal)
  }

  predicate VerifyOtx(c: Cursor) {
    && c.VerifyTable(12)
    && c.Slice(0).Some? && VerifyMessage(c.Slice(0).value)
    && c.Slice(10).Some? && VerifyVec(c.Slice(10).value, VerifyAppendSegment)
    && c.Slice(11).Some? && VerifyVec(c.Slice(11).value, VerifyLockSeal)
  }

  predicate VerifySighashAll(c: Cursor) {
    c.VerifyTable(2) && c.Slice(1).Some? && VerifyMessage(c.Slice(1).value)
  }

  predicate VerifySighashAllOnly(c: Cursor) { c.VerifyTable(1) }

  predicate VerifyOtxStart(c: Cursor) { c.VerifyTable(4) }
}
