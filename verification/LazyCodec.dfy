/**
 * The two readers of the same format.  Whatever the entity codec accepts exactly, the lazy reader accepts too,
 * and it sees the same fields; the lazy reader also accepts more.
 */
module LazyCodec {
  import opened Base
  import opened Molecule
  import opened Entity
  import opened LazyReader
  import opened View
  import opened Collector
  import opened Witness

  /** The cursor is a window onto exactly these bytes. */
  predicate Window(c: Cursor, b: Bytes) { c.InBounds() && c.size == |b| && c.Content() == b }

  lemma NumberInWindow(c: Cursor, b: Bytes, k: nat)
    requires Window(c, b) && k + 4 <= |b|
    ensures c.At(k).Number() == Some(NumberAt(b, k))
  {
    assert b[k..k + 4] == c.source[c.offset + k..c.offset + k + 4];
    var read := c.At(k).Read(4).value;
    assert read == b[k..k + 4] && read[0..4] == read;
  }

  lemma NumberOfWindow(c: Cursor, b: Bytes)
    requires Window(c, b) && |b| >= 4
    ensures c.Number() == Some(NumberAt(b, 0))
  {
    NumberInWindow(c, b, 0);
    assert c.At(0) == c;
  }

  lemma CountInWindow(c: Cursor, b: Bytes)
    requires Window(c, b) && OffsetsOk(b)
    ensures c.ItemCount() == Some(Molecule.ItemCount(b))
  {
    NumberInWindow(c, b, 4);
  }

  lemma OffsetInWindow(c: Cursor, b: Bytes, i: nat)
    requires Window(c, b) && OffsetsOk(b) && i < Molecule.ItemCount(b)
    ensures c.OffsetNumber(i) == Some(OffsetAt(b, i))
  {
    NumberInWindow(c, b, 4 * (i + 1));
  }

  lemma SliceOfSlice(s: Bytes, o: nat, n: nat, i: nat, j: nat)
    requires o + n <= |s| && i <= j <= n
    ensures s[o..o + n][i..j] == s[o + i..o + j]
  {
    var a, b := s[o..o + n][i..j], s[o + i..o + j];
    assert |a| == |b| == j - i;
    assert forall k: nat | k < j - i :: a[k] == s[o + i + k] && b[k] == s[o + i + k];
  }

  lemma SubWindow(c: Cursor, b: Bytes, i: nat, j: nat)
    requires Window(c, b) && i <= j <= |b|
    ensures Window(Cursor(c.source, c.offset + i, j - i), b[i..j])
  {
    SliceOfSlice(c.source, c.offset, c.size, i, j);
    assert c.offset + i + (j - i) == c.offset + j;
  }

  /** Slicing an accepted offset table gives a window onto the item. */
  lemma SliceInWindow(c: Cursor, b: Bytes, i: nat)
    requires Window(c, b) && OffsetsOk(b) && i < Molecule.ItemCount(b)
    ensures c.Slice(i).Some? && Window(c.Slice(i).value, Item(b, i))
  {
    NumberOfWindow(c, b);
    CountInWindow(c, b);
    OffsetInWindow(c, b, i);
    if i + 1 < Molecule.ItemCount(b) {
      OffsetInWindow(c, b, i + 1);
    }
    OffsetsSorted(b, i + 1, Molecule.ItemCount(b));
    SubWindow(c, b, OffsetAt(b, i), OffsetAt(b, i + 1));
    SliceBetween(c, i, Molecule.ItemCount(b), OffsetAt(b, i), OffsetAt(b, i + 1));
  }

  lemma SliceBetween(c: Cursor, i: nat, count: nat, start: nat, end: nat)
    requires c.ItemCount() == Some(count) && i < count && c.OffsetNumber(i) == Some(start) && start <= end
    requires c.Number().Some? && (if i + 1 == count then c.Number() else c.OffsetNumber(i + 1)) == Some(end)
    ensures c.Slice(i) == Some(Cursor(c.source, c.offset + start, end - start))
  {}

  lemma OffsetsAccepted(c: Cursor, b: Bytes)
    requires Window(c, b) && OffsetsOk(b)
    ensures c.VerifyDynvec() && c.VerifyTable(Molecule.ItemCount(b))
  {
    NumberOfWindow(c, b);
    NumberInWindow(c, b, 4);
    CountInWindow(c, b);
    forall i: nat | i < Molecule.ItemCount(b) ensures c.OffsetNumber(i) == Some(OffsetAt(b, i)) {
      OffsetInWindow(c, b, i);
    }
    forall i: nat | i + 1 < Molecule.ItemCount(b) ensures c.OffsetNumber(i).value <= c.OffsetNumber(i + 1).value {
      assert OffsetAt(b, i) <= OffsetAt(b, i + 1);
    }
  }

  lemma TableAccepted(c: Cursor, b: Bytes, fields: seq<Schema>)
    requires Window(c, b) && Verify(Table(fields), b, false)
    ensures c.VerifyTable(|fields|)
    ensures forall i: nat | i < |fields| ::
              c.Slice(i).Some? && Window(c.Slice(i).value, Item(b, i)) && Verify(fields[i], Item(b, i), false)
  {
    OffsetsAccepted(c, b);
    forall i: nat | i < |fields| ensures c.Slice(i).Some? && Window(c.Slice(i).value, Item(b, i)) {
      SliceInWindow(c, b, i);
    }
  }

  // ---------- leaves ----------

  lemma HashAccepted(c: Cursor, b: Bytes)
    requires Window(c, b) && |b| == 32
    ensures c.Hash() == Some(b)
  {
    assert c.source[c.offset..c.offset + 32] == b;
  }

  lemma ByteAccepted(c: Cursor, b: Bytes)
    requires Window(c, b) && |b| == 1
    ensures c.Byte() == Some(b[0])
  {}

  lemma RawAccepted(c: Cursor, b: Bytes)
    requires Window(c, b) && Verify(ByteVec, b, false)
    ensures c.RawBytes().Some? && Window(c.RawBytes().value, b[4..])
  {
    NumberOfWindow(c, b);
    assert c.RawBytes().value.Content() == b[4..];
  }

  // ---------- vectors ----------

  /** Every window onto an entity of this type is acceptable. */
  ghost predicate Accepts(item: Schema, p: Cursor -> bool) {
    forall c: Cursor | ShowsEntity(item, c) :: p(c)
  }

  lemma LengthInWindow(c: Cursor, b: Bytes)
    requires Window(c, b) && OffsetsOk(b)
    ensures c.DynvecLength() == Some(Molecule.ItemCount(b))
  {
    var rest := Cursor(c.source, c.offset + 4, c.size - 4);
    SubWindow(c, b, 4, |b|);
    NumberOfWindow(rest, b[4..]);
    assert b[4..][0..4] == b[4..8];
    CountOfNumber(rest, NumberAt(b, 4));
  }

  lemma CountOfNumber(c: Cursor, first: nat)
    requires c.Number() == Some(first) && first % 4 == 0 && first >= 4
    ensures c.GetItemCount() == Some(first / 4 - 1)
  {}

  ghost predicate ShowsEntity(item: Schema, c: Cursor) {
    exists b: Bytes :: Window(c, b) && Verify(item, b, false)
  }

  lemma VecItems(c: Cursor, item: Schema, b: Bytes)
    requires Window(c, b) && Verify(DynVec(item), b, false)
    ensures c.VerifyDynvec() && c.DynvecLength().Some?
    ensures forall i: nat | i < c.DynvecLength().value :: c.Slice(i).Some? && ShowsEntity(item, c.Slice(i).value)
  {
    if |b| == 4 {
      NumberOfWindow(c, b);
    } else {
      OffsetsAccepted(c, b);
      LengthInWindow(c, b);
      forall i: nat | i < c.DynvecLength().value
        ensures c.Slice(i).Some? && ShowsEntity(item, c.Slice(i).value)
      {
        SliceInWindow(c, b, i);
      }
    }
  }

  lemma VecAccepted(item: Schema, p: Cursor -> bool)
    requires Accepts(item, p)
    ensures forall c: Cursor, b: Bytes | Window(c, b) && Verify(DynVec(item), b, false) :: VerifyVec(c, p)
  {
    forall c: Cursor, b: Bytes | Window(c, b) && Verify(DynVec(item), b, false) ensures VerifyVec(c, p) {
      VecItems(c, item, b);
    }
  }

  // ---------- the entity types ----------

  lemma ActionAccepted(c: Cursor, b: Bytes)
    requires Window(c, b) && Verify(ActionSchema(), b, false)
    ensures VerifyAction(c)
  {
    TableAccepted(c, b, [BYTE32, BYTE, BYTE32, ByteVec]);
    HashAccepted(c.Slice(0).value, Item(b, 0));
    HashAccepted(c.Slice(2).value, Item(b, 2));
  }

  lemma LockSealAccepted(c: Cursor, b: Bytes)
    requires Window(c, b) && Verify(LockSealSchema(), b, false)
    ensures VerifyLockSeal(c) && LockSealOf(c).Ok?
  {
    TableAccepted(c, b, [BYTE32, ByteVec]);
    HashAccepted(c.Slice(0).value, Item(b, 0));
    RawAccepted(c.Slice(1).value, Item(b, 1));
  }

  lemma MessageAccepted(c: Cursor, b: Bytes)
    requires Window(c, b) && Verify(MessageSchema(), b, false)
    ensures VerifyMessage(c)
  {
    TableAccepted(c, b, [DynVec(ActionSchema())]);
    forall d: Cursor | ShowsEntity(ActionSchema(), d) ensures VerifyAction(d) {
      var x: Bytes :| Window(d, x) && Verify(ActionSchema(), x, false);
      ActionAccepted(d, x);
    }
    VecAccepted(ActionSchema(), VerifyAction);
  }

  lemma LockSealsAccepted(c: Cursor, b: Bytes)
    requires Window(c, b) && Verify(DynVec(LockSealSchema()), b, false)
    ensures VerifyVec(c, VerifyLockSeal) && LockSeals(c).Ok?
  {
    forall d: Cursor | ShowsEntity(LockSealSchema(), d) ensures VerifyLockSeal(d) && LockSealOf(d).Ok? {
      var x: Bytes :| Window(d, x) && Verify(LockSealSchema(), x, false);
      LockSealAccepted(d, x);
    }
    VecAccepted(LockSealSchema(), VerifyLockSeal);
    VecItems(c, LockSealSchema(), b);
  }

  lemma NumberFieldAccepted(c: Cursor, b: Bytes, fields: seq<Schema>, i: nat)
    requires Window(c, b) && Verify(Table(fields), b, false) && i < |fields| && fields[i] == UINT32
    ensures Verify(fields[i], Item(b, i), false)
    ensures c.SliceNumber(i) == Some(NumberAt(Item(b, i), 0))
  {
    TableAccepted(c, b, fields);
    NumberOfWindow(c.Slice(i).value, Item(b, i));
  }

  lemma SegmentParses(c: Cursor)
    requires c.Slice(5).Some? && LockSeals(c.Slice(5).value).Ok? && c.SliceByte(0).Some?
    requires forall i: nat | 1 <= i <= 4 :: c.SliceNumber(i).Some?
    ensures AppendSegmentOf(c).Ok?
  {
    assert c.SliceNumber(1).Some? && c.SliceNumber(2).Some? && c.SliceNumber(3).Some? && c.SliceNumber(4).Some?;
  }

  lemma SegmentAccepted(c: Cursor, b: Bytes)
    requires Window(c, b) && Verify(OtxAppendSegmentSchema(), b, false)
    ensures VerifyAppendSegment(c) && AppendSegmentOf(c).Ok?
  {
    var fields := OtxAppendSegmentSchema().fields;
    TableAccepted(c, b, fields);
    LockSealsAccepted(c.Slice(5).value, Item(b, 5));
    ByteAccepted(c.Slice(0).value, Item(b, 0));
    forall i: nat | 1 <= i <= 4 ensures c.SliceNumber(i).Some? {
      NumberFieldAccepted(c, b, fields, i);
    }
    SegmentParses(c);
  }

  lemma SegmentsAccepted(c: Cursor, b: Bytes)
    requires Window(c, b) && Verify(DynVec(OtxAppendSegmentSchema()), b, false)
    ensures VerifyVec(c, VerifyAppendSegment) && AppendSegments(c).Ok?
  {
    forall d: Cursor | ShowsEntity(OtxAppendSegmentSchema(), d)
      ensures VerifyAppendSegment(d) && AppendSegmentOf(d).Ok?
    {
      var x: Bytes :| Window(d, x) && Verify(OtxAppendSegmentSchema(), x, false);
      SegmentAccepted(d, x);
    }
    VecAccepted(OtxAppendSegmentSchema(), VerifyAppendSegment);
    VecItems(c, OtxAppendSegmentSchema(), b);
  }

  lemma CountAndMaskAccepted(c: Cursor, b: Bytes, fields: seq<Schema>, i: nat)
    requires Window(c, b) && Verify(Table(fields), b, false) && i + 1 < |fields|
    requires fields[i] == UINT32 && fields[i + 1] == ByteVec
    ensures Verify(fields[i], Item(b, i), false) && Verify(fields[i + 1], Item(b, i + 1), false)
    ensures CountAndMask(c, i) == Ok((NumberAt(Item(b, i), 0), MaskView(Item(b, i + 1)[4..])))
  {
    NumberFieldAccepted(c, b, fields, i);
    TableAccepted(c, b, fields);
    RawAccepted(c.Slice(i + 1).value, Item(b, i + 1));
  }

  /** The counted mask at field `i` of an accepted table. */
  predicate ReadsCount(b: Bytes, i: nat, count: nat, mask: MaskView)
    requires OffsetsOk(b)
  {
    && i + 1 < Molecule.ItemCount(b) && |Item(b, i)| == 4 && |Item(b, i + 1)| >= 4
    && count == NumberAt(Item(b, i), 0) && mask.bytes == Item(b, i + 1)[4..]
  }

  /** The view holds the entity's own fields. */
  predicate ReadsOtx(b: Bytes, v: OtxView)
    requires OffsetsOk(b)
  {
    && Molecule.ItemCount(b) == 12
    && Window(v.message, Item(b, 0))
    && Item(b, 1) == [v.appendPermissions]
    && ReadsCount(b, 2, v.baseInputCells, v.baseInputMasks)
    && ReadsCount(b, 4, v.baseOutputCells, v.baseOutputMasks)
    && ReadsCount(b, 6, v.baseCellDeps, v.baseCellDepMasks)
    && ReadsCount(b, 8, v.baseHeaderDeps, v.baseHeaderDepMasks)
  }

  lemma OtxFieldsRead(c: Cursor, b: Bytes)
    requires Window(c, b) && Verify(OtxSchema(), b, false)
    ensures forall i: nat | i == 2 || i == 4 || i == 6 || i == 8 ::
              CountAndMask(c, i).Ok? && ReadsCount(b, i, CountAndMask(c, i).value.0, CountAndMask(c, i).value.1)
  {
    forall i: nat | i == 2 || i == 4 || i == 6 || i == 8
      ensures CountAndMask(c, i).Ok? && ReadsCount(b, i, CountAndMask(c, i).value.0, CountAndMask(c, i).value.1)
    {
      CountAndMaskAccepted(c, b, OtxSchema().fields, i);
    }
  }

  lemma FieldAccepted(c: Cursor, b: Bytes, fields: seq<Schema>, i: nat, field: Schema)
    requires Window(c, b) && Verify(Table(fields), b, false) && i < |fields| && fields[i] == field
    ensures c.Slice(i).Some? && Window(c.Slice(i).value, Item(b, i)) && Verify(field, Item(b, i), false)
  {
    TableAccepted(c, b, fields);
  }

  lemma OtxVectorsAccepted(c: Cursor, b: Bytes)
    requires Window(c, b) && Verify(OtxSchema(), b, false)
    ensures c.Slice(10).Some? && VerifyVec(c.Slice(10).value, VerifyAppendSegment)
            && AppendSegments(c.Slice(10).value).Ok?
    ensures c.Slice(11).Some? && VerifyVec(c.Slice(11).value, VerifyLockSeal) && LockSeals(c.Slice(11).value).Ok?
  {
    FieldAccepted(c, b, OtxSchema().fields, 10, DynVec(OtxAppendSegmentSchema()));
    SegmentsAccepted(c.Slice(10).value, Item(b, 10));
    FieldAccepted(c, b, OtxSchema().fields, 11, DynVec(LockSealSchema()));
    LockSealsAccepted(c.Slice(11).value, Item(b, 11));
  }

  lemma OtxVerified(c: Cursor, b: Bytes)
    requires Window(c, b) && Verify(OtxSchema(), b, false)
    ensures VerifyOtx(c)
    ensures Window(c.Slice(0).value, Item(b, 0)) && Molecule.ItemCount(b) == 12
  {
    OtxVectorsAccepted(c, b);
    FieldAccepted(c, b, OtxSchema().fields, 0, MessageSchema());
    MessageAccepted(c.Slice(0).value, Item(b, 0));
    OffsetsAccepted(c, b);
  }

  lemma OtxPermissionsRead(c: Cursor, b: Bytes)
    requires Window(c, b) && Verify(OtxSchema(), b, false)
    ensures |Item(b, 1)| == 1 && c.SliceByte(1) == Some(Item(b, 1)[0])
  {
    FieldAccepted(c, b, OtxSchema().fields, 1, BYTE);
    ByteAccepted(c.Slice(1).value, Item(b, 1));
  }

  /** The lazy reader accepts every exactly encoded OTX and reads its fields as the entity codec does. */
  lemma OtxAgrees(c: Cursor, b: Bytes)
    requires Window(c, b) && Verify(OtxSchema(), b, false)
    ensures VerifyOtx(c) && OtxViewOf(c).Ok? && ReadsOtx(b, OtxViewOf(c).value)
  {
    OtxVerified(c, b);
    OtxVectorsAccepted(c, b);
    OtxFieldsRead(c, b);
    OtxPermissionsRead(c, b);
    OtxParses(c);
  }

  lemma OtxParses(c: Cursor)
    requires c.Slice(10).Some? && AppendSegments(c.Slice(10).value).Ok?
    requires c.Slice(11).Some? && LockSeals(c.Slice(11).value).Ok?
    requires c.Slice(0).Some? && c.SliceByte(1).Some?
    requires CountAndMask(c, 2).Ok? && CountAndMask(c, 4).Ok? && CountAndMask(c, 6).Ok? && CountAndMask(c, 8).Ok?
    ensures OtxViewOf(c).Ok?
    ensures var v := OtxViewOf(c).value;
            && c.Slice(0) == Some(v.message) && c.SliceByte(1) == Some(v.appendPermissions)
            && CountAndMask(c, 2) == Ok((v.baseInputCells, v.baseInputMasks))
            && CountAndMask(c, 4) == Ok((v.baseOutputCells, v.baseOutputMasks))
            && CountAndMask(c, 6) == Ok((v.baseCellDeps, v.baseCellDepMasks))
            && CountAndMask(c, 8) == Ok((v.baseHeaderDeps, v.baseHeaderDepMasks))
  {}

  lemma SighashAllAccepted(c: Cursor, b: Bytes)
    requires Window(c, b) && Verify(SighashAllSchema(), b, false)
    ensures VerifySighashAll(c) && SummarizeCobuild(SighashAll(c)).Ok?
    ensures Window(SummarizeCobuild(SighashAll(c)).value.seal, Item(b, 0)[4..])
    ensures Window(SummarizeCobuild(SighashAll(c)).value.message, Item(b, 1))
  {
    FieldAccepted(c, b, SighashAllSchema().fields, 0, ByteVec);
    RawAccepted(c.Slice(0).value, Item(b, 0));
    FieldAccepted(c, b, SighashAllSchema().fields, 1, MessageSchema());
    MessageAccepted(c.Slice(1).value, Item(b, 1));
    OffsetsAccepted(c, b);
  }

  lemma SighashAllOnlyAccepted(c: Cursor, b: Bytes)
    requires Window(c, b) && Verify(SighashAllOnlySchema(), b, false)
    ensures VerifySighashAllOnly(c) && SummarizeCobuild(SighashAllOnly(c)).Ok?
    ensures Window(SummarizeCobuild(SighashAllOnly(c)).value.seal, Item(b, 0)[4..])
  {
    FieldAccepted(c, b, SighashAllOnlySchema().fields, 0, ByteVec);
    RawAccepted(c.Slice(0).value, Item(b, 0));
    OffsetsAccepted(c, b);
  }

  lemma OtxStartAccepted(c: Cursor, b: Bytes)
    requires Window(c, b) && Verify(OtxStartSchema(), b, false)
    ensures VerifyOtxStart(c) && OtxStartViewOf(c).Ok?
  {
    var fields := OtxStartSchema().fields;
    forall i: nat | i < 4 ensures c.SliceNumber(i).Some? {
      NumberFieldAccepted(c, b, fields, i);
    }
    OffsetsAccepted(c, b);
    StartParses(c);
  }

  lemma StartParses(c: Cursor)
    requires forall i: nat | i < 4 :: c.SliceNumber(i).Some?
    ensures OtxStartViewOf(c).Ok?
  {
    assert c.SliceNumber(0).Some? && c.SliceNumber(1).Some? && c.SliceNumber(2).Some? && c.SliceNumber(3).Some?;
  }

  /** The variant of a witness with this union id. */
  function VariantOf(id: nat, item: Cursor): CobuildWitnessLayout
    requires ItemSchema(id).Some?
  {
    if id == SIGHASH_ALL_ID then SighashAll(item)
    else if id == SIGHASH_ALL_ONLY_ID then SighashAllOnly(item)
    else if id == OTX_ID then Otx(item)
    else OtxStart(item)
  }

  lemma VariantAccepted(id: nat, c: Cursor, b: Bytes)
    requires ItemSchema(id).Some? && Window(c, b) && Verify(ItemSchema(id).value, b, false)
    ensures Verified(VariantOf(id, c)) && SummarizeCobuild(VariantOf(id, c)).Ok?
            && LayoutWitnessOf(VariantOf(id, c)).Ok?
  {
    if id == SIGHASH_ALL_ID {
      SighashAllAccepted(c, b);
    } else if id == SIGHASH_ALL_ONLY_ID {
      SighashAllOnlyAccepted(c, b);
    } else if id == OTX_ID {
      OtxAgrees(c, b);
    } else {
      OtxStartAccepted(c, b);
    }
  }

  lemma UnionRead(w: Cursor, id: nat)
    requires w.Number() == Some(id) && w.size >= 4 && ItemSchema(id).Some?
    ensures Unpacked(w) == Some(VariantOf(id, Cursor(w.source, w.offset + 4, w.size - 4)))
  {}

  /**
   * The scanner accepts every exactly encoded witness: it recognises the variant, and its summary and layout
   * meaning exist.  With the codec's round trip, whatever a builder prints the planner reads.
   */
  lemma EncodedWitnessIsClassified(w: Cursor, b: Bytes)
    requires Window(w, b) && WitnessVerify(b, false)
    ensures var variant := VariantOf(NumberAt(b, 0), Cursor(w.source, w.offset + 4, w.size - 4));
            && Window(variant.item, b[4..])
            && FromCursor(w) == Ok(variant)
            && SummarizeCobuild(variant).Ok? && LayoutWitnessOf(variant).Ok?
            && Classify(w) == Ok((SummarizeCobuild(variant).value, LayoutWitnessOf(variant).value))
  {
    var item := Cursor(w.source, w.offset + 4, w.size - 4);
    SubWindow(w, b, 4, |b|);
    NumberOfWindow(w, b);
    VariantAccepted(NumberAt(b, 0), item, b[4..]);
    UnionRead(w, NumberAt(b, 0));
  }

  /** What a witness builder prints, the planner classifies. */
  lemma BuiltWitnessIsClassified(id: nat, v: Value, w: Cursor)
    requires ItemSchema(id).Some? && Typed(ItemSchema(id).value, v) && |Build(ItemSchema(id).value, v)| < U32_LIMIT
    requires Window(w, WitnessBuild(id, v))
    ensures FromCursor(w) == Ok(VariantOf(id, Cursor(w.source, w.offset + 4, w.size - 4)))
    ensures Classify(w).Ok?
  {
    WitnessBuildThenParse(id, v);
    EncodedWitnessIsClassified(w, WitnessBuild(id, v));
  }

  // ---------- where the readers differ ----------

  /**
   * The lazy reader does not check the size of an integer field: any OtxStart table whose four fields have at
   * least four bytes is read, by their first four bytes.  The entity codec accepts it exactly when all four have
   * just four.
   */
  lemma LazyReadsWiderIntegers(c: Cursor, parts: seq<Bytes>)
    requires |parts| == 4 && |Offsetted(parts)| < U32_LIMIT && Window(c, Offsetted(parts))
    requires forall i: nat | i < 4 :: |parts[i]| >= 4
    ensures VerifyOtxStart(c)
    ensures OtxStartViewOf(c) == Ok(OtxStartView(NumberAt(parts[0], 0), NumberAt(parts[1], 0), NumberAt(parts[2], 0),
                                                 NumberAt(parts[3], 0)))
    ensures Verify(OtxStartSchema(), Offsetted(parts), false) <==> forall i: nat | i < 4 :: |parts[i]| == 4
  {
    SplitOffsetted(parts);
    OffsetsAccepted(c, Offsetted(parts));
    forall i: nat | i < 4 ensures c.SliceNumber(i) == Some(NumberAt(parts[i], 0)) {
      SliceInWindow(c, Offsetted(parts), i);
      NumberOfWindow(c.Slice(i).value, parts[i]);
    }
    assert c.SliceNumber(0).Some? && c.SliceNumber(1).Some? && c.SliceNumber(2).Some? && c.SliceNumber(3).Some?;
    StartSchemaSizes(parts);
  }

  lemma StartSchemaSizes(parts: seq<Bytes>)
    requires |parts| == 4 && OffsetsOk(Offsetted(parts)) && Molecule.ItemCount(Offsetted(parts)) == 4
    requires forall i: nat | i < 4 :: Item(Offsetted(parts), i) == parts[i]
    ensures Verify(OtxStartSchema(), Offsetted(parts), false) <==> forall i: nat | i < 4 :: |parts[i]| == 4
  {
    var b := Offsetted(parts);
    var fields := OtxStartSchema().fields;
    forall i: nat | i < 4 ensures Verify(fields[i], Item(b, i), false) <==> |parts[i]| == 4 {
      assert fields[i] == UINT32;
    }
  }
}
