/**
 * Exactly when the two readers agree.  The lazy reader checks the header of every table and vector it meets; the
 * entity codec also checks the size of every field.  What the scanner reads, the codec accepts if and only if
 * every leaf is there and has exactly its size.
 */
module LazyExact {
  import opened Base
  import opened Molecule
  import opened Entity
  import opened LazyReader
  import opened View
  import opened LazyCodec
  import opened Witness

  /** Table and vector headers are sound, wherever the lazy reader can follow the offsets. */
  predicate Headed(s: Schema, c: Cursor)
    decreases s
  {
    match s
    case Fixed(_) => true
    case ByteVec => true
    case DynVec(item) =>
      && c.VerifyDynvec()
      && c.DynvecLength().Some?
      && forall i: nat | i < c.DynvecLength().value && c.Slice(i).Some? :: Headed(item, c.Slice(i).value)
    case Table(fields) =>
      && c.VerifyTable(|fields|)
      && forall i: nat | i < |fields| && c.Slice(i).Some? :: Headed(fields[i], c.Slice(i).value)
  }

  /** Every leaf is there and snug: fixed-size fields have their size, byte vectors four bytes and their count. */
  predicate Snug(s: Schema, c: Cursor)
    decreases s
  {
    match s
    case Fixed(n) => c.size == n
    case ByteVec => c.Number().Some? && c.size == 4 + c.Number().value
    case DynVec(item) =>
      && c.DynvecLength().Some?
      && forall i: nat | i < c.DynvecLength().value :: c.Slice(i).Some? && Snug(item, c.Slice(i).value)
    case Table(fields) =>
      forall i: nat | i < |fields| :: c.Slice(i).Some? && Snug(fields[i], c.Slice(i).value)
  }

  // ---------- from the codec to the lazy reader ----------

  /** Whatever the codec accepts exactly is headed and snug. */
  lemma {:induction false} ExactIsSnug(s: Schema, c: Cursor, b: Bytes)
    requires Window(c, b) && Verify(s, b, false)
    ensures Headed(s, c) && Snug(s, c)
    decreases s
  {
    match s
    case Fixed(_) =>
    case ByteVec =>
      NumberOfWindow(c, b);
    case DynVec(item) =>
      VecItems(c, item, b);
      forall i: nat | i < c.DynvecLength().value
        ensures Headed(item, c.Slice(i).value) && Snug(item, c.Slice(i).value)
      {
        var x: Bytes :| Window(c.Slice(i).value, x) && Verify(item, x, false);
        ExactIsSnug(item, c.Slice(i).value, x);
      }
    case Table(fields) =>
      TableAccepted(c, b, fields);
      forall i: nat | i < |fields| ensures Headed(fields[i], c.Slice(i).value) && Snug(fields[i], c.Slice(i).value) {
        ExactIsSnug(fields[i], c.Slice(i).value, Item(b, i));
      }
  }

  // ---------- and back ----------

  lemma LazyHeader(c: Cursor, b: Bytes)
    requires Window(c, b) && c.VerifyDynvec() && c.size != 4
    ensures |b| >= 8 && NumberAt(b, 0) == |b| && NumberAt(b, 4) % 4 == 0 && 8 <= NumberAt(b, 4) <= |b|
    ensures c.ItemCount() == Some(Molecule.ItemCount(b))
    ensures forall i: nat | i < Molecule.ItemCount(b) :: c.OffsetNumber(i) == Some(NumberAt(b, 4 * (i + 1)))
  {
    NumberOfWindow(c, b);
    NumberInWindow(c, b, 4);
    forall i: nat | i < Molecule.ItemCount(b) ensures c.OffsetNumber(i) == Some(NumberAt(b, 4 * (i + 1))) {
      NumberInWindow(c, b, 4 * (i + 1));
    }
  }

  /** Once the last field can be sliced, the offset table is closed. */
  lemma LazyOffsetsOk(c: Cursor, b: Bytes)
    requires Window(c, b) && c.VerifyDynvec() && c.size != 4
    requires c.ItemCount().Some? && c.ItemCount().value > 0 && c.Slice(c.ItemCount().value - 1).Some?
    ensures OffsetsOk(b)
  {
    LazyHeader(c, b);
    var n := Molecule.ItemCount(b);
    forall i: nat | i < n ensures OffsetAt(b, i) <= OffsetAt(b, i + 1) {
      if i + 1 < n {
        assert c.OffsetNumber(i).value <= c.OffsetNumber(i + 1).value;
      } else {
        assert c.Slice(i).Some? && c.OffsetNumber(i).value <= c.Number().value;
      }
    }
  }

  /** Headed and snug bytes are accepted exactly. */
  lemma {:induction false} SnugIsExact(s: Schema, c: Cursor, b: Bytes)
    requires WellFormed(s) && Window(c, b) && Headed(s, c) && Snug(s, c)
    ensures Verify(s, b, false)
    decreases s
  {
    match s
    case Fixed(_) =>
    case ByteVec =>
      NumberOfWindow(c, b);
    case DynVec(item) =>
      NumberOfWindow(c, b);
      if c.size == 4 {
      } else {
        SnugVec(item, c, b);
        forall i: nat | i < Molecule.ItemCount(b) ensures Verify(item, Item(b, i), false) {
          SliceInWindow(c, b, i);
          SnugIsExact(item, c.Slice(i).value, Item(b, i));
        }
      }
    case Table(fields) =>
      SnugTable(fields, c, b);
      forall i: nat | i < |fields| ensures Verify(fields[i], Item(b, i), false) {
        SliceInWindow(c, b, i);
        SnugIsExact(fields[i], c.Slice(i).value, Item(b, i));
      }
  }

  lemma SnugVec(item: Schema, c: Cursor, b: Bytes)
    requires Window(c, b) && Headed(DynVec(item), c) && Snug(DynVec(item), c) && c.size != 4
    ensures OffsetsOk(b) && c.DynvecLength() == Some(Molecule.ItemCount(b))
  {
    LazyHeader(c, b);
    LazyLength(c, b);
    LazyOffsetsOk(c, b);
  }

  lemma LazyLength(c: Cursor, b: Bytes)
    requires Window(c, b) && |b| >= 8 && NumberAt(b, 4) % 4 == 0 && 8 <= NumberAt(b, 4) <= |b|
    ensures c.DynvecLength() == Some(Molecule.ItemCount(b))
  {
    var rest := Cursor(c.source, c.offset + 4, c.size - 4);
    SubWindow(c, b, 4, |b|);
    NumberOfWindow(rest, b[4..]);
    assert b[4..][0..4] == b[4..8];
    CountOfNumber(rest, NumberAt(b, 4));
  }

  lemma SnugTable(fields: seq<Schema>, c: Cursor, b: Bytes)
    requires fields != [] && Window(c, b) && Headed(Table(fields), c) && Snug(Table(fields), c)
    ensures OffsetsOk(b) && Molecule.ItemCount(b) == |fields|
  {
    LazyHeader(c, b);
    assert c.Slice(|fields| - 1).Some?;
    LazyOffsetsOk(c, b);
  }

  // ---------- what the lazy verifiers check ----------

  lemma ActionHeaded(c: Cursor)
    requires VerifyAction(c)
    ensures Headed(ActionSchema(), c)
  {}

  lemma LockSealHeaded(c: Cursor)
    requires VerifyLockSeal(c)
    ensures Headed(LockSealSchema(), c)
  {}

  lemma VecHeaded(item: Schema, p: Cursor -> bool, c: Cursor)
    requires VerifyVec(c, p) && forall d: Cursor | p(d) :: Headed(item, d)
    ensures Headed(DynVec(item), c)
  {}

  lemma MessageHeaded(c: Cursor)
    requires VerifyMessage(c)
    ensures Headed(MessageSchema(), c)
  {
    forall d: Cursor | VerifyAction(d) ensures Headed(ActionSchema(), d) {
      ActionHeaded(d);
    }
    VecHeaded(ActionSchema(), VerifyAction, c.Slice(0).value);
  }

  lemma SealsHeaded(c: Cursor)
    requires VerifyVec(c, VerifyLockSeal)
    ensures Headed(DynVec(LockSealSchema()), c)
  {
    forall d: Cursor | VerifyLockSeal(d) ensures Headed(LockSealSchema(), d) {
      LockSealHeaded(d);
    }
    VecHeaded(LockSealSchema(), VerifyLockSeal, c);
  }

  lemma TableHeaded(fields: seq<Schema>, c: Cursor)
    requires c.VerifyTable(|fields|)
    requires forall i: nat | i < |fields| && c.Slice(i).Some? :: Headed(fields[i], c.Slice(i).value)
    ensures Headed(Table(fields), c)
  {}

  lemma SegmentHeaded(c: Cursor)
    requires VerifyAppendSegment(c)
    ensures Headed(OtxAppendSegmentSchema(), c)
  {
    SealsHeaded(c.Slice(5).value);
    var fields := OtxAppendSegmentSchema().fields;
    forall i: nat | i < 6 && c.Slice(i).Some? ensures Headed(fields[i], c.Slice(i).value) {
      assert i != 5 ==> fields[i].Fixed?;
    }
    TableHeaded(fields, c);
  }

  lemma SegmentsHeaded(c: Cursor)
    requires VerifyVec(c, VerifyAppendSegment)
    ensures Headed(DynVec(OtxAppendSegmentSchema()), c)
  {
    forall d: Cursor | VerifyAppendSegment(d) ensures Headed(OtxAppendSegmentSchema(), d) {
      SegmentHeaded(d);
    }
    VecHeaded(OtxAppendSegmentSchema(), VerifyAppendSegment, c);
  }

  predicate Leaf(s: Schema) { s.Fixed? || s.ByteVec? }

  lemma OtxFieldShapes()
    ensures var fields := OtxSchema().fields;
            && |fields| == 12 && fields[0] == MessageSchema()
            && fields[10] == DynVec(OtxAppendSegmentSchema()) && fields[11] == DynVec(LockSealSchema())
            && forall i: nat | 0 < i < 10 :: Leaf(fields[i])
  {}

  lemma MixedTableHeaded(fields: seq<Schema>, c: Cursor)
    requires |fields| == 12 && c.VerifyTable(12)
    requires forall i: nat | 0 < i < 10 :: Leaf(fields[i])
    requires forall i: nat | (i == 0 || i == 10 || i == 11) && c.Slice(i).Some? :: Headed(fields[i], c.Slice(i).value)
    ensures Headed(Table(fields), c)
  {
    forall i: nat | i < 12 && c.Slice(i).Some? ensures Headed(fields[i], c.Slice(i).value) {
      if 0 < i < 10 {
        assert Leaf(fields[i]);
      }
    }
  }

  lemma OtxHeaded(c: Cursor)
    requires VerifyOtx(c)
    ensures Headed(OtxSchema(), c)
  {
    OtxFieldShapes();
    MessageHeaded(c.Slice(0).value);
    SegmentsHeaded(c.Slice(10).value);
    SealsHeaded(c.Slice(11).value);
    MixedTableHeaded(OtxSchema().fields, c);
  }

  lemma SighashAllHeaded(c: Cursor)
    requires VerifySighashAll(c)
    ensures Headed(SighashAllSchema(), c)
  {
    MessageHeaded(c.Slice(1).value);
  }

  /** The schema of a variant. */
  function SchemaOf(view: CobuildWitnessLayout): Schema {
    match view
    case SighashAll(_) => SighashAllSchema()
    case SighashAllOnly(_) => SighashAllOnlySchema()
    case Otx(_) => OtxSchema()
    case OtxStart(_) => OtxStartSchema()
  }

  lemma VerifiedIsHeaded(view: CobuildWitnessLayout)
    requires Verified(view)
    ensures Headed(SchemaOf(view), view.item) && WellFormed(SchemaOf(view))
  {
    SchemasWellFormed();
    match view
    case SighashAll(c) => SighashAllHeaded(c);
    case SighashAllOnly(_) =>
    case Otx(c) => OtxHeaded(c);
    case OtxStart(_) =>
  }

  // ---------- the two readers, witness by witness ----------

  /** For a variant the lazy reader verified, the codec accepts the same bytes exactly when they are snug. */
  lemma VariantAgreement(view: CobuildWitnessLayout)
    requires Verified(view) && view.item.InBounds()
    ensures Verify(SchemaOf(view), view.item.Content(), false) <==> Snug(SchemaOf(view), view.item)
  {
    VerifiedIsHeaded(view);
    var b := view.item.Content();
    if Verify(SchemaOf(view), b, false) {
      ExactIsSnug(SchemaOf(view), view.item, b);
    }
    if Snug(SchemaOf(view), view.item) {
      SnugIsExact(SchemaOf(view), view.item, b);
    }
  }

  lemma UnpackedUnion(w: Cursor)
    requires w.InBounds() && Unpacked(w).Some?
    ensures w.size >= 4 && ItemSchema(NumberAt(w.Content(), 0)) == Some(SchemaOf(Unpacked(w).value))
    ensures Window(Unpacked(w).value.item, w.Content()[4..])
  {
    NumberOfWindow(w, w.Content());
    SubWindow(w, w.Content(), 4, w.size);
  }

  /**
   * The readers compared.  The codec accepts a witness exactly if and only if the lazy reader recognises it and
   * every leaf of the recognised table is snug, down to actions, segments and seals.
   */
  lemma ReadersAgreeWhenSnug(w: Cursor)
    requires w.InBounds()
    ensures WitnessVerify(w.Content(), false)
       <==> FromCursor(w).Ok? && Snug(SchemaOf(FromCursor(w).value), FromCursor(w).value.item)
  {
    if WitnessVerify(w.Content(), false) {
      EncodedWitnessIsClassified(w, w.Content());
    }
    if FromCursor(w).Ok? {
      UnpackedUnion(w);
      VariantAgreement(FromCursor(w).value);
    }
  }

  // ---------- compatible mode ----------

  /** The lazy reader counts fields exactly, so compatible mode buys nothing on what it recognises. */
  lemma {:induction false} HeadedCompatibleIsExact(s: Schema, c: Cursor, b: Bytes)
    requires WellFormed(s) && Window(c, b) && Headed(s, c) && Verify(s, b, true)
    ensures Verify(s, b, false)
    decreases s
  {
    match s
    case Fixed(_) =>
    case ByteVec =>
    case DynVec(item) =>
      if |b| == 4 {
      } else {
        LengthInWindow(c, b);
        forall i: nat | i < Molecule.ItemCount(b) ensures Verify(item, Item(b, i), false) {
          SliceInWindow(c, b, i);
          HeadedCompatibleIsExact(item, c.Slice(i).value, Item(b, i));
        }
      }
    case Table(fields) =>
      CountInWindow(c, b);
      forall i: nat | i < |fields| ensures Verify(fields[i], Item(b, i), false) {
        SliceInWindow(c, b, i);
        HeadedCompatibleIsExact(fields[i], c.Slice(i).value, Item(b, i));
      }
  }

  /** So of a recognised witness the codec accepts in compatible mode just what it accepts exactly. */
  lemma CompatibleAddsNothing(w: Cursor)
    requires w.InBounds() && FromCursor(w).Ok?
    ensures WitnessVerify(w.Content(), true) <==> WitnessVerify(w.Content(), false)
  {
    UnpackedUnion(w);
    VerifiedIsHeaded(FromCursor(w).value);
    var s, item := SchemaOf(FromCursor(w).value), FromCursor(w).value.item;
    if WitnessVerify(w.Content(), true) {
      HeadedCompatibleIsExact(s, item, w.Content()[4..]);
    }
    if WitnessVerify(w.Content(), false) {
      ExactIsCompatible(s, w.Content()[4..]);
    }
  }

  // ---------- the ways they differ ----------

  /** Four fields of four bytes or more, printed as a table. */
  predicate WideStart(b: Bytes, parts: seq<Bytes>) {
    && |parts| == 4 && (forall i: nat | i < 4 :: |parts[i]| >= 4)
    && |Offsetted(parts)| < U32_LIMIT && b == Offsetted(parts)
  }

  lemma LongEnough(c: Cursor)
    requires c.Number().Some?
    ensures c.size >= 4
  {}

  lemma NumberRead(c: Cursor, i: nat)
    requires U32Field(c, i).Ok?
    ensures c.SliceNumber(i).Some?
  {}

  lemma StartFieldsRead(c: Cursor)
    requires OtxStartViewOf(c).Ok?
    ensures U32Field(c, 0).Ok? && U32Field(c, 1).Ok? && U32Field(c, 2).Ok? && U32Field(c, 3).Ok?
  {}

  lemma StartNumbers(c: Cursor)
    requires OtxStartViewOf(c).Ok?
    ensures c.SliceNumber(0).Some? && c.SliceNumber(1).Some? && c.SliceNumber(2).Some? && c.SliceNumber(3).Some?
  {
    StartFieldsRead(c);
    NumberRead(c, 0);
    NumberRead(c, 1);
    NumberRead(c, 2);
    NumberRead(c, 3);
  }

  /** Integers may be wider: a start is read exactly when it is a table of four fields of at least four bytes. */
  lemma StartIsReadIffWide(c: Cursor)
    requires c.InBounds()
    ensures VerifyOtxStart(c) && OtxStartViewOf(c).Ok? <==> exists parts :: WideStart(c.Content(), parts)
  {
    var b := c.Content();
    if VerifyOtxStart(c) && OtxStartViewOf(c).Ok? {
      StartNumbers(c);
      LazyHeader(c, b);
      assert c.SliceNumber(3).Some?;
      LazyOffsetsOk(c, b);
      JoinItems(b);
      PackOfNumberAt(b, 0);
      forall i: nat | i < 4 ensures |ItemsOf(b)[i]| >= 4 {
        SliceInWindow(c, b, i);
        assert c.SliceNumber(i).Some?;
        LongEnough(c.Slice(i).value);
      }
      assert WideStart(b, ItemsOf(b));
    }
    if parts :| WideStart(b, parts) {
      LazyReadsWiderIntegers(c, parts);
    }
  }

  lemma SlackField(c: Cursor, seal: Bytes, extra: Bytes)
    requires |seal| < U32_LIMIT && Window(c, PackNumber(|seal|) + seal + extra)
    ensures c.RawBytes().Some? && Window(c.RawBytes().value, seal)
    ensures Verify(ByteVec, PackNumber(|seal|) + seal + extra, false) <==> extra == []
    ensures Verify(ByteVec, PackNumber(|seal|) + seal + extra, true) <==> extra == []
  {
    var field := PackNumber(|seal|) + seal + extra;
    NumberOfPack(|seal|);
    NumberInside([], PackNumber(|seal|), seal + extra, 0);
    assert [] + PackNumber(|seal|) + (seal + extra) == field;
    NumberOfWindow(c, field);
    assert field[4..4 + |seal|] == seal;
    SubWindow(c, field, 4, 4 + |seal|);
  }

  /** Byte vectors may carry slack: a seal followed by other bytes in its field is read as if they were not there. */
  lemma SealSlackIsRead(c: Cursor, seal: Bytes, extra: Bytes)
    requires |Offsetted([PackNumber(|seal|) + seal + extra])| < U32_LIMIT
    requires Window(c, Offsetted([PackNumber(|seal|) + seal + extra]))
    ensures VerifySighashAllOnly(c) && SummarizeCobuild(SighashAllOnly(c)).Ok?
    ensures Window(SummarizeCobuild(SighashAllOnly(c)).value.seal, seal)
    ensures Verify(SighashAllOnlySchema(), c.Content(), false) <==> extra == []
    ensures Verify(SighashAllOnlySchema(), c.Content(), true) <==> extra == []
  {
    var field := PackNumber(|seal|) + seal + extra;
    var b := Offsetted([field]);
    SplitOffsetted([field]);
    assert Item(b, 0) == field;
    OffsetsAccepted(c, b);
    SliceInWindow(c, b, 0);
    PartFits([field], 0);
    SlackField(c.Slice(0).value, seal, extra);
    OneFieldTable(b);
  }

  lemma OneFieldTable(b: Bytes)
    requires OffsetsOk(b) && Molecule.ItemCount(b) == 1
    ensures Verify(SighashAllOnlySchema(), b, false) <==> Verify(ByteVec, Item(b, 0), false)
    ensures Verify(SighashAllOnlySchema(), b, true) <==> Verify(ByteVec, Item(b, 0), true)
  {}

  /** An action's role and data are not looked at until actions are parsed: they may be anything. */
  lemma ActionRoleAndDataUnread(c: Cursor, info: Hash32, role: Bytes, hash: Hash32, data: Bytes)
    requires |Offsetted([info, role, hash, data])| < U32_LIMIT && Window(c, Offsetted([info, role, hash, data]))
    ensures VerifyAction(c)
    ensures Verify(ActionSchema(), c.Content(), false)
            <==> |role| == 1 && |data| >= 4 && |data| == 4 + NumberAt(data, 0)
  {
    var parts := [info, role, hash, data];
    var b := Offsetted(parts);
    SplitOffsetted(parts);
    assert Item(b, 0) == info && Item(b, 1) == role && Item(b, 2) == hash && Item(b, 3) == data;
    OffsetsAccepted(c, b);
    SliceInWindow(c, b, 0);
    SliceInWindow(c, b, 2);
    HashAccepted(c.Slice(0).value, info);
    HashAccepted(c.Slice(2).value, hash);
    ActionSizes(b);
  }

  lemma ActionSizes(b: Bytes)
    requires OffsetsOk(b) && Molecule.ItemCount(b) == 4 && |Item(b, 0)| == 32 && |Item(b, 2)| == 32
    ensures Verify(ActionSchema(), b, false) <==> |Item(b, 1)| == 1 && Verify(ByteVec, Item(b, 3), false)
  {
    var fields := ActionSchema().fields;
    assert Verify(fields[0], Item(b, 0), false) && Verify(fields[2], Item(b, 2), false);
    assert Verify(fields[1], Item(b, 1), false) <==> |Item(b, 1)| == 1;
    assert Verify(fields[3], Item(b, 3), false) <==> Verify(ByteVec, Item(b, 3), false);
  }

  /** An action table that ends behind the role: its last offset points 32 bytes past the total size. */
  predicate CutAction(b: Bytes) {
    && |b| >= 52 && NumberAt(b, 0) == |b|
    && NumberAt(b, 4) == 20 && NumberAt(b, 8) == 52 && NumberAt(b, 12) == |b| && NumberAt(b, 16) == |b| + 32
  }

  lemma CutOffsets(c: Cursor, b: Bytes)
    requires Window(c, b) && CutAction(b)
    ensures c.Number() == Some(|b|) && c.At(4).Number() == Some(20) && c.ItemCount() == Some(4)
    ensures c.OffsetNumber(0) == Some(20) && c.OffsetNumber(1) == Some(52)
    ensures c.OffsetNumber(2) == Some(|b|) && c.OffsetNumber(3) == Some(|b| + 32)
  {
    NumberOfWindow(c, b);
    NumberInWindow(c, b, 4);
    NumberInWindow(c, b, 8);
    NumberInWindow(c, b, 12);
    NumberInWindow(c, b, 16);
  }

  /** The scan accepts it and takes the script hash from the bytes behind the table; only its data cannot be read. */
  lemma ActionPastItsTable(c: Cursor, b: Bytes)
    requires Window(c, b) && CutAction(b) && c.offset + c.size + 32 <= |c.source|
    ensures VerifyAction(c)
    ensures c.SliceHash(2) == Some(c.source[c.offset + c.size..c.offset + c.size + 32])
    ensures c.Slice(3).None?
    ensures !Verify(ActionSchema(), b, false) && !Verify(ActionSchema(), b, true)
  {
    CutOffsets(c, b);
    CutSlices(c, b);
    CutIsRefused(b);
    assert c.VerifyTable(4);
  }

  lemma CutSlices(c: Cursor, b: Bytes)
    requires Window(c, b) && CutAction(b) && c.offset + c.size + 32 <= |c.source|
    ensures c.SliceHash(0).Some? && c.Slice(3).None?
    ensures c.SliceHash(2) == Some(c.source[c.offset + c.size..c.offset + c.size + 32])
  {
    CutOffsets(c, b);
    assert c.Slice(0) == Some(Cursor(c.source, c.offset + 20, 32));
    assert c.Slice(2) == Some(Cursor(c.source, c.offset + c.size, 32));
  }

  lemma CutIsRefused(b: Bytes)
    requires CutAction(b)
    ensures !OffsetsOk(b)
  {
    assert Molecule.ItemCount(b) == 4;
    assert Molecule.OffsetAt(b, 3) > Molecule.OffsetAt(b, 4);
  }
}
