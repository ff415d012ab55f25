/** Field by field, the lazy views of exactly encoded bytes are the entities those bytes encode. */
module EntityViews {
  import opened Base
  import opened Molecule
  import opened Entity
  import opened LazyReader
  import opened View
  import opened LazyCodec

  /** The items of a dynamic vector. */
  function VecItemsOf(b: Bytes): seq<Bytes>
    requires |b| == 4 || OffsetsOk(b)
  {
    if |b| == 4 then [] else ItemsOf(b)
  }

  lemma VecWindows(c: Cursor, item: Schema, b: Bytes)
    requires Window(c, b) && Verify(DynVec(item), b, false)
    ensures c.DynvecLength() == Some(|VecItemsOf(b)|)
    ensures forall i: nat | i < |VecItemsOf(b)| ::
              c.Slice(i).Some? && Window(c.Slice(i).value, VecItemsOf(b)[i]) && Verify(item, VecItemsOf(b)[i], false)
  {
    if |b| != 4 {
      LengthInWindow(c, b);
      forall i: nat | i < Molecule.ItemCount(b) ensures c.Slice(i).Some? && Window(c.Slice(i).value, Item(b, i)) {
        SliceInWindow(c, b, i);
      }
    }
  }

  lemma {:induction false} CollectAll<T>(f: nat -> Result<T>, n: nat)
    requires forall i: nat | i < n :: f(i).Ok?
    ensures Collect(f, n).Ok?
  {
    if n == 0 {
    } else {
      CollectAll(f, n - 1);
    }
  }

  /** A collection succeeds exactly when every element does, and reports their common error otherwise. */
  lemma CollectVerdict<T>(f: nat -> Result<T>, n: nat, ok: nat -> bool, error: CoreError)
    requires forall i: nat | i < n :: f(i).Ok? == ok(i) && (f(i).Err? ==> f(i).error == error)
    ensures Collect(f, n).Ok? <==> forall i: nat | i < n :: ok(i)
    ensures Collect(f, n).Err? ==> Collect(f, n).error == error
  {
    if forall i: nat | i < n :: ok(i) {
      CollectAll(f, n);
    }
  }

  /** A vector is read item by item. */
  lemma CollectReads<T>(f: nat -> Result<T>, items: seq<Bytes>, isRead: (Bytes, T) -> bool)
    requires forall i: nat | i < |items| :: f(i).Ok? && isRead(items[i], f(i).value)
    ensures Collect(f, |items|).Ok?
    ensures forall i: nat | i < |items| :: isRead(items[i], Collect(f, |items|).value[i])
  {
    CollectAll(f, |items|);
    assert forall i: nat | i < |items| :: f(i) == Ok(Collect(f, |items|).value[i]);
  }

  // ---------- seals ----------

  predicate ReadsSeal(b: Bytes, v: LockSealView) {
    && OffsetsOk(b) && Molecule.ItemCount(b) == 2
    && v.scriptHash == Item(b, 0)
    && |Item(b, 1)| >= 4 && Window(v.seal, Item(b, 1)[4..])
  }

  predicate ReadsSeals(b: Bytes, vs: seq<LockSealView>) {
    && (|b| == 4 || OffsetsOk(b))
    && |vs| == |VecItemsOf(b)|
    && forall i: nat | i < |vs| :: ReadsSeal(VecItemsOf(b)[i], vs[i])
  }

  lemma LockSealRead(c: Cursor, b: Bytes)
    requires Window(c, b) && Verify(LockSealSchema(), b, false)
    ensures LockSealOf(c).Ok? && ReadsSeal(b, LockSealOf(c).value)
  {
    FieldAccepted(c, b, LockSealSchema().fields, 0, BYTE32);
    HashAccepted(c.Slice(0).value, Item(b, 0));
    FieldAccepted(c, b, LockSealSchema().fields, 1, ByteVec);
    RawAccepted(c.Slice(1).value, Item(b, 1));
  }

  lemma LockSealsRead(c: Cursor, b: Bytes)
    requires Window(c, b) && Verify(DynVec(LockSealSchema()), b, false)
    ensures LockSeals(c).Ok? && ReadsSeals(b, LockSeals(c).value)
  {
    VecWindows(c, LockSealSchema(), b);
    var f, n := LockSealAt(c), |VecItemsOf(b)|;
    forall i: nat | i < n ensures f(i).Ok? && ReadsSeal(VecItemsOf(b)[i], f(i).value) {
      LockSealRead(c.Slice(i).value, VecItemsOf(b)[i]);
    }
    CollectReads(f, VecItemsOf(b), ReadsSeal);
  }

  // ---------- append segments ----------

  predicate ReadsNumber(b: Bytes, i: nat, n: nat)
    requires OffsetsOk(b)
  {
    i < Molecule.ItemCount(b) && |Item(b, i)| == 4 && n == NumberAt(Item(b, i), 0)
  }

  predicate ReadsSegment(b: Bytes, v: OtxAppendSegmentView) {
    && OffsetsOk(b) && Molecule.ItemCount(b) == 6
    && Item(b, 0) == [v.segmentFlags]
    && ReadsNumber(b, 1, v.inputCells) && ReadsNumber(b, 2, v.outputCells)
    && ReadsNumber(b, 3, v.cellDeps) && ReadsNumber(b, 4, v.headerDeps)
    && ReadsSeals(Item(b, 5), v.seals)
  }

  predicate ReadsSegments(b: Bytes, vs: seq<OtxAppendSegmentView>) {
    && (|b| == 4 || OffsetsOk(b))
    && |vs| == |VecItemsOf(b)|
    && forall i: nat | i < |vs| :: ReadsSegment(VecItemsOf(b)[i], vs[i])
  }

  lemma SegmentNumberRead(c: Cursor, b: Bytes, i: nat)
    requires Window(c, b) && Verify(OtxAppendSegmentSchema(), b, false) && 1 <= i <= 4
    ensures U32Field(c, i).Ok? && ReadsNumber(b, i, U32Field(c, i).value)
  {
    NumberFieldAccepted(c, b, OtxAppendSegmentSchema().fields, i);
  }

  lemma SegmentEndsRead(c: Cursor, b: Bytes)
    requires Window(c, b) && Verify(OtxAppendSegmentSchema(), b, false)
    ensures Molecule.ItemCount(b) == 6 && c.SliceByte(0).Some? && Item(b, 0) == [c.SliceByte(0).value]
    ensures c.Slice(5).Some? && LockSeals(c.Slice(5).value).Ok?
            && ReadsSeals(Item(b, 5), LockSeals(c.Slice(5).value).value)
  {
    FieldAccepted(c, b, OtxAppendSegmentSchema().fields, 0, BYTE);
    ByteAccepted(c.Slice(0).value, Item(b, 0));
    FieldAccepted(c, b, OtxAppendSegmentSchema().fields, 5, DynVec(LockSealSchema()));
    LockSealsRead(c.Slice(5).value, Item(b, 5));
  }

  lemma SegmentOfFields(c: Cursor)
    requires c.Slice(5).Some? && LockSeals(c.Slice(5).value).Ok? && c.SliceByte(0).Some?
    requires U32Field(c, 1).Ok? && U32Field(c, 2).Ok? && U32Field(c, 3).Ok? && U32Field(c, 4).Ok?
    ensures AppendSegmentOf(c) == Ok(OtxAppendSegmentView(
              c.SliceByte(0).value, U32Field(c, 1).value, U32Field(c, 2).value, U32Field(c, 3).value,
              U32Field(c, 4).value,
              LockSeals(c.Slice(5).value).value))
  {}

  lemma SegmentRead(c: Cursor, b: Bytes)
    requires Window(c, b) && Verify(OtxAppendSegmentSchema(), b, false)
    ensures AppendSegmentOf(c).Ok? && ReadsSegment(b, AppendSegmentOf(c).value)
  {
    SegmentEndsRead(c, b);
    SegmentNumberRead(c, b, 1);
    SegmentNumberRead(c, b, 2);
    SegmentNumberRead(c, b, 3);
    SegmentNumberRead(c, b, 4);
    SegmentOfFields(c);
  }

  lemma SegmentAtRead(c: Cursor, i: nat, item: Bytes)
    requires c.Slice(i).Some? && Window(c.Slice(i).value, item) && Verify(OtxAppendSegmentSchema(), item, false)
    ensures AppendSegmentAt(c)(i).Ok? && ReadsSegment(item, AppendSegmentAt(c)(i).value)
  {
    SegmentRead(c.Slice(i).value, item);
  }

  lemma SegmentsRead(c: Cursor, b: Bytes)
    requires Window(c, b) && Verify(DynVec(OtxAppendSegmentSchema()), b, false)
    ensures AppendSegments(c).Ok? && ReadsSegments(b, AppendSegments(c).value)
  {
    VecWindows(c, OtxAppendSegmentSchema(), b);
    var f, n := AppendSegmentAt(c), |VecItemsOf(b)|;
    forall i: nat | i < n ensures f(i).Ok? && ReadsSegment(VecItemsOf(b)[i], f(i).value) {
      SegmentAtRead(c, i, VecItemsOf(b)[i]);
    }
    CollectReads(f, VecItemsOf(b), ReadsSegment);
  }

  // ---------- the OTX ----------

  /** Every field of the view is the entity's: the scalar ones, the segments and the base seals. */
  predicate ReadsWholeOtx(b: Bytes, v: OtxView) {
    && OffsetsOk(b) && ReadsOtx(b, v)
    && ReadsSegments(Item(b, 10), v.appendSegments)
    && ReadsSeals(Item(b, 11), v.baseSeals)
  }

  lemma OtxSealsParsed(c: Cursor)
    requires OtxViewOf(c).Ok?
    ensures c.Slice(11).Some? && LockSeals(c.Slice(11).value) == Ok(OtxViewOf(c).value.baseSeals)
  {}

  lemma OtxVectorsRead(c: Cursor, b: Bytes)
    requires Window(c, b) && Verify(OtxSchema(), b, false) && Molecule.ItemCount(b) == 12
    ensures c.Slice(10).Some? && AppendSegments(c.Slice(10).value).Ok?
    ensures ReadsSegments(Item(b, 10), AppendSegments(c.Slice(10).value).value)
    ensures c.Slice(11).Some? && LockSeals(c.Slice(11).value).Ok?
    ensures ReadsSeals(Item(b, 11), LockSeals(c.Slice(11).value).value)
  {
    FieldAccepted(c, b, OtxSchema().fields, 10, DynVec(OtxAppendSegmentSchema()));
    SegmentsRead(c.Slice(10).value, Item(b, 10));
    FieldAccepted(c, b, OtxSchema().fields, 11, DynVec(LockSealSchema()));
    LockSealsRead(c.Slice(11).value, Item(b, 11));
  }

  /** The planner's view of an exactly encoded OTX is the whole entity. */
  lemma OtxViewIsEntity(c: Cursor, b: Bytes)
    requires Window(c, b) && Verify(OtxSchema(), b, false)
    ensures VerifyOtx(c) && OtxViewOf(c).Ok? && ReadsWholeOtx(b, OtxViewOf(c).value)
  {
    OtxAgrees(c, b);
    OtxVectorsRead(c, b);
    OtxSealsParsed(c);
  }

  // ---------- actions ----------

  predicate ReadsAction(b: Bytes, index: nat, v: ActionView) {
    && OffsetsOk(b) && Molecule.ItemCount(b) == 4
    && v.index == index
    && v.scriptInfoHash == Item(b, 0)
    && |Item(b, 1)| == 1 && ScriptRoleOf(Item(b, 1)[0]) == Ok(v.scriptRole)
    && v.scriptHash == Item(b, 2)
    && |Item(b, 3)| >= 4 && Window(v.data, Item(b, 3)[4..])
  }

  /** The role byte of an encoded action. */
  predicate KnownRole(b: Bytes) {
    OffsetsOk(b) && Molecule.ItemCount(b) > 1 && |Item(b, 1)| == 1 && ScriptRoleOf(Item(b, 1)[0]).Ok?
  }

  /** The action is read, or its role byte is unknown and reported. */
  predicate ReadsOrRefuses(b: Bytes, index: nat, r: Result<ActionView>) {
    match r
    case Ok(v) => KnownRole(b) && ReadsAction(b, index, v)
    case Err(e) => !KnownRole(b) && e == InvalidMessageTarget
  }

  lemma ActionFieldsRead(c: Cursor, b: Bytes)
    requires Window(c, b) && Verify(ActionSchema(), b, false)
    ensures Molecule.ItemCount(b) == 4 && |Item(b, 1)| == 1 && |Item(b, 3)| >= 4
    ensures c.SliceHash(0) == Some(Item(b, 0)) && c.SliceByte(1) == Some(Item(b, 1)[0])
            && c.SliceHash(2) == Some(Item(b, 2))
    ensures c.SliceRaw(3).Some? && Window(c.SliceRaw(3).value, Item(b, 3)[4..])
  {
    FieldAccepted(c, b, ActionSchema().fields, 0, BYTE32);
    HashAccepted(c.Slice(0).value, Item(b, 0));
    FieldAccepted(c, b, ActionSchema().fields, 1, BYTE);
    ByteAccepted(c.Slice(1).value, Item(b, 1));
    FieldAccepted(c, b, ActionSchema().fields, 2, BYTE32);
    HashAccepted(c.Slice(2).value, Item(b, 2));
    FieldAccepted(c, b, ActionSchema().fields, 3, ByteVec);
    RawAccepted(c.Slice(3).value, Item(b, 3));
  }

  lemma ActionRead(index: nat, c: Cursor, b: Bytes)
    requires Window(c, b) && Verify(ActionSchema(), b, false)
    ensures ReadsOrRefuses(b, index, ActionOf(index, c))
  {
    ActionFieldsRead(c, b);
  }

  /** The encoded actions of a message. */
  function ActionItems(b: Bytes): seq<Bytes>
    requires Verify(MessageSchema(), b, false)
  {
    assert Verify(MessageSchema().fields[0], Item(b, 0), false);
    VecItemsOf(Item(b, 0))
  }

  /** All actions are read, in order, or some role byte is unknown and reported. */
  predicate ReadsActions(items: seq<Bytes>, r: Result<seq<ActionView>>) {
    && (r.Ok? <==> forall i: nat | i < |items| :: KnownRole(items[i]))
    && (r.Ok? ==> |r.value| == |items| && forall i: nat | i < |items| :: ReadsAction(items[i], i, r.value[i]))
    && (r.Err? ==> r.error == InvalidMessageTarget)
  }

  lemma CollectedActions(items: seq<Bytes>, f: nat -> Result<ActionView>)
    requires forall i: nat | i < |items| :: ReadsOrRefuses(items[i], i, f(i))
    ensures ReadsActions(items, Collect(f, |items|))
  {
    var known := (i: nat) => i < |items| && KnownRole(items[i]);
    CollectVerdict(f, |items|, known, InvalidMessageTarget);
    assert (forall i: nat | i < |items| :: known(i)) <==> forall i: nat | i < |items| :: KnownRole(items[i]);
    forall i: nat | i < |items| && Collect(f, |items|).Ok?
      ensures ReadsAction(items[i], i, Collect(f, |items|).value[i])
    {
      assert ReadsOrRefuses(items[i], i, f(i)) && f(i) == Ok(Collect(f, |items|).value[i]);
    }
  }

  lemma ActionsRead(c: Cursor, b: Bytes)
    requires Window(c, b) && Verify(DynVec(ActionSchema()), b, false)
    ensures c.DynvecLength() == Some(|VecItemsOf(b)|)
    ensures ReadsActions(VecItemsOf(b), Collect(ActionAt(c), |VecItemsOf(b)|))
  {
    VecWindows(c, ActionSchema(), b);
    var f, items := ActionAt(c), VecItemsOf(b);
    forall i: nat | i < |items| ensures ReadsOrRefuses(items[i], i, f(i)) {
      ActionRead(i, c.Slice(i).value, items[i]);
    }
    CollectedActions(items, f);
  }

  lemma MessageActionsCollect(c: Cursor, n: nat)
    requires c.Slice(0).Some? && c.Slice(0).value.DynvecLength() == Some(n)
    ensures MessageActions(c) == Collect(ActionAt(c.Slice(0).value), n)
  {}

  /**
   * Parsing the actions of an exactly encoded message succeeds exactly when every role byte is known, fails with
   * InvalidMessageTarget otherwise, and yields the entity's own actions.
   */
  lemma MessageActionsAreEntity(c: Cursor, b: Bytes)
    requires Window(c, b) && Verify(MessageSchema(), b, false)
    ensures ReadsActions(ActionItems(b), MessageActions(c))
  {
    FieldAccepted(c, b, MessageSchema().fields, 0, DynVec(ActionSchema()));
    ActionsRead(c.Slice(0).value, Item(b, 0));
    MessageActionsCollect(c, |ActionItems(b)|);
  }
}
