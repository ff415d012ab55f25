/**
 * What the generated lazy verifiers check, for every schema at once: sound headers all the way down, every vector item
 * and every table with parts in it reachable, and 32-byte fields of that size.  Nothing else.
 */
module LazyVerify {
  import opened Base
  import opened Molecule
  import opened Entity
  import opened LazyReader
  import opened View
  import opened LazyCodec
  import opened LazyExact
  import opened PlanSuccess

  /** Fields the verifiers look into: hashes, vectors and tables, but neither numbers nor byte vectors. */
  predicate Looked(s: Schema) { s == BYTE32 || s.DynVec? || s.Table? }

  predicate Checks(s: Schema, c: Cursor)
    decreases s
  {
    match s
    case Fixed(n) => n == 32 ==> c.Hash().Some?
    case ByteVec => true
    case DynVec(item) =>
      && c.VerifyDynvec()
      && c.DynvecLength().Some?
      && forall i: nat | i < c.DynvecLength().value :: c.Slice(i).Some? && Checks(item, c.Slice(i).value)
    case Table(fields) =>
      && c.VerifyTable(|fields|)
      && forall i: nat | i < |fields| && Looked(fields[i]) :: c.Slice(i).Some? && Checks(fields[i], c.Slice(i).value)
  }

  /** Field `i` is reachable and checked. */
  predicate FieldChecks(s: Schema, c: Cursor, i: nat) { c.Slice(i).Some? && Checks(s, c.Slice(i).value) }

  /** A table is checked by its header and its looked-at fields, which are those listed. */
  lemma TableChecks(fields: seq<Schema>, c: Cursor, looked: set<nat>)
    requires forall i: nat | i < |fields| :: Looked(fields[i]) <==> i in looked
    requires forall i | i in looked :: i < |fields|
    ensures Checks(Table(fields), c)
       <==> c.VerifyTable(|fields|) && forall i | i in looked :: FieldChecks(fields[i], c, i)
  {
    if Checks(Table(fields), c) {
      forall i | i in looked ensures FieldChecks(fields[i], c, i) {
        assert Looked(fields[i]);
      }
    }
  }

  lemma ActionExactly(c: Cursor)
    ensures VerifyAction(c) <==> Checks(ActionSchema(), c)
  {
    var fields := ActionSchema().fields;
    TableChecks(fields, c, {0, 2});
    assert FieldChecks(fields[0], c, 0) <==> c.SliceHash(0).Some?;
    assert FieldChecks(fields[2], c, 2) <==> c.SliceHash(2).Some?;
  }

  lemma LockSealExactly(c: Cursor)
    ensures VerifyLockSeal(c) <==> Checks(LockSealSchema(), c)
  {
    var fields := LockSealSchema().fields;
    TableChecks(fields, c, {0});
    assert FieldChecks(fields[0], c, 0) <==> c.SliceHash(0).Some?;
  }

  lemma VecExactly(item: Schema, p: Cursor -> bool, c: Cursor)
    requires forall d: Cursor :: p(d) <==> Checks(item, d)
    ensures VerifyVec(c, p) <==> Checks(DynVec(item), c)
  {}

  lemma ActionsExactly(c: Cursor)
    ensures VerifyVec(c, VerifyAction) <==> Checks(DynVec(ActionSchema()), c)
  {
    forall d: Cursor ensures VerifyAction(d) <==> Checks(ActionSchema(), d) {
      ActionExactly(d);
    }
    VecExactly(ActionSchema(), VerifyAction, c);
  }

  lemma SealsExactly(c: Cursor)
    ensures VerifyVec(c, VerifyLockSeal) <==> Checks(DynVec(LockSealSchema()), c)
  {
    forall d: Cursor ensures VerifyLockSeal(d) <==> Checks(LockSealSchema(), d) {
      LockSealExactly(d);
    }
    VecExactly(LockSealSchema(), VerifyLockSeal, c);
  }

  lemma MessageExactly(c: Cursor)
    ensures VerifyMessage(c) <==> Checks(MessageSchema(), c)
  {
    TableChecks(MessageSchema().fields, c, {0});
    if c.Slice(0).Some? {
      ActionsExactly(c.Slice(0).value);
    }
    assert FieldChecks(MessageSchema().fields[0], c, 0) <==>
             c.Slice(0).Some? && VerifyVec(c.Slice(0).value, VerifyAction);
  }

  lemma SegmentExactly(c: Cursor)
    ensures VerifyAppendSegment(c) <==> Checks(OtxAppendSegmentSchema(), c)
  {
    var fields := OtxAppendSegmentSchema().fields;
    TableChecks(fields, c, {5});
    if c.Slice(5).Some? {
      SealsExactly(c.Slice(5).value);
    }
    assert FieldChecks(fields[5], c, 5) <==> c.Slice(5).Some? && VerifyVec(c.Slice(5).value, VerifyLockSeal);
  }

  lemma SegmentsExactly(c: Cursor)
    ensures VerifyVec(c, VerifyAppendSegment) <==> Checks(DynVec(OtxAppendSegmentSchema()), c)
  {
    forall d: Cursor ensures VerifyAppendSegment(d) <==> Checks(OtxAppendSegmentSchema(), d) {
      SegmentExactly(d);
    }
    VecExactly(OtxAppendSegmentSchema(), VerifyAppendSegment, c);
  }

  lemma OtxExactly(c: Cursor)
    ensures VerifyOtx(c) <==> Checks(OtxSchema(), c)
  {
    var fields := OtxSchema().fields;
    OtxFieldShapes();
    forall i: nat | i < 12 ensures Looked(fields[i]) <==> i in {0, 10, 11} {
      if 0 < i < 10 {
        assert Leaf(fields[i]);
        OtxLeaves(i);
      }
    }
    TableChecks(fields, c, {0, 10, 11});
    OtxParts(c);
  }

  lemma OtxLeaves(i: nat)
    requires 0 < i < 10
    ensures OtxSchema().fields[i] != BYTE32
  {}

  lemma OtxParts(c: Cursor)
    ensures FieldChecks(MessageSchema(), c, 0) <==> c.Slice(0).Some? && VerifyMessage(c.Slice(0).value)
    ensures FieldChecks(DynVec(OtxAppendSegmentSchema()), c, 10)
       <==> c.Slice(10).Some? && VerifyVec(c.Slice(10).value, VerifyAppendSegment)
    ensures FieldChecks(DynVec(LockSealSchema()), c, 11)
       <==> c.Slice(11).Some? && VerifyVec(c.Slice(11).value, VerifyLockSeal)
  {
    if c.Slice(0).Some? {
      MessageExactly(c.Slice(0).value);
    }
    if c.Slice(10).Some? {
      SegmentsExactly(c.Slice(10).value);
    }
    if c.Slice(11).Some? {
      SealsExactly(c.Slice(11).value);
    }
  }

  lemma SighashAllExactly(c: Cursor)
    ensures VerifySighashAll(c) <==> Checks(SighashAllSchema(), c)
  {
    var fields := SighashAllSchema().fields;
    TableChecks(fields, c, {1});
    if c.Slice(1).Some? {
      MessageExactly(c.Slice(1).value);
    }
    assert FieldChecks(fields[1], c, 1) <==> c.Slice(1).Some? && VerifyMessage(c.Slice(1).value);
  }

  lemma FlatExactly(c: Cursor)
    ensures VerifySighashAllOnly(c) <==> Checks(SighashAllOnlySchema(), c)
    ensures VerifyOtxStart(c) <==> Checks(OtxStartSchema(), c)
  {
    TableChecks(SighashAllOnlySchema().fields, c, {});
    TableChecks(OtxStartSchema().fields, c, {});
  }

  /** Every generated verifier is the one generic check of its schema. */
  lemma VerifiedExactly(view: CobuildWitnessLayout)
    ensures Verified(view) <==> Checks(SchemaOf(view), view.item)
  {
    match view
    case SighashAll(c) => SighashAllExactly(c);
    case SighashAllOnly(c) => FlatExactly(c);
    case Otx(c) => OtxExactly(c);
    case OtxStart(c) => FlatExactly(c);
  }

  // ---------- what the parsers need ----------

  /**
   * Every leaf under the cursor can be reached and has at least the bytes its type needs; hashes have exactly
   * those.
   */
  predicate Reads(s: Schema, c: Cursor)
    decreases s
  {
    match s
    case Fixed(n) => if n == 32 then c.Hash().Some? else if n == 1 then c.Byte().Some? else c.Number().Some?
    case ByteVec => c.RawBytes().Some?
    case DynVec(item) =>
      && c.DynvecLength().Some?
      && forall i: nat | i < c.DynvecLength().value :: c.Slice(i).Some? && Reads(item, c.Slice(i).value)
    case Table(fields) => forall i: nat | i < |fields| :: c.Slice(i).Some? && Reads(fields[i], c.Slice(i).value)
  }

  predicate FieldReads(s: Schema, c: Cursor, i: nat) { c.Slice(i).Some? && Reads(s, c.Slice(i).value) }

  function FieldRead(fields: seq<Schema>, c: Cursor): nat -> bool {
    (i: nat) => i < |fields| && FieldReads(fields[i], c, i)
  }

  lemma TableReads(fields: seq<Schema>, c: Cursor)
    ensures Reads(Table(fields), c) <==> forall i: nat | i < |fields| :: FieldRead(fields, c)(i)
  {
    if forall i: nat | i < |fields| :: FieldRead(fields, c)(i) {
      forall i: nat | i < |fields| ensures c.Slice(i).Some? && Reads(fields[i], c.Slice(i).value) {
        assert FieldRead(fields, c)(i);
      }
    }
  }

  lemma UpToTwo(p: nat -> bool)
    ensures (forall i: nat | i < 2 :: p(i)) <==> p(0) && p(1)
  {}

  lemma UpToFour(p: nat -> bool)
    ensures (forall i: nat | i < 4 :: p(i)) <==> p(0) && p(1) && p(2) && p(3)
  {}

  lemma UpToSix(p: nat -> bool)
    ensures (forall i: nat | i < 6 :: p(i)) <==> p(0) && p(1) && p(2) && p(3) && p(4) && p(5)
  {}

  /** Inside its source a leaf is readable exactly when it is wide enough. */
  lemma LeafReads(c: Cursor)
    requires c.InBounds()
    ensures Reads(BYTE, c) <==> c.size >= 1
    ensures Reads(UINT32, c) <==> c.size >= 4
    ensures Reads(BYTE32, c) <==> c.size == 32
    ensures Reads(ByteVec, c) <==> c.size >= 4 && 4 + NumberAt(c.Content(), 0) <= c.size
  {
    if c.size >= 4 {
      NumberOfWindow(c, c.Content());
    }
  }

  lemma LeafFields(c: Cursor, i: nat)
    ensures FieldReads(BYTE, c, i) <==> c.SliceByte(i).Some?
    ensures FieldReads(UINT32, c, i) <==> c.SliceNumber(i).Some?
    ensures FieldReads(BYTE32, c, i) <==> c.SliceHash(i).Some?
    ensures FieldReads(ByteVec, c, i) <==> c.SliceRaw(i).Some?
  {}

  lemma SealReads(c: Cursor)
    ensures LockSealOf(c).Ok? <==> Reads(LockSealSchema(), c)
  {
    var fields := LockSealSchema().fields;
    TableReads(fields, c);
    UpToTwo(FieldRead(fields, c));
    LeafFields(c, 0);
    LeafFields(c, 1);
  }

  lemma SealsRead(c: Cursor)
    ensures LockSeals(c).Ok? <==> Reads(DynVec(LockSealSchema()), c)
  {
    if c.DynvecLength().Some? {
      CollectSucceeds(LockSealAt(c), c.DynvecLength().value);
      forall i: nat | i < c.DynvecLength().value
        ensures LockSealAt(c)(i).Ok? <==> c.Slice(i).Some? && Reads(LockSealSchema(), c.Slice(i).value)
      {
        if c.Slice(i).Some? {
          SealReads(c.Slice(i).value);
        }
      }
    }
  }

  lemma SegmentFieldsRead(c: Cursor)
    ensures Reads(OtxAppendSegmentSchema(), c) <==>
              && c.SliceByte(0).Some? && c.SliceNumber(1).Some? && c.SliceNumber(2).Some?
              && c.SliceNumber(3).Some? && c.SliceNumber(4).Some?
              && FieldReads(DynVec(LockSealSchema()), c, 5)
  {
    var fields := OtxAppendSegmentSchema().fields;
    TableReads(fields, c);
    UpToSix(FieldRead(fields, c));
    LeafFields(c, 0);
    LeafFields(c, 1);
    LeafFields(c, 2);
    LeafFields(c, 3);
    LeafFields(c, 4);
  }

  lemma SegmentReads(c: Cursor)
    ensures AppendSegmentOf(c).Ok? <==> Reads(OtxAppendSegmentSchema(), c)
  {
    SegmentFieldsRead(c);
    if c.Slice(5).Some? {
      SealsRead(c.Slice(5).value);
    }
  }

  lemma SegmentsRead(c: Cursor)
    ensures AppendSegments(c).Ok? <==> Reads(DynVec(OtxAppendSegmentSchema()), c)
  {
    if c.DynvecLength().Some? {
      CollectSucceeds(AppendSegmentAt(c), c.DynvecLength().value);
      forall i: nat | i < c.DynvecLength().value
        ensures AppendSegmentAt(c)(i).Ok? <==> c.Slice(i).Some? && Reads(OtxAppendSegmentSchema(), c.Slice(i).value)
      {
        if c.Slice(i).Some? {
          SegmentReads(c.Slice(i).value);
        }
      }
    }
  }

  /** A number with the mask behind it; the mask's bytes are read at once. */
  predicate MaskReads(c: Cursor, i: nat) {
    FieldReads(UINT32, c, i) && FieldReads(ByteVec, c, i + 1) && c.SliceRaw(i + 1).value.ReadAll(MalformedCobuild).Ok?
  }

  lemma MaskReadsExactly(c: Cursor, i: nat)
    ensures CountAndMask(c, i).Ok? <==> MaskReads(c, i)
  {}

  /**
   * Exactly when the planner's view of an OTX exists: the message is there, its inside does not matter yet, and every
   * other field, down to segments and seals, can be read.
   */
  lemma OtxReadExactly(c: Cursor)
    ensures OtxViewOf(c).Ok? <==>
              && c.Slice(0).Some? && FieldReads(BYTE, c, 1)
              && MaskReads(c, 2) && MaskReads(c, 4) && MaskReads(c, 6) && MaskReads(c, 8)
              && FieldReads(DynVec(OtxAppendSegmentSchema()), c, 10)
              && FieldReads(DynVec(LockSealSchema()), c, 11)
  {
    if c.Slice(10).Some? {
      SegmentsRead(c.Slice(10).value);
    }
    if c.Slice(11).Some? {
      SealsRead(c.Slice(11).value);
    }
    MaskReadsExactly(c, 2);
    MaskReadsExactly(c, 4);
    MaskReadsExactly(c, 6);
    MaskReadsExactly(c, 8);
    assert FieldReads(BYTE, c, 1) <==> c.SliceByte(1).Some?;
  }

  /** An action can be read, and its role byte is one of the three. */
  predicate ActionReads(c: Cursor) { Reads(ActionSchema(), c) && c.SliceByte(1).Some? && c.SliceByte(1).value <= 2 }

  lemma ActionFieldsRead(c: Cursor)
    ensures Reads(ActionSchema(), c) <==>
              c.SliceHash(0).Some? && c.SliceByte(1).Some? && c.SliceHash(2).Some? && c.SliceRaw(3).Some?
  {
    var fields := ActionSchema().fields;
    TableReads(fields, c);
    UpToFour(FieldRead(fields, c));
    LeafFields(c, 0);
    LeafFields(c, 1);
    LeafFields(c, 2);
    LeafFields(c, 3);
  }

  lemma ActionReadsExactly(c: Cursor, i: nat)
    ensures ActionOf(i, c).Ok? <==> ActionReads(c)
  {
    ActionFieldsRead(c);
  }

  /** Exactly when the actions of a message can be parsed. */
  lemma ActionsReadExactly(message: Cursor)
    ensures MessageActions(message).Ok? <==>
              && message.Slice(0).Some? && message.Slice(0).value.DynvecLength().Some?
              && var actions := message.Slice(0).value;
                 forall i: nat | i < actions.DynvecLength().value ::
                   actions.Slice(i).Some? && ActionReads(actions.Slice(i).value)
  {
    if message.Slice(0).Some? && message.Slice(0).value.DynvecLength().Some? {
      var actions := message.Slice(0).value;
      CollectSucceeds(ActionAt(actions), actions.DynvecLength().value);
      forall i: nat | i < actions.DynvecLength().value
        ensures ActionAt(actions)(i).Ok? <==> actions.Slice(i).Some? && ActionReads(actions.Slice(i).value)
      {
        if actions.Slice(i).Some? {
          ActionReadsExactly(actions.Slice(i).value, i);
        }
      }
    }
  }
}
