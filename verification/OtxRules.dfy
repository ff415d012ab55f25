/** What an accepted OTX promises, byte by byte: the rules of the layout validation with the protocol's own bits. */
module OtxRules {
  import opened Base
  import opened View
  import opened MachineBits
  import opened Layout
  import opened Transaction
  import opened Witness
  import opened Context
  import opened Engine
  import opened BuiltFacts

  const INPUTS_BIT: bv8 := 0x01
  const OUTPUTS_BIT: bv8 := 0x02
  const CELL_DEPS_BIT: bv8 := 0x04
  const HEADER_DEPS_BIT: bv8 := 0x08
  const ALLOW_MORE_AFTER: bv8 := 0x01
  const COVERAGE_PREVIOUS: bv8 := 0x02

  predicate Has(raw: Byte, bit: bv8) { Machine(raw) & bit != 0 }

  /** A segment adds only what the permissions allow. */
  predicate Permitted(permissions: Byte, segment: OtxAppendSegmentView) {
    && (segment.inputCells > 0 ==> Has(permissions, INPUTS_BIT))
    && (segment.outputCells > 0 ==> Has(permissions, OUTPUTS_BIT))
    && (segment.cellDeps > 0 ==> Has(permissions, CELL_DEPS_BIT))
    && (segment.headerDeps > 0 ==> Has(permissions, HEADER_DEPS_BIT))
  }

  /** All bits beyond the used ones of a mask's last byte are clear, and its length is right. */
  predicate ExactMask(m: MaskView, bits: nat) {
    && |m.bytes| == (bits + 7) / 8
    && (bits % 8 != 0 ==> InsideMask(Machine(m.bytes[|m.bytes| - 1]), bits % 8))
  }

  /** Every rule, literally. */
  predicate Rules(otx: OtxView) {
    && otx.baseInputCells > 0
    && Machine(otx.appendPermissions) & 0xf0 == 0
    && (forall i: nat | i < |otx.appendSegments| ::
          && Machine(otx.appendSegments[i].segmentFlags) & 0xfc == 0
          && (i + 1 < |otx.appendSegments| ==> Has(otx.appendSegments[i].segmentFlags, ALLOW_MORE_AFTER))
          && Permitted(otx.appendPermissions, otx.appendSegments[i]))
    && ExactMask(otx.baseInputMasks, 2 * otx.baseInputCells)
    && ExactMask(otx.baseOutputMasks, 4 * otx.baseOutputCells)
    && ExactMask(otx.baseCellDepMasks, otx.baseCellDeps)
    && ExactMask(otx.baseHeaderDepMasks, otx.baseHeaderDeps)
  }

  lemma OneBit(b: bv8)
    ensures TestsBit(b, 0) <==> b & 0x01 != 0
    ensures TestsBit(b, 1) <==> b & 0x02 != 0
    ensures TestsBit(b, 2) <==> b & 0x04 != 0
    ensures TestsBit(b, 3) <==> b & 0x08 != 0
    ensures InsideMask(b, 2) <==> b & 0xfc == 0
    ensures InsideMask(b, 4) <==> b & 0xf0 == 0
  {}

  /** The tests on permissions and flags are those of the protocol's bits. */
  lemma ProtocolBits(raw: Byte)
    ensures Bit(raw, 0) <==> Has(raw, 0x01)
    ensures Bit(raw, 1) <==> Has(raw, 0x02)
    ensures Bit(raw, 2) <==> Has(raw, 0x04)
    ensures Bit(raw, 3) <==> Has(raw, 0x08)
    ensures ValidFlags(raw) <==> Machine(raw) & 0xfc == 0
    ensures ValidPermissions(raw) <==> Machine(raw) & 0xf0 == 0
  {
    BitIsMachineTest(raw, 0);
    BitIsMachineTest(raw, 1);
    BitIsMachineTest(raw, 2);
    BitIsMachineTest(raw, 3);
    OneBit(Machine(raw));
    ReservedMasks(raw);
  }

  lemma ReservedMasks(raw: Byte)
    ensures ValidFlags(raw) <==> Machine(raw) & 0xfc == 0
    ensures ValidPermissions(raw) <==> Machine(raw) & 0xf0 == 0
  {
    ReservedBits(raw);
  }

  /** What the flags of a segment say. */
  lemma FlagBits(raw: Byte)
    ensures AllowsMoreAfter(raw) <==> Has(raw, ALLOW_MORE_AFTER)
    ensures CoversPrevious(raw) <==> Has(raw, COVERAGE_PREVIOUS)
  {
    ProtocolBits(raw);
  }

  lemma PermittedMeaning(otx: OtxView)
    ensures (forall k: Kind :: Appends(otx, k) ==> Bit(otx.appendPermissions, k.PermissionBit()))
       <==> forall i: nat | i < |otx.appendSegments| :: Permitted(otx.appendPermissions, otx.appendSegments[i])
  {
    ProtocolBits(otx.appendPermissions);
    var allowed := forall k: Kind :: Appends(otx, k) ==> Bit(otx.appendPermissions, k.PermissionBit());
    if allowed {
      forall i: nat | i < |otx.appendSegments|
        ensures Permitted(otx.appendPermissions, otx.appendSegments[i])
      {
        SegmentAppends(otx, i);
        assert Appends(otx, Inputs) ==> Bit(otx.appendPermissions, Inputs.PermissionBit());
        assert Appends(otx, Outputs) ==> Bit(otx.appendPermissions, Outputs.PermissionBit());
        assert Appends(otx, CellDeps) ==> Bit(otx.appendPermissions, CellDeps.PermissionBit());
        assert Appends(otx, HeaderDeps) ==> Bit(otx.appendPermissions, HeaderDeps.PermissionBit());
      }
    }
  }

  lemma SegmentAppends(otx: OtxView, i: nat)
    requires i < |otx.appendSegments|
    ensures otx.appendSegments[i].inputCells > 0 ==> Appends(otx, Inputs)
    ensures otx.appendSegments[i].outputCells > 0 ==> Appends(otx, Outputs)
    ensures otx.appendSegments[i].cellDeps > 0 ==> Appends(otx, CellDeps)
    ensures otx.appendSegments[i].headerDeps > 0 ==> Appends(otx, HeaderDeps)
  {
    var s := otx.appendSegments[i];
    assert s.Count(Inputs) == s.inputCells && s.Count(Outputs) == s.outputCells;
    assert s.Count(CellDeps) == s.cellDeps && s.Count(HeaderDeps) == s.headerDeps;
  }

  lemma MasksMeaning(otx: OtxView)
    ensures MasksValid(otx) <==>
              && ExactMask(otx.baseInputMasks, 2 * otx.baseInputCells)
              && ExactMask(otx.baseOutputMasks, 4 * otx.baseOutputCells)
              && ExactMask(otx.baseCellDepMasks, otx.baseCellDeps)
              && ExactMask(otx.baseHeaderDepMasks, otx.baseHeaderDeps)
  {
    ValidateIsMachineMask(otx.baseInputMasks, 2 * otx.baseInputCells);
    ValidateIsMachineMask(otx.baseOutputMasks, 4 * otx.baseOutputCells);
    ValidateIsMachineMask(otx.baseCellDepMasks, otx.baseCellDeps);
    ValidateIsMachineMask(otx.baseHeaderDepMasks, otx.baseHeaderDeps);
  }

  /** An OTX is accepted exactly when it keeps every rule. */
  lemma AcceptedExactly(otx: OtxView)
    ensures ValidOtxView(otx) <==> Rules(otx)
  {
    ProtocolBits(otx.appendPermissions);
    PermittedMeaning(otx);
    MasksMeaning(otx);
    forall i: nat | i < |otx.appendSegments|
      ensures ValidFlags(otx.appendSegments[i].segmentFlags)
         <==> Machine(otx.appendSegments[i].segmentFlags) & 0xfc == 0
      ensures AllowsMoreAfter(otx.appendSegments[i].segmentFlags)
         <==> Has(otx.appendSegments[i].segmentFlags, ALLOW_MORE_AFTER)
    {
      ProtocolBits(otx.appendSegments[i].segmentFlags);
    }
  }

  /** So every OTX of a built context keeps them. */
  lemma BuiltOtxKeepsRules(tx: Tx, current: CurrentScript, cx: CobuildContext, i: nat)
    requires Build(tx, current) == Ok(cx) && i < |cx.OtxEntries()|
    ensures Rules(cx.OtxEntries()[i].view)
  {
    var s, start, otxs := LayoutOrigin(tx, current, cx);
    assert OtxAt(Classified(tx.witnesses), s, otxs, i);
    AcceptedExactly(cx.OtxEntries()[i].view);
  }
}
