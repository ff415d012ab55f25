/** What the planner sees of a witness: views parsed from lazy cursors, masks, flags and permissions. */
module View {
  import opened Base
  import opened LazyReader

  // ---------- protocol bytes ----------

  datatype ScriptRole = InputLock | InputType | OutputType

  function ScriptRoleOf(raw: Byte): Result<ScriptRole> {
    if raw == 0 then Ok(InputLock)
    else if raw == 1 then Ok(InputType)
    else if raw == 2 then Ok(OutputType)
    else Err(InvalidMessageTarget)
  }

  function Pow2(k: nat): (p: nat)
    ensures p >= 1
  {
    if k == 0 then 1 else 2 * Pow2(k - 1)
  }

  /** `raw & (1 << k) != 0`: shift right `k` times and look at the lowest bit. */
  predicate Bit(raw: nat, k: nat)
    decreases k
  {
    if k == 0 then raw % 2 == 1 else Bit(raw / 2, k - 1)
  }

  /** The four entity kinds a transaction is sliced into. */
  datatype Kind = Inputs | Outputs | CellDeps | HeaderDeps {
    /** The bit of the append permissions that lets segments add this kind. */
    function PermissionBit(): nat {
      match this
      case Inputs => 0
      case Outputs => 1
      case CellDeps => 2
      case HeaderDeps => 3
    }
  }

  predicate ValidPermissions(raw: Byte) { raw < 16 }
  predicate ValidFlags(raw: Byte) { raw < 4 }
  predicate AllowsMoreAfter(flags: Byte) { Bit(flags, 0) }
  predicate CoversPrevious(flags: Byte) { Bit(flags, 1) }

  // ---------- masks ----------

  datatype MaskView = MaskView(bytes: Bytes) {
    function Get(index: nat): Result<bool> {
      if index / 8 < |bytes| then Ok(Bit(bytes[index / 8], index % 8)) else Err(InvalidOtxLayout)
    }

    /** `validate`: the exact length, and no bit set past `bitCount` in the last byte. */
    predicate Valid(bitCount: nat) {
      && |bytes| == (bitCount + 7) / 8
      && (bitCount % 8 != 0 ==> bytes[|bytes| - 1] < Pow2(bitCount % 8))
    }
  }

  // ---------- views ----------

  datatype ActionView = ActionView(
    index: nat, scriptInfoHash: Hash32, scriptRole: ScriptRole, scriptHash: Hash32, data: Cursor)

  datatype LockSealView = LockSealView(scriptHash: Hash32, seal: Cursor)

  datatype OtxAppendSegmentView = OtxAppendSegmentView(
    segmentFlags: Byte, inputCells: nat, outputCells: nat, cellDeps: nat, headerDeps: nat,
    seals: seq<LockSealView>)
  {
    function Count(k: Kind): nat {
      match k
      case Inputs => inputCells
      case Outputs => outputCells
      case CellDeps => cellDeps
      case HeaderDeps => headerDeps
    }
  }

  datatype OtxView = OtxView(
    message: Cursor, appendPermissions: Byte,
    baseInputCells: nat, baseInputMasks: MaskView,
    baseOutputCells: nat, baseOutputMasks: MaskView,
    baseCellDeps: nat, baseCellDepMasks: MaskView,
    baseHeaderDeps: nat, baseHeaderDepMasks: MaskView,
    appendSegments: seq<OtxAppendSegmentView>, baseSeals: seq<LockSealView>)
  {
    function Count(k: Kind): nat {
      match k
      case Inputs => baseInputCells
      case Outputs => baseOutputCells
      case CellDeps => baseCellDeps
      case HeaderDeps => baseHeaderDeps
    }

    function IncludesSince(i: nat): Result<bool> { baseInputMasks.Get(2 * i) }
    function IncludesPreviousOutput(i: nat): Result<bool> { baseInputMasks.Get(2 * i + 1) }
    function IncludesCapacity(i: nat): Result<bool> { baseOutputMasks.Get(4 * i) }
    function IncludesLock(i: nat): Result<bool> { baseOutputMasks.Get(4 * i + 1) }
    function IncludesType(i: nat): Result<bool> { baseOutputMasks.Get(4 * i + 2) }
    function IncludesData(i: nat): Result<bool> { baseOutputMasks.Get(4 * i + 3) }
  }

  datatype OtxStartView = OtxStartView(
    startInputCell: nat, startOutputCell: nat, startCellDeps: nat, startHeaderDeps: nat)
  {
    function Start(k: Kind): nat {
      match k
      case Inputs => startInputCell
      case Outputs => startOutputCell
      case CellDeps => startCellDeps
      case HeaderDeps => startHeaderDeps
    }
  }

  /** The variant of a verified witness, each over the cursor past the union's item id. */
  datatype CobuildWitnessLayout =
    | SighashAll(item: Cursor)
    | SighashAllOnly(item: Cursor)
    | Otx(item: Cursor)
    | OtxStart(item: Cursor)

  // ---------- parsing ----------

  function ActionOf(index: nat, c: Cursor): Result<ActionView> {
    var raw :- c.SliceByte(1).OrErr(MalformedCobuild);
    var info :- c.SliceHash(0).OrErr(MalformedCobuild);
    var role :- ScriptRoleOf(raw);
    var hash :- c.SliceHash(2).OrErr(MalformedCobuild);
    var data :- c.SliceRaw(3).OrErr(MalformedCobuild);
    Ok(ActionView(index, info, role, hash, data))
  }

  function ActionAt(actions: Cursor): nat -> Result<ActionView> {
    (i: nat) => if actions.Slice(i).Some? then ActionOf(i, actions.Slice(i).value) else Err(MalformedCobuild)
  }

  /** All actions of a message that was verified when its witness was scanned. */
  function MessageActions(message: Cursor): Result<seq<ActionView>> {
    var actions :- message.Slice(0).OrErr(MalformedCobuild);
    var count :- actions.DynvecLength().OrErr(MalformedCobuild);
    Collect(ActionAt(actions), count)
  }

  /** One action of a verified message, without parsing the others. */
  function MessageAction(message: Cursor, index: nat): Result<Option<ActionView>> {
    var actions :- message.Slice(0).OrErr(MalformedCobuild);
    var count :- actions.DynvecLength().OrErr(MalformedCobuild);
    if index >= count then Ok(None)
    else
      var action :- ActionAt(actions)(index);
      Ok(Some(action))
  }

  function LockSealOf(c: Cursor): Result<LockSealView> {
    var hash :- c.SliceHash(0).OrErr(MalformedCobuild);
    var seal :- c.SliceRaw(1).OrErr(MalformedCobuild);
    Ok(LockSealView(hash, seal))
  }

  function LockSealAt(seals: Cursor): nat -> Result<LockSealView> {
    (i: nat) => if seals.Slice(i).Some? then LockSealOf(seals.Slice(i).value) else Err(MalformedCobuild)
  }

  function LockSeals(seals: Cursor): Result<seq<LockSealView>> {
    var count :- seals.DynvecLength().OrErr(MalformedCobuild);
    Collect(LockSealAt(seals), count)
  }

  function U32Field(c: Cursor, field: nat): (r: Result<nat>)
    ensures CountIsU32(r)
  {
    c.SliceNumber(field).OrErr(MalformedCobuild)
  }

  predicate CountIsU32(c: Result<nat>) { c.Ok? ==> c.value < U32_LIMIT }

  /** The fields in the order they are read; the first failure is the result. */
  function SegmentFields(
    seals: seq<LockSealView>, flags: Option<Byte>,
    inputs: Result<nat>, outputs: Result<nat>, cellDeps: Result<nat>,
    headerDeps: Result<nat>): (r: Result<OtxAppendSegmentView>)
    requires CountIsU32(inputs) && CountIsU32(outputs) && CountIsU32(cellDeps) && CountIsU32(headerDeps)
    ensures r.Ok? ==> forall k: Kind :: r.value.Count(k) < U32_LIMIT
  {
    var f :- flags.OrErr(MalformedCobuild);
    var i :- inputs;
    var o :- outputs;
    var c :- cellDeps;
    var h :- headerDeps;
    Ok(OtxAppendSegmentView(f, i, o, c, h, seals))
  }

  function AppendSegmentOf(c: Cursor): (r: Result<OtxAppendSegmentView>)
    ensures r.Ok? ==> forall k: Kind :: r.value.Count(k) < U32_LIMIT
  {
    var sealsCursor :- c.Slice(5).OrErr(MalformedCobuild);
    var seals :- LockSeals(sealsCursor);
    SegmentFields(seals, c.SliceByte(0), U32Field(c, 1), U32Field(c, 2), U32Field(c, 3), U32Field(c, 4))
  }

  function AppendSegmentAt(segments: Cursor): nat -> Result<OtxAppendSegmentView> {
    (i: nat) => if segments.Slice(i).Some? then AppendSegmentOf(segments.Slice(i).value) else Err(MalformedCobuild)
  }

  function AppendSegments(segments: Cursor): Result<seq<OtxAppendSegmentView>> {
    var count :- segments.DynvecLength().OrErr(MalformedCobuild);
    Collect(AppendSegmentAt(segments), count)
  }

  function MaskOf(c: Cursor, field: nat): Result<MaskView> {
    var raw :- c.SliceRaw(field).OrErr(MalformedCobuild);
    var bytes :- raw.ReadAll(MalformedCobuild);
    Ok(MaskView(bytes))
  }

  /** A count field with the mask field behind it. */
  function CountAndMask(c: Cursor, field: nat): (r: CountedMask)
    ensures IsU32(r)
  {
    var count :- c.SliceNumber(field).OrErr(MalformedCobuild);
    var mask :- MaskOf(c, field + 1);
    Ok((count, mask))
  }

  type CountedMask = Result<(nat, MaskView)>

  predicate IsU32(c: CountedMask) { c.Ok? ==> c.value.0 < U32_LIMIT }

  /** The fields in the order they are read; the first failure is the result. */
  function OtxFields(
    message: Option<Cursor>, permissions: Option<Byte>, inputs: CountedMask, outputs: CountedMask,
    cellDeps: CountedMask, headerDeps: CountedMask,
    segments: seq<OtxAppendSegmentView>, seals: seq<LockSealView>): (r: Result<OtxView>)
    requires IsU32(inputs) && IsU32(outputs) && IsU32(cellDeps) && IsU32(headerDeps)
    ensures r.Ok? ==>
              message == Some(r.value.message) && r.value.appendSegments == segments && r.value.baseSeals == seals
    ensures r.Ok? ==> forall k: Kind :: r.value.Count(k) < U32_LIMIT
  {
    var m :- message.OrErr(MalformedCobuild);
    var p :- permissions.OrErr(MalformedCobuild);
    var i :- inputs;
    var o :- outputs;
    var c :- cellDeps;
    var h :- headerDeps;
    Ok(OtxView(m, p, i.0, i.1, o.0, o.1, c.0, c.1, h.0, h.1, segments, seals))
  }

  function OtxViewOf(c: Cursor): (r: Result<OtxView>)
    ensures r.Ok? ==> c.Slice(0) == Some(r.value.message)
    ensures r.Ok? ==> c.Slice(10).Some? && AppendSegments(c.Slice(10).value) == Ok(r.value.appendSegments)
    ensures r.Ok? ==> forall k: Kind :: r.value.Count(k) < U32_LIMIT
  {
    var segmentsCursor :- c.Slice(10).OrErr(MalformedCobuild);
    var segments :- AppendSegments(segmentsCursor);
    var sealsCursor :- c.Slice(11).OrErr(MalformedCobuild);
    var seals :- LockSeals(sealsCursor);
    OtxFields(c.Slice(0), c.SliceByte(1), CountAndMask(c, 2), CountAndMask(c, 4), CountAndMask(c, 6),
              CountAndMask(c, 8),
              segments, seals)
  }

  function StartFields(
    inputs: Result<nat>, outputs: Result<nat>, cellDeps: Result<nat>,
    headerDeps: Result<nat>): (r: Result<OtxStartView>)
    requires CountIsU32(inputs) && CountIsU32(outputs) && CountIsU32(cellDeps) && CountIsU32(headerDeps)
    ensures r.Ok? ==> forall k: Kind :: r.value.Start(k) < U32_LIMIT
    ensures r.Ok? <==> inputs.Ok? && outputs.Ok? && cellDeps.Ok? && headerDeps.Ok?
  {
    var i :- inputs;
    var o :- outputs;
    var c :- cellDeps;
    var h :- headerDeps;
    Ok(OtxStartView(i, o, c, h))
  }

  function OtxStartViewOf(c: Cursor): (r: Result<OtxStartView>)
    ensures r.Ok? ==> forall k: Kind :: r.value.Start(k) < U32_LIMIT
  {
    StartFields(U32Field(c, 0), U32Field(c, 1), U32Field(c, 2), U32Field(c, 3))
  }

  predicate Verified(w: CobuildWitnessLayout) {
    match w
    case SighashAll(c) => VerifySighashAll(c)
    case SighashAllOnly(c) => VerifySighashAllOnly(c)
    case Otx(c) => VerifyOtx(c)
    case OtxStart(c) => VerifyOtxStart(c)
  }

  /** `WitnessLayout::try_from`: the variant the union id names, over the bytes behind it. */
  function Unpacked(w: Cursor): Option<CobuildWitnessLayout> {
    var id :- w.Number();
    if w.size < 4 then None
    else
      var item := Cursor(w.source, w.offset + 4, w.size - 4);
      if id == 0xff00_0001 then Some(SighashAll(item))
      else if id == 0xff00_0002 then Some(SighashAllOnly(item))
      else if id == 0xff00_0003 then Some(Otx(item))
      else if id == 0xff00_0004 then Some(OtxStart(item))
      else None
  }

  /** `CobuildWitnessLayoutView::from_cursor`: unpack the union, then verify the chosen table. */
  function FromCursor(w: Cursor): Result<CobuildWitnessLayout> {
    var view :- Unpacked(w).OrErr(MalformedCobuild);
    if Verified(view) then Ok(view) else Err(InvalidOtxLayout)
  }

  lemma UnpackedInBounds(w: Cursor)
    requires Unpacked(w).Some? && w.InBounds()
    ensures Unpacked(w).value.item.InBounds()
  {}

  // ---------- the parsing loops ----------

  method ParseActions(message: Cursor) returns (r: Result<seq<ActionView>>)
    ensures r == MessageActions(message)
  {
    var actions :- message.Slice(0).OrErr(MalformedCobuild);
    var count :- actions.DynvecLength().OrErr(MalformedCobuild);
    var out: seq<ActionView> := [];
    for i := 0 to count
      invariant Collect(ActionAt(actions), i) == Ok(out)
    {
      var item := actions.Slice(i);
      if item.None? {
        CollectStops(ActionAt(actions), i, count);
        return Err(MalformedCobuild);
      }
      var action := ActionOf(i, item.value);
      if action.Err? {
        CollectStops(ActionAt(actions), i, count);
        return Err(action.error);
      }
      out := out + [action.value];
    }
    return Ok(out);
  }

  method ParseLockSeals(seals: Cursor) returns (r: Result<seq<LockSealView>>)
    ensures r == LockSeals(seals)
  {
    var count :- seals.DynvecLength().OrErr(MalformedCobuild);
    var out: seq<LockSealView> := [];
    for i := 0 to count
      invariant Collect(LockSealAt(seals), i) == Ok(out)
    {
      var item := seals.Slice(i);
      var seal := if item.Some? then LockSealOf(item.value) else Err(MalformedCobuild);
      if seal.Err? {
        CollectStops(LockSealAt(seals), i, count);
        return Err(seal.error);
      }
      out := out + [seal.value];
    }
    return Ok(out);
  }

  method ParseAppendSegments(segments: Cursor) returns (r: Result<seq<OtxAppendSegmentView>>)
    ensures r == AppendSegments(segments)
  {
    var count :- segments.DynvecLength().OrErr(MalformedCobuild);
    var out: seq<OtxAppendSegmentView> := [];
    for i := 0 to count
      invariant Collect(AppendSegmentAt(segments), i) == Ok(out)
    {
      var item := segments.Slice(i);
      var segment := if item.Some? then AppendSegmentOf(item.value) else Err(MalformedCobuild);
      if segment.Err? {
        CollectStops(AppendSegmentAt(segments), i, count);
        return Err(segment.error);
      }
      out := out + [segment.value];
    }
    return Ok(out);
  }

  // ---------- facts about parsing ----------

  /** The single-action lookup agrees with parsing the whole message, and every view knows its index. */
  lemma ActionLookup(message: Cursor, i: nat)
    requires MessageActions(message).Ok?
    ensures var actions := MessageActions(message).value;
            MessageAction(message, i) == Ok(if i < |actions| then Some(actions[i]) else None)
    ensures var actions := MessageActions(message).value; i < |actions| ==> actions[i].index == i
  {
    var actions := message.Slice(0).value;
    var found := Collect(ActionAt(actions), actions.DynvecLength().value);
    if i < |found.value| {
      assert ActionAt(actions)(i) == Ok(found.value[i]);
      ActionIndex(i, actions.Slice(i).value);
    }
  }

  lemma ActionIndex(i: nat, c: Cursor)
    ensures ActionOf(i, c).Ok? ==> ActionOf(i, c).value.index == i
  {
  }
}
