/** From the OTX witnesses of a transaction to the ranges each OTX and each append segment owns. */
module Layout {
  import opened Base
  import opened View

  datatype Range = Range(start: nat, count: nat) {
    function End(): nat { start + count }
    predicate Contains(index: nat) { start <= index < End() }
  }

  datatype Part = Base | Segment(index: nat)

  datatype OtxAppendSegmentLayout = OtxAppendSegmentLayout(
    flags: Byte, inputs: Range, outputs: Range, cellDeps: Range, headerDeps: Range)
  {
    function Of(k: Kind): Range {
      match k
      case Inputs => inputs
      case Outputs => outputs
      case CellDeps => cellDeps
      case HeaderDeps => headerDeps
    }
  }

  datatype OtxLayout = OtxLayout(
    witnessIndex: nat,
    baseInputs: Range, appendInputs: Range, baseOutputs: Range, appendOutputs: Range,
    baseCellDeps: Range, appendCellDeps: Range, baseHeaderDeps: Range, appendHeaderDeps: Range,
    appendSegments: seq<OtxAppendSegmentLayout>)
  {
    function BaseOf(k: Kind): Range {
      match k
      case Inputs => baseInputs
      case Outputs => baseOutputs
      case CellDeps => baseCellDeps
      case HeaderDeps => baseHeaderDeps
    }

    function AppendOf(k: Kind): Range {
      match k
      case Inputs => appendInputs
      case Outputs => appendOutputs
      case CellDeps => appendCellDeps
      case HeaderDeps => appendHeaderDeps
    }

    predicate HasPart(p: Part) { p.Segment? ==> p.index < |appendSegments| }

    function PartOf(p: Part, k: Kind): Range
      requires HasPart(p)
    {
      match p
      case Base => BaseOf(k)
      case Segment(j) => appendSegments[j].Of(k)
    }
  }

  datatype OtxLayoutEntry = OtxLayoutEntry(layout: OtxLayout, view: OtxView)

  datatype BuiltLayout = BuiltLayout(inputRange: Range, outputRange: Range, otxEntries: seq<OtxLayoutEntry>)

  datatype OtxLayouts = NoLayout | Complete(layout: BuiltLayout)

  /** One counter for each entity kind. */
  datatype Counts = Counts(inputs: nat, outputs: nat, cellDeps: nat, headerDeps: nat) {
    function At(k: Kind): nat {
      match k
      case Inputs => inputs
      case Outputs => outputs
      case CellDeps => cellDeps
      case HeaderDeps => headerDeps
    }
  }

  // ---------- which OTX views are acceptable ----------

  predicate Appends(otx: OtxView, k: Kind) {
    exists i: nat | i < |otx.appendSegments| :: otx.appendSegments[i].Count(k) > 0
  }

  predicate MasksValid(otx: OtxView) {
    && otx.baseInputMasks.Valid(otx.baseInputCells * 2)
    && otx.baseOutputMasks.Valid(otx.baseOutputCells * 4)
    && otx.baseCellDepMasks.Valid(otx.baseCellDeps)
    && otx.baseHeaderDepMasks.Valid(otx.baseHeaderDeps)
  }

  predicate SegmentsClosed(otx: OtxView) {
    forall i: nat | i < |otx.appendSegments| ::
      && ValidFlags(otx.appendSegments[i].segmentFlags)
      && (i + 1 != |otx.appendSegments| ==> AllowsMoreAfter(otx.appendSegments[i].segmentFlags))
  }

  /** What `validate_otx_view` accepts. */
  predicate ValidOtxView(otx: OtxView) {
    && otx.baseInputCells != 0
    && ValidPermissions(otx.appendPermissions)
    && SegmentsClosed(otx)
    && (forall k: Kind :: Appends(otx, k) ==> Bit(otx.appendPermissions, k.PermissionBit()))
    && MasksValid(otx)
  }

  // ---------- the layout in closed form ----------

  /** How many entities of a kind the first `n` segments of an OTX add. */
  function SegmentSum(segments: seq<OtxAppendSegmentView>, n: nat, k: Kind): nat
    requires n <= |segments|
  {
    if n == 0 then 0 else SegmentSum(segments, n - 1, k) + segments[n - 1].Count(k)
  }

  function Total(otx: OtxView, k: Kind): nat {
    otx.Count(k) + SegmentSum(otx.appendSegments, |otx.appendSegments|, k)
  }

  function StartCounts(start: OtxStartView): Counts {
    Counts(start.startInputCell, start.startOutputCell, start.startCellDeps, start.startHeaderDeps)
  }

  function Advance(c: Counts, otx: OtxView): Counts {
    Counts(c.inputs + Total(otx, Inputs), c.outputs + Total(otx, Outputs),
           c.cellDeps + Total(otx, CellDeps), c.headerDeps + Total(otx, HeaderDeps))
  }

  /** The counters in front of OTX `i`. */
  function CountsBefore(start: Counts, otxs: seq<(nat, OtxView)>, i: nat): Counts
    requires i <= |otxs|
  {
    if i == 0 then start else Advance(CountsBefore(start, otxs, i - 1), otxs[i - 1].1)
  }

  function BaseRange(c: Counts, otx: OtxView, k: Kind): Range { Range(c.At(k), otx.Count(k)) }

  function AppendRange(c: Counts, otx: OtxView, k: Kind): Range {
    Range(c.At(k) + otx.Count(k), SegmentSum(otx.appendSegments, |otx.appendSegments|, k))
  }

  function SegmentRange(c: Counts, otx: OtxView, j: nat, k: Kind): Range
    requires j < |otx.appendSegments|
  {
    Range(c.At(k) + otx.Count(k) + SegmentSum(otx.appendSegments, j, k), otx.appendSegments[j].Count(k))
  }

  /** The counters behind the base part and the first `j` segments. */
  function AfterSegments(c: Counts, otx: OtxView, j: nat): Counts
    requires j <= |otx.appendSegments|
  {
    Counts(
      c.inputs + otx.baseInputCells + SegmentSum(otx.appendSegments, j, Inputs),
      c.outputs + otx.baseOutputCells + SegmentSum(otx.appendSegments, j, Outputs),
      c.cellDeps + otx.baseCellDeps + SegmentSum(otx.appendSegments, j, CellDeps),
      c.headerDeps + otx.baseHeaderDeps + SegmentSum(otx.appendSegments, j, HeaderDeps))
  }

  function SegmentLayout(c: Counts, otx: OtxView, j: nat): OtxAppendSegmentLayout
    requires j < |otx.appendSegments|
  {
    OtxAppendSegmentLayout(
      otx.appendSegments[j].segmentFlags,
      SegmentRange(c, otx, j, Inputs), SegmentRange(c, otx, j, Outputs),
      SegmentRange(c, otx, j, CellDeps), SegmentRange(c, otx, j, HeaderDeps))
  }

  function LayoutAt(c: Counts, witnessIndex: nat, otx: OtxView): OtxLayout {
    OtxLayout(
      witnessIndex,
      BaseRange(c, otx, Inputs), AppendRange(c, otx, Inputs),
      BaseRange(c, otx, Outputs), AppendRange(c, otx, Outputs),
      BaseRange(c, otx, CellDeps), AppendRange(c, otx, CellDeps),
      BaseRange(c, otx, HeaderDeps), AppendRange(c, otx, HeaderDeps),
      seq(|otx.appendSegments|, j requires 0 <= j < |otx.appendSegments| => SegmentLayout(c, otx, j)))
  }

  function EntryAt(start: Counts, otxs: seq<(nat, OtxView)>, i: nat): OtxLayoutEntry
    requires i < |otxs|
  {
    OtxLayoutEntry(LayoutAt(CountsBefore(start, otxs, i), otxs[i].0, otxs[i].1), otxs[i].1)
  }

  function Entries(start: Counts, otxs: seq<(nat, OtxView)>): seq<OtxLayoutEntry> {
    seq(|otxs|, i requires 0 <= i < |otxs| => EntryAt(start, otxs, i))
  }

  predicate Within(c: Counts, limits: Counts) {
    && c.inputs <= limits.inputs && c.outputs <= limits.outputs
    && c.cellDeps <= limits.cellDeps && c.headerDeps <= limits.headerDeps
  }

  function BuiltOf(start: Counts, otxs: seq<(nat, OtxView)>): BuiltLayout {
    var end := CountsBefore(start, otxs, |otxs|);
    CountsGrow(start, otxs, 0, |otxs|);
    BuiltLayout(
      Range(start.inputs, end.inputs - start.inputs),
      Range(start.outputs, end.outputs - start.outputs),
      Entries(start, otxs))
  }

  lemma {:induction false} CountsGrow(start: Counts, otxs: seq<(nat, OtxView)>, i: nat, j: nat)
    requires i <= j <= |otxs|
    ensures Within(CountsBefore(start, otxs, i), CountsBefore(start, otxs, j))
  {
    if i == j {
    } else {
      CountsGrow(start, otxs, i, j - 1);
    }
  }

  /** What `finish` returns for the collected OtxStart and Otx witnesses. */
  function FinishLayout(start: Option<(nat, OtxStartView)>, otxs: seq<(nat, OtxView)>,
                        limits: Counts): Result<OtxLayouts>
  {
    match start
    case None => Ok(NoLayout)
    case Some(s) =>
      var from := StartCounts(s.1);
      if && |otxs| > 0
         && (forall i: nat | i < |otxs| :: ValidOtxView(otxs[i].1))
         && Within(CountsBefore(from, otxs, |otxs|), limits)
      then Ok(Complete(BuiltOf(from, otxs)))
      else Err(InvalidOtxLayout)
  }
}
