/** The layout state machine: it accepts one contiguous block of OTX witnesses and slices the transaction. */
module Collector {
  import opened Base
  import opened View
  import opened Layout

  /** What a scanned witness means to the layout collector. */
  datatype LayoutWitness = Ignore | StartWitness(start: OtxStartView) | OtxWitness(otx: OtxView)

  function LayoutWitnessOf(w: CobuildWitnessLayout): Result<LayoutWitness> {
    match w
    case OtxStart(c) => (var v :- OtxStartViewOf(c); Ok(StartWitness(v)))
    case Otx(c) => (var v :- OtxViewOf(c); Ok(OtxWitness(v)))
    case _ => Ok(Ignore)
  }

  /** The collected block: the start witness with its index, then the OTX witnesses with theirs. */
  datatype Collected = Collected(start: Option<(nat, OtxStartView)>, otxs: seq<(nat, OtxView)>) {
    predicate Contiguous() {
      && (start.None? ==> otxs == [])
      && (start.Some? ==> forall i: nat | i < |otxs| :: otxs[i].0 == start.value.0 + 1 + i)
    }
  }

  const EMPTY := Collected(None, [])

  /** An OTX must directly follow the start or the OTX before it; there is one start. */
  function Record(s: Collected, index: nat, w: LayoutWitness): Result<Collected> {
    match w
    case Ignore => Ok(s)
    case StartWitness(v) =>
      if s.start.Some? then Err(InvalidOtxLayout) else Ok(s.(start := Some((index, v))))
    case OtxWitness(v) =>
      if s.start.None? || index != s.start.value.0 + |s.otxs| + 1 then Err(InvalidOtxLayout)
      else Ok(s.(otxs := s.otxs + [(index, v)]))
  }

  class OtxLayoutCollector {
    var start: Option<(nat, OtxStartView)>
    var lastLayoutWitnessIndex: Option<nat>
    var otxEntries: seq<(nat, OtxView)>

    function State(): Collected
      reads this
    {
      Collected(start, otxEntries)
    }

    ghost predicate Valid()
      reads this
    {
      && State().Contiguous()
      && lastLayoutWitnessIndex == if start.None? then None else Some(start.value.0 + |otxEntries|)
    }

    constructor ()
      ensures Valid() && State() == EMPTY
    {
      start := None;
      lastLayoutWitnessIndex := None;
      otxEntries := [];
    }

    method RecordCobuildLayout(index: nat, view: CobuildWitnessLayout) returns (r: Result<()>)
      requires Valid()
      modifies this
      ensures LayoutWitnessOf(view).Err? ==> r == Err(LayoutWitnessOf(view).error)
      ensures LayoutWitnessOf(view).Ok? ==>
                match Record(old(State()), index, LayoutWitnessOf(view).value)
                case Ok(s) => r == Ok(()) && State() == s && Valid()
                case Err(e) => r == Err(e)
    {
      var w :- LayoutWitnessOf(view);
      match w
      case Ignore => r := Ok(());
      case StartWitness(v) => r := PushOtxStart(index, v);
      case OtxWitness(v) => r := PushOtx(index, v);
    }

    method PushOtxStart(index: nat, view: OtxStartView) returns (r: Result<()>)
      requires Valid()
      modifies this
      ensures match Record(old(State()), index, StartWitness(view))
              case Ok(s) => r == Ok(()) && State() == s && Valid()
              case Err(e) => r == Err(e)
    {
      if start.Some? {
        return Err(InvalidOtxLayout);
      }
      start := Some((index, view));
      lastLayoutWitnessIndex := Some(index);
      return Ok(());
    }

    method PushOtx(index: nat, view: OtxView) returns (r: Result<()>)
      requires Valid()
      modifies this
      ensures match Record(old(State()), index, OtxWitness(view))
              case Ok(s) => r == Ok(()) && State() == s && Valid()
              case Err(e) => r == Err(e)
    {
      if lastLayoutWitnessIndex.None? || lastLayoutWitnessIndex.value + 1 != index {
        return Err(InvalidOtxLayout);
      }
      lastLayoutWitnessIndex := Some(index);
      otxEntries := otxEntries + [(index, view)];
      return Ok(());
    }

    method Finish(limits: Counts) returns (r: Result<OtxLayouts>)
      requires Valid()
      ensures r == FinishLayout(start, otxEntries, limits)
    {
      if start.None? {
        return Ok(NoLayout);
      }
      var (startIndex, startData) := start.value;
      if lastLayoutWitnessIndex == Some(startIndex) {
        return Err(InvalidOtxLayout);
      }
      ghost var from := StartCounts(startData);
      var ranges := new LayoutRangeCursor(startData);
      var entries :- TakeEntries(ranges, from);
      if |entries| == 0 {
        return Err(InvalidOtxLayout);
      }
      var _ :- ranges.EnsureWithin(limits);
      CountsGrow(from, otxEntries, 0, |otxEntries|);
      return Ok(Complete(BuiltLayout(
        Range(startData.startInputCell, ranges.nextInput - startData.startInputCell),
        Range(startData.startOutputCell, ranges.nextOutput - startData.startOutputCell),
        entries)));
    }

    /** One turn of the loop of `finish`: validate the OTX, then slice off its ranges. */
    method TakeEntry(ranges: LayoutRangeCursor, ghost from: Counts, i: nat) returns (r: Result<OtxLayoutEntry>)
      requires i < |otxEntries| && ranges.State() == CountsBefore(from, otxEntries, i)
      modifies ranges
      ensures r.Ok? <==> ValidOtxView(otxEntries[i].1)
      ensures r.Ok? ==>
                r.value == EntryAt(from, otxEntries, i) && ranges.State() == CountsBefore(from, otxEntries, i + 1)
      ensures r.Err? ==> r.error == InvalidOtxLayout
    {
      var (witnessIndex, view) := otxEntries[i];
      var _ :- ValidateOtxView(view);
      var layout := ranges.TakeLayout(witnessIndex, view);
      assert layout.Ok?;  // the flags were just validated
      return Ok(OtxLayoutEntry(layout.value, view));
    }

    method TakeEntries(ranges: LayoutRangeCursor, ghost from: Counts) returns (r: Result<seq<OtxLayoutEntry>>)
      requires ranges.State() == from
      modifies ranges
      ensures r.Ok? <==> forall i: nat | i < |otxEntries| :: ValidOtxView(otxEntries[i].1)
      ensures r.Ok? ==> r.value == Entries(from, otxEntries)
      ensures r.Ok? ==> ranges.State() == CountsBefore(from, otxEntries, |otxEntries|)
      ensures r.Err? ==> r.error == InvalidOtxLayout
    {
      var entries: seq<OtxLayoutEntry> := [];
      for i := 0 to |otxEntries|
        invariant ranges.State() == CountsBefore(from, otxEntries, i)
        invariant forall k: nat | k < i :: ValidOtxView(otxEntries[k].1)
        invariant |entries| == i && forall k: nat | k < i :: entries[k] == EntryAt(from, otxEntries, k)
      {
        var entry :- TakeEntry(ranges, from, i);
        entries := entries + [entry];
      }
      return Ok(entries);
    }
  }

  class LayoutRangeCursor {
    var nextInput: nat
    var nextOutput: nat
    var nextCellDep: nat
    var nextHeaderDep: nat

    function State(): Counts
      reads this
    {
      Counts(nextInput, nextOutput, nextCellDep, nextHeaderDep)
    }

    constructor (start: OtxStartView)
      ensures State() == StartCounts(start)
    {
      nextInput := start.startInputCell;
      nextOutput := start.startOutputCell;
      nextCellDep := start.startCellDeps;
      nextHeaderDep := start.startHeaderDeps;
    }

    /** One segment or base part: a range of each kind, taken from the four running counters. */
    method TakeRanges(inputs: nat, outputs: nat, cellDeps: nat, headerDeps: nat)
      returns (i: Range, o: Range, c: Range, h: Range)
      modifies this
      ensures i == Range(old(nextInput), inputs) && nextInput == i.End()
      ensures o == Range(old(nextOutput), outputs) && nextOutput == o.End()
      ensures c == Range(old(nextCellDep), cellDeps) && nextCellDep == c.End()
      ensures h == Range(old(nextHeaderDep), headerDeps) && nextHeaderDep == h.End()
    {
      i := Range(nextInput, inputs);
      nextInput := nextInput + inputs;
      o := Range(nextOutput, outputs);
      nextOutput := nextOutput + outputs;
      c := Range(nextCellDep, cellDeps);
      nextCellDep := nextCellDep + cellDeps;
      h := Range(nextHeaderDep, headerDeps);
      nextHeaderDep := nextHeaderDep + headerDeps;
    }

    /** One turn of the loop over the append segments. */
    method TakeSegment(segment: OtxAppendSegmentView, ghost c: Counts, ghost otx: OtxView, ghost j: nat)
      returns (r: OtxAppendSegmentLayout)
      requires j < |otx.appendSegments| && segment == otx.appendSegments[j] && State() == AfterSegments(c, otx, j)
      modifies this
      ensures r == SegmentLayout(c, otx, j) && State() == AfterSegments(c, otx, j + 1)
    {
      var inputs, outputs, cellDeps, headerDeps :=
        TakeRanges(segment.inputCells, segment.outputCells, segment.cellDeps, segment.headerDeps);
      return OtxAppendSegmentLayout(segment.segmentFlags, inputs, outputs, cellDeps, headerDeps);
    }

    method TakeLayout(witnessIndex: nat, otx: OtxView) returns (r: Result<OtxLayout>)
      modifies this
      ensures r.Ok? <==> forall i: nat | i < |otx.appendSegments| :: ValidFlags(otx.appendSegments[i].segmentFlags)
      ensures r.Err? ==> r.error == InvalidOtxLayout
      ensures r.Ok? ==> r.value == LayoutAt(old(State()), witnessIndex, otx) && State() == Advance(old(State()), otx)
    {
      ghost var c := State();
      var baseInputs, baseOutputs, baseCellDeps, baseHeaderDeps :=
        TakeRanges(otx.baseInputCells, otx.baseOutputCells, otx.baseCellDeps, otx.baseHeaderDeps);
      var inputStart, outputStart, cellDepStart, headerDepStart := nextInput, nextOutput, nextCellDep, nextHeaderDep;
      var segments: seq<OtxAppendSegmentLayout> := [];
      for j := 0 to |otx.appendSegments|
        invariant forall i: nat | i < j :: ValidFlags(otx.appendSegments[i].segmentFlags)
        invariant State() == AfterSegments(c, otx, j)
        invariant |segments| == j && forall i: nat | i < j :: segments[i] == SegmentLayout(c, otx, i)
      {
        if !ValidFlags(otx.appendSegments[j].segmentFlags) {
          return Err(InvalidOtxLayout);
        }
        var layout := TakeSegment(otx.appendSegments[j], c, otx, j);
        segments := segments + [layout];
      }
      assert segments == LayoutAt(c, witnessIndex, otx).appendSegments;
      return Ok(OtxLayout(
        witnessIndex,
        baseInputs, Range(inputStart, nextInput - inputStart),
        baseOutputs, Range(outputStart, nextOutput - outputStart),
        baseCellDeps, Range(cellDepStart, nextCellDep - cellDepStart),
        baseHeaderDeps, Range(headerDepStart, nextHeaderDep - headerDepStart),
        segments));
    }

    method EnsureWithin(limits: Counts) returns (r: Result<()>)
      ensures r == if Within(State(), limits) then Ok(()) else Err(InvalidOtxLayout)
    {
      if nextInput > limits.inputs || nextOutput > limits.outputs {
        return Err(InvalidOtxLayout);
      }
      if nextCellDep > limits.cellDeps || nextHeaderDep > limits.headerDeps {
        return Err(InvalidOtxLayout);
      }
      return Ok(());
    }
  }

  method ValidateOtxView(otx: OtxView) returns (r: Result<()>)
    ensures r == if ValidOtxView(otx) then Ok(()) else Err(InvalidOtxLayout)
  {
    if otx.baseInputCells == 0 || !ValidPermissions(otx.appendPermissions) {
      return Err(InvalidOtxLayout);
    }
    var appendsInputs, appendsOutputs, appendsCellDeps, appendsHeaderDeps := false, false, false, false;
    for i := 0 to |otx.appendSegments|
      invariant forall j: nat | j < i ::
                  && ValidFlags(otx.appendSegments[j].segmentFlags)
                  && (j + 1 != |otx.appendSegments| ==> AllowsMoreAfter(otx.appendSegments[j].segmentFlags))
      invariant appendsInputs == exists j: nat | j < i :: otx.appendSegments[j].Count(Inputs) > 0
      invariant appendsOutputs == exists j: nat | j < i :: otx.appendSegments[j].Count(Outputs) > 0
      invariant appendsCellDeps == exists j: nat | j < i :: otx.appendSegments[j].Count(CellDeps) > 0
      invariant appendsHeaderDeps == exists j: nat | j < i :: otx.appendSegments[j].Count(HeaderDeps) > 0
    {
      var segment := otx.appendSegments[i];
      if !ValidFlags(segment.segmentFlags) {
        return Err(InvalidOtxLayout);
      }
      if i + 1 != |otx.appendSegments| && !AllowsMoreAfter(segment.segmentFlags) {
        return Err(InvalidOtxLayout);
      }
      appendsInputs := appendsInputs || segment.inputCells > 0;
      appendsOutputs := appendsOutputs || segment.outputCells > 0;
      appendsCellDeps := appendsCellDeps || segment.cellDeps > 0;
      appendsHeaderDeps := appendsHeaderDeps || segment.headerDeps > 0;
    }
    assert appendsInputs == Appends(otx, Inputs) && appendsOutputs == Appends(otx, Outputs);
    assert appendsCellDeps == Appends(otx, CellDeps) && appendsHeaderDeps == Appends(otx, HeaderDeps);
    if || (appendsInputs && !Bit(otx.appendPermissions, Inputs.PermissionBit()))
       || (appendsOutputs && !Bit(otx.appendPermissions, Outputs.PermissionBit()))
       || (appendsCellDeps && !Bit(otx.appendPermissions, CellDeps.PermissionBit()))
       || (appendsHeaderDeps && !Bit(otx.appendPermissions, HeaderDeps.PermissionBit()))
    {
      return Err(InvalidOtxLayout);
    }
    if MasksValid(otx) {
      return Ok(());
    }
    return Err(InvalidOtxLayout);
  }
}
