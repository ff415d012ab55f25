/** The witness scanner: one pass that records tx-level carriers and feeds the layout collector. */
module Witness {
  import opened Base
  import opened LazyReader
  import opened View
  import opened Layout
  import opened Collector

  datatype Summary =
    | Empty
    | Legacy
    | OtherCobuildLayout
    | SighashAllSummary(seal: Cursor, message: Cursor)
    | SighashAllOnlySummary(seal: Cursor)
  {
    predicate IsCobuild() { !Empty? && !Legacy? }
  }

  datatype CarrierView = WithMessage(seal: Cursor, message: Cursor) | SealOnly(seal: Cursor)

  /** Does the witness claim one of the four reserved ids? */
  function HasCobuildId(w: Cursor): Result<bool> {
    if w.size < 4 then Ok(false)
    else
      var prefix :- w.Read(4).OrErr(MalformedCobuild);
      Ok(|prefix| == 4 && 0xff00_0001 <= NumberAt(prefix, 0) <= 0xff00_0004)
  }

  function SummarizeCobuild(w: CobuildWitnessLayout): Result<Summary> {
    match w
    case SighashAll(c) =>
      (var seal :- c.SliceRaw(0).OrErr(MalformedCobuild);
       var message :- c.Slice(1).OrErr(MalformedCobuild);
       Ok(SighashAllSummary(seal, message)))
    case SighashAllOnly(c) =>
      (var seal :- c.SliceRaw(0).OrErr(MalformedCobuild);
       Ok(SighashAllOnlySummary(seal)))
    case _ => Ok(OtherCobuildLayout)
  }

  /** What one witness contributes: its tx-level summary and its meaning for the layout. */
  function Classify(w: Cursor): Result<(Summary, LayoutWitness)> {
    if w.size == 0 then Ok((Empty, Ignore))
    else
      match FromCursor(w)
      case Ok(view) =>
        (var summary :- SummarizeCobuild(view);
         var layout :- LayoutWitnessOf(view);
         Ok((summary, layout)))
      case Err(e) =>
        (var claimed :- HasCobuildId(w);
         if claimed then Err(e) else Ok((Legacy, Ignore)))
  }

  // ---------- the scan as a function of the classified witnesses ----------

  type Classification = Result<(Summary, LayoutWitness)>

  function Classified(ws: seq<Cursor>): seq<Classification> {
    seq(|ws|, i requires 0 <= i < |ws| => Classify(ws[i]))
  }

  datatype Scan = Scan(summaries: seq<Summary>, collected: Collected)

  function ScanPrefix(cs: seq<Classification>, n: nat): (r: Result<Scan>)
    requires n <= |cs|
    ensures r.Ok? ==> |r.value.summaries| == n && r.value.collected.Contiguous()
  {
    if n == 0 then Ok(Scan([], EMPTY))
    else
      var before :- ScanPrefix(cs, n - 1);
      var c :- cs[n - 1];
      var collected :- Record(before.collected, n - 1, c.1);
      Ok(Scan(before.summaries + [c.0], collected))
  }

  datatype ScannedWitnesses = ScannedWitnesses(txLevel: WitnessScan, otxLayouts: OtxLayouts)

  function ScanAll(cs: seq<Classification>, limits: Counts): Result<ScannedWitnesses> {
    var scan :- ScanPrefix(cs, |cs|);
    var layouts :- FinishLayout(scan.collected.start, scan.collected.otxs, limits);
    Ok(ScannedWitnesses(WitnessScan(scan.summaries, HasCobuild(scan.summaries)), layouts))
  }

  predicate HasCobuild(summaries: seq<Summary>) {
    exists i: nat | i < |summaries| :: summaries[i].IsCobuild()
  }

  // ---------- what the planner asks of a finished scan ----------

  datatype WitnessScan = WitnessScan(summaries: seq<Summary>, hasCobuildWitnessLayout: bool) {
    /** The position of the one SighashAll witness among the first `n`; two are an error. */
    function UniqueMessageBefore(n: nat): Result<Option<(nat, Cursor)>>
      requires n <= |summaries|
    {
      if n == 0 then Ok(None)
      else
        var found :- UniqueMessageBefore(n - 1);
        if !summaries[n - 1].SighashAllSummary? then Ok(found)
        else if found.Some? then Err(DuplicateSighashAll)
        else Ok(Some((n - 1, summaries[n - 1].message)))
    }

    function UniqueMessage(): Result<Option<(nat, Cursor)>> { UniqueMessageBefore(|summaries|) }

    function CarrierView(index: nat): Result<CarrierView> {
      if index < |summaries| && summaries[index].SighashAllSummary? then
        Ok(WithMessage(summaries[index].seal, summaries[index].message))
      else if index < |summaries| && summaries[index].SighashAllOnlySummary? then
        Ok(SealOnly(summaries[index].seal))
      else Err(InvalidLockGroupWitness)
    }

    /** Every listed witness except the carrier's is empty or missing. */
    predicate OthersEmpty(indices: seq<nat>, carrier: nat) {
      forall i: nat | i < |indices| && indices[i] != carrier ::
        indices[i] >= |summaries| || summaries[indices[i]].Empty?
    }

    method FindUniqueMessage() returns (r: Result<Option<(nat, Cursor)>>)
      ensures r == UniqueMessage()
    {
      var message: Option<(nat, Cursor)> := None;
      for index := 0 to |summaries|
        invariant UniqueMessageBefore(index) == Ok(message)
      {
        if summaries[index].SighashAllSummary? {
          if message.Some? {
            DuplicateStays(index + 1);
            return Err(DuplicateSighashAll);
          }
          message := Some((index, summaries[index].message));
        }
      }
      return Ok(message);
    }

    lemma {:induction false} DuplicateStays(n: nat)
      requires n <= |summaries| && UniqueMessageBefore(n).Err?
      ensures UniqueMessage() == Err(DuplicateSighashAll)
      decreases |summaries| - n
    {
      MessageErrorIsDuplicate(n);
      if n == |summaries| {
      } else {
        DuplicateStays(n + 1);
      }
    }

    lemma {:induction false} MessageErrorIsDuplicate(n: nat)
      requires n <= |summaries|
      ensures UniqueMessageBefore(n).Err? ==> UniqueMessageBefore(n).error == DuplicateSighashAll
    {
      if n == 0 {
      } else {
        MessageErrorIsDuplicate(n - 1);
      }
    }

    method EnsureNonCarrierWitnessesEmpty(indices: seq<nat>, carrier: nat) returns (r: Result<()>)
      ensures r == if OthersEmpty(indices, carrier) then Ok(()) else Err(InvalidLockGroupWitness)
    {
      for i := 0 to |indices|
        invariant forall j: nat | j < i && indices[j] != carrier ::
                    indices[j] >= |summaries| || summaries[indices[j]].Empty?
      {
        if indices[i] != carrier && indices[i] < |summaries| && !summaries[indices[i]].Empty? {
          return Err(InvalidLockGroupWitness);
        }
      }
      return Ok(());
    }
  }

  /** What the loop finds, said of the whole scan: exactly one position, or none, or a duplicate. */
  lemma {:induction false} UniqueMessageMeaning(scan: WitnessScan, n: nat)
    requires n <= |scan.summaries|
    ensures match scan.UniqueMessageBefore(n)
            case Ok(None) => forall i: nat | i < n :: !scan.summaries[i].SighashAllSummary?
            case Ok(Some(found)) =>
              && found.0 < n
              && scan.summaries[found.0].SighashAllSummary?
              && scan.summaries[found.0].message == found.1
              && forall i: nat | i < n && scan.summaries[i].SighashAllSummary? :: i == found.0
            case Err(e) =>
              && e == DuplicateSighashAll
              && exists i: nat, j: nat | i < j < n ::
                   scan.summaries[i].SighashAllSummary? && scan.summaries[j].SighashAllSummary?
  {
    if n == 0 {
    } else {
      UniqueMessageMeaning(scan, n - 1);
    }
  }

  // ---------- the scanner ----------

  class CobuildWitnessScanner {
    var summaries: seq<Summary>
    var hasCobuildWitnessLayout: bool
    const collector: OtxLayoutCollector
    var witnessCount: nat

    function State(): Scan
      reads this, collector
    {
      Scan(summaries, collector.State())
    }

    ghost predicate Valid()
      reads this, collector
    {
      && collector.Valid()
      && witnessCount == |summaries|
      && hasCobuildWitnessLayout == HasCobuild(summaries)
    }

    constructor ()
      ensures Valid() && fresh(collector) && State() == Scan([], EMPTY)
    {
      summaries := [];
      hasCobuildWitnessLayout := false;
      witnessCount := 0;
      collector := new OtxLayoutCollector();
    }

    method RecordWitnessSummary(summary: Summary)
      modifies this`summaries, this`hasCobuildWitnessLayout
      ensures summaries == old(summaries) + [summary]
      ensures old(hasCobuildWitnessLayout == HasCobuild(summaries)) ==> hasCobuildWitnessLayout == HasCobuild(summaries)
    {
      if summary.IsCobuild() {
        hasCobuildWitnessLayout := true;
      }
      summaries := summaries + [summary];
      assert summaries[|summaries| - 1] == summary;
      assert forall i: nat | i < |summaries| - 1 :: summaries[i] == old(summaries)[i];
    }

    /** One witness: the state becomes what the scan function says, or its error comes out. */
    method PushWitness(w: Cursor, ghost meaning: Classification) returns (r: Result<()>)
      requires Valid() && meaning == Classify(w)
      modifies this, collector
      ensures meaning.Err? ==> r == Err(meaning.error)
      ensures meaning.Ok? ==>
                match Record(old(State()).collected, old(witnessCount), meaning.value.1)
                case Ok(c) => r == Ok(()) && Valid() && State() == Scan(old(summaries) + [meaning.value.0], c)
                case Err(e) => r == Err(e)
    {
      var index := witnessCount;
      witnessCount := witnessCount + 1;
      if w.size == 0 {
        RecordWitnessSummary(Empty);
        return Ok(());
      }
      match FromCursor(w)
      case Ok(view) =>
        var summary :- SummarizeCobuild(view);
        RecordWitnessSummary(summary);
        r := collector.RecordCobuildLayout(index, view);
      case Err(e) =>
        var claimed :- HasCobuildId(w);
        if claimed {
          return Err(e);
        }
        RecordWitnessSummary(Legacy);
        return Ok(());
    }

    method Finish(limits: Counts) returns (r: Result<ScannedWitnesses>)
      requires Valid()
      ensures match FinishLayout(State().collected.start, State().collected.otxs, limits)
              case Ok(layouts) => r == Ok(ScannedWitnesses(WitnessScan(summaries, HasCobuild(summaries)), layouts))
              case Err(e) => r == Err(e)
    {
      var layouts :- collector.Finish(limits);
      return Ok(ScannedWitnesses(WitnessScan(summaries, hasCobuildWitnessLayout), layouts));
    }
  }

  /** The scanning loop of `CobuildContext::build`. */
  method ScanEach(scanner: CobuildWitnessScanner, ws: seq<Cursor>) returns (r: Result<()>)
    requires scanner.Valid() && scanner.State() == Scan([], EMPTY)
    modifies scanner, scanner.collector
    ensures match ScanPrefix(Classified(ws), |ws|)
            case Ok(scan) => r == Ok(()) && scanner.Valid() && scanner.State() == scan
            case Err(e) => r == Err(e)
  {
    ghost var cs := Classified(ws);
    for index := 0 to |ws|
      invariant scanner.Valid() && ScanPrefix(cs, index) == Ok(scanner.State())
    {
      r := scanner.PushWitness(ws[index], cs[index]);
      if r.Err? {
        ScanStops(cs, index + 1);
        return;
      }
    }
    return Ok(());
  }

  method ScanWitnesses(ws: seq<Cursor>, limits: Counts) returns (r: Result<ScannedWitnesses>)
    ensures r == ScanAll(Classified(ws), limits)
  {
    var scanner := new CobuildWitnessScanner();
    var _ :- ScanEach(scanner, ws);
    r := scanner.Finish(limits);
  }

  lemma {:induction false} ScanStops(cs: seq<Classification>, n: nat)
    requires n <= |cs| && ScanPrefix(cs, n).Err?
    ensures ScanPrefix(cs, |cs|) == Err(ScanPrefix(cs, n).error)
    decreases |cs| - n
  {
    if n == |cs| {
    } else {
      ScanStops(cs, n + 1);
    }
  }
}
