/** When a witness is legacy, when the scan succeeds, and what it then says, in terms of the witness bytes. */
module ScanExact {
  import opened Base
  import opened Entity
  import opened LazyReader
  import opened View
  import opened Layout
  import opened OtxRules
  import opened Transaction
  import opened Collector
  import opened LazyCodec
  import opened Witness
  import opened Language
  import opened Context
  import opened Engine
  import opened BuiltFacts

  /** The witness starts with the id of a variant of the witness union. */
  predicate HasVariantId(w: Cursor)
    requires w.InBounds()
  {
    w.size >= 4 && ItemSchema(NumberAt(w.Content(), 0)).Some?
  }

  lemma IdRead(w: Cursor)
    requires w.InBounds() && w.size >= 4
    ensures w.Number() == Some(NumberAt(w.Content(), 0))
    ensures w.Read(4).Some? && |w.Read(4).value| == 4 && NumberAt(w.Read(4).value, 0) == NumberAt(w.Content(), 0)
  {
    NumberOfWindow(w, w.Content());
    var read := w.Read(4).value;
    assert read == w.Content()[0..4] && read[0..4] == read;
  }

  /** A witness is legacy exactly when it names no variant; one that does is read as it, or refused. */
  lemma LegacyExactly(w: Cursor)
    requires w.InBounds() && w.size > 0
    ensures Classify(w) == Ok((Legacy, Ignore)) <==> !HasVariantId(w)
    ensures HasVariantId(w) && FromCursor(w).Err? ==> FromCursor(w) == Err(InvalidOtxLayout)
    ensures HasVariantId(w) && FromCursor(w).Err? ==> Classify(w) == Err(InvalidOtxLayout)
  {
    if w.size >= 4 {
      IdRead(w);
    }
  }

  /** Nothing, legacy bytes, or a variant whose fields can be read. */
  predicate Scannable(w: Cursor)
    requires w.InBounds()
  {
    || w.size == 0
    || !HasVariantId(w)
    || (&& FromCursor(w).Ok?
        && SummarizeCobuild(FromCursor(w).value).Ok?
        && LayoutWitnessOf(FromCursor(w).value).Ok?)
  }

  lemma ClassifySucceeds(w: Cursor)
    requires w.InBounds()
    ensures Classify(w).Ok? <==> Scannable(w)
  {
    if w.size > 0 {
      LegacyExactly(w);
      if w.size >= 4 {
        IdRead(w);
      }
    }
  }

  /** What a witness is to the layout: the start or the OTX it is read as, or nothing. */
  function KindOf(w: Cursor): LayoutWitness {
    if w.size == 0 || FromCursor(w).Err? then Ignore else KindOfView(FromCursor(w).value)
  }

  function KindOfView(view: CobuildWitnessLayout): LayoutWitness {
    match view
    case OtxStart(c) => if OtxStartViewOf(c).Ok? then StartWitness(OtxStartViewOf(c).value) else Ignore
    case Otx(c) => if OtxViewOf(c).Ok? then OtxWitness(OtxViewOf(c).value) else Ignore
    case SighashAll(_) => Ignore
    case SighashAllOnly(_) => Ignore
  }

  /** What a witness is to its lock group: a carrier with its seal and message, silent, or something else. */
  function SummaryOf(w: Cursor): Summary {
    if w.size == 0 then Empty else if FromCursor(w).Err? then Legacy else SummaryOfView(FromCursor(w).value)
  }

  function SummaryOfView(view: CobuildWitnessLayout): Summary {
    match view
    case SighashAll(c) =>
      if c.SliceRaw(0).Some? && c.Slice(1).Some? then SighashAllSummary(c.SliceRaw(0).value, c.Slice(1).value)
      else OtherCobuildLayout
    case SighashAllOnly(c) =>
      if c.SliceRaw(0).Some? then SighashAllOnlySummary(c.SliceRaw(0).value) else OtherCobuildLayout
    case Otx(_) => OtherCobuildLayout
    case OtxStart(_) => OtherCobuildLayout
  }

  function Kinds(ws: seq<Cursor>): seq<LayoutWitness> {
    seq(|ws|, i requires 0 <= i < |ws| => KindOf(ws[i]))
  }

  lemma MeaningOf(w: Cursor)
    requires Classify(w).Ok?
    ensures Classify(w).value.1 == KindOf(w)
    ensures Classify(w).value.0 == SummaryOf(w)
  {
    if w.size > 0 && FromCursor(w).Ok? {
      ViewMeaning(FromCursor(w).value);
    }
  }

  lemma ViewMeaning(view: CobuildWitnessLayout)
    requires LayoutWitnessOf(view).Ok? && SummarizeCobuild(view).Ok?
    ensures LayoutWitnessOf(view).value == KindOfView(view) && SummarizeCobuild(view).value == SummaryOfView(view)
  {}

  lemma MeaningsAreKinds(ws: seq<Cursor>)
    requires AllClassified(Classified(ws))
    ensures Meanings(Classified(ws)) == Kinds(ws)
  {
    forall i: nat | i < |ws| ensures Meanings(Classified(ws))[i] == KindOf(ws[i]) {
      assert Classified(ws)[i] == Classify(ws[i]);
      MeaningOf(ws[i]);
    }
  }

  // ---------- the whole scan ----------

  /** How many entities of a kind the first `n` OTXs take. */
  function Taken(otxs: seq<OtxView>, n: nat, k: Kind): nat
    requires n <= |otxs|
  {
    if n == 0 then 0 else Taken(otxs, n - 1, k) + Total(otxs[n - 1], k)
  }

  /** One start at `s`, rule-abiding OTXs right behind it, nothing else for the layout, and room for all of them. */
  predicate Block(ms: seq<LayoutWitness>, counts: Counts, s: nat, start: OtxStartView, otxs: seq<OtxView>) {
    && otxs != [] && s + |otxs| < |ms|
    && ms[s] == StartWitness(start)
    && (forall i: nat | i < |otxs| :: ms[s + 1 + i] == OtxWitness(otxs[i]) && Rules(otxs[i]))
    && (forall i: nat | i < |ms| && !(s <= i <= s + |otxs|) :: ms[i] == Ignore)
    && start.startInputCell + Taken(otxs, |otxs|, Inputs) <= counts.inputs
    && start.startOutputCell + Taken(otxs, |otxs|, Outputs) <= counts.outputs
    && start.startCellDeps + Taken(otxs, |otxs|, CellDeps) <= counts.cellDeps
    && start.startHeaderDeps + Taken(otxs, |otxs|, HeaderDeps) <= counts.headerDeps
  }

  predicate NoOtxKind(ms: seq<LayoutWitness>) { forall i: nat | i < |ms| :: ms[i] == Ignore }

  function Indexed(s: nat, otxs: seq<OtxView>): seq<(nat, OtxView)> {
    seq(|otxs|, i requires 0 <= i < |otxs| => (s + 1 + i, otxs[i]))
  }

  lemma {:induction false} CountsAre(start: OtxStartView, s: nat, otxs: seq<OtxView>, n: nat, k: Kind)
    requires n <= |otxs|
    ensures CountsBefore(StartCounts(start), Indexed(s, otxs), n).At(k) == start.Start(k) + Taken(otxs, n, k)
  {
    if n == 0 {
    } else {
      CountsAre(start, s, otxs, n - 1, k);
    }
  }

  lemma FitsExactly(counts: Counts, start: OtxStartView, s: nat, otxs: seq<OtxView>)
    ensures Within(CountsBefore(StartCounts(start), Indexed(s, otxs), |otxs|), counts)
       <==> && start.startInputCell + Taken(otxs, |otxs|, Inputs) <= counts.inputs
            && start.startOutputCell + Taken(otxs, |otxs|, Outputs) <= counts.outputs
            && start.startCellDeps + Taken(otxs, |otxs|, CellDeps) <= counts.cellDeps
            && start.startHeaderDeps + Taken(otxs, |otxs|, HeaderDeps) <= counts.headerDeps
  {
    CountsAre(start, s, otxs, |otxs|, Inputs);
    CountsAre(start, s, otxs, |otxs|, Outputs);
    CountsAre(start, s, otxs, |otxs|, CellDeps);
    CountsAre(start, s, otxs, |otxs|, HeaderDeps);
  }

  lemma AllAccepted(otxs: seq<OtxView>)
    ensures (forall i: nat | i < |otxs| :: ValidOtxView(otxs[i])) <==> forall i: nat | i < |otxs| :: Rules(otxs[i])
  {
    forall i: nat | i < |otxs| ensures ValidOtxView(otxs[i]) <==> Rules(otxs[i]) {
      AcceptedExactly(otxs[i]);
    }
  }

  lemma BlockIsOne(ms: seq<LayoutWitness>, counts: Counts, s: nat, start: OtxStartView, otxs: seq<OtxView>)
    requires Block(ms, counts, s, start, otxs)
    ensures OneBlock(ms, |ms|, s, |otxs|) && BlockOtxs(ms, s, |otxs|) == Indexed(s, otxs)
  {
    forall i: nat | s < i <= s + |otxs| ensures ms[i].OtxWitness? {
      assert ms[s + 1 + (i - s - 1)] == OtxWitness(otxs[i - s - 1]);
    }
  }

  lemma BlockBuilds(ms: seq<LayoutWitness>, counts: Counts, s: nat, start: OtxStartView, otxs: seq<OtxView>)
    requires Block(ms, counts, s, start, otxs)
    ensures BuiltFrom(ms, counts, BuiltOf(StartCounts(start), Indexed(s, otxs)), s, |otxs|)
  {
    BlockIsOne(ms, counts, s, start, otxs);
    FitsExactly(counts, start, s, otxs);
    AllAccepted(otxs);
  }

  lemma BuiltIsBlock(ms: seq<LayoutWitness>, counts: Counts, built: BuiltLayout, s: nat, count: nat)
    returns (start: OtxStartView, otxs: seq<OtxView>)
    requires BuiltFrom(ms, counts, built, s, count)
    ensures Block(ms, counts, s, start, otxs)
  {
    start := ms[s].start;
    otxs := seq(count, i requires 0 <= i < count => ms[s + 1 + i].otx);
    assert BlockOtxs(ms, s, count) == Indexed(s, otxs);
    FitsExactly(counts, start, s, otxs);
    forall i: nat | i < count ensures ValidOtxView(otxs[i]) {
      assert BlockOtxs(ms, s, count)[i].1 == otxs[i];
    }
    AllAccepted(otxs);
    forall i: nat | i < count ensures ms[s + 1 + i] == OtxWitness(otxs[i]) {}
  }

  const NOTHING := BuiltLayout(Range(0, 0), Range(0, 0), [])

  lemma ScanSucceedsExactly(cs: seq<Classification>, counts: Counts)
    ensures ScanAll(cs, counts).Ok? <==>
              && AllClassified(cs)
              && (NoOtxKind(Meanings(cs)) || exists s: nat, start, otxs :: Block(Meanings(cs), counts, s, start, otxs))
  {
    var scan := ScanAll(cs, counts);
    if scan.Ok? {
      var built := if scan.value.otxLayouts.Complete? then scan.value.otxLayouts.layout else NOTHING;
      ScanLanguage(cs, counts, built);
      if scan.value.otxLayouts.Complete? {
        var s: nat, count: nat :| BuiltFrom(Meanings(cs), counts, built, s, count);
        var start, otxs := BuiltIsBlock(Meanings(cs), counts, built, s, count);
      }
    }
    if AllClassified(cs) {
      ScanLanguage(cs, counts, NOTHING);
      if s: nat, start, otxs :| Block(Meanings(cs), counts, s, start, otxs) {
        BlockBuilds(Meanings(cs), counts, s, start, otxs);
        ScanLanguage(cs, counts, BuiltOf(StartCounts(start), Indexed(s, otxs)));
      }
    }
  }

  /**
   * Exactly when a context can be built: every witness is empty, legacy, or readable as the variant it names; and
   * those of the OTX kinds are none at all or one block of rule-abiding OTXs that fits the transaction.
   */
  lemma BuildSucceedsExactly(tx: Tx, current: CurrentScript)
    requires Readable(tx)
    ensures Build(tx, current).Ok? <==>
              && (forall i: nat | i < |tx.witnesses| :: Scannable(tx.witnesses[i]))
              && (NoOtxKind(Kinds(tx.witnesses))
                  || exists s: nat, start, otxs :: Block(Kinds(tx.witnesses), tx.EntityCounts(), s, start, otxs))
  {
    var cs := Classified(tx.witnesses);
    forall i: nat | i < |tx.witnesses| ensures cs[i].Ok? <==> Scannable(tx.witnesses[i]) {
      ClassifySucceeds(tx.witnesses[i]);
    }
    ScanSucceedsExactly(cs, tx.EntityCounts());
    if AllClassified(cs) {
      MeaningsAreKinds(tx.witnesses);
    }
  }

  // ---------- errors ----------

  predicate Malformed<T>(r: Result<T>) { r.Err? ==> r.error == MalformedCobuild }

  lemma LockSealsMalformed(c: Cursor)
    ensures Malformed(LockSeals(c))
  {}

  lemma SegmentMalformed(c: Cursor)
    ensures Malformed(AppendSegmentOf(c))
  {
    if c.Slice(5).Some? {
      LockSealsMalformed(c.Slice(5).value);
    }
  }

  lemma SegmentsMalformed(c: Cursor)
    ensures Malformed(AppendSegments(c))
  {
    forall i: nat ensures Malformed(AppendSegmentAt(c)(i)) {
      if c.Slice(i).Some? {
        SegmentMalformed(c.Slice(i).value);
      }
    }
  }

  lemma MaskMalformed(c: Cursor, field: nat)
    ensures Malformed(CountAndMask(c, field))
  {}

  lemma OtxMalformed(c: Cursor)
    ensures Malformed(OtxViewOf(c))
  {
    if c.Slice(10).Some? {
      SegmentsMalformed(c.Slice(10).value);
    }
    if c.Slice(11).Some? {
      LockSealsMalformed(c.Slice(11).value);
    }
    MaskMalformed(c, 2);
    MaskMalformed(c, 4);
    MaskMalformed(c, 6);
    MaskMalformed(c, 8);
  }

  lemma ViewMalformed(view: CobuildWitnessLayout)
    ensures Malformed(SummarizeCobuild(view)) && Malformed(LayoutWitnessOf(view))
  {
    if view.Otx? {
      OtxMalformed(view.item);
    }
  }

  /** A witness is refused for its tables, or for a field of sound tables that cannot be read. */
  lemma ClassifyError(w: Cursor)
    requires w.InBounds() && Classify(w).Err?
    ensures HasVariantId(w) && Classify(w).error == if FromCursor(w).Err? then InvalidOtxLayout else MalformedCobuild
  {
    LegacyExactly(w);
    if FromCursor(w).Ok? {
      ViewMalformed(FromCursor(w).value);
      IdRead(w);
    }
  }

  lemma {:induction false} PrefixError(cs: seq<Classification>, n: nat)
    requires n <= |cs| && ScanPrefix(cs, n).Err?
    ensures ScanPrefix(cs, n).error == InvalidOtxLayout
         || exists i: nat | i < n :: cs[i] == Err(ScanPrefix(cs, n).error)
  {
    if n == 0 {
    } else if ScanPrefix(cs, n - 1).Err? {
      PrefixError(cs, n - 1);
    }
  }

  /** The errors of a build: InvalidOtxLayout, or MalformedCobuild where a variant's field cannot be read. */
  lemma BuildError(tx: Tx, current: CurrentScript)
    requires Readable(tx) && Build(tx, current).Err? && Build(tx, current).error != InvalidOtxLayout
    ensures Build(tx, current).error == MalformedCobuild
    ensures exists i: nat | i < |tx.witnesses| :: FromCursor(tx.witnesses[i]).Ok? && !Scannable(tx.witnesses[i])
  {
    var cs := Classified(tx.witnesses);
    PrefixError(cs, |cs|);
    var i: nat :| i < |cs| && cs[i] == Err(Build(tx, current).error);
    assert cs[i] == Classify(tx.witnesses[i]);
    ClassifyError(tx.witnesses[i]);
    ClassifySucceeds(tx.witnesses[i]);
  }

  /** The flag says whether some witness names a variant. */
  lemma FlagMeaning(tx: Tx, current: CurrentScript, cx: CobuildContext)
    requires Build(tx, current) == Ok(cx) && Readable(tx)
    ensures cx.witnesses.hasCobuildWitnessLayout <==>
              exists i: nat | i < |tx.witnesses| :: HasVariantId(tx.witnesses[i])
  {
    SummariesOfWitnesses(tx, current, cx);
    forall i: nat | i < |tx.witnesses|
      ensures cx.witnesses.summaries[i].IsCobuild() <==> HasVariantId(tx.witnesses[i])
    {
      SummaryIsCobuild(tx.witnesses[i]);
    }
  }

  lemma SummaryIsCobuild(w: Cursor)
    requires w.InBounds() && Classify(w).Ok?
    ensures Classify(w).value.0.IsCobuild() <==> HasVariantId(w)
  {
    MeaningOf(w);
    if w.size > 0 {
      LegacyExactly(w);
      if FromCursor(w).Ok? {
        IdRead(w);
      }
    }
  }

  // ---------- where the OTXs stand ----------

  /** The first stands at the start's numbers, each other right behind the one before. */
  predicate InLine(start: OtxStartView, entries: seq<OtxLayoutEntry>) {
    && entries != []
    && entries[0].layout.baseInputs.start == start.startInputCell
    && entries[0].layout.baseOutputs.start == start.startOutputCell
    && entries[0].layout.baseCellDeps.start == start.startCellDeps
    && entries[0].layout.baseHeaderDeps.start == start.startHeaderDeps
    && forall i: nat | i + 1 < |entries| :: Adjoin(entries[i].layout, entries[i + 1].layout)
  }

  predicate Adjoin(l: OtxLayout, m: OtxLayout) {
    && m.baseInputs.start == l.appendInputs.End() && m.baseOutputs.start == l.appendOutputs.End()
    && m.baseCellDeps.start == l.appendCellDeps.End() && m.baseHeaderDeps.start == l.appendHeaderDeps.End()
  }

  lemma EntriesInLine(start: OtxStartView, otxs: seq<(nat, OtxView)>)
    requires otxs != []
    ensures InLine(start, Entries(StartCounts(start), otxs))
  {
    var entries := Entries(StartCounts(start), otxs);
    forall i: nat | i + 1 < |entries| ensures Adjoin(entries[i].layout, entries[i + 1].layout) {
      assert CountsBefore(StartCounts(start), otxs, i + 1)
          == Advance(CountsBefore(StartCounts(start), otxs, i), otxs[i].1);
    }
  }

  /** Entry `i` is the OTX read from the witness `i` places behind the start. */
  predicate ReadFrom(ms: seq<LayoutWitness>, s: nat, entries: seq<OtxLayoutEntry>) {
    forall i: nat | i < |entries| ::
      entries[i].layout.witnessIndex == s + 1 + i < |ms| && ms[s + 1 + i] == OtxWitness(entries[i].view)
  }

  /** The OTXs of a built context are those behind its start witness, and stand, kind by kind, where that says. */
  lemma StandsWhereStartSays(tx: Tx, current: CurrentScript, cx: CobuildContext) returns (s: nat, start: OtxStartView)
    requires Build(tx, current) == Ok(cx) && cx.otxLayouts.Complete?
    ensures s < |tx.witnesses| && Kinds(tx.witnesses)[s] == StartWitness(start)
    ensures InLine(start, cx.OtxEntries()) && ReadFrom(Kinds(tx.witnesses), s, cx.OtxEntries())
  {
    var otxs;
    s, start, otxs := LayoutOrigin(tx, current, cx);
    EntriesInLine(start, otxs);
    KindsTell(tx.witnesses);
    OtxsRead(Classified(tx.witnesses), Kinds(tx.witnesses), s, otxs);
    EntriesRead(Kinds(tx.witnesses), s, start, otxs);
  }

  predicate ReadAt(ms: seq<LayoutWitness>, s: nat, otxs: seq<(nat, OtxView)>, i: nat)
    requires i < |otxs|
  {
    otxs[i].0 == s + 1 + i < |ms| && ms[s + 1 + i] == OtxWitness(otxs[i].1)
  }

  /** What a classified witness means to the layout. */
  predicate Tells(cs: seq<Classification>, ms: seq<LayoutWitness>) {
    |ms| == |cs| && forall n: nat | n < |cs| && cs[n].Ok? :: ms[n] == cs[n].value.1
  }

  lemma KindsTell(ws: seq<Cursor>)
    ensures Tells(Classified(ws), Kinds(ws))
  {
    forall n: nat | n < |ws| && Classified(ws)[n].Ok? ensures KindOf(ws[n]) == Classified(ws)[n].value.1 {
      assert Classified(ws)[n] == Classify(ws[n]);
      MeaningOf(ws[n]);
    }
  }

  lemma OtxsRead(cs: seq<Classification>, ms: seq<LayoutWitness>, s: nat, otxs: seq<(nat, OtxView)>)
    requires Tells(cs, ms) && forall i: nat | i < |otxs| :: OtxAt(cs, s, otxs, i)
    ensures forall i: nat | i < |otxs| :: ReadAt(ms, s, otxs, i)
  {
    forall i: nat | i < |otxs| ensures ReadAt(ms, s, otxs, i) {
      assert OtxAt(cs, s, otxs, i);
    }
  }

  lemma EntryRead(ms: seq<LayoutWitness>, s: nat, from: Counts, otxs: seq<(nat, OtxView)>, i: nat)
    requires i < |otxs| && ReadAt(ms, s, otxs, i)
    ensures EntryAt(from, otxs, i).layout.witnessIndex == s + 1 + i < |ms|
    ensures ms[s + 1 + i] == OtxWitness(EntryAt(from, otxs, i).view)
  {}

  lemma EntriesRead(ms: seq<LayoutWitness>, s: nat, start: OtxStartView, otxs: seq<(nat, OtxView)>)
    requires forall i: nat | i < |otxs| :: ReadAt(ms, s, otxs, i)
    ensures ReadFrom(ms, s, Entries(StartCounts(start), otxs))
  {
    var from := StartCounts(start);
    var entries := Entries(from, otxs);
    forall i: nat | i < |entries|
      ensures entries[i].layout.witnessIndex == s + 1 + i < |ms| && ms[s + 1 + i] == OtxWitness(entries[i].view)
    {
      assert entries[i] == EntryAt(from, otxs, i);
      EntryRead(ms, s, from, otxs, i);
    }
  }
}
