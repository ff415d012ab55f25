/** What a built context is known to hold: where its layout comes from, and what every OTX in it looks like. */
module BuiltFacts {
  import opened Base
  import opened LazyReader
  import opened View
  import opened Layout
  import opened Transaction
  import opened Collector
  import opened Witness
  import opened Language
  import opened Partition
  import opened LazyFacts
  import opened Scope
  import opened Context
  import opened Plan
  import opened Engine

  /** Witness `i` was classified as this layout witness. */
  predicate Means(cs: seq<Classification>, i: nat, w: LayoutWitness) {
    i < |cs| && cs[i] == Ok((OtherCobuildLayout, w))
  }

  /** The witness behind OTX `i` of a layout whose start stands at `s`. */
  predicate OtxAt(cs: seq<Classification>, s: nat, otxs: seq<(nat, OtxView)>, i: nat)
    requires i < |otxs|
  {
    otxs[i].0 == s + 1 + i && ValidOtxView(otxs[i].1) && Means(cs, s + 1 + i, OtxWitness(otxs[i].1))
  }

  /** The built layout is that of the start at witness `s` and the OTXs right behind it. */
  predicate LayoutFrom(cs: seq<Classification>, limits: Counts, built: BuiltLayout, s: nat, start: OtxStartView,
                       otxs: seq<(nat, OtxView)>)
  {
    && built == BuiltOf(StartCounts(start), otxs)
    && otxs != []
    && Means(cs, s, StartWitness(start))
    && (forall i: nat | i < |otxs| :: OtxAt(cs, s, otxs, i))
    && Within(CountsBefore(StartCounts(start), otxs, |otxs|), limits)
  }

  predicate Origin(cx: CobuildContext, s: nat, start: OtxStartView, otxs: seq<(nat, OtxView)>) {
    cx.otxLayouts.Complete?
    && LayoutFrom(Classified(cx.tx.witnesses), cx.tx.EntityCounts(), cx.otxLayouts.layout, s, start, otxs)
  }

  /** Every witness that means something to the layout is a Cobuild witness of no other use. */
  predicate LayoutWitnessesAreCobuild(cs: seq<Classification>) {
    forall i: nat | i < |cs| && cs[i].Ok? && cs[i].value.1 != Ignore :: cs[i].value.0 == OtherCobuildLayout
  }

  lemma ClassifiedAreCobuild(ws: seq<Cursor>)
    ensures LayoutWitnessesAreCobuild(Classified(ws))
  {
    forall i: nat | i < |ws| && Classify(ws[i]).Ok? && Classify(ws[i]).value.1 != Ignore
      ensures Classify(ws[i]).value.0 == OtherCobuildLayout {}
  }

  lemma ScanOrigin(cs: seq<Classification>, limits: Counts, layouts: OtxLayouts)
    returns (s: nat, start: OtxStartView, otxs: seq<(nat, OtxView)>)
    requires LayoutWitnessesAreCobuild(cs) && ScansTo(cs, limits, layouts) && layouts.Complete?
    ensures LayoutFrom(cs, limits, layouts.layout, s, start, otxs)
  {
    var c := ScanPrefix(cs, |cs|).value.collected;
    ScanClassifies(cs, |cs|);
    ScanCollects(cs, |cs|);
    CollectedMirrors(Meanings(cs), |cs|);
    s, start, otxs := c.start.value.0, c.start.value.1, c.otxs;
    assert Meanings(cs)[s] == StartWitness(start);
    forall i: nat | i < |otxs| ensures OtxAt(cs, s, otxs, i) {
      assert Meanings(cs)[s + 1 + i] == OtxWitness(otxs[i].1);
    }
  }

  lemma LayoutOrigin(tx: Tx, current: CurrentScript, cx: CobuildContext)
    returns (s: nat, start: OtxStartView, otxs: seq<(nat, OtxView)>)
    requires Build(tx, current) == Ok(cx) && cx.otxLayouts.Complete?
    ensures Origin(cx, s, start, otxs)
  {
    ClassifiedAreCobuild(tx.witnesses);
    s, start, otxs := ScanOrigin(Classified(tx.witnesses), tx.EntityCounts(), cx.otxLayouts);
  }

  /** The summaries are those of the witnesses, one each, and the flag says whether one is Cobuild. */
  lemma SummariesOfWitnesses(tx: Tx, current: CurrentScript, cx: CobuildContext)
    requires Build(tx, current) == Ok(cx)
    ensures cx.tx == tx && cx.script == ContextOf(tx, current)
    ensures |cx.witnesses.summaries| == |tx.witnesses|
    ensures cx.witnesses.hasCobuildWitnessLayout == HasCobuild(cx.witnesses.summaries)
    ensures forall i: nat | i < |tx.witnesses| ::
              Classify(tx.witnesses[i]).Ok? && cx.witnesses.summaries[i] == Classify(tx.witnesses[i]).value.0
  {
    var cs := Classified(tx.witnesses);
    ScanClassifies(cs, |cs|);
    assert forall i: nat | i < |cs| :: cs[i] == Classify(tx.witnesses[i]);
  }

  /** A complete layout can only come from Cobuild witnesses, so the flag is set. */
  lemma CompleteLayoutSetsFlag(tx: Tx, current: CurrentScript, cx: CobuildContext)
    requires Build(tx, current) == Ok(cx) && cx.otxLayouts.Complete?
    ensures cx.witnesses.hasCobuildWitnessLayout
  {
    var s, start, otxs := LayoutOrigin(tx, current, cx);
    SummariesOfWitnesses(tx, current, cx);
    assert cx.witnesses.summaries[s].IsCobuild();
  }

  /** The OTX entries stand in the order of their witnesses. */
  lemma BuiltWitnessesAscend(tx: Tx, current: CurrentScript, cx: CobuildContext)
    requires Build(tx, current) == Ok(cx)
    ensures WitnessesAscend(cx)
  {
    if cx.otxLayouts.Complete? {
      var s, start, otxs := LayoutOrigin(tx, current, cx);
      forall i: nat | i < |cx.OtxEntries()| ensures cx.OtxEntries()[i].layout.witnessIndex == s + 1 + i {
        assert OtxAt(Classified(cx.tx.witnesses), s, otxs, i);
      }
    }
  }

  /** In a built context every action has its own reference, and the OTX ones ascend. */
  lemma BuiltRefsAscend(tx: Tx, current: CurrentScript, cx: CobuildContext, k: nat, l: nat)
    requires Build(tx, current) == Ok(cx) && AllActions(cx).Ok? && k < l < |AllActions(cx).value|
    ensures var a, b := AllActions(cx).value[k].Ref(), AllActions(cx).value[l].Ref();
            a != b && (a.OtxAction? == b.OtxAction? ==> Less(a, b))
  {
    BuiltWitnessesAscend(tx, current, cx);
    RefsAscend(cx, k, l);
  }

  // ---------- classification of an index by the layout an action reports ----------

  /** The part of the partition that a classification names. */
  predicate Agrees(c: Option<(OtxPart, nat)>, layout: OtxLayout, p: Part, k: Kind, index: nat)
    requires layout.HasPart(p)
  {
    && c.Some?
    && (c.value.0.BasePart? <==> p.Base?)
    && index == (if p.Base? then layout.BaseOf(k) else layout.AppendOf(k)).start + c.value.1
  }

  /**
   * The merged range of an OTX is exactly what its base and segments own, and classifying an index names the
   * owner: the base, or the append range with the position inside it.
   */
  lemma ClassificationIsOwnership(c: Counts, w: nat, otx: OtxView, k: Kind, index: nat)
    ensures var layout := LayoutAt(c, w, otx);
            var m := MessageLayoutOf(layout);
            && (m.Classify(k, index).Some? <==> m.Whole(k).Contains(index))
            && (m.Classify(k, index).Some?
                <==> exists p: Part :: layout.HasPart(p) && layout.PartOf(p, k).Contains(index))
            && forall p: Part | layout.HasPart(p) && layout.PartOf(p, k).Contains(index) ::
                 Agrees(m.Classify(k, index), layout, p, k, index)
  {
    var layout := LayoutAt(c, w, otx);
    var m := MessageLayoutOf(layout);
    assert m.BaseOf(k) == BaseRange(c, otx, k) && m.AppendOf(k) == AppendRange(c, otx, k);
    forall p: Part | layout.HasPart(p) && layout.PartOf(p, k).Contains(index)
      ensures Agrees(m.Classify(k, index), layout, p, k, index)
    {
      OwnedIsClassified(c, w, otx, p, k, index);
    }
    if m.Classify(k, index).Some? {
      var p := ClassifiedIsOwned(c, w, otx, k, index);
    }
  }

  lemma OwnedIsClassified(c: Counts, w: nat, otx: OtxView, p: Part, k: Kind, index: nat)
    requires LayoutAt(c, w, otx).HasPart(p) && LayoutAt(c, w, otx).PartOf(p, k).Contains(index)
    ensures Agrees(ClassifyIndex(BaseRange(c, otx, k), AppendRange(c, otx, k), index), LayoutAt(c, w, otx), p, k, index)
  {
    if p.Segment? {
      SegmentSumMonotone(otx.appendSegments, p.index + 1, |otx.appendSegments|, k);
    }
  }

  lemma ClassifiedIsOwned(c: Counts, w: nat, otx: OtxView, k: Kind, index: nat) returns (p: Part)
    requires ClassifyIndex(BaseRange(c, otx, k), AppendRange(c, otx, k), index).Some?
    ensures LayoutAt(c, w, otx).HasPart(p) && LayoutAt(c, w, otx).PartOf(p, k).Contains(index)
  {
    if BaseRange(c, otx, k).Contains(index) {
      p := Part.Base;
    } else {
      var j := FindSegment(otx.appendSegments, |otx.appendSegments|, k, index - c.At(k) - otx.Count(k));
      p := Segment(j);
    }
  }

  // ---------- hashing meets no fault ----------

  lemma BasePlaced(cx: CobuildContext, s: nat, start: OtxStartView, otxs: seq<(nat, OtxView)>, i: nat, k: Kind)
    requires Origin(cx, s, start, otxs) && i < |otxs|
    ensures var base := cx.OtxEntries()[i].layout.BaseOf(k);
            base.count == otxs[i].1.Count(k) && base.End() <= cx.tx.EntityCounts().At(k)
  {
    PartsWithinTransaction(StartCounts(start), otxs, cx.tx.EntityCounts(), i, Part.Base, k);
  }

  lemma SegmentInBounds(cx: CobuildContext, s: nat, start: OtxStartView, otxs: seq<(nat, OtxView)>, i: nat, j: nat,
                        k: Kind)
    requires Origin(cx, s, start, otxs) && i < |otxs| && j < |otxs[i].1.appendSegments|
    ensures cx.OtxEntries()[i].layout.PartOf(Segment(j), k).End() <= cx.tx.EntityCounts().At(k)
  {
    PartsWithinTransaction(StartCounts(start), otxs, cx.tx.EntityCounts(), i, Segment(j), k);
  }

  lemma PlacedByBounds(c: Counts, w: nat, otx: OtxView, j: nat, tx: Tx)
    requires j < |otx.appendSegments|
    requires forall k: Kind :: LayoutAt(c, w, otx).PartOf(Segment(j), k).End() <= tx.EntityCounts().At(k)
    ensures SegmentPlaced(otx.appendSegments[j], LayoutAt(c, w, otx).appendSegments[j], tx)
  {
    forall k: Kind ensures LayoutAt(c, w, otx).appendSegments[j].Of(k).End() <= tx.EntityCounts().At(k) {
      assert LayoutAt(c, w, otx).appendSegments[j].Of(k) == LayoutAt(c, w, otx).PartOf(Segment(j), k);
    }
  }

  lemma SegmentIsPlaced(cx: CobuildContext, s: nat, start: OtxStartView, otxs: seq<(nat, OtxView)>, i: nat, j: nat)
    requires Origin(cx, s, start, otxs) && i < |otxs| && j < |otxs[i].1.appendSegments|
    ensures SegmentPlaced(otxs[i].1.appendSegments[j], cx.OtxEntries()[i].layout.appendSegments[j], cx.tx)
  {
    forall k: Kind {
      SegmentInBounds(cx, s, start, otxs, i, j, k);
    }
    PlacedByBounds(CountsBefore(StartCounts(start), otxs, i), otxs[i].0, otxs[i].1, j, cx.tx);
  }

  lemma EntryPlaced(cx: CobuildContext, s: nat, start: OtxStartView, otxs: seq<(nat, OtxView)>, i: nat)
    requires Origin(cx, s, start, otxs) && i < |otxs| && otxs[i].1.message.InBounds()
    ensures Placed(otxs[i].1, cx.OtxEntries()[i].layout, cx.tx)
  {
    assert OtxAt(Classified(cx.tx.witnesses), s, otxs, i);
    forall k: Kind {
      BasePlaced(cx, s, start, otxs, i, k);
    }
    forall j: nat | j < |otxs[i].1.appendSegments| {
      SegmentIsPlaced(cx, s, start, otxs, i, j);
    }
  }

  /** Witness cursors that the syscalls hand out never reach past their witness. */
  predicate Readable(tx: Tx) { forall i: nat | i < |tx.witnesses| :: tx.witnesses[i].InBounds() }

  /** An OTX entry of a built context: valid, inside the transaction, and with a readable message. */
  predicate SoundEntry(tx: Tx, e: OtxLayoutEntry) {
    ValidOtxView(e.view) && FieldsAreU32(e.view) && GoodMessage(e.view.message) && Placed(e.view, e.layout, tx)
  }

  /** Every classified witness has a readable message and u32 fields. */
  predicate AllGood(cs: seq<Classification>) {
    forall i: nat | i < |cs| && cs[i].Ok? :: GoodClassification(cs[i].value)
  }

  lemma ReadableAllGood(tx: Tx)
    requires Readable(tx)
    ensures AllGood(Classified(tx.witnesses))
  {
    forall i: nat | i < |tx.witnesses| && Classify(tx.witnesses[i]).Ok?
      ensures GoodClassification(Classify(tx.witnesses[i]).value)
    {
      ClassifyGood(tx.witnesses[i]);
    }
  }

  lemma EntrySound(tx: Tx, current: CurrentScript, cx: CobuildContext, i: nat)
    requires Build(tx, current) == Ok(cx) && Readable(tx) && i < |cx.OtxEntries()|
    ensures SoundEntry(tx, cx.OtxEntries()[i])
  {
    var s, start, otxs := LayoutOrigin(tx, current, cx);
    OriginSound(cx, s, start, otxs, i);
  }

  lemma OtxViewSound(cs: seq<Classification>, s: nat, otxs: seq<(nat, OtxView)>, i: nat)
    requires AllGood(cs) && i < |otxs| && OtxAt(cs, s, otxs, i)
    ensures ValidOtxView(otxs[i].1) && FieldsAreU32(otxs[i].1) && GoodMessage(otxs[i].1.message)
  {
    assert GoodClassification(cs[s + 1 + i].value);
  }

  lemma OriginSound(cx: CobuildContext, s: nat, start: OtxStartView, otxs: seq<(nat, OtxView)>, i: nat)
    requires Origin(cx, s, start, otxs) && Readable(cx.tx) && i < |otxs|
    ensures SoundEntry(cx.tx, cx.OtxEntries()[i])
  {
    ReadableAllGood(cx.tx);
    OtxViewSound(Classified(cx.tx.witnesses), s, otxs, i);
    EntryPlaced(cx, s, start, otxs, i);
    assert cx.OtxEntries()[i].view == otxs[i].1;
  }

  lemma UniqueMessageGood(tx: Tx, current: CurrentScript, cx: CobuildContext, w: nat, m: Cursor)
    requires Build(tx, current) == Ok(cx) && Readable(tx) && cx.witnesses.UniqueMessage() == Ok(Some((w, m)))
    ensures GoodMessage(m)
  {
    SummariesOfWitnesses(tx, current, cx);
    UniqueMessageMeaning(cx.witnesses, |cx.witnesses.summaries|);
    ClassifyGood(tx.witnesses[w]);
  }

  lemma LayoutFieldsAreU32(cs: seq<Classification>, limits: Counts, built: BuiltLayout, s: nat, start: OtxStartView,
                           otxs: seq<(nat, OtxView)>)
    requires AllGood(cs) && LayoutFrom(cs, limits, built, s, start, otxs)
    ensures forall k: Kind :: StartCounts(start).At(k) < U32_LIMIT
    ensures forall n: nat | n < |otxs| :: FieldsAreU32(otxs[n].1)
  {
    forall n: nat | n < |otxs| ensures FieldsAreU32(otxs[n].1) {
      OtxViewSound(cs, s, otxs, n);
    }
    assert GoodClassification(cs[s].value);
    StartIsU32(start);
  }

  lemma StartIsU32(start: OtxStartView)
    requires GoodClassification((OtherCobuildLayout, StartWitness(start)))
    ensures forall k: Kind :: StartCounts(start).At(k) < U32_LIMIT
  {
    forall k: Kind ensures StartCounts(start).At(k) == start.Start(k) {}
  }

  /** So machine arithmetic is exact in every layout of fewer than 2^32 ranges. */
  lemma BuiltArithmetic(tx: Tx, current: CurrentScript, cx: CobuildContext, i: nat, p: Part, k: Kind)
    returns (start: Counts, otxs: seq<(nat, OtxView)>)
    requires Build(tx, current) == Ok(cx) && Readable(tx)
    requires i < |cx.OtxEntries()| && cx.OtxEntries()[i].layout.HasPart(p)
    ensures cx.otxLayouts == Complete(BuiltOf(start, otxs))
    ensures RangesTaken(otxs, |otxs|) < U32_LIMIT ==> FoldFits(cx, start, otxs, i, p, k)
  {
    var s, v, os := LayoutOrigin(tx, current, cx);
    start, otxs := StartCounts(v), os;
    ReadableAllGood(tx);
    LayoutFieldsAreU32(Classified(tx.witnesses), tx.EntityCounts(), cx.otxLayouts.layout, s, v, otxs);
    if RangesTaken(otxs, |otxs|) < U32_LIMIT {
      ArithmeticStaysBelow64Bits(start, otxs, i, p, k);
    }
  }

  /** The counter behind OTX `i`, the end of its part and its largest mask bit count stay below 2^64. */
  predicate FoldFits(cx: CobuildContext, start: Counts, otxs: seq<(nat, OtxView)>, i: nat, p: Part, k: Kind)
    requires i < |otxs| && i < |cx.OtxEntries()| && cx.OtxEntries()[i].layout.HasPart(p)
  {
    && cx.OtxEntries()[i].layout.PartOf(p, k).End() < U32_LIMIT * U32_LIMIT
    && CountsBefore(start, otxs, i + 1).At(k) < U32_LIMIT * U32_LIMIT
    && 4 * cx.OtxEntries()[i].view.Count(k) < U32_LIMIT * U32_LIMIT
  }
}
