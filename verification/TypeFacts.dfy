/** Where the cells of a type script stand: outside the OTXs, or in exactly one part of exactly one of them. */
module TypeFacts {
  import opened Base
  import opened View
  import opened Layout
  import opened Transaction
  import opened Witness
  import opened Partition
  import opened Context
  import opened Engine
  import opened TypePlan
  import opened BuiltFacts

  /** The cells of the type among the inputs or the outputs. */
  predicate TypeAt(tx: Tx, t: Hash32, k: Kind, n: nat) {
    match k
    case Inputs => n < |tx.inputs| && tx.inputs[n].typeHash == Some(t)
    case Outputs => n < |tx.outputs| && tx.outputs[n].typeHash == Some(t)
    case _ => false
  }

  lemma TypeIndicesMeaning(tx: Tx, t: Hash32, cx: CobuildContext)
    requires cx.script == ContextOf(tx, CurrentType(t))
    ensures forall n: nat :: n in TypeInputs(cx) <==> TypeAt(tx, t, Inputs, n)
    ensures forall n: nat :: n in TypeOutputs(cx) <==> TypeAt(tx, t, Outputs, n)
  {
    MatchingMeaning(|tx.inputs|, InputTypeMatches(tx, t));
    MatchingMeaning(|tx.outputs|, OutputTypeMatches(tx, t));
  }

  // ---------- one OTX ----------

  /** A base output of the type whose script the mask covers. */
  predicate CoveredAt(script: ScriptContext, entry: OtxLayoutEntry, local: nat) {
    && local < entry.layout.baseOutputs.count
    && entry.layout.baseOutputs.start + local in script.TypeOutputs()
    && entry.view.IncludesType(local) == Ok(true)
  }

  /** The early-exit loop answers whether some base output of the type is covered. */
  lemma {:induction false} CoveredFromMeaning(script: ScriptContext, entry: OtxLayoutEntry, local: nat)
    requires local <= entry.layout.baseOutputs.count
    requires forall i: nat | i < entry.layout.baseOutputs.count :: entry.view.IncludesType(i).Ok?
    ensures script.CoveredFrom(entry, local) == Ok(exists i: nat :: local <= i && CoveredAt(script, entry, i))
    decreases entry.layout.baseOutputs.count - local
  {
    if local == entry.layout.baseOutputs.count {
    } else {
      CoveredFromMeaning(script, entry, local + 1);
      assert CoveredAt(script, entry, local) || !CoveredAt(script, entry, local);
    }
  }

  predicate MasksReadable(entry: OtxLayoutEntry) {
    entry.layout.baseOutputs.count == entry.view.baseOutputCells && MasksValid(entry.view)
  }

  /** On an accepted OTX the relation always exists, and it says where the type's cells are. */
  lemma RelationMeaning(script: ScriptContext, entry: OtxLayoutEntry)
    requires MasksReadable(entry)
    ensures script.TypeRelationForOtx(entry).Ok?
    ensures var r := script.TypeRelationForOtx(entry).value;
            && (r.outputTypeInBaseCovered <==> exists i: nat :: CoveredAt(script, entry, i))
            && (r.outputTypeInBaseCovered ==> r.outputTypeInBase)
  {
    CoveredFromMeaning(script, entry, 0);
    if i: nat :| CoveredAt(script, entry, i) {
      var at := entry.layout.baseOutputs.start + i;
      var n: nat :| n < |script.TypeOutputs()| && script.TypeOutputs()[n] == at;
      assert entry.layout.baseOutputs.Contains(script.TypeOutputs()[n]);
    }
  }

  lemma BuiltMasksReadable(tx: Tx, current: CurrentScript, cx: CobuildContext, i: nat)
    requires Build(tx, current) == Ok(cx) && i < |cx.OtxEntries()|
    ensures MasksReadable(cx.OtxEntries()[i])
  {
    var s, start, otxs := LayoutOrigin(tx, current, cx);
    assert OtxAt(Classified(tx.witnesses), s, otxs, i);
    BasePlaced(cx, s, start, otxs, i, Outputs);
  }

  /** The type occurs among the entities of this kind inside the range. */
  predicate TypeInside(tx: Tx, t: Hash32, k: Kind, range: Range) {
    exists n: nat | n < range.End() :: TypeAt(tx, t, k, n) && range.Contains(n)
  }

  lemma MeetsIsInside(tx: Tx, t: Hash32, k: Kind, indices: seq<nat>, range: Range)
    requires forall n: nat :: n in indices <==> TypeAt(tx, t, k, n)
    ensures Meets(indices, range) <==> TypeInside(tx, t, k, range)
  {
    if i: nat :| i < |indices| && range.Contains(indices[i]) {
      assert indices[i] in indices;
    }
    if n: nat :| n < range.End() && TypeAt(tx, t, k, n) && range.Contains(n) {
      assert n in indices;
    }
  }

  /** In a built context each presence flag says whether the type occurs in that part of the OTX. */
  lemma PresenceFlagsMeaning(tx: Tx, t: Hash32, cx: CobuildContext, i: nat)
    requires Build(tx, CurrentType(t)) == Ok(cx) && i < |cx.OtxEntries()|
    ensures cx.script.TypeRelationForOtx(cx.OtxEntries()[i]).Ok?
    ensures var r, l := cx.script.TypeRelationForOtx(cx.OtxEntries()[i]).value, cx.OtxEntries()[i].layout;
            && (r.inputTypeInBase <==> TypeInside(tx, t, Inputs, l.baseInputs))
            && (r.inputTypeInAppend <==> TypeInside(tx, t, Inputs, l.appendInputs))
            && (r.outputTypeInBase <==> TypeInside(tx, t, Outputs, l.baseOutputs))
            && (r.outputTypeInAppend <==> TypeInside(tx, t, Outputs, l.appendOutputs))
  {
    SummariesOfWitnesses(tx, CurrentType(t), cx);
    TypeIndicesMeaning(tx, t, cx);
    BuiltMasksReadable(tx, CurrentType(t), cx, i);
    RelationMeaning(cx.script, cx.OtxEntries()[i]);
    var l := cx.OtxEntries()[i].layout;
    MeetsIsInside(tx, t, Inputs, TypeInputs(cx), l.baseInputs);
    MeetsIsInside(tx, t, Inputs, TypeInputs(cx), l.appendInputs);
    MeetsIsInside(tx, t, Outputs, TypeOutputs(cx), l.baseOutputs);
    MeetsIsInside(tx, t, Outputs, TypeOutputs(cx), l.appendOutputs);
  }

  // ---------- the whole transaction ----------

  function AggregateRange(built: BuiltLayout, k: Kind): Range
    requires k.Inputs? || k.Outputs?
  {
    if k.Inputs? then built.inputRange else built.outputRange
  }

  /** The flag of a relation that speaks of this part and kind. */
  predicate Mentions(r: OtxTypeRelation, k: Kind, p: Part) {
    match k
    case Inputs => if p.Base? then r.inputTypeInBase else r.inputTypeInAppend
    case Outputs => if p.Base? then r.outputTypeInBase else r.outputTypeInAppend
    case _ => false
  }

  lemma PartInOtxRange(layout: OtxLayout, c: Counts, w: nat, otx: OtxView, p: Part, k: Kind, index: nat)
    requires layout == LayoutAt(c, w, otx) && layout.HasPart(p) && layout.PartOf(p, k).Contains(index)
    ensures (if p.Base? then layout.BaseOf(k) else layout.AppendOf(k)).Contains(index)
  {
    if p.Segment? {
      SegmentSumMonotone(otx.appendSegments, p.index + 1, |otx.appendSegments|, k);
    }
  }

  lemma ListedMeets(indices: seq<nat>, range: Range, n: nat)
    requires n in indices && range.Contains(n)
    ensures Meets(indices, range)
  {
    var i: nat :| i < |indices| && indices[i] == n;
    assert range.Contains(indices[i]);
  }

  lemma ListedEscapes(indices: seq<nat>, range: Range, n: nat)
    requires n in indices && !range.Contains(n)
    ensures Escapes(indices, range)
  {
    var i: nat :| i < |indices| && indices[i] == n;
    assert !range.Contains(indices[i]);
  }

  lemma OwnerMentions(cx: CobuildContext, start: Counts, otxs: seq<(nat, OtxView)>, i: nat, p: Part, k: Kind, n: nat)
    requires k.Inputs? || k.Outputs?
    requires n in (if k.Inputs? then TypeInputs(cx) else TypeOutputs(cx))
    requires cx.otxLayouts == Complete(BuiltOf(start, otxs)) && Owns(Entries(start, otxs), i, p, k, n)
    requires MasksReadable(cx.OtxEntries()[i])
    ensures cx.script.TypeRelationForOtx(cx.OtxEntries()[i]).Ok?
    ensures Mentions(cx.script.TypeRelationForOtx(cx.OtxEntries()[i]).value, k, p)
  {
    var layout := cx.OtxEntries()[i].layout;
    RelationMeaning(cx.script, cx.OtxEntries()[i]);
    PartInOtxRange(layout, CountsBefore(start, otxs, i), otxs[i].0, otxs[i].1, p, k, n);
    ListedMeets(if k.Inputs? then TypeInputs(cx) else TypeOutputs(cx),
                if p.Base? then layout.BaseOf(k) else layout.AppendOf(k), n);
  }

  /** The one place of a cell of the type, and who mentions it. */
  ghost predicate Attributed(cx: CobuildContext, k: Kind, n: nat, i: nat, p: Part) {
    && Owns(cx.OtxEntries(), i, p, k, n)
    && (forall j: nat, q: Part :: Owns(cx.OtxEntries(), j, q, k, n) ==> j == i && q == p)
    && cx.script.TypeRelationForOtx(cx.OtxEntries()[i]).Ok?
    && Mentions(cx.script.TypeRelationForOtx(cx.OtxEntries()[i]).value, k, p)
  }

  /**
   * Type attribution: every input or output of the running type either stands outside the OTX range, and then
   * the tx-level scope mentions the type, or belongs to exactly one part of exactly one OTX, and then that
   * OTX's relation mentions it there.
   */
  lemma TypeCellIsAttributed(tx: Tx, t: Hash32, cx: CobuildContext, k: Kind, n: nat)
    requires Build(tx, CurrentType(t)) == Ok(cx) && TypeAt(tx, t, k, n)
    ensures if cx.otxLayouts.Complete? && AggregateRange(cx.otxLayouts.layout, k).Contains(n)
            then exists i: nat, p: Part :: Attributed(cx, k, n, i, p)
            else TxLevelScopeMentionsType(cx)
  {
    SummariesOfWitnesses(tx, CurrentType(t), cx);
    TypeIndicesMeaning(tx, t, cx);
    var indices := if k.Inputs? then TypeInputs(cx) else TypeOutputs(cx);
    if cx.otxLayouts.Complete? {
      if AggregateRange(cx.otxLayouts.layout, k).Contains(n) {
        var i, p := OwnerOf(tx, t, cx, k, n);
      } else {
        ListedEscapes(indices, AggregateRange(cx.otxLayouts.layout, k), n);
      }
    }
  }

  lemma OwnerOf(tx: Tx, t: Hash32, cx: CobuildContext, k: Kind, n: nat) returns (i: nat, p: Part)
    requires Build(tx, CurrentType(t)) == Ok(cx) && (k.Inputs? || k.Outputs?)
    requires n in (if k.Inputs? then TypeInputs(cx) else TypeOutputs(cx))
    requires cx.otxLayouts.Complete? && AggregateRange(cx.otxLayouts.layout, k).Contains(n)
    ensures Attributed(cx, k, n, i, p)
  {
    var s, start, otxs := LayoutOrigin(tx, CurrentType(t), cx);
    var from := StartCounts(start);
    i, p := OwnerExists(from, otxs, k, n);
    forall j: nat, q: Part | Owns(cx.OtxEntries(), j, q, k, n) ensures j == i && q == p {
      OwnerUnique(from, otxs, k, n, i, p, j, q);
    }
    BuiltMasksReadable(tx, CurrentType(t), cx, i);
    OwnerMentions(cx, from, otxs, i, p, k, n);
  }

  predicate OtxMentions(cx: CobuildContext, i: nat)
    requires i < |cx.OtxEntries()|
  {
    var r := cx.script.TypeRelationForOtx(cx.OtxEntries()[i]);
    r.Ok? && r.value.MentionsType()
  }

  /** The type occurs in the transaction exactly when the tx-level scope or some OTX mentions it. */
  lemma TypePresentIffMentioned(tx: Tx, t: Hash32, cx: CobuildContext)
    requires Build(tx, CurrentType(t)) == Ok(cx)
    ensures CurrentTypePresent(cx)
       <==> TxLevelScopeMentionsType(cx) || exists i: nat | i < |cx.OtxEntries()| :: OtxMentions(cx, i)
  {
    SummariesOfWitnesses(tx, CurrentType(t), cx);
    TypeIndicesMeaning(tx, t, cx);
    if CurrentTypePresent(cx) {
      var k, n := if TypeInputs(cx) != [] then Inputs else Outputs,
                  if TypeInputs(cx) != [] then TypeInputs(cx)[0] else TypeOutputs(cx)[0];
      assert n in (if k.Inputs? then TypeInputs(cx) else TypeOutputs(cx));
      TypeCellIsAttributed(tx, t, cx, k, n);
      if cx.otxLayouts.Complete? && AggregateRange(cx.otxLayouts.layout, k).Contains(n) {
        var i: nat, p: Part :| Attributed(cx, k, n, i, p);
        assert OtxMentions(cx, i);
      }
    }
  }
}
