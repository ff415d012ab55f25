/** What scanning guarantees about the views it hands to the planner. */
module LazyFacts {
  import opened Base
  import opened LazyReader
  import opened View
  import opened Partition
  import opened Transaction
  import opened Collector
  import opened Witness

  /** A message that can be hashed: all its bytes are there, and they carry their own length. */
  predicate GoodMessage(m: Cursor) { m.InBounds() && SelfDelimiting(m.Content()) }

  lemma {:induction false} OffsetsAscend(c: Cursor, i: nat, j: nat)
    requires c.VerifyDynvec() && c.size != 4 && i <= j < c.ItemCount().value
    ensures c.OffsetNumber(i).value <= c.OffsetNumber(j).value
    decreases j - i
  {
    if i == j {
    } else {
      OffsetsAscend(c, i + 1, j);
      assert c.OffsetNumber(i).value <= c.OffsetNumber(i + 1).value;
    }
  }

  /**
   * The lazy table check does not bound the last offset, but reading the last field does: once that
   * succeeds, every field lies inside the table.
   */
  lemma SliceInside(c: Cursor, n: nat, i: nat)
    requires c.VerifyTable(n) && i < n && c.Slice(n - 1).Some? && c.Slice(i).Some?
    ensures var s := c.Slice(i).value;
            s.source == c.source && c.offset <= s.offset && s.offset + s.size <= c.offset + c.size
  {
    if i + 1 < n {
      OffsetsAscend(c, i + 1, n - 1);
    }
  }

  lemma VerifiedMessageGood(m: Cursor)
    requires VerifyMessage(m) && m.InBounds()
    ensures GoodMessage(m)
  {
    assert m.Number() == Some(m.size);
    assert m.Read(4) == Some(m.source[m.offset..m.offset + 4]);
    assert m.Content()[0..4] == m.source[m.offset..m.offset + 4];
    assert m.source[m.offset..m.offset + 4][0..4] == m.source[m.offset..m.offset + 4];
  }

  lemma OtxMessageGood(c: Cursor, v: OtxView)
    requires VerifyOtx(c) && c.InBounds() && c.Slice(0) == Some(v.message)
    ensures GoodMessage(v.message)
  {
    SliceInside(c, 12, 0);
    VerifiedMessageGood(v.message);
  }

  lemma SegmentsAreU32(segments: Cursor)
    ensures var r := AppendSegments(segments);
            r.Ok? ==> forall j: nat, k: Kind | j < |r.value| :: r.value[j].Count(k) < U32_LIMIT
  {
    var r := AppendSegments(segments);
    if r.Ok? {
      forall j: nat, k: Kind | j < |r.value| ensures r.value[j].Count(k) < U32_LIMIT {
        assert AppendSegmentAt(segments)(j) == Ok(r.value[j]);
      }
    }
  }

  lemma OtxViewGood(c: Cursor, v: OtxView)
    requires VerifyOtx(c) && c.InBounds() && OtxViewOf(c) == Ok(v)
    ensures GoodMessage(v.message) && FieldsAreU32(v)
  {
    OtxMessageGood(c, v);
    SegmentsAreU32(c.Slice(10).value);
  }

  lemma SighashAllGood(c: Cursor)
    requires VerifySighashAll(c) && c.InBounds()
    ensures GoodMessage(c.Slice(1).value)
  {
    SliceInside(c, 2, 1);
    VerifiedMessageGood(c.Slice(1).value);
  }

  /** One classified witness: its OTX meaning makes it a Cobuild witness, and its message can be hashed. */
  predicate GoodClassification(c: (Summary, LayoutWitness)) {
    && (c.0.SighashAllSummary? ==> GoodMessage(c.0.message) && c.1 == Ignore)
    && (c.1 != Ignore ==> c.0 == OtherCobuildLayout)
    && (c.1.OtxWitness? ==> GoodMessage(c.1.otx.message) && FieldsAreU32(c.1.otx))
    && (c.1.StartWitness? ==> forall k: Kind :: c.1.start.Start(k) < U32_LIMIT)
  }

  lemma ClassifyGood(w: Cursor)
    requires w.InBounds() && Classify(w).Ok?
    ensures GoodClassification(Classify(w).value)
  {
    if w.size != 0 && FromCursor(w).Ok? {
      UnpackedInBounds(w);
      LayoutGood(FromCursor(w).value);
    }
  }

  lemma LayoutGood(view: CobuildWitnessLayout)
    requires view.item.InBounds() && Verified(view)
    requires SummarizeCobuild(view).Ok? && LayoutWitnessOf(view).Ok?
    ensures GoodClassification((SummarizeCobuild(view).value, LayoutWitnessOf(view).value))
  {
    match view
    case SighashAll(c) => SighashAllGood(c);
    case SighashAllOnly(_) =>
    case Otx(c) => OtxViewGood(c, OtxViewOf(c).value);
    case OtxStart(_) =>
  }
}
