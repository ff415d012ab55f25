/** The parts of a built layout tile the OTX ranges of the transaction: nothing twice, nothing missed. */
module Partition {
  import opened Base
  import opened View
  import opened Layout

  lemma {:induction false} SegmentSumMonotone(segments: seq<OtxAppendSegmentView>, i: nat, j: nat, k: Kind)
    requires i <= j <= |segments|
    ensures SegmentSum(segments, i, k) <= SegmentSum(segments, j, k)
  {
    if i == j {
    } else {
      SegmentSumMonotone(segments, i, j - 1, k);
    }
  }

  /** The segment whose share of the append range holds the local offset `x`. */
  lemma {:induction false} FindSegment(segments: seq<OtxAppendSegmentView>, n: nat, k: Kind, x: nat) returns (j: nat)
    requires n <= |segments| && x < SegmentSum(segments, n, k)
    ensures j < n && SegmentSum(segments, j, k) <= x < SegmentSum(segments, j + 1, k)
  {
    if x >= SegmentSum(segments, n - 1, k) {
      j := n - 1;
    } else {
      j := FindSegment(segments, n - 1, k, x);
    }
  }

  lemma {:induction false} FindOtx(from: Counts, otxs: seq<(nat, OtxView)>, n: nat, k: Kind, index: nat)
    returns (i: nat)
    requires n <= |otxs|
    requires from.At(k) <= index < CountsBefore(from, otxs, n).At(k)
    ensures i < n && CountsBefore(from, otxs, i).At(k) <= index < CountsBefore(from, otxs, i + 1).At(k)
  {
    if index >= CountsBefore(from, otxs, n - 1).At(k) {
      i := n - 1;
    } else {
      i := FindOtx(from, otxs, n - 1, k, index);
    }
  }

  /** The share of the transaction one OTX owns runs from its counters to the next OTX's. */
  lemma PartInsideOtx(c: Counts, w: nat, otx: OtxView, p: Part, k: Kind)
    requires LayoutAt(c, w, otx).HasPart(p)
    ensures var r := LayoutAt(c, w, otx).PartOf(p, k);
            c.At(k) <= r.start && r.End() <= Advance(c, otx).At(k)
  {
    if p.Segment? {
      SegmentSumMonotone(otx.appendSegments, p.index + 1, |otx.appendSegments|, k);
    } else {
      SegmentSumMonotone(otx.appendSegments, 0, |otx.appendSegments|, k);
    }
  }

  lemma PartsOfOneOtxDisjoint(c: Counts, w: nat, otx: OtxView, p: Part, q: Part, k: Kind, index: nat)
    requires LayoutAt(c, w, otx).HasPart(p) && LayoutAt(c, w, otx).HasPart(q)
    requires LayoutAt(c, w, otx).PartOf(p, k).Contains(index)
    requires LayoutAt(c, w, otx).PartOf(q, k).Contains(index)
    ensures p == q
  {
    if p.Segment? && q.Segment? {
      if p.index < q.index {
        SegmentSumMonotone(otx.appendSegments, p.index + 1, q.index, k);
      } else if q.index < p.index {
        SegmentSumMonotone(otx.appendSegments, q.index + 1, p.index, k);
      }
    }
  }

  /** Part `p` of OTX `i` holds entity `index` of kind `k`. */
  predicate Owns(entries: seq<OtxLayoutEntry>, i: nat, p: Part, k: Kind, index: nat) {
    i < |entries| && entries[i].layout.HasPart(p) && entries[i].layout.PartOf(p, k).Contains(index)
  }

  /** Every index between the start and the end counters has an owner. */
  lemma OwnerExists(from: Counts, otxs: seq<(nat, OtxView)>, k: Kind, index: nat) returns (i: nat, p: Part)
    requires from.At(k) <= index < CountsBefore(from, otxs, |otxs|).At(k)
    ensures Owns(Entries(from, otxs), i, p, k, index)
  {
    i := FindOtx(from, otxs, |otxs|, k, index);
    var c := CountsBefore(from, otxs, i);
    var otx := otxs[i].1;
    if index < c.At(k) + otx.Count(k) {
      p := Part.Base;
    } else {
      var j := FindSegment(otx.appendSegments, |otx.appendSegments|, k, index - c.At(k) - otx.Count(k));
      p := Segment(j);
    }
  }

  lemma OwnedInside(from: Counts, otxs: seq<(nat, OtxView)>, i: nat, p: Part, k: Kind)
    requires i < |otxs| && Entries(from, otxs)[i].layout.HasPart(p)
    ensures var r := Entries(from, otxs)[i].layout.PartOf(p, k);
            && CountsBefore(from, otxs, i).At(k) <= r.start
            && r.End() <= CountsBefore(from, otxs, i + 1).At(k)
            && from.At(k) <= r.start
            && r.End() <= CountsBefore(from, otxs, |otxs|).At(k)
  {
    PartInsideOtx(CountsBefore(from, otxs, i), otxs[i].0, otxs[i].1, p, k);
    CountsGrow(from, otxs, 0, i);
    CountsGrow(from, otxs, i + 1, |otxs|);
  }

  /** Every part of an earlier OTX ends before any part of a later one starts. */
  lemma EarlierOtxEndsFirst(from: Counts, otxs: seq<(nat, OtxView)>, k: Kind, i: nat, p: Part, j: nat, q: Part)
    requires i < j < |otxs| && Entries(from, otxs)[i].layout.HasPart(p) && Entries(from, otxs)[j].layout.HasPart(q)
    ensures Entries(from, otxs)[i].layout.PartOf(p, k).End() <= Entries(from, otxs)[j].layout.PartOf(q, k).start
  {
    OwnedInside(from, otxs, i, p, k);
    OwnedInside(from, otxs, j, q, k);
    CountsGrow(from, otxs, i + 1, j);
  }

  lemma OwnerUnique(from: Counts, otxs: seq<(nat, OtxView)>, k: Kind, index: nat, i: nat, p: Part, j: nat, q: Part)
    requires Owns(Entries(from, otxs), i, p, k, index) && Owns(Entries(from, otxs), j, q, k, index)
    ensures i == j && p == q
  {
    if i < j {
      EarlierOtxEndsFirst(from, otxs, k, i, p, j, q);
    } else if j < i {
      EarlierOtxEndsFirst(from, otxs, k, j, q, i, p);
    } else {
      PartsOfOneOtxDisjoint(CountsBefore(from, otxs, i), otxs[i].0, otxs[i].1, p, q, k, index);
    }
  }

  /** The OTX share of one kind of entity. */
  function OtxRange(from: Counts, otxs: seq<(nat, OtxView)>, k: Kind): Range {
    CountsGrow(from, otxs, 0, |otxs|);
    Range(from.At(k), CountsBefore(from, otxs, |otxs|).At(k) - from.At(k))
  }

  /**
   * Partition: an entity lies in the OTX range of its kind exactly when some part of some OTX owns it,
   * and then that part is the only one.
   */
  lemma RangesPartition(from: Counts, otxs: seq<(nat, OtxView)>, k: Kind, index: nat)
    ensures OtxRange(from, otxs, k).Contains(index)
            <==> exists i: nat, p: Part :: Owns(Entries(from, otxs), i, p, k, index)
    ensures forall i: nat, p: Part, j: nat, q: Part ::
              Owns(Entries(from, otxs), i, p, k, index) && Owns(Entries(from, otxs), j, q, k, index) ==>
                i == j && p == q
  {
    if OtxRange(from, otxs, k).Contains(index) {
      var i, p := OwnerExists(from, otxs, k, index);
    }
    forall i: nat, p: Part | Owns(Entries(from, otxs), i, p, k, index) ensures OtxRange(from, otxs, k).Contains(index) {
      OwnedInside(from, otxs, i, p, k);
    }
    forall i: nat, p: Part, j: nat, q: Part |
      Owns(Entries(from, otxs), i, p, k, index) && Owns(Entries(from, otxs), j, q, k, index)
      ensures i == j && p == q
    {
      OwnerUnique(from, otxs, k, index, i, p, j, q);
    }
  }

  /** Every append range is its segments' ranges, end to end. */
  lemma AppendRangeIsItsSegments(c: Counts, w: nat, otx: OtxView, k: Kind, j: nat)
    requires j < |otx.appendSegments|
    ensures var l := LayoutAt(c, w, otx);
            && l.appendSegments[j].Of(k).start
                 == (if j == 0 then l.AppendOf(k).start else l.appendSegments[j - 1].Of(k).End())
            && l.AppendOf(k).start == l.BaseOf(k).End()
            && (j + 1 == |otx.appendSegments| ==> l.appendSegments[j].Of(k).End() == l.AppendOf(k).End())
  {
    var l := LayoutAt(c, w, otx);
    assert l.BaseOf(k) == BaseRange(c, otx, k) && l.AppendOf(k) == AppendRange(c, otx, k);
    assert l.appendSegments[j].Of(k) == SegmentRange(c, otx, j, k);
    if j > 0 {
      assert l.appendSegments[j - 1].Of(k) == SegmentRange(c, otx, j - 1, k);
    }
  }

  /** A part of an accepted layout never reaches past the transaction. */
  lemma PartsWithinTransaction(from: Counts, otxs: seq<(nat, OtxView)>, limits: Counts, i: nat, p: Part, k: Kind)
    requires Within(CountsBefore(from, otxs, |otxs|), limits)
    requires i < |otxs| && Entries(from, otxs)[i].layout.HasPart(p)
    ensures Entries(from, otxs)[i].layout.PartOf(p, k).End() <= limits.At(k)
  {
    OwnedInside(from, otxs, i, p, k);
  }

  // ---------- machine arithmetic ----------

  predicate FieldsAreU32(otx: OtxView) {
    && (forall k: Kind :: otx.Count(k) < U32_LIMIT)
    && (forall j: nat, k: Kind | j < |otx.appendSegments| :: otx.appendSegments[j].Count(k) < U32_LIMIT)
  }

  /** How many ranges the first `n` OTXs take from each counter. */
  function RangesTaken(otxs: seq<(nat, OtxView)>, n: nat): nat
    requires n <= |otxs|
  {
    if n == 0 then 0 else RangesTaken(otxs, n - 1) + 1 + |otxs[n - 1].1.appendSegments|
  }

  lemma {:induction false} SegmentSumBound(otx: OtxView, n: nat, k: Kind)
    requires FieldsAreU32(otx) && n <= |otx.appendSegments|
    ensures SegmentSum(otx.appendSegments, n, k) <= n * (U32_LIMIT - 1)
  {
    if n == 0 {
    } else {
      SegmentSumBound(otx, n - 1, k);
    }
  }

  lemma {:induction false} CounterBound(from: Counts, otxs: seq<(nat, OtxView)>, n: nat, k: Kind)
    requires n <= |otxs|
    requires forall i: nat | i < n :: FieldsAreU32(otxs[i].1)
    ensures CountsBefore(from, otxs, n).At(k) <= from.At(k) + RangesTaken(otxs, n) * (U32_LIMIT - 1)
  {
    if n == 0 {
    } else {
      CounterBound(from, otxs, n - 1, k);
      SegmentSumBound(otxs[n - 1].1, |otxs[n - 1].1.appendSegments|, k);
    }
  }

  lemma {:induction false} RangesTakenMonotone(otxs: seq<(nat, OtxView)>, m: nat, n: nat)
    requires m <= n <= |otxs|
    ensures RangesTaken(otxs, m) <= RangesTaken(otxs, n)
  {
    if m == n {
    } else {
      RangesTakenMonotone(otxs, m, n - 1);
    }
  }

  /**
   * With u32 fields and fewer than 2^32 ranges, no counter, range end or mask bit count of the fold
   * reaches 2^64, so the unchecked machine additions and multiplications are exact.
   */
  lemma ArithmeticStaysBelow64Bits(from: Counts, otxs: seq<(nat, OtxView)>, i: nat, p: Part, k: Kind)
    requires from.At(k) < U32_LIMIT && RangesTaken(otxs, |otxs|) < U32_LIMIT
    requires forall n: nat | n < |otxs| :: FieldsAreU32(otxs[n].1)
    requires i < |otxs| && Entries(from, otxs)[i].layout.HasPart(p)
    ensures CountsBefore(from, otxs, i + 1).At(k) < U32_LIMIT * U32_LIMIT
    ensures Entries(from, otxs)[i].layout.PartOf(p, k).End() < U32_LIMIT * U32_LIMIT
    ensures 4 * otxs[i].1.Count(k) < U32_LIMIT * U32_LIMIT
  {
    RangesTakenMonotone(otxs, i + 1, |otxs|);
    CounterBound(from, otxs, i + 1, k);
    OwnedInside(from, otxs, i, p, k);
  }
}
