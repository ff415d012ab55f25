/** Which witness sequences the layout collector accepts. */
module Language {
  import opened Base
  import opened View
  import opened Layout
  import opened Collector
  import opened Witness

  /** The collector alone, over what the first `n` witnesses mean to it. */
  function CollectPrefix(ms: seq<LayoutWitness>, n: nat): Result<Collected>
    requires n <= |ms|
  {
    if n == 0 then Ok(EMPTY)
    else
      var before :- CollectPrefix(ms, n - 1);
      Record(before, n - 1, ms[n - 1])
  }

  predicate NoOtxWitnesses(ms: seq<LayoutWitness>, n: nat)
    requires n <= |ms|
  {
    forall i: nat | i < n :: ms[i] == Ignore
  }

  /** Among the first `n`: one start at `s`, then OTXs at exactly s + 1 .. s + count. */
  predicate OneBlock(ms: seq<LayoutWitness>, n: nat, s: nat, count: nat)
    requires n <= |ms|
  {
    && s + count < n
    && ms[s].StartWitness?
    && (forall i: nat | s < i <= s + count :: ms[i].OtxWitness?)
    && (forall i: nat | i < n && !(s <= i <= s + count) :: ms[i] == Ignore)
  }

  /** The collected state mirrors the block. */
  predicate Mirrors(ms: seq<LayoutWitness>, n: nat, c: Collected)
    requires n <= |ms|
  {
    match c.start
    case None => c.otxs == [] && NoOtxWitnesses(ms, n)
    case Some(start) =>
      && OneBlock(ms, n, start.0, |c.otxs|)
      && ms[start.0] == StartWitness(start.1)
      && forall k: nat | k < |c.otxs| ::
           c.otxs[k].0 == start.0 + 1 + k && ms[start.0 + 1 + k] == OtxWitness(c.otxs[k].1)
  }

  lemma {:induction false} CollectedMirrors(ms: seq<LayoutWitness>, n: nat)
    requires n <= |ms| && CollectPrefix(ms, n).Ok?
    ensures Mirrors(ms, n, CollectPrefix(ms, n).value)
  {
    if n == 0 {
    } else {
      CollectedMirrors(ms, n - 1);
    }
  }

  /** A block, whole or still growing, is collected. */
  lemma {:induction false} BlockIsCollected(ms: seq<LayoutWitness>, n: nat, s: nat, count: nat)
    requires n <= |ms|
    requires NoOtxWitnesses(ms, n) || OneBlock(ms, n, s, count)
    ensures CollectPrefix(ms, n).Ok?
  {
    if n == 0 {
    } else {
      BlockIsCollected(ms, n - 1, s, if n - 1 == s + count && count > 0 then count - 1 else count);
      CollectedMirrors(ms, n - 1);
      var c := CollectPrefix(ms, n - 1).value;
      if n - 1 == s + count && OneBlock(ms, n, s, count) && count > 0 {
        assert OneBlock(ms, n - 1, s, count - 1);
        assert c.start.Some?;
        BlockUnique(ms, n - 1, s, count - 1, c.start.value.0, |c.otxs|);
      }
    }
  }

  lemma BlockUnique(ms: seq<LayoutWitness>, n: nat, s: nat, count: nat, t: nat, other: nat)
    requires n <= |ms| && OneBlock(ms, n, s, count) && OneBlock(ms, n, t, other)
    ensures s == t && count == other
  {
    assert ms[s] != Ignore && ms[t] != Ignore;
    var pastFirst, pastSecond := s + count + 1, t + other + 1;
    assert pastFirst < n ==> ms[pastFirst] == Ignore;
    assert pastSecond < n ==> ms[pastSecond] == Ignore;
  }

  /**
   * The collector accepts exactly the sequences whose OTX-kind witnesses are absent, or are one start
   * directly followed by all the OTXs.
   */
  lemma CollectLanguage(ms: seq<LayoutWitness>)
    ensures CollectPrefix(ms, |ms|).Ok?
       <==> NoOtxWitnesses(ms, |ms|) || exists s: nat, count: nat :: OneBlock(ms, |ms|, s, count)
  {
    if CollectPrefix(ms, |ms|).Ok? {
      CollectedMirrors(ms, |ms|);
    }
    if NoOtxWitnesses(ms, |ms|) {
      BlockIsCollected(ms, |ms|, 0, 0);
    }
    if s: nat, count: nat :| OneBlock(ms, |ms|, s, count) {
      BlockIsCollected(ms, |ms|, s, count);
    }
  }

  // ---------- the same, of the witnesses themselves ----------

  predicate AllClassified(cs: seq<Classification>) {
    forall i: nat | i < |cs| :: cs[i].Ok?
  }

  function Meanings(cs: seq<Classification>): seq<LayoutWitness>
    requires AllClassified(cs)
  {
    seq(|cs|, i requires 0 <= i < |cs| => cs[i].value.1)
  }

  lemma {:induction false} ScanCollects(cs: seq<Classification>, n: nat)
    requires AllClassified(cs) && n <= |cs|
    ensures ScanPrefix(cs, n).Ok? <==> CollectPrefix(Meanings(cs), n).Ok?
    ensures ScanPrefix(cs, n).Ok? ==> ScanPrefix(cs, n).value.collected == CollectPrefix(Meanings(cs), n).value
  {
    if n == 0 {
    } else {
      ScanCollects(cs, n - 1);
    }
  }

  lemma {:induction false} ScanClassifies(cs: seq<Classification>, n: nat)
    requires n <= |cs| && ScanPrefix(cs, n).Ok?
    ensures forall i: nat | i < n :: cs[i].Ok? && ScanPrefix(cs, n).value.summaries[i] == cs[i].value.0
  {
    if n == 0 {
    } else {
      ScanClassifies(cs, n - 1);
    }
  }

  /** The OTX witnesses of a block, each with its index. */
  function BlockOtxs(ms: seq<LayoutWitness>, s: nat, count: nat): seq<(nat, OtxView)>
    requires OneBlock(ms, |ms|, s, count)
  {
    seq(count, k requires 0 <= k < count => (s + 1 + k, ms[s + 1 + k].otx))
  }

  /** `built` is the layout of a non-empty block of valid OTXs that fits the transaction. */
  predicate BuiltFrom(ms: seq<LayoutWitness>, limits: Counts, built: BuiltLayout, s: nat, count: nat) {
    && count > 0
    && OneBlock(ms, |ms|, s, count)
    && var from, otxs := StartCounts(ms[s].start), BlockOtxs(ms, s, count);
       && (forall i: nat | i < count :: ValidOtxView(otxs[i].1))
       && Within(CountsBefore(from, otxs, count), limits)
       && built == BuiltOf(from, otxs)
  }

  lemma FinishOfBlock(ms: seq<LayoutWitness>, c: Collected, limits: Counts, built: BuiltLayout)
    requires c.start.Some? && Mirrors(ms, |ms|, c)
    ensures FinishLayout(c.start, c.otxs, limits) != Ok(NoLayout)
    ensures (FinishLayout(c.start, c.otxs, limits) == Ok(Complete(built)))
         == BuiltFrom(ms, limits, built, c.start.value.0, |c.otxs|)
  {
    assert BlockOtxs(ms, c.start.value.0, |c.otxs|) == c.otxs;
  }

  lemma FinishLanguage(ms: seq<LayoutWitness>, c: Collected, limits: Counts, built: BuiltLayout)
    requires Mirrors(ms, |ms|, c)
    ensures FinishLayout(c.start, c.otxs, limits) == Ok(NoLayout) <==> NoOtxWitnesses(ms, |ms|)
    ensures FinishLayout(c.start, c.otxs, limits) == Ok(Complete(built))
       <==> exists s: nat, count: nat :: BuiltFrom(ms, limits, built, s, count)
  {
    if c.start.Some? {
      FinishOfBlock(ms, c, limits, built);
      assert ms[c.start.value.0] != Ignore;
      if t: nat, count: nat :| BuiltFrom(ms, limits, built, t, count) {
        BlockUnique(ms, |ms|, c.start.value.0, |c.otxs|, t, count);
      }
    } else {
      forall t: nat, count: nat ensures !BuiltFrom(ms, limits, built, t, count) {
        assert t < |ms| ==> ms[t] == Ignore;
      }
    }
  }

  /** The layout half of a successful scan. */
  predicate ScansTo(cs: seq<Classification>, limits: Counts, layouts: OtxLayouts) {
    ScanAll(cs, limits).Ok? && ScanAll(cs, limits).value.otxLayouts == layouts
  }

  /**
   * The whole scan: no layout exactly when no OTX-kind witness occurs; a complete layout exactly when
   * the OTX-kind witnesses are one start followed by at least one OTX, all valid and together fitting
   * the transaction, and then it is their layout, OTX k standing at witness s + 1 + k.  Every other
   * shape is an error.
   */
  lemma ScanLanguage(cs: seq<Classification>, limits: Counts, built: BuiltLayout)
    ensures ScansTo(cs, limits, NoLayout) <==> AllClassified(cs) && NoOtxWitnesses(Meanings(cs), |cs|)
    ensures ScansTo(cs, limits, Complete(built))
       <==> AllClassified(cs) && exists s: nat, count: nat :: BuiltFrom(Meanings(cs), limits, built, s, count)
  {
    if ScanPrefix(cs, |cs|).Ok? {
      ScanClassifies(cs, |cs|);
    }
    if AllClassified(cs) {
      var ms := Meanings(cs);
      ScanCollects(cs, |cs|);
      CollectLanguage(ms);
      if CollectPrefix(ms, |ms|).Ok? {
        CollectedMirrors(ms, |ms|);
        FinishLanguage(ms, CollectPrefix(ms, |ms|).value, limits, built);
      }
    }
  }
}
