/** The lock plan, said without the builder: which requirements it holds, in which order, and what each one carries. */
module ExactPlan {
  import opened Base
  import opened Layout
  import opened Transaction
  import opened Preimage
  import opened Witness
  import opened Context
  import opened Plan
  import opened Engine
  import opened LockPlan
  import opened BuiltFacts

  /** The place of an origin inside one carrier's group: the whole transaction, the base, then the segments. */
  function Rank(o: SignatureOrigin): nat {
    match o
    case TxLevel => 0
    case OtxBase => 1
    case OtxAppendSegment(j) => 2 + j
  }

  /** A requirement an OTX rightly adds: the lock occurs in the part, and seal and hash are that part's. */
  predicate Justified(cx: CobuildContext, h: Blake2b, entry: OtxLayoutEntry, r: SigningRequirement) {
    && r.carrierWitnessIndex == entry.layout.witnessIndex
    && OtxBaseHash(h, entry.view, entry.layout, cx.tx).Ok?
    && Hit(cx, entry, r.origin)
    && CarriesSealAndHash(cx, h, entry, OtxBaseHash(h, entry.view, entry.layout, cx.tx).value, r)
  }

  /** Seal and hash are those of the requirement's part. */
  predicate CarriesSealAndHash(cx: CobuildContext, h: Blake2b, entry: OtxLayoutEntry, baseHash: Hash32,
                               r: SigningRequirement)
  {
    match r.origin
    case TxLevel => false
    case OtxBase =>
      UniqueLockSeal(LockHash(cx), entry.view.baseSeals) == Ok(r.seal) && r.signingMessageHash == baseHash
    case OtxAppendSegment(j) =>
      && j < |entry.view.appendSegments|
      && UniqueLockSeal(LockHash(cx), entry.view.appendSegments[j].seals) == Ok(r.seal)
      && AppendSegmentHash(h, entry.view, entry.layout, j, cx.tx, baseHash) == Ok(r.signingMessageHash)
  }

  predicate RanksAscend(rs: seq<SigningRequirement>) {
    forall k: nat, l: nat | k < l < |rs| :: Rank(rs[k].origin) < Rank(rs[l].origin)
  }

  predicate HasOrigin(rs: seq<SigningRequirement>, o: SignatureOrigin) {
    exists k: nat | k < |rs| :: rs[k].origin == o
  }

  /** The part of an OTX that holds inputs of the lock. */
  predicate Hit(cx: CobuildContext, entry: OtxLayoutEntry, o: SignatureOrigin) {
    match o
    case TxLevel => false
    case OtxBase => SignsBase(cx, entry)
    case OtxAppendSegment(j) => SegmentHit(cx, entry)(j)
  }

  lemma SegmentJustified(cx: CobuildContext, h: Blake2b, entry: OtxLayoutEntry, baseHash: Hash32, j: nat,
                         r: SigningRequirement)
    requires OtxBaseHash(h, entry.view, entry.layout, cx.tx) == Ok(baseHash)
    requires SegmentSignature(cx, h, entry, baseHash, j) == Ok(r) && SegmentHit(cx, entry)(j)
    ensures Justified(cx, h, entry, r) && r.origin == OtxAppendSegment(j)
  {}

  lemma SegmentRequirements(cx: CobuildContext, h: Blake2b, entry: OtxLayoutEntry, baseHash: Hash32,
                            rs: seq<SigningRequirement>)
    requires OtxBaseHash(h, entry.view, entry.layout, cx.tx) == Ok(baseHash)
    requires Collect(SegmentSignaturesOf(cx, h, entry, baseHash), |SignedSegments(cx, entry)|) == Ok(rs)
    ensures |rs| == |SignedSegments(cx, entry)|
    ensures forall k: nat | k < |rs| ::
              rs[k].origin == OtxAppendSegment(SignedSegments(cx, entry)[k]) && Justified(cx, h, entry, rs[k])
  {
    var f := SegmentSignaturesOf(cx, h, entry, baseHash);
    var js := SignedSegments(cx, entry);
    MatchingMeaning(|entry.layout.appendSegments|, SegmentHit(cx, entry));
    forall k: nat | k < |rs| ensures rs[k].origin == OtxAppendSegment(js[k]) && Justified(cx, h, entry, rs[k]) {
      assert f(k) == Ok(rs[k]);
      assert js[k] in js;
      SegmentJustified(cx, h, entry, baseHash, js[k], rs[k]);
    }
  }

  /** A base requirement, or none, in front of segment requirements at ascending indices. */
  lemma BaseThenSegments(base: seq<SigningRequirement>, segments: seq<SigningRequirement>, js: seq<nat>)
    requires |base| <= 1 && |segments| == |js|
    requires forall k: nat | k < |base| :: base[k].origin == OtxBase
    requires forall k: nat | k < |js| :: segments[k].origin == OtxAppendSegment(js[k])
    requires forall k: nat, l: nat | k < l < |js| :: js[k] < js[l]
    ensures RanksAscend(base + segments)
    ensures base != [] ==> HasOrigin(base + segments, OtxBase)
    ensures forall j: nat | j in js :: HasOrigin(base + segments, OtxAppendSegment(j))
  {
    var rs := base + segments;
    assert base != [] ==> rs[0] == base[0];
    forall j: nat | j in js ensures HasOrigin(rs, OtxAppendSegment(j)) {
      var k: nat :| k < |js| && js[k] == j;
      assert rs[|base| + k] == segments[k];
    }
  }

  lemma BaseRequirement(cx: CobuildContext, h: Blake2b, entry: OtxLayoutEntry, baseHash: Hash32,
                        base: seq<SigningRequirement>)
    requires OtxBaseHash(h, entry.view, entry.layout, cx.tx) == Ok(baseHash)
             && BaseSignature(cx, entry, baseHash) == Ok(base)
    ensures |base| <= 1 && (base != [] <==> SignsBase(cx, entry))
    ensures forall k: nat | k < |base| :: base[k].origin == OtxBase && Justified(cx, h, entry, base[k])
  {}

  lemma SignaturesSplit(cx: CobuildContext, h: Blake2b, entry: OtxLayoutEntry, rs: seq<SigningRequirement>)
    returns (baseHash: Hash32, base: seq<SigningRequirement>, segments: seq<SigningRequirement>)
    requires OtxSignatures(cx, h, entry) == Ok(rs)
    ensures OtxBaseHash(h, entry.view, entry.layout, cx.tx) == Ok(baseHash)
    ensures BaseSignature(cx, entry, baseHash) == Ok(base)
    ensures Collect(SegmentSignaturesOf(cx, h, entry, baseHash), |SignedSegments(cx, entry)|) == Ok(segments)
    ensures rs == base + segments
  {
    baseHash := OtxBaseHash(h, entry.view, entry.layout, cx.tx).value;
    base := BaseSignature(cx, entry, baseHash).value;
    segments := Collect(SegmentSignaturesOf(cx, h, entry, baseHash), |SignedSegments(cx, entry)|).value;
  }

  /** What one OTX adds: justified requirements in rank order, one for every part that is hit. */
  lemma EntryRequirements(cx: CobuildContext, h: Blake2b, entry: OtxLayoutEntry, rs: seq<SigningRequirement>)
    requires OtxSignatures(cx, h, entry) == Ok(rs)
    ensures forall k: nat | k < |rs| :: Justified(cx, h, entry, rs[k])
    ensures RanksAscend(rs)
    ensures forall o :: Hit(cx, entry, o) ==> HasOrigin(rs, o)
  {
    var baseHash, base, segments := SignaturesSplit(cx, h, entry, rs);
    BaseRequirement(cx, h, entry, baseHash, base);
    SegmentRequirements(cx, h, entry, baseHash, segments);
    MatchingMeaning(|entry.layout.appendSegments|, SegmentHit(cx, entry));
    BaseThenSegments(base, segments, SignedSegments(cx, entry));
    AllJustified(cx, h, entry, base, segments);
    forall o | Hit(cx, entry, o) ensures HasOrigin(rs, o) {
      if o.OtxAppendSegment? {
        assert o.segmentIndex in SignedSegments(cx, entry);
      }
    }
  }

  lemma AllJustified(cx: CobuildContext, h: Blake2b, entry: OtxLayoutEntry, a: seq<SigningRequirement>,
                     b: seq<SigningRequirement>)
    requires forall k: nat | k < |a| :: Justified(cx, h, entry, a[k])
    requires forall k: nat | k < |b| :: Justified(cx, h, entry, b[k])
    ensures forall k: nat | k < |a + b| :: Justified(cx, h, entry, (a + b)[k])
  {}

  lemma UnsignedOtxIsNotHit(cx: CobuildContext, entry: OtxLayoutEntry)
    requires !SignsOtx(cx, entry)
    ensures forall o :: !Hit(cx, entry, o)
  {
    MatchingMeaning(|entry.layout.appendSegments|, SegmentHit(cx, entry));
    assert forall j: nat :: SegmentHit(cx, entry)(j) ==> j in SignedSegments(cx, entry);
  }

  lemma ContributedSignatures(cx: CobuildContext, h: Blake2b, i: nat)
    requires i < |cx.OtxEntries()| && OtxContribution(cx, h, i).Ok?
    ensures var entry, rs := cx.OtxEntries()[i], OtxContribution(cx, h, i).value.signatures;
            if SignsOtx(cx, entry) then OtxSignatures(cx, h, entry) == Ok(rs) else rs == []
  {}

  /** The same of the OTX at index `i`, which may add nothing. */
  lemma ContributionRequirements(cx: CobuildContext, h: Blake2b, i: nat, rs: seq<SigningRequirement>)
    requires i < |cx.OtxEntries()| && OtxContribution(cx, h, i).Ok? && OtxContribution(cx, h, i).value.signatures == rs
    ensures forall k: nat | k < |rs| :: Justified(cx, h, cx.OtxEntries()[i], rs[k])
    ensures RanksAscend(rs)
    ensures forall o :: Hit(cx, cx.OtxEntries()[i], o) ==> HasOrigin(rs, o)
  {
    ContributedSignatures(cx, h, i);
    if SignsOtx(cx, cx.OtxEntries()[i]) {
      EntryRequirements(cx, h, cx.OtxEntries()[i], rs);
    } else {
      UnsignedOtxIsNotHit(cx, cx.OtxEntries()[i]);
    }
  }

  // ---------- the running lock in the transaction ----------

  predicate LockAt(tx: Tx, lock: Hash32, n: nat) { n < |tx.inputs| && tx.inputs[n].lockHash == lock }

  predicate LockInside(tx: Tx, lock: Hash32, range: Range) {
    exists n: nat | n < |tx.inputs| :: LockAt(tx, lock, n) && range.Contains(n)
  }

  predicate LockOutside(tx: Tx, lock: Hash32, range: Range) {
    exists n: nat | n < |tx.inputs| :: LockAt(tx, lock, n) && !range.Contains(n)
  }

  predicate FirstLock(tx: Tx, lock: Hash32, n: nat)
  {
    LockAt(tx, lock, n) && forall m: nat | m < n :: !LockAt(tx, lock, m)
  }

  /** What the planner's index list says about the transaction. */
  lemma LockInputsMeaning(tx: Tx, lock: Hash32, inputs: seq<nat>)
    requires ContextOf(tx, CurrentLock(lock)).indices == LockIndices(inputs)
    ensures forall n: nat :: n in inputs <==> LockAt(tx, lock, n)
    ensures forall range :: Meets(inputs, range) == LockInside(tx, lock, range)
    ensures forall range :: Escapes(inputs, range) == LockOutside(tx, lock, range)
    ensures inputs != [] ==> FirstLock(tx, lock, inputs[0])
    ensures inputs == [] ==> forall n: nat :: !LockAt(tx, lock, n)
  {
    MatchingMeaning(|tx.inputs|, LockMatches(tx, lock));
    forall range ensures Meets(inputs, range) == LockInside(tx, lock, range) {
      if n: nat :| LockAt(tx, lock, n) && range.Contains(n) {
        assert n in inputs;
      }
      if i: nat :| i < |inputs| && range.Contains(inputs[i]) {
        assert inputs[i] in inputs;
      }
    }
    forall range ensures Escapes(inputs, range) == LockOutside(tx, lock, range) {
      if n: nat :| LockAt(tx, lock, n) && !range.Contains(n) {
        assert n in inputs;
      }
      if i: nat :| i < |inputs| && !range.Contains(inputs[i]) {
        assert inputs[i] in inputs;
      }
    }
    if inputs != [] {
      assert inputs[0] in inputs;
      assert forall m: nat :: m in inputs ==> inputs[0] <= m;
    }
  }

  // ---------- the whole plan ----------

  /** The requirement (origin, carrier) that the transaction itself calls for. */
  predicate Demands(cx: CobuildContext, lock: Hash32, o: SignatureOrigin, carrier: nat) {
    match o
    case TxLevel =>
      && HasCobuild(cx.witnesses.summaries)
      && FirstLock(cx.tx, lock, carrier)
      && (cx.otxLayouts.NoLayout? || LockOutside(cx.tx, lock, cx.otxLayouts.layout.inputRange))
    case OtxBase =>
      exists i: nat | i < |cx.OtxEntries()| ::
        CarriedBy(cx, i, carrier) && LockInside(cx.tx, lock, cx.OtxEntries()[i].layout.baseInputs)
    case OtxAppendSegment(j) =>
      exists i: nat | i < |cx.OtxEntries()| :: CarriedBy(cx, i, carrier) && SegmentHolds(cx, lock, i, j)
  }

  predicate CarriedBy(cx: CobuildContext, i: nat, carrier: nat)
    requires i < |cx.OtxEntries()|
  {
    cx.OtxEntries()[i].layout.witnessIndex == carrier
  }

  predicate SegmentHolds(cx: CobuildContext, lock: Hash32, i: nat, j: nat)
    requires i < |cx.OtxEntries()|
  {
    var segments := cx.OtxEntries()[i].layout.appendSegments;
    j < |segments| && LockInside(cx.tx, lock, segments[j].inputs)
  }

  predicate Requires(rs: seq<SigningRequirement>, o: SignatureOrigin, carrier: nat) {
    exists k: nat | k < |rs| :: rs[k].origin == o && rs[k].carrierWitnessIndex == carrier
  }

  /** Tx-level first, then OTX after OTX, each with its base before its segments. */
  predicate Before(a: SigningRequirement, b: SigningRequirement) {
    && !b.origin.TxLevel?
    && (a.origin.TxLevel?
        || a.carrierWitnessIndex < b.carrierWitnessIndex
        || (a.carrierWitnessIndex == b.carrierWitnessIndex && Rank(a.origin) < Rank(b.origin)))
  }

  predicate InOrder(rs: seq<SigningRequirement>) {
    forall k: nat, l: nat | k < l < |rs| :: Before(rs[k], rs[l])
  }

  /** Requirements of one carrier belong to one OTX. */
  lemma SameCarrierSameOtx(cx: CobuildContext, i: nat, j: nat, carrier: nat)
    requires WitnessesAscend(cx) && i < |cx.OtxEntries()| && j < |cx.OtxEntries()|
    requires CarriedBy(cx, i, carrier) && CarriedBy(cx, j, carrier)
    ensures i == j
  {}

  /** The parts of a finished plan: the tx-level list, then one list for each OTX. */
  predicate MadeOf(cx: CobuildContext, h: Blake2b, rs: seq<SigningRequirement>, tx: seq<SigningRequirement>,
                   ss: seq<seq<SigningRequirement>>)
  {
    && TxLevelSignature(cx, h) == Ok(tx)
    && |ss| == |cx.OtxEntries()|
    && (forall i: nat | i < |ss| ::
          OtxContribution(cx, h, i).Ok? && OtxContribution(cx, h, i).value.signatures == ss[i])
    && rs == tx + Flatten(ss)
  }

  lemma PlanParts(cx: CobuildContext, h: Blake2b, plan: LockValidationPlan)
    returns (tx: seq<SigningRequirement>, ss: seq<seq<SigningRequirement>>)
    requires PlanLock(cx, h) == Ok(plan)
    ensures MadeOf(cx, h, plan.requiredSignatures, tx, ss)
  {
    tx := TxLevelSignature(cx, h).value;
    var f := Contributions(cx, h);
    var cs := Collect(f, |cx.OtxEntries()|).value;
    ss := seq(|cs|, i requires 0 <= i < |cs| => cs[i].signatures);
    forall i: nat | i < |ss| ensures OtxContribution(cx, h, i) == Ok(cs[i]) {
      assert f(i) == Ok(cs[i]);
    }
  }

  /** The tx-level list is one requirement of the first lock input when one is called for, else empty. */
  lemma TxLevelPart(cx: CobuildContext, h: Blake2b, tx: seq<SigningRequirement>)
    requires TxLevelSignature(cx, h) == Ok(tx)
    ensures tx == [] || (|tx| == 1 && tx[0].origin == TxLevel && LockInputs(cx) != []
                         && tx[0].carrierWitnessIndex == LockInputs(cx)[0])
    ensures tx != [] <==> cx.witnesses.hasCobuildWitnessLayout && NeedsTxLevelSignature(cx)
  {}

  /** Requirement `k` past the tx-level part belongs to some OTX's own list. */
  lemma OtxPartAt(cx: CobuildContext, h: Blake2b, rs: seq<SigningRequirement>, tx: seq<SigningRequirement>,
                  ss: seq<seq<SigningRequirement>>, k: nat)
    returns (i: nat, local: nat)
    requires MadeOf(cx, h, rs, tx, ss) && |tx| <= k < |rs|
    ensures i < |ss| && local < |ss[i]| && rs[k] == ss[i][local] && k == |tx| + |Flatten(ss[..i])| + local
    ensures Justified(cx, h, cx.OtxEntries()[i], rs[k])
    ensures RanksAscend(ss[i])
  {
    i, local := FlattenPlace(ss, k - |tx|);
    assert rs[k] == Flatten(ss)[k - |tx|];
    ContributionRequirements(cx, h, i, ss[i]);
  }

  lemma PlaceInPlan(tx: seq<SigningRequirement>, ss: seq<seq<SigningRequirement>>, i: nat, local: nat)
    requires i < |ss| && local < |ss[i]|
    ensures var k := |tx| + |Flatten(ss[..i])| + local;
            k < |tx + Flatten(ss)| && (tx + Flatten(ss))[k] == ss[i][local]
  {
    FlattenAt(ss, i, local);
  }

  lemma OtxPartHas(cx: CobuildContext, h: Blake2b, rs: seq<SigningRequirement>, tx: seq<SigningRequirement>,
                   ss: seq<seq<SigningRequirement>>, i: nat, o: SignatureOrigin)
    requires MadeOf(cx, h, rs, tx, ss) && i < |ss| && Hit(cx, cx.OtxEntries()[i], o)
    ensures Requires(rs, o, cx.OtxEntries()[i].layout.witnessIndex)
  {
    ContributionRequirements(cx, h, i, ss[i]);
    var local: nat :| local < |ss[i]| && ss[i][local].origin == o;
    assert Justified(cx, h, cx.OtxEntries()[i], ss[i][local]);
    PlaceInPlan(tx, ss, i, local);
  }

  lemma HitMeaning(cx: CobuildContext, lock: Hash32, i: nat, o: SignatureOrigin)
    requires cx.script == ContextOf(cx.tx, CurrentLock(lock)) && i < |cx.OtxEntries()|
    ensures Hit(cx, cx.OtxEntries()[i], o) == match o
              case TxLevel => false
              case OtxBase => LockInside(cx.tx, lock, cx.OtxEntries()[i].layout.baseInputs)
              case OtxAppendSegment(j) => SegmentHolds(cx, lock, i, j)
  {
    LockInputsMeaning(cx.tx, lock, LockInputs(cx));
  }

  lemma FirstLockIsUnique(tx: Tx, lock: Hash32, c: nat, d: nat)
    requires FirstLock(tx, lock, c) && FirstLock(tx, lock, d)
    ensures c == d
  {
    assert LockAt(tx, lock, c) && LockAt(tx, lock, d);
  }

  lemma TxLevelMeaning(cx: CobuildContext, lock: Hash32, h: Blake2b, tx: seq<SigningRequirement>)
    requires cx.script == ContextOf(cx.tx, CurrentLock(lock)) && TxLevelSignature(cx, h) == Ok(tx)
    requires cx.witnesses.hasCobuildWitnessLayout == HasCobuild(cx.witnesses.summaries)
    ensures |tx| <= 1 && forall k: nat | k < |tx| :: tx[k].origin == TxLevel
    ensures forall c :: Demands(cx, lock, TxLevel, c) <==> tx != [] && tx[0].carrierWitnessIndex == c
  {
    TxLevelPart(cx, h, tx);
    LockInputsMeaning(cx.tx, lock, LockInputs(cx));
    forall c: nat, d: nat | FirstLock(cx.tx, lock, c) && FirstLock(cx.tx, lock, d) ensures c == d {
      FirstLockIsUnique(cx.tx, lock, c, d);
    }
  }

  /** A context as `build` makes it. */
  predicate BuiltFor(cx: CobuildContext, lock: Hash32) {
    && cx.script == ContextOf(cx.tx, CurrentLock(lock))
    && cx.witnesses.hasCobuildWitnessLayout == HasCobuild(cx.witnesses.summaries)
    && WitnessesAscend(cx)
  }

  lemma HitIsDemanded(cx: CobuildContext, lock: Hash32, i: nat, o: SignatureOrigin)
    requires cx.script == ContextOf(cx.tx, CurrentLock(lock)) && i < |cx.OtxEntries()| && Hit(cx, cx.OtxEntries()[i], o)
    ensures Demands(cx, lock, o, cx.OtxEntries()[i].layout.witnessIndex)
  {
    HitMeaning(cx, lock, i, o);
    assert CarriedBy(cx, i, cx.OtxEntries()[i].layout.witnessIndex);
  }

  lemma TxLevelIsDemanded(cx: CobuildContext, lock: Hash32, h: Blake2b, tx: seq<SigningRequirement>, k: nat)
    requires BuiltFor(cx, lock) && TxLevelSignature(cx, h) == Ok(tx) && k < |tx|
    ensures Demands(cx, lock, tx[k].origin, tx[k].carrierWitnessIndex)
  {
    TxLevelMeaning(cx, lock, h, tx);
    assert Demands(cx, lock, TxLevel, tx[0].carrierWitnessIndex);
  }

  lemma PlannedIsDemanded(cx: CobuildContext, lock: Hash32, h: Blake2b, rs: seq<SigningRequirement>,
                          tx: seq<SigningRequirement>, ss: seq<seq<SigningRequirement>>, k: nat)
    requires BuiltFor(cx, lock) && MadeOf(cx, h, rs, tx, ss) && k < |rs|
    ensures Demands(cx, lock, rs[k].origin, rs[k].carrierWitnessIndex)
  {
    if k < |tx| {
      TxLevelIsDemanded(cx, lock, h, tx, k);
      assert rs[k] == tx[k];
    } else {
      var i, local := OtxPartAt(cx, h, rs, tx, ss, k);
      HitIsDemanded(cx, lock, i, rs[k].origin);
      assert rs[k].carrierWitnessIndex == cx.OtxEntries()[i].layout.witnessIndex;
    }
  }

  lemma OtxDemandIsPlanned(cx: CobuildContext, lock: Hash32, h: Blake2b, rs: seq<SigningRequirement>,
                           tx: seq<SigningRequirement>, ss: seq<seq<SigningRequirement>>,
                           o: SignatureOrigin, carrier: nat)
    requires BuiltFor(cx, lock) && MadeOf(cx, h, rs, tx, ss) && !o.TxLevel? && Demands(cx, lock, o, carrier)
    ensures Requires(rs, o, carrier)
  {
    var i: nat :| i < |cx.OtxEntries()| && CarriedBy(cx, i, carrier)
      && match o
         case TxLevel => false
         case OtxBase => LockInside(cx.tx, lock, cx.OtxEntries()[i].layout.baseInputs)
         case OtxAppendSegment(j) => SegmentHolds(cx, lock, i, j);
    HitMeaning(cx, lock, i, o);
    OtxPartHas(cx, h, rs, tx, ss, i, o);
  }

  lemma DemandIsPlanned(cx: CobuildContext, lock: Hash32, h: Blake2b, rs: seq<SigningRequirement>,
                        tx: seq<SigningRequirement>, ss: seq<seq<SigningRequirement>>,
                        o: SignatureOrigin, carrier: nat)
    requires BuiltFor(cx, lock) && MadeOf(cx, h, rs, tx, ss) && Demands(cx, lock, o, carrier)
    ensures Requires(rs, o, carrier)
  {
    if o.TxLevel? {
      TxLevelMeaning(cx, lock, h, tx);
      assert rs[0] == tx[0];
    } else {
      OtxDemandIsPlanned(cx, lock, h, rs, tx, ss, o, carrier);
    }
  }

  lemma PlannedInOrder(cx: CobuildContext, lock: Hash32, h: Blake2b, rs: seq<SigningRequirement>,
                       tx: seq<SigningRequirement>, ss: seq<seq<SigningRequirement>>,
                       k: nat, l: nat)
    requires BuiltFor(cx, lock) && MadeOf(cx, h, rs, tx, ss) && k < l < |rs|
    ensures Before(rs[k], rs[l])
  {
    TxLevelMeaning(cx, lock, h, tx);
    var j, b := OtxPartAt(cx, h, rs, tx, ss, l);
    if k < |tx| {
      assert rs[k] == tx[k];
    } else {
      var i, a := OtxPartAt(cx, h, rs, tx, ss, k);
      PlacesAscend(ss, i, a, j, b);
    }
  }

  /**
   * The exact plan.  A finished lock plan holds a requirement for precisely the scopes the transaction
   * calls for, in one strict order (so none twice), and every OTX requirement carries the one matching
   * seal and the hash of its own part.
   */
  lemma PlanIsExact(tx: Tx, lock: Hash32, h: Blake2b, cx: CobuildContext, plan: LockValidationPlan)
    requires Build(tx, CurrentLock(lock)) == Ok(cx) && PlanLock(cx, h) == Ok(plan)
    ensures plan.lockScriptHash == lock
    ensures forall o, carrier :: Demands(cx, lock, o, carrier) <==> Requires(plan.requiredSignatures, o, carrier)
    ensures InOrder(plan.requiredSignatures)
    ensures forall k: nat | k < |plan.requiredSignatures| && !plan.requiredSignatures[k].origin.TxLevel? ::
              exists i: nat :: i < |cx.OtxEntries()| && Justified(cx, h, cx.OtxEntries()[i], plan.requiredSignatures[k])
  {
    SummariesOfWitnesses(tx, CurrentLock(lock), cx);
    BuiltWitnessesAscend(tx, CurrentLock(lock), cx);
    var rs := plan.requiredSignatures;
    var txPart, ss := PlanParts(cx, h, plan);
    forall o, carrier ensures Demands(cx, lock, o, carrier) <==> Requires(rs, o, carrier) {
      if Demands(cx, lock, o, carrier) {
        DemandIsPlanned(cx, lock, h, rs, txPart, ss, o, carrier);
      }
      if k: nat :| k < |rs| && rs[k].origin == o && rs[k].carrierWitnessIndex == carrier {
        PlannedIsDemanded(cx, lock, h, rs, txPart, ss, k);
      }
    }
    forall k: nat, l: nat | k < l < |rs| ensures Before(rs[k], rs[l]) {
      PlannedInOrder(cx, lock, h, rs, txPart, ss, k, l);
    }
    forall k: nat | k < |rs| && !rs[k].origin.TxLevel?
      ensures exists i: nat :: i < |cx.OtxEntries()| && Justified(cx, h, cx.OtxEntries()[i], rs[k])
    {
      TxLevelMeaning(cx, lock, h, txPart);
      var i, local := OtxPartAt(cx, h, rs, txPart, ss, k);
    }
  }
}
