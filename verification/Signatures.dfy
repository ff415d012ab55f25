/**
 * What equal signed hashes mean: with no collision among the hashed inputs, the same kind of scope and the
 * same content.
 */
module Signatures {
  import opened Base
  import opened LazyReader
  import opened View
  import opened Layout
  import opened Transaction
  import opened Preimage
  import opened Scope
  import opened Faithful
  import opened Injective
  import opened Stability
  import opened Bound
  import opened Context
  import opened Plan
  import opened Engine
  import opened LockPlan
  import opened BuiltFacts
  import opened ExactPlan
  import opened Agreement
  import opened Binding

  // ---------- what a context hashes ----------

  predicate HashesTx(cx: CobuildContext, personal: string, x: Bytes) {
    && cx.witnesses.UniqueMessage().Ok?
    && personal == TxPersonal(MessageOf(cx.witnesses.UniqueMessage().value))
    && TxPreimage(MessageOf(cx.witnesses.UniqueMessage().value), cx.tx) == Ok(x)
  }

  predicate HashesBase(cx: CobuildContext, i: nat, personal: string, x: Bytes) {
    && i < |cx.OtxEntries()|
    && personal == OTX_BASE_PERSONAL
    && SiteOf(cx, i).Preimage() == Ok(x)
  }

  predicate HashesSegment(cx: CobuildContext, h: Blake2b, i: nat, j: nat, personal: string, x: Bytes) {
    && i < |cx.OtxEntries()|
    && personal == OTX_APPEND_SEGMENT_PERSONAL
    && var e := cx.OtxEntries()[i];
       && OtxBaseHash(h, e.view, e.layout, cx.tx).Ok?
       && AppendSegmentPreimage(e.view, e.layout, j, cx.tx, OtxBaseHash(h, e.view, e.layout, cx.tx).value) == Ok(x)
  }

  function SiteOf(cx: CobuildContext, i: nat): Site
    requires i < |cx.OtxEntries()|
  {
    Site(cx.OtxEntries()[i].view, cx.OtxEntries()[i].layout, cx.tx)
  }

  /** One of the finitely many inputs the planner can hash for this context. */
  ghost predicate Hashes(cx: CobuildContext, h: Blake2b, personal: string, x: Bytes) {
    || HashesTx(cx, personal, x)
    || (exists i: nat :: HashesBase(cx, i, personal, x))
    || (exists i: nat, j: nat :: HashesSegment(cx, h, i, j, personal, x))
  }

  /** No two different inputs hashed for the two contexts have the same hash. */
  ghost predicate CollisionFree(h: Blake2b, a: CobuildContext, b: CobuildContext) {
    forall p: string, x: Bytes, q: string, y: Bytes | Hashes(a, h, p, x) && Hashes(b, h, q, y) ::
      h(p, x) == h(q, y) ==> p == q && x == y
  }

  // ---------- what a requirement's hash is of ----------

  /** The requirement's hash is of this input, which belongs to its origin. */
  predicate SignsInput(cx: CobuildContext, h: Blake2b, i: nat, r: SigningRequirement, personal: string, x: Bytes) {
    && r.signingMessageHash == h(personal, x)
    && match r.origin
       case TxLevel => HashesTx(cx, personal, x)
       case OtxBase => HashesBase(cx, i, personal, x) && CarriedBy(cx, i, r.carrierWitnessIndex)
       case OtxAppendSegment(j) => HashesSegment(cx, h, i, j, personal, x) && CarriedBy(cx, i, r.carrierWitnessIndex)
  }

  lemma JustifiedSigns(cx: CobuildContext, h: Blake2b, i: nat, r: SigningRequirement)
    returns (personal: string, x: Bytes)
    requires i < |cx.OtxEntries()| && Justified(cx, h, cx.OtxEntries()[i], r)
    ensures SignsInput(cx, h, i, r, personal, x)
  {
    var e := cx.OtxEntries()[i];
    var baseHash := OtxBaseHash(h, e.view, e.layout, cx.tx).value;
    match r.origin
    case OtxBase =>
      personal, x := OTX_BASE_PERSONAL, OtxBasePreimage(e.view, e.layout, cx.tx).value;
    case OtxAppendSegment(j) =>
      personal, x := OTX_APPEND_SEGMENT_PERSONAL, AppendSegmentPreimage(e.view, e.layout, j, cx.tx, baseHash).value;
  }

  lemma PlannedSigns(tx: Tx, lock: Hash32, h: Blake2b, cx: CobuildContext, plan: LockValidationPlan, k: nat)
    returns (i: nat, personal: string, x: Bytes)
    requires Build(tx, CurrentLock(lock)) == Ok(cx) && PlanLock(cx, h) == Ok(plan) && k < |plan.requiredSignatures|
    ensures SignsInput(cx, h, i, plan.requiredSignatures[k], personal, x)
  {
    var r := plan.requiredSignatures[k];
    if r.origin.TxLevel? {
      PlannedTxLevelHolds(tx, lock, h, cx, plan, k);
      var message := MessageOf(cx.witnesses.UniqueMessage().value);
      i, personal, x := 0, TxPersonal(message), TxPreimage(message, cx.tx).value;
    } else {
      PlanIsExact(tx, lock, h, cx, plan);
      i :| i < |cx.OtxEntries()| && Justified(cx, h, cx.OtxEntries()[i], r);
      personal, x := JustifiedSigns(cx, h, i, r);
    }
  }

  lemma SignedIsHashed(cx: CobuildContext, h: Blake2b, i: nat, r: SigningRequirement, personal: string, x: Bytes)
    requires SignsInput(cx, h, i, r, personal, x)
    ensures Hashes(cx, h, personal, x)
  {
    match r.origin
    case TxLevel => assert HashesTx(cx, personal, x);
    case OtxBase => assert HashesBase(cx, i, personal, x);
    case OtxAppendSegment(j) => assert HashesSegment(cx, h, i, j, personal, x);
  }

  // ---------- equal hashes ----------

  /** A requirement of a plan, with the transaction it was planned for. */
  datatype Signed = Signed(tx: Tx, lock: Hash32, cx: CobuildContext, plan: LockValidationPlan, k: nat) {
    ghost predicate Sound(h: Blake2b) {
      && Build(tx, CurrentLock(lock)) == Ok(cx) && tx.Valid() && Readable(tx)
      && PlanLock(cx, h) == Ok(plan) && k < |plan.requiredSignatures|
    }

    function Requirement(): SigningRequirement
      requires k < |plan.requiredSignatures|
    {
      plan.requiredSignatures[k]
    }
  }

  lemma PersonalsDiffer(message: Option<Cursor>)
    ensures OTX_BASE_PERSONAL != OTX_APPEND_SEGMENT_PERSONAL
    ensures TX_WITH_MESSAGE_PERSONAL != TX_WITHOUT_MESSAGE_PERSONAL
    ensures TxPersonal(message) != OTX_BASE_PERSONAL && TxPersonal(message) != OTX_APPEND_SEGMENT_PERSONAL
  {
    assert OTX_BASE_PERSONAL[8] == 'b' && OTX_APPEND_SEGMENT_PERSONAL[8] == 's';
    assert TX_WITH_MESSAGE_PERSONAL[7] == 'w' && TX_WITHOUT_MESSAGE_PERSONAL[7] == 'n';
    assert OTX_BASE_PERSONAL[6] == 'o' && OTX_APPEND_SEGMENT_PERSONAL[6] == 'o';
    assert TX_WITH_MESSAGE_PERSONAL[6] == 't' && TX_WITHOUT_MESSAGE_PERSONAL[6] == 't';
  }

  /**
   * The same message, permissions, inputs and outputs up to the first doubtful type script; and the same covered
   * base content exactly when the covered outputs agree on which carry a type script.
   */
  predicate BasesAlike(a: Site, b: Site) {
    a.Ok() && b.Ok() && AlwaysBound(a, b) && (SameBase(a, b) <==> SameTypePresence(a.Scope(), b.Scope()))
  }

  /** One base hash, the same flags and the same covered entities. */
  predicate SegmentsAlike(h: Blake2b, a: Site, j: nat, b: Site, l: nat) {
    && a.Ok() && b.Ok() && j < |a.otx.appendSegments| && l < |b.otx.appendSegments|
    && OtxBaseHash(h, a.otx, a.layout, a.tx).Ok?
    && OtxBaseHash(h, a.otx, a.layout, a.tx) == OtxBaseHash(h, b.otx, b.layout, b.tx)
    && SegmentsAlikeOver(OtxBaseHash(h, a.otx, a.layout, a.tx).value, a, j, b, l)
  }

  predicate SegmentsAlikeOver(base: Hash32, a: Site, j: nat, b: Site, l: nat)
    requires a.Ok() && b.Ok() && j < |a.otx.appendSegments| && l < |b.otx.appendSegments|
  {
    && (a.otx.appendSegments[j].inputCells < SMALL && b.otx.appendSegments[l].inputCells < SMALL ==>
          SameAppend(base, a, j, b, l))
    && (SameAppend(base, a, j, b, l) <==>
          CoversPrevious(a.otx.appendSegments[j].segmentFlags) == CoversPrevious(b.otx.appendSegments[l].segmentFlags))
  }

  predicate SameAppend(base: Hash32, a: Site, j: nat, b: Site, l: nat)
    requires a.Ok() && b.Ok() && j < |a.otx.appendSegments| && l < |b.otx.appendSegments|
  {
    AppendScopeOf(a.otx, a.layout, a.tx, j, base) == AppendScopeOf(b.otx, b.layout, b.tx, l, base)
  }

  /**
   * The same message, transaction hash and cells both transactions have; and the same trailing witnesses too,
   * exactly when the input counts agree.
   */
  predicate TxsAlike(a: CobuildContext, b: CobuildContext) {
    && Readable(a.tx) && Readable(b.tx)
    && a.witnesses.UniqueMessage().Ok? && b.witnesses.UniqueMessage().Ok?
    && var m, n := MessageOf(a.witnesses.UniqueMessage().value), MessageOf(b.witnesses.UniqueMessage().value);
       && (m.Some? ==> m.value.InBounds()) && (n.Some? ==> n.value.InBounds())
       && SameTxFront(TxScopeOf(m, a.tx), TxScopeOf(n, b.tx))
       && (TxScopeOf(m, a.tx) == TxScopeOf(n, b.tx) <==> |a.tx.inputs| == |b.tx.inputs|)
  }

  /** What two requirements with equal hashes have in common: the kind of scope, and what the scope covers. */
  predicate SignAlike(h: Blake2b, a: CobuildContext, i: nat, o: SignatureOrigin, b: CobuildContext, n: nat,
                      p: SignatureOrigin)
  {
    match o
    case TxLevel => p.TxLevel? && TxsAlike(a, b)
    case OtxBase =>
      p.OtxBase? && i < |a.OtxEntries()| && n < |b.OtxEntries()| && BasesAlike(SiteOf(a, i), SiteOf(b, n))
    case OtxAppendSegment(j) =>
      && p.OtxAppendSegment? && i < |a.OtxEntries()| && n < |b.OtxEntries()|
      && BasesAlike(SiteOf(a, i), SiteOf(b, n))
      && SegmentsAlike(h, SiteOf(a, i), j, SiteOf(b, n), p.segmentIndex)
  }

  lemma MessageSound(s: Signed, h: Blake2b)
    requires s.Sound(h) && s.cx.witnesses.UniqueMessage().Ok?
    ensures s.cx.tx == s.tx
    ensures var m := MessageOf(s.cx.witnesses.UniqueMessage().value);
            m.Some? ==> m.value.InBounds() && SelfDelimiting(m.value.Content())
  {
    SummariesOfWitnesses(s.tx, CurrentLock(s.lock), s.cx);
    var unique := s.cx.witnesses.UniqueMessage().value;
    if unique.Some? {
      UniqueMessageGood(s.tx, CurrentLock(s.lock), s.cx, unique.value.0, unique.value.1);
    }
  }

  lemma SiteSound(s: Signed, h: Blake2b, i: nat)
    requires s.Sound(h) && i < |s.cx.OtxEntries()|
    ensures s.cx.tx == s.tx && SiteOf(s.cx, i).Ok() && SelfDelimiting(SiteOf(s.cx, i).otx.message.Content())
    ensures ValidOtxView(SiteOf(s.cx, i).otx)
  {
    SummariesOfWitnesses(s.tx, CurrentLock(s.lock), s.cx);
    EntrySound(s.tx, CurrentLock(s.lock), s.cx, i);
  }

  lemma EqualBases(s: Signed, i: nat, t: Signed, n: nat, h: Blake2b)
    requires s.Sound(h) && t.Sound(h) && i < |s.cx.OtxEntries()| && n < |t.cx.OtxEntries()|
    requires SiteOf(s.cx, i).Preimage().Ok? && SiteOf(s.cx, i).Preimage() == SiteOf(t.cx, n).Preimage()
    ensures BasesAlike(SiteOf(s.cx, i), SiteOf(t.cx, n))
  {
    SiteSound(s, h, i);
    SiteSound(t, h, n);
    BasePreimageBinds(SiteOf(s.cx, i), SiteOf(t.cx, n));
    BasePreimageDetermines(SiteOf(s.cx, i), SiteOf(t.cx, n));
  }

  /** The base hash stands in front of every segment preimage. */
  lemma BaseHashInFront(a: Site, j: nat, base: Hash32, x: Bytes)
    requires a.Ok() && j < |a.otx.appendSegments|
    requires AppendSegmentPreimage(a.otx, a.layout, j, a.tx, base) == Ok(x)
    ensures |x| >= 32 && x[..32] == base
  {
    AppendPreimageIsScope(a.otx, a.layout, a.tx, j, base);
  }

  lemma EqualSegments(a: Site, j: nat, b: Site, l: nat, h: Blake2b, ha: Hash32, hb: Hash32, x: Bytes)
    requires a.Ok() && b.Ok() && a.tx.Valid() && b.tx.Valid() && ValidOtxView(a.otx) && ValidOtxView(b.otx)
    requires j < |a.otx.appendSegments| && l < |b.otx.appendSegments|
    requires OtxBaseHash(h, a.otx, a.layout, a.tx) == Ok(ha) && OtxBaseHash(h, b.otx, b.layout, b.tx) == Ok(hb)
    requires AppendSegmentPreimage(a.otx, a.layout, j, a.tx, ha) == Ok(x)
    requires AppendSegmentPreimage(b.otx, b.layout, l, b.tx, hb) == Ok(x)
    ensures ha == hb && SegmentsAlike(h, a, j, b, l)
  {
    BaseHashInFront(a, j, ha, x);
    BaseHashInFront(b, l, hb, x);
    AppendPreimageDetermines(a, j, b, l, ha, hb);
    if a.otx.appendSegments[j].inputCells < SMALL && b.otx.appendSegments[l].inputCells < SMALL {
      AppendPreimageDeterminesOutright(a, j, b, l, ha, hb);
    }
  }

  /** Where two segments are signed alike, their equal base hashes are over equal base preimages. */
  lemma EqualBaseHashes(a: CobuildContext, i: nat, b: CobuildContext, n: nat, h: Blake2b)
    requires i < |a.OtxEntries()| && n < |b.OtxEntries()| && CollisionFree(h, a, b)
    requires var s, t := SiteOf(a, i), SiteOf(b, n);
             && OtxBaseHash(h, s.otx, s.layout, s.tx).Ok?
             && OtxBaseHash(h, s.otx, s.layout, s.tx) == OtxBaseHash(h, t.otx, t.layout, t.tx)
    ensures SiteOf(a, i).Preimage().Ok? && SiteOf(a, i).Preimage() == SiteOf(b, n).Preimage()
  {
    var x, y := SiteOf(a, i).Preimage().value, SiteOf(b, n).Preimage().value;
    assert HashesBase(a, i, OTX_BASE_PERSONAL, x) && HashesBase(b, n, OTX_BASE_PERSONAL, y);
    assert Hashes(a, h, OTX_BASE_PERSONAL, x) && Hashes(b, h, OTX_BASE_PERSONAL, y);
  }

  lemma EqualTxs(s: Signed, t: Signed, h: Blake2b, personal: string, x: Bytes)
    requires s.Sound(h) && t.Sound(h) && HashesTx(s.cx, personal, x) && HashesTx(t.cx, personal, x)
    ensures TxsAlike(s.cx, t.cx)
  {
    MessageSound(s, h);
    MessageSound(t, h);
    var m, n := MessageOf(s.cx.witnesses.UniqueMessage().value), MessageOf(t.cx.witnesses.UniqueMessage().value);
    PersonalsDiffer(m);
    TxPreimageBinds(m, s.tx, n, t.tx);
    TxPreimageDetermines(m, s.tx, n, t.tx);
  }

  /**
   * What a signature binds.  Where no two of the hashed inputs collide, planned requirements with equal hashes, in
   * two transactions, are over the same kind of scope and over what that kind always binds: the front of the base
   * content, the whole segment, or message, transaction hash and common cells.  The rest is the same exactly under
   * the condition of its kind.  A segment hash binds its OTX's base content through the base hash.
   */
  lemma EqualHashesSignAlike(s: Signed, t: Signed, h: Blake2b) returns (i: nat, n: nat)
    requires s.Sound(h) && t.Sound(h) && CollisionFree(h, s.cx, t.cx)
    requires s.Requirement().signingMessageHash == t.Requirement().signingMessageHash
    ensures SignAlike(h, s.cx, i, s.Requirement().origin, t.cx, n, t.Requirement().origin)
    ensures !s.Requirement().origin.TxLevel? ==>
              && CarriedBy(s.cx, i, s.Requirement().carrierWitnessIndex)
              && CarriedBy(t.cx, n, t.Requirement().carrierWitnessIndex)
  {
    var r, q := s.Requirement(), t.Requirement();
    var p, x, u, y;
    i, p, x := PlannedSigns(s.tx, s.lock, h, s.cx, s.plan, s.k);
    n, u, y := PlannedSigns(t.tx, t.lock, h, t.cx, t.plan, t.k);
    SignedIsHashed(s.cx, h, i, r, p, x);
    SignedIsHashed(t.cx, h, n, q, u, y);
    assert p == u && x == y;
    SameKind(s.cx, h, i, r, t.cx, n, q, p, x);
    match r.origin
    case TxLevel => EqualTxs(s, t, h, p, x);
    case OtxBase => EqualBases(s, i, t, n, h);
    case OtxAppendSegment(j) =>
      SegmentsBind(s, i, j, t, n, q.origin.segmentIndex, h, p, x);
  }

  lemma SameKind(a: CobuildContext, h: Blake2b, i: nat, r: SigningRequirement,
                 b: CobuildContext, n: nat, q: SigningRequirement, personal: string, x: Bytes)
    requires SignsInput(a, h, i, r, personal, x) && SignsInput(b, h, n, q, personal, x)
    ensures r.origin.TxLevel? == q.origin.TxLevel? && r.origin.OtxBase? == q.origin.OtxBase?
  {
    PersonalsDiffer(None);
    PersonalsDiffer(Some(Cursor([], 0, 0)));
  }

  lemma SegmentsBind(s: Signed, i: nat, j: nat, t: Signed, n: nat, l: nat, h: Blake2b, personal: string, x: Bytes)
    requires s.Sound(h) && t.Sound(h) && CollisionFree(h, s.cx, t.cx)
    requires HashesSegment(s.cx, h, i, j, personal, x) && HashesSegment(t.cx, h, n, l, personal, x)
    ensures BasesAlike(SiteOf(s.cx, i), SiteOf(t.cx, n))
    ensures SegmentsAlike(h, SiteOf(s.cx, i), j, SiteOf(t.cx, n), l)
  {
    var a, b := SiteOf(s.cx, i), SiteOf(t.cx, n);
    SiteSound(s, h, i);
    SiteSound(t, h, n);
    EqualSegments(a, j, b, l, h, OtxBaseHash(h, a.otx, a.layout, a.tx).value,
                  OtxBaseHash(h, b.otx, b.layout, b.tx).value, x);
    EqualBaseHashes(s.cx, i, t.cx, n, h);
    EqualBases(s, i, t, n, h);
  }
}
