/**
 * What a signing preimage binds in every case.  Where a whole scope is not determined, its front still is: a base
 * preimage fixes message, permissions, inputs and the outputs up to the first doubtful type script, and a tx-level
 * preimage fixes message, transaction hash and the cells both transactions have.  A segment preimage fixes everything.
 */
module Bound {
  import opened Base
  import opened LazyReader
  import opened View
  import opened Layout
  import opened Transaction
  import opened Preimage
  import opened Scope
  import opened Faithful
  import opened Injective
  import opened Stability

  // ---------- base scopes ----------

  /** The first `n` outputs of both agree on which of them carry a type script. */
  predicate TypesAgree(s: BaseScope, t: BaseScope, n: nat) {
    forall i: nat | i < n && i < |s.outputs| && i < |t.outputs| ::
      CarriesType(s.outputs[i]) == CarriesType(t.outputs[i])
  }

  /** Everything in front of the outputs, and how many there are. */
  predicate SameInFront(s: BaseScope, t: BaseScope) {
    && s.message == t.message && s.permissions == t.permissions
    && s.inputMask == t.inputMask && s.inputs == t.inputs
    && s.outputMask == t.outputMask && |s.outputs| == |t.outputs|
  }

  /** The outputs before the first that disagree on a type script, and that output's capacity and lock. */
  predicate SameOutputsBefore(s: BaseScope, t: BaseScope) {
    forall n: nat | n < |s.outputs| && n < |t.outputs| && TypesAgree(s, t, n) ::
      && s.outputs[..n] == t.outputs[..n]
      && s.outputs[n].capacity == t.outputs[n].capacity
      && s.outputs[n].lock == t.outputs[n].lock
  }

  function Front(s: BaseScope): Bytes {
    s.message + [s.permissions] + Masked(s.inputMask, BaseInputParts(s.inputs))
        + (PackNumber(|s.outputs|) + Prefixed(s.outputMask))
  }

  function Back(s: BaseScope): Bytes { Flatten(BaseOutputParts(s.outputs)) + EncodeDeps(s) }

  lemma FrontAndBack(s: BaseScope)
    ensures EncodeBase(s) == Front(s) + Back(s)
  {
    FiveJoin(s.message + [s.permissions], Masked(s.inputMask, BaseInputParts(s.inputs)),
             PackNumber(|s.outputs|) + Prefixed(s.outputMask), Flatten(BaseOutputParts(s.outputs)), EncodeDeps(s));
  }

  lemma FiveJoin(a: Bytes, b: Bytes, c: Bytes, d: Bytes, e: Bytes)
    ensures a + (b + (c + d)) + e == (a + b + c) + (d + e)
  {}

  lemma FrontCodes(s: BaseScope, t: BaseScope)
    requires ValidBase(s) && ValidBase(t)
    ensures Codes(Front(s), Front(t), SameInFront(s, t))
  {
    var a, b := s.message + [s.permissions], t.message + [t.permissions];
    Delimited(s.message, t.message);
    CodesJoin(s.message, [s.permissions], t.message, [t.permissions], s.message == t.message,
              s.permissions == t.permissions);
    InputBlockCodes(s, t);
    CodesJoin(a, Masked(s.inputMask, BaseInputParts(s.inputs)), b, Masked(t.inputMask, BaseInputParts(t.inputs)),
              s.message == t.message && s.permissions == t.permissions,
              s.inputMask == t.inputMask && s.inputs == t.inputs);
    CountCodes(|s.outputs|, |t.outputs|);
    PrefixedCodes(s.outputMask, t.outputMask);
    CodesJoin(PackNumber(|s.outputs|), Prefixed(s.outputMask), PackNumber(|t.outputs|), Prefixed(t.outputMask),
              |s.outputs| == |t.outputs|, s.outputMask == t.outputMask);
    CodesJoin(a + Masked(s.inputMask, BaseInputParts(s.inputs)), PackNumber(|s.outputs|) + Prefixed(s.outputMask),
              b + Masked(t.inputMask, BaseInputParts(t.inputs)), PackNumber(|t.outputs|) + Prefixed(t.outputMask),
              (s.message == t.message && s.permissions == t.permissions)
              && s.inputMask == t.inputMask && s.inputs == t.inputs,
              |s.outputs| == |t.outputs| && s.outputMask == t.outputMask);
  }

  lemma OutputCodesAt(s: BaseScope, t: BaseScope, i: nat)
    requires ValidBase(s) && ValidBase(t) && SameInFront(s, t)
    requires i < |s.outputs| && CarriesType(s.outputs[i]) == CarriesType(t.outputs[i])
    ensures Codes(EncodeBaseOutput(s.outputs[i], i), EncodeBaseOutput(t.outputs[i], i), s.outputs[i] == t.outputs[i])
  {
    assert OutputMatchesMask(s, i) && OutputMatchesMask(t, i);
    BaseOutputCodes(s.outputs[i], t.outputs[i], i);
  }

  lemma OutputPartsCode(s: BaseScope, t: BaseScope, n: nat)
    requires ValidBase(s) && ValidBase(t) && SameInFront(s, t)
    requires n <= |s.outputs| && TypesAgree(s, t, n)
    ensures Codes(Flatten(BaseOutputParts(s.outputs)[..n]), Flatten(BaseOutputParts(t.outputs)[..n]),
                  s.outputs[..n] == t.outputs[..n])
  {
    var ps: seq<Bytes>, qs: seq<Bytes> := BaseOutputParts(s.outputs)[..n], BaseOutputParts(t.outputs)[..n];
    forall i: nat | i < n ensures Codes(ps[i], qs[i], s.outputs[i] == t.outputs[i]) {
      OutputCodesAt(s, t, i);
    }
    PartsCode(ps, qs);
    PartsTell(ps, qs, s.outputs[..n], t.outputs[..n]);
  }

  lemma PartsTell<T>(ps: seq<Bytes>, qs: seq<Bytes>, xs: seq<T>, ys: seq<T>)
    requires |ps| == |xs| && |qs| == |ys| && |xs| == |ys|
    requires forall i: nat | i < |ps| :: Codes(ps[i], qs[i], xs[i] == ys[i])
    ensures ps == qs ==> xs == ys
  {
    if ps == qs {
      forall i: nat | i < |xs| ensures xs[i] == ys[i] {
        assert Codes(ps[i], qs[i], xs[i] == ys[i]);
      }
    }
  }

  lemma BackSplits(s: BaseScope, n: nat)
    requires n <= |s.outputs|
    ensures Back(s) == Flatten(BaseOutputParts(s.outputs)[..n])
                       + (Flatten(BaseOutputParts(s.outputs)[n..]) + EncodeDeps(s))
  {
    var ps: seq<Bytes> := BaseOutputParts(s.outputs);
    FlattenSplit(ps, n);
    Reassociated(Flatten(ps[..n]), Flatten(ps[n..]), EncodeDeps(s));
  }

  /** The first `n` outputs agree on type scripts: they are equal, and what follows them is. */
  lemma OutputsInFront(s: BaseScope, t: BaseScope, n: nat)
    requires ValidBase(s) && ValidBase(t) && SameInFront(s, t) && Back(s) == Back(t)
    requires n <= |s.outputs| && TypesAgree(s, t, n)
    ensures s.outputs[..n] == t.outputs[..n]
    ensures Flatten(BaseOutputParts(s.outputs)[n..]) + EncodeDeps(s)
         == Flatten(BaseOutputParts(t.outputs)[n..]) + EncodeDeps(t)
  {
    OutputPartsCode(s, t, n);
    BackSplits(s, n);
    BackSplits(t, n);
    CodesRest(Flatten(BaseOutputParts(s.outputs)[..n]), Flatten(BaseOutputParts(s.outputs)[n..]) + EncodeDeps(s),
              Flatten(BaseOutputParts(t.outputs)[..n]), Flatten(BaseOutputParts(t.outputs)[n..]) + EncodeDeps(t),
              s.outputs[..n] == t.outputs[..n]);
  }

  /** Index, capacity and lock stand in front of an output's type script. */
  function OutputHead(x: BaseOutput, i: nat): Bytes {
    PackNumber(i) + Or(x.capacity, Zeros(8)) + Or(x.lock, DEFAULT_SCRIPT)
  }

  function OutputTail(x: BaseOutput): Bytes { TypeBytes(x.typeScript) + Prefixed(Or(x.data, [])) }

  lemma HeadCodes(x: BaseOutput, y: BaseOutput, i: nat)
    requires ValidBaseOutput(x) && ValidBaseOutput(y)
    requires x.capacity.Some? == y.capacity.Some? && x.lock.Some? == y.lock.Some?
    ensures Codes(OutputHead(x, i), OutputHead(y, i), x.capacity == y.capacity && x.lock == y.lock)
  {
    DefaultScriptDelimited();
    Delimited(Or(x.lock, DEFAULT_SCRIPT), Or(y.lock, DEFAULT_SCRIPT));
    CodesJoin(PackNumber(i), Or(x.capacity, Zeros(8)), PackNumber(i), Or(y.capacity, Zeros(8)), true,
              x.capacity == y.capacity);
    CodesJoin(PackNumber(i) + Or(x.capacity, Zeros(8)), Or(x.lock, DEFAULT_SCRIPT),
              PackNumber(i) + Or(y.capacity, Zeros(8)), Or(y.lock, DEFAULT_SCRIPT),
              x.capacity == y.capacity, x.lock == y.lock);
  }

  /** A list that starts with output `n` starts with its head. */
  lemma HeadInFront(xs: seq<BaseOutput>, n: nat, deps: Bytes) returns (rest: Bytes)
    requires n < |xs|
    ensures Flatten(BaseOutputParts(xs)[n..]) + deps == OutputHead(xs[n], n) + rest
  {
    var ps := BaseOutputParts(xs);
    FlattenSplit(ps[n..], 1);
    assert ps[n..][..1] == [ps[n]];
    FlattenOne(ps[n]);
    rest := OutputTail(xs[n]) + Flatten(ps[n..][1..]) + deps;
    FourJoin(OutputHead(xs[n], n), TypeBytes(xs[n].typeScript), Prefixed(Or(xs[n].data, [])),
             Flatten(ps[n..][1..]), deps);
  }

  lemma FlattenOne(b: Bytes)
    ensures Flatten([b]) == b
  {
    assert [b][..0] == [];
  }

  lemma FourJoin(a: Bytes, b: Bytes, c: Bytes, d: Bytes, e: Bytes)
    ensures (a + b + c) + d + e == a + ((b + c) + d + e)
  {}

  lemma HeadBound(s: BaseScope, t: BaseScope, n: nat)
    requires ValidBase(s) && ValidBase(t) && SameInFront(s, t) && Back(s) == Back(t)
    requires n < |s.outputs| && TypesAgree(s, t, n)
    ensures s.outputs[n].capacity == t.outputs[n].capacity && s.outputs[n].lock == t.outputs[n].lock
  {
    OutputsInFront(s, t, n);
    var a := HeadInFront(s.outputs, n, EncodeDeps(s));
    var b := HeadInFront(t.outputs, n, EncodeDeps(t));
    assert OutputMatchesMask(s, n) && OutputMatchesMask(t, n);
    HeadCodes(s.outputs[n], t.outputs[n], n);
    CodesRest(OutputHead(s.outputs[n], n), a, OutputHead(t.outputs[n], n), b,
              s.outputs[n].capacity == t.outputs[n].capacity && s.outputs[n].lock == t.outputs[n].lock);
  }

  /** Equal base encodings share the front, and the outputs as far as their type scripts are beyond doubt. */
  lemma BaseFrontBound(s: BaseScope, t: BaseScope)
    requires ValidBase(s) && ValidBase(t) && EncodeBase(s) == EncodeBase(t)
    ensures SameInFront(s, t) && SameOutputsBefore(s, t)
  {
    FrontAndBack(s);
    FrontAndBack(t);
    FrontCodes(s, t);
    CodesRest(Front(s), Back(s), Front(t), Back(t), SameInFront(s, t));
    forall n: nat | n < |s.outputs| && n < |t.outputs| && TypesAgree(s, t, n)
      ensures s.outputs[..n] == t.outputs[..n]
      ensures s.outputs[n].capacity == t.outputs[n].capacity && s.outputs[n].lock == t.outputs[n].lock
    {
      OutputsInFront(s, t, n);
      HeadBound(s, t, n);
    }
  }

  // ---------- tx-level scopes ----------

  /** Message and transaction hash, and every input cell that both have. */
  predicate SameTxFront(s: TxScope, t: TxScope) {
    && s.message == t.message && s.txHash == t.txHash
    && forall i: nat | i < |s.cells| && i < |t.cells| :: s.cells[i] == t.cells[i]
  }

  lemma CellsInFront(s: TxScope, t: TxScope, n: nat)
    requires ValidTxScope(s) && ValidTxScope(t) && n <= |s.cells| && n <= |t.cells|
    requires Flatten(CellParts(s.cells)) + Flatten(PrefixedParts(s.extraWitnesses))
          == Flatten(CellParts(t.cells)) + Flatten(PrefixedParts(t.extraWitnesses))
    ensures s.cells[..n] == t.cells[..n]
  {
    CellsCode(s.cells[..n], t.cells[..n]);
    var a := CellsSplit(s, n);
    var b := CellsSplit(t, n);
    CodesRest(Flatten(CellParts(s.cells[..n])), a, Flatten(CellParts(t.cells[..n])), b, s.cells[..n] == t.cells[..n]);
  }

  lemma CellsSplit(s: TxScope, n: nat) returns (rest: Bytes)
    requires n <= |s.cells|
    ensures Flatten(CellParts(s.cells)) + Flatten(PrefixedParts(s.extraWitnesses))
         == Flatten(CellParts(s.cells[..n])) + rest
  {
    var parts: seq<Bytes> := CellParts(s.cells);
    FlattenSplit(parts, n);
    assert parts[..n] == CellParts(s.cells[..n]);
    rest := Flatten(parts[n..]) + Flatten(PrefixedParts(s.extraWitnesses));
    Reassociated(Flatten(parts[..n]), Flatten(parts[n..]), Flatten(PrefixedParts(s.extraWitnesses)));
  }

  /** Equal tx-level encodings of one personalisation share message, hash and the cells of the shorter one. */
  lemma TxFrontBound(s: TxScope, t: TxScope)
    requires ValidTxScope(s) && ValidTxScope(t) && s.message.Some? == t.message.Some?
    requires EncodeTx(s) == EncodeTx(t)
    ensures SameTxFront(s, t)
  {
    TxHashBound(s, t);
    var head := Or(s.message, []) + s.txHash;
    Reassociated(head, Flatten(CellParts(s.cells)), Flatten(PrefixedParts(s.extraWitnesses)));
    Reassociated(head, Flatten(CellParts(t.cells)), Flatten(PrefixedParts(t.extraWitnesses)));
    SameTail(head, Flatten(CellParts(s.cells)) + Flatten(PrefixedParts(s.extraWitnesses)),
             Flatten(CellParts(t.cells)) + Flatten(PrefixedParts(t.extraWitnesses)));
    var n := if |s.cells| < |t.cells| then |s.cells| else |t.cells|;
    CellsInFront(s, t, n);
    forall i: nat | i < n ensures s.cells[i] == t.cells[i] {
      assert s.cells[..n][i] == t.cells[..n][i];
    }
  }

  lemma SameTail(a: Bytes, b: Bytes, c: Bytes)
    requires a + b == a + c
    ensures b == c
  {
    assert (a + b)[|a|..] == b && (a + c)[|a|..] == c;
  }

  /** Every witness behind the last input stands in the tx-level scope, in order, and nothing else does. */
  lemma TrailingWitnesses(m: Option<Cursor>, tx: Tx)
    requires (m.Some? ==> m.value.InBounds()) && forall i: nat | i < |tx.witnesses| :: tx.witnesses[i].InBounds()
    ensures var extra := TxScopeOf(m, tx).extraWitnesses;
            && (|tx.witnesses| <= |tx.inputs| ==> extra == [])
            && (|tx.witnesses| > |tx.inputs| ==>
                  && |extra| == |tx.witnesses| - |tx.inputs|
                  && forall i: nat | |tx.inputs| <= i < |tx.witnesses| ::
                       extra[i - |tx.inputs|] == tx.witnesses[i].Content())
  {}

  // ---------- append scopes ----------

  /** Input counts below this leave the fourth byte of their length field empty. */
  const SMALL: nat := 0x100_0000

  /** What accepted views guarantee: the flag says what is covered, and a segment with successors allows them. */
  predicate Flagged(a: AppendScope) {
    && (a.previous.Some? <==> CoversPrevious(a.own.flags))
    && (a.previous.Some? && a.previous.value != [] ==> AllowsMoreAfter(a.previous.value[0].flags))
  }

  /** The flags of the first segment a covering scope encodes. */
  function FirstFlags(a: AppendScope): Byte
    requires a.previous.Some?
  {
    if a.previous.value == [] then a.own.flags else a.previous.value[0].flags
  }

  lemma FirstFlagsSet(a: AppendScope)
    requires a.previous.Some? && Flagged(a)
    ensures FirstFlags(a) != 0
  {
    assert !Bit(0, 0) && !Bit(0, 1);
  }

  /** Behind the base hash a covering scope has a count, then the first flags. */
  lemma CoveringFlags(a: AppendScope)
    requires a.previous.Some?
    ensures |EncodeAppend(a)| > 36 && EncodeAppend(a)[36] == FirstFlags(a)
  {
    var parts: seq<Bytes> := SegmentParts(a.previous.value);
    if parts == [] {
      assert Flatten(parts) == [];
    } else {
      FlattenSplit(parts, 1);
      assert parts[..1] == [parts[0]];
      FlattenOne(parts[0]);
      assert parts[0] == EncodeSegment(a.previous.value[0]);
    }
    FirstAfterCount(a.baseHash, PackNumber(|parts|), Flatten(parts), EncodeSegment(a.own));
  }

  lemma FirstAfterCount(hash: Hash32, count: Bytes, before: Bytes, own: Bytes)
    requires |count| == 4 && own != []
    ensures |hash + (count + before) + own| > 36
    ensures (hash + (count + before) + own)[36] == if before == [] then own[0] else before[0]
  {}

  /** An own-only scope has its flags there and then the input count, whose fourth byte small counts leave empty. */
  lemma OwnOnlyCount(a: AppendScope)
    requires a.previous.None? && |a.own.inputs| < SMALL
    ensures |EncodeAppend(a)| > 36 && EncodeAppend(a)[36] == 0
  {
    var s := a.own;
    TopByte(|s.inputs|);
    var rest := Flatten(SegmentInputParts(s.inputs)) + List(SegmentOutputParts(s.outputs)) + EncodeSegmentDeps(s);
    assert EncodeSegment(s) == [s.flags] + PackNumber(|s.inputs|) + rest;
    FourthOfCount(a.baseHash, s.flags, PackNumber(|s.inputs|), rest);
  }

  lemma FourthOfCount(hash: Hash32, flags: Byte, count: Bytes, rest: Bytes)
    requires |count| == 4
    ensures |hash + [] + ([flags] + count + rest)| > 36
    ensures (hash + [] + ([flags] + count + rest))[36] == count[3]
  {}

  lemma TopByte(n: nat)
    requires n < SMALL
    ensures PackNumber(n)[3] == 0
  {
    assert Digits(n, 4)[1..] == Digits(n / 0x100, 3);
    assert Digits(n / 0x100, 3)[1..] == Digits(n / 0x100 / 0x100, 2);
    assert Digits(n / 0x100 / 0x100, 2)[1..] == Digits(n / 0x100 / 0x100 / 0x100, 1);
    assert n / 0x100 / 0x100 / 0x100 == 0;
  }

  /** Equal encodings of flagged scopes are equal scopes: the covering kind cannot pass for the other. */
  lemma AppendInjectiveOutright(a: AppendScope, b: AppendScope)
    requires ValidAppend(a) && ValidAppend(b) && Flagged(a) && Flagged(b)
    requires |a.own.inputs| < SMALL && |b.own.inputs| < SMALL
    requires EncodeAppend(a) == EncodeAppend(b)
    ensures a == b
  {
    KindRead(a);
    KindRead(b);
    AppendInjective(a, b);
  }

  lemma KindRead(a: AppendScope)
    requires Flagged(a) && |a.own.inputs| < SMALL
    ensures |EncodeAppend(a)| > 36
    ensures a.previous.Some? <==> EncodeAppend(a)[36] != 0
  {
    if a.previous.Some? {
      CoveringFlags(a);
      FirstFlagsSet(a);
    } else {
      OwnOnlyCount(a);
    }
  }

  // ---------- placed OTXs and transactions ----------

  /** Message, permissions, every base input, and the outputs before a doubtful type script are the same. */
  predicate AlwaysBound(a: Site, b: Site)
    requires a.Ok() && b.Ok()
  {
    && a.otx.message.Content() == b.otx.message.Content()
    && a.otx.appendPermissions == b.otx.appendPermissions
    && a.otx.baseInputCells == b.otx.baseInputCells && a.otx.baseInputMasks == b.otx.baseInputMasks
    && (forall i: nat | i < a.otx.baseInputCells :: SameInput(a, b, i))
    && a.otx.baseOutputCells == b.otx.baseOutputCells && a.otx.baseOutputMasks == b.otx.baseOutputMasks
    && SameOutputsBefore(a.Scope(), b.Scope())
  }

  /** A base preimage always binds its inputs, its message and its outputs up to the first doubtful type script. */
  lemma BasePreimageBinds(a: Site, b: Site)
    requires a.Ok() && b.Ok() && a.tx.Valid() && b.tx.Valid()
    requires SelfDelimiting(a.otx.message.Content()) && SelfDelimiting(b.otx.message.Content())
    requires a.Preimage().Ok? && a.Preimage() == b.Preimage()
    ensures AlwaysBound(a, b)
  {
    BasePreimageIsScope(a.otx, a.layout, a.tx);
    BasePreimageIsScope(b.otx, b.layout, b.tx);
    PlacedScopeValid(a.otx, a.layout, a.tx);
    PlacedScopeValid(b.otx, b.layout, b.tx);
    BaseFrontBound(a.Scope(), b.Scope());
    FrontOfSites(a, b);
  }

  lemma FrontOfSites(a: Site, b: Site)
    requires a.Ok() && b.Ok() && SameInFront(a.Scope(), b.Scope()) && SameOutputsBefore(a.Scope(), b.Scope())
    ensures AlwaysBound(a, b)
  {
    var s, t := a.Scope(), b.Scope();
    assert |s.inputs| == a.otx.baseInputCells && |t.inputs| == b.otx.baseInputCells;
    assert |s.outputs| == a.otx.baseOutputCells && |t.outputs| == b.otx.baseOutputCells;
    forall i: nat | i < a.otx.baseInputCells ensures SameInput(a, b, i) {
      assert s.inputs[i] == t.inputs[i];
    }
  }

  /** A tx-level preimage always binds its message, the transaction hash and the cells of the shorter transaction. */
  lemma TxPreimageBinds(m: Option<Cursor>, a: Tx, n: Option<Cursor>, b: Tx)
    requires a.Valid() && b.Valid() && m.Some? == n.Some?
    requires m.Some? ==> m.value.InBounds() && SelfDelimiting(m.value.Content())
    requires n.Some? ==> n.value.InBounds() && SelfDelimiting(n.value.Content())
    requires TxPreimage(m, a).Ok? && TxPreimage(m, a) == TxPreimage(n, b)
    ensures SameTxFront(TxScopeOf(m, a), TxScopeOf(n, b))
  {
    TxPreimageIsScope(m, a);
    TxPreimageIsScope(n, b);
    TxFrontBound(TxScopeOf(m, a), TxScopeOf(n, b));
  }

  lemma PlacedIsFlagged(a: Site, j: nat, base: Hash32)
    requires a.Ok() && ValidOtxView(a.otx) && j < |a.otx.appendSegments|
    ensures Flagged(AppendScopeOf(a.otx, a.layout, a.tx, j, base))
  {}

  /**
   * Equal append preimages of accepted OTXs are over the same base hash, flags and covered entities, whatever the
   * two segments cover, as long as neither has 2^24 inputs of its own.
   */
  lemma AppendPreimageDeterminesOutright(a: Site, i: nat, b: Site, j: nat, ha: Hash32, hb: Hash32)
    requires a.Ok() && b.Ok() && a.tx.Valid() && b.tx.Valid() && ValidOtxView(a.otx) && ValidOtxView(b.otx)
    requires i < |a.otx.appendSegments| && j < |b.otx.appendSegments|
    requires a.otx.appendSegments[i].inputCells < SMALL && b.otx.appendSegments[j].inputCells < SMALL
    requires AppendSegmentPreimage(a.otx, a.layout, i, a.tx, ha).Ok?
    requires AppendSegmentPreimage(a.otx, a.layout, i, a.tx, ha) == AppendSegmentPreimage(b.otx, b.layout, j, b.tx, hb)
    ensures AppendScopeOf(a.otx, a.layout, a.tx, i, ha) == AppendScopeOf(b.otx, b.layout, b.tx, j, hb)
  {
    AppendPreimageIsScope(a.otx, a.layout, a.tx, i, ha);
    AppendPreimageIsScope(b.otx, b.layout, b.tx, j, hb);
    AppendScopeValid(a, i, ha);
    AppendScopeValid(b, j, hb);
    PlacedIsFlagged(a, i, ha);
    PlacedIsFlagged(b, j, hb);
    OwnInputCount(a, i, ha);
    OwnInputCount(b, j, hb);
    AppendInjectiveOutright(AppendScopeOf(a.otx, a.layout, a.tx, i, ha), AppendScopeOf(b.otx, b.layout, b.tx, j, hb));
  }

  lemma OwnInputCount(a: Site, j: nat, base: Hash32)
    requires a.Ok() && j < |a.otx.appendSegments|
    ensures |AppendScopeOf(a.otx, a.layout, a.tx, j, base).own.inputs| == a.otx.appendSegments[j].inputCells
  {
    var s, l := a.otx.appendSegments[j], a.layout.appendSegments[j];
    assert SegmentPlaced(s, l, a.tx);
    assert l.Of(Inputs).count == s.Count(Inputs);
  }
}
