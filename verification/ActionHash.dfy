/** The hash that identifies an action by its reference and content. */
module ActionHash {
  import opened Base
  import opened View
  import opened Preimage
  import opened HashWriter
  import opened Plan
  import opened Scope
  import opened Injective

  const ACTION_HASH_PERSONAL := "ckbcb_act_core1\0"

  function RoleByte(role: ScriptRole): Byte {
    match role
    case InputLock => 0
    case InputType => 1
    case OutputType => 2
  }

  /** The reference as thirteen bytes; a tx-level one leaves the OTX index zero. */
  function WithRef(s: Bytes, r: ActionRef): Result<Bytes> {
    match r
    case TxAction(w, a) =>
      (var t :- WithCount(s + [0], w);
       WithCount(t + [0, 0, 0, 0], a))
    case OtxAction(w, o, a) =>
      (var t :- WithCount(s + [1], w);
       var u :- WithCount(t, o);
       WithCount(u, a))
  }

  function ActionPreimage(r: ActionRef, action: ActionView): Result<Bytes> {
    var s :- WithRef([], r);
    var t :- WithCount(s + action.scriptInfoHash + [RoleByte(action.scriptRole)] + action.scriptHash, action.data.size);
    WithCursor(t, action.data, MalformedCobuild)
  }

  function ActionHashOf(h: Blake2b, r: ActionRef, action: ActionView): Result<Hash32> {
    var preimage :- ActionPreimage(r, action);
    Ok(h(ACTION_HASH_PERSONAL, preimage))
  }

  method WriteActionRef(h: Hasher, r: ActionRef) returns (result: Result<()>)
    modifies h
    ensures Wrote(result, WithRef(old(h.stream), r), h.stream)
  {
    match r
    case TxAction(w, a) =>
      h.Update([0]);
      var _ :- WriteCount(h, w);
      h.Update([0, 0, 0, 0]);
      result := WriteCount(h, a);
    case OtxAction(w, o, a) =>
      h.Update([1]);
      var _ :- WriteCount(h, w);
      var _ :- WriteCount(h, o);
      result := WriteCount(h, a);
  }

  method ComputeActionHash(h: Blake2b, r: ActionRef, action: ActionView) returns (result: Result<Hash32>)
    ensures result == ActionHashOf(h, r, action)
  {
    var hasher := new Hasher(ACTION_HASH_PERSONAL);
    var _ :- WriteActionRef(hasher, r);
    hasher.Update(action.scriptInfoHash);
    hasher.Update([RoleByte(action.scriptRole)]);
    hasher.Update(action.scriptHash);
    var _ :- WriteCount(hasher, action.data.size);
    var _ :- WriteCursor(hasher, action.data, MalformedCobuild);
    assert ActionPreimage(r, action) == Ok(hasher.stream);
    return Ok(hasher.Finalize(h));
  }

  // ---------- the preimage determines the action ----------

  function Tag(r: ActionRef): Byte { if r.TxAction? then 0 else 1 }

  function OtxIndex(r: ActionRef): nat { if r.TxAction? then 0 else r.otxIndex }

  predicate RefFits(r: ActionRef) { Fits(r.witnessIndex) && Fits(OtxIndex(r)) && Fits(r.actionIndex) }

  function EncodeRef(r: ActionRef): Bytes {
    [Tag(r)] + PackNumber(r.witnessIndex) + PackNumber(OtxIndex(r)) + PackNumber(r.actionIndex)
  }

  lemma RefIsEncoded(r: ActionRef)
    requires WithRef([], r).Ok?
    ensures RefFits(r) && WithRef([], r) == Ok(EncodeRef(r))
  {
    PackSmall(0);
    assert [] + [Tag(r)] == [Tag(r)];
  }

  lemma RefCodes(r: ActionRef, q: ActionRef)
    requires RefFits(r) && RefFits(q)
    ensures Codes(EncodeRef(r), EncodeRef(q), r == q)
  {
    CountCodes(r.witnessIndex, q.witnessIndex);
    CountCodes(OtxIndex(r), OtxIndex(q));
    CountCodes(r.actionIndex, q.actionIndex);
    SameLength([Tag(r)], [Tag(q)]);
    CodesJoin([Tag(r)], PackNumber(r.witnessIndex), [Tag(q)], PackNumber(q.witnessIndex), Tag(r) == Tag(q),
              r.witnessIndex == q.witnessIndex);
    CodesJoin([Tag(r)] + PackNumber(r.witnessIndex), PackNumber(OtxIndex(r)), [Tag(q)] + PackNumber(q.witnessIndex),
              PackNumber(OtxIndex(q)),
              Tag(r) == Tag(q) && r.witnessIndex == q.witnessIndex, OtxIndex(r) == OtxIndex(q));
    CodesJoin([Tag(r)] + PackNumber(r.witnessIndex) + PackNumber(OtxIndex(r)), PackNumber(r.actionIndex),
              [Tag(q)] + PackNumber(q.witnessIndex) + PackNumber(OtxIndex(q)), PackNumber(q.actionIndex),
              (Tag(r) == Tag(q) && r.witnessIndex == q.witnessIndex) && OtxIndex(r) == OtxIndex(q),
              r.actionIndex == q.actionIndex);
  }

  /** Two actions with the same content, byte for byte. */
  predicate SameAction(a: ActionView, b: ActionView) {
    && a.scriptInfoHash == b.scriptInfoHash && a.scriptRole == b.scriptRole && a.scriptHash == b.scriptHash
    && a.data.ReadAll(MalformedCobuild) == b.data.ReadAll(MalformedCobuild)
  }

  function EncodeAction(r: ActionRef, a: ActionView, data: Bytes): Bytes {
    EncodeRef(r) + a.scriptInfoHash + [RoleByte(a.scriptRole)] + a.scriptHash + Prefixed(data)
  }

  lemma ActionIsEncoded(r: ActionRef, a: ActionView) returns (data: Bytes)
    requires ActionPreimage(r, a).Ok?
    ensures a.data.ReadAll(MalformedCobuild) == Ok(data) && Fits(|data|) && RefFits(r)
    ensures ActionPreimage(r, a) == Ok(EncodeAction(r, a, data))
  {
    RefIsEncoded(r);
    data := a.data.ReadAll(MalformedCobuild).value;
    var head := EncodeRef(r) + a.scriptInfoHash + [RoleByte(a.scriptRole)] + a.scriptHash;
    assert head + PackNumber(|data|) + data == head + Prefixed(data);
  }

  /** Equal action preimages have the same reference and the same content; and conversely. */
  lemma ActionPreimageDetermines(r: ActionRef, a: ActionView, q: ActionRef, b: ActionView)
    requires ActionPreimage(r, a).Ok? && ActionPreimage(q, b).Ok?
    ensures ActionPreimage(r, a) == ActionPreimage(q, b) <==> r == q && SameAction(a, b)
  {
    var x := ActionIsEncoded(r, a);
    var y := ActionIsEncoded(q, b);
    RefCodes(r, q);
    PrefixedCodes(x, y);
    assert RoleByte(a.scriptRole) == RoleByte(b.scriptRole) ==> a.scriptRole == b.scriptRole;
    FieldsCode(EncodeRef(r), a.scriptInfoHash, [RoleByte(a.scriptRole)], a.scriptHash, Prefixed(x),
               EncodeRef(q), b.scriptInfoHash, [RoleByte(b.scriptRole)], b.scriptHash, Prefixed(y));
  }
}
