/** The Cobuild context of a transaction and the action queries over it. */
module Engine {
  import opened Base
  import opened LazyReader
  import opened View
  import opened Layout
  import opened Transaction
  import opened Witness
  import opened Context
  import opened Plan

  datatype CobuildContext = CobuildContext(
    tx: Tx, script: ScriptContext, witnesses: WitnessScan, otxLayouts: OtxLayouts)
  {
    function OtxEntries(): seq<OtxLayoutEntry> {
      match otxLayouts
      case NoLayout => []
      case Complete(layout) => layout.otxEntries
    }

    function CheckedMessageActions(message: Cursor): Result<seq<ActionView>> {
      var actions :- MessageActions(message);
      if script.TargetsExist(actions) then Ok(actions) else Err(InvalidMessageTarget)
    }
  }

  function Build(tx: Tx, current: CurrentScript): Result<CobuildContext> {
    var scanned :- ScanAll(Classified(tx.witnesses), tx.EntityCounts());
    Ok(CobuildContext(tx, ContextOf(tx, current), scanned.txLevel, scanned.otxLayouts))
  }

  method BuildContext(tx: Tx, current: CurrentScript) returns (r: Result<CobuildContext>)
    ensures r == Build(tx, current)
  {
    var script := FromReader(tx, current);
    var scanned :- ScanWitnesses(tx.witnesses, tx.EntityCounts());
    return Ok(CobuildContext(tx, script.Value(), scanned.txLevel, scanned.otxLayouts));
  }

  // ---------- filters and origins ----------

  function IsLockAction(hash: Hash32): ActionView -> bool {
    (a: ActionView) => a.scriptRole == InputLock && a.scriptHash == hash
  }

  function IsTypeAction(hash: Hash32): ActionView -> bool {
    (a: ActionView) => (a.scriptRole == InputType || a.scriptRole == OutputType) && a.scriptHash == hash
  }

  function TxActions(w: nat, actions: seq<ActionView>): seq<RelatedAction> {
    seq(|actions|, i requires 0 <= i < |actions| => RelatedAction(FromTx(w), actions[i]))
  }

  function OtxActions(i: nat, entry: OtxLayoutEntry, actions: seq<ActionView>): seq<RelatedAction> {
    seq(|actions|, k requires 0 <= k < |actions| =>
      RelatedAction(FromOtx(entry.layout.witnessIndex, i, MessageLayoutOf(entry.layout)), actions[k]))
  }

  method FilterActions(actions: seq<ActionView>, p: ActionView -> bool) returns (r: seq<ActionView>)
    ensures r == Filter(actions, p)
  {
    r := [];
    for i := 0 to |actions|
      invariant r == Filter(actions[..i], p)
    {
      assert actions[..i + 1][..i] == actions[..i];
      if p(actions[i]) {
        r := r + [actions[i]];
      }
    }
    assert actions[..|actions|] == actions;
  }

  // ---------- every action of the transaction ----------

  function OtxActionsAt(cx: CobuildContext, i: nat): Result<seq<RelatedAction>> {
    if i >= |cx.OtxEntries()| then Err(InvalidOtxLayout)
    else
      var entry := cx.OtxEntries()[i];
      var actions :- cx.CheckedMessageActions(entry.view.message);
      Ok(OtxActions(i, entry, actions))
  }

  function TxLevelActions(cx: CobuildContext): Result<seq<RelatedAction>> {
    var message :- cx.witnesses.UniqueMessage();
    match message
    case None => Ok([])
    case Some((w, m)) =>
      (var actions :- cx.CheckedMessageActions(m);
       Ok(TxActions(w, actions)))
  }

  function OtxActionsOf(cx: CobuildContext): nat -> Result<seq<RelatedAction>> { (i: nat) => OtxActionsAt(cx, i) }

  function AllActions(cx: CobuildContext): Result<seq<RelatedAction>> {
    var tx :- TxLevelActions(cx);
    var otxs :- Collect(OtxActionsOf(cx), |cx.OtxEntries()|);
    Ok(tx + Flatten(otxs))
  }

  function FindAction(cx: CobuildContext, r: ActionRef): Result<RelatedAction> {
    match r
    case TxAction(w, a) =>
      (var message :- cx.witnesses.UniqueMessage();
       if message.None? || message.value.0 != w then Err(ActionNotFound)
       else
         var action :- MessageAction(message.value.1, a);
         if action.None? then Err(ActionNotFound) else Ok(RelatedAction(FromTx(w), action.value)))
    case OtxAction(w, i, a) =>
      if i >= |cx.OtxEntries()| || cx.OtxEntries()[i].layout.witnessIndex != w then Err(ActionNotFound)
      else
        var entry := cx.OtxEntries()[i];
        var action :- MessageAction(entry.view.message, a);
        if action.None? then Err(ActionNotFound)
        else Ok(RelatedAction(FromOtx(w, i, MessageLayoutOf(entry.layout)), action.value))
  }

  method CollectAllActions(cx: CobuildContext) returns (r: Result<seq<RelatedAction>>)
    ensures r == AllActions(cx)
  {
    var tx :- TxLevelActions(cx);
    r := ExtendWithEach(tx, OtxActionsOf(cx), |cx.OtxEntries()|);
  }

  // ---------- references lead back to their actions ----------

  lemma TxLevelFound(cx: CobuildContext, k: nat)
    requires TxLevelActions(cx).Ok? && k < |TxLevelActions(cx).value|
    ensures var a := TxLevelActions(cx).value[k];
            && FindAction(cx, a.Ref()) == Ok(a)
            && a.Ref() == TxAction(cx.witnesses.UniqueMessage().value.value.0, k)
  {
    var (w, m) := cx.witnesses.UniqueMessage().value.value;
    ActionLookup(m, k);
  }

  lemma OtxFound(cx: CobuildContext, i: nat, actions: seq<RelatedAction>, k: nat)
    requires OtxActionsOf(cx)(i) == Ok(actions) && k < |actions|
    ensures i < |cx.OtxEntries()| && FindAction(cx, actions[k].Ref()) == Ok(actions[k])
    ensures actions[k].Ref() == OtxAction(cx.OtxEntries()[i].layout.witnessIndex, i, k)
  {
    ActionLookup(cx.OtxEntries()[i].view.message, k);
  }

  /** The lists `all_actions` joins: the tx-level one, then one for each OTX. */
  predicate JoinOf(cx: CobuildContext, all: seq<RelatedAction>, tx: seq<RelatedAction>, otxs: seq<seq<RelatedAction>>) {
    && TxLevelActions(cx) == Ok(tx)
    && |otxs| == |cx.OtxEntries()|
    && (forall i: nat | i < |otxs| :: OtxActionsOf(cx)(i) == Ok(otxs[i]))
    && all == tx + Flatten(otxs)
  }

  lemma AllActionsJoin(cx: CobuildContext) returns (tx: seq<RelatedAction>, otxs: seq<seq<RelatedAction>>)
    requires AllActions(cx).Ok?
    ensures JoinOf(cx, AllActions(cx).value, tx, otxs)
  {
    tx := TxLevelActions(cx).value;
    otxs := Collect(OtxActionsOf(cx), |cx.OtxEntries()|).value;
  }

  /** Element `k` of the joined list, past the tx-level part. */
  lemma JoinedAt(tx: seq<RelatedAction>, otxs: seq<seq<RelatedAction>>, k: nat) returns (i: nat, local: nat)
    requires |tx| <= k < |tx + Flatten(otxs)|
    ensures i < |otxs| && local < |otxs[i]| && k == |tx| + |Flatten(otxs[..i])| + local
    ensures (tx + Flatten(otxs))[k] == otxs[i][local]
  {
    i, local := FlattenPlace(otxs, k - |tx|);
  }

  /** Every action of the transaction is found again by its own reference. */
  lemma FindReturnsEachAction(cx: CobuildContext, k: nat)
    requires AllActions(cx).Ok? && k < |AllActions(cx).value|
    ensures FindAction(cx, AllActions(cx).value[k].Ref()) == Ok(AllActions(cx).value[k])
  {
    var tx, otxs := AllActionsJoin(cx);
    if k < |tx| {
      TxLevelFound(cx, k);
    } else {
      var i, local := JoinedAt(tx, otxs, k);
      OtxFound(cx, i, otxs[i], local);
    }
  }

  /** OTXs stand in the order of their witnesses. */
  predicate WitnessesAscend(cx: CobuildContext) {
    forall i: nat, j: nat | i < j < |cx.OtxEntries()| ::
      cx.OtxEntries()[i].layout.witnessIndex < cx.OtxEntries()[j].layout.witnessIndex
  }

  /**
   * All references are pairwise distinct; those of OTX actions ascend in the reference order, and so do
   * those of tx-level actions.
   */
  lemma RefsAscend(cx: CobuildContext, k: nat, l: nat)
    requires AllActions(cx).Ok? && k < l < |AllActions(cx).value| && WitnessesAscend(cx)
    ensures var a, b := AllActions(cx).value[k].Ref(), AllActions(cx).value[l].Ref();
            a != b && (a.OtxAction? == b.OtxAction? ==> Less(a, b))
  {
    var tx, otxs := AllActionsJoin(cx);
    JoinedRefsAscend(cx, AllActions(cx).value, tx, otxs, k, l);
  }

  lemma TxRefAt(cx: CobuildContext, all: seq<RelatedAction>, tx: seq<RelatedAction>, otxs: seq<seq<RelatedAction>>,
                k: nat)
    requires JoinOf(cx, all, tx, otxs) && k < |tx|
    ensures cx.witnesses.UniqueMessage().Ok? && cx.witnesses.UniqueMessage().value.Some?
    ensures all[k].Ref() == TxAction(cx.witnesses.UniqueMessage().value.value.0, k)
  {
    TxLevelFound(cx, k);
  }

  lemma OtxRefAt(cx: CobuildContext, all: seq<RelatedAction>, tx: seq<RelatedAction>, otxs: seq<seq<RelatedAction>>,
                 k: nat)
    returns (i: nat, local: nat)
    requires JoinOf(cx, all, tx, otxs) && |tx| <= k < |all|
    ensures i < |otxs| && local < |otxs[i]| && k == |tx| + |Flatten(otxs[..i])| + local
    ensures all[k].Ref() == OtxAction(cx.OtxEntries()[i].layout.witnessIndex, i, local)
  {
    i, local := JoinedAt(tx, otxs, k);
    OtxFound(cx, i, otxs[i], local);
  }

  lemma JoinedRefsAscend(cx: CobuildContext, all: seq<RelatedAction>, tx: seq<RelatedAction>,
                         otxs: seq<seq<RelatedAction>>, k: nat, l: nat)
    requires JoinOf(cx, all, tx, otxs) && k < l < |all| && WitnessesAscend(cx)
    ensures all[k].Ref() != all[l].Ref()
            && (all[k].Ref().OtxAction? == all[l].Ref().OtxAction? ==> Less(all[k].Ref(), all[l].Ref()))
  {
    if l < |tx| {
      TxRefAt(cx, all, tx, otxs, k);
      TxRefAt(cx, all, tx, otxs, l);
    } else {
      var j, localL := OtxRefAt(cx, all, tx, otxs, l);
      if k < |tx| {
        TxRefAt(cx, all, tx, otxs, k);
      } else {
        var i, localK := OtxRefAt(cx, all, tx, otxs, k);
        PlacesAscend(otxs, i, localK, j, localL);
      }
    }
  }
}
