/** What the action queries answer, and when: lookup by reference, all actions, and the bytes of a role. */
module Actions {
  import opened Base
  import opened LazyReader
  import opened View
  import opened Transaction
  import opened Witness
  import opened Context
  import opened Plan
  import opened ActionHash
  import opened Engine
  import opened Related
  import opened PlanSuccess
  import opened TypePlanSuccess
  import opened LockFaults
  import opened Scope

  lemma SingleIndex(message: Cursor, a: nat)
    requires MessageAction(message, a).Ok? && MessageAction(message, a).value.Some?
    ensures MessageAction(message, a).value.value.index == a
  {
    ActionIndex(a, message.Slice(0).value.Slice(a).value);
  }

  /** Whatever is found carries the reference it was asked for. */
  lemma FoundCarriesRef(cx: CobuildContext, r: ActionRef)
    requires FindAction(cx, r).Ok?
    ensures FindAction(cx, r).value.Ref() == r
  {
    match r
    case TxAction(w, a) => SingleIndex(cx.witnesses.UniqueMessage().value.value.1, a);
    case OtxAction(w, i, a) => SingleIndex(cx.OtxEntries()[i].view.message, a);
  }

  lemma TxLookup(cx: CobuildContext, w: nat, a: nat)
    requires TxLevelActions(cx).Ok?
    ensures var r, tx := FindAction(cx, TxAction(w, a)), TxLevelActions(cx).value;
            if a < |tx| && tx[a].origin == FromTx(w) then r == Ok(tx[a]) else r == Err(ActionNotFound)
  {
    var unique := cx.witnesses.UniqueMessage().value;
    if unique.Some? {
      ActionLookup(unique.value.1, a);
    }
  }

  lemma OtxLookup(cx: CobuildContext, w: nat, i: nat, a: nat, actions: seq<RelatedAction>)
    requires i < |cx.OtxEntries()| && OtxActionsAt(cx, i) == Ok(actions)
    ensures var r := FindAction(cx, OtxAction(w, i, a));
            if a < |actions| && cx.OtxEntries()[i].layout.witnessIndex == w then r == Ok(actions[a])
            else r == Err(ActionNotFound)
  {
    ActionLookup(cx.OtxEntries()[i].view.message, a);
  }

  /** What is found is one of all actions; what is not found is reported as such. */
  lemma FoundIsListed(cx: CobuildContext, r: ActionRef, all: seq<RelatedAction>, tx: seq<RelatedAction>,
                      otxs: seq<seq<RelatedAction>>)
    requires JoinOf(cx, all, tx, otxs)
    ensures FindAction(cx, r).Ok? ==> FindAction(cx, r).value in all
    ensures FindAction(cx, r).Err? ==> FindAction(cx, r).error == ActionNotFound
  {
    match r
    case TxAction(w, a) =>
      TxLookup(cx, w, a);
      if a < |tx| {
        assert all[a] == tx[a];
      }
    case OtxAction(w, i, a) =>
      if i < |cx.OtxEntries()| {
        assert OtxActionsOf(cx)(i) == Ok(otxs[i]);
        OtxLookup(cx, w, i, a, otxs[i]);
        if a < |otxs[i]| {
          ListedAt(all, tx, otxs, i, a);
        }
      }
  }

  lemma ListedAt(all: seq<RelatedAction>, tx: seq<RelatedAction>, otxs: seq<seq<RelatedAction>>, i: nat, a: nat)
    requires all == tx + Flatten(otxs) && i < |otxs| && a < |otxs[i]|
    ensures otxs[i][a] in all
  {
    FlattenAt(otxs, i, a);
    assert all[|tx| + |Flatten(otxs[..i])| + a] == otxs[i][a];
  }

  /** Lookup finds exactly the actions there are: the one with that reference, or none. */
  lemma FindExactly(cx: CobuildContext, r: ActionRef, all: seq<RelatedAction>)
    requires AllActions(cx) == Ok(all)
    ensures forall a :: FindAction(cx, r) == Ok(a) <==> a in all && a.Ref() == r
    ensures FindAction(cx, r).Err? ==> FindAction(cx, r).error == ActionNotFound
  {
    forall a | a in all && a.Ref() == r ensures FindAction(cx, r) == Ok(a) {
      var k: nat :| k < |all| && all[k] == a;
      FindReturnsEachAction(cx, k);
    }
    var tx, otxs := AllActionsJoin(cx);
    FoundIsListed(cx, r, all, tx, otxs);
    if FindAction(cx, r).Ok? {
      FoundCarriesRef(cx, r);
    }
  }

  lemma CheckedSucceeds(tx: Tx, current: CurrentScript, cx: CobuildContext, i: nat)
    requires cx.tx == tx && cx.script == ContextOf(tx, current) && i < |cx.OtxEntries()|
    ensures OtxActionsAt(cx, i).Ok? <==> AllTargeted(tx, cx.OtxEntries()[i].view.message)
  {
    if MessageActions(cx.OtxEntries()[i].view.message).Ok? {
      TargetsExistMeaning(tx, current, cx, cx.OtxEntries()[i].view.message);
    }
  }

  lemma TxActionsSucceed(tx: Tx, current: CurrentScript, cx: CobuildContext)
    requires cx.tx == tx && cx.script == ContextOf(tx, current)
    ensures TxLevelActions(cx).Ok? <==>
              && !TwoMessages(cx.witnesses.summaries)
              && forall w: nat | w < |cx.witnesses.summaries| && cx.witnesses.summaries[w].SighashAllSummary? ::
                   AllTargeted(tx, cx.witnesses.summaries[w].message)
  {
    UniqueMessageMeaning(cx.witnesses, |cx.witnesses.summaries|);
    var unique := cx.witnesses.UniqueMessage();
    if unique.Ok? && unique.value.Some? {
      var (w, m) := unique.value.value;
      if MessageActions(m).Ok? {
        TargetsExistMeaning(tx, current, cx, m);
      }
    }
  }

  /** All actions can be listed exactly when there is one tx-level message at most and every message is targeted. */
  lemma AllActionsExactly(tx: Tx, current: CurrentScript, cx: CobuildContext)
    requires cx.tx == tx && cx.script == ContextOf(tx, current)
    ensures AllActions(cx).Ok? <==>
              && !TwoMessages(cx.witnesses.summaries)
              && (forall w: nat | w < |cx.witnesses.summaries| && cx.witnesses.summaries[w].SighashAllSummary? ::
                    AllTargeted(tx, cx.witnesses.summaries[w].message))
              && forall i: nat | i < |cx.OtxEntries()| :: AllTargeted(tx, cx.OtxEntries()[i].view.message)
  {
    TxActionsSucceed(tx, current, cx);
    CollectSucceeds(OtxActionsOf(cx), |cx.OtxEntries()|);
    forall i: nat | i < |cx.OtxEntries()|
      ensures OtxActionsOf(cx)(i).Ok? <==> AllTargeted(tx, cx.OtxEntries()[i].view.message)
    {
      CheckedSucceeds(tx, current, cx, i);
    }
  }

  function UntargetedOtx(cx: CobuildContext): nat -> Fault {
    (i: nat) => if i < |cx.OtxEntries()| then MessageFault(cx.tx, cx.OtxEntries()[i].view.message, true) else None
  }

  lemma TxActionsFault(tx: Tx, current: CurrentScript, cx: CobuildContext)
    requires cx.tx == tx && cx.script == ContextOf(tx, current)
    ensures FaultOf(TxLevelActions(cx)) == TxMessageFault(cx, current.hash, true)
  {
    TxMessageMeaning(cx, current.hash, true);
    var unique := cx.witnesses.UniqueMessage();
    if unique.Ok? && unique.value.Some? && MessageActions(unique.value.value.1).Ok? {
      TargetsExistMeaning(tx, current, cx, unique.value.value.1);
    }
  }

  /** Otherwise the error is the first fault: that of the tx-level message, then those of the OTXs in order. */
  lemma AllActionsFault(tx: Tx, current: CurrentScript, cx: CobuildContext)
    requires cx.tx == tx && cx.script == ContextOf(tx, current)
    ensures FaultOf(AllActions(cx))
         == Then(TxMessageFault(cx, current.hash, true), FirstOf(UntargetedOtx(cx), |cx.OtxEntries()|))
  {
    TxActionsFault(tx, current, cx);
    forall i: nat | i < |cx.OtxEntries()| ensures FaultOf(OtxActionsOf(cx)(i)) == UntargetedOtx(cx)(i) {
      if MessageActions(cx.OtxEntries()[i].view.message).Ok? {
        TargetsExistMeaning(tx, current, cx, cx.OtxEntries()[i].view.message);
      }
    }
    CollectFault(OtxActionsOf(cx), UntargetedOtx(cx), |cx.OtxEntries()|);
  }

  /** An action can be hashed when its numbers and its data length fit four bytes and its data can be read. */
  lemma ActionHashFault(r: ActionRef, a: ActionView)
    ensures FaultOf(ActionPreimage(r, a))
         == Then(When(!RefFits(r) || !Fits(a.data.size), HashInputTooLarge),
                 When(a.data.ReadAll(MalformedCobuild).Err?, MalformedCobuild))
  {}

  /** The three role bytes, read and written. */
  lemma RoleBytes(raw: Byte)
    ensures ScriptRoleOf(0) == Ok(InputLock) && ScriptRoleOf(1) == Ok(InputType) && ScriptRoleOf(2) == Ok(OutputType)
    ensures raw > 2 ==> ScriptRoleOf(raw) == Err(InvalidMessageTarget)
    ensures forall role :: ScriptRoleOf(raw) == Ok(role) <==> RoleByte(role) == raw
  {}

  /** The raw input is its two fields, of fixed size, in the order of the Molecule struct. */
  lemma RawInputFields(c: CellInput)
    requires c.Valid()
    ensures |c.Raw()| == 44 && c.Raw()[..8] == c.since && c.Raw()[8..] == c.previousOutput
  {}
}
