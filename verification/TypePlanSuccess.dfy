/** When a type plan exists, and which error is reported when it does not, said of the transaction. */
module TypePlanSuccess {
  import opened Base
  import opened LazyReader
  import opened View
  import opened Layout
  import opened Transaction
  import opened Witness
  import opened Context
  import opened Preimage
  import opened Engine
  import opened LockPlan
  import opened TypePlan
  import opened BuiltFacts
  import opened TypeFacts
  import opened Related
  import opened PlanSuccess

  // ---------- messages ----------

  /** Some action of the message is aimed at this type. */
  predicate ConcernsType(message: Cursor, t: Hash32) {
    && MessageActions(message).Ok?
    && exists k: nat | k < |MessageActions(message).value| :: AimedAtType(MessageActions(message).value[k], t)
  }

  /** What is wrong with a message: it cannot be parsed, or it is heeded and misses a target. */
  function MessageFault(tx: Tx, message: Cursor, heeded: bool): Option<CoreError> {
    if MessageActions(message).Err? then Some(MessageActions(message).error)
    else if heeded && !AllTargeted(tx, message) then Some(InvalidMessageTarget)
    else None
  }

  lemma TypeMineMeaning(message: Cursor, t: Hash32)
    requires MessageActions(message).Ok?
    ensures Filter(MessageActions(message).value, IsTypeAction(t)) != [] <==> ConcernsType(message, t)
  {
    FilterMeaning(MessageActions(message).value, IsTypeAction(t));
  }

  // ---------- one OTX ----------

  /** The type occurs among the inputs or outputs of the OTX. */
  predicate OtxHolds(cx: CobuildContext, t: Hash32, i: nat)
    requires i < |cx.OtxEntries()|
  {
    var l := cx.OtxEntries()[i].layout;
    || TypeInside(cx.tx, t, Inputs, l.baseInputs) || TypeInside(cx.tx, t, Inputs, l.appendInputs)
    || TypeInside(cx.tx, t, Outputs, l.baseOutputs) || TypeInside(cx.tx, t, Outputs, l.appendOutputs)
  }

  /** The message of an OTX is heeded when the OTX holds the type or the message concerns it. */
  function OtxFault(cx: CobuildContext, t: Hash32, i: nat): Option<CoreError>
    requires i < |cx.OtxEntries()|
  {
    var message := cx.OtxEntries()[i].view.message;
    MessageFault(cx.tx, message, OtxHolds(cx, t, i) || ConcernsType(message, t))
  }

  lemma OtxStep(tx: Tx, t: Hash32, cx: CobuildContext, i: nat)
    requires Build(tx, CurrentType(t)) == Ok(cx) && i < |cx.OtxEntries()|
    ensures OtxTypeActions(cx, i).Ok? <==> OtxFault(cx, t, i).None?
    ensures OtxTypeActions(cx, i).Err? ==> OtxFault(cx, t, i) == Some(OtxTypeActions(cx, i).error)
  {
    SummariesOfWitnesses(tx, CurrentType(t), cx);
    PresenceFlagsMeaning(tx, t, cx, i);
    var message := cx.OtxEntries()[i].view.message;
    assert cx.script.TypeRelationForOtx(cx.OtxEntries()[i]).value.MentionsType() <==> OtxHolds(cx, t, i);
    if MessageActions(message).Ok? {
      TargetsExistMeaning(tx, CurrentType(t), cx, message);
      TypeMineMeaning(message, t);
    }
  }

  // ---------- the tx-level message ----------

  /** The type occurs outside the OTX ranges, or anywhere when there are none. */
  predicate Outside(cx: CobuildContext, t: Hash32) {
    match cx.otxLayouts
    case NoLayout =>
      || (exists n: nat | n < |cx.tx.inputs| :: TypeAt(cx.tx, t, Inputs, n))
      || (exists n: nat | n < |cx.tx.outputs| :: TypeAt(cx.tx, t, Outputs, n))
    case Complete(layout) =>
      || (exists n: nat | n < |cx.tx.inputs| :: TypeAt(cx.tx, t, Inputs, n) && !layout.inputRange.Contains(n))
      || (exists n: nat | n < |cx.tx.outputs| :: TypeAt(cx.tx, t, Outputs, n) && !layout.outputRange.Contains(n))
  }

  lemma EscapesMeaning(tx: Tx, t: Hash32, k: Kind, indices: seq<nat>, range: Range)
    requires forall n: nat :: n in indices <==> TypeAt(tx, t, k, n)
    ensures Escapes(indices, range) <==> exists n: nat :: TypeAt(tx, t, k, n) && !range.Contains(n)
    ensures indices != [] <==> exists n: nat :: TypeAt(tx, t, k, n)
  {
    if i: nat :| i < |indices| && !range.Contains(indices[i]) {
      assert indices[i] in indices;
    }
    if n: nat :| TypeAt(tx, t, k, n) && !range.Contains(n) {
      assert n in indices;
    }
    if indices != [] {
      assert indices[0] in indices;
    }
    if n: nat :| TypeAt(tx, t, k, n) {
      assert n in indices;
    }
  }

  lemma OutsideMeaning(tx: Tx, t: Hash32, cx: CobuildContext)
    requires cx.tx == tx && cx.script == ContextOf(tx, CurrentType(t))
    ensures TxLevelScopeMentionsType(cx) <==> Outside(cx, t)
  {
    TypeIndicesMeaning(tx, t, cx);
    var inputs, outputs := Range(0, 0), Range(0, 0);
    if cx.otxLayouts.Complete? {
      inputs, outputs := cx.otxLayouts.layout.inputRange, cx.otxLayouts.layout.outputRange;
    }
    EscapesMeaning(tx, t, Inputs, TypeInputs(cx), inputs);
    EscapesMeaning(tx, t, Outputs, TypeOutputs(cx), outputs);
  }

  /** Two witnesses carry a message. */
  predicate TwoMessages(summaries: seq<Summary>) {
    exists i: nat, j: nat | i < j < |summaries| :: summaries[i].SighashAllSummary? && summaries[j].SighashAllSummary?
  }

  /** What is wrong at tx level: two messages, or a fault of the one there is. */
  predicate TxFault(cx: CobuildContext, t: Hash32, e: CoreError) {
    if TwoMessages(cx.witnesses.summaries) then e == DuplicateSighashAll
    else
      exists w: nat | w < |cx.witnesses.summaries| ::
        && cx.witnesses.summaries[w].SighashAllSummary?
        && var m := cx.witnesses.summaries[w].message;
           MessageFault(cx.tx, m, Outside(cx, t) || ConcernsType(m, t)) == Some(e)
  }

  /** Nothing is wrong at tx level. */
  predicate TxFaultless(cx: CobuildContext, t: Hash32) {
    && !TwoMessages(cx.witnesses.summaries)
    && forall w: nat | w < |cx.witnesses.summaries| && cx.witnesses.summaries[w].SighashAllSummary? ::
         var m := cx.witnesses.summaries[w].message;
         MessageFault(cx.tx, m, Outside(cx, t) || ConcernsType(m, t)).None?
  }

  /** The step over the unique message, once that is known. */
  lemma TxStep(tx: Tx, t: Hash32, cx: CobuildContext, w: nat, m: Cursor)
    requires Build(tx, CurrentType(t)) == Ok(cx) && cx.witnesses.UniqueMessage() == Ok(Some((w, m)))
    ensures var fault := MessageFault(tx, m, Outside(cx, t) || ConcernsType(m, t));
            && (TxTypeActions(cx).Ok? <==> fault.None?)
            && (TxTypeActions(cx).Err? ==> fault == Some(TxTypeActions(cx).error))
  {
    SummariesOfWitnesses(tx, CurrentType(t), cx);
    OutsideMeaning(tx, t, cx);
    if MessageActions(m).Ok? {
      TargetsExistMeaning(tx, CurrentType(t), cx, m);
      TypeMineMeaning(m, t);
    }
  }

  lemma TxSucceeds(tx: Tx, t: Hash32, cx: CobuildContext)
    requires Build(tx, CurrentType(t)) == Ok(cx)
    ensures TxTypeActions(cx).Ok? <==> TxFaultless(cx, t)
    ensures forall e :: TxTypeActions(cx) == Err(e) <==> TxFault(cx, t, e)
  {
    SummariesOfWitnesses(tx, CurrentType(t), cx);
    UniqueMessageMeaning(cx.witnesses, |cx.witnesses.summaries|);
    var unique := cx.witnesses.UniqueMessage();
    if unique.Ok? && unique.value.Some? {
      var (w, m) := unique.value.value;
      TxStep(tx, t, cx, w, m);
      assert !TwoMessages(cx.witnesses.summaries);
    }
  }

  // ---------- the whole plan ----------

  /** Nothing is wrong with the message of any OTX. */
  predicate OtxsFaultless(cx: CobuildContext, t: Hash32) {
    forall i: nat | i < |cx.OtxEntries()| :: OtxFault(cx, t, i).None?
  }

  /** OTX `i` is the first with a fault. */
  predicate FirstFaulty(cx: CobuildContext, t: Hash32, i: nat) {
    && i < |cx.OtxEntries()|
    && OtxFault(cx, t, i).Some?
    && forall j: nat | j < i :: OtxFault(cx, t, j).None?
  }

  /** The first OTX with a fault has this one. */
  predicate FirstOtxFault(cx: CobuildContext, t: Hash32, e: CoreError) {
    exists i: nat | i < |cx.OtxEntries()| :: FirstFaulty(cx, t, i) && OtxFault(cx, t, i) == Some(e)
  }

  /** The first error in the order of the checks: OTX after OTX, then the tx-level message. */
  predicate FirstFault(cx: CobuildContext, t: Hash32, e: CoreError) {
    FirstOtxFault(cx, t, e) || (OtxsFaultless(cx, t) && TxFault(cx, t, e))
  }

  lemma {:induction false} CollectFirst<T>(f: nat -> Result<T>, n: nat) returns (i: nat)
    requires Collect(f, n).Err?
    ensures i < n && f(i) == Err(Collect(f, n).error) && forall j: nat | j < i :: f(j).Ok?
  {
    if Collect(f, n - 1).Ok? {
      i := n - 1;
      CollectSucceeds(f, i);
    } else {
      i := CollectFirst(f, n - 1);
    }
  }

  lemma OtxsSucceed(tx: Tx, t: Hash32, cx: CobuildContext)
    requires Build(tx, CurrentType(t)) == Ok(cx)
    ensures Collect(OtxTypeActionsOf(cx), |cx.OtxEntries()|).Ok? <==> OtxsFaultless(cx, t)
    ensures Collect(OtxTypeActionsOf(cx), |cx.OtxEntries()|).Err? ==>
              FirstOtxFault(cx, t, Collect(OtxTypeActionsOf(cx), |cx.OtxEntries()|).error)
  {
    var f, n := OtxTypeActionsOf(cx), |cx.OtxEntries()|;
    CollectSucceeds(f, n);
    forall i: nat | i < n
      ensures f(i).Ok? <==> OtxFault(cx, t, i).None?
      ensures f(i).Err? ==> OtxFault(cx, t, i) == Some(f(i).error)
    {
      OtxStep(tx, t, cx, i);
    }
    if Collect(f, n).Err? {
      var i := CollectFirst(f, n);
      assert FirstFaulty(cx, t, i) && OtxFault(cx, t, i) == Some(Collect(f, n).error);
    }
  }

  lemma FirstIsUnique(cx: CobuildContext, t: Hash32, d: CoreError, e: CoreError)
    requires FirstOtxFault(cx, t, d)
    ensures !OtxsFaultless(cx, t)
    ensures FirstOtxFault(cx, t, e) ==> d == e
  {
    var i: nat :| FirstFaulty(cx, t, i) && OtxFault(cx, t, i) == Some(d);
    if FirstOtxFault(cx, t, e) {
      var j: nat :| FirstFaulty(cx, t, j) && OtxFault(cx, t, j) == Some(e);
      FirstFaultyIsUnique(cx, t, i, j);
    }
  }

  lemma FirstFaultyIsUnique(cx: CobuildContext, t: Hash32, i: nat, j: nat)
    requires FirstFaulty(cx, t, i) && FirstFaulty(cx, t, j)
    ensures i == j
  {}

  lemma TypePlanSteps(cx: CobuildContext)
    requires cx.script.current.CurrentType?
    ensures var otxs, tx := Collect(OtxTypeActionsOf(cx), |cx.OtxEntries()|), TxTypeActions(cx);
            && (otxs.Err? ==> PlanType(cx) == Err(otxs.error))
            && (otxs.Ok? && tx.Err? ==> PlanType(cx) == Err(tx.error))
            && (otxs.Ok? && tx.Ok? ==> PlanType(cx).Ok?)
            && (PlanType(cx).Ok? ==> PlanType(cx).value.typeScriptHash == TypeHash(cx))
  {}

  /** A planner that is asked for the other kind of script refuses. */
  lemma WrongScriptRefused(tx: Tx, hash: Hash32, h: Blake2b)
    ensures Build(tx, CurrentLock(hash)).Ok? ==>
              PlanType(Build(tx, CurrentLock(hash)).value) == Err(InvalidContextInput)
    ensures Build(tx, CurrentType(hash)).Ok? ==>
              PlanLock(Build(tx, CurrentType(hash)).value, h) == Err(InvalidContextInput)
  {}

  /**
   * Exactly when there is a type plan, and the error when there is none: the first fault, OTX after OTX and then at
   * tx level.  An OTX that neither holds the type nor has an action for it never stands in the way, once parsed.
   */
  lemma TypePlanExactly(tx: Tx, t: Hash32, cx: CobuildContext)
    requires Build(tx, CurrentType(t)) == Ok(cx)
    ensures PlanType(cx).Ok? <==> OtxsFaultless(cx, t) && TxFaultless(cx, t)
    ensures PlanType(cx).Ok? ==> PlanType(cx).value.typeScriptHash == t
    ensures forall e :: PlanType(cx) == Err(e) <==> FirstFault(cx, t, e)
  {
    SummariesOfWitnesses(tx, CurrentType(t), cx);
    OtxsSucceed(tx, t, cx);
    TxSucceeds(tx, t, cx);
    TypePlanSteps(cx);
    var otxs := Collect(OtxTypeActionsOf(cx), |cx.OtxEntries()|);
    if otxs.Err? {
      forall e ensures FirstOtxFault(cx, t, e) <==> e == otxs.error {
        FirstIsUnique(cx, t, otxs.error, e);
      }
    } else {
      forall e ensures !FirstOtxFault(cx, t, e) {}
    }
  }
}
