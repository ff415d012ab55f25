/** What a plan is made of: signing requirements, related actions, and references to actions. */
module Plan {
  import opened Base
  import opened View
  import opened Layout
  import opened Context

  datatype SignatureOrigin = TxLevel | OtxBase | OtxAppendSegment(segmentIndex: nat)

  datatype SigningRequirement = SigningRequirement(
    origin: SignatureOrigin, carrierWitnessIndex: nat, seal: Bytes, signingMessageHash: Hash32)

  // ---------- where an OTX stands, as its actions report it ----------

  datatype OtxPart = BasePart | AppendPart

  /** `classify_index`: the base first, else the append range, with the position inside it. */
  function ClassifyIndex(base: Range, append: Range, index: nat): Option<(OtxPart, nat)> {
    if base.Contains(index) then Some((BasePart, index - base.start))
    else if append.Contains(index) then Some((AppendPart, index - append.start))
    else None
  }

  /** `merge_adjacent_ranges` */
  function MergeAdjacent(base: Range, append: Range): Range { Range(base.start, base.count + append.count) }

  /** The ranges of an OTX without its segments. */
  datatype OtxMessageLayout = OtxMessageLayout(
    baseInputs: Range, appendInputs: Range, baseOutputs: Range, appendOutputs: Range,
    baseCellDeps: Range, appendCellDeps: Range, baseHeaderDeps: Range, appendHeaderDeps: Range)
  {
    function BaseOf(k: Kind): Range {
      match k
      case Inputs => baseInputs
      case Outputs => baseOutputs
      case CellDeps => baseCellDeps
      case HeaderDeps => baseHeaderDeps
    }

    function AppendOf(k: Kind): Range {
      match k
      case Inputs => appendInputs
      case Outputs => appendOutputs
      case CellDeps => appendCellDeps
      case HeaderDeps => appendHeaderDeps
    }

    function Classify(k: Kind, index: nat): Option<(OtxPart, nat)> { ClassifyIndex(BaseOf(k), AppendOf(k), index) }

    function Whole(k: Kind): Range { MergeAdjacent(BaseOf(k), AppendOf(k)) }
  }

  function MessageLayoutOf(l: OtxLayout): OtxMessageLayout {
    OtxMessageLayout(
      l.baseInputs, l.appendInputs, l.baseOutputs, l.appendOutputs,
      l.baseCellDeps, l.appendCellDeps, l.baseHeaderDeps, l.appendHeaderDeps)
  }

  datatype ActionOrigin =
    | FromTx(witnessIndex: nat)
    | FromOtx(witnessIndex: nat, otxIndex: nat, layout: OtxMessageLayout)
  {
    function Ref(actionIndex: nat): ActionRef {
      match this
      case FromTx(w) => TxAction(w, actionIndex)
      case FromOtx(w, o, _) => OtxAction(w, o, actionIndex)
    }
  }

  datatype RelatedAction = RelatedAction(origin: ActionOrigin, action: ActionView) {
    function Ref(): ActionRef { origin.Ref(action.index) }
  }

  datatype TypeActionOtxScope = TargetOnly | InOtxScope(relation: OtxTypeRelation)

  datatype TypeRelatedAction = TypeRelatedAction(action: RelatedAction, otxTypeScope: TypeActionOtxScope)

  datatype LockValidationPlan = LockValidationPlan(
    lockScriptHash: Hash32, requiredSignatures: seq<SigningRequirement>, relatedActions: seq<RelatedAction>)

  datatype TypeValidationPlan = TypeValidationPlan(typeScriptHash: Hash32, relatedActions: seq<TypeRelatedAction>)

  // ---------- action references ----------

  datatype ActionRef =
    | TxAction(witnessIndex: nat, actionIndex: nat)
    | OtxAction(witnessIndex: nat, otxIndex: nat, actionIndex: nat)
  {
    function SortKey(): (nat, nat, nat, nat) {
      match this
      case TxAction(w, a) => (w, 0, 0, a)
      case OtxAction(w, o, a) => (w, 1, o, a)
    }
  }

  /** The derived order on the sort keys: first difference decides. */
  predicate KeyLess(a: (nat, nat, nat, nat), b: (nat, nat, nat, nat)) {
    || a.0 < b.0
    || (a.0 == b.0 && a.1 < b.1)
    || (a.0 == b.0 && a.1 == b.1 && a.2 < b.2)
    || (a.0 == b.0 && a.1 == b.1 && a.2 == b.2 && a.3 < b.3)
  }

  predicate Less(a: ActionRef, b: ActionRef) { KeyLess(a.SortKey(), b.SortKey()) }

  /** The order is total, strict, and agrees with equality of references. */
  lemma RefsTotallyOrdered(a: ActionRef, b: ActionRef, c: ActionRef)
    ensures !Less(a, a)
    ensures Less(a, b) && Less(b, c) ==> Less(a, c)
    ensures Less(a, b) || Less(b, a) <==> a != b
  {}

  /**
   * The order spelled out: by witness; at one witness a tx-level reference comes first; two of a kind go by OTX and
   * then by action.
   */
  lemma OrderSpelledOut(a: ActionRef, b: ActionRef)
    ensures Less(a, b) <==>
              || a.witnessIndex < b.witnessIndex
              || (&& a.witnessIndex == b.witnessIndex
                  && match (a, b)
                     case (TxAction(_, x), TxAction(_, y)) => x < y
                     case (TxAction(_, _), OtxAction(_, _, _)) => true
                     case (OtxAction(_, _, _), TxAction(_, _)) => false
                     case (OtxAction(_, i, x), OtxAction(_, j, y)) => i < j || (i == j && x < y))
  {}

  // ---------- the one seal of a lock ----------

  function SealBefore(hash: Hash32, seals: seq<LockSealView>, n: nat): Result<Option<Bytes>>
    requires n <= |seals|
  {
    if n == 0 then Ok(None)
    else
      var found :- SealBefore(hash, seals, n - 1);
      if seals[n - 1].scriptHash != hash then Ok(found)
      else if found.Some? then Err(DuplicateLockSeal)
      else
        var bytes :- seals[n - 1].seal.ReadAll(MalformedCobuild);
        Ok(Some(bytes))
  }

  function UniqueLockSeal(hash: Hash32, seals: seq<LockSealView>): Result<Bytes> {
    var found :- SealBefore(hash, seals, |seals|);
    found.OrErr(MissingLockSeal)
  }

  /** Seal `i` is the one for this lock. */
  predicate OnlySeal(hash: Hash32, seals: seq<LockSealView>, n: nat, i: nat)
    requires n <= |seals|
  {
    i < n && seals[i].scriptHash == hash && forall j: nat | j < n && seals[j].scriptHash == hash :: j == i
  }

  lemma {:induction false} SealBeforeMeaning(hash: Hash32, seals: seq<LockSealView>, n: nat)
    requires n <= |seals|
    ensures SealBefore(hash, seals, n) == Ok(None) <==> forall j: nat | j < n :: seals[j].scriptHash != hash
    ensures forall b :: SealBefore(hash, seals, n) == Ok(Some(b)) <==>
              exists i: nat :: OnlySeal(hash, seals, n, i) && seals[i].seal.ReadAll(MalformedCobuild) == Ok(b)
  {
    if n == 0 {
    } else {
      SealBeforeMeaning(hash, seals, n - 1);
      if seals[n - 1].scriptHash == hash {
        if SealBefore(hash, seals, n - 1) == Ok(None) {
          assert OnlySeal(hash, seals, n, n - 1);
        }
      } else {
        forall i: nat ensures OnlySeal(hash, seals, n, i) == OnlySeal(hash, seals, n - 1, i) {}
      }
    }
  }

  /** Selection succeeds exactly when one seal names the lock and can be read, and returns its bytes. */
  lemma UniqueLockSealMeaning(hash: Hash32, seals: seq<LockSealView>, b: Bytes)
    ensures UniqueLockSeal(hash, seals) == Ok(b) <==>
              exists i: nat :: OnlySeal(hash, seals, |seals|, i) && seals[i].seal.ReadAll(MalformedCobuild) == Ok(b)
  {
    SealBeforeMeaning(hash, seals, |seals|);
  }

  method FindUniqueLockSeal(hash: Hash32, seals: seq<LockSealView>) returns (r: Result<Bytes>)
    ensures r == UniqueLockSeal(hash, seals)
  {
    var found: Option<Bytes> := None;
    for i := 0 to |seals|
      invariant SealBefore(hash, seals, i) == Ok(found)
    {
      if seals[i].scriptHash == hash {
        if found.Some? {
          SealErrorStays(hash, seals, i + 1);
          return Err(DuplicateLockSeal);
        }
        var bytes := seals[i].seal.ReadAll(MalformedCobuild);
        if bytes.Err? {
          SealErrorStays(hash, seals, i + 1);
          return Err(bytes.error);
        }
        found := Some(bytes.value);
      }
    }
    return found.OrErr(MissingLockSeal);
  }

  lemma {:induction false} SealErrorStays(hash: Hash32, seals: seq<LockSealView>, n: nat)
    requires n <= |seals| && SealBefore(hash, seals, n).Err?
    ensures SealBefore(hash, seals, |seals|) == SealBefore(hash, seals, n)
    decreases |seals| - n
  {
    if n == |seals| {
    } else {
      SealErrorStays(hash, seals, n + 1);
    }
  }
}
