/** Where the running script occurs in the transaction, and which scripts the transaction has at all. */
module Context {
  import opened Base
  import opened View
  import opened Layout
  import opened Transaction

  datatype CurrentScript = CurrentLock(hash: Hash32) | CurrentType(hash: Hash32)

  datatype Indices = LockIndices(inputs: seq<nat>) | TypeIndices(inputs: seq<nat>, outputs: seq<nat>)

  /** Is the current type in an OTX's base or append part, and is it covered by the base masks? */
  datatype OtxTypeRelation = OtxTypeRelation(
    inputTypeInBase: bool, inputTypeInAppend: bool,
    outputTypeInBase: bool, outputTypeInBaseCovered: bool, outputTypeInAppend: bool)
  {
    predicate MentionsType() { inputTypeInBase || inputTypeInAppend || outputTypeInBase || outputTypeInAppend }
  }

  datatype ScriptContext = ScriptContext(
    current: CurrentScript, indices: Indices,
    inputLocks: set<Hash32>, inputTypes: set<Hash32>, outputTypes: set<Hash32>)
  {
    predicate HasTarget(action: ActionView) {
      match action.scriptRole
      case InputLock => action.scriptHash in inputLocks
      case InputType => action.scriptHash in inputTypes
      case OutputType => action.scriptHash in outputTypes
    }

    predicate TargetsExist(actions: seq<ActionView>) {
      forall i: nat | i < |actions| :: HasTarget(actions[i])
    }

    method ValidateActionTargets(actions: seq<ActionView>) returns (r: Result<()>)
      ensures r == if TargetsExist(actions) then Ok(()) else Err(InvalidMessageTarget)
    {
      for i := 0 to |actions|
        invariant forall j: nat | j < i :: HasTarget(actions[j])
      {
        if !HasTarget(actions[i]) {
          return Err(InvalidMessageTarget);
        }
      }
      return Ok(());
    }

    function TypeOutputs(): seq<nat> { if indices.TypeIndices? then indices.outputs else [] }

    /** The early-exit loop over base outputs, from `local` on. */
    function CoveredFrom(entry: OtxLayoutEntry, local: nat): Result<bool>
      requires local <= entry.layout.baseOutputs.count
      decreases entry.layout.baseOutputs.count - local
    {
      if local == entry.layout.baseOutputs.count then Ok(false)
      else if entry.layout.baseOutputs.start + local !in TypeOutputs() then CoveredFrom(entry, local + 1)
      else
        var included :- entry.view.IncludesType(local);
        if included then Ok(true) else CoveredFrom(entry, local + 1)
    }

    function TypeRelationForOtx(entry: OtxLayoutEntry): Result<OtxTypeRelation> {
      var covered :- CoveredFrom(entry, 0);
      Ok(OtxTypeRelation(
        Meets(indices.inputs, entry.layout.baseInputs), Meets(indices.inputs, entry.layout.appendInputs),
        Meets(TypeOutputs(), entry.layout.baseOutputs), covered,
        Meets(TypeOutputs(), entry.layout.appendOutputs)))
    }

    method CoveredCurrentTypeInBaseOutputs(entry: OtxLayoutEntry) returns (r: Result<bool>)
      ensures r == CoveredFrom(entry, 0)
    {
      for local := 0 to entry.layout.baseOutputs.count
        invariant CoveredFrom(entry, 0) == CoveredFrom(entry, local)
      {
        if entry.layout.baseOutputs.start + local in TypeOutputs() {
          var included :- entry.view.IncludesType(local);
          if included {
            return Ok(true);
          }
        }
      }
      return Ok(false);
    }
  }

  /** Some listed index lies in the range. */
  predicate Meets(indices: seq<nat>, range: Range) {
    exists i: nat | i < |indices| :: range.Contains(indices[i])
  }

  /** Some listed index lies outside the range. */
  predicate Escapes(indices: seq<nat>, range: Range) {
    exists i: nat | i < |indices| :: !range.Contains(indices[i])
  }

  // ---------- the context of a transaction ----------

  /** The indices below `n` that satisfy `p`, in order. */
  function Matching(n: nat, p: nat -> bool): seq<nat> {
    if n == 0 then []
    else if p(n - 1) then Matching(n - 1, p) + [n - 1]
    else Matching(n - 1, p)
  }

  lemma {:induction false} MatchingMeaning(n: nat, p: nat -> bool)
    ensures forall i: nat :: i in Matching(n, p) <==> i < n && p(i)
    ensures forall i: nat, j: nat | i < j < |Matching(n, p)| :: Matching(n, p)[i] < Matching(n, p)[j]
  {
    if n == 0 {
    } else {
      MatchingMeaning(n - 1, p);
      var before := Matching(n - 1, p);
      assert forall i: nat :: i in before + [n - 1] <==> i in before || i == n - 1;
      assert forall i: nat | i < |before| :: before[i] in before;
    }
  }

  function LockMatches(tx: Tx, h: Hash32): nat -> bool {
    (i: nat) => i < |tx.inputs| && tx.inputs[i].lockHash == h
  }

  function InputTypeMatches(tx: Tx, h: Hash32): nat -> bool {
    (i: nat) => i < |tx.inputs| && tx.inputs[i].typeHash == Some(h)
  }

  function OutputTypeMatches(tx: Tx, h: Hash32): nat -> bool {
    (i: nat) => i < |tx.outputs| && tx.outputs[i].typeHash == Some(h)
  }

  /** After `n` inputs and `m` outputs have been read. */
  function IndicesAfter(tx: Tx, current: CurrentScript, n: nat, m: nat): Indices {
    match current
    case CurrentLock(h) => LockIndices(Matching(n, LockMatches(tx, h)))
    case CurrentType(h) => TypeIndices(Matching(n, InputTypeMatches(tx, h)), Matching(m, OutputTypeMatches(tx, h)))
  }

  function ContextAfter(tx: Tx, current: CurrentScript, n: nat, m: nat): ScriptContext
    requires n <= |tx.inputs| && m <= |tx.outputs|
  {
    ScriptContext(
      current, IndicesAfter(tx, current, n, m),
      set i: nat | i < n :: tx.inputs[i].lockHash,
      set i: nat | i < n && tx.inputs[i].typeHash.Some? :: tx.inputs[i].typeHash.value,
      set i: nat | i < m && tx.outputs[i].typeHash.Some? :: tx.outputs[i].typeHash.value)
  }

  function ContextOf(tx: Tx, current: CurrentScript): ScriptContext {
    ContextAfter(tx, current, |tx.inputs|, |tx.outputs|)
  }

  class CurrentScriptContext {
    const currentScript: CurrentScript
    var indices: Indices
    var inputLocks: set<Hash32>
    var inputTypes: set<Hash32>
    var outputTypes: set<Hash32>

    function Value(): ScriptContext
      reads this
    {
      ScriptContext(currentScript, indices, inputLocks, inputTypes, outputTypes)
    }

    constructor (current: CurrentScript)
      ensures currentScript == current
      ensures Value() == ScriptContext(current,
                                       if current.CurrentLock? then LockIndices([]) else TypeIndices([], []),
                                       {}, {}, {})
    {
      currentScript := current;
      indices := if current.CurrentLock? then LockIndices([]) else TypeIndices([], []);
      inputLocks, inputTypes, outputTypes := {}, {}, {};
    }

    method PushInputLockHash(index: nat, lockHash: Hash32)
      modifies this
      ensures Value() == old(Value()).(
                inputLocks := old(inputLocks) + {lockHash},
                indices := if currentScript == CurrentLock(lockHash)
                           then old(indices).(inputs := old(indices.inputs) + [index]) else old(indices))
    {
      inputLocks := inputLocks + {lockHash};
      if currentScript == CurrentLock(lockHash) {
        indices := indices.(inputs := indices.inputs + [index]);
      }
    }

    method PushInputTypeHash(index: nat, typeHash: Hash32)
      modifies this
      ensures Value() == old(Value()).(
                inputTypes := old(inputTypes) + {typeHash},
                indices := if currentScript == CurrentType(typeHash)
                           then old(indices).(inputs := old(indices.inputs) + [index]) else old(indices))
    {
      inputTypes := inputTypes + {typeHash};
      if currentScript == CurrentType(typeHash) {
        indices := indices.(inputs := indices.inputs + [index]);
      }
    }

    method PushOutputTypeHash(index: nat, typeHash: Hash32)
      requires currentScript.CurrentType? ==> indices.TypeIndices?
      modifies this
      ensures Value() == old(Value()).(
                outputTypes := old(outputTypes) + {typeHash},
                indices := if currentScript == CurrentType(typeHash)
                           then old(indices).(outputs := old(indices.outputs) + [index]) else old(indices))
    {
      outputTypes := outputTypes + {typeHash};
      if currentScript == CurrentType(typeHash) {
        indices := indices.(outputs := indices.outputs + [index]);
      }
    }
  }

  /** `from_reader`: one pass over the inputs, one over the outputs. */
  method FromReader(tx: Tx, current: CurrentScript) returns (c: CurrentScriptContext)
    ensures fresh(c) && c.Value() == ContextOf(tx, current)
  {
    c := new CurrentScriptContext(current);
    for i := 0 to |tx.inputs|
      invariant fresh(c) && c.Value() == ContextAfter(tx, current, i, 0)
    {
      c.PushInputLockHash(i, tx.inputs[i].lockHash);
      if tx.inputs[i].typeHash.Some? {
        c.PushInputTypeHash(i, tx.inputs[i].typeHash.value);
      }
    }
    for i := 0 to |tx.outputs|
      invariant fresh(c) && c.Value() == ContextAfter(tx, current, |tx.inputs|, i)
    {
      if tx.outputs[i].typeHash.Some? {
        c.PushOutputTypeHash(i, tx.outputs[i].typeHash.value);
      }
    }
  }
}
