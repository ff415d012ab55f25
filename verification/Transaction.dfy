/** The transaction as the contract reads it: immutable, and every read below the counts succeeds. */
module Transaction {
  import opened Base
  import opened Molecule
  import opened LazyReader
  import opened Layout

  datatype CellInput = CellInput(since: Bytes, previousOutput: Bytes) {
    function Raw(): Bytes { since + previousOutput }
    predicate Valid() { |since| == 8 && |previousOutput| == 36 }
  }

  /** A Molecule table or dynamic vector carries its own length in front. */
  predicate SelfDelimiting(b: Bytes) {
    |b| >= 4 && NumberAt(b, 0) == |b|
  }

  /** A Molecule CellOutput: its bytes, and the fields the accessors read out of them. */
  datatype CellOutput = CellOutput(raw: Bytes, capacity: Bytes, lock: Bytes, typeScript: Option<Bytes>) {
    function TypeBytes(): Bytes { if typeScript.Some? then typeScript.value else [] }

    predicate Valid() {
      && raw == Offsetted([capacity, lock, TypeBytes()])
      && |raw| < U32_LIMIT
      && |capacity| == 8
      && SelfDelimiting(lock)
      && (typeScript.Some? ==> SelfDelimiting(typeScript.value))
    }
  }

  datatype TxInput = TxInput(
    cell: CellInput, resolvedOutput: Bytes, resolvedData: Bytes, lockHash: Hash32, typeHash: Option<Hash32>)

  datatype TxOutput = TxOutput(cell: CellOutput, data: Bytes, typeHash: Option<Hash32>)

  datatype Tx = Tx(
    txHash: Hash32, inputs: seq<TxInput>, outputs: seq<TxOutput>,
    cellDeps: seq<Bytes>, headerDeps: seq<Hash32>, witnesses: seq<Cursor>)
  {
    function EntityCounts(): Counts {
      Counts(|inputs|, |outputs|, |cellDeps|, |headerDeps|)
    }

    function Input(i: nat): Result<TxInput> {
      if i < |inputs| then Ok(inputs[i]) else Err(MissingHashInput)
    }

    function Output(i: nat): Result<TxOutput> {
      if i < |outputs| then Ok(outputs[i]) else Err(MissingHashInput)
    }

    function CellDep(i: nat): Result<Bytes> {
      if i < |cellDeps| then Ok(cellDeps[i]) else Err(MissingHashInput)
    }

    function HeaderDep(i: nat): Result<Hash32> {
      if i < |headerDeps| then Ok(headerDeps[i]) else Err(MissingHashInput)
    }

    function Witness(i: nat): Result<Cursor> {
      if i < |witnesses| then Ok(witnesses[i]) else Err(MissingHashInput)
    }

    /** What consensus guarantees about the encodings. */
    predicate Valid() {
      && (forall i: nat | i < |inputs| :: inputs[i].cell.Valid() && SelfDelimiting(inputs[i].resolvedOutput))
      && (forall i: nat | i < |outputs| :: outputs[i].cell.Valid())
      && (forall i: nat | i < |cellDeps| :: |cellDeps[i]| == 37)
      && (forall i: nat | i < |witnesses| :: witnesses[i].InBounds())
    }
  }
}
