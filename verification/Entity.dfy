/** The generated entity types as schemas, the witness union, and the loops of the generated code. */
module Entity {
  import opened Base
  import opened Molecule

  const BYTE := Fixed(1)
  const BYTE32 := Fixed(32)
  const UINT32 := Fixed(4)

  function ActionSchema(): Schema { Table([BYTE32, BYTE, BYTE32, ByteVec]) }
  function MessageSchema(): Schema { Table([DynVec(ActionSchema())]) }
  function LockSealSchema(): Schema { Table([BYTE32, ByteVec]) }

  function OtxAppendSegmentSchema(): Schema {
    Table([BYTE, UINT32, UINT32, UINT32, UINT32, DynVec(LockSealSchema())])
  }

  function OtxSchema(): Schema {
    Table([MessageSchema(), BYTE, UINT32, ByteVec, UINT32, ByteVec, UINT32, ByteVec, UINT32, ByteVec,
           DynVec(OtxAppendSegmentSchema()), DynVec(LockSealSchema())])
  }

  function OtxStartSchema(): Schema { Table([UINT32, UINT32, UINT32, UINT32]) }
  function SighashAllSchema(): Schema { Table([ByteVec, MessageSchema()]) }
  function SighashAllOnlySchema(): Schema { Table([ByteVec]) }

  lemma SchemasWellFormed()
    ensures WellFormed(ActionSchema()) && WellFormed(MessageSchema())
    ensures WellFormed(LockSealSchema()) && WellFormed(OtxAppendSegmentSchema())
    ensures WellFormed(OtxSchema()) && WellFormed(OtxStartSchema())
    ensures WellFormed(SighashAllSchema()) && WellFormed(SighashAllOnlySchema())
  {
    assert WellFormed(ActionSchema());
    assert WellFormed(MessageSchema());
    assert WellFormed(LockSealSchema());
    assert WellFormed(OtxAppendSegmentSchema());
  }

  // ---------- the WitnessLayout union ----------

  const SIGHASH_ALL_ID := 0xff00_0001
  const SIGHASH_ALL_ONLY_ID := 0xff00_0002
  const OTX_ID := 0xff00_0003
  const OTX_START_ID := 0xff00_0004

  function ItemSchema(id: nat): Option<Schema> {
    if id == SIGHASH_ALL_ID then Some(SighashAllSchema())
    else if id == SIGHASH_ALL_ONLY_ID then Some(SighashAllOnlySchema())
    else if id == OTX_ID then Some(OtxSchema())
    else if id == OTX_START_ID then Some(OtxStartSchema())
    else None
  }

  predicate WitnessVerify(b: Bytes, compatible: bool) {
    && |b| >= 4
    && ItemSchema(NumberAt(b, 0)).Some?
    && Verify(ItemSchema(NumberAt(b, 0)).value, b[4..], compatible)
  }

  function WitnessBuild(id: nat, v: Value): Bytes
    requires ItemSchema(id).Some? && Typed(ItemSchema(id).value, v)
  {
    PackNumber(id) + Build(ItemSchema(id).value, v)
  }

  /** `to_enum`: which variant, and its contents. */
  function WitnessParse(b: Bytes): (nat, Value)
    requires WitnessVerify(b, true)
  {
    (NumberAt(b, 0), Parse(ItemSchema(NumberAt(b, 0)).value, b[4..]))
  }

  /** A built witness is accepted and its variant and contents are read back. */
  lemma WitnessBuildThenParse(id: nat, v: Value)
    requires ItemSchema(id).Some? && Typed(ItemSchema(id).value, v)
    requires |Build(ItemSchema(id).value, v)| < U32_LIMIT
    ensures WitnessVerify(WitnessBuild(id, v), false) && WitnessVerify(WitnessBuild(id, v), true)
    ensures WitnessParse(WitnessBuild(id, v)) == (id, v)
  {
    SchemasWellFormed();
    var inner := Build(ItemSchema(id).value, v);
    NumberOfPack(id);
    NumberInside([], PackNumber(id), inner, 0);
    assert [] + PackNumber(id) + inner == WitnessBuild(id, v);
    assert WitnessBuild(id, v)[4..] == inner;
    BuildThenParse(ItemSchema(id).value, v);
  }

  /** An exactly accepted witness is rebuilt byte for byte from its variant and contents. */
  lemma WitnessParseThenBuild(b: Bytes)
    requires WitnessVerify(b, false)
    ensures WitnessVerify(b, true)
    ensures var (id, v) := WitnessParse(b);
            ItemSchema(id).Some? && Typed(ItemSchema(id).value, v) && WitnessBuild(id, v) == b
  {
    SchemasWellFormed();
    var s := ItemSchema(NumberAt(b, 0)).value;
    ExactIsCompatible(s, b[4..]);
    ParseThenBuild(s, b[4..]);
    PackOfNumberAt(b, 0);
  }

  // ---------- the generated loops ----------

  /** A table builder's `write`: one pass fixes the offsets, then header and fields go out in order. */
  method WriteTable(fields: seq<Bytes>) returns (out: Bytes)
    ensures out == Offsetted(fields)
  {
    var totalSize: nat := NUMBER_SIZE * (|fields| + 1);
    var offsets: seq<nat> := [];
    for i := 0 to |fields|
      invariant totalSize == PartStart(fields, i)
      invariant offsets == Starts(fields)[..i]
    {
      offsets := offsets + [totalSize];
      totalSize := totalSize + |fields[i]|;
    }
    assert offsets == Starts(fields);
    out := WriteNumbers(PackNumber(totalSize), offsets);
    out := WriteParts(out, fields);
  }

  method WriteNumbers(head: Bytes, ns: seq<nat>) returns (out: Bytes)
    ensures out == head + Numbers(ns)
  {
    out := head;
    for i := 0 to |ns|
      invariant out == head + Numbers(ns[..i])
    {
      assert ns[..i + 1][..i] == ns[..i];
      out := out + PackNumber(ns[i]);
    }
    assert ns[..|ns|] == ns;
  }

  method WriteParts(head: Bytes, parts: seq<Bytes>) returns (out: Bytes)
    ensures out == head + Flatten(parts)
  {
    out := head;
    for i := 0 to |parts|
      invariant out == head + Flatten(parts[..i])
    {
      assert parts[..i + 1][..i] == parts[..i];
      out := out + parts[i];
    }
    assert parts[..|parts|] == parts;
  }

  /** A dynamic vector builder's `write`: the empty vector is its size alone. */
  method WriteDynVec(items: seq<Bytes>) returns (out: Bytes)
    ensures out == if items == [] then PackNumber(NUMBER_SIZE) else Offsetted(items)
  {
    if |items| == 0 {
      out := PackNumber(NUMBER_SIZE);
    } else {
      out := WriteTable(items);
    }
  }

  /** The shared front of every offset-table reader: header checks, then the sorted offsets. */
  method ReadOffsets(b: Bytes) returns (r: Option<seq<nat>>)
    ensures r.Some? <==> OffsetsOk(b)
    ensures r.Some? ==> |r.value| == ItemCount(b) + 1 && forall i: nat | i < |r.value| :: r.value[i] == OffsetAt(b, i)
  {
    if |b| < NUMBER_SIZE || |b| != NumberAt(b, 0) || |b| < NUMBER_SIZE * 2 {
      return None;
    }
    var first := NumberAt(b, NUMBER_SIZE);
    if first % NUMBER_SIZE != 0 || first < NUMBER_SIZE * 2 || |b| < first {
      return None;
    }
    var offsets: seq<nat> := [];
    for i := 0 to first / 4 - 1
      invariant |offsets| == i
      invariant forall k: nat | k < i :: offsets[k] == OffsetAt(b, k)
    {
      offsets := offsets + [NumberAt(b, 4 * (i + 1))];
    }
    offsets := offsets + [|b|];
    for i := 0 to |offsets| - 1
      invariant forall k: nat | k < i :: OffsetAt(b, k) <= OffsetAt(b, k + 1)
    {
      if offsets[i] > offsets[i + 1] {
        assert OffsetAt(b, i) > OffsetAt(b, i + 1);
        return None;
      }
    }
    return Some(offsets);
  }

  /** The readers' `verify`, type by type as the schema directs. */
  method VerifyEntity(s: Schema, b: Bytes, compatible: bool) returns (ok: bool)
    ensures ok == Verify(s, b, compatible)
    decreases s
  {
    match s
    case Fixed(n) =>
      return |b| == n;
    case ByteVec =>
      return |b| >= NUMBER_SIZE && |b| == NUMBER_SIZE + NumberAt(b, 0);
    case DynVec(item) =>
      if |b| < NUMBER_SIZE || |b| != NumberAt(b, 0) {
        return false;
      }
      if |b| == NUMBER_SIZE {
        return true;
      }
      var offsets := ReadOffsets(b);
      if offsets.None? {
        return false;
      }
      for i := 0 to |offsets.value| - 1
        invariant forall k: nat | k < i :: Verify(item, Item(b, k), compatible)
      {
        OffsetsSorted(b, i + 1, ItemCount(b));
        assert b[offsets.value[i]..offsets.value[i + 1]] == Item(b, i);
        var itemOk := VerifyEntity(item, b[offsets.value[i]..offsets.value[i + 1]], compatible);
        if !itemOk {
          return false;
        }
      }
      return true;
    case Table(fields) =>
      var offsets := ReadOffsets(b);
      if offsets.None? {
        return false;
      }
      var fieldCount := |offsets.value| - 1;
      if fieldCount < |fields| || (!compatible && fieldCount > |fields|) {
        return false;
      }
      for i := 0 to |fields|
        invariant forall k: nat | k < i :: Verify(fields[k], Item(b, k), compatible)
      {
        OffsetsSorted(b, i + 1, ItemCount(b));
        assert b[offsets.value[i]..offsets.value[i + 1]] == Item(b, i);
        var fieldOk := VerifyEntity(fields[i], b[offsets.value[i]..offsets.value[i + 1]], compatible);
        if !fieldOk {
          return false;
        }
      }
      return true;
  }
}
