/**
 * The Molecule codec (RFC 0008, Serialization: Molecule) as the generated entity code implements it:
 * builders that print an offset table in front of the parts, and readers that verify one.  A schema
 * stands for one generated type; `Verify` is its reader's `verify`, `Build` its builder's `build`.
 */
module Molecule {
  import opened Base

  datatype Schema =
    | Fixed(size: nat)            // byte, arrays and structs
    | ByteVec                     // fixvec of bytes
    | DynVec(item: Schema)
    | Table(fields: seq<Schema>)

  datatype Value = Raw(bytes: Bytes) | Items(items: seq<Value>)

  /** Every table the generated code knows has at least one field. */
  predicate WellFormed(s: Schema) {
    match s
    case Fixed(_) => true
    case ByteVec => true
    case DynVec(item) => WellFormed(item)
    case Table(fields) => fields != [] && forall i | 0 <= i < |fields| :: WellFormed(fields[i])
  }

  /** The value has the shape its schema asks for. */
  predicate Typed(s: Schema, v: Value) {
    match s
    case Fixed(n) => v.Raw? && |v.bytes| == n
    case ByteVec => v.Raw?
    case DynVec(item) => v.Items? && forall i | 0 <= i < |v.items| :: Typed(item, v.items[i])
    case Table(fields) =>
      v.Items? && |v.items| == |fields| && forall i | 0 <= i < |fields| :: Typed(fields[i], v.items[i])
  }

  // ---------- printing ----------

  /** Where part `i` starts: the header, then every earlier part. */
  function PartStart(parts: seq<Bytes>, i: nat): nat
    requires i <= |parts|
  {
    if i == 0 then NUMBER_SIZE * (|parts| + 1) else PartStart(parts, i - 1) + |parts[i - 1]|
  }

  function Numbers(ns: seq<nat>): (b: Bytes)
    ensures |b| == 4 * |ns|
  {
    if ns == [] then [] else Numbers(ns[..|ns| - 1]) + PackNumber(ns[|ns| - 1])
  }

  function Starts(parts: seq<Bytes>): seq<nat> {
    seq(|parts|, i requires 0 <= i < |parts| => PartStart(parts, i))
  }

  /** Total size, one offset per part, then the parts. */
  function Offsetted(parts: seq<Bytes>): Bytes {
    PackNumber(PartStart(parts, |parts|)) + Numbers(Starts(parts)) + Flatten(parts)
  }

  function Build(s: Schema, v: Value): Bytes
    requires Typed(s, v)
    decreases s
  {
    match s
    case Fixed(_) => v.bytes
    case ByteVec => PackNumber(|v.bytes|) + v.bytes
    case DynVec(item) =>
      if v.items == [] then PackNumber(NUMBER_SIZE)
      else Offsetted(seq(|v.items|, i requires 0 <= i < |v.items| => Build(item, v.items[i])))
    case Table(fields) =>
      Offsetted(seq(|fields|, i requires 0 <= i < |fields| => Build(fields[i], v.items[i])))
  }

  // ---------- reading ----------

  function ItemCount(b: Bytes): int
    requires |b| >= 8
  {
    NumberAt(b, 4) / 4 - 1
  }

  /** The offset of item `i`; one past the last item it is the total size. */
  function OffsetAt(b: Bytes, i: nat): nat
    requires |b| >= 8 && NumberAt(b, 4) <= |b| && i <= ItemCount(b)
  {
    if i == ItemCount(b) then |b| else NumberAt(b, 4 * (i + 1))
  }

  /** The checks every offset-table reader makes before it looks at an item. */
  predicate OffsetsOk(b: Bytes) {
    && |b| >= 8
    && NumberAt(b, 0) == |b|
    && NumberAt(b, 4) % 4 == 0
    && 8 <= NumberAt(b, 4) <= |b|
    && forall i: nat | i < ItemCount(b) :: OffsetAt(b, i) <= OffsetAt(b, i + 1)
  }

  lemma OffsetsSorted(b: Bytes, i: nat, j: nat)
    requires OffsetsOk(b) && i <= j <= ItemCount(b)
    ensures OffsetAt(b, i) <= OffsetAt(b, j)
    decreases j - i
  {
    if i == j {
    } else {
      OffsetsSorted(b, i + 1, j);
    }
  }

  function Item(b: Bytes, i: nat): Bytes
    requires OffsetsOk(b) && i < ItemCount(b)
  {
    OffsetsSorted(b, i + 1, ItemCount(b));
    b[OffsetAt(b, i)..OffsetAt(b, i + 1)]
  }

  function ItemsOf(b: Bytes): (items: seq<Bytes>)
    requires OffsetsOk(b)
    ensures |items| == ItemCount(b)
  {
    seq(ItemCount(b), i requires 0 <= i < ItemCount(b) => Item(b, i))
  }

  predicate Verify(s: Schema, b: Bytes, compatible: bool)
    decreases s
  {
    match s
    case Fixed(n) => |b| == n
    case ByteVec => |b| >= 4 && |b| == 4 + NumberAt(b, 0)
    case DynVec(item) =>
      && |b| >= 4
      && NumberAt(b, 0) == |b|
      && (|b| == 4
          || (OffsetsOk(b) && forall i: nat | i < ItemCount(b) :: Verify(item, Item(b, i), compatible)))
    case Table(fields) =>
      && OffsetsOk(b)
      && |fields| <= ItemCount(b)
      && (compatible || |fields| == ItemCount(b))
      && forall i: nat | i < |fields| :: Verify(fields[i], Item(b, i), compatible)
  }

  /** The accessors of every field or item, read all the way down. */
  function Parse(s: Schema, b: Bytes): Value
    requires Verify(s, b, true)
    decreases s
  {
    match s
    case Fixed(_) => Raw(b)
    case ByteVec => Raw(b[4..])
    case DynVec(item) =>
      if |b| == 4 then Items([])
      else Items(seq(ItemCount(b), i requires 0 <= i < ItemCount(b) => Parse(item, Item(b, i))))
    case Table(fields) =>
      Items(seq(|fields|, i requires 0 <= i < |fields| => Parse(fields[i], Item(b, i))))
  }

  // ---------- one level: an offset table splits back into its parts ----------

  lemma {:induction false} NumbersAt(ns: seq<nat>, i: nat)
    requires i < |ns| && ns[i] < U32_LIMIT
    ensures NumberAt(Numbers(ns), 4 * i) == ns[i]
  {
    var last := |ns| - 1;
    var init := Numbers(ns[..last]);
    if i < last {
      NumbersAt(ns[..last], i);
      NumberInside([], init, PackNumber(ns[last]), 4 * i);
      assert [] + init + PackNumber(ns[last]) == Numbers(ns);
    } else {
      NumberOfPack(ns[last]);
      NumberInside(init, PackNumber(ns[last]), [], 0);
      assert init + PackNumber(ns[last]) + [] == Numbers(ns);
    }
  }

  lemma {:induction false} PartStartMonotone(parts: seq<Bytes>, i: nat, j: nat)
    requires i <= j <= |parts|
    ensures PartStart(parts, i) <= PartStart(parts, j)
  {
    if i == j {
    } else {
      PartStartMonotone(parts, i, j - 1);
    }
  }

  lemma {:induction false} FlattenPrefix(parts: seq<Bytes>, i: nat)
    requires i <= |parts|
    ensures |Flatten(parts[..i])| == PartStart(parts, i) - PartStart(parts, 0)
    ensures Flatten(parts[..i]) <= Flatten(parts)
    decreases |parts| - i
  {
    FlattenLength(parts, i);
    if i == |parts| {
      assert parts[..i] == parts;
    } else {
      FlattenPrefix(parts, i + 1);
      assert parts[..i + 1][..i] == parts[..i];
      assert Flatten(parts[..i + 1]) == Flatten(parts[..i]) + parts[i];
    }
  }

  lemma {:induction false} FlattenLength(parts: seq<Bytes>, i: nat)
    requires i <= |parts|
    ensures |Flatten(parts[..i])| == PartStart(parts, i) - PartStart(parts, 0)
  {
    if i == 0 {
    } else {
      FlattenLength(parts, i - 1);
      assert parts[..i][..i - 1] == parts[..i - 1];
    }
  }

  lemma FlattenPart(parts: seq<Bytes>, i: nat)
    requires i < |parts|
    ensures PartStart(parts, i + 1) - PartStart(parts, 0) <= |Flatten(parts)|
    ensures PartStart(parts, 0) <= PartStart(parts, i) <= PartStart(parts, i + 1)
    ensures Flatten(parts)[PartStart(parts, i) - PartStart(parts, 0)..PartStart(parts, i + 1) - PartStart(parts, 0)]
            == parts[i]
  {
    FlattenPrefix(parts, i);
    FlattenPrefix(parts, i + 1);
    assert parts[..i + 1][..i] == parts[..i];
    PartStartMonotone(parts, 0, i);
    assert Flatten(parts[..i + 1]) == Flatten(parts[..i]) + parts[i];
  }

  lemma OffsettedLength(parts: seq<Bytes>)
    ensures |Offsetted(parts)| == PartStart(parts, |parts|)
  {
    FlattenLength(parts, |parts|);
    assert parts[..|parts|] == parts;
  }

  lemma PrintedOffset(parts: seq<Bytes>, i: nat)
    requires i < |parts| && |Offsetted(parts)| < U32_LIMIT
    ensures NumberAt(Offsetted(parts), 4 * (i + 1)) == PartStart(parts, i)
  {
    OffsettedLength(parts);
    PartStartMonotone(parts, i, |parts|);
    NumbersAt(Starts(parts), i);
    NumberInside(PackNumber(PartStart(parts, |parts|)), Numbers(Starts(parts)), Flatten(parts), 4 * i);
  }

  lemma OffsettedHeader(parts: seq<Bytes>)
    requires parts != [] && |Offsetted(parts)| < U32_LIMIT
    ensures var b := Offsetted(parts);
            && |b| >= 8
            && NumberAt(b, 0) == |b|
            && NumberAt(b, 4) == 4 * (|parts| + 1) <= |b|
            && forall i: nat | i <= |parts| :: OffsetAt(b, i) == PartStart(parts, i)
  {
    var b := Offsetted(parts);
    OffsettedLength(parts);
    var size := PackNumber(PartStart(parts, |parts|));
    var offsets := Numbers(Starts(parts));
    NumberOfPack(|b|);
    NumberInside([], size, offsets + Flatten(parts), 0);
    assert [] + size + (offsets + Flatten(parts)) == b;
    PartStartMonotone(parts, 0, |parts|);
    forall i: nat | i < |parts| ensures NumberAt(b, 4 * (i + 1)) == PartStart(parts, i) {
      PrintedOffset(parts, i);
    }
    assert NumberAt(b, 4 * (0 + 1)) == PartStart(parts, 0);
  }

  lemma OffsettedItem(parts: seq<Bytes>, i: nat)
    requires i < |parts| && |Offsetted(parts)| < U32_LIMIT
    requires OffsetsOk(Offsetted(parts)) && ItemCount(Offsetted(parts)) == |parts|
    ensures Item(Offsetted(parts), i) == parts[i]
  {
    var b := Offsetted(parts);
    OffsettedHeader(parts);
    FlattenPart(parts, i);
    var head := PackNumber(PartStart(parts, |parts|)) + Numbers(Starts(parts));
    var h := PartStart(parts, 0);
    SliceAfter(head, Flatten(parts), PartStart(parts, i) - h, PartStart(parts, i + 1) - h);
  }

  /** Splitting what was printed gives back exactly the parts. */
  lemma SplitOffsetted(parts: seq<Bytes>)
    requires parts != [] && |Offsetted(parts)| < U32_LIMIT
    ensures OffsetsOk(Offsetted(parts))
    ensures ItemCount(Offsetted(parts)) == |parts|
    ensures forall i: nat | i < |parts| :: Item(Offsetted(parts), i) == parts[i]
    ensures ItemsOf(Offsetted(parts)) == parts
  {
    var b := Offsetted(parts);
    OffsettedHeader(parts);
    forall i: nat | i < |parts| ensures OffsetAt(b, i) <= OffsetAt(b, i + 1) {}
    forall i: nat | i < |parts| ensures Item(b, i) == parts[i] {
      OffsettedItem(parts, i);
    }
  }

  lemma {:induction false} ItemStarts(b: Bytes, i: nat)
    requires OffsetsOk(b) && i <= ItemCount(b)
    ensures PartStart(ItemsOf(b), i) == OffsetAt(b, i)
    ensures NumberAt(b, 4) <= OffsetAt(b, i) <= |b|
    ensures Flatten(ItemsOf(b)[..i]) == b[NumberAt(b, 4)..OffsetAt(b, i)]
  {
    OffsetsSorted(b, 0, i);
    OffsetsSorted(b, i, ItemCount(b));
    if i == 0 {
    } else {
      OffsetsSorted(b, 0, i - 1);
      ItemStarts(b, i - 1);
      assert ItemsOf(b)[..i][..i - 1] == ItemsOf(b)[..i - 1];
    }
  }

  lemma {:induction false} HeaderNumbers(b: Bytes, i: nat)
    requires OffsetsOk(b) && i <= ItemCount(b)
    ensures Numbers(Starts(ItemsOf(b))[..i]) == b[4..4 * (i + 1)]
  {
    if i == 0 {
    } else {
      HeaderNumbers(b, i - 1);
      ItemStarts(b, i - 1);
      var starts := Starts(ItemsOf(b));
      assert starts[..i][..i - 1] == starts[..i - 1];
      assert PackNumber(starts[i - 1]) == b[4 * i..4 * i + 4] by {
        PackOfNumberAt(b, 4 * i);
      }
      SliceJoin(b, 4, 4 * i, 4 * i + 4);
    }
  }

  /** Printing what was split gives back exactly the bytes: an accepted offset table is canonical. */
  lemma JoinItems(b: Bytes)
    requires OffsetsOk(b)
    ensures Offsetted(ItemsOf(b)) == b
  {
    var items := ItemsOf(b);
    var n := ItemCount(b);
    assert items[..n] == items && Starts(items)[..n] == Starts(items);
    assert Flatten(items) == b[NumberAt(b, 4)..] && PartStart(items, n) == |b| by {
      ItemStarts(b, n);
    }
    assert Numbers(Starts(items)) == b[4..NumberAt(b, 4)] by {
      HeaderNumbers(b, n);
    }
    assert PackNumber(|b|) == b[0..4] by {
      PackOfNumberAt(b, 0);
    }
    assert b == b[0..4] + b[4..NumberAt(b, 4)] + b[NumberAt(b, 4)..];
  }

  // ---------- every level: the two round trips ----------

  lemma PartFits(parts: seq<Bytes>, i: nat)
    requires i < |parts|
    ensures |parts[i]| <= |Offsetted(parts)|
  {
    OffsettedLength(parts);
    PartStartMonotone(parts, i + 1, |parts|);
  }

  predicate ReadsAs(s: Schema, b: Bytes, v: Value) {
    Verify(s, b, false) && Verify(s, b, true) && Parse(s, b) == v
  }

  lemma VecReads(item: Schema, b: Bytes, vs: seq<Value>)
    requires OffsetsOk(b) && ItemCount(b) == |vs|
    requires forall i: nat | i < |vs| :: ReadsAs(item, Item(b, i), vs[i])
    ensures ReadsAs(DynVec(item), b, Items(vs))
  {}

  lemma TableReads(fields: seq<Schema>, b: Bytes, vs: seq<Value>)
    requires OffsetsOk(b) && ItemCount(b) == |vs| == |fields|
    requires forall i: nat | i < |vs| :: ReadsAs(fields[i], Item(b, i), vs[i])
    ensures ReadsAs(Table(fields), b, Items(vs))
  {}

  lemma PrintedVec(item: Schema, parts: seq<Bytes>, vs: seq<Value>)
    requires parts != [] && |vs| == |parts| && |Offsetted(parts)| < U32_LIMIT
    requires forall i: nat | i < |parts| :: ReadsAs(item, parts[i], vs[i])
    ensures ReadsAs(DynVec(item), Offsetted(parts), Items(vs))
  {
    SplitOffsetted(parts);
    VecReads(item, Offsetted(parts), vs);
  }

  lemma PrintedTable(fields: seq<Schema>, parts: seq<Bytes>, vs: seq<Value>)
    requires parts != [] && |fields| == |vs| == |parts| && |Offsetted(parts)| < U32_LIMIT
    requires forall i: nat | i < |parts| :: ReadsAs(fields[i], parts[i], vs[i])
    ensures ReadsAs(Table(fields), Offsetted(parts), Items(vs))
  {
    SplitOffsetted(parts);
    TableReads(fields, Offsetted(parts), vs);
  }

  /**
   * What a builder prints, its reader accepts, and the accessors return the fields that went in,
   * provided the total size fits the u32 header.
   */
  lemma {:induction false} BuildThenParse(s: Schema, v: Value)
    requires WellFormed(s) && Typed(s, v) && |Build(s, v)| < U32_LIMIT
    ensures ReadsAs(s, Build(s, v), v)
    decreases s
  {
    match s
    case Fixed(_) =>
    case ByteVec =>
      NumberOfPack(|v.bytes|);
      NumberInside([], PackNumber(|v.bytes|), v.bytes, 0);
      assert [] + PackNumber(|v.bytes|) + v.bytes == Build(s, v);
    case DynVec(item) =>
      if v.items == [] {
        NumberOfPack(NUMBER_SIZE);
      } else {
        var parts := seq(|v.items|, i requires 0 <= i < |v.items| => Build(item, v.items[i]));
        forall i: nat | i < |parts| ensures ReadsAs(item, parts[i], v.items[i]) {
          PartFits(parts, i);
          BuildThenParse(item, v.items[i]);
        }
        PrintedVec(item, parts, v.items);
      }
    case Table(fields) =>
      var parts := seq(|fields|, i requires 0 <= i < |fields| => Build(fields[i], v.items[i]));
      forall i: nat | i < |parts| ensures ReadsAs(fields[i], parts[i], v.items[i]) {
        PartFits(parts, i);
        BuildThenParse(fields[i], v.items[i]);
      }
      PrintedTable(fields, parts, v.items);
  }

  /** Whatever a reader accepts exactly, it also accepts in compatible mode. */
  lemma {:induction false} ExactIsCompatible(s: Schema, b: Bytes)
    requires Verify(s, b, false)
    ensures Verify(s, b, true)
    decreases s
  {
    match s
    case Fixed(_) =>
    case ByteVec =>
    case DynVec(item) =>
      if |b| == 4 {
      } else {
        forall i: nat | i < ItemCount(b) ensures Verify(item, Item(b, i), true) {
          ExactIsCompatible(item, Item(b, i));
        }
      }
    case Table(fields) =>
      forall i: nat | i < |fields| ensures Verify(fields[i], Item(b, i), true) {
        ExactIsCompatible(fields[i], Item(b, i));
      }
  }

  /** Rebuilding what a reader accepted exactly gives back the same bytes. */
  lemma {:induction false} ParseThenBuild(s: Schema, b: Bytes)
    requires WellFormed(s) && Verify(s, b, false) && Verify(s, b, true)
    ensures Typed(s, Parse(s, b))
    ensures Build(s, Parse(s, b)) == b
    decreases s
  {
    var v := Parse(s, b);
    match s
    case Fixed(_) =>
    case ByteVec =>
      PackOfNumberAt(b, 0);
    case DynVec(item) =>
      if |b| == 4 {
        PackOfNumberAt(b, 0);
      } else {
        forall i: nat | i < ItemCount(b)
          ensures Typed(item, v.items[i]) && Build(item, v.items[i]) == Item(b, i)
        {
          ParseThenBuild(item, Item(b, i));
        }
        assert ItemsOf(b) == seq(|v.items|, i requires 0 <= i < |v.items| => Build(item, v.items[i]));
        JoinItems(b);
      }
    case Table(fields) =>
      forall i: nat | i < |fields|
        ensures Typed(fields[i], v.items[i]) && Build(fields[i], v.items[i]) == Item(b, i)
      {
        ParseThenBuild(fields[i], Item(b, i));
      }
      assert ItemsOf(b) == seq(|fields|, i requires 0 <= i < |fields| => Build(fields[i], v.items[i]));
      JoinItems(b);
  }

  /** The exact reader accepts precisely the images of the builder below 2^32 bytes. */
  lemma VerifyIsImageOfBuild(s: Schema, b: Bytes)
    requires WellFormed(s) && |b| < U32_LIMIT
    ensures Verify(s, b, false) <==> exists v :: Typed(s, v) && Build(s, v) == b
  {
    if Verify(s, b, false) {
      ExactIsCompatible(s, b);
      ParseThenBuild(s, b);
    }
    if v :| Typed(s, v) && Build(s, v) == b {
      BuildThenParse(s, v);
    }
  }
}
