/**
 * Why segment preimages need the bound on inputs: at 2^24 of them the last byte of the count reads as the flags of a
 * first segment, and an own-only segment passes for one that covers another.
 */
module SegmentTwin {
  import opened Base
  import opened View
  import opened Transaction
  import opened Preimage
  import opened Scope
  import opened Injective
  import opened Bound

  // ---------- the own-only scope ----------

  /** 36 bytes that start a self-delimiting string of 40. */
  function Point(): Bytes { PackNumber(40) + Zeros(32) }

  /** Its `since` and out-point read as an output count, an output index and the front of an output. */
  function FirstInput(length: nat): SegmentInput {
    SegmentInput(PackNumber(1) + PackNumber(0) + Point(), ResolvedCell(PackNumber(8) + PackNumber(length), []))
  }

  const PLAIN_INPUT: SegmentInput := SegmentInput(Zeros(44), ResolvedCell(PackNumber(4), []))

  /** Its data reads as two empty dep lists, a flags byte and an empty input list. */
  const LAST_INPUT: SegmentInput :=
    SegmentInput(Zeros(44), ResolvedCell(PackNumber(4), PackNumber(0) + PackNumber(0) + [2] + PackNumber(0)))

  function ManyInputs(n: nat, length: nat): (xs: seq<SegmentInput>)
    ensures |xs| == n + 2
  {
    [FirstInput(length)] + seq(n, i requires 0 <= i < n => PLAIN_INPUT) + [LAST_INPUT]
  }

  function MiddleParts(n: nat): seq<Bytes> {
    seq(n, i requires 0 <= i < n => EncodeSegmentInput(PLAIN_INPUT, i + 1))
  }

  function LastHead(n: nat): Bytes { PackNumber(n + 1) + Zeros(44) + PackNumber(4) + PackNumber(13) }

  /** What the covering scope reads as the data of its output. */
  function Swallowed(n: nat): Bytes { PackNumber(0) + Flatten(MiddleParts(n)) + LastHead(n) }

  function TwinInputs(n: nat): seq<SegmentInput> { ManyInputs(n, |Swallowed(n)|) }

  function OwnOnly(hash: Hash32, xs: seq<SegmentInput>): AppendScope {
    AppendScope(hash, None, SegmentScope(1, xs, [], [], []))
  }

  function OwnOnlyTwin(hash: Hash32, n: nat): AppendScope { OwnOnly(hash, TwinInputs(n)) }

  // ---------- the covering scope ----------

  function ReadOutput(n: nat): SegmentOutput { SegmentOutput(Point() + PackNumber(8), Swallowed(n)) }

  function CoveringTwin(hash: Hash32, n: nat): AppendScope {
    AppendScope(hash, Some([SegmentScope(1, [], [ReadOutput(n)], [], [])]), SegmentScope(2, [], [], [], []))
  }

  // ---------- both are valid ----------

  lemma {:induction false} PlainLength(ps: seq<Bytes>)
    requires forall i: nat | i < |ps| :: |ps[i]| == 56
    ensures |Flatten(ps)| == 56 * |ps|
  {
    if ps == [] {
    } else {
      var n := |ps| - 1;
      PlainLength(ps[..n]);
      assert Flatten(ps) == Flatten(ps[..n]) + ps[n];
    }
  }

  lemma SwallowedLength(n: nat)
    ensures |Swallowed(n)| == 60 + 56 * n
  {
    PlainLength(MiddleParts(n));
  }

  lemma PackedDelimits(n: nat, rest: Bytes)
    requires n < U32_LIMIT && n == 4 + |rest|
    ensures SelfDelimiting(PackNumber(n) + rest)
  {
    NumberOfPack(n);
    NumberInside([], PackNumber(n), rest, 0);
    assert [] + PackNumber(n) + rest == PackNumber(n) + rest;
  }

  lemma OwnOnlyValid(hash: Hash32, n: nat)
    requires 60 + 56 * n < U32_LIMIT
    ensures ValidAppend(OwnOnlyTwin(hash, n))
  {
    SwallowedLength(n);
    PackedDelimits(8, PackNumber(|Swallowed(n)|));
    PackedDelimits(4, []);
    assert PackNumber(4) + [] == PackNumber(4);
    var xs := ManyInputs(n, |Swallowed(n)|);
    forall i: nat | i < |xs|
      ensures |xs[i].raw| == 44 && SelfDelimiting(xs[i].cell.output) && Fits(|xs[i].cell.data|)
    {
      assert xs[i] == FirstInput(|Swallowed(n)|) || xs[i] == PLAIN_INPUT || xs[i] == LAST_INPUT;
    }
  }

  lemma CoveringValid(hash: Hash32, n: nat)
    requires 60 + 56 * n < U32_LIMIT
    ensures ValidAppend(CoveringTwin(hash, n))
  {
    SwallowedLength(n);
    PackedDelimits(40, Zeros(32) + PackNumber(8));
    assert Point() + PackNumber(8) == PackNumber(40) + (Zeros(32) + PackNumber(8));
  }

  lemma TwinsFlagged(hash: Hash32, n: nat)
    ensures Flagged(OwnOnlyTwin(hash, n)) && Flagged(CoveringTwin(hash, n))
  {
    assert !Bit(1, 1) && Bit(1, 0) && Bit(2, 1);
  }

  // ---------- both encode the same ----------

  lemma ManyInputParts(n: nat, length: nat)
    ensures Flatten(SegmentInputParts(ManyInputs(n, length)))
         == EncodeSegmentInput(FirstInput(length), 0) + Flatten(MiddleParts(n)) + EncodeSegmentInput(LAST_INPUT, n + 1)
  {
    var parts: seq<Bytes> := SegmentInputParts(ManyInputs(n, length));
    assert parts[..n + 1][..1] == [EncodeSegmentInput(FirstInput(length), 0)];
    assert parts[..n + 1][1..] == MiddleParts(n);
    FlattenSplit(parts[..n + 1], 1);
    FlattenOne(EncodeSegmentInput(FirstInput(length), 0));
  }

  lemma CountBytes()
    ensures PackNumber(0) == [0, 0, 0, 0] && PackNumber(1) == [1, 0, 0, 0] && PackNumber(SMALL) == [0, 0, 0, 1]
  {
    PackSmall(0);
    PackSmall(1);
    assert Digits(SMALL, 4) == [0] + Digits(0x1_0000, 3);
    assert Digits(0x1_0000, 3) == [0] + Digits(0x100, 2);
    assert Digits(0x100, 2) == [0] + Digits(1, 1);
    assert Digits(1, 1) == [1];
  }

  /** The bytes of both: base hash, five bytes read in two ways, the output, its data, and what follows it. */
  function TwinBytes(hash: Hash32, five: Bytes, n: nat): Bytes {
    Joined(hash, five, PackNumber(0), ReadHead(), PackNumber(|Swallowed(n)|), Swallowed(n), ReadTail())
  }

  function Joined(hash: Hash32, five: Bytes, z: Bytes, head: Bytes, size: Bytes, data: Bytes, tail: Bytes): Bytes {
    hash + five + z + head + size + data + tail + (z + (z + z))
  }

  /** The encoding of an own-only segment with flags 1 and inputs alone. */
  function Around(hash: Hash32, count: Bytes, items: Bytes, z: Bytes): Bytes {
    hash + [] + ([1] + (count + items + z) + (z + z))
  }

  function ReadHead(): Bytes { PackNumber(1) + PackNumber(0) + (Point() + PackNumber(8)) }

  function ReadTail(): Bytes { PackNumber(0) + PackNumber(0) + [2] + PackNumber(0) }

  lemma FirstInputBytes(length: nat)
    ensures EncodeSegmentInput(FirstInput(length), 0) == PackNumber(0) + ReadHead() + PackNumber(length) + PackNumber(0)
  {
    SplitHead(PackNumber(0), PackNumber(1), PackNumber(0), Point(), PackNumber(8), PackNumber(length));
    assert Prefixed([]) == PackNumber(0);
  }

  lemma SplitHead(i: Bytes, a: Bytes, b: Bytes, c: Bytes, d: Bytes, e: Bytes)
    ensures i + (a + b + c) + (d + e) == i + (a + b + (c + d)) + e
  {}

  lemma LastInputBytes(n: nat)
    ensures EncodeSegmentInput(LAST_INPUT, n + 1) == LastHead(n) + ReadTail()
  {
    var data := LAST_INPUT.cell.data;
    assert data == ReadTail() && |data| == 13;
    Reassociated(PackNumber(n + 1) + Zeros(44) + PackNumber(4), PackNumber(13), data);
  }

  lemma NoItems()
    ensures List([]) == PackNumber(0)
  {
    assert Flatten<nat>([]) == [];
  }

  lemma OwnOnlyEncoded(hash: Hash32, xs: seq<SegmentInput>)
    ensures EncodeAppend(OwnOnly(hash, xs))
         == Around(hash, PackNumber(|xs|), Flatten(SegmentInputParts(xs)), PackNumber(0))
  {
    NoItems();
    assert SegmentOutputParts([]) == [] && IndexedParts([]) == [];
  }

  lemma ManyInputBytes(n: nat, length: nat)
    ensures Flatten(SegmentInputParts(ManyInputs(n, length)))
         == (PackNumber(0) + ReadHead() + PackNumber(length) + PackNumber(0)) + Flatten(MiddleParts(n))
            + (LastHead(n) + ReadTail())
  {
    ManyInputParts(n, length);
    FirstInputBytes(length);
    LastInputBytes(n);
  }

  function Items(n: nat): Bytes { Flatten(SegmentInputParts(TwinInputs(n))) }

  lemma AroundItemsIsTwin(hash: Hash32, count: Bytes, n: nat)
    ensures Around(hash, count, Items(n), PackNumber(0)) == TwinBytes(hash, [1] + count, n)
  {
    ManyInputBytes(n, |Swallowed(n)|);
    JoinOwnOnly(hash, count, Items(n), PackNumber(0), ReadHead(), PackNumber(|Swallowed(n)|),
                Flatten(MiddleParts(n)), LastHead(n), ReadTail());
  }

  lemma OwnOnlyBytes(hash: Hash32, n: nat)
    ensures EncodeAppend(OwnOnlyTwin(hash, n)) == TwinBytes(hash, [1] + PackNumber(n + 2), n)
  {
    OwnOnlyEncoded(hash, TwinInputs(n));
    AroundItemsIsTwin(hash, PackNumber(n + 2), n);
  }

  lemma JoinOwnOnly(hash: Hash32, count: Bytes, items: Bytes, z: Bytes, head: Bytes, size: Bytes, mid: Bytes,
                    last: Bytes, tail: Bytes)
    requires items == (z + head + size + z) + mid + (last + tail)
    ensures Around(hash, count, items, z) == Joined(hash, [1] + count, z, head, size, z + mid + last, tail)
  {
    SwallowedAt(z + head + size, z, mid, last, tail);
    assert hash + [] == hash;
    AroundItems(hash, [1], count, items, z);
    JoinItems(hash + ([1] + count), z, head, size, z + mid + last, tail);
  }

  lemma AroundItems(hash: Bytes, flags: Bytes, count: Bytes, items: Bytes, z: Bytes)
    ensures hash + (flags + (count + items + z) + (z + z)) == hash + (flags + count) + items + (z + (z + z))
  {}

  lemma SwallowedAt(a: Bytes, z: Bytes, mid: Bytes, last: Bytes, tail: Bytes)
    ensures (a + z) + mid + (last + tail) == a + (z + mid + last) + tail
  {}

  lemma JoinItems(a: Bytes, z: Bytes, head: Bytes, size: Bytes, data: Bytes, tail: Bytes)
    ensures a + ((z + head + size) + data + tail) == a + z + head + size + data + tail
  {}

  lemma CoveringBytes(hash: Hash32, n: nat)
    ensures EncodeAppend(CoveringTwin(hash, n)) == TwinBytes(hash, PackNumber(1) + [1], n)
  {
    var z, own, first := PackNumber(0), CoveringTwin(hash, n).own, CoveringTwin(hash, n).previous.value[0];
    NoItems();
    assert SegmentInputParts([]) == [] && SegmentOutputParts([]) == [] && IndexedParts([]) == [];
    OneItem(EncodeSegmentOutput(ReadOutput(n), 0));
    assert SegmentOutputParts([ReadOutput(n)]) == [EncodeSegmentOutput(ReadOutput(n), 0)];
    assert EncodeSegment(own) == [2] + (z + z) + (z + z);
    OneItem(EncodeSegment(first));
    assert SegmentParts([first]) == [EncodeSegment(first)];
    JoinCovering(hash, PackNumber(1), z, Point() + PackNumber(8), PackNumber(|Swallowed(n)|), Swallowed(n));
  }

  lemma OneItem(b: Bytes)
    ensures List([b]) == PackNumber(1) + b
  {
    FlattenOne(b);
  }

  lemma JoinCovering(hash: Hash32, one: Bytes, z: Bytes, raw: Bytes, size: Bytes, data: Bytes)
    ensures hash + (one + ([1] + (z + (one + (z + raw + (size + data)))) + (z + z))) + ([2] + (z + z) + (z + z))
         == Joined(hash, one + [1], z, one + z + raw, size, data, z + z + [2] + z)
  {
    assert one + (z + raw + (size + data)) == (one + z + raw) + size + data;
    assert hash + (one + ([1] + (z + ((one + z + raw) + size + data)) + (z + z)))
        == hash + (one + [1]) + z + (one + z + raw) + size + data + (z + z);
    assert [2] + (z + z) + (z + z) == [2] + z + (z + (z + z));
    JoinTail(hash + (one + [1]) + z + (one + z + raw) + size + data, z + z, [2] + z, z + (z + z));
    assert z + z + ([2] + z) == z + z + [2] + z;
  }

  lemma JoinTail(a: Bytes, b: Bytes, c: Bytes, d: Bytes)
    ensures (a + b) + (c + d) == a + (b + c) + d
  {}

  lemma TwinsEncodeTheSame(hash: Hash32, n: nat)
    requires n + 2 == SMALL
    ensures EncodeAppend(OwnOnlyTwin(hash, n)) == EncodeAppend(CoveringTwin(hash, n))
  {
    FlagReadAsCount(n);
    OwnOnlyBytes(hash, n);
    CoveringBytes(hash, n);
  }

  lemma FlagReadAsCount(n: nat)
    requires n + 2 == SMALL
    ensures [1] + PackNumber(n + 2) == PackNumber(1) + [1]
  {
    CountBytes();
    assert [1] + [0, 0, 0, 1] == [1, 0, 0, 0] + [1];
  }

  /** The bound of `AppendInjectiveOutright` is sharp: these two, one with 2^24 inputs, have one encoding. */
  lemma BoundIsSharp(hash: Hash32)
    ensures var a, b := OwnOnlyTwin(hash, SMALL - 2), CoveringTwin(hash, SMALL - 2);
            && ValidAppend(a) && ValidAppend(b) && Flagged(a) && Flagged(b)
            && |a.own.inputs| == SMALL && |b.own.inputs| == 0
            && EncodeAppend(a) == EncodeAppend(b) && a != b
  {
    var n := SMALL - 2;
    OwnOnlyValid(hash, n);
    CoveringValid(hash, n);
    TwinsFlagged(hash, n);
    TwinsEncodeTheSame(hash, n);
  }
}
