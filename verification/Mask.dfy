/** A mask has exactly one accepted encoding: `validate` and `get` on one side, bit vectors on the other. */
module Mask {
  import opened Base
  import opened View

  function PackByte(bits: seq<bool>): nat {
    if bits == [] then 0 else (if bits[0] then 1 else 0) + 2 * PackByte(bits[1..])
  }

  function PackChunk(bits: seq<bool>, j: nat): Byte
    requires 8 * j <= |bits|
  {
    PackByteBound(Chunk(bits, j));
    PackByte(Chunk(bits, j))
  }

  function PackBits(bits: seq<bool>): Bytes {
    seq((|bits| + 7) / 8, j requires 0 <= j < (|bits| + 7) / 8 => PackChunk(bits, j))
  }

  function Chunk(bits: seq<bool>, j: nat): (c: seq<bool>)
    requires 8 * j <= |bits|
    ensures |c| <= 8
  {
    bits[8 * j..if 8 * j + 8 <= |bits| then 8 * j + 8 else |bits|]
  }

  lemma {:induction false} PackByteBound(bits: seq<bool>)
    ensures PackByte(bits) < Pow2(|bits|)
    ensures |bits| <= 8 ==> PackByte(bits) < 256
  {
    if bits == [] {
    } else {
      PackByteBound(bits[1..]);
    }
    Pow2Monotone(|bits|, 8);
    assert Pow2(8) == 256 by { assert Pow2(4) == 16; }
  }

  lemma Pow2Monotone(m: nat, n: nat)
    ensures m <= n ==> Pow2(m) <= Pow2(n)
    decreases n
  {
    if m >= n {
    } else {
      Pow2Monotone(m, n - 1);
    }
  }

  lemma LowDigitAndRest(v: nat, digit: nat, rest: nat)
    requires v == digit + 2 * rest && digit < 2
    ensures v % 2 == digit && v / 2 == rest
  {}

  lemma {:induction false} PackByteBit(bits: seq<bool>, k: nat)
    requires k < |bits|
    ensures Bit(PackByte(bits), k) == bits[k]
    decreases k
  {
    LowDigitAndRest(PackByte(bits), if bits[0] then 1 else 0, PackByte(bits[1..]));
    if k == 0 {
      assert Bit(PackByte(bits), 0) == (PackByte(bits) % 2 == 1);
    } else {
      PackByteBit(bits[1..], k - 1);
      assert Bit(PackByte(bits), k) == Bit(PackByte(bits[1..]), k - 1);
    }
  }

  /** A number below 2^n is determined by its n low bits. */
  lemma {:induction false} BitsDetermine(v: nat, bits: seq<bool>)
    requires v < Pow2(|bits|)
    requires forall k: nat | k < |bits| :: Bit(v, k) == bits[k]
    ensures v == PackByte(bits)
    decreases |bits|
  {
    if bits == [] {
    } else {
      assert Bit(v, 0) == bits[0];
      forall k: nat | k < |bits| - 1 ensures Bit(v / 2, k) == bits[1..][k] {
        assert Bit(v, k + 1) == bits[k + 1];
      }
      BitsDetermine(v / 2, bits[1..]);
    }
  }

  /**
   * `validate(n)` together with reading every bit back singles out one byte string for each n-bit
   * vector: the packed one.
   */
  lemma MaskCanonical(m: MaskView, bits: seq<bool>)
    ensures (m.Valid(|bits|) && forall i: nat | i < |bits| :: m.Get(i) == Ok(bits[i]))
       <==> m.bytes == PackBits(bits)
  {
    if m.bytes == PackBits(bits) {
      PackedIsValid(bits);
      assert m == MaskView(PackBits(bits));
    } else if m.Valid(|bits|) && forall i: nat | i < |bits| :: m.Get(i) == Ok(bits[i]) {
      forall j: nat | j < |m.bytes| ensures m.bytes[j] == PackBits(bits)[j] {
        ByteDetermined(m, bits, j);
      }
    }
  }

  lemma PackedBit(bits: seq<bool>, j: nat, k: nat)
    requires k < 8 && 8 * j + k < |bits|
    ensures Bit(PackChunk(bits, j), k) == bits[8 * j + k]
  {
    assert Chunk(bits, j)[k] == bits[8 * j + k];
    PackByteBit(Chunk(bits, j), k);
  }

  lemma PackedIsValid(bits: seq<bool>)
    ensures MaskView(PackBits(bits)).Valid(|bits|)
    ensures forall i: nat | i < |bits| :: MaskView(PackBits(bits)).Get(i) == Ok(bits[i])
  {
    var m := MaskView(PackBits(bits));
    var last := |bits| / 8;
    if |bits| % 8 != 0 {
      PackByteBound(Chunk(bits, last));
      assert |m.bytes| - 1 == last && m.bytes[last] == PackChunk(bits, last);
    }
    forall i: nat | i < |bits| ensures m.Get(i) == Ok(bits[i]) {
      PackedBit(bits, i / 8, i % 8);
    }
  }

  lemma ByteDetermined(m: MaskView, bits: seq<bool>, j: nat)
    requires m.Valid(|bits|) && forall i: nat | i < |bits| :: m.Get(i) == Ok(bits[i])
    requires j < |m.bytes|
    ensures m.bytes[j] == PackBits(bits)[j]
  {
    var chunk := Chunk(bits, j);
    forall k: nat | k < |chunk| ensures Bit(m.bytes[j], k) == chunk[k] {
      assert m.Get(8 * j + k) == Ok(bits[8 * j + k]);
    }
    assert Pow2(8) == 256 by { assert Pow2(4) == 16; }
    BitsDetermine(m.bytes[j], chunk);
  }

  /** So `validate(n)` accepts exactly the packings of the n-bit vectors. */
  lemma ValidMasksArePackings(m: MaskView, n: nat)
    ensures m.Valid(n) <==> exists bits: seq<bool> :: |bits| == n && m.bytes == PackBits(bits)
  {
    if m.Valid(n) {
      var bits := seq(n, i requires 0 <= i < n => m.Get(i).value);
      MaskCanonical(m, bits);
    }
    if bits: seq<bool> :| |bits| == n && m.bytes == PackBits(bits) {
      MaskCanonical(m, bits);
    }
  }
}
