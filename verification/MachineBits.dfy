/** The source's masks and shifts on bytes: what the digit arithmetic of the views stands for. */
module MachineBits {
  import opened Base
  import opened View

  /** `raw & (1 << k) != 0` */
  predicate TestsBit(b: bv8, k: nat)
    requires k < 8
  {
    b & (1 << k) != 0
  }

  /** `raw & !((1 << k) - 1) == 0` */
  predicate InsideMask(b: bv8, k: nat)
    requires k < 8
  {
    b & !((1 << k) - 1) == 0
  }

  // ---------- one digit at a time ----------

  lemma Half(b: bv8)
    ensures (b >> 1) as nat == b as nat / 2
    ensures b & 1 != 0 <==> b as nat % 2 == 1
  {}

  lemma Doubled(b: bv8, digit: bv8)
    requires b as nat < 128 && digit < 2
    ensures ((b << 1) | digit) as nat == 2 * b as nat + digit as nat
  {}

  lemma Shifted(b: bv8, k: nat)
    requires 0 < k < 8
    ensures TestsBit(b >> 1, k - 1) <==> TestsBit(b, k)
    ensures InsideMask(b >> 1, k - 1) <==> InsideMask(b, k)
  {}

  lemma NoBits(b: bv8)
    ensures b as nat < 1 <==> InsideMask(b, 0)
  {}

  lemma HalfBound(v: nat, k: nat)
    requires k > 0
    ensures v < Pow2(k) <==> v / 2 < Pow2(k - 1)
  {}

  /** The machine byte with this value. */
  function Machine(raw: nat): (b: bv8)
    requires raw < 256
    ensures b as nat == raw
  {
    if raw == 0 then 0
    else
      var digit: bv8 := if raw % 2 == 1 then 1 else 0;
      Doubled(Machine(raw / 2), digit);
      (Machine(raw / 2) << 1) | digit
  }

  lemma {:induction false} BitOfVector(b: bv8, k: nat)
    requires k < 8
    ensures Bit(b as nat, k) <==> TestsBit(b, k)
  {
    Half(b);
    if k == 0 {
      assert TestsBit(b, 0) <==> b & 1 != 0;
    } else {
      Shifted(b, k);
      BitOfVector(b >> 1, k - 1);
    }
  }

  lemma {:induction false} MaskOfVector(b: bv8, k: nat)
    requires k < 8
    ensures b as nat < Pow2(k) <==> InsideMask(b, k)
  {
    if k == 0 {
      NoBits(b);
    } else {
      Half(b);
      HalfBound(b as nat, k);
      Shifted(b, k);
      MaskOfVector(b >> 1, k - 1);
    }
  }

  // ---------- the source's tests ----------

  /** `allows` and the flag getters. */
  lemma BitIsMachineTest(raw: Byte, k: nat)
    requires k < 8
    ensures Bit(raw, k) <==> TestsBit(Machine(raw), k)
  {
    BitOfVector(Machine(raw), k);
  }

  const APPEND_PERMISSION_ALLOWED_MASK: bv8 := 0x0f
  const SEGMENT_FLAG_ALLOWED_MASK: bv8 := 0x03

  /** The two reserved-bit tests. */
  lemma ReservedBits(raw: Byte)
    ensures ValidPermissions(raw) <==> Machine(raw) & !APPEND_PERMISSION_ALLOWED_MASK == 0
    ensures ValidFlags(raw) <==> Machine(raw) & !SEGMENT_FLAG_ALLOWED_MASK == 0
  {
    MaskOfVector(Machine(raw), 4);
    MaskOfVector(Machine(raw), 2);
  }

  /** `validate`, by the mask on its last byte. */
  lemma ValidateIsMachineMask(m: MaskView, n: nat)
    ensures m.Valid(n) <==>
              && |m.bytes| == (n + 7) / 8
              && (n % 8 != 0 ==> InsideMask(Machine(m.bytes[|m.bytes| - 1]), n % 8))
  {
    if |m.bytes| == (n + 7) / 8 && n % 8 != 0 {
      MaskOfVector(Machine(m.bytes[|m.bytes| - 1]), n % 8);
    }
  }

  /** `get`, by the shift inside the byte. */
  lemma GetIsMachineTest(m: MaskView, i: nat)
    ensures m.Get(i) ==
              if i / 8 < |m.bytes| then Ok(TestsBit(Machine(m.bytes[i / 8]), i % 8)) else Err(InvalidOtxLayout)
  {
    if i / 8 < |m.bytes| {
      BitIsMachineTest(m.bytes[i / 8], i % 8);
    }
  }
}
