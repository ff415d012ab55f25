/** Bytes, errors and little-endian numbers shared by every module. */
module Base {

  type Byte = b: int | 0 <= b < 256
  type Bytes = seq<Byte>
  type Hash32 = h: Bytes | |h| == 32 witness seq(32, _ => 0)

  const NUMBER_SIZE := 4
  const U32_LIMIT := 0x1_0000_0000

  datatype CoreError =
    | MalformedCobuild
    | InvalidOtxLayout
    | InvalidContextInput
    | InvalidMessageTarget
    | MissingHashInput
    | HashInputTooLarge
    | ActionNotFound
    | DuplicateSighashAll
    | MissingLockGroupCoverage
    | MissingLockSeal
    | DuplicateLockSeal
    | DuplicateMatchingAction
    | InvalidLockGroupWitness

  datatype Option<+T> = None | Some(value: T) {
    predicate IsFailure() { None? }

    function PropagateFailure<U>(): Option<U>
      requires None?
    {
      None
    }

    function Extract(): T
      requires Some?
    {
      value
    }

    function OrErr(error: CoreError): Result<T> {
      match this
      case Some(v) => Ok(v)
      case None => Err(error)
    }
  }

  datatype Result<+T> = Ok(value: T) | Err(error: CoreError) {
    predicate IsFailure() { Err? }

    function PropagateFailure<U>(): Result<U>
      requires Err?
    {
      Err(error)
    }

    function Extract(): T
      requires Ok?
    {
      value
    }
  }

  function Flatten<T>(parts: seq<seq<T>>): seq<T> {
    if parts == [] then [] else Flatten(parts[..|parts| - 1]) + parts[|parts| - 1]
  }

  lemma FlattenSnoc<T>(head: seq<T>, parts: seq<seq<T>>, part: seq<T>)
    ensures (head + Flatten(parts)) + part == head + Flatten(parts + [part])
  {
    assert (parts + [part])[..|parts|] == parts;
  }

  lemma JoinAssociates<T>(a: seq<T>, b: seq<T>, c: seq<T>)
    ensures (a + b) + c == a + (b + c)
  {}

  /** The place of the `k`-th element: which part, and where in it. */
  lemma {:induction false} FlattenPlace<T>(parts: seq<seq<T>>, k: nat) returns (i: nat, local: nat)
    requires k < |Flatten(parts)|
    ensures i < |parts| && local < |parts[i]| && k == |Flatten(parts[..i])| + local
    ensures Flatten(parts)[k] == parts[i][local]
    decreases |parts|
  {
    var n := |parts| - 1;
    if k < |Flatten(parts[..n])| {
      i, local := FlattenPlace(parts[..n], k);
      assert parts[..n][..i] == parts[..i];
    } else {
      i, local := n, k - |Flatten(parts[..n])|;
    }
  }

  lemma {:induction false} FlattenSplit<T>(ps: seq<seq<T>>, n: nat)
    requires n <= |ps|
    ensures Flatten(ps) == Flatten(ps[..n]) + Flatten(ps[n..])
    decreases |ps|
  {
    if n == |ps| {
      assert ps[..n] == ps && ps[n..] == [];
    } else {
      var last := |ps| - 1;
      FlattenSplit(ps[..last], n);
      assert ps[..last][..n] == ps[..n] && ps[n..][..last - n] == ps[..last][n..];
      assert ps[n..][last - n] == ps[last];
    }
  }

  /** Element `local` of part `i` stands in the flattened sequence. */
  lemma FlattenAt<T>(parts: seq<seq<T>>, i: nat, local: nat)
    requires i < |parts| && local < |parts[i]|
    ensures |Flatten(parts[..i])| + local < |Flatten(parts)|
    ensures Flatten(parts)[|Flatten(parts[..i])| + local] == parts[i][local]
  {
    FlattenSplit(parts, i + 1);
    assert parts[..i + 1][..i] == parts[..i];
  }

  lemma FlattenOrder<T>(parts: seq<seq<T>>, i: nat, j: nat)
    requires i <= j <= |parts|
    ensures |Flatten(parts[..i])| <= |Flatten(parts[..j])|
    ensures i < j ==> |Flatten(parts[..i])| + |parts[i]| <= |Flatten(parts[..j])|
  {
    FlattenSplit(parts[..j], i);
    assert parts[..j][..i] == parts[..i];
    if i < j {
      FlattenSplit(parts[..j], i + 1);
      assert parts[..j][..i + 1] == parts[..i + 1] && parts[..i + 1][..i] == parts[..i];
    }
  }

  /** Later elements stand in later parts, or later in the same part. */
  lemma PlacesAscend<T>(parts: seq<seq<T>>, i: nat, a: nat, j: nat, b: nat)
    requires i < |parts| && a < |parts[i]| && j < |parts| && b < |parts[j]|
    requires |Flatten(parts[..i])| + a < |Flatten(parts[..j])| + b
    ensures i < j || (i == j && a < b)
  {
    if j < i {
      FlattenOrder(parts, j, i);
    }
  }

  /** The elements that satisfy `p`, in order. */
  function Filter<T>(xs: seq<T>, p: T -> bool): seq<T> {
    if xs == [] then []
    else if p(xs[|xs| - 1]) then Filter(xs[..|xs| - 1], p) + [xs[|xs| - 1]]
    else Filter(xs[..|xs| - 1], p)
  }

  lemma {:induction false} FilterAppend<T>(xs: seq<T>, ys: seq<T>, p: T -> bool)
    ensures Filter(xs + ys, p) == Filter(xs, p) + Filter(ys, p)
    decreases |ys|
  {
    if ys == [] {
      assert xs + ys == xs;
    } else {
      var n := |ys| - 1;
      FilterAppend(xs, ys[..n], p);
      assert (xs + ys)[..|xs + ys| - 1] == xs + ys[..n];
    }
  }

  /** The first `n` results of `f`, or the first error. */
  function Collect<T>(f: nat -> Result<T>, n: nat): (r: Result<seq<T>>)
    ensures r.Ok? ==> |r.value| == n && forall i: nat | i < n :: f(i) == Ok(r.value[i])
    ensures r.Err? ==> exists i: nat :: i < n && f(i) == Err(r.error)
  {
    if n == 0 then Ok([])
    else
      var init :- Collect(f, n - 1);
      var last :- f(n - 1);
      Ok(init + [last])
  }

  /** The first error ends the collection, whatever would follow. */
  lemma {:induction false} CollectStops<T>(f: nat -> Result<T>, i: nat, n: nat)
    requires i < n && Collect(f, i).Ok? && f(i).Err?
    ensures Collect(f, n) == Err(f(i).error)
    decreases n
  {
    if i == n - 1 {
    } else {
      CollectStops(f, i, n - 1);
    }
  }

  function Extended<T>(head: seq<T>, parts: Result<seq<seq<T>>>): Result<seq<T>> {
    var ps :- parts;
    Ok(head + Flatten(ps))
  }

  /** The loop that extends a vector with each of `n` results in turn and stops at the first error. */
  method ExtendWithEach<T>(head: seq<T>, f: nat -> Result<seq<T>>, n: nat) returns (r: Result<seq<T>>)
    ensures r == Extended(head, Collect(f, n))
  {
    var out := head;
    ghost var parts: seq<seq<T>> := [];
    for i := 0 to n
      invariant Collect(f, i) == Ok(parts) && out == head + Flatten(parts)
    {
      var here := f(i);
      if here.Err? {
        CollectStops(f, i, n);
        return Err(here.error);
      }
      ghost var next := parts + [here.value];
      FlattenSnoc(head, parts, here.value);
      assert out + here.value == head + Flatten(next);
      assert Collect(f, i + 1) == Ok(next);
      out := out + here.value;
      parts := next;
    }
    return Ok(out);
  }

  function LittleEndian(b: Bytes): nat {
    if b == [] then 0 else b[0] as int + 0x100 * LittleEndian(b[1..])
  }

  function Digits(n: nat, k: nat): (b: Bytes)
    ensures |b| == k
    decreases n, k
  {
    if k == 0 then [] else [n % 0x100] + Digits(n / 0x100, k - 1)
  }

  /** Molecule's `unpack_number`: the little-endian u32 at `at`. */
  function NumberAt(b: Bytes, at: nat): nat
    requires at + 4 <= |b|
  {
    LittleEndian(b[at..at + 4])
  }

  /** `(n as u32).to_le_bytes()`: values of 2^32 and more are truncated. */
  function PackNumber(n: nat): (b: Bytes)
    ensures |b| == 4
  {
    Digits(n % U32_LIMIT, 4)
  }

  /** A number keeps its value inside a longer byte string. */
  lemma NumberInside(before: Bytes, b: Bytes, after: Bytes, at: nat)
    requires at + 4 <= |b|
    ensures NumberAt(before + b + after, |before| + at) == NumberAt(b, at)
  {
    assert (before + b + after)[|before| + at..|before| + at + 4] == b[at..at + 4];
  }

  lemma LowDigit(low: Byte, high: nat)
    ensures (low as int + 0x100 * high) % 0x100 == low as int && (low as int + 0x100 * high) / 0x100 == high
  {}

  lemma {:induction false} DigitsOfLittleEndian(b: Bytes)
    ensures Digits(LittleEndian(b), |b|) == b
  {
    if b == [] {
    } else {
      DigitsOfLittleEndian(b[1..]);
      LowDigit(b[0], LittleEndian(b[1..]));
      assert [b[0]] + b[1..] == b;
    }
  }

  function Pow256(k: nat): (p: nat)
    ensures p >= 1
  {
    if k == 0 then 1 else 0x100 * Pow256(k - 1)
  }

  lemma {:induction false} LittleEndianBelow(b: Bytes)
    ensures LittleEndian(b) < Pow256(|b|)
  {
    if b == [] {
    } else {
      LittleEndianBelow(b[1..]);
    }
  }

  lemma {:induction false} LittleEndianOfDigits(n: nat, k: nat)
    requires n < Pow256(k)
    ensures LittleEndian(Digits(n, k)) == n
    decreases k
  {
    if k == 0 {
    } else {
      LittleEndianOfDigits(n / 0x100, k - 1);
      assert Digits(n, k)[1..] == Digits(n / 0x100, k - 1);
    }
  }

  lemma PackOfNumberAt(b: Bytes, at: nat)
    requires at + 4 <= |b|
    ensures NumberAt(b, at) < U32_LIMIT
    ensures PackNumber(NumberAt(b, at)) == b[at..at + 4]
  {
    LittleEndianBelow(b[at..at + 4]);
    assert Pow256(4) == U32_LIMIT;
    DigitsOfLittleEndian(b[at..at + 4]);
  }

  lemma NumberOfPack(n: nat)
    requires n < U32_LIMIT
    ensures NumberAt(PackNumber(n), 0) == n
  {
    assert Pow256(4) == U32_LIMIT;
    LittleEndianOfDigits(n, 4);
    assert PackNumber(n)[0..4] == Digits(n, 4);
  }

  lemma SliceAfter(head: Bytes, body: Bytes, i: nat, j: nat)
    requires i <= j <= |body|
    ensures (head + body)[|head| + i..|head| + j] == body[i..j]
  {}

  lemma SliceJoin(b: Bytes, i: nat, j: nat, k: nat)
    requires i <= j <= k <= |b|
    ensures b[i..j] + b[j..k] == b[i..k]
  {}

  /** A length or count as four bytes; the only way the hash writers reject their own input. */
  function CheckedLenPrefix(len: nat): (r: Result<Bytes>)
    ensures r.Ok? <==> len < U32_LIMIT
    ensures r.Err? ==> r.error == HashInputTooLarge
    ensures r.Ok? ==> |r.value| == 4 && NumberAt(r.value, 0) == len
  {
    if len < U32_LIMIT then NumberOfPack(len); Ok(PackNumber(len)) else Err(HashInputTooLarge)
  }
}
