/**
 * A signing preimage determines what it covers.  Two encodings are compared from the front: a field
 * that is never a proper prefix of its counterpart fixes where the next field starts.
 */
module Injective {
  import opened Base
  import opened Molecule
  import opened View
  import opened Layout
  import opened Transaction
  import opened Preimage
  import opened Scope

  /** Neither is a proper prefix of the other, and equal bytes mean the same content. */
  predicate Codes(x: Bytes, y: Bytes, same: bool) {
    ((x <= y || y <= x) ==> x == y) && (x == y ==> same)
  }

  lemma CodesJoin(a: Bytes, b: Bytes, c: Bytes, d: Bytes, p: bool, q: bool)
    requires Codes(a, c, p)
    requires a == c ==> Codes(b, d, q)
    ensures Codes(a + b, c + d, p && q)
  {
    var x, y := a + b, c + d;
    if x <= y || y <= x {
      assert x[..|a|] == a && y[..|c|] == c;
      assert |a| <= |c| ==> a == c[..|a|];
      assert |c| <= |a| ==> c == a[..|c|];
      assert x[|a|..] == b && y[|c|..] == d;
    }
  }

  /** The last field may be anything: what is left over is equal. */
  lemma CodesRest(a: Bytes, b: Bytes, c: Bytes, d: Bytes, p: bool)
    requires Codes(a, c, p) && a + b == c + d
    ensures p && a == c && b == d
  {
    var x, y := a + b, c + d;
    assert x[..|a|] == a && y[..|c|] == c;
    assert |a| <= |c| ==> a == c[..|a|];
    assert |c| <= |a| ==> c == a[..|c|];
    assert x[|a|..] == b && y[|c|..] == d;
  }

  lemma SameLength(x: Bytes, y: Bytes)
    requires |x| == |y|
    ensures Codes(x, y, x == y)
  {}

  lemma Delimited(x: Bytes, y: Bytes)
    requires SelfDelimiting(x) && SelfDelimiting(y)
    ensures Codes(x, y, x == y)
  {
    if x <= y || y <= x {
      assert x[0..4] == y[0..4];
    }
  }

  lemma PrefixedCodes(x: Bytes, y: Bytes)
    requires Fits(|x|) && Fits(|y|)
    ensures Codes(Prefixed(x), Prefixed(y), x == y)
  {
    NumberOfPack(|x|);
    NumberOfPack(|y|);
    SameLength(PackNumber(|x|), PackNumber(|y|));
    if |x| == |y| {
      SameLength(x, y);
    } else {
      assert PackNumber(|x|) != PackNumber(|y|);
    }
    CodesJoin(PackNumber(|x|), x, PackNumber(|y|), y, |x| == |y|, x == y);
  }

  lemma CountCodes(m: nat, n: nat)
    requires Fits(m) && Fits(n)
    ensures Codes(PackNumber(m), PackNumber(n), m == n)
  {
    NumberOfPack(m);
    NumberOfPack(n);
  }

  /** Equally many parts, compared one by one. */
  lemma {:induction false} PartsCode(ps: seq<Bytes>, qs: seq<Bytes>)
    requires |ps| == |qs|
    requires forall i: nat | i < |ps| :: Codes(ps[i], qs[i], ps[i] == qs[i])
    ensures Codes(Flatten(ps), Flatten(qs), ps == qs)
  {
    if ps == [] {
    } else {
      var n := |ps| - 1;
      PartsCode(ps[..n], qs[..n]);
      assert ps == ps[..n] + [ps[n]] && qs == qs[..n] + [qs[n]];
      CodesJoin(Flatten(ps[..n]), ps[n], Flatten(qs[..n]), qs[n], ps[..n] == qs[..n], ps[n] == qs[n]);
    }
  }

  lemma ListCodes(ps: seq<Bytes>, qs: seq<Bytes>)
    requires Fits(|ps|) && Fits(|qs|)
    requires forall i: nat | i < |ps| && i < |qs| :: Codes(ps[i], qs[i], ps[i] == qs[i])
    ensures Codes(List(ps), List(qs), ps == qs)
  {
    CountCodes(|ps|, |qs|);
    if |ps| == |qs| {
      PartsCode(ps, qs);
    }
    CodesJoin(PackNumber(|ps|), Flatten(ps), PackNumber(|qs|), Flatten(qs), |ps| == |qs|, ps == qs);
  }

  /** A masked block: the items only need to be comparable once counts and masks agree. */
  lemma MaskedCodes(m: Bytes, ps: seq<Bytes>, n: Bytes, qs: seq<Bytes>)
    requires Fits(|ps|) && Fits(|qs|) && Fits(|m|) && Fits(|n|)
    requires m == n && |ps| == |qs| ==> forall i: nat | i < |ps| :: Codes(ps[i], qs[i], ps[i] == qs[i])
    ensures Codes(Masked(m, ps), Masked(n, qs), m == n && ps == qs)
  {
    CountCodes(|ps|, |qs|);
    PrefixedCodes(m, n);
    CodesJoin(PackNumber(|ps|), Prefixed(m), PackNumber(|qs|), Prefixed(n), |ps| == |qs|, m == n);
    if PackNumber(|ps|) + Prefixed(m) == PackNumber(|qs|) + Prefixed(n) {
      PartsCode(ps, qs);
    }
    CodesJoin(PackNumber(|ps|) + Prefixed(m), Flatten(ps), PackNumber(|qs|) + Prefixed(n), Flatten(qs),
              |ps| == |qs| && m == n, ps == qs);
  }

  lemma FieldsCode(a: Bytes, b: Bytes, c: Bytes, d: Bytes, e: Bytes,
                   a': Bytes, b': Bytes, c': Bytes, d': Bytes, e': Bytes)
    requires Codes(a, a', a == a') && Codes(b, b', b == b') && Codes(c, c', c == c')
    requires Codes(d, d', d == d') && Codes(e, e', e == e')
    ensures Codes(a + b + c + d + e, a' + b' + c' + d' + e', a == a' && b == b' && c == c' && d == d' && e == e')
  {
    CodesJoin(a, b, a', b', a == a', b == b');
    CodesJoin(a + b, c, a' + b', c', a == a' && b == b', c == c');
    CodesJoin(a + b + c, d, a' + b' + c', d', a == a' && b == b' && c == c', d == d');
    CodesJoin(a + b + c + d, e, a' + b' + c' + d', e', a == a' && b == b' && c == c' && d == d', e == e');
  }

  // ---------- base scopes ----------

  /** The encodings a placed scope of a valid transaction has. */
  predicate ValidBase(s: BaseScope) {
    && BaseFits(s)
    && SelfDelimiting(s.message)
    && (forall i: nat | i < |s.inputs| :: ValidBaseInput(s.inputs[i]) && InputMatchesMask(s, i))
    && (forall i: nat | i < |s.outputs| :: ValidBaseOutput(s.outputs[i]) && OutputMatchesMask(s, i))
    && (forall i: nat | i < |s.cellDeps| ::
          ValidDep(s.cellDeps[i], 37) && MaskView(s.cellDepMask).Get(i) == Ok(s.cellDeps[i].Some?))
    && (forall i: nat | i < |s.headerDeps| ::
          ValidDep(s.headerDeps[i], 32) && MaskView(s.headerDepMask).Get(i) == Ok(s.headerDeps[i].Some?))
  }

  predicate ValidBaseInput(x: BaseInput) {
    && (x.since.Some? ==> |x.since.value| == 8)
    && (x.previousOutput.Some? ==> |x.previousOutput.value| == 36)
    && SelfDelimiting(x.cell.output)
  }

  predicate InputMatchesMask(s: BaseScope, i: nat)
    requires i < |s.inputs|
  {
    && MaskView(s.inputMask).Get(2 * i) == Ok(s.inputs[i].since.Some?)
    && MaskView(s.inputMask).Get(2 * i + 1) == Ok(s.inputs[i].previousOutput.Some?)
  }

  predicate ValidBaseOutput(x: BaseOutput) {
    && (x.capacity.Some? ==> |x.capacity.value| == 8)
    && (x.lock.Some? ==> SelfDelimiting(x.lock.value))
    && (x.typeScript.Some? && x.typeScript.value.Some? ==> SelfDelimiting(x.typeScript.value.value))
  }

  predicate OutputMatchesMask(s: BaseScope, i: nat)
    requires i < |s.outputs|
  {
    var mask, x := MaskView(s.outputMask), s.outputs[i];
    && mask.Get(4 * i) == Ok(x.capacity.Some?)
    && mask.Get(4 * i + 1) == Ok(x.lock.Some?)
    && mask.Get(4 * i + 2) == Ok(x.typeScript.Some?)
    && mask.Get(4 * i + 3) == Ok(x.data.Some?)
  }

  predicate ValidDep(x: Option<Bytes>, size: nat) { x.Some? ==> |x.value| == size }

  /** Does this covered output carry a type script? */
  predicate CarriesType(x: BaseOutput) { x.typeScript.Some? && x.typeScript.value.Some? }

  /** The condition injectivity needs: the covered outputs agree on which of them carry a type script. */
  predicate SameTypePresence(s: BaseScope, t: BaseScope) {
    forall i: nat | i < |s.outputs| && i < |t.outputs| :: CarriesType(s.outputs[i]) == CarriesType(t.outputs[i])
  }

  lemma DefaultScriptDelimited()
    ensures SelfDelimiting(DEFAULT_SCRIPT)
  {
    var b := DEFAULT_SCRIPT;
    NumberOfPack(53);
    assert b[0..4] == [53, 0, 0, 0];
    assert PackNumber(53) == [53, 0, 0, 0] by { PackSmall(53); }
    assert PackNumber(53)[0..4] == PackNumber(53);
  }

  lemma PackSmall(n: Byte)
    ensures PackNumber(n as int) == [n, 0, 0, 0]
  {
    assert Digits(0, 3) == [0, 0, 0] by {
      assert Digits(0, 1) == [0];
      assert Digits(0, 2) == [0, 0];
    }
  }

  lemma BaseInputCodes(x: BaseInput, y: BaseInput, i: nat)
    requires ValidBaseInput(x) && ValidBaseInput(y) && Fits(|x.cell.data|) && Fits(|y.cell.data|)
    requires x.since.Some? == y.since.Some? && x.previousOutput.Some? == y.previousOutput.Some?
    ensures Codes(EncodeBaseInput(x, i), EncodeBaseInput(y, i), x == y)
  {
    Delimited(x.cell.output, y.cell.output);
    PrefixedCodes(x.cell.data, y.cell.data);
    FieldsCode(PackNumber(i), Or(x.since, Zeros(8)), Or(x.previousOutput, Zeros(36)), x.cell.output,
               Prefixed(x.cell.data),
               PackNumber(i), Or(y.since, Zeros(8)), Or(y.previousOutput, Zeros(36)), y.cell.output,
               Prefixed(y.cell.data));
  }

  lemma BaseOutputCodes(x: BaseOutput, y: BaseOutput, i: nat)
    requires ValidBaseOutput(x) && ValidBaseOutput(y) && Fits(|Or(x.data, [])|) && Fits(|Or(y.data, [])|)
    requires x.capacity.Some? == y.capacity.Some? && x.lock.Some? == y.lock.Some?
    requires x.typeScript.Some? == y.typeScript.Some? && x.data.Some? == y.data.Some?
    requires CarriesType(x) == CarriesType(y)
    ensures Codes(EncodeBaseOutput(x, i), EncodeBaseOutput(y, i), x == y)
  {
    DefaultScriptDelimited();
    Delimited(Or(x.lock, DEFAULT_SCRIPT), Or(y.lock, DEFAULT_SCRIPT));
    if CarriesType(x) {
      Delimited(TypeBytes(x.typeScript), TypeBytes(y.typeScript));
    }
    PrefixedCodes(Or(x.data, []), Or(y.data, []));
    FieldsCode(PackNumber(i), Or(x.capacity, Zeros(8)), Or(x.lock, DEFAULT_SCRIPT), TypeBytes(x.typeScript),
               Prefixed(Or(x.data, [])),
               PackNumber(i), Or(y.capacity, Zeros(8)), Or(y.lock, DEFAULT_SCRIPT), TypeBytes(y.typeScript),
               Prefixed(Or(y.data, [])));
  }

  lemma DepCodes(x: Option<Bytes>, y: Option<Bytes>, size: nat, i: nat)
    requires ValidDep(x, size) && ValidDep(y, size) && x.Some? == y.Some?
    ensures Codes(EncodeDep(x, size, i), EncodeDep(y, size, i), x == y)
  {
    CodesJoin(PackNumber(i), Or(x, Zeros(size)), PackNumber(i), Or(y, Zeros(size)), true,
              Or(x, Zeros(size)) == Or(y, Zeros(size)));
  }

  lemma InputBlockCodes(s: BaseScope, t: BaseScope)
    requires ValidBase(s) && ValidBase(t)
    ensures Codes(Masked(s.inputMask, BaseInputParts(s.inputs)), Masked(t.inputMask, BaseInputParts(t.inputs)),
                  s.inputMask == t.inputMask && s.inputs == t.inputs)
  {
    var ps, qs := BaseInputParts(s.inputs), BaseInputParts(t.inputs);
    if s.inputMask == t.inputMask && |ps| == |qs| {
      forall i: nat | i < |ps| ensures Codes(ps[i], qs[i], s.inputs[i] == t.inputs[i]) {
        assert InputMatchesMask(s, i) && InputMatchesMask(t, i);
        BaseInputCodes(s.inputs[i], t.inputs[i], i);
      }
    }
    MaskedCodes(s.inputMask, ps, t.inputMask, qs);
    assert s.inputMask == t.inputMask && ps == qs ==> s.inputs == t.inputs;
  }

  lemma OutputBlockCodes(s: BaseScope, t: BaseScope)
    requires ValidBase(s) && ValidBase(t) && SameTypePresence(s, t)
    ensures Codes(Masked(s.outputMask, BaseOutputParts(s.outputs)), Masked(t.outputMask, BaseOutputParts(t.outputs)),
                  s.outputMask == t.outputMask && s.outputs == t.outputs)
  {
    var ps, qs := BaseOutputParts(s.outputs), BaseOutputParts(t.outputs);
    if s.outputMask == t.outputMask && |ps| == |qs| {
      forall i: nat | i < |ps| ensures Codes(ps[i], qs[i], s.outputs[i] == t.outputs[i]) {
        assert OutputMatchesMask(s, i) && OutputMatchesMask(t, i);
        BaseOutputCodes(s.outputs[i], t.outputs[i], i);
      }
    }
    MaskedCodes(s.outputMask, ps, t.outputMask, qs);
    assert s.outputMask == t.outputMask && ps == qs ==> s.outputs == t.outputs;
  }

  lemma DepBlockCodes(m: Bytes, xs: seq<Option<Bytes>>, n: Bytes, ys: seq<Option<Bytes>>, size: nat)
    requires Fits(|m|) && Fits(|n|) && Fits(|xs|) && Fits(|ys|)
    requires forall i: nat | i < |xs| :: ValidDep(xs[i], size) && MaskView(m).Get(i) == Ok(xs[i].Some?)
    requires forall i: nat | i < |ys| :: ValidDep(ys[i], size) && MaskView(n).Get(i) == Ok(ys[i].Some?)
    ensures Codes(Masked(m, DepParts(xs, size)), Masked(n, DepParts(ys, size)), m == n && xs == ys)
  {
    var ps, qs := DepParts(xs, size), DepParts(ys, size);
    if m == n && |ps| == |qs| {
      forall i: nat | i < |ps| ensures Codes(ps[i], qs[i], xs[i] == ys[i]) {
        assert MaskView(m).Get(i) == MaskView(n).Get(i);
        DepCodes(xs[i], ys[i], size, i);
      }
    }
    MaskedCodes(m, ps, n, qs);
    assert m == n && ps == qs ==> xs == ys;
  }

  /**
   * Base injectivity: two base preimages that are equal cover the same content exactly when the covered
   * outputs agree on which of them carry a type script.
   */
  lemma BaseInjective(s: BaseScope, t: BaseScope)
    requires ValidBase(s) && ValidBase(t)
    requires EncodeBase(s) == EncodeBase(t)
    ensures s == t <==> SameTypePresence(s, t)
  {
    if SameTypePresence(s, t) {
      Delimited(s.message, t.message);
      CodesJoin(s.message, [s.permissions], t.message, [t.permissions], s.message == t.message,
                s.permissions == t.permissions);
      InputBlockCodes(s, t);
      OutputBlockCodes(s, t);
      DepBlockCodes(s.cellDepMask, s.cellDeps, t.cellDepMask, t.cellDeps, 37);
      DepBlockCodes(s.headerDepMask, s.headerDeps, t.headerDepMask, t.headerDeps, 32);
      BaseBlocksCode(s, t);
    }
  }

  lemma BaseBlocksCode(s: BaseScope, t: BaseScope)
    requires EncodeBase(s) == EncodeBase(t)
    requires Codes(s.message + [s.permissions], t.message + [t.permissions],
                   s.message == t.message && s.permissions == t.permissions)
    requires Codes(Masked(s.inputMask, BaseInputParts(s.inputs)), Masked(t.inputMask, BaseInputParts(t.inputs)),
                   s.inputMask == t.inputMask && s.inputs == t.inputs)
    requires Codes(Masked(s.outputMask, BaseOutputParts(s.outputs)), Masked(t.outputMask, BaseOutputParts(t.outputs)),
                   s.outputMask == t.outputMask && s.outputs == t.outputs)
    requires Codes(Masked(s.cellDepMask, DepParts(s.cellDeps, 37)), Masked(t.cellDepMask, DepParts(t.cellDeps, 37)),
                   s.cellDepMask == t.cellDepMask && s.cellDeps == t.cellDeps)
    requires Codes(Masked(s.headerDepMask, DepParts(s.headerDeps, 32)),
                   Masked(t.headerDepMask, DepParts(t.headerDeps, 32)),
                   s.headerDepMask == t.headerDepMask && s.headerDeps == t.headerDeps)
    ensures s == t
  {
    var a, a' := s.message + [s.permissions], t.message + [t.permissions];
    CodesJoin(Masked(s.inputMask, BaseInputParts(s.inputs)), Masked(s.outputMask, BaseOutputParts(s.outputs)),
              Masked(t.inputMask, BaseInputParts(t.inputs)), Masked(t.outputMask, BaseOutputParts(t.outputs)),
              s.inputMask == t.inputMask && s.inputs == t.inputs,
              s.outputMask == t.outputMask && s.outputs == t.outputs);
    CodesJoin(Masked(s.cellDepMask, DepParts(s.cellDeps, 37)), Masked(s.headerDepMask, DepParts(s.headerDeps, 32)),
              Masked(t.cellDepMask, DepParts(t.cellDeps, 37)), Masked(t.headerDepMask, DepParts(t.headerDeps, 32)),
              s.cellDepMask == t.cellDepMask && s.cellDeps == t.cellDeps,
              s.headerDepMask == t.headerDepMask && s.headerDeps == t.headerDeps);
    var cells, deps := s.inputMask == t.inputMask && s.inputs == t.inputs && s.outputMask == t.outputMask
                       && s.outputs == t.outputs,
                       s.cellDepMask == t.cellDepMask && s.cellDeps == t.cellDeps
                       && s.headerDepMask == t.headerDepMask && s.headerDeps == t.headerDeps;
    CodesJoin(a, EncodeCells(s), a', EncodeCells(t), s.message == t.message && s.permissions == t.permissions, cells);
    CodesJoin(a + EncodeCells(s), EncodeDeps(s), a' + EncodeCells(t), EncodeDeps(t),
              s.message == t.message && s.permissions == t.permissions && cells, deps);
  }

  /** An output whose covered type script is dropped while its data takes over the script's tail. */
  function Shifted(x: BaseOutput): BaseOutput
    requires CarriesType(x) && SelfDelimiting(x.typeScript.value.value)
  {
    x.(typeScript := Some(None), data := Some(x.typeScript.value.value[4..] + [0, 0, 0, 0]))
  }

  /** With output `i` shifted, every output is still valid and fits its mask. */
  lemma ShiftedOutputs(s: BaseScope, i: nat)
    requires ValidBase(s) && i < |s.outputs|
    requires CarriesType(s.outputs[i]) && s.outputs[i].data == Some([])
    ensures var t := s.(outputs := s.outputs[i := Shifted(s.outputs[i])]);
            forall k: nat | k < |t.outputs| ::
              ValidBaseOutput(t.outputs[k]) && OutputMatchesMask(t, k) && Fits(|Or(t.outputs[k].data, [])|)
  {
    var x := s.outputs[i];
    var t := s.(outputs := s.outputs[i := Shifted(x)]);
    forall k: nat | k < |t.outputs|
      ensures ValidBaseOutput(t.outputs[k]) && OutputMatchesMask(t, k) && Fits(|Or(t.outputs[k].data, [])|)
    {
      assert OutputMatchesMask(s, k) && ValidBaseOutput(s.outputs[k]);
      PackOfNumberAt(x.typeScript.value.value, 0);
    }
  }

  lemma ShiftedIsValid(s: BaseScope, i: nat)
    requires ValidBase(s) && i < |s.outputs|
    requires CarriesType(s.outputs[i]) && s.outputs[i].data == Some([])
    ensures ValidBase(s.(outputs := s.outputs[i := Shifted(s.outputs[i])]))
  {
    var t := s.(outputs := s.outputs[i := Shifted(s.outputs[i])]);
    ShiftedOutputs(s, i);
    forall k: nat | k < |t.inputs| ensures InputMatchesMask(t, k) {
      assert InputMatchesMask(s, k);
    }
  }

  /**
   * Without that agreement it fails, for every covered type script with empty covered data: a script is
   * written with no length in front, so the shifted output reads the same.
   */
  lemma TypeBoundaryAmbiguous(s: BaseScope, i: nat)
    requires ValidBase(s) && i < |s.outputs|
    requires CarriesType(s.outputs[i]) && s.outputs[i].data == Some([])
    ensures var t := s.(outputs := s.outputs[i := Shifted(s.outputs[i])]);
            ValidBase(t) && EncodeBase(t) == EncodeBase(s) && t != s && !SameTypePresence(s, t)
  {
    var x := s.outputs[i];
    var t := s.(outputs := s.outputs[i := Shifted(x)]);
    ShiftedEncodesTheSame(s, i);
    ShiftedIsValid(s, i);
    assert CarriesType(s.outputs[i]) != CarriesType(t.outputs[i]);
  }

  lemma ShiftedEncodesTheSame(s: BaseScope, i: nat)
    requires i < |s.outputs| && CarriesType(s.outputs[i]) && SelfDelimiting(s.outputs[i].typeScript.value.value)
    requires s.outputs[i].data == Some([])
    ensures EncodeBase(s.(outputs := s.outputs[i := Shifted(s.outputs[i])])) == EncodeBase(s)
  {
    ShiftedReadsTheSame(s.outputs[i], i);
    assert BaseOutputParts(s.outputs[i := Shifted(s.outputs[i])]) == BaseOutputParts(s.outputs);
  }

  lemma ShiftedReadsTheSame(x: BaseOutput, i: nat)
    requires CarriesType(x) && SelfDelimiting(x.typeScript.value.value) && x.data == Some([])
    ensures EncodeBaseOutput(Shifted(x), i) == EncodeBaseOutput(x, i)
  {
    var script := x.typeScript.value.value;
    var before := PackNumber(i) + Or(x.capacity, Zeros(8)) + Or(x.lock, DEFAULT_SCRIPT);
    PackSmall(0);
    PackOfNumberAt(script, 0);
    assert script == script[0..4] + script[4..];
    assert Prefixed(script[4..] + [0, 0, 0, 0]) == script + [0, 0, 0, 0];
    assert before + [] + Prefixed(script[4..] + [0, 0, 0, 0]) == before + script + Prefixed([]);
  }

  // ---------- append segments ----------

  predicate ValidSegment(s: SegmentScope) {
    && SegmentFits(s)
    && (forall i: nat | i < |s.inputs| :: |s.inputs[i].raw| == 44 && SelfDelimiting(s.inputs[i].cell.output))
    && (forall i: nat | i < |s.outputs| :: SelfDelimiting(s.outputs[i].raw))
    && (forall i: nat | i < |s.cellDeps| :: |s.cellDeps[i]| == 37)
    && (forall i: nat | i < |s.headerDeps| :: |s.headerDeps[i]| == 32)
  }

  lemma SegmentInputCodes(x: SegmentInput, y: SegmentInput, i: nat)
    requires |x.raw| == |y.raw| && SelfDelimiting(x.cell.output) && SelfDelimiting(y.cell.output)
    requires Fits(|x.cell.data|) && Fits(|y.cell.data|)
    ensures Codes(EncodeSegmentInput(x, i), EncodeSegmentInput(y, i), x == y)
  {
    Delimited(x.cell.output, y.cell.output);
    PrefixedCodes(x.cell.data, y.cell.data);
    CodesJoin(PackNumber(i), x.raw, PackNumber(i), y.raw, true, x.raw == y.raw);
    CodesJoin(PackNumber(i) + x.raw, x.cell.output, PackNumber(i) + y.raw, y.cell.output, x.raw == y.raw,
              x.cell.output == y.cell.output);
    CodesJoin(PackNumber(i) + x.raw + x.cell.output, Prefixed(x.cell.data), PackNumber(i) + y.raw + y.cell.output,
              Prefixed(y.cell.data),
              x.raw == y.raw && x.cell.output == y.cell.output, x.cell.data == y.cell.data);
  }

  lemma SegmentOutputCodes(x: SegmentOutput, y: SegmentOutput, i: nat)
    requires SelfDelimiting(x.raw) && SelfDelimiting(y.raw) && Fits(|x.data|) && Fits(|y.data|)
    ensures Codes(EncodeSegmentOutput(x, i), EncodeSegmentOutput(y, i), x == y)
  {
    Delimited(x.raw, y.raw);
    PrefixedCodes(x.data, y.data);
    CodesJoin(PackNumber(i), x.raw, PackNumber(i), y.raw, true, x.raw == y.raw);
    CodesJoin(PackNumber(i) + x.raw, Prefixed(x.data), PackNumber(i) + y.raw, Prefixed(y.data), x.raw == y.raw,
              x.data == y.data);
  }

  lemma SegmentInputListCodes(xs: seq<SegmentInput>, ys: seq<SegmentInput>)
    requires Fits(|xs|) && Fits(|ys|)
    requires forall i: nat | i < |xs| ::
               |xs[i].raw| == 44 && SelfDelimiting(xs[i].cell.output) && Fits(|xs[i].cell.data|)
    requires forall i: nat | i < |ys| ::
               |ys[i].raw| == 44 && SelfDelimiting(ys[i].cell.output) && Fits(|ys[i].cell.data|)
    ensures Codes(List(SegmentInputParts(xs)), List(SegmentInputParts(ys)), xs == ys)
  {
    var ps, qs := SegmentInputParts(xs), SegmentInputParts(ys);
    forall i: nat | i < |ps| && i < |qs| ensures Codes(ps[i], qs[i], xs[i] == ys[i]) {
      SegmentInputCodes(xs[i], ys[i], i);
    }
    ListCodes(ps, qs);
    assert ps == qs ==> xs == ys;
  }

  lemma SegmentOutputListCodes(xs: seq<SegmentOutput>, ys: seq<SegmentOutput>)
    requires Fits(|xs|) && Fits(|ys|)
    requires forall i: nat | i < |xs| :: SelfDelimiting(xs[i].raw) && Fits(|xs[i].data|)
    requires forall i: nat | i < |ys| :: SelfDelimiting(ys[i].raw) && Fits(|ys[i].data|)
    ensures Codes(List(SegmentOutputParts(xs)), List(SegmentOutputParts(ys)), xs == ys)
  {
    var ps, qs := SegmentOutputParts(xs), SegmentOutputParts(ys);
    forall i: nat | i < |ps| && i < |qs| ensures Codes(ps[i], qs[i], xs[i] == ys[i]) {
      SegmentOutputCodes(xs[i], ys[i], i);
    }
    ListCodes(ps, qs);
    assert ps == qs ==> xs == ys;
  }

  lemma IndexedListCodes(xs: seq<Bytes>, ys: seq<Bytes>, size: nat)
    requires Fits(|xs|) && Fits(|ys|)
    requires forall i: nat | i < |xs| :: |xs[i]| == size
    requires forall i: nat | i < |ys| :: |ys[i]| == size
    ensures Codes(List(IndexedParts(xs)), List(IndexedParts(ys)), xs == ys)
  {
    var ps, qs := IndexedParts(xs), IndexedParts(ys);
    forall i: nat | i < |ps| && i < |qs| ensures Codes(ps[i], qs[i], xs[i] == ys[i]) {
      CodesJoin(PackNumber(i), xs[i], PackNumber(i), ys[i], true, xs[i] == ys[i]);
    }
    ListCodes(ps, qs);
    assert ps == qs ==> xs == ys;
  }

  lemma SegmentCodes(s: SegmentScope, t: SegmentScope)
    requires ValidSegment(s) && ValidSegment(t)
    ensures Codes(EncodeSegment(s), EncodeSegment(t), s == t)
  {
    SegmentInputListCodes(s.inputs, t.inputs);
    SegmentOutputListCodes(s.outputs, t.outputs);
    IndexedListCodes(s.cellDeps, t.cellDeps, 37);
    IndexedListCodes(s.headerDeps, t.headerDeps, 32);
    var cells, deps := s.inputs == t.inputs && s.outputs == t.outputs,
                       s.cellDeps == t.cellDeps && s.headerDeps == t.headerDeps;
    CodesJoin(List(SegmentInputParts(s.inputs)), List(SegmentOutputParts(s.outputs)),
              List(SegmentInputParts(t.inputs)), List(SegmentOutputParts(t.outputs)), s.inputs == t.inputs,
              s.outputs == t.outputs);
    CodesJoin(List(IndexedParts(s.cellDeps)), List(IndexedParts(s.headerDeps)),
              List(IndexedParts(t.cellDeps)), List(IndexedParts(t.headerDeps)), s.cellDeps == t.cellDeps,
              s.headerDeps == t.headerDeps);
    CodesJoin([s.flags], EncodeSegmentCells(s), [t.flags], EncodeSegmentCells(t), s.flags == t.flags, cells);
    CodesJoin([s.flags] + EncodeSegmentCells(s), EncodeSegmentDeps(s),
              [t.flags] + EncodeSegmentCells(t), EncodeSegmentDeps(t), s.flags == t.flags && cells, deps);
  }

  predicate ValidAppend(a: AppendScope) {
    && ValidSegment(a.own)
    && (a.previous.Some? ==>
          && Fits(|a.previous.value|)
          && forall i: nat | i < |a.previous.value| :: ValidSegment(a.previous.value[i]))
  }

  /**
   * Append injectivity: two append-segment preimages that are equal bind the same base hash, flags and
   * covered entities exactly when both segments cover the previous ones, or neither does.
   */
  lemma AppendInjective(a: AppendScope, b: AppendScope)
    requires ValidAppend(a) && ValidAppend(b)
    requires EncodeAppend(a) == EncodeAppend(b)
    ensures a == b <==> a.previous.Some? == b.previous.Some?
  {
    if a.previous.Some? == b.previous.Some? {
      var p := if a.previous.Some? then List(SegmentParts(a.previous.value)) else [];
      var q := if b.previous.Some? then List(SegmentParts(b.previous.value)) else [];
      if a.previous.Some? {
        PreviousCode(a.previous.value, b.previous.value);
      }
      SegmentCodes(a.own, b.own);
      CodesJoin(a.baseHash, p, b.baseHash, q, a.baseHash == b.baseHash, a.previous == b.previous);
      CodesJoin(a.baseHash + p, EncodeSegment(a.own), b.baseHash + q, EncodeSegment(b.own),
                a.baseHash == b.baseHash && a.previous == b.previous, a.own == b.own);
    }
  }

  lemma PreviousCode(xs: seq<SegmentScope>, ys: seq<SegmentScope>)
    requires Fits(|xs|) && Fits(|ys|)
    requires forall i: nat | i < |xs| :: ValidSegment(xs[i])
    requires forall i: nat | i < |ys| :: ValidSegment(ys[i])
    ensures Codes(List(SegmentParts(xs)), List(SegmentParts(ys)), xs == ys)
  {
    var ps, qs := SegmentParts(xs), SegmentParts(ys);
    forall i: nat | i < |ps| && i < |qs| ensures Codes(ps[i], qs[i], xs[i] == ys[i]) {
      SegmentCodes(xs[i], ys[i]);
    }
    ListCodes(ps, qs);
    assert ps == qs ==> xs == ys;
  }

  // ---------- the whole transaction ----------

  predicate ValidTxScope(s: TxScope) {
    && TxFits(s)
    && (s.message.Some? ==> SelfDelimiting(s.message.value))
    && forall i: nat | i < |s.cells| :: SelfDelimiting(s.cells[i].output)
  }

  lemma CellsCode(xs: seq<ResolvedCell>, ys: seq<ResolvedCell>)
    requires |xs| == |ys|
    requires forall i: nat | i < |xs| :: SelfDelimiting(xs[i].output) && Fits(|xs[i].data|)
    requires forall i: nat | i < |ys| :: SelfDelimiting(ys[i].output) && Fits(|ys[i].data|)
    ensures Codes(Flatten(CellParts(xs)), Flatten(CellParts(ys)), xs == ys)
  {
    var ps, qs := CellParts(xs), CellParts(ys);
    forall i: nat | i < |ps| ensures Codes(ps[i], qs[i], xs[i] == ys[i]) {
      Delimited(xs[i].output, ys[i].output);
      PrefixedCodes(xs[i].data, ys[i].data);
      CodesJoin(xs[i].output, Prefixed(xs[i].data), ys[i].output, Prefixed(ys[i].data), xs[i].output == ys[i].output,
                xs[i].data == ys[i].data);
    }
    PartsCode(ps, qs);
    assert ps == qs ==> xs == ys;
  }

  lemma {:induction false} FlattenAtLeast(ps: seq<Bytes>)
    requires forall i: nat | i < |ps| :: |ps[i]| >= 4
    ensures |Flatten(ps)| >= 4 * |ps|
  {
    if ps == [] {
    } else {
      FlattenAtLeast(ps[..|ps| - 1]);
    }
  }

  /** Length-prefixed items up to the very end: even their number is determined. */
  lemma TailDetermined(xs: seq<Bytes>, ys: seq<Bytes>)
    requires forall i: nat | i < |xs| :: Fits(|xs[i]|)
    requires forall i: nat | i < |ys| :: Fits(|ys[i]|)
    requires Flatten(PrefixedParts(xs)) == Flatten(PrefixedParts(ys))
    requires |xs| <= |ys|
    ensures xs == ys
  {
    var ps, qs := PrefixedParts(xs), PrefixedParts(ys);
    var n := |xs|;
    forall i: nat | i < n ensures Codes(ps[i], qs[..n][i], xs[i] == ys[i]) {
      PrefixedCodes(xs[i], ys[i]);
    }
    PartsCode(ps, qs[..n]);
    FlattenSplit(qs, n);
    CodesRest(Flatten(ps), [], Flatten(qs[..n]), Flatten(qs[n..]), ps == qs[..n]);
    assert Flatten(ps) + [] == Flatten(ps);
    FlattenAtLeast(qs[n..]);
    assert forall i: nat | i < n :: ps[i] == qs[..n][i];
  }

  /**
   * Tx-level injectivity: under one personalisation, two equal tx-level preimages cover the same message,
   * transaction hash, resolved cells and trailing witnesses exactly when they have equally many inputs.
   */
  lemma TxInjective(s: TxScope, t: TxScope)
    requires ValidTxScope(s) && ValidTxScope(t) && s.message.Some? == t.message.Some?
    requires EncodeTx(s) == EncodeTx(t)
    ensures s == t <==> |s.cells| == |t.cells|
  {
    if |s.cells| == |t.cells| {
      if s.message.Some? {
        Delimited(s.message.value, t.message.value);
      }
      CodesJoin(Or(s.message, []), s.txHash, Or(t.message, []), t.txHash, s.message == t.message, s.txHash == t.txHash);
      CellsCode(s.cells, t.cells);
      var head, head' := Or(s.message, []) + s.txHash, Or(t.message, []) + t.txHash;
      CodesJoin(head, Flatten(CellParts(s.cells)), head', Flatten(CellParts(t.cells)),
                s.message == t.message && s.txHash == t.txHash, s.cells == t.cells);
      CodesRest(head + Flatten(CellParts(s.cells)), Flatten(PrefixedParts(s.extraWitnesses)),
                head' + Flatten(CellParts(t.cells)), Flatten(PrefixedParts(t.extraWitnesses)),
                (s.message == t.message && s.txHash == t.txHash) && s.cells == t.cells);
      if |s.extraWitnesses| <= |t.extraWitnesses| {
        TailDetermined(s.extraWitnesses, t.extraWitnesses);
      } else {
        TailDetermined(t.extraWitnesses, s.extraWitnesses);
      }
    }
  }

  lemma Reassociated(a: Bytes, b: Bytes, c: Bytes)
    ensures a + b + c == a + (b + c)
  {}

  /** The transaction hash stands in front of the cells, so equal encodings share it whatever their input counts. */
  lemma TxHashBound(s: TxScope, t: TxScope)
    requires ValidTxScope(s) && ValidTxScope(t) && s.message.Some? == t.message.Some?
    requires EncodeTx(s) == EncodeTx(t)
    ensures s.message == t.message && s.txHash == t.txHash
  {
    if s.message.Some? {
      Delimited(s.message.value, t.message.value);
    }
    CodesJoin(Or(s.message, []), s.txHash, Or(t.message, []), t.txHash, s.message == t.message, s.txHash == t.txHash);
    var cells, cells' := Flatten(CellParts(s.cells)), Flatten(CellParts(t.cells));
    var rest, rest' := Flatten(PrefixedParts(s.extraWitnesses)), Flatten(PrefixedParts(t.extraWitnesses));
    var head, head' := Or(s.message, []) + s.txHash, Or(t.message, []) + t.txHash;
    assert head + cells + rest == EncodeTx(s) && head' + cells' + rest' == EncodeTx(t);
    Reassociated(head, cells, rest);
    Reassociated(head', cells', rest');
    CodesRest(head, cells + rest, head', cells' + rest', s.message == t.message && s.txHash == t.txHash);
  }

  /** The scope in which the last input cell is read as a trailing witness instead. */
  function CellAsWitness(s: TxScope): TxScope
    requires s.cells != [] && |s.cells[|s.cells| - 1].output| >= 4
  {
    var last := s.cells[|s.cells| - 1];
    s.(cells := s.cells[..|s.cells| - 1], extraWitnesses := [last.output[4..] + [0, 0, 0, 0]] + s.extraWitnesses)
  }

  /**
   * With different input counts it fails, whenever the last cell has no data: the input count is not written,
   * so the cell reads as a trailing witness.  (Only the transaction hash in front tells the two apart.)
   */
  lemma CellBoundaryAmbiguous(s: TxScope)
    requires ValidTxScope(s) && s.cells != [] && s.cells[|s.cells| - 1].data == []
    ensures var t := CellAsWitness(s); ValidTxScope(t) && EncodeTx(t) == EncodeTx(s) && t != s
  {
    var last := s.cells[|s.cells| - 1];
    var t := CellAsWitness(s);
    var moved := last.output[4..] + [0, 0, 0, 0];
    PackOfNumberAt(last.output, 0);
    assert ValidTxScope(t);
    CellReadsAsWitness(last);
    LastCell(s.cells);
    FirstWitness(moved, s.extraWitnesses);
    MoveBoundary(Or(s.message, []) + s.txHash, Flatten(CellParts(t.cells)), Prefixed(moved),
                 Flatten(PrefixedParts(s.extraWitnesses)));
  }

  lemma MoveBoundary(head: Bytes, a: Bytes, b: Bytes, c: Bytes)
    ensures (head + a) + (b + c) == (head + (a + b)) + c
  {}

  lemma LastCell(cells: seq<ResolvedCell>)
    requires cells != []
    ensures var n := |cells| - 1;
            Flatten(CellParts(cells)) == Flatten(CellParts(cells[..n])) + (cells[n].output + Prefixed(cells[n].data))
  {
    assert CellParts(cells)[..|cells| - 1] == CellParts(cells[..|cells| - 1]);
  }

  lemma FirstWitness(w: Bytes, rest: seq<Bytes>)
    ensures Flatten(PrefixedParts([w] + rest)) == Prefixed(w) + Flatten(PrefixedParts(rest))
  {
    var parts := PrefixedParts([w] + rest);
    FlattenSplit(parts, 1);
    assert parts[..1] == [Prefixed(w)] && parts[1..] == PrefixedParts(rest);
    assert Flatten([Prefixed(w)]) == Prefixed(w) by { assert [Prefixed(w)][..0] == []; }
  }

  lemma CellReadsAsWitness(c: ResolvedCell)
    requires SelfDelimiting(c.output) && c.data == []
    ensures Prefixed(c.output[4..] + [0, 0, 0, 0]) == c.output + Prefixed(c.data)
  {
    PackSmall(0);
    PackOfNumberAt(c.output, 0);
    assert c.output == c.output[0..4] + c.output[4..];
  }

  // ---------- scopes of placed OTXs ----------

  /** An offset table printed below 2^32 bytes carries its own length. */
  lemma OutputDelimited(o: CellOutput)
    requires o.Valid()
    ensures SelfDelimiting(o.raw)
  {
    OffsettedHeader([o.capacity, o.lock, o.TypeBytes()]);
  }

  /** The bytes of an output determine its fields: the codec splits them again. */
  lemma OutputRawInjective(o: CellOutput, p: CellOutput)
    requires o.Valid() && p.Valid() && o.raw == p.raw
    ensures o == p
  {
    var a, b := [o.capacity, o.lock, o.TypeBytes()], [p.capacity, p.lock, p.TypeBytes()];
    SplitOffsetted(a);
    SplitOffsetted(b);
    assert a[0] == b[0] && a[1] == b[1] && a[2] == b[2];
  }

  lemma PlacedScopeValid(otx: OtxView, layout: OtxLayout, tx: Tx)
    requires Placed(otx, layout, tx) && tx.Valid() && SelfDelimiting(otx.message.Content())
    requires BaseFits(BaseScopeOf(otx, layout, tx))
    ensures ValidBase(BaseScopeOf(otx, layout, tx))
  {
    var s := BaseScopeOf(otx, layout, tx);
    forall i: nat | i < |s.inputs| ensures ValidBaseInput(s.inputs[i]) && InputMatchesMask(s, i) {
      var at := InBase(otx, layout, tx, Inputs, i);
      assert tx.inputs[at].cell.Valid();
    }
    forall i: nat | i < |s.outputs| ensures ValidBaseOutput(s.outputs[i]) && OutputMatchesMask(s, i) {
      var at := InBase(otx, layout, tx, Outputs, i);
      assert tx.outputs[at].cell.Valid();
    }
    forall i: nat | i < |s.cellDeps| ensures ValidDep(s.cellDeps[i], 37) {
      var at := InBase(otx, layout, tx, CellDeps, i);
    }
    forall i: nat | i < |s.headerDeps| ensures ValidDep(s.headerDeps[i], 32) {
      var at := InBase(otx, layout, tx, HeaderDeps, i);
    }
  }

  lemma SegmentScopeValid(v: OtxAppendSegmentView, l: OtxAppendSegmentLayout, tx: Tx)
    requires SegmentPlaced(v, l, tx) && tx.Valid() && SegmentFits(SegmentScopeOf(v, l, tx))
    ensures ValidSegment(SegmentScopeOf(v, l, tx))
  {
    assert l.Of(Inputs).End() <= |tx.inputs| && l.Of(Outputs).End() <= |tx.outputs|;
    assert l.Of(CellDeps).End() <= |tx.cellDeps| && l.Of(HeaderDeps).End() <= |tx.headerDeps|;
    var s := SegmentScopeOf(v, l, tx);
    forall i: nat | i < |s.outputs| ensures SelfDelimiting(s.outputs[i].raw) {
      OutputDelimited(tx.outputs[l.outputs.start + i].cell);
    }
    forall i: nat | i < |s.inputs| ensures |s.inputs[i].raw| == 44 && SelfDelimiting(s.inputs[i].cell.output) {
      assert tx.inputs[l.inputs.start + i].cell.Valid();
    }
  }
}
