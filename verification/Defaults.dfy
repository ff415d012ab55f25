/** The default script written for an uncovered lock is the one its Molecule schema builds. */
module Defaults {
  import opened Base
  import opened Molecule
  import opened Entity
  import opened Preimage
  import opened Injective

  /** `Script`: code hash, hash type, arguments. */
  function ScriptSchema(): Schema { Table([BYTE32, BYTE, ByteVec]) }

  function DefaultScriptValue(): Value { Items([Raw(Zeros(32)), Raw([0]), Raw([])]) }

  function Fields(): seq<Bytes> { [Zeros(32), [0], PackNumber(0)] }

  lemma FieldStarts()
    ensures PartStart(Fields(), 0) == 16 && PartStart(Fields(), 1) == 48
    ensures PartStart(Fields(), 2) == 49 && PartStart(Fields(), 3) == 53
  {}

  lemma HeaderBytes()
    ensures Numbers(Starts(Fields())) == PackNumber(16) + PackNumber(48) + PackNumber(49)
  {
    FieldStarts();
    assert Starts(Fields()) == [16, 48, 49];
    ThreeNumbers(16, 48, 49);
  }

  lemma ThreeNumbers(a: nat, b: nat, c: nat)
    ensures Numbers([a, b, c]) == PackNumber(a) + PackNumber(b) + PackNumber(c)
  {
    assert [a, b, c][..2] == [a, b] && [a, b][..1] == [a] && [a][..0] == [];
    assert Numbers([a]) == [] + PackNumber(a) == PackNumber(a);
    assert Numbers([a, b]) == Numbers([a]) + PackNumber(b);
  }

  lemma ThreeParts(a: Bytes, b: Bytes, c: Bytes)
    ensures Flatten([a, b, c]) == a + b + c
  {
    assert [a, b, c][..2] == [a, b] && [a, b][..1] == [a] && [a][..0] == [];
    assert Flatten([a]) == [] + a == a;
    assert Flatten([a, b]) == Flatten([a]) + b;
  }

  /** The constant is what the offset table of the default fields prints. */
  lemma DefaultIsPrinted()
    ensures DEFAULT_SCRIPT == Offsetted([Zeros(32), [0], PackNumber(0)])
  {
    FieldStarts();
    HeaderBytes();
    ThreeParts(Zeros(32), [0], PackNumber(0));
    PackSmall(0);
    PackSmall(16);
    PackSmall(48);
    PackSmall(49);
    PackSmall(53);
    assert Zeros(32) + [0] + [0, 0, 0, 0] == Zeros(37);
    assert [53, 0, 0, 0] + ([16, 0, 0, 0] + [48, 0, 0, 0] + [49, 0, 0, 0]) + Zeros(37)
        == [53, 0, 0, 0, 16, 0, 0, 0, 48, 0, 0, 0, 49, 0, 0, 0] + Zeros(37);
  }

  /** So it is the schema's build of the default value, and the exact reader accepts it and reads that value back. */
  lemma DefaultIsBuilt()
    ensures WellFormed(ScriptSchema()) && Typed(ScriptSchema(), DefaultScriptValue())
    ensures DEFAULT_SCRIPT == Build(ScriptSchema(), DefaultScriptValue())
    ensures Verify(ScriptSchema(), DEFAULT_SCRIPT, false) && Verify(ScriptSchema(), DEFAULT_SCRIPT, true)
    ensures Parse(ScriptSchema(), DEFAULT_SCRIPT) == DefaultScriptValue()
  {
    DefaultIsPrinted();
    var fields, v := ScriptSchema().fields, DefaultScriptValue();
    assert PackNumber(0) + [] == PackNumber(0);
    assert seq(|fields|, i requires 0 <= i < |fields| => Build(fields[i], v.items[i])) == Fields();
    BuildThenParse(ScriptSchema(), v);
  }
}
