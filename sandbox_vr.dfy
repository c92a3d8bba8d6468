/**
 * The sandbox variant of the value representation (sandbox/vr.cxx): the
 * same packing, table and `underlying` check as vr.cxx, built through the
 * factories make_from_type and make_from_string.
 */
module SandboxVr {
  import opened Io
  import opened Wrappers
  import V = Vr

  /** make_from_type: the int is converted to the uint16_t field, modulo 2^16. */
  function MakeFromType(val: int): (v: V.ValueRepresentation)
    ensures 0 <= val < 0x1_0000 ==> v.val == val
    ensures (v.val - val) % 0x1_0000 == 0
  {
    V.ValueRepresentation(val % 0x1_0000)
  }

  /** make_from_string: the second letter in the low byte, the first in the
   *  high byte, handed to make_from_type.  It packs as vr.hxx's `set` does. */
  function MakeFromString(s: string): (v: V.ValueRepresentation)
    requires |s| >= 2
    ensures v == V.Set(s)
  {
    MakeFromType(Le16(V.Offset(s[1]), V.Offset(s[0])))
  }

  /** to_array after make_from_string gives back the two characters. */
  lemma RoundTrip(s: string)
    requires |s| >= 2 && V.IsByteChar(s[0]) && V.IsByteChar(s[1])
    ensures V.ToArray(MakeFromString(s)) == s[..2]
  {
    V.ToArraySet(s);
  }

  /** make_from_type keeps every value of the field, and two ints give the
   *  same value exactly when they agree modulo 2^16. */
  lemma MakeFromTypeTruncates(a: int, b: int)
    ensures MakeFromType(a) == MakeFromType(b) <==> (a - b) % 0x1_0000 == 0
  {
    var x: int, y: int := MakeFromType(a).val, MakeFromType(b).val;
    assert a == (a / 0x1_0000) * 0x1_0000 + x;
    assert b == (b / 0x1_0000) * 0x1_0000 + y;
    assert a - b == (a / 0x1_0000 - b / 0x1_0000) * 0x1_0000 + (x - y);
    if (a - b) % 0x1_0000 == 0 {
      ModOfMultiple(a / 0x1_0000 - b / 0x1_0000, x - y);
    }
  }

  lemma ModOfMultiple(q: int, d: int)
    requires -0x1_0000 < d < 0x1_0000
    requires (q * 0x1_0000 + d) % 0x1_0000 == 0
    ensures d == 0
  {
    var n := q * 0x1_0000 + d;
    var k := n / 0x1_0000;
    assert n == k * 0x1_0000;
    assert d == (k - q) * 0x1_0000;
  }

  /** The test list's extra code "ZZ" packs to 6425, which is no
   *  enumerator: `underlying` throws for it. */
  lemma ZZIsInvalid()
    ensures MakeFromString("ZZ").val == 6425
    ensures V.Underlying(MakeFromString("ZZ")) == Err("invalid vr")
  {
    V.EnumeratorsAscending();
    assert 6425 !in V.Enumerators by {
      assert V.Enumerators[|V.Enumerators| - 1] < 6425;
    }
  }
}
