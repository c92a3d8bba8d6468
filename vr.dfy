/**
 * The C++ value representation of vr.hxx and vr.cxx: a two-letter VR code
 * packed into a uint16_t as (first - 'A') * 256 + (second - 'A'), the 30
 * enumerators of PS3.5 section 6.2, and the membership check `underlying`.
 */
module Vr {
  import opened Io
  import opened Wrappers

  /** A C `char`: one byte. */
  predicate IsByteChar(c: char) { c as int < 0x100 }

  /** A `char` holding `c - 'A'`, truncated to 8 bits as its bit pattern. */
  function Offset(c: char): byte {
    (c as int - 'A' as int) % 0x100
  }

  /** The character `b + 'A'` of a `char` holding byte b. */
  function Letter(b: byte): (c: char)
    ensures IsByteChar(c)
  {
    ((b + 'A' as int) % 0x100) as char
  }

  /** struct value_representation: only `val` is stored. */
  datatype ValueRepresentation = ValueRepresentation(val: u16)

  /** value_representation::set: the second letter in the low byte, the first
   *  in the high byte of the little-endian union. */
  function Set(s: string): (v: ValueRepresentation)
    requires |s| >= 2
    ensures v.val == Le16(Offset(s[1]), Offset(s[0]))
  {
    ValueRepresentation(Le16(Offset(s[1]), Offset(s[0])))
  }

  /** value_representation::to_array: the high byte gives the first letter. */
  function ToArray(v: ValueRepresentation): (s: string)
    ensures |s| == 2 && IsByteChar(s[0]) && IsByteChar(s[1])
  {
    [Letter(v.val / 0x100), Letter(v.val % 0x100)]
  }

  /** operator==: two values are equal when their `val` fields are. */
  function Equal(lhs: ValueRepresentation, rhs: ValueRepresentation): (r: bool)
    ensures r <==> lhs == rhs
  {
    lhs.val == rhs.val
  }

  /** Reading back a packed code gives the two characters again, for every
   *  pair of 8-bit characters. */
  lemma ToArraySet(s: string)
    requires |s| >= 2 && IsByteChar(s[0]) && IsByteChar(s[1])
    ensures ToArray(Set(s)) == s[..2]
  {
    var v := Set(s);
    DivMod16Byte(Offset(s[0]), Offset(s[1]));
    assert v.val / 0x100 == Offset(s[0]) && v.val % 0x100 == Offset(s[1]);
  }

  /** Packing the characters of a value gives the value again: `set` and
   *  `to_array` are inverse bijections between uint16_t and pairs of bytes. */
  lemma SetToArray(v: ValueRepresentation)
    ensures Set(ToArray(v)) == v
  {
    var s := ToArray(v);
    assert Offset(s[0]) == v.val / 0x100;
    assert Offset(s[1]) == v.val % 0x100;
  }

  lemma DivMod16Byte(hi: byte, lo: byte)
    ensures Le16(lo, hi) / 0x100 == hi && Le16(lo, hi) % 0x100 == lo
  {
  }

  /** Uppercase letters pack without wrapping, and the packing orders codes
   *  as their names are ordered: first letter, then second. */
  predicate IsUpper(c: char) { 'A' <= c <= 'Z' }

  lemma UpperOffset(c: char)
    requires IsUpper(c)
    ensures Offset(c) == c as int - 'A' as int
  {
  }

  lemma SetOrder(a: string, b: string)
    requires |a| >= 2 && |b| >= 2
    requires IsUpper(a[0]) && IsUpper(a[1]) && IsUpper(b[0]) && IsUpper(b[1])
    ensures Set(a).val == (a[0] as int - 'A' as int) * 0x100 + (a[1] as int - 'A' as int)
    ensures Set(a).val < Set(b).val <==> a[0] < b[0] || (a[0] == b[0] && a[1] < b[1])
    ensures Set(a) == Set(b) <==> a[..2] == b[..2]
  {
    UpperOffset(a[0]);
    UpperOffset(a[1]);
    UpperOffset(b[0]);
    UpperOffset(b[1]);
    var a0, a1 := a[0] as int - 'A' as int, a[1] as int - 'A' as int;
    var b0, b1 := b[0] as int - 'A' as int, b[1] as int - 'A' as int;
    assert Set(a).val == a0 * 0x100 + a1;
    assert Set(b).val == b0 * 0x100 + b1;
    LexOrder(a0, a1, b0, b1);
    if Set(a) == Set(b) {
      ToArraySet(a);
      ToArraySet(b);
    }
  }

  lemma LexOrder(a0: int, a1: int, b0: int, b1: int)
    requires 0 <= a1 < 0x100 && 0 <= b1 < 0x100
    ensures a0 * 0x100 + a1 < b0 * 0x100 + b1 <==> a0 < b0 || (a0 == b0 && a1 < b1)
  {
    if a0 < b0 {
      assert a0 * 0x100 + 0x100 <= b0 * 0x100;
    } else if a0 > b0 {
      assert b0 * 0x100 + 0x100 <= a0 * 0x100;
    }
  }

  /** The enumerators of value_representation::type. */
  const AE: u16 := 4
  const AS: u16 := 18
  const AT: u16 := 19
  const CS: u16 := 530
  const DA: u16 := 768
  const DS: u16 := 786
  const DT: u16 := 787
  const FL: u16 := 1291
  const FD: u16 := 1283
  const IS: u16 := 2066
  const LO: u16 := 2830
  const LT: u16 := 2835
  const OB: u16 := 3585
  const OD: u16 := 3587
  const OF: u16 := 3589
  const OW: u16 := 3606
  const PN: u16 := 3853
  const SH: u16 := 4615
  const SL: u16 := 4619
  const SQ: u16 := 4624
  const SS: u16 := 4626
  const ST: u16 := 4627
  const TM: u16 := 4876
  const UC: u16 := 5122
  const UI: u16 := 5128
  const UL: u16 := 5131
  const UN: u16 := 5133
  const UR: u16 := 5137
  const US: u16 := 5138
  const UT: u16 := 5139

  /** The names of the enumerators, in table order. */
  const Names: seq<string> := [
    "AE", "AS", "AT", "CS", "DA", "DS", "DT", "FD", "FL", "IS",
    "LO", "LT", "OB", "OD", "OF", "OW", "PN", "SH", "SL", "SQ",
    "SS", "ST", "TM", "UC", "UI", "UL", "UN", "UR", "US", "UT"]

  /** enum_traits<type>::enumerators. */
  const Enumerators: seq<u16> := [
    AE, AS, AT, CS, DA, DS, DT, FD, FL, IS,
    LO, LT, OB, OD, OF, OW, PN, SH, SL, SQ,
    SS, ST, TM, UC, UI, UL, UN, UR, US, UT]

  /** Every enumerator is `set` applied to its own name. */
  lemma EnumeratorsAreNames()
    ensures |Names| == |Enumerators| == 30
    ensures forall i :: 0 <= i < |Names| ==> |Names[i]| == 2 && Set(Names[i]).val == Enumerators[i]
  {
  }

  predicate StrictlyAscending(t: seq<u16>) {
    forall i, j :: 0 <= i < j < |t| ==> t[i] < t[j]
  }

  /** The table is strictly ascending, as `sorted = true` claims. */
  lemma EnumeratorsAscending()
    ensures StrictlyAscending(Enumerators)
  {
    NeighboursIncrease();
    forall i, j | 0 <= i < j < |Enumerators| ensures Enumerators[i] < Enumerators[j] {
      Adjacent(Enumerators, i, j);
    }
  }

  lemma NeighboursIncrease()
    ensures forall k :: 0 <= k < |Enumerators| - 1 ==> Enumerators[k] < Enumerators[k + 1]
  {
  }

  /** In a table whose neighbours increase, every earlier entry is smaller. */
  lemma {:induction false} Adjacent(t: seq<u16>, i: nat, j: nat)
    requires forall k :: 0 <= k < |t| - 1 ==> t[k] < t[k + 1]
    requires i < j < |t|
    ensures t[i] < t[j]
    decreases j - i
  {
    if i + 1 < j {
      Adjacent(t, i + 1, j);
    }
  }

  /** std::binary_search on a sorted table: lower_bound, then a comparison. */
  method BinarySearch(t: seq<u16>, v: int) returns (found: bool)
    requires StrictlyAscending(t)
    ensures found <==> v in t
  {
    var lo, hi := 0, |t|;
    while lo < hi
      invariant 0 <= lo <= hi <= |t|
      invariant forall k :: 0 <= k < lo ==> t[k] < v
      invariant forall k :: hi <= k < |t| ==> v <= t[k]
      decreases hi - lo
    {
      var mid := lo + (hi - lo) / 2;
      if t[mid] < v {
        lo := mid + 1;
      } else {
        hi := mid;
      }
    }
    found := lo < |t| && t[lo] == v;
  }

  /** check<type>: the value itself when it is an enumerator, otherwise the
   *  range_error "invalid vr". */
  function Check(v: u16): (r: Result<u16, string>)
    ensures r.Ok? <==> v in Enumerators
    ensures r.Ok? ==> r.value == v
    ensures r.Err? ==> r.error == "invalid vr"
  {
    if v in Enumerators then Ok(v) else Err("invalid vr")
  }

  /** check<type> as the source runs it, through binary_search. */
  method CheckBySearch(v: u16) returns (r: Result<u16, string>)
    ensures r == Check(v)
  {
    EnumeratorsAscending();
    var found := BinarySearch(Enumerators, v);
    if found {
      return Ok(v);
    }
    return Err("invalid vr");
  }

  /** value_representation::underlying. */
  function Underlying(v: ValueRepresentation): Result<u16, string> {
    Check(v.val)
  }

  /** `underlying` succeeds exactly for the packed codes of the 30 listed
   *  names. */
  lemma UnderlyingNames(s: string)
    requires |s| >= 2
    ensures Underlying(Set(s)).Ok? <==> exists i :: 0 <= i < |Names| && Set(Names[i]) == Set(s)
  {
    EnumeratorsAreNames();
    if Underlying(Set(s)).Ok? {
      var i :| 0 <= i < |Enumerators| && Enumerators[i] == Set(s).val;
      assert Set(Names[i]) == Set(s);
    }
  }
}
