/**
 * The C++ UIDs of uid.hxx and uid.cxx: uid_string keeps the characters in
 * 64 zero-initialised bytes, uid_bcd packs them into 32 bytes with the
 * base-11 nibbles of src/dicm-uid.c.
 */
module UidCxx {
  import opened Io
  import opened Wrappers
  import opened Uid

  /** A C string: strlen stops at the first NUL, so none is inside. */
  predicate IsCString(s: string) {
    forall i :: 0 <= i < |s| ==> s[i] != 0 as char
  }

  function Nuls(n: nat): (r: seq<char>)
    ensures |r| == n && forall i :: 0 <= i < n ==> r[i] == 0 as char
  {
    seq(n, _ => 0 as char)
  }

  /** struct uid_string: 64 characters. */
  datatype UidString = UidString(buf: seq<char>)

  /** uid_string::make_from_string: a zeroed value that receives a copy of
   *  the string when there is one of at most 64 characters. */
  function MakeUidString(input: Option<string>): (r: UidString)
    ensures |r.buf| == 64
    ensures input.Some? && |input.value| <= 64 ==> r.buf == input.value + Nuls(64 - |input.value|)
    ensures !(input.Some? && |input.value| <= 64) ==> r.buf == Nuls(64)
  {
    if input.Some? && |input.value| <= 64 then UidString(input.value + Nuls(64 - |input.value|))
    else UidString(Nuls(64))
  }

  /** operator== as written: the result of memcmp converted to bool, which
   *  is true when the buffers differ. */
  function EqualAsWritten(lhs: UidString, rhs: UidString): bool {
    lhs.buf != rhs.buf
  }

  /** As written, no UID equals itself, and distinct UIDs compare equal. */
  lemma AsWrittenEqualityInverted(x: UidString, y: UidString)
    ensures !EqualAsWritten(x, x)
    ensures EqualAsWritten(x, y) <==> x != y
  {
  }

  /** operator== as intended: memcmp(...) == 0. */
  function Equal(lhs: UidString, rhs: UidString): (r: bool)
    ensures r <==> lhs == rhs
  {
    lhs.buf == rhs.buf
  }

  /** With the intended comparison two UID strings of at most 64 characters
   *  compare equal exactly when they are the same string. */
  lemma {:induction false} EqualIffSameString(s: string, t: string)
    requires IsCString(s) && |s| <= 64 && IsCString(t) && |t| <= 64
    ensures Equal(MakeUidString(Some(s)), MakeUidString(Some(t))) <==> s == t
  {
    var a, b := MakeUidString(Some(s)).buf, MakeUidString(Some(t)).buf;
    if a == b {
      if |s| < 64 {
        assert a[|s|] == b[|s|];
      }
      if |t| < 64 {
        assert a[|t|] == b[|t|];
      }
      assert s == a[..|s|];
      assert t == b[..|t|];
    }
  }

  /** The 32 bytes uid_bcd::make_from_string produces: zero unless the
   *  string is there and fits in 64 characters. */
  function BcdOf(input: Option<string>): (r: seq<byte>)
    requires input.Some? && |input.value| <= 64 ==> IsUidString(input.value)
    ensures |r| == 32
  {
    if input.Some? && |input.value| <= 64 then Packed(input.value) else seq(32, _ => 0)
  }

  /** uid_bcd::make_from_string. */
  method MakeBcd(input: Option<string>) returns (r: seq<byte>)
    requires input.Some? && |input.value| <= 64 ==> IsUidString(input.value)
    ensures r == BcdOf(input)
  {
    var buf := new byte[32](_ => 0);
    if input.Some? && |input.value| <= 64 {
      PackInto(buf, input.value);
    }
    r := buf[..];
  }

  /** uid_bcd::to_array: both nibbles of each of the 32 bytes, through
   *  invbase11. */
  method ToArray(buf: seq<byte>) returns (r: seq<char>)
    requires |buf| == 32
    ensures r == Unpacked(buf)
  {
    var out := new char[64](_ => 0 as char);
    for i := 0 to 32
      invariant forall k :: 0 <= k < 2 * i ==> out[k] == Unpacked(buf)[k]
    {
      out[2 * i] := InvBase11(HiNibble(buf[i]));
      out[2 * i + 1] := InvBase11(LoNibble(buf[i]));
    }
    r := out[..];
  }

  /** to_array after make_from_string gives the UID back, NUL-padded to 64
   *  characters. */
  lemma BcdRoundTrip(s: string)
    requires IsUidString(s) && |s| <= 64
    ensures Unpacked(BcdOf(Some(s))) == s + Nuls(64 - |s|)
  {
    UnpackPacked(s);
  }

  /** The 64-digit UID "000...0". */
  const Zeros: string := seq(64, _ => '0')

  lemma PackedZeros()
    ensures IsUidString(Zeros) && Packed(Zeros) == seq(32, _ => 0)
  {
    forall i | 0 <= i < 32 ensures Packed(Zeros)[i] == 0 {
      assert Zeros[2 * i] == Zeros[2 * i + 1] == '0';
      assert PackedByte(Zeros, i) == Pack(0, 0);
    }
  }

  lemma UnpackedZero()
    ensures Unpacked(seq(32, _ => 0)) == Zeros
  {
    var u := Unpacked(seq(32, _ => 0));
    forall k | 0 <= k < 64 ensures u[k] == Zeros[k] {
      assert InvBase11(0) == '0';
    }
  }

  /** A missing or over-long string yields the zero value, which is also the
   *  packed form of the 64-digit UID "000...0": the error cannot be told
   *  apart from that UID, and it reads back as that UID. */
  lemma RejectedLooksLikeZeros(input: Option<string>)
    requires !(input.Some? && |input.value| <= 64)
    ensures IsUidString(Zeros) && BcdOf(input) == BcdOf(Some(Zeros))
    ensures Unpacked(BcdOf(input)) == Zeros
  {
    PackedZeros();
    UnpackedZero();
  }
}
