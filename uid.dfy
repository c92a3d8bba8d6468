/**
 * UIDs of src/dicm-uid.c (PS3.5 section 9.1): strings of digits and '.' of
 * at most 64 characters, kept either as the characters themselves or packed
 * two characters to a byte in base 11 ('.' is 0xA), with 0xF ending an odd
 * string and 0xFF filling the rest of the 32 bytes.
 */
module Uid {
  import opened Io
  import opened Wrappers

  /** A character a UID may hold. */
  predicate IsUidChar(c: char) { c == '.' || '0' <= c <= '9' }

  predicate IsUidString(s: string) {
    forall i :: 0 <= i < |s| ==> IsUidChar(s[i])
  }

  /** A 4-bit value. */
  type nibble = x: int | 0 <= x < 0x10

  /** base11: '.' is 0xA and a digit is its value.  Its argument is always a
   *  UID character, as the assertions that follow each call check. */
  function Base11(c: char): (n: nibble)
    requires IsUidChar(c)
    ensures n <= 0xA
    ensures n == 0xA <==> c == '.'
  {
    if c == '.' then 0xA else c as int - '0' as int
  }

  /** invbase11: 0xF, the terminator, reads as NUL; 0xA as '.'; the others
   *  as the digit '0' + n (the assertion that n <= 9 is not enforced). */
  function InvBase11(n: nibble): char {
    if n == 0xF then 0 as char
    else if n == 0xA then '.'
    else ('0' as int + n) as char
  }

  /** invbase11 undoes base11 on every UID character. */
  lemma InvBase11Base11(c: char)
    requires IsUidChar(c)
    ensures InvBase11(Base11(c)) == c
  {
  }

  /** HI_NIBBLE and LO_NIBBLE of an unsigned char. */
  function HiNibble(b: byte): nibble { b / 0x10 }
  function LoNibble(b: byte): nibble { b % 0x10 }

  /** `hi << 4 | lo` for two nibbles. */
  function Pack(hi: nibble, lo: nibble): (b: byte)
    ensures HiNibble(b) == hi && LoNibble(b) == lo
  {
    hi * 0x10 + lo
  }

  /** The terminator nibble of an odd-length UID. */
  const Term: nibble := 0xF

  /** Byte i of the packed form of s. */
  function PackedByte(s: string, i: nat): byte
    requires IsUidString(s)
  {
    if 2 * i + 1 < |s| then Pack(Base11(s[2 * i]), Base11(s[2 * i + 1]))
    else if 2 * i + 1 == |s| then Pack(Base11(s[2 * i]), Term)
    else 0xFF
  }

  /** The 32 bytes packed_uid_from_string stores for a UID of at most 64
   *  characters. */
  function Packed(s: string): (r: seq<byte>)
    requires IsUidString(s) && |s| <= 64
    ensures |r| == 32
    ensures forall i :: 0 <= i < 32 ==> r[i] == PackedByte(s, i)
  {
    seq(32, i requires 0 <= i < 32 => PackedByte(s, i))
  }

  /** Reading the 32 bytes back nibble by nibble, high nibble first. */
  function Unpacked(buf: seq<byte>): (r: seq<char>)
    requires |buf| == 32
    ensures |r| == 64
    ensures forall k :: 0 <= k < 64 ==>
      r[k] == InvBase11(if k % 2 == 0 then HiNibble(buf[k / 2]) else LoNibble(buf[k / 2]))
  {
    seq(64, k requires 0 <= k < 64 =>
      InvBase11(if k % 2 == 0 then HiNibble(buf[k / 2]) else LoNibble(buf[k / 2])))
  }

  /** Unpacking a packed UID gives the UID back, followed by NULs up to 64
   *  characters: the odd terminator and the 0xFF padding read as NUL. */
  lemma UnpackPacked(s: string)
    requires IsUidString(s) && |s| <= 64
    ensures Unpacked(Packed(s)) == s + seq(64 - |s|, _ => 0 as char)
  {
    var p := Packed(s);
    var u := Unpacked(p);
    var t := s + seq(64 - |s|, _ => 0 as char);
    forall k | 0 <= k < 64 ensures u[k] == t[k] {
      var i := k / 2;
      if k < |s| {
        InvBase11Base11(s[k]);
      }
      assert p[i] == PackedByte(s, i);
    }
  }

  /** The padding: an odd UID ends in a byte whose low nibble is the
   *  terminator, and every byte after the characters is 0xFF. */
  lemma PackedPadding(s: string)
    requires IsUidString(s) && |s| <= 64
    ensures |s| % 2 == 1 ==> LoNibble(Packed(s)[|s| / 2]) == Term
    ensures forall i :: (|s| + 1) / 2 <= i < 32 ==> Packed(s)[i] == 0xFF
  {
  }

  /** Two UIDs pack to the same bytes only if they are the same string. */
  lemma PackedInjective(s: string, t: string)
    requires IsUidString(s) && |s| <= 64 && IsUidString(t) && |t| <= 64
    requires Packed(s) == Packed(t)
    ensures s == t
  {
    UnpackPacked(s);
    UnpackPacked(t);
    var a := s + seq(64 - |s|, _ => 0 as char);
    var b := t + seq(64 - |t|, _ => 0 as char);
    assert a == b;
    forall k | 0 <= k < 64 ensures (a[k] == 0 as char) == (k >= |s|) && (b[k] == 0 as char) == (k >= |t|) {
    }
    if |s| < 64 {
      assert a[|s|] == b[|s|];
    }
    if |t| < 64 {
      assert a[|t|] == b[|t|];
    }
    assert s == a[..|s|];
  }

  /** The loops of packed_uid_from_string and uid_bcd::make_from_string:
   *  the pairs, the odd last character with its terminator, then the 0xFF
   *  padding. */
  method PackInto(buf: array<byte>, s: string)
    requires buf.Length == 32 && IsUidString(s) && |s| <= 64
    modifies buf
    ensures buf[..] == Packed(s)
  {
    var len := |s|;
    var i := 0;
    while i < len / 2
      invariant 0 <= i <= len / 2
      invariant forall j :: 0 <= j < i ==> buf[j] == PackedByte(s, j)
    {
      var hi := Base11(s[2 * i]);
      var lo := Base11(s[2 * i + 1]);
      buf[i] := Pack(hi, lo);
      i := i + 1;
    }
    if len % 2 == 1 {
      var hi := Base11(s[len - 1]);
      buf[len / 2] := Pack(hi, Term);
    }
    var k := (len + 1) / 2;
    while k < 32
      invariant (len + 1) / 2 <= k <= 32
      invariant forall j :: 0 <= j < k ==> buf[j] == PackedByte(s, j)
    {
      buf[k] := 0xFF;
      k := k + 1;
    }
    assert buf[..] == Packed(s);
  }

  /** struct _uid: 64 characters, not NUL-terminated when full. */
  class UidBuffer {
    const buf: array<char>

    constructor ()
      ensures buf.Length == 64 && fresh(buf)
    {
      buf := new char[64](_ => 0 as char);
    }

    /** uid_from_string: false for a missing string or one longer than 64;
     *  otherwise strncpy of exactly its characters, which leaves the rest of
     *  the buffer as it was. */
    method FromString(input: Option<string>) returns (ok: bool)
      requires buf.Length == 64
      modifies buf
      ensures ok <==> input.Some? && |input.value| <= 64
      ensures ok ==> buf[..] == input.value + old(buf[..])[|input.value|..]
      ensures !ok ==> buf[..] == old(buf[..])
    {
      if input.None? {
        return false;
      }
      var s := input.value;
      if |s| <= 64 {
        forall i | 0 <= i < |s| {
          buf[i] := s[i];
        }
        assert buf[..] == s + old(buf[..])[|s|..];
        return true;
      }
      return false;
    }
  }

  /** struct _packed_uid: 32 bytes. */
  class PackedUid {
    const buf: array<byte>

    constructor ()
      ensures buf.Length == 32 && fresh(buf)
    {
      buf := new byte[32](_ => 0);
    }

    /** packed_uid_from_string: false for a missing string or one longer than
     *  64, leaving the buffer alone; otherwise the pairs, the odd last
     *  character with its terminator, and the 0xFF padding. */
    method FromString(input: Option<string>) returns (ok: bool)
      requires buf.Length == 32
      requires input.Some? && |input.value| <= 64 ==> IsUidString(input.value)
      modifies buf
      ensures ok <==> input.Some? && |input.value| <= 64
      ensures ok ==> buf[..] == Packed(input.value)
      ensures !ok ==> buf[..] == old(buf[..])
    {
      if input.None? {
        return false;
      }
      var s := input.value;
      if |s| > 64 {
        return false;
      }
      PackInto(buf, s);
      return true;
    }
  }
}
