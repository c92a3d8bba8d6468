/**
 * The base64 encoding that examples/json.c and examples/xml.c use for
 * InlineBinary values (section 4 of RFC 4648): each group of three input
 * bytes becomes four characters of the alphabet below, and a final group of
 * one or two bytes is padded with "==" or "=".  The encoding is stated group
 * by group exactly as base64_print computes it, and a decoder is defined
 * beside it so that the encoding can be shown to lose nothing.
 */
module Base64 {
  import opened Io

  /** The k-th character of the alphabet, by ranges. */
  function Digit(k: int): char
    requires 0 <= k < 64
  {
    if k < 26 then ('A' as int + k) as char
    else if k < 52 then ('a' as int + k - 26) as char
    else if k < 62 then ('0' as int + k - 52) as char
    else if k == 62 then '+'
    else '/'
  }

  /** base64_chars, the table of section 4 of RFC 4648. */
  const Base64Chars: string := "ABCDEFGHIJKLMNOPQRSTUVWXYZ" + "abcdefghijklmnopqrstuvwxyz" + "0123456789+/"

  /** Digit(k) is entry k of base64_chars. */
  lemma DigitIsTableEntry(k: int)
    requires 0 <= k < 64
    ensures |Base64Chars| == 64 && Base64Chars[k] == Digit(k)
  {
    var u, l, d := "ABCDEFGHIJKLMNOPQRSTUVWXYZ", "abcdefghijklmnopqrstuvwxyz", "0123456789+/";
    assert Base64Chars == u + l + d;
    if k < 26 {
      assert Base64Chars[k] == u[k];
    } else if k < 52 {
      assert Base64Chars[k] == l[k - 26];
    } else {
      assert Base64Chars[k] == d[k - 52];
    }
  }

  /** The four characters base64_print looks up in base64_chars for a 24-bit
   *  value made of n real bytes are Quad(v, n). */
  lemma TableQuad(v: nat, n: nat)
    requires v < 0x100_0000 && 1 <= n <= 3
    ensures |Base64Chars| == 64
    ensures [Base64Chars[v / 0x4_0000 % 64], Base64Chars[v / 0x1000 % 64],
             if n >= 2 then Base64Chars[v / 64 % 64] else '=',
             if n >= 3 then Base64Chars[v % 64] else '='] == Quad(v, n)
  {
    DigitIsTableEntry(v / 0x4_0000 % 64);
    DigitIsTableEntry(v / 0x1000 % 64);
    DigitIsTableEntry(v / 64 % 64);
    DigitIsTableEntry(v % 64);
  }

  /** The position of an alphabet character in the table ('=' and anything
   *  else read as 0). */
  function Index(c: char): (k: int)
    ensures 0 <= k < 64
  {
    if 'A' <= c <= 'Z' then c as int - 'A' as int
    else if 'a' <= c <= 'z' then c as int - 'a' as int + 26
    else if '0' <= c <= '9' then c as int - '0' as int + 52
    else if c == '+' then 62
    else if c == '/' then 63
    else 0
  }

  lemma IndexDigit(k: int)
    requires 0 <= k < 64
    ensures Index(Digit(k)) == k
  {
  }

  /** base64_encoded_size: four characters for every started group of three. */
  function EncodedSize(n: nat): nat {
    (n + 2) / 3 * 4
  }

  /** The number of groups base64_print emits for n bytes. */
  function GroupCount(n: nat): nat {
    (n + 2) / 3
  }

  /** The 24-bit value v of the group starting at i, missing bytes read as 0. */
  function GroupValue(data: seq<byte>, i: nat): (v: nat)
    requires i < |data|
    ensures v < 0x100_0000
  {
    var b0: int := data[i];
    var b1: int := if i + 1 < |data| then data[i + 1] else 0;
    var b2: int := if i + 2 < |data| then data[i + 2] else 0;
    b0 * 0x1_0000 + b1 * 0x100 + b2
  }

  /** The number of input bytes in the group starting at i: 3, or the 1 or
   *  2 bytes left at the end. */
  function GroupLength(data: seq<byte>, i: nat): (n: nat)
    requires i < |data|
    ensures 1 <= n <= 3 && i + n <= |data|
  {
    if i + 3 <= |data| then 3 else |data| - i
  }

  /** The four characters for a 24-bit value v made of n real bytes: the
   *  digits v>>18, v>>12, v>>6 and v, each masked to 6 bits, with '=' in
   *  place of the digits no real byte contributes to. */
  function Quad(v: nat, n: nat): (r: string)
    ensures |r| == 4
  {
    [Digit(v / 0x4_0000 % 64),
     Digit(v / 0x1000 % 64),
     if n >= 2 then Digit(v / 64 % 64) else '=',
     if n >= 3 then Digit(v % 64) else '=']
  }

  /** The four characters base64_print emits for the group starting at i. */
  function Group(data: seq<byte>, i: nat): (r: string)
    requires i < |data|
    ensures |r| == 4
  {
    Quad(GroupValue(data, i), GroupLength(data, i))
  }

  /** The groups starting at 0, 3, ..., 3(k-1), each followed by `eol`. */
  function Groups(data: seq<byte>, k: nat, eol: string): (r: string)
    requires k <= GroupCount(|data|)
    ensures eol == [] ==> |r| == 4 * k
  {
    if k == 0 then [] else Groups(data, k - 1, eol) + Group(data, 3 * (k - 1)) + eol
  }

  /** base64_print's loop steps i by 3: one more group, the last once i
   *  reaches the length. */
  lemma GroupsNext(data: seq<byte>, i: nat, eol: string)
    requires i % 3 == 0 && i < |data|
    ensures i / 3 < GroupCount(|data|) && (i + 3) / 3 == i / 3 + 1
    ensures i + 3 >= |data| ==> (i + 3) / 3 == GroupCount(|data|)
    ensures Groups(data, (i + 3) / 3, eol) == Groups(data, i / 3, eol) + Group(data, i) + eol
  {
    assert 3 * ((i + 3) / 3 - 1) == i;
  }

  /** The body of base64_print's loop: the 24-bit value of the group at i,
   *  missing bytes read as 0, and its four characters. */
  method EncodeGroup(data: seq<byte>, i: nat) returns (out: string)
    requires i < |data|
    ensures out == Group(data, i)
  {
    var v: int := data[i];
    v := if i + 1 < |data| then v * 0x100 + data[i + 1] else v * 0x100;
    v := if i + 2 < |data| then v * 0x100 + data[i + 2] else v * 0x100;
    assert v == GroupValue(data, i);
    TableQuad(v, GroupLength(data, i));
    out := [Base64Chars[v / 0x4_0000 % 64], Base64Chars[v / 0x1000 % 64],
            if i + 1 < |data| then Base64Chars[v / 64 % 64] else '=',
            if i + 2 < |data| then Base64Chars[v % 64] else '='];
  }

  /** The text base64_print writes for the whole input. */
  function Encode(data: seq<byte>): string {
    Groups(data, GroupCount(|data|), "")
  }

  /** The encoding is exactly base64_encoded_size characters long. */
  lemma EncodeLength(data: seq<byte>)
    ensures |Encode(data)| == EncodedSize(|data|)
  {
  }

  predicate IsAlphabet(c: char) {
    'A' <= c <= 'Z' || 'a' <= c <= 'z' || '0' <= c <= '9' || c == '+' || c == '/'
  }

  lemma DigitIsAlphabet(k: int)
    requires 0 <= k < 64
    ensures IsAlphabet(Digit(k)) && Digit(k) != '='
  {
  }

  /** Every character of a group is from the table, except '=' padding:
   *  '=' stands exactly where the group has no byte to encode. */
  lemma QuadAlphabet(v: nat, n: nat)
    ensures forall j :: 0 <= j < 4 ==> (IsAlphabet(Quad(v, n)[j]) && Quad(v, n)[j] != '=') || Quad(v, n)[j] == '='
    ensures Quad(v, n)[0] != '=' && Quad(v, n)[1] != '='
    ensures Quad(v, n)[2] == '=' <==> n < 2
    ensures Quad(v, n)[3] == '=' <==> n < 3
  {
    DigitIsAlphabet(v / 0x4_0000 % 64);
    DigitIsAlphabet(v / 0x1000 % 64);
    DigitIsAlphabet(v / 64 % 64);
    DigitIsAlphabet(v % 64);
  }

  /** Every character emitted is from the table or '=', and '=' appears only
   *  in the last group. */
  lemma {:induction false} EncodeAlphabet(data: seq<byte>, k: nat, j: int)
    requires k <= GroupCount(|data|) && 0 <= j < 4 * k
    ensures var c := Groups(data, k, "")[j];
      (IsAlphabet(c) && c != '=') || (c == '=' && j / 4 == GroupCount(|data|) - 1)
  {
    var prev := Groups(data, k - 1, "");
    var i := 3 * (k - 1);
    var g := Group(data, i);
    assert Groups(data, k, "") == prev + g;
    if j < 4 * (k - 1) {
      assert Groups(data, k, "")[j] == prev[j];
      EncodeAlphabet(data, k - 1, j);
    } else {
      QuadAlphabet(GroupValue(data, i), GroupLength(data, i));
      assert Groups(data, k, "")[j] == g[j - 4 * (k - 1)];
      if g[j - 4 * (k - 1)] == '=' {
        assert GroupLength(data, i) < 3;
      }
    }
  }

  /** The last group holds 3 bytes when the length is a multiple of 3,
   *  and otherwise the length modulo 3. */
  lemma LastGroupLength(data: seq<byte>)
    requires |data| > 0
    ensures var i := 3 * (GroupCount(|data|) - 1);
      i < |data| && GroupLength(data, i) == if |data| % 3 == 0 then 3 else |data| % 3
  {
  }

  /** The padding rule: one '=' for a final group of two bytes, "==" for a
   *  final group of one byte, none when the length is a multiple of 3. */
  lemma Padding(data: seq<byte>)
    requires |data| > 0
    ensures var e := Encode(data); var n := |e|;
      n >= 4 &&
      (|data| % 3 == 0 ==> e[n - 2] != '=' && e[n - 1] != '=') &&
      (|data| % 3 == 2 ==> e[n - 2] != '=' && e[n - 1] == '=') &&
      (|data| % 3 == 1 ==> e[n - 2] == '=' && e[n - 1] == '=')
  {
    var k := GroupCount(|data|);
    var i := 3 * (k - 1);
    LastGroupLength(data);
    var g := Group(data, i);
    var e := Encode(data);
    assert e == Groups(data, k - 1, "") + g;
    assert e[|e| - 2] == g[2] && e[|e| - 1] == g[3];
    QuadAlphabet(GroupValue(data, i), GroupLength(data, i));
  }

  /** The 24-bit value a group of four characters stands for ('=' as 0). */
  function QuadValue(q: string): nat
    requires |q| == 4
  {
    Index(q[0]) * 0x4_0000 + Index(q[1]) * 0x1000 + Index(q[2]) * 64 + Index(q[3])
  }

  /** Decoding one group: three bytes, or fewer when it ends in padding. */
  function DecodeQuad(q: string): (r: seq<byte>)
    requires |q| == 4
  {
    var v := QuadValue(q);
    var bytes := [v / 0x1_0000 % 0x100, v / 0x100 % 0x100, v % 0x100];
    if q[2] == '=' then bytes[..1] else if q[3] == '=' then bytes[..2] else bytes
  }

  /** Decoding the first n groups of a text. */
  function DecodeGroupsOf(s: string, n: nat): seq<byte>
    requires 4 * n <= |s|
  {
    if n == 0 then [] else DecodeGroupsOf(s, n - 1) + DecodeQuad(s[4 * (n - 1)..4 * n])
  }

  /** Decoding a text group by group; a trailing part shorter than a group
   *  is ignored. */
  function Decode(s: string): seq<byte> {
    DecodeGroupsOf(s, |s| / 4)
  }

  /** Splitting a 24-bit value into four 6-bit digits and back. */
  lemma Sextets(v: nat)
    requires v < 0x100_0000
    ensures v / 0x4_0000 % 64 * 0x4_0000 + v / 0x1000 % 64 * 0x1000 + v / 64 % 64 * 64 + v % 64 == v
  {
    assert v / 0x4_0000 % 64 == v / 0x4_0000;
    assert v / 0x1000 == v / 0x4_0000 * 64 + v / 0x1000 % 64;
    assert v / 64 == v / 0x1000 * 64 + v / 64 % 64;
  }

  /** Splitting a 24-bit value into three bytes. */
  lemma Bytes(b0: byte, b1: byte, b2: byte)
    ensures var v := b0 * 0x1_0000 + b1 * 0x100 + b2;
      v / 0x1_0000 % 0x100 == b0 && v / 0x100 % 0x100 == b1 && v % 0x100 == b2
  {
    var v := b0 * 0x1_0000 + b1 * 0x100 + b2;
    assert v / 0x100 == b0 * 0x100 + b1;
  }

  /** The digits of a group read back as its value; '=' reads as zero, and
   *  stands only for digits that are zero. */
  lemma QuadValueOf(v: nat, n: nat)
    requires v < 0x100_0000 && (n < 3 ==> v % 64 == 0) && (n < 2 ==> v / 64 % 64 == 0)
    ensures QuadValue(Quad(v, n)) == v
  {
    var q := Quad(v, n);
    IndexDigit(v / 0x4_0000 % 64);
    IndexDigit(v / 0x1000 % 64);
    assert Index(q[2]) == v / 64 % 64 by {
      if n >= 2 { IndexDigit(v / 64 % 64); }
    }
    assert Index(q[3]) == v % 64 by {
      if n >= 3 { IndexDigit(v % 64); }
    }
    Sextets(v);
  }

  /** The low digits of a group with missing bytes are zero. */
  lemma MissingDigits(b0: byte, b1: byte, b2: byte, n: nat)
    requires (n < 3 ==> b2 == 0) && (n < 2 ==> b1 == 0)
    ensures var v := b0 * 0x1_0000 + b1 * 0x100 + b2;
      v < 0x100_0000 && (n < 3 ==> v % 64 == 0) && (n < 2 ==> v / 64 % 64 == 0)
  {
    var v := b0 * 0x1_0000 + b1 * 0x100 + b2;
    if n < 3 {
      assert v == (b0 * 0x400 + b1 * 4) * 64;
    }
    if n < 2 {
      assert v == b0 * 0x1_0000;
      assert v / 64 == b0 * 0x400;
    }
  }

  /** One group decodes to its n bytes: a missing byte is zero in v, so the
   *  digit '=' replaces is zero as well. */
  lemma QuadRoundTrip(b0: byte, b1: byte, b2: byte, n: nat)
    requires 1 <= n <= 3 && (n < 3 ==> b2 == 0) && (n < 2 ==> b1 == 0)
    ensures DecodeQuad(Quad(b0 * 0x1_0000 + b1 * 0x100 + b2, n)) == [b0, b1, b2][..n]
  {
    var v := b0 * 0x1_0000 + b1 * 0x100 + b2;
    MissingDigits(b0, b1, b2, n);
    QuadValueOf(v, n);
    QuadAlphabet(v, n);
    Bytes(b0, b1, b2);
  }

  lemma QuadOfGroup(data: seq<byte>, i: nat)
    requires i < |data|
    ensures DecodeQuad(Group(data, i)) == data[i..i + GroupLength(data, i)]
  {
    var n := GroupLength(data, i);
    var b1: byte := if i + 1 < |data| then data[i + 1] else 0;
    var b2: byte := if i + 2 < |data| then data[i + 2] else 0;
    QuadRoundTrip(data[i], b1, b2, n);
    assert data[i..i + n] == [data[i], b1, b2][..n];
  }

  /** Decoding one more group of the encoding appends that group's bytes. */
  lemma DecodeNextGroup(data: seq<byte>, j: nat)
    requires 0 < j <= GroupCount(|data|)
    ensures 4 * j <= |Encode(data)| && 3 * (j - 1) < |data|
    ensures var i := 3 * (j - 1);
      DecodeGroupsOf(Encode(data), j) == DecodeGroupsOf(Encode(data), j - 1) + data[i..i + GroupLength(data, i)]
  {
    var i := 3 * (j - 1);
    var e := Encode(data);
    LinesAreGroups(data, GroupCount(|data|), "", j - 1);
    assert (j - 1) * (4 + |""|) == 4 * (j - 1);
    var q := e[4 * (j - 1)..4 * j];
    assert q == Group(data, i);
    QuadOfGroup(data, i);
    assert DecodeGroupsOf(e, j) == DecodeGroupsOf(e, j - 1) + DecodeQuad(q);
  }

  lemma {:induction false} DecodeGroups(data: seq<byte>, j: nat)
    requires j <= GroupCount(|data|)
    ensures 4 * j <= |Encode(data)|
    ensures DecodeGroupsOf(Encode(data), j) == data[..if 3 * j <= |data| then 3 * j else |data|]
  {
    if j > 0 {
      var i := 3 * (j - 1);
      var hi := if 3 * j <= |data| then 3 * j else |data|;
      assert i < |data| && i + GroupLength(data, i) == hi;
      assert data[..hi] == data[..i] + data[i..hi];
      DecodeGroups(data, j - 1);
      DecodeNextGroup(data, j);
    }
  }

  /** Decoding the encoding gives the input back: base64_print loses no
   *  information. */
  lemma DecodeEncode(data: seq<byte>)
    ensures Decode(Encode(data)) == data
  {
    var k := GroupCount(|data|);
    var e := Encode(data);
    assert |e| == 4 * k;
    assert |e| / 4 == k;
    assert 3 * k >= |data|;
    DecodeGroups(data, k);
    assert data[..|data|] == data;
  }

  lemma {:induction false} GroupsPrefix(data: seq<byte>, j: nat, k: nat, eol: string)
    requires j <= k <= GroupCount(|data|)
    ensures Groups(data, j, eol) <= Groups(data, k, eol)
  {
    if j < k {
      GroupsPrefix(data, j, k - 1, eol);
    }
  }

  /** Each group takes its four characters and the end of line. */
  lemma {:induction false} GroupsLength(data: seq<byte>, k: nat, eol: string)
    requires k <= GroupCount(|data|)
    ensures |Groups(data, k, eol)| == k * (4 + |eol|)
  {
    if k > 0 {
      GroupsLength(data, k - 1, eol);
      assert (k - 1) * (4 + |eol|) + 4 + |eol| == k * (4 + |eol|);
    }
  }

  /** With an end-of-line after each group (the XML writer), the j-th line
   *  holds the same four characters as the j-th group of the JSON text. */
  lemma LinesAreGroups(data: seq<byte>, k: nat, eol: string, j: nat)
    requires j < k <= GroupCount(|data|)
    ensures var a := Groups(data, k, eol); var w := 4 + |eol|;
      j * w + 4 <= |a| && a[j * w..j * w + 4] == Group(data, 3 * j)
  {
    var w := 4 + |eol|;
    GroupsPrefix(data, j + 1, k, eol);
    var b := Groups(data, j + 1, eol);
    assert b == Groups(data, j, eol) + Group(data, 3 * j) + eol;
    GroupsLength(data, j, eol);
    assert b[j * w..j * w + 4] == Group(data, 3 * j);
  }

  /** A group that lies inside the first part reads the same bytes. */
  lemma GroupInPrefix(a: seq<byte>, b: seq<byte>, i: nat)
    requires i + 3 <= |a|
    ensures Group(a + b, i) == Group(a, i)
  {
    var d := a + b;
    assert d[i] == a[i] && d[i + 1] == a[i + 1] && d[i + 2] == a[i + 2];
  }

  /** After a first part whose length is a multiple of 3, the groups of the
   *  second part start on a group boundary and read the same bytes. */
  lemma GroupAfterPrefix(a: seq<byte>, b: seq<byte>, i: nat)
    requires i < |b|
    ensures Group(a + b, |a| + i) == Group(b, i)
  {
    var d := a + b;
    assert d[|a| + i] == b[i];
    if i + 1 < |b| {
      assert d[|a| + i + 1] == b[i + 1];
    }
    if i + 2 < |b| {
      assert d[|a| + i + 2] == b[i + 2];
    }
  }

  lemma {:induction false} GroupsOfPrefix(a: seq<byte>, b: seq<byte>, k: nat)
    requires |a| % 3 == 0 && 3 * k <= |a|
    ensures k <= GroupCount(|a + b|) && k <= GroupCount(|a|)
    ensures Groups(a + b, k, "") == Groups(a, k, "")
  {
    if k > 0 {
      GroupsOfPrefix(a, b, k - 1);
      GroupInPrefix(a, b, 3 * (k - 1));
    }
  }

  lemma AppendEmpty(s: string)
    ensures s + "" == s
  {
  }

  lemma GroupCountAppend(a: seq<byte>, b: seq<byte>, m: nat)
    requires |a| == 3 * m
    ensures GroupCount(|a|) == m && GroupCount(|a + b|) == m + GroupCount(|b|)
  {
    assert |a + b| + 2 == 3 * m + (|b| + 2);
  }

  /** Group k - 1 starts inside the input. */
  lemma GroupStart(n: nat, k: nat)
    requires 1 <= k <= GroupCount(n)
    ensures 3 * (k - 1) < n
  {
  }

  /** The last of k groups, without a line end. */
  lemma GroupsStep(d: seq<byte>, k: nat)
    requires 1 <= k <= GroupCount(|d|)
    ensures 3 * (k - 1) < |d|
    ensures Groups(d, k, "") == Groups(d, k - 1, "") + Group(d, 3 * (k - 1))
  {
    GroupStart(|d|, k);
    AppendEmpty(Groups(d, k - 1, "") + Group(d, 3 * (k - 1)));
  }

  lemma GroupsStepAfterPrefix(a: seq<byte>, b: seq<byte>, m: nat, k: nat)
    requires |a| == 3 * m && 1 <= k <= GroupCount(|b|)
    requires m + k <= GroupCount(|a + b|)
    ensures 3 * (k - 1) < |b|
    ensures Groups(a + b, m + k, "") == Groups(a + b, m + k - 1, "") + Group(b, 3 * (k - 1))
  {
    GroupStart(|b|, k);
    GroupsStep(a + b, m + k);
    assert 3 * (m + k - 1) == |a| + 3 * (k - 1);
    GroupAfterPrefix(a, b, 3 * (k - 1));
  }

  lemma GroupsOfWhole(a: seq<byte>, b: seq<byte>, m: nat)
    requires |a| == 3 * m
    ensures m <= GroupCount(|a + b|) && m <= GroupCount(|a|)
    ensures Groups(a + b, m, "") == Groups(a, m, "") + Groups(b, 0, "")
  {
    GroupsOfPrefix(a, b, m);
    AppendEmpty(Groups(a, m, ""));
  }

  /** One more group on both sides of GroupsAfterPrefix. */
  lemma GroupsAfterPrefixStep(a: seq<byte>, b: seq<byte>, m: nat, k: nat)
    requires |a| == 3 * m && 1 <= k <= GroupCount(|b|)
    requires m + k <= GroupCount(|a + b|) && m <= GroupCount(|a|)
    requires Groups(a + b, m + k - 1, "") == Groups(a, m, "") + Groups(b, k - 1, "")
    ensures Groups(a + b, m + k, "") == Groups(a, m, "") + Groups(b, k, "")
  {
    GroupsStepAfterPrefix(a, b, m, k);
    GroupsStep(b, k);
    var z, y, g := Groups(a, m, ""), Groups(b, k - 1, ""), Group(b, 3 * (k - 1));
    assert (z + y) + g == z + (y + g);
  }

  lemma {:induction false} GroupsAfterPrefix(a: seq<byte>, b: seq<byte>, m: nat, k: nat)
    requires |a| == 3 * m && k <= GroupCount(|b|)
    requires m + k <= GroupCount(|a + b|) && m <= GroupCount(|a|)
    ensures Groups(a + b, m + k, "") == Groups(a, m, "") + Groups(b, k, "")
  {
    if k == 0 {
      GroupsOfWhole(a, b, m);
    } else {
      GroupsAfterPrefix(a, b, m, k - 1);
      GroupsAfterPrefixStep(a, b, m, k);
    }
  }

  /** Encoding a first part whose length is a multiple of 3 and then the
   *  rest gives the encoding of the whole: no padding comes in between. */
  lemma EncodeAppend(a: seq<byte>, b: seq<byte>)
    requires |a| % 3 == 0
    ensures Encode(a + b) == Encode(a) + Encode(b)
  {
    var m := |a| / 3;
    GroupCountAppend(a, b, m);
    GroupsAfterPrefix(a, b, m, GroupCount(|b|));
  }
}
