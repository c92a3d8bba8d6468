/**
 * Text output shared by the JSON and XML writers of examples/json.c and
 * examples/xml.c: a character sink that stands for dicm_io_write on the
 * output file, and the snprintf conversions the writers use (%s, %.*s, %c,
 * %*s, %04X and the decimal integer conversions).
 */
module TextIo {
  import opened Io

  const NUL: char := 0 as char

  /** print_eol: a new line, in pretty mode only. */
  function Eol(pretty: bool): string {
    if pretty then "\n" else ""
  }

  /** snprintf into a 512-byte buffer keeps at most 511 characters. */
  const BufferLimit: nat := 511

  function Formatted(s: string): (r: string)
    ensures r <= s && |r| == Min(|s|, BufferLimit)
    ensures NUL !in s ==> NUL !in r
    ensures |s| <= BufferLimit ==> r == s
  {
    Clip(s, BufferLimit)
  }

  /** What %s (or %.*s) prints of `s`: the characters before the first NUL. */
  function CString(s: string): (r: string)
    ensures r <= s
    ensures NUL !in r
    ensures |r| < |s| ==> s[|r|] == NUL
  {
    if s == [] || s[0] == NUL then [] else [s[0]] + CString(s[1..])
  }

  lemma CStringNoNul(s: string)
    requires NUL !in s
    ensures CString(s) == s
  {
  }

  /** A value buffer seen as the `const char *` the string printers walk. */
  function Chars(b: seq<byte>): (r: string)
    ensures |r| == |b| && forall i :: 0 <= i < |b| ==> r[i] == b[i] as char
  {
    seq(|b|, i requires 0 <= i < |b| => b[i] as char)
  }

  /** `n` spaces, as "%*s" prints the empty string at width n. */
  function Spaces(n: nat): (r: string)
    ensures |r| == n && forall i :: 0 <= i < n ==> r[i] == ' '
  {
    if n == 0 then [] else Spaces(n - 1) + [' ']
  }

  function Abs(x: int): nat { if x < 0 then -x else x }

  function HexDigit(d: int): (c: char)
    requires 0 <= d < 16
    ensures '0' <= c <= 'F'
  {
    if d < 10 then ('0' as int + d) as char else ('A' as int + d - 10) as char
  }

  function HexValue(c: char): int {
    if '0' <= c <= '9' then c as int - '0' as int
    else if 'A' <= c <= 'F' then c as int - 'A' as int + 10
    else 0
  }

  /** "%04X" of a 16-bit value: four upper-case hexadecimal digits. */
  function Hex4(x: u16): (r: string)
    ensures |r| == 4 && NUL !in r
  {
    [HexDigit(x / 0x1000), HexDigit(x / 0x100 % 16), HexDigit(x / 16 % 16), HexDigit(x % 16)]
  }

  /** Reading hexadecimal digits back, most significant first. */
  function HexNumber(s: string): int {
    if s == [] then 0 else HexNumber(s[..|s| - 1]) * 16 + HexValue(s[|s| - 1])
  }

  /** Reading the four digits back gives the value. */
  lemma Hex4Value(x: u16)
    ensures HexNumber(Hex4(x)) == x
  {
    var r := Hex4(x);
    HexDigitValue(x / 0x1000);
    HexDigitValue(x / 0x100 % 16);
    HexDigitValue(x / 16 % 16);
    HexDigitValue(x % 16);
    var a, b, c, d := x / 0x1000, x / 0x100 % 16, x / 16 % 16, x % 16;
    assert x / 0x100 == a * 16 + b;
    assert x / 16 == (x / 0x100) * 16 + c;
    assert HexNumber(r[..1]) == a by { assert r[..1][..0] == []; }
    assert HexNumber(r[..2]) == a * 16 + b by { assert r[..2][..1] == r[..1]; }
    assert HexNumber(r[..3]) == (a * 16 + b) * 16 + c by { assert r[..3][..2] == r[..2]; }
    assert r[..|r| - 1] == r[..3];
  }

  /** Each digit more shifts what comes before by 4 bits. */
  lemma {:induction false} HexNumberAppend(a: string, b: string)
    ensures HexNumber(a + b) == HexNumber(a) * Pow16(|b|) + HexNumber(b)
    decreases |b|
  {
    if b == [] {
      assert a + b == a;
    } else {
      var b1, last := b[..|b| - 1], b[|b| - 1];
      assert (a + b)[..|a + b| - 1] == a + b1;
      assert (a + b)[|a + b| - 1] == last;
      HexNumberAppend(a, b1);
      ShiftDigit(HexNumber(a), Pow16(|b1|), HexNumber(b1), HexValue(last));
    }
  }

  lemma ShiftDigit(h: int, p: int, n: int, v: int)
    ensures (h * p + n) * 16 + v == h * (16 * p) + (n * 16 + v)
  {
  }

  function Pow16(n: nat): nat {
    if n == 0 then 1 else 16 * Pow16(n - 1)
  }

  lemma HexDigitValue(d: int)
    requires 0 <= d < 16
    ensures HexValue(HexDigit(d)) == d
  {
  }

  function DigitChar(d: int): char
    requires 0 <= d < 10
  {
    ('0' as int + d) as char
  }

  /** "%u" of a natural number. */
  function NatDecimal(n: nat): (r: string)
    ensures |r| >= 1
    ensures forall i :: 0 <= i < |r| ==> '0' <= r[i] <= '9'
  {
    if n < 10 then [DigitChar(n)] else NatDecimal(n / 10) + [DigitChar(n % 10)]
  }

  /** "%d" of an integer. */
  function Decimal(n: int): (r: string)
    ensures |r| >= 1 && NUL !in r
  {
    if n < 0 then "-" + NatDecimal(-n) else NatDecimal(n)
  }

  /** Reading decimal digits back, most significant first. */
  function DigitsValue(s: string): int {
    if s == [] then 0 else DigitsValue(s[..|s| - 1]) * 10 + (s[|s| - 1] as int - '0' as int)
  }

  lemma {:induction false} NatDecimalValue(n: nat)
    ensures DigitsValue(NatDecimal(n)) == n
  {
    if n >= 10 {
      var r := NatDecimal(n);
      assert r[..|r| - 1] == NatDecimal(n / 10);
      NatDecimalValue(n / 10);
    }
  }

  /** Appending in two steps appends the concatenation. */
  lemma Assoc<T>(a: seq<T>, b: seq<T>, c: seq<T>)
    ensures a + b + c == a + (b + c)
  {
  }

  /** A slice one element longer. */
  lemma SliceSnoc<T>(s: seq<T>, i: nat, j: nat)
    requires i <= j < |s|
    ensures s[i..j + 1] == s[i..j] + [s[j]]
  {
  }

  /** A prefix one element longer. */
  lemma TakeSnoc<T>(s: seq<T>, n: nat)
    requires n < |s|
    ensures s[..n + 1] == s[..n] + [s[n]]
  {
  }

  /** A non-empty sequence is its front and its last element. */
  lemma DropLastSnoc<T>(s: seq<T>)
    requires |s| >= 1
    ensures s[..|s| - 1] + [s[|s| - 1]] == s
  {
  }

  /** Once a prefix fills the room, nothing that follows gets through. */
  lemma ClipFull<T>(a: seq<T>, b: seq<T>, room: nat)
    requires |a| >= room
    ensures Clip(a + b, room) == Clip(a, room)
  {
    assert (a + b)[..room] == a[..room];
  }

  lemma ClipClip<T>(a: seq<T>, b: seq<T>, room: nat)
    ensures Clip(Clip(a, room) + b, room) == Clip(a + b, room)
  {
    if |a| >= room {
      ClipFull(Clip(a, room), b, room);
      ClipFull(a, b, room);
    }
  }

  /**
   * The output stream of a writer: the characters that reached the file,
   * never more than `capacity`.  A write of `s` appends the part of `s` that
   * still fits and returns how many characters were accepted.  Every write
   * names, as a ghost argument, the text `before` that the writer has asked
   * for so far, so that a run of writes is the clipped concatenation of all
   * of them.
   */
  class TextSink {
    var out: string
    const capacity: nat

    ghost predicate Valid()
      reads this
    {
      |out| <= capacity
    }

    constructor (capacity: nat)
      ensures Valid() && out == [] && this.capacity == capacity
    {
      out := [];
      this.capacity := capacity;
    }

    method Write(ghost before: string, s: string) returns (count: nat)
      requires out == Clip(before, capacity)
      modifies this
      ensures out == Clip(before + s, capacity)
      ensures count == |out| - |old(out)|
      ensures count == |s| <==> s == [] || |before| + |s| <= capacity
    {
      var w := Clip(s, capacity - |out|);
      ClipAppend(out, s, capacity);
      ClipClip(before, s, capacity);
      out := out + w;
      count := |w|;
    }
  }
}
