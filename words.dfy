/**
 * The integer values the text writers read out of a value buffer: the
 * buffer is an array of int16_t, uint16_t, int32_t, uint32_t, int64_t or
 * uint64_t, each element stored little-endian, and `len / sizeof(T)` of
 * them are printed.
 */
module Words {
  import opened Io

  function Pow256(w: nat): (r: nat)
    ensures r >= 1
  {
    if w == 0 then 1 else 256 * Pow256(w - 1)
  }

  /** The unsigned value of bytes stored least significant first. */
  function LeValue(b: seq<byte>): (v: nat)
    ensures v < Pow256(|b|)
  {
    if b == [] then 0 else b[0] + 256 * LeValue(b[1..])
  }

  /** The w bytes that store x least significant first. */
  function LeBytes(x: nat, w: nat): (b: seq<byte>)
    ensures |b| == w
  {
    if w == 0 then [] else [x % 256] + LeBytes(x / 256, w - 1)
  }

  /** Reading the stored bytes gives the value back, for every value that
   *  fits in w bytes. */
  lemma {:induction false} LeValueOfBytes(x: nat, w: nat)
    requires x < Pow256(w)
    ensures LeValue(LeBytes(x, w)) == x
  {
    if w > 0 {
      var b := LeBytes(x, w);
      assert b[1..] == LeBytes(x / 256, w - 1);
      LeValueOfBytes(x / 256, w - 1);
    }
  }

  /** Storing the value read gives the bytes back. */
  lemma {:induction false} LeBytesOfValue(b: seq<byte>)
    ensures LeBytes(LeValue(b), |b|) == b
  {
    if b != [] {
      var v := LeValue(b);
      assert v % 256 == b[0] && v / 256 == LeValue(b[1..]);
      LeBytesOfValue(b[1..]);
    }
  }

  /** The same reading as the headers' uint16_t and uint32_t. */
  lemma LeValueAgrees(b: seq<byte>)
    requires |b| == 2 || |b| == 4
    ensures |b| == 2 ==> LeValue(b) == Le16(b[0], b[1])
    ensures |b| == 4 ==> LeValue(b) == Le32(b[0], b[1], b[2], b[3])
  {
    assert b[1..][1..] == b[2..];
    if |b| == 4 {
      assert b[2..][1..] == b[3..];
      assert b[3..][1..] == [];
    } else {
      assert b[2..] == [];
    }
  }

  /** An element of a signed type reads as its two's complement. */
  function ToInteger(b: seq<byte>, signed: bool): (x: int)
    ensures !signed ==> x == LeValue(b)
    ensures signed ==> -(Pow256(|b|) as int) <= 2 * x < Pow256(|b|)
    ensures x == LeValue(b) || x == LeValue(b) - Pow256(|b|)
  {
    var u := LeValue(b);
    if signed && 2 * u >= Pow256(|b|) then u - Pow256(|b|) else u
  }

  /** Reduced modulo 2^(8w), the element is its stored bytes' value again:
   *  the signed reading loses nothing. */
  lemma TwosComplement(b: seq<byte>, signed: bool)
    ensures ToInteger(b, signed) % Pow256(|b|) == LeValue(b)
  {
    Reduce(ToInteger(b, signed), LeValue(b), Pow256(|b|));
  }

  lemma Reduce(x: int, u: int, m: int)
    requires 0 <= u < m && (x == u || x == u - m)
    ensures x % m == u
  {
    if x == u {
      ModShift(u, m, 0);
      assert 0 * m + u == x;
    } else {
      ModShift(u, m, -1);
      assert -1 * m + u == x;
    }
  }

  /** Euclidean remainder: adding a multiple of m does not change it. */
  lemma ModShift(u: int, m: int, q: int)
    requires 0 <= u < m
    ensures (q * m + u) % m == u
  {
    var d := (q * m + u) / m;
    var r := (q * m + u) % m;
    assert q * m + u == d * m + r && 0 <= r < m;
    if d != q {
      if d < q {
        MulLe(d + 1, q, m);
      } else {
        MulLe(q + 1, d, m);
      }
      assert false;
    }
  }

  lemma MulLe(a: int, b: int, m: int)
    requires a <= b && m >= 0
    ensures a * m <= b * m
  {
  }

  /** The first k elements of width w. */
  function Elements(b: seq<byte>, w: nat, signed: bool, k: nat): (r: seq<int>)
    requires w > 0 && k * w <= |b|
    ensures |r| == k
  {
    if k == 0 then []
    else
      assert (k - 1) * w + w == k * w;
      Elements(b, w, signed, k - 1) + [ToInteger(b[(k - 1) * w..k * w], signed)]
  }

  /** One more element is the next w bytes, read as an integer. */
  lemma ElementsSnoc(b: seq<byte>, w: nat, signed: bool, k: nat)
    requires w > 0 && k < |b| / w
    ensures k * w + w <= |b| && (k + 1) * w <= |b|
    ensures Elements(b, w, signed, k + 1) == Elements(b, w, signed, k) + [ToInteger(b[k * w..k * w + w], signed)]
  {
    var c := |b| / w;
    assert c * w <= |b| by { DivMul(|b|, w); }
    MulLe(k + 1, c, w);
    assert (k + 1) * w == k * w + w;
  }

  lemma DivMul(x: nat, w: nat)
    requires w > 0
    ensures x / w * w <= x
  {
  }

  /** values[n], the next element of the buffer. */
  method ReadElement(value: seq<byte>, width: nat, signed: bool, n: nat) returns (x: int)
    requires width > 0 && n < |value| / width
    ensures (n + 1) * width <= |value|
    ensures Elements(value, width, signed, n + 1) == Elements(value, width, signed, n) + [x]
  {
    ElementsSnoc(value, width, signed, n);
    x := ToInteger(value[n * width..n * width + width], signed);
  }

  /** The len / sizeof(T) elements a printer reads from a buffer of len bytes. */
  function Values(b: seq<byte>, w: nat, signed: bool): (r: seq<int>)
    requires w > 0
    ensures |r| == |b| / w
  {
    assert |b| / w * w <= |b|;
    Elements(b, w, signed, |b| / w)
  }

  /** Element n is the n-th group of w bytes, so a buffer built from stored
   *  values reads back as those values. */
  lemma {:induction false} ElementAt(b: seq<byte>, w: nat, signed: bool, k: nat, n: nat)
    requires w > 0 && k * w <= |b| && n < k
    ensures n * w + w <= |b|
    ensures Elements(b, w, signed, k)[n] == ToInteger(b[n * w..n * w + w], signed)
  {
    assert (k - 1) * w + w == k * w;
    if n < k - 1 {
      assert n * w + w <= (k - 1) * w by { MulLe(n + 1, k - 1, w); }
      ElementAt(b, w, signed, k - 1, n);
    }
  }
}
