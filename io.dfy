/**
 * Byte-level primitives shared by the readers and the writers: fixed-width
 * unsigned integers, little-endian packing, and the input and output streams
 * that stand for the library's I/O callbacks (src->ops->read/seek,
 * dicm_io_read, dicm_io_write).  Only little-endian hosts are modelled.
 */
module Io {
  type byte = x: int | 0 <= x < 0x100
  type u16 = x: int | 0 <= x < 0x1_0000
  type u32 = x: int | 0 <= x < 0x1_0000_0000

  function Min(a: int, b: int): int { if a <= b then a else b }

  /** uint32_t addition, which wraps modulo 2^32. */
  function Add32(a: u32, b: nat): (r: u32)
    ensures a + b < 0x1_0000_0000 ==> r == a + b
    ensures a + b >= 0x1_0000_0000 && b < 0x1_0000_0000 ==> r == a + b - 0x1_0000_0000
  {
    (a + b) % 0x1_0000_0000
  }

  /** Two bytes in memory order, read as a little-endian uint16_t. */
  function Le16(b0: byte, b1: byte): u16 { b0 + 0x100 * b1 }

  /** Four bytes in memory order, read as a little-endian uint32_t. */
  function Le32(b0: byte, b1: byte, b2: byte, b3: byte): u32 {
    Le16(b0, b1) + 0x1_0000 * Le16(b2, b3)
  }

  /** The memory image of a uint16_t on a little-endian host. */
  function Le16Bytes(x: u16): (r: seq<byte>)
    ensures |r| == 2 && Le16(r[0], r[1]) == x
  {
    [x % 0x100, x / 0x100]
  }

  /** The memory image of a uint32_t on a little-endian host. */
  function Le32Bytes(x: u32): (r: seq<byte>)
    ensures |r| == 4 && Le32(r[0], r[1], r[2], r[3]) == x
  {
    Le16Bytes(x % 0x1_0000) + Le16Bytes(x / 0x1_0000)
  }

  /** Decoding the image of a decoded pair gives the pair back: the
   *  little-endian reading is a bijection. */
  lemma Le16Image(b0: byte, b1: byte)
    ensures Le16Bytes(Le16(b0, b1)) == [b0, b1]
  {
  }

  lemma Le32Image(b0: byte, b1: byte, b2: byte, b3: byte)
    ensures Le32Bytes(Le32(b0, b1, b2, b3)) == [b0, b1, b2, b3]
  {
    var lo: int, hi: int := Le16(b0, b1), Le16(b2, b3);
    var x := Le32(b0, b1, b2, b3);
    assert x == hi * 0x1_0000 + lo;
    DivMod16(hi, lo);
    Le16Image(b0, b1);
    Le16Image(b2, b3);
    assert Le32Bytes(x) == Le16Bytes(lo) + Le16Bytes(hi);
  }

  /** Division and remainder by 2^16 recover the two halves. */
  lemma DivMod16(q: int, r: int)
    requires 0 <= q && 0 <= r < 0x1_0000
    ensures (q * 0x1_0000 + r) / 0x1_0000 == q && (q * 0x1_0000 + r) % 0x1_0000 == r
  {
  }

  /** What a read of n bytes returns from the unread input `rest`: all n
   *  bytes, or the shorter remainder at the end of the input. */
  function Take(rest: seq<byte>, n: nat): (r: seq<byte>)
    ensures |r| == Min(n, |rest|)
    ensures r <= rest
  {
    if n <= |rest| then rest[..n] else rest
  }

  /** The unread input after skipping n bytes; skipping past the end leaves
   *  nothing to read. */
  function Drop(rest: seq<byte>, n: nat): (r: seq<byte>)
    ensures |r| == if n <= |rest| then |rest| - n else 0
    ensures n <= |rest| ==> rest == rest[..n] + r
  {
    if n <= |rest| then rest[n..] else []
  }

  lemma DropDrop(rest: seq<byte>, a: nat, b: nat)
    ensures Drop(Drop(rest, a), b) == Drop(rest, a + b)
  {
  }

  /**
   * An input stream: a fixed byte string and a cursor.  A read returns the
   * bytes actually available (its length is the count a read callback
   * returns); a seek moves the cursor forward and may move it past the end,
   * as fseeko does.
   */
  class Source {
    const data: seq<byte>
    var pos: nat

    /** The unread part of the input. */
    function Rest(): seq<byte>
      reads this
    {
      Drop(data, pos)
    }

    constructor (data: seq<byte>)
      ensures this.data == data && pos == 0 && Rest() == data
    {
      this.data := data;
      pos := 0;
    }

    method Read(n: nat) returns (got: seq<byte>)
      modifies this
      ensures got == Take(old(Rest()), n)
      ensures pos == old(pos) + |got|
      ensures Rest() == Drop(old(Rest()), |got|)
    {
      got := Take(Rest(), n);
      DropDrop(data, pos, |got|);
      pos := pos + |got|;
    }

    /** dicm_io_read: 0 when all n bytes were read, 1 on a short read. */
    method ReadExact(n: nat) returns (err: int, got: seq<byte>)
      modifies this
      ensures got == Take(old(Rest()), n)
      ensures err == (if |got| == n then 0 else 1)
      ensures pos == old(pos) + |got|
      ensures Rest() == Drop(old(Rest()), |got|)
    {
      got := Read(n);
      err := if |got| == n then 0 else 1;
    }

    method Seek(offset: nat)
      modifies this
      ensures pos == old(pos) + offset
      ensures Rest() == Drop(old(Rest()), offset)
    {
      DropDrop(data, pos, offset);
      pos := pos + offset;
    }
  }

  /** The part of `s` that fits in `room` more elements. */
  function Clip<T>(s: seq<T>, room: nat): (r: seq<T>)
    ensures r <= s
    ensures |r| == Min(|s|, room)
  {
    if |s| <= room then s else s[..room]
  }

  /** Two writes in a row put out what one write of both would: once the
   *  destination is full, nothing more gets through. */
  lemma ClipAppend<T>(a: seq<T>, b: seq<T>, room: nat)
    ensures Clip(a, room) + Clip(b, room - |Clip(a, room)|) == Clip(a + b, room)
  {
    if |a| <= room {
      assert (a + b)[..|a|] == a;
      if |a + b| > room {
        assert (a + b)[..room] == a + b[..room - |a|];
      }
    } else {
      assert (a + b)[..room] == a[..room];
    }
  }

  /**
   * An output stream with a bounded amount of room left: dicm_io_write
   * returns how many bytes it accepted, which is fewer than asked once the
   * destination is full.
   */
  class Sink<T> {
    var out: seq<T>
    var room: nat

    constructor (room: nat)
      ensures out == [] && this.room == room
    {
      out := [];
      this.room := room;
    }

    method Write(s: seq<T>) returns (count: nat)
      modifies this
      ensures out == old(out) + Clip(s, old(room))
      ensures room == old(room) - |Clip(s, old(room))|
      ensures count == |Clip(s, old(room))|
      ensures count == |s| <==> |s| <= old(room)
    {
      var w := Clip(s, room);
      out := out + w;
      room := room - |w|;
      count := |w|;
    }
  }
}
