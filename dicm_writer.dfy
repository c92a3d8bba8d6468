/**
 * The binary writer of src/dicm-writer.c: each method appends one piece of
 * an Explicit VR Little Endian stream to the destination and reports a
 * short write with 1.  write_attribute remembers whether the VR has a
 * 16-bit length, and write_value_length uses that to pick 2 or 4 bytes.
 */
module DicmWriter {
  import opened Io
  import opened DicmDe
  import P = DicmParser
  import I = DicmItem
  import opened DicmUde

  /** struct _dicm: the destination and the is_vr16 flag. */
  class Writer {
    const dst: Sink<byte>
    var isVr16: bool

    constructor (dst: Sink<byte>)
      ensures this.dst == dst
    {
      this.dst := dst;
    }

    /** Appends `bytes`; 0 when all of them fit, 1 on a short write. */
    method Emit(bytes: seq<byte>) returns (err: int)
      modifies dst
      ensures dst.out == old(dst.out) + Clip(bytes, old(dst.room))
      ensures dst.room == old(dst.room) - |Clip(bytes, old(dst.room))|
      ensures err == (if |bytes| <= old(dst.room) then 0 else 1)
    {
      var count := dst.Write(bytes);
      err := if count == |bytes| then 0 else 1;
    }

    /** _dicm_write_attribute: 6 or 8 header bytes; the VR's kind of length
     *  is recorded only when all of them were written. */
    method WriteAttribute(a: I.Attribute) returns (err: int)
      modifies this, dst
      ensures dst.out == old(dst.out) + Clip(AttributeBytes(a), old(dst.room))
      ensures dst.room == old(dst.room) - |Clip(AttributeBytes(a), old(dst.room))|
      ensures err == 0 <==> |AttributeBytes(a)| <= old(dst.room)
      ensures err == 0 ==> isVr16 == P.IsVr16(a.vr)
      ensures err != 0 ==> err == 1 && isVr16 == old(isVr16)
    {
      err := Emit(AttributeBytes(a));
      if err != 0 {
        return 1;
      }
      isVr16 := P.IsVr16(a.vr);
      return 0;
    }

    /** _dicm_write_value_length: 2 bytes after a 16-bit-length VR, 4 after
     *  any other. */
    method WriteValueLength(s: nat) returns (err: int)
      modifies dst
      ensures dst.out == old(dst.out) + Clip(LengthBytes(isVr16, s), old(dst.room))
      ensures dst.room == old(dst.room) - |Clip(LengthBytes(isVr16, s), old(dst.room))|
      ensures err == (if |LengthBytes(isVr16, s)| <= old(dst.room) then 0 else 1)
    {
      err := Emit(LengthBytes(isVr16, s));
    }

    /** _dicm_write_value: the value bytes themselves. */
    method WriteValue(buf: seq<byte>) returns (err: int)
      modifies dst
      ensures dst.out == old(dst.out) + Clip(buf, old(dst.room))
      ensures dst.room == old(dst.room) - |Clip(buf, old(dst.room))|
      ensures err == (if |buf| <= old(dst.room) then 0 else 1)
    {
      err := Emit(buf);
    }

    /** _dicm_write_fragment: only the 4 bytes of the item tag; the length
     *  follows through write_value_length. */
    method WriteFragment() returns (err: int)
      modifies dst
      ensures dst.out == old(dst.out) + Clip(StartItemHeader[..4], old(dst.room))
      ensures dst.room == old(dst.room) - |Clip(StartItemHeader[..4], old(dst.room))|
      ensures err == (if 4 <= old(dst.room) then 0 else 1)
    {
      err := Emit(StartItemHeader[..4]);
    }

    /** _dicm_write_start_item: an item of undefined length. */
    method WriteStartItem() returns (err: int)
      modifies dst
      ensures dst.out == old(dst.out) + Clip(StartItemHeader, old(dst.room))
      ensures dst.room == old(dst.room) - |Clip(StartItemHeader, old(dst.room))|
      ensures err == (if 8 <= old(dst.room) then 0 else 1)
    {
      err := Emit(StartItemHeader);
    }

    /** _dicm_write_end_item: the item delimitation item, length zero. */
    method WriteEndItem() returns (err: int)
      modifies dst
      ensures dst.out == old(dst.out) + Clip(EndItemHeader, old(dst.room))
      ensures dst.room == old(dst.room) - |Clip(EndItemHeader, old(dst.room))|
      ensures err == (if 8 <= old(dst.room) then 0 else 1)
    {
      err := Emit(EndItemHeader);
    }

    /** _dicm_write_start_sequence: only the undefined 32-bit length that
     *  follows the SQ attribute header. */
    method WriteStartSequence() returns (err: int)
      modifies dst
      ensures dst.out == old(dst.out) + Clip(UndefinedLengthBytes, old(dst.room))
      ensures dst.room == old(dst.room) - |Clip(UndefinedLengthBytes, old(dst.room))|
      ensures err == (if 4 <= old(dst.room) then 0 else 1)
    {
      err := Emit(UndefinedLengthBytes);
    }

    /** _dicm_write_end_sequence: the sequence delimitation item, length zero. */
    method WriteEndSequence() returns (err: int)
      modifies dst
      ensures dst.out == old(dst.out) + Clip(EndSequenceHeader, old(dst.room))
      ensures dst.room == old(dst.room) - |Clip(EndSequenceHeader, old(dst.room))|
      ensures err == (if 8 <= old(dst.room) then 0 else 1)
    {
      err := Emit(EndSequenceHeader);
    }

    /** _dicm_write_start_dataset and _dicm_write_end_dataset write nothing. */
    method WriteStartDataset(encoding: string) returns (err: int)
      ensures err == 0
    {
      return 0;
    }

    method WriteEndDataset() returns (err: int)
      ensures err == 0
    {
      return 0;
    }
  }

  /** An attribute header with a 16-bit length, followed by that length,
   *  reads back through the item reader's next_impl as the same attribute,
   *  in 8 bytes. */
  lemma ShortAttributeRoundTrip(a: I.Attribute, da: I.Attribute, rest: seq<byte>)
    requires a.tag !in {I.kStartItemTag, I.kEndItemTag, I.kEndSQItemTag}
    requires P.IsVr16(a.vr) && a.vl < 0x1_0000
    ensures I.NextImplSpec(da, AttributeBytes(a) + LengthBytes(true, a.vl) + rest) == I.Impl(I.StartAttribute, a, 8)
  {
    var h := AttributeBytes(a) + LengthBytes(true, a.vl);
    assert Take(h + rest, 8) == h;
    assert h[..4] == TagBytes(a.tag);
    assert Le16(h[6], h[7]) == a.vl;
  }

  /** An attribute header with a 32-bit length, followed by that length,
   *  reads back as the same attribute in 12 bytes; SQ starts a sequence. */
  lemma LongAttributeRoundTrip(a: I.Attribute, da: I.Attribute, rest: seq<byte>)
    requires a.tag !in {I.kStartItemTag, I.kEndItemTag, I.kEndSQItemTag}
    requires !P.IsVr16(a.vr)
    ensures I.NextImplSpec(da, AttributeBytes(a) + LengthBytes(false, a.vl) + rest) ==
      I.Impl(if a.vr == P.kSQ then I.StartSequence else I.StartAttribute, a, 12)
  {
    LongHeaderFields(a, rest);
    I.AttributeHeaders(da, AttributeBytes(a) + LengthBytes(false, a.vl) + rest);
  }

  /** The fields of a header with a 32-bit length, as the item reader finds them. */
  lemma LongHeaderFields(a: I.Attribute, rest: seq<byte>)
    requires !P.IsVr16(a.vr)
    ensures var input := AttributeBytes(a) + LengthBytes(false, a.vl) + rest;
      |input| >= 12 && I.SwappedTag(input) == a.tag && Le16(input[4], input[5]) == a.vr &&
      Le32(input[8], input[9], input[10], input[11]) == a.vl
  {
    var b, l := AttributeBytes(a), LengthBytes(false, a.vl);
    var h := b + l;
    var input := h + rest;
    assert |b| == 8 && |h| == 12;
    assert h[..4] == b[..4];
    SameTag(h, rest);
    assert input[4] == b[4] && input[5] == b[5];
    assert input[8] == l[0] && input[9] == l[1] && input[10] == l[2] && input[11] == l[3];
  }

  /** A sequence as the writer starts it, an SQ attribute header followed by
   *  write_start_sequence, reads back as the start of a sequence of
   *  undefined length. */
  lemma SequenceRoundTrip(a: I.Attribute, da: I.Attribute, rest: seq<byte>)
    requires a.tag !in {I.kStartItemTag, I.kEndItemTag, I.kEndSQItemTag}
    requires a.vr == P.kSQ
    ensures I.NextImplSpec(da, AttributeBytes(a) + UndefinedLengthBytes + rest) ==
      I.Impl(I.StartSequence, a.(vl := UndefinedLength), 12)
  {
    var h := AttributeBytes(a) + UndefinedLengthBytes;
    var input := h + rest;
    assert h[..4] == TagBytes(a.tag);
    I.AttributeHeaders(da, input);
    assert input[..12] == h;
  }

  /** Bytes that follow a header do not change the tag read from it. */
  lemma SameTag(h: seq<byte>, rest: seq<byte>)
    requires |h| >= 4
    ensures I.SwappedTag(h + rest) == I.SwappedTag(h)
  {
    assert (h + rest)[..4] == h[..4];
  }

  /** The item and delimiter headers the writer emits read back as the
   *  item reader's start-item, end-item and end-sequence events. */
  lemma StartItemRoundTrip(da: I.Attribute, rest: seq<byte>)
    ensures I.NextImplSpec(da, StartItemHeader + rest) == I.Impl(I.StartItem, da, 8)
  {
    var input := StartItemHeader + rest;
    assert I.SwappedTag(input) == I.kStartItemTag by {
      StartItemFields();
      SameTag(StartItemHeader, rest);
    }
    I.DelimitersClassify(da, input);
  }

  lemma EndItemRoundTrip(da: I.Attribute, rest: seq<byte>)
    ensures I.NextImplSpec(da, EndItemHeader + rest) == I.Impl(I.EndItem, da, 8)
  {
    var input := EndItemHeader + rest;
    assert I.SwappedTag(input) == I.kEndItemTag by {
      EndItemFields();
      SameTag(EndItemHeader, rest);
    }
    I.DelimitersClassify(da, input);
  }

  lemma EndSequenceRoundTrip(da: I.Attribute, rest: seq<byte>)
    ensures I.NextImplSpec(da, EndSequenceHeader + rest) == I.Impl(I.EndSequence, da, 8)
  {
    var input := EndSequenceHeader + rest;
    assert I.SwappedTag(input) == I.kEndSQItemTag by {
      EndSequenceFields();
      SameTag(EndSequenceHeader, rest);
    }
    I.DelimitersClassify(da, input);
  }
}
