/**
 * The byte layout of union _ude as the writer fills it (_ude_init,
 * _ide_set_tag, _ide_set_vl, _ede16_set_vl, _ede32_set_vl): little-endian
 * group, element, VR code and value length.
 */
module DicmUde {
  import opened Io
  import opened DicmDe
  import P = DicmParser
  import I = DicmItem

  /** The tag as it is laid out in a header: group, then element. */
  function TagBytes(tag: u32): (r: seq<byte>)
    ensures |r| == 4 && I.SwappedTag(r) == tag
  {
    SplitJoin(tag);
    Le16Bytes(GetGroup(tag)) + Le16Bytes(GetElement(tag))
  }

  /** The part of a header _ude_init lays out and write_attribute emits: the
   *  tag and the VR, followed by the two reserved zero bytes for a VR with
   *  a 32-bit length. */
  function AttributeBytes(a: I.Attribute): (r: seq<byte>)
    ensures |r| == if P.IsVr16(a.vr) then 6 else 8
    ensures r[..4] == TagBytes(a.tag) && Le16(r[4], r[5]) == a.vr
    ensures !P.IsVr16(a.vr) ==> r[6] == 0 && r[7] == 0
  {
    TagBytes(a.tag) + Le16Bytes(a.vr) + (if P.IsVr16(a.vr) then [] else [0, 0])
  }

  /** The value length as write_value_length emits it: the size_t is
   *  truncated to the 16 or 32 bits of the field. */
  function LengthBytes(isVr16: bool, s: nat): (r: seq<byte>)
    ensures isVr16 ==> |r| == 2 && Le16(r[0], r[1]) == s % 0x1_0000
    ensures !isVr16 ==> |r| == 4 && Le32(r[0], r[1], r[2], r[3]) == s % 0x1_0000_0000
  {
    if isVr16 then Le16Bytes(s % 0x1_0000) else Le32Bytes(s % 0x1_0000_0000)
  }

  /** The three headers write_start_item, write_end_item and
   *  write_end_sequence emit, byte for byte. */
  const StartItemHeader: seq<byte> := [0xFE, 0xFF, 0x00, 0xE0, 0xFF, 0xFF, 0xFF, 0xFF]
  const EndItemHeader: seq<byte> := [0xFE, 0xFF, 0x0D, 0xE0, 0, 0, 0, 0]
  const EndSequenceHeader: seq<byte> := [0xFE, 0xFF, 0xDD, 0xE0, 0, 0, 0, 0]

  /** What write_start_sequence emits: an undefined 32-bit length. */
  const UndefinedLengthBytes: seq<byte> := [0xFF, 0xFF, 0xFF, 0xFF]

  /** Each header is its tag followed by its length, little-endian. */
  lemma StartItemFields()
    ensures I.SwappedTag(StartItemHeader) == I.kStartItemTag
    ensures Le32(StartItemHeader[4], StartItemHeader[5], StartItemHeader[6], StartItemHeader[7]) == UndefinedLength
  {
    assert StartItemHeader[..4] == [0xFE, 0xFF, 0x00, 0xE0];
  }

  lemma EndItemFields()
    ensures I.SwappedTag(EndItemHeader) == I.kEndItemTag
    ensures Le32(EndItemHeader[4], EndItemHeader[5], EndItemHeader[6], EndItemHeader[7]) == 0
  {
    assert EndItemHeader[..4] == [0xFE, 0xFF, 0x0D, 0xE0];
  }

  lemma EndSequenceFields()
    ensures I.SwappedTag(EndSequenceHeader) == I.kEndSQItemTag
    ensures Le32(EndSequenceHeader[4], EndSequenceHeader[5], EndSequenceHeader[6], EndSequenceHeader[7]) == 0
  {
    assert EndSequenceHeader[..4] == [0xFE, 0xFF, 0xDD, 0xE0];
  }
}
