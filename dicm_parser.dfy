/**
 * The first-generation Explicit VR Little Endian header reader of
 * src/dicm-parser.c: the VR tables, the length helpers and read_explicit,
 * which reads one data-element header, checks the wire rules of PS3.5
 * section 7.1.2 and skips the value.
 */
module DicmParser {
  import opened Io
  import opened Wrappers
  import opened DicmDe

  /** MAKE_VR(left, right) on a little-endian host: the two VR bytes read as a uint16_t. */
  function MakeVr(left: byte, right: byte): u16 {
    Le16(left, right)
  }

  /** The VR of items and delimiters, which carry none. */
  const kINVALID: u16 := 0
  const kAE: u16 := MakeVr('A' as int, 'E' as int)
  const kAS: u16 := MakeVr('A' as int, 'S' as int)
  const kAT: u16 := MakeVr('A' as int, 'T' as int)
  const kCS: u16 := MakeVr('C' as int, 'S' as int)
  const kDA: u16 := MakeVr('D' as int, 'A' as int)
  const kDS: u16 := MakeVr('D' as int, 'S' as int)
  const kDT: u16 := MakeVr('D' as int, 'T' as int)
  const kFL: u16 := MakeVr('F' as int, 'L' as int)
  const kFD: u16 := MakeVr('F' as int, 'D' as int)
  const kIS: u16 := MakeVr('I' as int, 'S' as int)
  const kLO: u16 := MakeVr('L' as int, 'O' as int)
  const kLT: u16 := MakeVr('L' as int, 'T' as int)
  const kOB: u16 := MakeVr('O' as int, 'B' as int)
  const kOD: u16 := MakeVr('O' as int, 'D' as int)
  const kOF: u16 := MakeVr('O' as int, 'F' as int)
  const kOL: u16 := MakeVr('O' as int, 'L' as int)
  const kOW: u16 := MakeVr('O' as int, 'W' as int)
  const kPN: u16 := MakeVr('P' as int, 'N' as int)
  const kSH: u16 := MakeVr('S' as int, 'H' as int)
  const kSL: u16 := MakeVr('S' as int, 'L' as int)
  const kSQ: u16 := MakeVr('S' as int, 'Q' as int)
  const kSS: u16 := MakeVr('S' as int, 'S' as int)
  const kST: u16 := MakeVr('S' as int, 'T' as int)
  const kTM: u16 := MakeVr('T' as int, 'M' as int)
  const kUC: u16 := MakeVr('U' as int, 'C' as int)
  const kUI: u16 := MakeVr('U' as int, 'I' as int)
  const kUL: u16 := MakeVr('U' as int, 'L' as int)
  const kUN: u16 := MakeVr('U' as int, 'N' as int)
  const kUR: u16 := MakeVr('U' as int, 'R' as int)
  const kUS: u16 := MakeVr('U' as int, 'S' as int)
  const kUT: u16 := MakeVr('U' as int, 'T' as int)

  /** The VRs whose explicit header carries a 2-byte value length (PS3.5 table 7.1-2). */
  const ShortVrs: set<u16> := {kAE, kAS, kAT, kCS, kDA, kDS, kDT, kFD, kFL, kIS, kLO,
                               kLT, kPN, kSH, kSL, kSS, kST, kTM, kUI, kUL, kUS}

  /** The VRs the 2017a table lists with a reserved field and a 4-byte length. */
  const LongVrs: set<u16> := {kOB, kOD, kOF, kOL, kOW, kSQ, kUC, kUN, kUR, kUT}

  const kPixelData: u32 := MakeTag(0x7FE0, 0x0010)
  const kStart: u32 := MakeTag(0xFFFE, 0xE000)
  const kEndItem: u32 := MakeTag(0xFFFE, 0xE00D)
  const kEndSQ: u32 := MakeTag(0xFFFE, 0xE0DD)

  /** is_vr16: the switch that lists the 21 short-length VRs. */
  predicate IsVr16(vr: u16) {
    vr in ShortVrs
  }

  /** is_vr32: false for the short-length VRs, true for the long ones, and true
   *  by default for anything unknown (a newer standard or a parse error). */
  predicate IsVr32(vr: u16) {
    if vr in ShortVrs then false
    else if vr in LongVrs then true
    else true
  }

  /** The two lists of the is_vr32 switch do not overlap, so no case label is
   *  both a 16-bit and a 32-bit VR. */
  lemma VrTablesDisjoint()
    ensures ShortVrs !! LongVrs
  {
  }

  /** For every 16-bit value exactly one of is_vr16 and is_vr32 holds. */
  lemma Vr32IsNotVr16(vr: u16)
    ensures IsVr32(vr) == !IsVr16(vr)
  {
  }

  /** isvr_valid: both VR bytes are upper-case ASCII letters. */
  predicate IsVrValid(b0: byte, b1: byte) {
    !(b0 < 'A' as int || b0 > 'Z' as int || b1 < 'A' as int || b1 > 'Z' as int)
  }

  /** Every VR of the table is made of two upper-case letters. */
  lemma TableVrsValid(b0: byte, b1: byte)
    requires MakeVr(b0, b1) in ShortVrs + LongVrs
    ensures IsVrValid(b0, b1)
  {
    Le16Image(b0, b1);
    var vr := MakeVr(b0, b1);
    if vr in ShortVrs {
      ShortVrsLetters(vr);
    } else {
      LongVrsLetters(vr);
    }
  }

  /** The two bytes a VR code is stored as are upper-case letters. */
  predicate StoredAsLetters(vr: u16) {
    var b := Le16Bytes(vr);
    IsVrValid(b[0], b[1])
  }

  lemma ShortVrsLetters(vr: u16)
    requires vr in ShortVrs
    ensures StoredAsLetters(vr)
  {
  }

  lemma LongVrsLetters(vr: u16)
    requires vr in LongVrs
    ensures StoredAsLetters(vr)
  {
  }

  predicate IsStart(de: Element) { de.tag == kStart }
  predicate IsEndItem(de: Element) { de.tag == kEndItem }
  predicate IsEndSq(de: Element) { de.tag == kEndSQ }

  /** dicm_de_is_start / _end_item / _end_sq on the group and element of the tag. */
  lemma DelimiterTags(de: Element)
    ensures IsStart(de) <==> GetGroup(de.tag) == 0xFFFE && GetElement(de.tag) == 0xE000
    ensures IsEndItem(de) <==> GetGroup(de.tag) == 0xFFFE && GetElement(de.tag) == 0xE00D
    ensures IsEndSq(de) <==> GetGroup(de.tag) == 0xFFFE && GetElement(de.tag) == 0xE0DD
  {
    SplitJoin(de.tag);
    JoinSplit(0xFFFE, 0xE000);
    JoinSplit(0xFFFE, 0xE00D);
    JoinSplit(0xFFFE, 0xE0DD);
  }

  /** is_encapsulated_pixel_data: Pixel Data of VR OB or OW with undefined length. */
  predicate IsEncapsulatedPixelData(de: Element) {
    de.tag == kPixelData && de.vl == UndefinedLength && (de.vr == kOB || de.vr == kOW)
  }

  /** is_undef_len: an undefined length that the standard allows, i.e. on a
   *  sequence, an item or encapsulated pixel data. */
  predicate IsUndefLen(de: Element) {
    if de.vl == UndefinedLength then
      de.vr == kSQ || IsEncapsulatedPixelData(de) || IsStart(de)
    else
      false
  }

  /** The bytes an explicit header occupies before the value. */
  function HeaderLength(vr: u16): nat {
    if IsVr16(vr) then 8 else 12
  }

  /** compute_len: the whole encoded size of an element, header plus value,
   *  as a uint32_t (it wraps for values close to 4 GiB). */
  function ComputeLen(de: Element): (r: u32)
    ensures de.vl as int + HeaderLength(de.vr) < 0x1_0000_0000 ==> r == HeaderLength(de.vr) + de.vl
  {
    (HeaderLength(de.vr) + de.vl) % 0x1_0000_0000
  }

  /** compute_undef_len: the size of an undefined-length element once the
   *  length `len` of its contents is known; always a 12-byte header. */
  function ComputeUndefLen(len: u32): (r: u32)
    ensures len < 0x1_0000_0000 - 12 ==> r == 12 + len
  {
    (12 + len) % 0x1_0000_0000
  }

  /** The events read_explicit reports. */
  datatype Token = Item | ItemDelimitationItem | SequenceDelimitationItem | FileMetaElement | DataElement

  /** The negated error codes read_explicit returns. */
  datatype Error = NotEnoughData | DicmOutOfOrder | DicmReservedNotZero | InvalidTag

  /** What one call does: its return value, the new *de, and how far the
   *  source moved (bytes read plus bytes skipped by seek). */
  datatype Step = Step(result: Result<Token, Error>, de: Element, advance: nat)

  /** The tag at the start of a header: group then element, each little-endian. */
  function HeaderTag(h: seq<byte>): u32
    requires |h| >= 4
  {
    MakeTag(Le16(h[0], h[1]), Le16(h[2], h[3]))
  }

  /** The classification after the value has been skipped. */
  function Finish(de: Element, consumed: nat): Step {
    var group := GetGroup(de.tag);
    var skip := if de.vl != UndefinedLength then de.vl else 0;
    Step(if group == 2 then Ok(FileMetaElement)
         else if group >= 8 then Ok(DataElement)
         else Err(InvalidTag),
         de, consumed + skip)
  }

  /** read_explicit as a function of the previous *de and the unread input. */
  function ReadExplicitSpec(prev: Element, rest: seq<byte>): Step {
    var h := Take(rest, 8);
    if |h| < 8 then Step(Err(NotEnoughData), prev, |h|)
    else
      var tag := HeaderTag(h);
      var ivl := Le32(h[4], h[5], h[6], h[7]);
      if tag == kStart then
        Step(Ok(Item), Element(tag, kINVALID, ivl), 8 + if ivl != UndefinedLength then ivl else 0)
      else if tag == kEndItem || tag == kEndSQ then
        Step(Ok(if tag == kEndItem then ItemDelimitationItem else SequenceDelimitationItem),
             Element(tag, kINVALID, ivl), 8)
      else if !(prev.tag < tag) then Step(Err(DicmOutOfOrder), prev, 8)
      else
        var vr := MakeVr(h[4], h[5]);
        if IsVr16(vr) then Finish(Element(tag, vr, Le16(h[6], h[7])), 8)
        else if Le16(h[6], h[7]) != 0 then Step(Err(DicmReservedNotZero), prev, 8)
        else
          var x := Take(rest[8..], 4);
          if |x| < 4 then Step(Err(NotEnoughData), prev, 8 + |x|)
          else Finish(Element(tag, vr, Le32(x[0], x[1], x[2], x[3])), 12)
  }

  /** read_explicit: reads 8 header bytes, and 4 more for a 32-bit VR, updates
   *  *de and seeks past a defined-length value. */
  method ReadExplicit(src: Source, de: DataElement) returns (r: Result<Token, Error>)
    modifies src, de
    ensures var s := ReadExplicitSpec(old(de.Value()), old(src.Rest()));
      r == s.result && de.Value() == s.de && src.pos == old(src.pos) + s.advance
  {
    ghost var rest := src.Rest();
    var h := src.Read(8);
    if |h| < 8 {
      return Err(NotEnoughData);
    }
    var tag := HeaderTag(h);
    var ivl := Le32(h[4], h[5], h[6], h[7]);
    if tag == kStart {
      de.Set(Element(tag, kINVALID, ivl));
      if de.vl != UndefinedLength {
        src.Seek(de.vl);
      }
      return Ok(Item);
    } else if tag == kEndItem || tag == kEndSQ {
      de.Set(Element(tag, kINVALID, ivl));
      return if tag == kEndItem then Ok(ItemDelimitationItem) else Ok(SequenceDelimitationItem);
    }
    if !(de.tag < tag) {
      return Err(DicmOutOfOrder);
    }
    var vr := MakeVr(h[4], h[5]);
    var consumed := 8;
    if IsVr16(vr) {
      de.Set(Element(tag, vr, Le16(h[6], h[7])));
    } else {
      if Le16(h[6], h[7]) != 0 {
        return Err(DicmReservedNotZero);
      }
      var x := src.Read(4);
      assert x == Take(rest[8..], 4);
      if |x| < 4 {
        return Err(NotEnoughData);
      }
      de.Set(Element(tag, vr, Le32(x[0], x[1], x[2], x[3])));
      consumed := 12;
    }
    if de.vl != UndefinedLength {
      src.Seek(de.vl);
    }
    var group := GetGroup(tag);
    if group == 2 {
      r := Ok(FileMetaElement);
    } else if group >= 8 {
      r := Ok(DataElement);
    } else {
      r := Err(InvalidTag);
    }
  }

  /** Fewer than 8 bytes left: -kNotEnoughData, *de untouched. */
  lemma ShortHeader(prev: Element, rest: seq<byte>)
    requires |rest| < 8
    ensures ReadExplicitSpec(prev, rest) == Step(Err(NotEnoughData), prev, |rest|)
  {
  }

  /** Only -kInvalidTag has already overwritten *de; the other errors leave it as it was. */
  lemma ErrorsKeepElement(prev: Element, rest: seq<byte>)
    ensures var s := ReadExplicitSpec(prev, rest);
      s.result.Err? && s.result.error != InvalidTag ==> s.de == prev
  {
  }

  /** A data or file-meta element is reported only with a tag strictly greater
   *  than the previous one, so the accepted tags strictly increase; a
   *  non-delimiter tag that does not increase is refused. */
  lemma TagsIncrease(prev: Element, rest: seq<byte>)
    ensures var s := ReadExplicitSpec(prev, rest);
      s.result == Ok(FileMetaElement) || s.result == Ok(DataElement) ==> prev.tag < s.de.tag
    ensures |rest| >= 8 && HeaderTag(rest) !in {kStart, kEndItem, kEndSQ} && HeaderTag(rest) <= prev.tag ==>
      ReadExplicitSpec(prev, rest) == Step(Err(DicmOutOfOrder), prev, 8)
  {
    if |rest| >= 8 {
      assert Take(rest, 8)[..4] == rest[..4];
    }
  }

  /** An item start carries no VR and its 32-bit length; a defined-length item
   *  body is skipped.  Delimiters are reported without moving further. */
  lemma ItemsAndDelimiters(prev: Element, rest: seq<byte>)
    requires |rest| >= 8
    ensures var s := ReadExplicitSpec(prev, rest);
      var vl := Le32(rest[4], rest[5], rest[6], rest[7]);
      (HeaderTag(rest) == kStart ==>
         s.result == Ok(Item) && s.de == Element(kStart, kINVALID, vl) &&
         s.advance == 8 + (if vl == UndefinedLength then 0 else vl)) &&
      (HeaderTag(rest) == kEndItem ==> s.result == Ok(ItemDelimitationItem) && s.advance == 8) &&
      (HeaderTag(rest) == kEndSQ ==> s.result == Ok(SequenceDelimitationItem) && s.advance == 8)
  {
    assert Take(rest, 8) == rest[..8];
  }

  /** A defined-length element is consumed whole: the source moves by exactly
   *  compute_len of the element read (when it does not wrap), and the result
   *  follows the group: 0002 is file meta, 0008 and above is data, the rest invalid. */
  lemma ElementAdvance(prev: Element, rest: seq<byte>)
    ensures var s := ReadExplicitSpec(prev, rest);
      s.result.Ok? && s.result.value in {FileMetaElement, DataElement} &&
      s.de.vl != UndefinedLength && HeaderLength(s.de.vr) + s.de.vl < 0x1_0000_0000 ==>
        s.advance == ComputeLen(s.de) &&
        (s.result.value == FileMetaElement <==> GetGroup(s.de.tag) == 2)
  {
  }
}
