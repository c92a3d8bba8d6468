/**
 * The second-generation header reader of src/dicm-parser-exp.c: read_explicit
 * and read_fme classify each Explicit VR Little Endian header (PS3.5 section
 * 7.1.2) into items, fragments, delimiters, file meta, sequences and data
 * elements, keep the header bytes in the data set's buffer, and keep the
 * byte counters that end defined-length items, sequences and the file meta
 * group.  Neither function seeks: the caller reads the values.
 */
module DicmParserExp {
  import opened Wrappers
  import opened Io
  import opened DicmDe
  import P = DicmParser

  /** The events read_explicit and read_fme report. */
  datatype Token =
    | Item | BasicOffsetTable | Fragment
    | ItemDelimitationItem | SequenceOfItemsDelimitationItem | SequenceOfFragmentsDelimitationItem
    | FileMetaElement | FileMetaInformationGroupLength | EndFileMetaInformation
    | SequenceOfFragments | SequenceOfItems | DataElement

  /** The negated error codes they return. */
  datatype Error = NotEnoughData | DicmReservedNotZero | DicmOddDefinedLength | InvalidTag

  /** The counters of struct _dataset: declared length and bytes seen so far
   *  of the current defined-length item, sequence and file meta group, and
   *  the number of fragments seen (-1 outside encapsulated pixel data). */
  datatype Counters = Counters(
    deflenitem: u32, curdeflenitem: u32,
    deflensq: u32, curdeflensq: u32,
    sequenceoffragments: int,
    fmelen: u32, curfmelen: u32)

  /** reset_defined_length_item: no defined-length item is open. */
  function ResetItem(c: Counters): Counters {
    c.(deflenitem := UndefinedLength, curdeflenitem := 0)
  }

  /** reset_defined_length_sequence: no defined-length sequence is open. */
  function ResetSequence(c: Counters): Counters {
    c.(deflensq := UndefinedLength, curdeflensq := 0)
  }

  /** is_tag_start, is_tag_end_item, is_tag_end_sq and is_tag_pixeldata on
   *  the group and element of a header. */
  predicate IsTagStart(group: u16, element: u16) { group == 0xFFFE && element == 0xE000 }
  predicate IsTagEndItem(group: u16, element: u16) { group == 0xFFFE && element == 0xE00D }
  predicate IsTagEndSq(group: u16, element: u16) { group == 0xFFFE && element == 0xE0DD }
  predicate IsTagPixelData(group: u16, element: u16) { group == 0x7FE0 && element == 0x0010 }

  /** What one call does: its return value, the new counters, the header
   *  bytes copied into the buffer (None when the buffer is left alone) and
   *  the number of bytes read from the source. */
  datatype Outcome = Outcome(result: Result<Token, Error>, counters: Counters, header: Option<seq<byte>>, consumed: nat)

  /** The part both functions share: either the call is over, or a data
   *  element header has been decoded (and copied into the buffer). */
  datatype Parsed =
    | Done(outcome: Outcome)
    | Decoded(group: u16, element: u16, vr: u16, vl: u32, header: seq<byte>)

  /** Lines shared by read_explicit and read_fme: the end of a defined-length
   *  item or sequence, the 8-byte read, then the header it holds. */
  function Common(c: Counters, rest: seq<byte>): (p: Parsed)
    ensures p.Decoded? ==> |p.header| in {8, 12} && |p.header| <= |rest| && p.header == rest[..|p.header|]
    ensures p.Done? && p.outcome.header.Some? ==>
      8 <= |rest| && p.outcome.header.value == rest[..8] && p.outcome.consumed == 8
  {
    if c.deflenitem == c.curdeflenitem then
      Done(Outcome(Ok(ItemDelimitationItem), ResetItem(c), None, 0))
    else if c.deflensq == c.curdeflensq then
      Done(Outcome(Ok(SequenceOfItemsDelimitationItem), ResetSequence(c), None, 0))
    else
      var h := Take(rest, 8);
      if |h| < 8 then Done(Outcome(Err(NotEnoughData), c, None, |h|))
      else
        assert rest == h + rest[8..];
        Header(c, h, rest[8..])
  }

  function Group(h: seq<byte>): u16 requires |h| >= 8 { Le16(h[0], h[1]) }
  function ElementOf(h: seq<byte>): u16 requires |h| >= 8 { Le16(h[2], h[3]) }
  /** The 32-bit length of an item or delimiter header. */
  function ItemLength(h: seq<byte>): u32 requires |h| >= 8 { Le32(h[4], h[5], h[6], h[7]) }

  /** An 8-byte header `h` followed by the input `more`. */
  function Header(c: Counters, h: seq<byte>, more: seq<byte>): (p: Parsed)
    requires |h| == 8
    ensures p.Decoded? ==> |p.header| in {8, 12} && |p.header| <= 8 + |more| && p.header == (h + more)[..|p.header|]
    ensures p.Done? && p.outcome.header.Some? ==> p.outcome.header.value == h && p.outcome.consumed == 8
  {
    var group, element := Group(h), ElementOf(h);
    if IsTagStart(group, element) then Done(StartItem(c, h))
    else if IsTagEndItem(group, element) || IsTagEndSq(group, element) then Done(Delimiter(c, h))
    else ElementHeader(c, h, more)
  }

  /** An item tag: a fragment inside encapsulated pixel data (the first one
   *  being the Basic Offset Table), otherwise an item, whose defined length
   *  opens a defined-length item and counts 8 bytes in an enclosing
   *  defined-length sequence. */
  function StartItem(c: Counters, h: seq<byte>): Outcome
    requires |h| == 8
  {
    var ivl := ItemLength(h);
    if c.sequenceoffragments >= 0 then
      Outcome(Ok(if c.sequenceoffragments == 0 then BasicOffsetTable else Fragment),
              c.(sequenceoffragments := c.sequenceoffragments + 1), Some(h), 8)
    else if ivl != UndefinedLength then
      var sq := if c.deflensq != UndefinedLength then Add32(c.curdeflensq, 4 + 4) else c.curdeflensq;
      Outcome(Ok(Item), c.(deflenitem := ivl, curdeflensq := sq), Some(h), 8)
    else
      Outcome(Ok(Item), c, Some(h), 8)
  }

  /** An item or sequence delimiter: its length must be zero; inside
   *  encapsulated pixel data it closes the fragments. */
  function Delimiter(c: Counters, h: seq<byte>): Outcome
    requires |h| == 8
  {
    if ItemLength(h) != 0 then Outcome(Err(DicmReservedNotZero), c, Some(h), 8)
    else if c.sequenceoffragments >= 0 then
      Outcome(Ok(SequenceOfFragmentsDelimitationItem), c.(sequenceoffragments := -1), Some(h), 8)
    else
      Outcome(Ok(if IsTagEndItem(Group(h), ElementOf(h)) then ItemDelimitationItem
                 else SequenceOfItemsDelimitationItem), c, Some(h), 8)
  }

  /** A data element header: the 16-bit length follows a short VR; a long VR
   *  needs two zero reserved bytes and 4 more bytes of length. */
  function ElementHeader(c: Counters, h: seq<byte>, more: seq<byte>): (p: Parsed)
    requires |h| == 8
    ensures p.Decoded? ==> |p.header| == P.HeaderLength(p.vr) <= 8 + |more| && p.header == (h + more)[..|p.header|]
    ensures p.Done? ==> p.outcome.header.None?
  {
    var vr := P.MakeVr(h[4], h[5]);
    if P.IsVr16(vr) then Decoded(Group(h), ElementOf(h), vr, Le16(h[6], h[7]), h)
    else if Le16(h[6], h[7]) != 0 then Done(Outcome(Err(DicmReservedNotZero), c, None, 8))
    else
      var x := Take(more, 4);
      if |x| < 4 then Done(Outcome(Err(NotEnoughData), c, None, 8 + |x|))
      else
        assert (h + more)[..12] == h + x;
        Decoded(Group(h), ElementOf(h), vr, Le32(x[0], x[1], x[2], x[3]), h + x)
  }

  /** compute_len of the decoded element. */
  function ElementLen(vr: u16, vl: u32): u32 {
    P.ComputeLen(Element(0, vr, vl))
  }

  /** The classification both functions make of an element outside group
   *  0002: encapsulated pixel data, sequences, data elements, and the
   *  counters a data element advances. */
  function Classify(c: Counters, group: u16, element: u16, vr: u16, vl: u32): (Result<Token, Error>, Counters) {
    if IsTagPixelData(group, element) && vr == P.kOB && vl == UndefinedLength then
      (Ok(SequenceOfFragments), c.(sequenceoffragments := 0))
    else if vr == P.kSQ && vl == UndefinedLength then
      (Ok(SequenceOfItems), c)
    else if vr == P.kSQ then
      (Ok(SequenceOfItems), c.(deflensq := vl))
    else if group >= 8 then
      var len := ElementLen(vr, vl);
      (Ok(DataElement),
       c.(curdeflenitem := if c.deflenitem != UndefinedLength then Add32(c.curdeflenitem, len) else c.curdeflenitem,
          curdeflensq := if c.deflensq != UndefinedLength then Add32(c.curdeflensq, len) else c.curdeflensq))
    else
      (Err(InvalidTag), c)
  }

  /** A defined length must be even. */
  predicate IsOddDefined(vl: u32) {
    vl != UndefinedLength && vl % 2 != 0
  }

  /** read_explicit as a function of the counters and the unread input. */
  function ReadExplicitSpec(c: Counters, rest: seq<byte>): Outcome {
    match Common(c, rest)
    case Done(o) => o
    case Decoded(group, element, vr, vl, h) =>
      if IsOddDefined(vl) then Outcome(Err(DicmOddDefinedLength), c, Some(h), |h|)
      else if group == 2 then Outcome(Ok(FileMetaElement), c, Some(h), |h|)
      else
        var (r, c1) := Classify(c, group, element, vr, vl);
        Outcome(r, c1, Some(h), |h|)
  }

  /** read_fme as a function of the counters and the unread input.  The
   *  group length of (0002,0000) is read into an uninitialised union whose
   *  previous contents are `stale`: on a short read, the bytes not read
   *  come from there. */
  function ReadFmeSpec(c: Counters, rest: seq<byte>, stale: seq<byte>): Outcome
    requires |stale| == 4
  {
    if c.fmelen == c.curfmelen then
      Outcome(Ok(EndFileMetaInformation), c.(fmelen := UndefinedLength, curfmelen := 0), None, 0)
    else
      match Common(c, rest)
      case Done(o) => o
      case Decoded(group, element, vr, vl, h) => FmeElement(c, group, element, vr, vl, h, rest[|h|..], stale)
  }

  /** read_fme once a data element header `h` has been decoded and `more`
   *  is the input after it: a group length element (0002,0000) reads its
   *  4-byte value into fmelen; any other group 0002 element counts its whole
   *  size in curfmelen. */
  function FmeElement(c: Counters, group: u16, element: u16, vr: u16, vl: u32, h: seq<byte>, more: seq<byte>, stale: seq<byte>): Outcome
    requires |stale| == 4
  {
    if IsOddDefined(vl) then Outcome(Err(DicmOddDefinedLength), c, Some(h), |h|)
    else if group == 2 then
      if element == 0 then
        var x := Take(more, 4);
        var g := x + stale[|x|..];
        Outcome(Ok(FileMetaInformationGroupLength), c.(fmelen := Le32(g[0], g[1], g[2], g[3])), Some(h), |h| + |x|)
      else
        Outcome(Ok(FileMetaElement), c.(curfmelen := Add32(c.curfmelen, ElementLen(vr, vl))), Some(h), |h|)
    else
      var (r, c1) := Classify(c, group, element, vr, vl);
      Outcome(r, c1, Some(h), |h|)
  }

  /** The end of a defined-length item is reported before anything is read,
   *  and closes the item; then likewise for a defined-length sequence. */
  lemma DefinedLengthEnds(c: Counters, rest: seq<byte>)
    ensures c.deflenitem == c.curdeflenitem ==>
      ReadExplicitSpec(c, rest) == Outcome(Ok(ItemDelimitationItem), ResetItem(c), None, 0)
    ensures c.deflenitem != c.curdeflenitem && c.deflensq == c.curdeflensq ==>
      ReadExplicitSpec(c, rest) == Outcome(Ok(SequenceOfItemsDelimitationItem), ResetSequence(c), None, 0)
  {
  }

  /** No open defined-length item or sequence is at its end. */
  predicate Inside(c: Counters) {
    c.deflenitem != c.curdeflenitem && c.deflensq != c.curdeflensq
  }

  /** Fewer than 8 header bytes, or fewer than 4 length bytes after a long
   *  VR with zero reserved bytes, is -kNotEnoughData and changes no counter. */
  lemma NotEnoughDataCases(c: Counters, rest: seq<byte>)
    requires Inside(c)
    ensures |rest| < 8 ==> ReadExplicitSpec(c, rest) == Outcome(Err(NotEnoughData), c, None, |rest|)
    ensures (8 <= |rest| < 12 && !IsTagStart(Group(rest), ElementOf(rest)) &&
             !IsTagEndItem(Group(rest), ElementOf(rest)) && !IsTagEndSq(Group(rest), ElementOf(rest)) &&
             !P.IsVr16(P.MakeVr(rest[4], rest[5])) && rest[6] == 0 && rest[7] == 0) ==>
      ReadExplicitSpec(c, rest) == Outcome(Err(NotEnoughData), c, None, |rest|)
  {
    if 8 <= |rest| {
      assert Take(rest, 8) == rest[..8];
      assert rest == rest[..8] + rest[8..];
    }
  }

  /** Inside encapsulated pixel data an item tag is a fragment, the first
   *  one being the Basic Offset Table, and the fragment count goes up by one. */
  lemma FragmentsAreCounted(c: Counters, rest: seq<byte>)
    requires Inside(c) && c.sequenceoffragments >= 0 && |rest| >= 8
    requires IsTagStart(Group(rest), ElementOf(rest))
    ensures var o := ReadExplicitSpec(c, rest);
      o.result == Ok(if c.sequenceoffragments == 0 then BasicOffsetTable else Fragment) &&
      o.counters == c.(sequenceoffragments := c.sequenceoffragments + 1) &&
      o.header == Some(rest[..8]) && o.consumed == 8
  {
    assert Take(rest, 8) == rest[..8];
  }

  /** Outside pixel data, a defined-length item opens a defined-length item
   *  and counts its 8 header bytes in an open defined-length sequence. */
  lemma DefinedItemOpens(c: Counters, rest: seq<byte>)
    requires Inside(c) && c.sequenceoffragments < 0 && |rest| >= 8
    requires IsTagStart(Group(rest), ElementOf(rest)) && ItemLength(rest) != UndefinedLength
    ensures var o := ReadExplicitSpec(c, rest);
      o.result == Ok(Item) && o.counters.deflenitem == ItemLength(rest) &&
      (c.deflensq != UndefinedLength ==> o.counters.curdeflensq == Add32(c.curdeflensq, 8)) &&
      (c.deflensq == UndefinedLength ==> o.counters.curdeflensq == c.curdeflensq)
  {
    assert Take(rest, 8) == rest[..8];
  }

  /** A delimiter with a non-zero length is refused; inside pixel data a
   *  delimiter closes the fragments; otherwise it ends an item or a sequence. */
  lemma DelimiterCases(c: Counters, rest: seq<byte>)
    requires Inside(c) && |rest| >= 8
    requires IsTagEndItem(Group(rest), ElementOf(rest)) || IsTagEndSq(Group(rest), ElementOf(rest))
    ensures var o := ReadExplicitSpec(c, rest);
      (ItemLength(rest) != 0 ==> o.result == Err(DicmReservedNotZero) && o.counters == c) &&
      (ItemLength(rest) == 0 && c.sequenceoffragments >= 0 ==>
         o.result == Ok(SequenceOfFragmentsDelimitationItem) && o.counters == c.(sequenceoffragments := -1)) &&
      (ItemLength(rest) == 0 && c.sequenceoffragments < 0 ==>
         o.counters == c &&
         o.result == Ok(if IsTagEndItem(Group(rest), ElementOf(rest)) then ItemDelimitationItem
                        else SequenceOfItemsDelimitationItem))
  {
    assert Take(rest, 8) == rest[..8];
  }

  /** Whatever the call reads of a header lands in the buffer: when the
   *  buffer is written it holds exactly the bytes consumed, 8 of them for
   *  items, delimiters and short VRs and 12 for long VRs. */
  lemma BufferHoldsHeader(c: Counters, rest: seq<byte>)
    ensures var o := ReadExplicitSpec(c, rest);
      o.header.Some? ==>
        |o.header.value| in {8, 12} && o.consumed == |o.header.value| <= |rest| &&
        o.header.value == rest[..o.consumed]
    ensures var p := Common(c, rest);
      p.Decoded? ==> |p.header| == P.HeaderLength(p.vr)
  {
    if Inside(c) && |rest| >= 8 {
      assert Take(rest, 8) == rest[..8];
      assert rest[..8] + rest[8..] == rest;
    }
  }

  /** The rules a decoded element must follow and the order in which it is
   *  classified: an odd defined length is refused, then group 0002 is file
   *  meta, then undefined-length OB Pixel Data opens fragments, then SQ
   *  opens a sequence (a defined length is recorded), then a group of 0008
   *  or more is a data element, and anything else is an invalid tag. */
  lemma ClassificationOrder(c: Counters, rest: seq<byte>)
    ensures var p := Common(c, rest);
      var o := ReadExplicitSpec(c, rest);
      p.Decoded? ==>
        if IsOddDefined(p.vl) then o.result == Err(DicmOddDefinedLength) && o.counters == c
        else if p.group == 2 then o.result == Ok(FileMetaElement) && o.counters == c
        else if IsTagPixelData(p.group, p.element) && p.vr == P.kOB && p.vl == UndefinedLength then
          o.result == Ok(SequenceOfFragments) && o.counters == c.(sequenceoffragments := 0)
        else if p.vr == P.kSQ then
          o.result == Ok(SequenceOfItems) &&
          o.counters == (if p.vl == UndefinedLength then c else c.(deflensq := p.vl))
        else if p.group >= 8 then o.result == Ok(DataElement)
        else o.result == Err(InvalidTag) && o.counters == c
  {
  }

  /** Long VRs need their two reserved bytes to be zero. */
  lemma ReservedMustBeZero(c: Counters, rest: seq<byte>)
    requires Inside(c) && |rest| >= 8
    requires !IsTagStart(Group(rest), ElementOf(rest))
    requires !IsTagEndItem(Group(rest), ElementOf(rest)) && !IsTagEndSq(Group(rest), ElementOf(rest))
    requires !P.IsVr16(P.MakeVr(rest[4], rest[5])) && (rest[6] != 0 || rest[7] != 0)
    ensures ReadExplicitSpec(c, rest) == Outcome(Err(DicmReservedNotZero), c, None, 8)
  {
    assert Take(rest, 8) == rest[..8];
  }

  /** A data element inside an open defined-length item or sequence adds its
   *  whole encoded size, the header bytes read plus the value length, to the
   *  bytes seen (unless the uint32_t counter wraps). */
  lemma DataElementCounts(c: Counters, rest: seq<byte>)
    ensures var p := Common(c, rest);
      var o := ReadExplicitSpec(c, rest);
      o.result == Ok(DataElement) && p.Decoded? ==>
        (c.deflenitem != UndefinedLength && c.curdeflenitem + o.consumed + p.vl < 0x1_0000_0000 ==>
           o.counters.curdeflenitem == c.curdeflenitem + o.consumed + p.vl) &&
        (c.deflenitem == UndefinedLength ==> o.counters.curdeflenitem == c.curdeflenitem) &&
        (c.deflensq != UndefinedLength && c.curdeflensq + o.consumed + p.vl < 0x1_0000_0000 ==>
           o.counters.curdeflensq == c.curdeflensq + o.consumed + p.vl) &&
        (c.deflensq == UndefinedLength ==> o.counters.curdeflensq == c.curdeflensq)
  {
    BufferHoldsHeader(c, rest);
  }

  /** read_fme ends the file meta group, before reading anything, once the
   *  bytes seen reach the group length; then it behaves like read_explicit
   *  except on group 0002: (0002,0000) sets the group length from its value,
   *  any other element adds its whole encoded size to the bytes seen. */
  lemma FileMetaGroup(c: Counters, rest: seq<byte>, stale: seq<byte>)
    requires |stale| == 4
    ensures c.fmelen == c.curfmelen ==>
      ReadFmeSpec(c, rest, stale) == Outcome(Ok(EndFileMetaInformation), c.(fmelen := UndefinedLength, curfmelen := 0), None, 0)
    ensures var p := Common(c, rest);
      var o := ReadFmeSpec(c, rest, stale);
      c.fmelen != c.curfmelen && p.Decoded? && !IsOddDefined(p.vl) && p.group == 2 ==>
        (p.element == 0 && |rest| >= |p.header| + 4 ==>
           o.result == Ok(FileMetaInformationGroupLength) && o.consumed == |p.header| + 4 &&
           o.counters == c.(fmelen := Le32(rest[|p.header|], rest[|p.header| + 1], rest[|p.header| + 2], rest[|p.header| + 3]))) &&
        (p.element != 0 ==>
           o.result == Ok(FileMetaElement) && o.consumed == |p.header| &&
           o.counters == c.(curfmelen := Add32(c.curfmelen, ElementLen(p.vr, p.vl))))
    ensures var p := Common(c, rest);
      c.fmelen != c.curfmelen && (p.Done? || IsOddDefined(p.vl) || p.group != 2) ==>
        ReadFmeSpec(c, rest, stale) == ReadExplicitSpec(c, rest)
  {
  }

  /** struct _dataset: the counters, and the buffer holding the last header. */
  class Dataset {
    var deflenitem: u32
    var curdeflenitem: u32
    var deflensq: u32
    var curdeflensq: u32
    var sequenceoffragments: int
    var fmelen: u32
    var curfmelen: u32
    const buffer: array<byte>
    var bufsize: nat

    ghost predicate Valid()
      reads this
    {
      buffer.Length >= 12
    }

    function Value(): Counters
      reads this
    {
      Counters(deflenitem, curdeflenitem, deflensq, curdeflensq, sequenceoffragments, fmelen, curfmelen)
    }

    /** A data set outside any defined-length item, sequence, fragments or
     *  file meta group, with a buffer of `capacity` bytes: the state that
     *  reset_defined_length_item, reset_defined_length_sequence, the end of
     *  fragments and the end of the file meta group leave behind. */
    constructor (capacity: nat)
      requires capacity >= 12
      ensures Valid() && fresh(buffer) && buffer.Length == capacity && bufsize == 0
      ensures Value() == Counters(UndefinedLength, 0, UndefinedLength, 0, -1, UndefinedLength, 0)
      ensures ResetItem(Value()) == Value() && ResetSequence(Value()) == Value()
    {
      deflenitem, curdeflenitem := UndefinedLength, 0;
      deflensq, curdeflensq := UndefinedLength, 0;
      sequenceoffragments := -1;
      fmelen, curfmelen := UndefinedLength, 0;
      buffer := new byte[capacity](_ => 0);
      bufsize := 0;
    }

    /** memcpy(buf, ude.bytes, n); ds->bufsize = n. */
    method CopyHeader(h: seq<byte>)
      requires Valid() && |h| <= 12
      modifies this, buffer
      ensures Valid() && Value() == old(Value())
      ensures bufsize == |h| && buffer[..|h|] == h && buffer[|h|..] == old(buffer[|h|..])
    {
      var i := 0;
      while i < |h|
        invariant 0 <= i <= |h|
        invariant Value() == old(Value())
        invariant buffer[..i] == h[..i] && buffer[i..] == old(buffer[i..])
      {
        buffer[i] := h[i];
        i := i + 1;
      }
      bufsize := |h|;
    }

    /** The shared lines, with their effects on the data set and the source. */
    method ReadCommon(src: Source) returns (p: Parsed)
      requires Valid()
      modifies this, buffer, src
      ensures Valid()
      ensures p == Common(old(Value()), old(src.Rest()))
      ensures p.Done? ==> Value() == p.outcome.counters && src.pos == old(src.pos) + p.outcome.consumed
      ensures p.Decoded? ==> Value() == old(Value()) && src.pos == old(src.pos) + |p.header|
      ensures p.Done? && p.outcome.header.None? ==> bufsize == old(bufsize) && buffer[..] == old(buffer[..])
      ensures p.Done? && p.outcome.header.Some? ==>
        bufsize == 8 && buffer[..8] == p.outcome.header.value && buffer[8..] == old(buffer[8..])
      ensures p.Decoded? ==>
        bufsize == |p.header| && buffer[..bufsize] == p.header && buffer[bufsize..] == old(buffer[..])[|p.header|..]
    {
      if deflenitem == curdeflenitem {
        deflenitem, curdeflenitem := UndefinedLength, 0;
        return Done(Outcome(Ok(ItemDelimitationItem), Value(), None, 0));
      } else if deflensq == curdeflensq {
        deflensq, curdeflensq := UndefinedLength, 0;
        return Done(Outcome(Ok(SequenceOfItemsDelimitationItem), Value(), None, 0));
      }
      ghost var rest := src.Rest();
      var h := src.Read(8);
      if |h| < 8 {
        return Done(Outcome(Err(NotEnoughData), Value(), None, |h|));
      }
      assert rest == h + rest[8..];
      p := ReadHeader(src, h);
    }

    /** The header in `h`, with the rest of the input still in `src`. */
    method ReadHeader(src: Source, h: seq<byte>) returns (p: Parsed)
      requires Valid() && |h| == 8
      modifies this, buffer, src
      ensures Valid()
      ensures p == Header(old(Value()), h, old(src.Rest()))
      ensures p.Done? ==> Value() == p.outcome.counters && src.pos == old(src.pos) + p.outcome.consumed - 8
      ensures p.Decoded? ==> Value() == old(Value()) && src.pos == old(src.pos) + |p.header| - 8
      ensures p.Done? && p.outcome.header.None? ==> bufsize == old(bufsize) && buffer[..] == old(buffer[..])
      ensures p.Done? && p.outcome.header.Some? ==>
        bufsize == 8 && buffer[..8] == p.outcome.header.value && buffer[8..] == old(buffer[8..])
      ensures p.Decoded? ==>
        bufsize == |p.header| && buffer[..bufsize] == p.header && buffer[bufsize..] == old(buffer[..])[|p.header|..]
    {
      var group, element := Group(h), ElementOf(h);
      if IsTagStart(group, element) {
        var o := ReadStartItem(h);
        p := Done(o);
      } else if IsTagEndItem(group, element) || IsTagEndSq(group, element) {
        var o := ReadDelimiter(h);
        p := Done(o);
      } else {
        p := ReadElementHeader(src, h);
      }
    }

    method ReadStartItem(h: seq<byte>) returns (o: Outcome)
      requires Valid() && |h| == 8
      modifies this, buffer
      ensures Valid()
      ensures o == StartItem(old(Value()), h) && Value() == o.counters
      ensures bufsize == 8 && buffer[..8] == h && buffer[8..] == old(buffer[8..])
    {
      CopyHeader(h);
      var frags := sequenceoffragments;
      var ivl := ItemLength(h);
      if frags >= 0 {
        sequenceoffragments := sequenceoffragments + 1;
        return Outcome(Ok(if frags == 0 then BasicOffsetTable else Fragment), Value(), Some(h), 8);
      } else if ivl != UndefinedLength {
        deflenitem := ivl;
        if deflensq != UndefinedLength {
          curdeflensq := Add32(curdeflensq, 4 + 4);
        }
      }
      return Outcome(Ok(Item), Value(), Some(h), 8);
    }

    method ReadDelimiter(h: seq<byte>) returns (o: Outcome)
      requires Valid() && |h| == 8
      modifies this, buffer
      ensures Valid()
      ensures o == Delimiter(old(Value()), h) && Value() == o.counters
      ensures bufsize == 8 && buffer[..8] == h && buffer[8..] == old(buffer[8..])
    {
      CopyHeader(h);
      if ItemLength(h) != 0 {
        return Outcome(Err(DicmReservedNotZero), Value(), Some(h), 8);
      }
      if sequenceoffragments >= 0 {
        sequenceoffragments := -1;
        return Outcome(Ok(SequenceOfFragmentsDelimitationItem), Value(), Some(h), 8);
      }
      return Outcome(Ok(if IsTagEndItem(Group(h), ElementOf(h)) then ItemDelimitationItem
                        else SequenceOfItemsDelimitationItem), Value(), Some(h), 8);
    }

    method ReadElementHeader(src: Source, h: seq<byte>) returns (p: Parsed)
      requires Valid() && |h| == 8
      modifies this, buffer, src
      ensures Valid() && Value() == old(Value())
      ensures p == ElementHeader(old(Value()), h, old(src.Rest()))
      ensures p.Done? ==> src.pos == old(src.pos) + p.outcome.consumed - 8 && bufsize == old(bufsize) && buffer[..] == old(buffer[..])
      ensures p.Decoded? ==> src.pos == old(src.pos) + |p.header| - 8
      ensures p.Decoded? ==>
        bufsize == |p.header| && buffer[..bufsize] == p.header && buffer[bufsize..] == old(buffer[..])[|p.header|..]
    {
      var vr := P.MakeVr(h[4], h[5]);
      if P.IsVr16(vr) {
        CopyHeader(h);
        return Decoded(Group(h), ElementOf(h), vr, Le16(h[6], h[7]), h);
      }
      if Le16(h[6], h[7]) != 0 {
        return Done(Outcome(Err(DicmReservedNotZero), Value(), None, 8));
      }
      var x := src.Read(4);
      if |x| < 4 {
        return Done(Outcome(Err(NotEnoughData), Value(), None, 8 + |x|));
      }
      CopyHeader(h + x);
      p := Decoded(Group(h), ElementOf(h), vr, Le32(x[0], x[1], x[2], x[3]), h + x);
    }

    /** The classification outside group 0002, applied to the counters. */
    method ClassifyInPlace(group: u16, element: u16, vr: u16, vl: u32) returns (r: Result<Token, Error>)
      modifies this
      ensures (r, Value()) == Classify(old(Value()), group, element, vr, vl)
      ensures bufsize == old(bufsize)
    {
      if IsTagPixelData(group, element) && vr == P.kOB && vl == UndefinedLength {
        sequenceoffragments := 0;
        return Ok(SequenceOfFragments);
      } else if vr == P.kSQ && vl == UndefinedLength {
        return Ok(SequenceOfItems);
      } else if vr == P.kSQ {
        deflensq := vl;
        return Ok(SequenceOfItems);
      } else if group >= 8 {
        var len := ElementLen(vr, vl);
        if deflenitem != UndefinedLength {
          curdeflenitem := Add32(curdeflenitem, len);
        }
        if deflensq != UndefinedLength {
          curdeflensq := Add32(curdeflensq, len);
        }
        return Ok(DataElement);
      }
      return Err(InvalidTag);
    }

    /** read_explicit. */
    method ReadExplicit(src: Source) returns (r: Result<Token, Error>)
      requires Valid()
      modifies this, buffer, src
      ensures Valid()
      ensures var o := ReadExplicitSpec(old(Value()), old(src.Rest()));
        r == o.result && Value() == o.counters && src.pos == old(src.pos) + o.consumed &&
        (o.header.None? ==> bufsize == old(bufsize) && buffer[..] == old(buffer[..])) &&
        (o.header.Some? ==> bufsize == |o.header.value| && buffer[..bufsize] == o.header.value &&
                            buffer[bufsize..] == old(buffer[..])[bufsize..])
    {
      var p := ReadCommon(src);
      match p {
        case Done(o) =>
          r := o.result;
        case Decoded(group, element, vr, vl, h) =>
          if IsOddDefined(vl) {
            r := Err(DicmOddDefinedLength);
          } else if group == 2 {
            r := Ok(FileMetaElement);
          } else {
            r := ClassifyInPlace(group, element, vr, vl);
          }
      }
    }

    /** read_fme; `stale` stands for the uninitialised group_length union. */
    method ReadFme(src: Source, stale: seq<byte>) returns (r: Result<Token, Error>)
      requires Valid() && |stale| == 4
      modifies this, buffer, src
      ensures Valid()
      ensures var o := ReadFmeSpec(old(Value()), old(src.Rest()), stale);
        r == o.result && Value() == o.counters && src.pos == old(src.pos) + o.consumed &&
        (o.header.None? ==> bufsize == old(bufsize) && buffer[..] == old(buffer[..])) &&
        (o.header.Some? ==> bufsize == |o.header.value| && buffer[..bufsize] == o.header.value &&
                            buffer[bufsize..] == old(buffer[..])[bufsize..])
    {
      if fmelen == curfmelen {
        fmelen, curfmelen := UndefinedLength, 0;
        return Ok(EndFileMetaInformation);
      }
      var p := ReadCommon(src);
      match p {
        case Done(o) =>
          r := o.result;
        case Decoded(group, element, vr, vl, h) =>
          r := ReadFmeElement(src, stale, group, element, vr, vl, h);
      }
    }

    /** The group 0002 handling of read_fme after a decoded header. */
    method ReadFmeElement(src: Source, stale: seq<byte>, group: u16, element: u16, vr: u16, vl: u32, ghost h: seq<byte>)
      returns (r: Result<Token, Error>)
      requires |stale| == 4
      modifies this, src
      ensures var o := FmeElement(old(Value()), group, element, vr, vl, h, old(src.Rest()), stale);
        r == o.result && Value() == o.counters && src.pos == old(src.pos) + o.consumed - |h|
      ensures bufsize == old(bufsize)
    {
      if IsOddDefined(vl) {
        r := Err(DicmOddDefinedLength);
      } else if group == 2 {
        if element == 0 {
          var x := src.Read(4);
          var g := x + stale[|x|..];
          fmelen := Le32(g[0], g[1], g[2], g[3]);
          r := Ok(FileMetaInformationGroupLength);
        } else {
          curfmelen := Add32(curfmelen, ElementLen(vr, vl));
          r := Ok(FileMetaElement);
        }
      } else {
        r := ClassifyInPlace(group, element, vr, vl);
      }
    }
  }
}
