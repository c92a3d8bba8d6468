/**
 * The item reader of src/dicm-item.c: a small state machine that steps from
 * an attribute to its value and to the end of the attribute, and classifies
 * each new header read through dicm_io_read as an item start, item end,
 * sequence end, sequence start or attribute.
 */
module DicmItem {
  import opened Io
  import opened DicmDe
  import P = DicmParser

  /** The enum dicm_state values the item reader produces or handles. */
  datatype ItemState =
    | StartItem | EndItem | EndSequence
    | StartAttribute | StartSequence | Value | EndAttribute
    | EndModel

  /** struct dicm_attribute: tag (group in the high half), VR code and length. */
  datatype Attribute = Attribute(tag: u32, vr: u16, vl: u32)

  const kStartItemTag: u32 := MakeTag(0xFFFE, 0xE000)
  const kEndItemTag: u32 := MakeTag(0xFFFE, 0xE00D)
  const kEndSQItemTag: u32 := MakeTag(0xFFFE, 0xE0DD)

  /** The tag of a header after the byte swap of next_impl: the first
   *  little-endian uint16_t is the group, the second the element. */
  function SwappedTag(h: seq<byte>): u32
    requires |h| >= 4
  {
    MakeTag(Le16(h[0], h[1]), Le16(h[2], h[3]))
  }

  /** ude2attribute on a zero-initialised 12-byte header image: the VR is the
   *  two bytes after the tag; a short VR takes the 16-bit length, any other
   *  the 32-bit length of bytes 8 to 11. */
  function Ude2Attribute(u: seq<byte>): (a: Attribute)
    requires |u| == 12
    ensures a.tag == SwappedTag(u) && a.vr == Le16(u[4], u[5])
    ensures P.IsVr16(a.vr) ==> a.vl == Le16(u[6], u[7])
    ensures !P.IsVr16(a.vr) ==> a.vl == Le32(u[8], u[9], u[10], u[11])
  {
    var vr := Le16(u[4], u[5]);
    Attribute(SwappedTag(u), vr, if P.IsVr16(vr) then Le16(u[6], u[7]) else Le32(u[8], u[9], u[10], u[11]))
  }

  /** What next_impl does: the new state, the attribute and the bytes read. */
  datatype Impl = Impl(state: ItemState, da: Attribute, consumed: nat)

  /** dicm_item_reader_next_impl on the current attribute and the unread
   *  input.  A short read of the 4 extra length bytes (an assertion in the
   *  source) leaves the unread bytes at the zero of the memset. */
  function NextImplSpec(da: Attribute, rest: seq<byte>): Impl {
    var h := Take(rest, 8);
    if |h| < 8 then Impl(EndModel, da, |h|)
    else
      var tag := SwappedTag(h);
      if tag == kStartItemTag then Impl(StartItem, da, 8)
      else if tag == kEndItemTag then Impl(EndItem, da, 8)
      else if tag == kEndSQItemTag then Impl(EndSequence, da, 8)
      else if P.IsVr16(Le16(h[4], h[5])) then Impl(StartAttribute, Ude2Attribute(h + [0, 0, 0, 0]), 8)
      else
        var x := Take(rest[8..], 4);
        var a := Ude2Attribute(h + x + seq(4 - |x|, _ => 0));
        Impl(if a.vr == P.kSQ then StartSequence else StartAttribute, a, 8 + |x|)
  }

  /** The states dicm_item_reader_next handles; any other one asserts. */
  predicate Handled(s: ItemState) {
    s in {StartAttribute, EndAttribute, Value, StartSequence, StartItem, EndItem}
  }

  /** The reader's state: current_item_state, da and value_length_pos. */
  datatype Reader = Reader(state: ItemState, da: Attribute, pos: u32)

  /** dicm_item_reader_next as a function: the new reader and the bytes read. */
  function NextSpec(r: Reader, rest: seq<byte>): (Reader, nat)
    requires Handled(r.state)
  {
    if r.state == StartAttribute then (r.(state := Value, pos := 0), 0)
    else if r.state == Value then
      if r.da.vl == r.pos then (r.(state := EndAttribute), 0)
      else (r.(state := Value, pos := 0), 0)
    else
      var i := NextImplSpec(r.da, rest);
      (r.(state := i.state, da := i.da), i.consumed)
  }

  /** struct dicm_item_reader. */
  class ItemReader {
    var currentItemState: ItemState
    var da: Attribute
    var valueLengthPos: u32

    function Snap(): Reader
      reads this
    {
      Reader(currentItemState, da, valueLengthPos)
    }

    constructor (state: ItemState, da: Attribute)
      ensures Snap() == Reader(state, da, 0)
    {
      currentItemState := state;
      this.da := da;
      valueLengthPos := 0;
    }

    /** dicm_item_reader_next_impl. */
    method NextImpl(src: Source) returns (s: ItemState)
      modifies this, src
      ensures var i := NextImplSpec(old(da), old(src.Rest()));
        s == i.state && da == i.da && src.pos == old(src.pos) + i.consumed
      ensures currentItemState == old(currentItemState) && valueLengthPos == old(valueLengthPos)
    {
      ghost var rest := src.Rest();
      var err, h := src.ReadExact(8);
      if err != 0 {
        return EndModel;
      }
      var tag := SwappedTag(h);
      if tag == kStartItemTag {
        return StartItem;
      } else if tag == kEndItemTag {
        return EndItem;
      } else if tag == kEndSQItemTag {
        return EndSequence;
      }
      if P.IsVr16(Le16(h[4], h[5])) {
        da := Ude2Attribute(h + [0, 0, 0, 0]);
        return StartAttribute;
      }
      var err2, x := src.ReadExact(4);
      assert x == Take(rest[8..], 4);
      da := Ude2Attribute(h + x + seq(4 - |x|, _ => 0));
      if da.vr == P.kSQ {
        return StartSequence;
      }
      return StartAttribute;
    }

    /** dicm_item_reader_next_impl2. */
    method NextImpl2() returns (s: ItemState)
      modifies this
      ensures s == Value && valueLengthPos == 0
      ensures currentItemState == old(currentItemState) && da == old(da)
    {
      valueLengthPos := 0;
      return Value;
    }

    /** dicm_item_reader_next: the new state is stored and returned. */
    method Next(src: Source) returns (s: ItemState)
      requires Handled(currentItemState)
      modifies this, src
      ensures var (r, adv) := NextSpec(old(Snap()), old(src.Rest()));
        Snap() == r && src.pos == old(src.pos) + adv
      ensures s == currentItemState
    {
      var current := currentItemState;
      if current == StartAttribute {
        s := NextImpl2();
      } else if current == EndAttribute {
        s := NextImpl(src);
      } else if current == Value {
        if da.vl == valueLengthPos {
          s := EndAttribute;
        } else {
          s := NextImpl2();
        }
      } else {
        s := NextImpl(src);
      }
      currentItemState := s;
    }
  }

  /** The three delimiter tags classify as item start, item end and sequence
   *  end, after reading exactly their 8 bytes. */
  lemma DelimitersClassify(da: Attribute, rest: seq<byte>)
    requires |rest| >= 8
    ensures var i := NextImplSpec(da, rest);
      (SwappedTag(rest) == kStartItemTag ==> i == Impl(StartItem, da, 8)) &&
      (SwappedTag(rest) == kEndItemTag ==> i == Impl(EndItem, da, 8)) &&
      (SwappedTag(rest) == kEndSQItemTag ==> i == Impl(EndSequence, da, 8))
  {
    assert Take(rest, 8) == rest[..8];
  }

  /** A failed 8-byte read ends the model. */
  lemma ShortReadEndsModel(da: Attribute, rest: seq<byte>)
    requires |rest| < 8
    ensures NextImplSpec(da, rest) == Impl(EndModel, da, |rest|)
  {
  }

  /** An attribute with a short VR is reported without reading further; a
   *  long VR reads 4 more length bytes, and SQ starts a sequence. */
  lemma AttributeHeaders(da: Attribute, rest: seq<byte>)
    requires |rest| >= 12
    requires SwappedTag(rest) !in {kStartItemTag, kEndItemTag, kEndSQItemTag}
    ensures var i := NextImplSpec(da, rest);
      var vr := Le16(rest[4], rest[5]);
      i.da == Attribute(SwappedTag(rest), vr, if P.IsVr16(vr) then Le16(rest[6], rest[7]) else Le32(rest[8], rest[9], rest[10], rest[11])) &&
      (P.IsVr16(vr) ==> i.state == StartAttribute && i.consumed == 8) &&
      (!P.IsVr16(vr) ==> i.consumed == 12 && (i.state == StartSequence <==> vr == P.kSQ) &&
                         i.state in {StartSequence, StartAttribute})
  {
    assert Take(rest, 8) == rest[..8];
    assert Take(rest[8..], 4) == rest[8..12];
  }

  /** The transitions of dicm_item_reader_next: an attribute goes on to its
   *  value with the position reset; a value ends once the position reaches
   *  the length; every other handled state reads a new header. */
  lemma Transitions(r: Reader, rest: seq<byte>)
    requires Handled(r.state)
    ensures var (r1, adv) := NextSpec(r, rest);
      (r.state == StartAttribute ==> r1.state == Value && r1.pos == 0 && adv == 0) &&
      (r.state == Value ==> adv == 0 && (r1.state == EndAttribute <==> r.da.vl == r.pos) &&
                            r1.state in {Value, EndAttribute}) &&
      (r.state !in {StartAttribute, Value} ==> r1.state == NextImplSpec(r.da, rest).state && r1.pos == r.pos)
  {
  }
}
