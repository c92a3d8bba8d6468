/**
 * The data element of src/dicm-de.h: a 32-bit tag made of a 16-bit group and
 * a 16-bit element, a 16-bit VR code and a 32-bit value length.
 */
module DicmDe {
  import opened Io

  /** kUndefinedLength, (vl_t)-1. */
  const UndefinedLength: u32 := 0xFFFF_FFFF

  /** MAKE_TAG(group, element): group in the high half, element in the low half. */
  function MakeTag(group: u16, element: u16): u32 {
    group * 0x1_0000 + element
  }

  /** get_group: the high 16 bits of the tag. */
  function GetGroup(tag: u32): (g: u16)
    ensures g * 0x1_0000 <= tag < (g + 1) * 0x1_0000
  {
    tag / 0x1_0000
  }

  /** get_element: the low 16 bits of the tag. */
  function GetElement(tag: u32): (e: u16)
    ensures (tag - e) % 0x1_0000 == 0
  {
    tag % 0x1_0000
  }

  /** Splitting a tag and joining the halves again gives the tag back. */
  lemma SplitJoin(tag: u32)
    ensures MakeTag(GetGroup(tag), GetElement(tag)) == tag
  {
  }

  /** Joining two halves and splitting again gives the halves back. */
  lemma JoinSplit(group: u16, element: u16)
    ensures GetGroup(MakeTag(group, element)) == group
    ensures GetElement(MakeTag(group, element)) == element
  {
    Io.DivMod16(group, element);
  }

  /** Comparing two tags as numbers compares them by group, then by element:
   *  the "tags increase" rule of the parsers is the order of PS3.5 section 7.1. */
  lemma TagOrder(g1: u16, e1: u16, g2: u16, e2: u16)
    ensures MakeTag(g1, e1) < MakeTag(g2, e2) <==> g1 < g2 || (g1 == g2 && e1 < e2)
  {
  }

  /** A snapshot of struct _dataelement. */
  datatype Element = Element(tag: u32, vr: u16, vl: u32)

  /** struct _dataelement, which the parsers overwrite in place. */
  class DataElement {
    var tag: u32
    var vr: u16
    var vl: u32

    function Value(): Element
      reads this
    {
      Element(tag, vr, vl)
    }

    constructor (tag: u32, vr: u16, vl: u32)
      ensures Value() == Element(tag, vr, vl)
    {
      this.tag := tag;
      this.vr := vr;
      this.vl := vl;
    }

    method Set(e: Element)
      modifies this
      ensures Value() == e
    {
      tag, vr, vl := e.tag, e.vr, e.vl;
    }
  }
}
