/**
 * The two-stage header decoder of src/parser.c used by the stream reader of
 * src/dicm.c: read_explicit1 decodes tag and VR from 6 bytes, read_explicit2
 * decodes the value length from the 2 or 6 bytes that follow.  Both update
 * the caller's struct _dataelement in place.
 */
module Parser {
  import opened Io
  import opened DicmDe
  import DicmParser

  /** The error codes of src/dicm-errno.h. */
  const kSuccess: int := 0
  const kError: int := -1
  const kOutOfOrder: int := -2
  const kInvalidVR: int := -3

  /** compute_len of src/parser.c, which asks isvr32 where src/dicm-parser.c asks is_vr16. */
  function ComputeLen(de: Element): u32 {
    (if DicmParser.IsVr32(de.vr) then 12 + de.vl else 8 + de.vl) % 0x1_0000_0000
  }

  /** Both versions of compute_len agree on every element. */
  lemma ComputeLenAgrees(de: Element)
    ensures ComputeLen(de) == DicmParser.ComputeLen(de)
  {
    DicmParser.Vr32IsNotVr16(de.vr);
  }

  /** The bytes read_explicit2 expects after the tag and VR: the reserved
   *  field and a 4-byte length for a 32-bit VR, a 2-byte length otherwise
   *  (get_explicit2_len). */
  function Explicit2Len(vr: u16): nat {
    if DicmParser.IsVr32(vr) then 6 else 2
  }

  /** read_explicit1 as a function: its return code and the new *de. */
  function Explicit1Spec(prev: Element, buf: seq<byte>): (int, Element)
    requires |buf| == 6
  {
    var tag := DicmParser.HeaderTag(buf);
    if !(prev.tag < tag) then (kOutOfOrder, prev)
    else if !DicmParser.IsVrValid(buf[4], buf[5]) then (kInvalidVR, prev)
    else (kSuccess, prev.(tag := tag, vr := DicmParser.MakeVr(buf[4], buf[5])))
  }

  method ReadExplicit1(de: DataElement, buf: seq<byte>) returns (rc: int)
    requires |buf| == 6
    modifies de
    ensures (rc, de.Value()) == Explicit1Spec(old(de.Value()), buf)
  {
    var tag := DicmParser.HeaderTag(buf);
    if !(de.tag < tag) {
      return kOutOfOrder;
    }
    if !DicmParser.IsVrValid(buf[4], buf[5]) {
      return kInvalidVR;
    }
    de.tag := tag;
    de.vr := DicmParser.MakeVr(buf[4], buf[5]);
    return kSuccess;
  }

  /** read_explicit2 as a function: whether the padding was zero, and the new *de. */
  function Explicit2Spec(prev: Element, buf: seq<byte>): (bool, Element)
    requires |buf| == Explicit2Len(prev.vr)
  {
    var vl16 := Le16(buf[0], buf[1]);
    if DicmParser.IsVr32(prev.vr) then
      if vl16 != 0 then (false, prev)
      else (true, prev.(vl := Le32(buf[2], buf[3], buf[4], buf[5])))
    else (true, prev.(vl := vl16))
  }

  method ReadExplicit2(de: DataElement, buf: seq<byte>) returns (ok: bool)
    requires |buf| == Explicit2Len(de.vr)
    modifies de
    ensures (ok, de.Value()) == Explicit2Spec(old(de.Value()), buf)
  {
    var vl16 := Le16(buf[0], buf[1]);
    var vl: u32;
    if DicmParser.IsVr32(de.vr) {
      if vl16 != 0 {
        return false;
      }
      vl := Le32(buf[2], buf[3], buf[4], buf[5]);
    } else {
      vl := vl16;
    }
    de.vl := vl;
    return true;
  }

  /** read_explicit1 refuses a tag that is not strictly greater than the
   *  previous one, then a VR that is not two upper-case letters, leaving *de
   *  as it was; otherwise it sets exactly the tag and the VR. */
  lemma Explicit1Outcomes(prev: Element, buf: seq<byte>)
    requires |buf| == 6
    ensures var (rc, de) := Explicit1Spec(prev, buf);
      (rc == kOutOfOrder <==> DicmParser.HeaderTag(buf) <= prev.tag) &&
      (rc == kInvalidVR <==> prev.tag < DicmParser.HeaderTag(buf) && !DicmParser.IsVrValid(buf[4], buf[5])) &&
      (rc != kSuccess ==> de == prev) &&
      (rc == kSuccess ==> de.tag == DicmParser.HeaderTag(buf) &&
                          de.vr == DicmParser.MakeVr(buf[4], buf[5]) && de.vl == prev.vl)
  {
  }

  /** read_explicit2 on a 32-bit VR needs zero padding and takes the 4-byte
   *  length after it; on a 16-bit VR it zero-extends the 2-byte length.  The
   *  tag and VR are never touched. */
  lemma Explicit2Outcomes(prev: Element, buf: seq<byte>)
    requires |buf| == Explicit2Len(prev.vr)
    ensures var (ok, de) := Explicit2Spec(prev, buf);
      de.tag == prev.tag && de.vr == prev.vr &&
      (DicmParser.IsVr32(prev.vr) ==>
         (ok <==> buf[0] == 0 && buf[1] == 0) &&
         (ok ==> de.vl == Le32(buf[2], buf[3], buf[4], buf[5])) &&
         (!ok ==> de == prev)) &&
      (!DicmParser.IsVr32(prev.vr) ==> ok && de.vl == buf[0] as int + 0x100 * buf[1] as int && de.vl < 0x1_0000)
  {
  }
}
