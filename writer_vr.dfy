/**
 * The value representations as the text writers of examples/json.c and
 * examples/xml.c see them (the public dicm_vr_t).  The header declaring
 * dicm_vr_t, dicm_vr_get_string and dicm_vl_is_undefined is not part of this
 * model; the codes are taken to be the two VR letters packed as by MAKE_VR,
 * VR_NONE to be 0, and the printable name to be the two letters in memory
 * order.
 */
module WriterVr {
  import opened Io
  import opened TextIo
  import opened DicmDe
  import opened Wrappers
  import P = DicmParser

  const kNONE: u16 := 0
  const kOV: u16 := P.MakeVr('O' as int, 'V' as int)
  const kSV: u16 := P.MakeVr('S' as int, 'V' as int)
  const kUV: u16 := P.MakeVr('U' as int, 'V' as int)

  /** "%.2s" of dicm_vr_get_string(vr): the two letters, up to a NUL. */
  function VrName(vr: u16): (r: string)
    ensures |r| <= 2 && NUL !in r
  {
    CString([(vr % 0x100) as char, (vr / 0x100) as char])
  }

  /** The name of a packed code is its two letters again. */
  lemma VrNameOfMakeVr(c0: char, c1: char)
    requires 'A' <= c0 <= 'Z' && 'A' <= c1 <= 'Z'
    ensures VrName(P.MakeVr(c0 as int, c1 as int)) == [c0, c1]
  {
    var vr := P.MakeVr(c0 as int, c1 as int);
    assert vr % 0x100 == c0 as int && vr / 0x100 == c1 as int;
    assert CString([c1]) == [c1];
  }

  /** dicm_vl_is_undefined. */
  predicate IsUndefined(vl: u32) {
    vl == UndefinedLength
  }

  /** The VRs printed as quoted, backslash-separated strings. */
  predicate IsQuotedStringVr(vr: u16) {
    vr in {P.kAE, P.kAS, P.kCS, P.kDA, P.kDT, P.kLO, P.kSH, P.kTM, P.kUC, P.kUI}
  }

  /** The decimal strings, printed separated but unquoted. */
  predicate IsNumberStringVr(vr: u16) {
    vr == P.kDS || vr == P.kIS
  }

  /** The single-valued texts. */
  predicate IsTextVr(vr: u16) {
    vr in {P.kLT, P.kST, P.kUR, P.kUT}
  }

  /** The binary VRs, printed in base64. */
  predicate IsBinaryVr(vr: u16) {
    vr in {P.kOB, P.kOD, P.kOF, P.kOL, kOV, P.kOW}
  }

  predicate IsFloatVr(vr: u16) {
    vr == P.kFL || vr == P.kFD
  }

  /** How an integer VR lays out each value: its width in bytes and whether
   *  it is signed. */
  datatype IntegerLayout = IntegerLayout(width: nat, signed: bool)

  function IntegerFormat(vr: u16): (r: Option<IntegerLayout>)
    ensures r.Some? ==> r.value.width in {2, 4, 8}
  {
    if vr == P.kSS then Some(IntegerLayout(2, true))
    else if vr == P.kUS then Some(IntegerLayout(2, false))
    else if vr == P.kSL then Some(IntegerLayout(4, true))
    else if vr == P.kUL then Some(IntegerLayout(4, false))
    else if vr == kSV then Some(IntegerLayout(8, true))
    else if vr == kUV then Some(IntegerLayout(8, false))
    else None
  }
}
