/**
 * The Native DICOM Model writer of examples/xml.c (DICOM PS3.19 section
 * A.1).  Every line goes out followed by an end of line in pretty mode; an
 * attribute's closing tag is written lazily, by the next attribute, the end
 * of the item or the end of the sequence, which the writer tracks with
 * `firstAttribute`; items are numbered with `itemNum`.
 *
 * As in the JSON writer, the text of each event is a function of the writer
 * state before the event, and the methods of XmlWriter produce it write by
 * write.  Unlike the JSON writer the event methods report a short write:
 * they return 1, skipping the rest of the event (and its state updates),
 * as soon as a line does not go out whole.
 */
module Xml {
  import opened Io
  import opened TextIo
  import opened MultiValue
  import opened WriterVr
  import B = Base64
  import W = Words
  import De = DicmDe
  import P = DicmParser
  import I = DicmItem

  /** _xml_write_line: the line and then print_eol. */
  function Line(pretty: bool, s: string): string {
    s + Eol(pretty)
  }

  /** The lines in order, each through _xml_write_line. */
  function Lines(pretty: bool, ls: seq<string>): string {
    if ls == [] then [] else Lines(pretty, ls[..|ls| - 1]) + Line(pretty, ls[|ls| - 1])
  }

  lemma LinesSnoc(pretty: bool, ls: seq<string>, l: string)
    ensures Lines(pretty, ls + [l]) == Lines(pretty, ls) + Line(pretty, l)
  {
    assert (ls + [l])[..|ls|] == ls;
  }

  /** dicm_tag_is_private: an odd group. */
  predicate IsPrivate(tag: u32) {
    De.GetGroup(tag) % 2 == 1
  }

  /** The element written in the tag attribute: only its low byte for a
   *  private tag. */
  function PrintedElement(tag: u32): u16 {
    if IsPrivate(tag) then De.GetElement(tag) % 0x100 else De.GetElement(tag)
  }

  const TagOpening: string := "<DicomAttribute tag=\""
  const PrivateCreator: string := " privateCreator=\"libdicm\""

  /** The opening tag of an attribute, through a 512-byte buffer. */
  function AttributeLine(a: I.Attribute): (r: string)
    ensures NUL !in r
  {
    Formatted(AttributeHead(a) + Creator(a.tag) + ">")
  }

  /** Everything up to the optional privateCreator attribute. */
  function AttributeHead(a: I.Attribute): (r: string)
    ensures NUL !in r
  {
    TagOpening + Hex4(De.GetGroup(a.tag)) + Hex4(PrintedElement(a.tag)) + "\" vr=\"" + VrName(a.vr) + "\" keyword=\"\""
  }

  function Creator(tag: u32): (r: string)
    ensures NUL !in r
  {
    if IsPrivate(tag) then PrivateCreator else ""
  }

  /** The head is short enough for the buffer, starts with the tag digits
   *  and ends in the empty keyword's closing quote. */
  lemma HeadShape(a: I.Attribute)
    ensures var h := AttributeHead(a);
      47 <= |h| <= 49 && h[..21] == TagOpening && h[21..29] == Hex4(De.GetGroup(a.tag)) + Hex4(PrintedElement(a.tag))
      && h[|h| - 1] == '\"'
  {
    var x := Hex4(De.GetGroup(a.tag)) + Hex4(PrintedElement(a.tag));
    var y := "\" vr=\"" + VrName(a.vr) + "\" keyword=\"\"";
    assert |TagOpening| == 21;
    assert AttributeHead(a) == TagOpening + x + y;
    assert |y| >= 18 && y[|y| - 1] == '\"';
  }

  /** The tag attribute names the tag, except that a private tag's element
   *  keeps only its low byte. */
  lemma AttributeLineTag(a: I.Attribute)
    ensures var r := AttributeLine(a);
      |r| >= 29 && r[..21] == TagOpening
      && HexNumber(r[21..29]) == De.GetGroup(a.tag) as int * 0x1_0000 + PrintedElement(a.tag)
      && (!IsPrivate(a.tag) ==> HexNumber(r[21..29]) == a.tag)
      && (IsPrivate(a.tag) ==> PrintedElement(a.tag) < 0x100)
  {
    var g, e := De.GetGroup(a.tag), PrintedElement(a.tag);
    var h := AttributeHead(a);
    HeadShape(a);
    var r := AttributeLine(a);
    assert r == h + (Creator(a.tag) + ">");
    assert r[..29] == h[..29];
    Hex4Value(g);
    Hex4Value(e);
    HexNumberAppend(Hex4(g), Hex4(e));
    assert Pow16(4) == 0x1_0000;
    De.SplitJoin(a.tag);
  }

  /** Private tags, and only they, carry the privateCreator attribute. */
  lemma AttributeLinePrivate(a: I.Attribute)
    ensures var r := AttributeLine(a);
      |r| > |PrivateCreator| && (IsPrivate(a.tag) <==> PrivateCreator + ">" <= r[|r| - |PrivateCreator| - 1..])
  {
    var h := AttributeHead(a);
    HeadShape(a);
    var r := AttributeLine(a);
    var n := |PrivateCreator| + 1;
    assert n == 26;
    assert r == h + Creator(a.tag) + ">";
    var tail := r[|r| - n..];
    if IsPrivate(a.tag) {
      assert tail == PrivateCreator + ">";
    } else {
      assert r == h + ">";
      assert tail[n - 2] == h[|h| - 1] == '\"';
      assert (PrivateCreator + ">")[n - 2] == '\"';
      assert tail[n - 3] == h[|h| - 2];
    }
  }

  /** _xml_write_end_attribute: the closing tag of the previous attribute,
   *  if there is one. */
  function EndAttributeText(pretty: bool, first: bool): string {
    if first then [] else Line(pretty, "</DicomAttribute>")
  }

  function AttributeText(pretty: bool, first: bool, a: I.Attribute): string {
    EndAttributeText(pretty, first) + Line(pretty, AttributeLine(a))
  }

  /** "<Value number=\"%d\">%s</Value>" through a 512-byte buffer. */
  function ValueLine(number: int, s: string): (r: string)
    ensures NUL !in r
  {
    ValueTagsNoNul();
    Formatted(ValueOpening + Decimal(number) + "\">" + CString(s) + ValueClosing)
  }

  const ValueOpening: string := "<Value number=\""
  const ValueClosing: string := "</Value>"

  lemma ValueTagsNoNul()
    ensures NUL !in ValueOpening && NUL !in "\">" && NUL !in ValueClosing
  {
  }

  /** One Value element per string, numbered from 1. */
  function ValueLines(pretty: bool, parts: seq<string>): string {
    if parts == [] then []
    else ValueLines(pretty, parts[..|parts| - 1]) + Line(pretty, ValueLine(|parts|, parts[|parts| - 1]))
  }

  lemma ValueLinesSnoc(pretty: bool, parts: seq<string>, s: string)
    ensures ValueLines(pretty, parts + [s]) == ValueLines(pretty, parts) + Line(pretty, ValueLine(|parts| + 1, s))
  {
    assert (parts + [s])[..|parts|] == parts;
  }

  /** The value lines are the lines of the numbered values: the k-th line
   *  holds value k - 1 under number k. */
  lemma {:induction false} ValueLinesNumbered(pretty: bool, parts: seq<string>)
    ensures ValueLines(pretty, parts) == Lines(pretty, seq(|parts|, i requires 0 <= i < |parts| => ValueLine(i + 1, parts[i])))
  {
    var ls := seq(|parts|, i requires 0 <= i < |parts| => ValueLine(i + 1, parts[i]));
    if parts != [] {
      var init := parts[..|parts| - 1];
      ValueLinesNumbered(pretty, init);
      assert ls[..|ls| - 1] == seq(|init|, i requires 0 <= i < |init| => ValueLine(i + 1, init[i]));
    }
  }

  /** The components print_with_separator prints: every component of the
   *  trimmed value, the last one only when it is not empty. */
  function Emitted(t: string): (r: seq<string>)
  {
    var p := Split(t);
    if p[|p| - 1] == [] then p[..|p| - 1] else p
  }

  /** One component per backslash, plus the one after the last backslash
   *  when it is not empty; each is the text between two backslashes. */
  lemma EmittedComponents(t: string)
    ensures var p := Split(t);
      |Emitted(t)| == Count(t, '\\') + (if p[|p| - 1] == [] then 0 else 1)
      && Emitted(t) == p[..|Emitted(t)|]
      && (forall i :: 0 <= i < |Emitted(t)| ==> '\\' !in Emitted(t)[i])
      && Join(p, "\\") == t
  {
    SplitJoin(t);
  }

  /** print_with_separator. */
  function SeparatedText(pretty: bool, value: string): string {
    ValueLines(pretty, Emitted(Trim(value)))
  }

  /** The lines of the components already ended by a backslash. */
  function Completed(pretty: bool, p: seq<string>): string
    requires |p| >= 1
  {
    ValueLines(pretty, p[..|p| - 1])
  }

  /** A backslash prints the component it ends. */
  lemma CompletedBackslash(pretty: bool, p: seq<string>)
    requires |p| >= 1
    ensures Completed(pretty, p + [[]]) == Completed(pretty, p) + Line(pretty, ValueLine(|p|, p[|p| - 1]))
  {
    assert (p + [[]])[..|p|] == p;
  }

  /** Any other character prints nothing yet. */
  lemma CompletedOther(pretty: bool, p: seq<string>, c: char)
    requires |p| >= 1
    ensures Completed(pretty, p[..|p| - 1] + [p[|p| - 1] + [c]]) == Completed(pretty, p)
  {
    var q := p[..|p| - 1] + [p[|p| - 1] + [c]];
    assert q[..|q| - 1] == p[..|p| - 1];
  }

  /** print_no_whitespace: a single Value, the whole buffer up to a NUL. */
  function NoWhitespaceText(pretty: bool, value: string): string {
    Line(pretty, ValueLine(1, value))
  }

  /** print_person_name: a fixed placeholder name. */
  function PersonNameText(pretty: bool): string {
    Lines(pretty, ["<PersonName number=\"1\">", "<Alphabetic>", "<FamilyName>NFAO</FamilyName>", "</Alphabetic>", "</PersonName>"])
  }

  /** The integers in decimal. */
  function Decimals(xs: seq<int>): (r: seq<string>)
    ensures |r| == |xs| && forall i :: 0 <= i < |xs| ==> r[i] == Decimal(xs[i])
  {
    seq(|xs|, i requires 0 <= i < |xs| => Decimal(xs[i]))
  }

  lemma DecimalsSnoc(xs: seq<int>, x: int)
    ensures Decimals(xs + [x]) == Decimals(xs) + [Decimal(x)]
  {
  }

  /** The integer printers: one Value per element, numbered from 1. */
  function IntegerText(pretty: bool, xs: seq<int>): string {
    ValueLines(pretty, Decimals(xs))
  }

  /** A printed element holds its value in decimal. */
  lemma IntegerLine(x: int, n: int)
    ensures ValueLine(n, Decimal(x)) == Formatted(ValueOpening + Decimal(n) + "\">" + Decimal(x) + ValueClosing)
  {
    CStringNoNul(Decimal(x));
  }

  /** print_inline_binary: base64 in lines of four characters, nothing when
   *  the length is undefined. */
  function InlineBinaryText(pretty: bool, vl: u32, value: seq<byte>): string {
    if IsUndefined(vl) then "" else B.Groups(value, B.GroupCount(|value|), Eol(pretty))
  }

  /** write_value of a non-empty buffer, by the VR of the current attribute.
   *  AT and VR_NONE print nothing; UN, SQ and any other VR reach assert(0),
   *  which the release build skips. */
  function ValueText(pretty: bool, vr: u16, vl: u32, value: seq<byte>): string
    requires !IsFloatVr(vr)
  {
    var s := Chars(value);
    if IsQuotedStringVr(vr) || IsNumberStringVr(vr) then SeparatedText(pretty, s)
    else if IsTextVr(vr) then NoWhitespaceText(pretty, s)
    else if vr == P.kPN then PersonNameText(pretty)
    else if IsBinaryVr(vr) then InlineBinaryText(pretty, vl, value)
    else if IntegerFormat(vr).Some? then
      var f := IntegerFormat(vr).value;
      IntegerText(pretty, W.Values(value, f.width, f.signed))
    else ""
  }

  /** write_value: an empty buffer prints nothing. */
  function WriteValueText(pretty: bool, vr: u16, vl: u32, value: seq<byte>): string
    requires !IsFloatVr(vr)
  {
    if value == [] then [] else ValueText(pretty, vr, vl, value)
  }

  function ItemLine(number: int): (r: string)
    ensures NUL !in r
  {
    Formatted("<Item number=\"" + Decimal(number) + "\">")
  }

  function EndItemText(pretty: bool, first: bool): string {
    EndAttributeText(pretty, first) + Line(pretty, "</Item>")
  }

  const XmlDeclaration: string := "<?xml version=\"1.0\" encoding=\"UTF-8\"?>"
  const ModelOpening: string := "<NativeDicomModel xml:space=\"preserve\">"
  const ModelClosing: string := "</NativeDicomModel>"

  /** A base64 group is table characters and '=': no NUL. */
  lemma GroupNoNul(data: seq<byte>, i: nat)
    requires i < |data|
    ensures NUL !in B.Group(data, i)
  {
    B.QuadAlphabet(B.GroupValue(data, i), B.GroupLength(data, i));
  }

  /** The fixed lines hold no NUL, so _xml_write_line writes them whole. */
  lemma FixedLinesNoNul()
    ensures NUL !in XmlDeclaration && NUL !in ModelOpening && NUL !in ModelClosing
  {
  }

  function StartDatasetText(pretty: bool): string {
    Line(pretty, XmlDeclaration) + Line(pretty, ModelOpening)
  }

  /**
   * struct _xml and its writer methods.  Inside a method the ghost text `w`
   * is what the method has asked to write so far, after the text `before`
   * (or old(dst.out)) asked for by the earlier calls.  An event method
   * returns 0 exactly when its whole text went out.
   */
  class XmlWriter {
    const dst: TextSink
    const pretty: bool
    var firstAttribute: bool
    var itemNum: int
    var vr: u16
    var vl: u32

    ghost predicate Valid()
      reads this, dst
    {
      dst.Valid()
    }

    /** dicm_xml_writer_create.  The source never sets vl; it is whatever
     *  the allocation left, here the argument `vl`.  The C locale it creates
     *  is not modelled. */
    constructor (dst: TextSink, vl: u32)
      ensures this.dst == dst && pretty && firstAttribute && itemNum == 0
      ensures vr == kNONE && this.vl == vl
    {
      this.dst := dst;
      pretty := true;
      firstAttribute := true;
      itemNum := 0;
      vr := kNONE;
      this.vl := vl;
    }

    /** print_eol: 1 when the end of line did not go out. */
    method PrintEol(ghost before: string) returns (err: int)
      requires dst.out == Clip(before, dst.capacity)
      modifies dst
      ensures dst.out == Clip(before + Eol(pretty), dst.capacity)
      ensures err == 0 <==> Eol(pretty) == [] || |before| + |Eol(pretty)| <= dst.capacity
    {
      err := 0;
      if pretty {
        var count := dst.Write(before, "\n");
        if count != 1 {
          err := 1;
        }
      } else {
        assert before + Eol(pretty) == before;
      }
    }

    /** _xml_write_line and _xml_write_buffer: the line (its characters up
     *  to the NUL that ends it) and an end of line; 1, and no end of line,
     *  when the line does not go out whole. */
    method WriteLine(ghost before: string, line: string) returns (err: int)
      requires NUL !in line
      requires dst.out == Clip(before, dst.capacity)
      modifies dst
      ensures dst.out == Clip(before + Line(pretty, line), dst.capacity)
      ensures err == 0 <==> Line(pretty, line) == [] || |before| + |Line(pretty, line)| <= dst.capacity
    {
      var count := dst.Write(before, line);
      Assoc(before, line, Eol(pretty));
      if count != |line| {
        ClipFull(before + line, Eol(pretty), dst.capacity);
        return 1;
      }
      err := PrintEol(before + line);
    }

    /** print_with_separator, with the trimming corrected (see MultiValue).
     *  The characters of the current component go into a buffer, modelled
     *  as a sequence; a backslash prints it and starts the next. */
    method PrintWithSeparator(ghost before: string, value: string)
      requires |value| > 0
      requires dst.out == Clip(before, dst.capacity)
      modifies dst
      ensures dst.out == Clip(before + SeparatedText(pretty, value), dst.capacity)
    {
      var start, len := TrimBounds(value);
      var index, component := PrintComponents(before, value[start..start + len]);
      EndComponents(before, Trim(value), index, component);
    }

    /** The loop of print_with_separator over the trimmed characters t. */
    method PrintComponents(ghost before: string, t: string) returns (index: nat, component: string)
      requires dst.out == Clip(before, dst.capacity)
      modifies dst
      ensures Separating(before, t, index, component)
    {
      component := [];
      index := 1;
      var pos := 0;
      assert t[..0] == [];
      assert before + Completed(pretty, [[]]) == before;
      while pos < |t|
        invariant pos <= |t|
        invariant Separating(before, t[..pos], index, component)
      {
        TakeSnoc(t, pos);
        index, component := AddCharacter(before, t[..pos], t[pos], index, component);
        pos := pos + 1;
      }
      assert t[..pos] == t;
    }

    /** After the loop: the last component, when it is not empty. */
    method EndComponents(ghost before: string, ghost t: string, index: nat, component: string)
      requires Separating(before, t, index, component)
      modifies dst
      ensures dst.out == Clip(before + ValueLines(pretty, Emitted(t)), dst.capacity)
    {
      ghost var p := Split(t);
      if component != [] {
        ghost var c := Completed(pretty, p);
        var _ := WriteLine(before + c, ValueLine(index, component));
        Assoc(before, c, Line(pretty, ValueLine(index, component)));
        ValueLinesSnoc(pretty, p[..|p| - 1], component);
        DropLastSnoc(p);
      }
    }

    /** After the characters s of the trimmed value: `index` numbers the
     *  component in the buffer, and the components before it are printed. */
    ghost predicate Separating(before: string, s: string, index: int, component: string)
      reads this, dst
    {
      var p := Split(s);
      index == |p| && component == p[|p| - 1] && dst.out == Clip(before + Completed(pretty, p), dst.capacity)
    }

    /** One character of print_with_separator's loop. */
    method AddCharacter(ghost before: string, ghost s: string, c: char, index: nat, component: string)
      returns (index': nat, component': string)
      requires Separating(before, s, index, component)
      modifies dst
      ensures Separating(before, s + [c], index', component')
    {
      ghost var p := Split(s);
      ghost var w := Completed(pretty, p);
      if c == '\\' {
        SplitSnocBackslash(s);
        CompletedBackslash(pretty, p);
        var _ := WriteLine(before + w, ValueLine(index, component));
        Assoc(before, w, Line(pretty, ValueLine(index, component)));
        index', component' := index + 1, [];
      } else {
        SplitSnocOther(s, c);
        CompletedOther(pretty, p, c);
        index', component' := index, component + [c];
      }
    }

    method PrintNoWhitespace(ghost before: string, value: string)
      requires dst.out == Clip(before, dst.capacity)
      modifies dst
      ensures dst.out == Clip(before + NoWhitespaceText(pretty, value), dst.capacity)
    {
      var _ := WriteLine(before, ValueLine(1, value));
    }

    method PrintPersonName(ghost before: string)
      requires dst.out == Clip(before, dst.capacity)
      modifies dst
      ensures dst.out == Clip(before + PersonNameText(pretty), dst.capacity)
    {
      var ls := ["<PersonName number=\"1\">", "<Alphabetic>", "<FamilyName>NFAO</FamilyName>", "</Alphabetic>", "</PersonName>"];
      var k := 0;
      while k < |ls|
        invariant 0 <= k <= |ls|
        invariant dst.out == Clip(before + Lines(pretty, ls[..k]), dst.capacity)
      {
        ghost var w := Lines(pretty, ls[..k]);
        var _ := WriteLine(before + w, ls[k]);
        Assoc(before, w, Line(pretty, ls[k]));
        LinesSnoc(pretty, ls[..k], ls[k]);
        assert ls[..k + 1] == ls[..k] + [ls[k]];
        k := k + 1;
      }
      assert ls[..|ls|] == ls;
    }

    /** print_signed_short, print_unsigned_short, print_signed_long,
     *  print_signed_very_long, print_unsigned_long and
     *  print_unsigned_very_long: len / width elements, numbered from 1. */
    method PrintIntegers(ghost before: string, value: seq<byte>, width: nat, signed: bool)
      requires width > 0
      requires dst.out == Clip(before, dst.capacity)
      modifies dst
      ensures dst.out == Clip(before + IntegerText(pretty, W.Values(value, width, signed)), dst.capacity)
    {
      var count := |value| / width;
      var n := 0;
      while n < count
        invariant 0 <= n <= count && n * width <= |value|
        invariant dst.out == Clip(before + IntegerText(pretty, W.Elements(value, width, signed, n)), dst.capacity)
      {
        var x := W.ReadElement(value, width, signed, n);
        PrintInteger(before, W.Elements(value, width, signed, n), n, x);
        n := n + 1;
      }
    }

    /** One turn of the integer printers' loop. */
    method PrintInteger(ghost before: string, ghost xs: seq<int>, n: nat, x: int)
      requires |xs| == n
      requires dst.out == Clip(before + IntegerText(pretty, xs), dst.capacity)
      modifies dst
      ensures dst.out == Clip(before + IntegerText(pretty, xs + [x]), dst.capacity)
    {
      ghost var w := IntegerText(pretty, xs);
      var _ := WriteLine(before + w, ValueLine(n + 1, Decimal(x)));
      Assoc(before, w, Line(pretty, ValueLine(n + 1, Decimal(x))));
      DecimalsSnoc(xs, x);
      ValueLinesSnoc(pretty, Decimals(xs), Decimal(x));
    }

    /** base64_print: each group of four characters on a line of its own. */
    method Base64Print(ghost before: string, data: seq<byte>)
      requires |data| > 0
      requires dst.out == Clip(before, dst.capacity)
      modifies dst
      ensures dst.out == Clip(before + B.Groups(data, B.GroupCount(|data|), Eol(pretty)), dst.capacity)
    {
      var i := 0;
      while i < |data|
        invariant i % 3 == 0 && i / 3 <= B.GroupCount(|data|)
        invariant i >= |data| ==> i / 3 == B.GroupCount(|data|)
        invariant dst.out == Clip(before + B.Groups(data, i / 3, Eol(pretty)), dst.capacity)
      {
        var out := B.EncodeGroup(data, i);
        ghost var g := B.Groups(data, i / 3, Eol(pretty));
        B.GroupsNext(data, i, Eol(pretty));
        GroupNoNul(data, i);
        var _ := WriteLine(before + g, out);
        Assoc(before, g, Line(pretty, out));
        Assoc(g, out, Eol(pretty));
        assert dst.out == Clip(before + B.Groups(data, (i + 3) / 3, Eol(pretty)), dst.capacity);
        i := i + 3;
      }
    }

    method PrintInlineBinary(ghost before: string, data: seq<byte>)
      requires |data| > 0
      requires dst.out == Clip(before, dst.capacity)
      modifies dst
      ensures dst.out == Clip(before + InlineBinaryText(pretty, vl, data), dst.capacity)
    {
      if !IsUndefined(vl) {
        Base64Print(before, data);
      } else {
        assert before + InlineBinaryText(pretty, vl, data) == before;
      }
    }

    /** _xml_write_end_attribute. */
    method WriteEndAttribute(ghost before: string) returns (err: int)
      requires dst.out == Clip(before, dst.capacity)
      modifies dst
      ensures dst.out == Clip(before + EndAttributeText(pretty, firstAttribute), dst.capacity)
      ensures err == 0 <==> EndAttributeText(pretty, firstAttribute) == [] || |before| + |EndAttributeText(pretty, firstAttribute)| <= dst.capacity
    {
      err := 0;
      if !firstAttribute {
        err := WriteLine(before, "</DicomAttribute>");
      } else {
        assert before + EndAttributeText(pretty, firstAttribute) == before;
      }
    }

    /** _xml_write_attribute. */
    method WriteAttribute(a: I.Attribute) returns (err: int)
      requires Valid()
      modifies this, dst
      ensures Valid() && itemNum == old(itemNum)
      ensures dst.out == Clip(old(dst.out) + AttributeText(pretty, old(firstAttribute), a), dst.capacity)
      ensures err == 0 <==> |old(dst.out)| + |AttributeText(pretty, old(firstAttribute), a)| <= dst.capacity
      ensures err == 0 ==> !firstAttribute && vr == a.vr && vl == a.vl
      ensures err != 0 ==> firstAttribute == old(firstAttribute) && vr == old(vr) && vl == old(vl)
    {
      ghost var t := dst.out;
      ghost var e := EndAttributeText(pretty, firstAttribute);
      ghost var l := Line(pretty, AttributeLine(a));
      err := WriteEndAttribute(t);
      Assoc(t, e, l);
      if err != 0 {
        ClipFull(t + e, l, dst.capacity);
        return 1;
      }
      err := WriteLine(t + e, AttributeLine(a));
      if err != 0 {
        return 1;
      }
      vr := a.vr;
      vl := a.vl;
      firstAttribute := false;
    }

    /** _xml_write_value_length: nothing to print. */
    method WriteValueLength(s: nat) returns (err: int)
      ensures err == 0
    {
      err := 0;
    }

    /** _xml_write_value.  print_float and print_double are not part of
     *  this model: FL and FD values are excluded. */
    method WriteValue(value: seq<byte>) returns (err: int)
      requires Valid() && !IsFloatVr(vr)
      modifies dst
      ensures Valid()
      ensures dst.out == Clip(old(dst.out) + WriteValueText(pretty, vr, vl, value), dst.capacity)
      ensures err == 0
    {
      err := 0;
      ghost var t := dst.out;
      if |value| == 0 {
        assert t + WriteValueText(pretty, vr, vl, value) == t;
        return;
      }
      var s := Chars(value);
      if IsQuotedStringVr(vr) || IsNumberStringVr(vr) {
        PrintWithSeparator(t, s);
      } else if IsTextVr(vr) {
        PrintNoWhitespace(t, s);
      } else if vr == P.kPN {
        PrintPersonName(t);
      } else if IsBinaryVr(vr) {
        PrintInlineBinary(t, value);
      } else if IntegerFormat(vr).Some? {
        var f := IntegerFormat(vr).value;
        PrintIntegers(t, value, f.width, f.signed);
      } else {
        assert t + WriteValueText(pretty, vr, vl, value) == t;
      }
    }

    /** _xml_write_fragment. */
    method WriteFragment() returns (err: int)
      requires Valid()
      modifies dst
      ensures Valid()
      ensures dst.out == Clip(old(dst.out) + Line(pretty, "fragment"), dst.capacity)
      ensures err == 0 <==> |old(dst.out)| + |Line(pretty, "fragment")| <= dst.capacity
    {
      err := WriteLine(dst.out, "fragment");
    }

    /** _xml_write_start_item: the next item number, and no attribute open
     *  yet in the item. */
    method StartItem() returns (err: int)
      requires Valid()
      modifies this, dst
      ensures Valid() && itemNum == old(itemNum) + 1 && firstAttribute && vr == old(vr) && vl == old(vl)
      ensures dst.out == Clip(old(dst.out) + Line(pretty, ItemLine(itemNum)), dst.capacity)
      ensures err == 0 <==> |old(dst.out)| + |Line(pretty, ItemLine(itemNum))| <= dst.capacity
    {
      itemNum := itemNum + 1;
      firstAttribute := true;
      err := WriteLine(dst.out, ItemLine(itemNum));
    }

    /** _xml_write_end_item: closes the item's last attribute, then the
     *  item; `firstAttribute` is left as it is. */
    method EndItem() returns (err: int)
      requires Valid()
      modifies dst
      ensures Valid()
      ensures dst.out == Clip(old(dst.out) + EndItemText(pretty, firstAttribute), dst.capacity)
      ensures err == 0 <==> |old(dst.out)| + |EndItemText(pretty, firstAttribute)| <= dst.capacity
    {
      ghost var t := dst.out;
      ghost var e := EndAttributeText(pretty, firstAttribute);
      ghost var l := Line(pretty, "</Item>");
      err := WriteEndAttribute(t);
      Assoc(t, e, l);
      if err != 0 {
        ClipFull(t + e, l, dst.capacity);
        return 1;
      }
      err := WriteLine(t + e, "</Item>");
    }

    /** _xml_write_start_sequence. */
    method StartSequence() returns (err: int)
      modifies this
      ensures itemNum == 0 && firstAttribute == old(firstAttribute) && vr == old(vr) && vl == old(vl)
      ensures err == 0
    {
      itemNum := 0;
      err := 0;
    }

    /** _xml_write_end_sequence: closes the last attribute written, which
     *  is the sequence's own attribute unless an item left one open. */
    method EndSequence() returns (err: int)
      requires Valid()
      modifies this, dst
      ensures Valid() && vr == old(vr) && vl == old(vl)
      ensures dst.out == Clip(old(dst.out) + EndAttributeText(pretty, old(firstAttribute)), dst.capacity)
      ensures err == 0 <==> |old(dst.out)| + |EndAttributeText(pretty, old(firstAttribute))| <= dst.capacity
      ensures err == 0 ==> itemNum == 0 && firstAttribute
      ensures err != 0 ==> itemNum == old(itemNum) && firstAttribute == old(firstAttribute)
    {
      err := WriteEndAttribute(dst.out);
      if err != 0 {
        return 1;
      }
      itemNum := 0;
      firstAttribute := true;
    }

    /** Two lines, the second skipped when the first does not go out whole. */
    method WriteTwoLines(ghost before: string, a: string, b: string) returns (err: int)
      requires a != [] && NUL !in a && NUL !in b
      requires dst.out == Clip(before, dst.capacity)
      modifies dst
      ensures dst.out == Clip(before + Line(pretty, a) + Line(pretty, b), dst.capacity)
      ensures err == 0 <==> |before| + |Line(pretty, a)| + |Line(pretty, b)| <= dst.capacity
    {
      ghost var h := Line(pretty, a);
      err := WriteLine(before, a);
      if err != 0 {
        ClipFull(before + h, Line(pretty, b), dst.capacity);
        return 1;
      }
      err := WriteLine(before + h, b);
    }

    /** _xml_write_start_dataset: the encoding is not used. */
    method StartDataset(encoding: string) returns (err: int)
      requires Valid()
      modifies dst
      ensures Valid()
      ensures dst.out == Clip(old(dst.out) + StartDatasetText(pretty), dst.capacity)
      ensures err == 0 <==> |old(dst.out)| + |StartDatasetText(pretty)| <= dst.capacity
    {
      FixedLinesNoNul();
      Assoc(dst.out, Line(pretty, XmlDeclaration), Line(pretty, ModelOpening));
      err := WriteTwoLines(dst.out, XmlDeclaration, ModelOpening);
    }

    /** _xml_write_end_dataset. */
    method EndDataset() returns (err: int)
      requires Valid()
      modifies dst
      ensures Valid()
      ensures dst.out == Clip(old(dst.out) + Line(pretty, ModelClosing), dst.capacity)
      ensures err == 0 <==> |old(dst.out)| + |Line(pretty, ModelClosing)| <= dst.capacity
    {
      err := WriteLine(dst.out, ModelClosing);
    }
  }
}
