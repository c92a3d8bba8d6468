/**
 * The DICOM JSON writer of examples/json.c (the JSON model of DICOM PS3.18
 * Annex F).  Each writer event appends text to the output stream; the writer
 * keeps the separator to print before the next attribute, the indentation
 * level, and the VR and length of the attribute whose value comes next.
 *
 * The text of every event is given by a function of the writer state before
 * the event (AttributeText, WriteValueText, ...); the methods of JsonWriter
 * produce it write by write, and the lemmas below say what that text is made
 * of.  Every write goes to a TextSink, so a full output stream truncates the
 * text instead of failing.
 */
module Json {
  import opened Io
  import opened Wrappers
  import opened TextIo
  import opened MultiValue
  import opened WriterVr
  import B = Base64
  import W = Words
  import De = DicmDe
  import P = DicmParser
  import I = DicmItem

  /** The separator write_attribute installs for the attributes that follow. */
  const Comma: string := ",\n"

  /** print_indent: two spaces per level, through a 512-byte buffer. */
  function Indent(pretty: bool, level: int): (r: string)
    ensures forall i :: 0 <= i < |r| ==> r[i] == ' '
  {
    if pretty then Formatted(Spaces(Abs(2 * level))) else ""
  }

  function SeparatorText(pretty: bool, separator: Option<string>): string {
    if separator.Some? && pretty then separator.value else ""
  }

  /** The key of an attribute: its tag as eight upper-case hexadecimal digits. */
  function TagKey(tag: u32): (r: string)
    ensures |r| == 13
  {
    "\"" + Hex4(De.GetGroup(tag)) + Hex4(De.GetElement(tag)) + "\": {"
  }

  /** The tag a key names: the value of its eight hexadecimal digits. */
  function KeyTag(key: string): int
    requires |key| >= 9
  {
    HexNumber(key[1..9])
  }

  /** The key of an attribute names its tag: reading the hexadecimal digits
   *  back gives the tag. */
  lemma TagKeyNamesTag(tag: u32)
    ensures KeyTag(TagKey(tag)) == tag
  {
    var g, e := De.GetGroup(tag), De.GetElement(tag);
    var key := TagKey(tag);
    Hex4Value(g);
    Hex4Value(e);
    assert key[1..9] == Hex4(g) + Hex4(e);
    HexNumberAppend(Hex4(g), Hex4(e));
    assert Pow16(4) == 0x1_0000;
    De.SplitJoin(tag);
  }

  function VrMember(vr: u16): string {
    "\"vr\": \"" + VrName(vr) + "\""
  }

  /** The indentation levels print_pre_value opens: one for a "Value" array,
   *  none for an empty value or an inline binary string. */
  function ValueDepth(vr: u16, vl: u32): nat {
    if vl != 0 && vr != P.kOB && vr != P.kOW then 1 else 0
  }

  /** print_pre_value: opens the "InlineBinary" string of OB and OW, or the
   *  "Value" array of anything else; nothing for an empty value. */
  function PreValueText(pretty: bool, level: int, vr: u16, vl: u32): string {
    if vl == 0 then ""
    else if vr == P.kOB || vr == P.kOW then
      "," + Eol(pretty) + Indent(pretty, level) + "\"InlineBinary\": \""
    else
      "," + Eol(pretty) + Indent(pretty, level) + "\"Value\": [" + Eol(pretty) + Indent(pretty, level + 1)
  }

  /** print_post_value: closes what print_pre_value opened. */
  function PostValueText(pretty: bool, level: int, vr: u16, vl: u32): string {
    if vl == 0 then ""
    else if vr == P.kOB || vr == P.kOW then "\"" + Eol(pretty)
    else Eol(pretty) + Indent(pretty, level - 1) + "]" + Eol(pretty)
  }

  /** write_attribute: the separator, the key opening the attribute's
   *  object, its "vr" member, and the opening of its value. */
  function AttributeText(pretty: bool, separator: Option<string>, level: int, a: I.Attribute): string {
    KeyText(pretty, separator, level, a.tag)
    + Indent(pretty, level + 1) + VrMember(a.vr) + PreValueText(pretty, level + 1, a.vr, a.vl)
  }

  /** The separator and the key line of an attribute. */
  function KeyText(pretty: bool, separator: Option<string>, level: int, tag: u32): string {
    SeparatorText(pretty, separator) + Indent(pretty, level) + TagKey(tag) + Eol(pretty)
  }

  function Quote(quotes: bool): string {
    if quotes then "\"" else ""
  }

  /** What print_with_separator prints for a backslash. */
  function ComponentSeparator(pretty: bool, level: int, quotes: bool): string {
    Quote(quotes) + "," + Eol(pretty) + Indent(pretty, level) + Quote(quotes)
  }

  /** What print_with_separator prints for one character: "%c" of NUL is an
   *  empty line. */
  function CharText(c: char, sep: string): string {
    if c == '\\' then sep else if c == NUL then "" else [c]
  }

  /** The characters of the trimmed value, each printed in turn. */
  function Body(t: string, sep: string): string {
    if t == [] then [] else Body(t[..|t| - 1], sep) + CharText(t[|t| - 1], sep)
  }

  /** One more character of the value prints one more CharText. */
  lemma BodySnoc(s: string, c: char, sep: string)
    ensures Body(s + [c], sep) == Body(s, sep) + CharText(c, sep)
  {
    assert (s + [c])[..|s|] == s;
  }

  /** print_with_separator: the trimmed value, quoted when it is not empty
   *  and `quotes` is set, with every backslash printed as a separator. */
  function SeparatedText(pretty: bool, level: int, value: string, quotes: bool): string {
    var t := Trim(value);
    var q := if |t| > 0 then Quote(quotes) else "";
    q + Body(t, ComponentSeparator(pretty, level, quotes)) + q
  }

  /** A component with its NUL characters left out. */
  function Strip(s: string): (r: string)
    ensures NUL !in r
  {
    if s == [] then [] else Strip(s[..|s| - 1]) + if s[|s| - 1] == NUL then [] else [s[|s| - 1]]
  }

  function StripAll(parts: seq<string>): (r: seq<string>)
    ensures |r| == |parts| && forall i :: 0 <= i < |parts| ==> r[i] == Strip(parts[i])
  {
    seq(|parts|, i requires 0 <= i < |parts| => Strip(parts[i]))
  }

  /** Each component between quotes. */
  function Enclosed(parts: seq<string>, q: string): (r: seq<string>)
    ensures |r| == |parts| && forall i :: 0 <= i < |parts| ==> r[i] == q + parts[i] + q
  {
    seq(|parts|, i requires 0 <= i < |parts| => q + parts[i] + q)
  }

  /** Printing the characters one by one prints the components of the
   *  value, split at its backslashes, with the separator between each two. */
  lemma {:induction false} BodyIsJoin(t: string, sep: string)
    ensures Body(t, sep) == Join(StripAll(Split(t)), sep)
  {
    if t != [] {
      var u, c := t[..|t| - 1], t[|t| - 1];
      BodyIsJoin(u, sep);
      if c == '\\' {
        JoinNewComponent(Split(u), sep);
      } else {
        JoinGrownComponent(Split(u), c, sep);
      }
    }
  }

  /** A backslash starts a new, empty component. */
  lemma JoinNewComponent(p: seq<string>, sep: string)
    requires |p| >= 1
    ensures Join(StripAll(p + [[]]), sep) == Join(StripAll(p), sep) + sep
  {
    assert StripAll(p + [[]]) == StripAll(p) + [[]];
    assert (StripAll(p) + [[]])[..|p|] == StripAll(p);
  }

  /** Any other character goes on the last component. */
  lemma JoinGrownComponent(p: seq<string>, c: char, sep: string)
    requires |p| >= 1 && c != '\\'
    ensures Join(StripAll(p[..|p| - 1] + [p[|p| - 1] + [c]]), sep) == Join(StripAll(p), sep) + CharText(c, sep)
  {
    var last := p[|p| - 1];
    var sp := StripAll(p);
    assert Strip(last + [c]) == Strip(last) + CharText(c, sep) by {
      assert (last + [c])[..|last|] == last;
    }
    assert StripAll(p[..|p| - 1] + [last + [c]]) == sp[..|sp| - 1] + [sp[|sp| - 1] + CharText(c, sep)];
    JoinSnoc(sp, sp[|sp| - 1], CharText(c, sep), sep);
  }

  /** Quoting around the whole and around each separator quotes each component. */
  lemma {:induction false} JoinEnclosed(parts: seq<string>, q: string, s: string)
    requires |parts| >= 1
    ensures q + Join(parts, q + s + q) + q == Join(Enclosed(parts, q), s)
  {
    if |parts| > 1 {
      var init := parts[..|parts| - 1];
      var last := parts[|parts| - 1];
      var e := Enclosed(parts, q);
      var j := Join(init, q + s + q);
      JoinEnclosed(init, q, s);
      assert e[..|parts| - 1] == Enclosed(init, q);
      assert Join(e, s) == (q + j + q) + s + (q + last + q);
      Regroup(q, j, s, last);
    }
  }

  lemma Regroup(q: string, j: string, s: string, last: string)
    ensures q + (j + (q + s + q) + last) + q == (q + j + q) + s + (q + last + q)
  {
  }

  /** A multi-valued string prints as a list of JSON values: each component
   *  of the trimmed value (without its NULs), in quotes when `quotes` is
   *  set, separated by a comma and a new indented line. */
  lemma SeparatedComponents(pretty: bool, level: int, value: string, quotes: bool)
    requires Trim(value) != []
    ensures SeparatedText(pretty, level, value, quotes)
         == Join(Enclosed(StripAll(Split(Trim(value))), Quote(quotes)), "," + Eol(pretty) + Indent(pretty, level))
  {
    var t := Trim(value);
    var q, s := Quote(quotes), "," + Eol(pretty) + Indent(pretty, level);
    var cs := ComponentSeparator(pretty, level, quotes);
    assert SeparatedText(pretty, level, value, quotes) == q + Body(t, cs) + q;
    BodyIsJoin(t, cs);
    assert cs == q + s + q by {
      Assoc(q, ",", Eol(pretty));
      Assoc(q, "," + Eol(pretty), Indent(pretty, level));
    }
    JoinEnclosed(StripAll(Split(t)), q, s);
  }

  /** The value without one trailing space. */
  function DropTrailingSpace(s: string): (r: string)
    requires |s| > 0
    ensures r <= s && |s| - 1 <= |r|
  {
    if s[|s| - 1] == ' ' then s[..|s| - 1] else s
  }

  /** "\"%.*s\"" through a 512-byte buffer. */
  function QuotedText(s: string): string {
    Formatted("\"" + CString(s) + "\"")
  }

  /** print_no_whitespace. */
  function NoWhitespaceText(value: string): string
    requires |value| > 0
  {
    QuotedText(DropTrailingSpace(value))
  }

  /** print_person_name: an object with the whole name as its "Alphabetic"
   *  member. */
  function PersonNameText(pretty: bool, level: int, value: string): string
    requires |value| > 0
  {
    NameOpening(pretty, level) + NoWhitespaceText(value) + NameClosing(pretty, level)
  }

  /** The person name object up to its one value, */
  function NameOpening(pretty: bool, level: int): string {
    "{" + Eol(pretty) + Indent(pretty, level + 1) + "\"Alphabetic\": "
  }

  /** and after it. */
  function NameClosing(pretty: bool, level: int): string {
    Eol(pretty) + Indent(pretty, level) + "}"
  }

  /** The value printed for an integer: print_signed_long prints an int32_t
   *  with "%hu", that is modulo 2^16. */
  function Printed(x: int, asUnsignedShort: bool): int {
    if asUnsignedShort then x % 0x1_0000 else x
  }

  function ValueSeparator(pretty: bool, level: int): string {
    "," + Eol(pretty) + Indent(pretty, level)
  }

  /** The integer printers: the values in decimal, separated by a comma and
   *  a new indented line. */
  function NumbersText(pretty: bool, level: int, xs: seq<int>, asUnsignedShort: bool): string {
    if xs == [] then []
    else if |xs| == 1 then Decimal(Printed(xs[0], asUnsignedShort))
    else NumbersText(pretty, level, xs[..|xs| - 1], asUnsignedShort) + ValueSeparator(pretty, level)
         + Decimal(Printed(xs[|xs| - 1], asUnsignedShort))
  }

  lemma NumbersSnoc(pretty: bool, level: int, xs: seq<int>, x: int, hu: bool)
    ensures NumbersText(pretty, level, xs + [x], hu)
         == if xs == [] then Decimal(Printed(x, hu))
            else NumbersText(pretty, level, xs, hu) + ValueSeparator(pretty, level) + Decimal(Printed(x, hu))
  {
    assert (xs + [x])[..|xs|] == xs;
  }

  lemma CountAppend(a: string, b: string, c: char)
    ensures Count(a + b, c) == Count(a, c) + Count(b, c)
    decreases |b|
  {
    if b == [] {
      assert a + b == a;
    } else {
      assert (a + b)[..|a + b| - 1] == a + b[..|b| - 1];
      assert (a + b)[|a + b| - 1] == b[|b| - 1];
      CountAppend(a, b[..|b| - 1], c);
    }
  }

  lemma CountAbsent(s: string, c: char)
    requires c !in s
    ensures Count(s, c) == 0
    decreases |s|
  {
    if s != [] {
      CountAbsent(s[..|s| - 1], c);
    }
  }

  /** One printed number per element: the commas in the text are exactly the
   *  ones between two values. */
  lemma {:induction false} NumbersCount(pretty: bool, level: int, xs: seq<int>, hu: bool)
    requires xs != []
    ensures Count(NumbersText(pretty, level, xs, hu), ',') == |xs| - 1
  {
    var d := Decimal(Printed(xs[|xs| - 1], hu));
    DecimalCount(Printed(xs[|xs| - 1], hu));
    if |xs| > 1 {
      var init := xs[..|xs| - 1];
      var nt := NumbersText(pretty, level, init, hu);
      var sep := ValueSeparator(pretty, level);
      NumbersCount(pretty, level, init, hu);
      SeparatorCount(pretty, level);
      CountAppend(nt, sep, ',');
      CountAppend(nt + sep, d, ',');
    }
  }

  /** A decimal number holds no comma. */
  lemma DecimalCount(n: int)
    ensures Count(Decimal(n), ',') == 0
  {
    var d := Decimal(n);
    assert ',' !in d by {
      if n < 0 {
        assert d == "-" + NatDecimal(-n);
      }
    }
    CountAbsent(d, ',');
  }

  /** The separator between two numbers holds one comma. */
  lemma SeparatorCount(pretty: bool, level: int)
    ensures Count(ValueSeparator(pretty, level), ',') == 1
  {
    var rest := Eol(pretty) + Indent(pretty, level);
    assert ',' !in Indent(pretty, level);
    CountAbsent(rest, ',');
    CountAppend(",", rest, ',');
    assert ValueSeparator(pretty, level) == "," + rest;
    assert Count(",", ',') == 1 by {
      assert ","[..0] == [];
    }
  }

  /** print_inline_binary: base64, unless the length is undefined. */
  function InlineBinaryText(vl: u32, value: seq<byte>): string {
    if IsUndefined(vl) then "" else B.Encode(value)
  }

  /** write_value of a non-empty buffer, by the VR of the current attribute.
   *  AT prints nothing; UN, SQ and any other VR reach assert(0), which the
   *  release build skips. */
  function ValueText(pretty: bool, level: int, vr: u16, vl: u32, value: seq<byte>): string
    requires |value| > 0 && !IsFloatVr(vr)
  {
    var s := Chars(value);
    if IsQuotedStringVr(vr) then SeparatedText(pretty, level, s, true)
    else if IsNumberStringVr(vr) then SeparatedText(pretty, level, s, false)
    else if IsTextVr(vr) then NoWhitespaceText(s)
    else if vr == P.kPN then PersonNameText(pretty, level, s)
    else if IsBinaryVr(vr) || vr == kNONE then InlineBinaryText(vl, value)
    else if IntegerFormat(vr).Some? then
      var f := IntegerFormat(vr).value;
      NumbersText(pretty, level, W.Values(value, f.width, f.signed), vr == P.kSL)
    else ""
  }

  /** write_value: an empty buffer ends the line. */
  function WriteValueText(pretty: bool, level: int, vr: u16, vl: u32, value: seq<byte>): string
    requires !IsFloatVr(vr)
  {
    if value == [] then Eol(pretty) else ValueText(pretty, level, vr, vl, value)
  }

  /** start_item: the separator, the indentation when there was a separator,
   *  and the opening brace. */
  function StartItemText(pretty: bool, separator: Option<string>, level: int): string {
    SeparatorText(pretty, separator) + (if separator.Some? then Indent(pretty, level) else "") + "{" + Eol(pretty)
  }

  function EndItemText(pretty: bool, level: int): string {
    Eol(pretty) + Indent(pretty, level - 1) + "}"
  }

  /** end_sequence closes the "Value" array and the attribute's object. */
  function EndSequenceText(pretty: bool, level: int): string {
    Eol(pretty) + Indent(pretty, level - 1) + "]" + Eol(pretty) + Indent(pretty, level - 2) + "}"
  }

  function StartDatasetText(pretty: bool): string {
    "{" + Eol(pretty)
  }

  function EndDatasetText(pretty: bool): string {
    Eol(pretty) + "}" + Eol(pretty)
  }

  /**
   * struct _json and its writer methods.  Inside a method the ghost text `w`
   * is what the method has asked to write so far, after the text `before`
   * (or old(dst.out)) asked for by the earlier calls; Assoc regroups the
   * concatenation after each write.
   */
  class JsonWriter {
    const dst: TextSink
    const pretty: bool
    var separator: Option<string>
    var indentLevel: int
    var vr: u16
    var vl: u32

    ghost predicate Valid()
      reads this, dst
    {
      dst.Valid()
    }

    /** dicm_json_writer_create.  The source never sets vl; it is whatever
     *  the allocation left, here the argument `vl`. */
    constructor (dst: TextSink, vl: u32)
      ensures this.dst == dst && pretty && separator == None && indentLevel == 0
      ensures vr == kNONE && this.vl == vl
    {
      this.dst := dst;
      pretty := true;
      separator := None;
      indentLevel := 0;
      vr := kNONE;
      this.vl := vl;
    }

    /** _json_write_line: 1 when the line did not go out whole. */
    method WriteLine(ghost before: string, line: string) returns (err: int)
      requires dst.out == Clip(before, dst.capacity)
      modifies dst
      ensures dst.out == Clip(before + line, dst.capacity)
      ensures err == 0 <==> line == [] || |before| + |line| <= dst.capacity
    {
      var count := dst.Write(before, line);
      err := if count == |line| then 0 else 1;
    }

    method PrintEol(ghost before: string)
      requires dst.out == Clip(before, dst.capacity)
      modifies dst
      ensures dst.out == Clip(before + Eol(pretty), dst.capacity)
    {
      if pretty {
        var _ := WriteLine(before, "\n");
      } else {
        assert before + Eol(pretty) == before;
      }
    }

    method PrintIndent(ghost before: string)
      requires dst.out == Clip(before, dst.capacity)
      modifies dst
      ensures dst.out == Clip(before + Indent(pretty, indentLevel), dst.capacity)
    {
      if pretty {
        var level := 2 * indentLevel;
        var _ := WriteLine(before, Formatted(Spaces(Abs(level))));
      } else {
        assert before + Indent(pretty, indentLevel) == before;
      }
    }

    method PrintSeparator(ghost before: string)
      requires dst.out == Clip(before, dst.capacity)
      modifies dst
      ensures dst.out == Clip(before + SeparatorText(pretty, separator), dst.capacity)
    {
      if separator.Some? && pretty {
        var _ := WriteLine(before, separator.value);
      } else {
        assert before + SeparatorText(pretty, separator) == before;
      }
    }

    method PrintPreValue(ghost before: string)
      requires dst.out == Clip(before, dst.capacity)
      modifies this, dst
      ensures separator == old(separator) && vr == old(vr) && vl == old(vl)
      ensures dst.out == Clip(before + PreValueText(pretty, old(indentLevel), vr, vl), dst.capacity)
      ensures indentLevel == old(indentLevel) + ValueDepth(vr, vl)
    {
      if vl == 0 {
        assert before + PreValueText(pretty, indentLevel, vr, vl) == before;
        return;
      }
      var _ := WriteLine(before, ",");
      ghost var w := ",";
      PrintEol(before + w);
      Assoc(before, w, Eol(pretty));
      w := w + Eol(pretty);
      PrintIndent(before + w);
      Assoc(before, w, Indent(pretty, indentLevel));
      w := w + Indent(pretty, indentLevel);
      if vr == P.kOB || vr == P.kOW {
        var _ := WriteLine(before + w, "\"InlineBinary\": \"");
        Assoc(before, w, "\"InlineBinary\": \"");
      } else {
        var _ := WriteLine(before + w, "\"Value\": [");
        Assoc(before, w, "\"Value\": [");
        w := w + "\"Value\": [";
        PrintEol(before + w);
        Assoc(before, w, Eol(pretty));
        w := w + Eol(pretty);
        indentLevel := indentLevel + 1;
        PrintIndent(before + w);
        Assoc(before, w, Indent(pretty, indentLevel));
      }
    }

    /** print_post_value, which no writer method calls. */
    method PrintPostValue(ghost before: string)
      requires dst.out == Clip(before, dst.capacity)
      modifies this, dst
      ensures separator == old(separator) && vr == old(vr) && vl == old(vl)
      ensures dst.out == Clip(before + PostValueText(pretty, old(indentLevel), vr, vl), dst.capacity)
      ensures indentLevel == old(indentLevel) - ValueDepth(vr, vl)
    {
      if vl == 0 {
        assert before + PostValueText(pretty, indentLevel, vr, vl) == before;
        return;
      }
      if vr == P.kOB || vr == P.kOW {
        var _ := WriteLine(before, "\"");
        PrintEol(before + "\"");
        Assoc(before, "\"", Eol(pretty));
      } else {
        indentLevel := indentLevel - 1;
        PrintEol(before);
        ghost var w := Eol(pretty);
        PrintIndent(before + w);
        Assoc(before, w, Indent(pretty, indentLevel));
        w := w + Indent(pretty, indentLevel);
        var _ := WriteLine(before + w, "]");
        Assoc(before, w, "]");
        w := w + "]";
        PrintEol(before + w);
        Assoc(before, w, Eol(pretty));
      }
    }

    /** What print_with_separator writes for a backslash. */
    method PrintComponentSeparator(ghost before: string, quotes: bool)
      requires dst.out == Clip(before, dst.capacity)
      modifies dst
      ensures dst.out == Clip(before + ComponentSeparator(pretty, indentLevel, quotes), dst.capacity)
    {
      if quotes {
        var _ := WriteLine(before, "\"");
      } else {
        assert before + Quote(quotes) == before;
      }
      ghost var w := Quote(quotes);
      var _ := WriteLine(before + w, ",");
      Assoc(before, w, ",");
      w := w + ",";
      PrintEol(before + w);
      Assoc(before, w, Eol(pretty));
      w := w + Eol(pretty);
      PrintIndent(before + w);
      Assoc(before, w, Indent(pretty, indentLevel));
      w := w + Indent(pretty, indentLevel);
      if quotes {
        var _ := WriteLine(before + w, "\"");
      } else {
        assert before + w + Quote(quotes) == before + w;
      }
      Assoc(before, w, Quote(quotes));
    }

    /** print_with_separator, with the trimming corrected (see MultiValue):
     *  each step of it only when something is left. */
    method PrintWithSeparator(ghost before: string, value: string, quotes: bool)
      requires |value| > 0
      requires dst.out == Clip(before, dst.capacity)
      modifies dst
      ensures dst.out == Clip(before + SeparatedText(pretty, indentLevel, value, quotes), dst.capacity)
    {
      var start, len := TrimBounds(value);
      ghost var sep := ComponentSeparator(pretty, indentLevel, quotes);
      ghost var q := if len > 0 then Quote(quotes) else "";
      if len > 0 && quotes {
        var _ := WriteLine(before, "\"");
      } else {
        assert before + q == before;
      }
      PrintBody(before + q, value[start..start + len], quotes);
      ghost var body := Body(Trim(value), sep);
      if len > 0 && quotes {
        var _ := WriteLine(before + q + body, "\"");
      } else {
        assert before + q + body + q == before + q + body;
      }
      Assoc(before, q, body);
      Assoc(before, q + body, q);
    }

    /** The loop of print_with_separator over the trimmed characters t. */
    method PrintBody(ghost before: string, t: string, quotes: bool)
      requires dst.out == Clip(before, dst.capacity)
      modifies dst
      ensures BodyPrinted(before, t, quotes)
    {
      var pos := 0;
      assert before + Body(t[..0], ComponentSeparator(pretty, indentLevel, quotes)) == before;
      while pos < |t|
        invariant pos <= |t|
        invariant BodyPrinted(before, t[..pos], quotes)
      {
        TakeSnoc(t, pos);
        PrintCharacter(before, t[..pos], t[pos], quotes);
        pos := pos + 1;
      }
      assert t[..pos] == t;
    }

    /** The characters s are printed after the text `before`. */
    ghost predicate BodyPrinted(before: string, s: string, quotes: bool)
      reads this, dst
    {
      dst.out == Clip(before + Body(s, ComponentSeparator(pretty, indentLevel, quotes)), dst.capacity)
    }

    /** One turn of print_with_separator's loop, after the characters s. */
    method PrintCharacter(ghost before: string, ghost s: string, c: char, quotes: bool)
      requires BodyPrinted(before, s, quotes)
      modifies dst
      ensures BodyPrinted(before, s + [c], quotes)
    {
      ghost var sep := ComponentSeparator(pretty, indentLevel, quotes);
      ghost var b := Body(s, sep);
      BodySnoc(s, c, sep);
      Assoc(before, b, CharText(c, sep));
      if c == '\\' {
        PrintComponentSeparator(before + b, quotes);
      } else {
        var line := if c == NUL then "" else [c];
        var _ := WriteLine(before + b, line);
      }
    }

    method PrintNoWhitespace(ghost before: string, value: string)
      requires |value| > 0
      requires dst.out == Clip(before, dst.capacity)
      modifies dst
      ensures dst.out == Clip(before + NoWhitespaceText(value), dst.capacity)
    {
      var len := |value|;
      if value[len - 1] == ' ' {
        len := len - 1;
      }
      assert value[..len] == DropTrailingSpace(value);
      var _ := WriteLine(before, QuotedText(value[..len]));
    }

    method PrintPersonName(ghost before: string, value: string)
      requires |value| > 0
      requires dst.out == Clip(before, dst.capacity)
      modifies this, dst
      ensures separator == old(separator) && vr == old(vr) && vl == old(vl)
      ensures dst.out == Clip(before + PersonNameText(pretty, old(indentLevel), value), dst.capacity)
      ensures indentLevel == old(indentLevel)
    {
      ghost var o := NameOpening(pretty, indentLevel);
      ghost var n := NoWhitespaceText(value);
      OpenPersonName(before);
      PrintNoWhitespace(before + o, value);
      Assoc(before, o, n);
      ClosePersonName(before + (o + n));
      Assoc(before, o + n, NameClosing(pretty, indentLevel));
    }

    method OpenPersonName(ghost before: string)
      requires dst.out == Clip(before, dst.capacity)
      modifies this, dst
      ensures separator == old(separator) && vr == old(vr) && vl == old(vl)
      ensures dst.out == Clip(before + NameOpening(pretty, old(indentLevel)), dst.capacity)
      ensures indentLevel == old(indentLevel) + 1
    {
      var _ := WriteLine(before, "{");
      ghost var w := "{";
      PrintEol(before + w);
      Assoc(before, w, Eol(pretty));
      w := w + Eol(pretty);
      indentLevel := indentLevel + 1;
      PrintIndent(before + w);
      Assoc(before, w, Indent(pretty, indentLevel));
      w := w + Indent(pretty, indentLevel);
      var _ := WriteLine(before + w, "\"Alphabetic\": ");
      Assoc(before, w, "\"Alphabetic\": ");
    }

    method ClosePersonName(ghost before: string)
      requires dst.out == Clip(before, dst.capacity)
      modifies this, dst
      ensures separator == old(separator) && vr == old(vr) && vl == old(vl)
      ensures dst.out == Clip(before + NameClosing(pretty, old(indentLevel) - 1), dst.capacity)
      ensures indentLevel == old(indentLevel) - 1
    {
      PrintEol(before);
      ghost var w := Eol(pretty);
      indentLevel := indentLevel - 1;
      PrintIndent(before + w);
      Assoc(before, w, Indent(pretty, indentLevel));
      w := w + Indent(pretty, indentLevel);
      var _ := WriteLine(before + w, "}");
      Assoc(before, w, "}");
    }

    /** What the integer printers write between two values. */
    method PrintValueSeparator(ghost before: string)
      requires dst.out == Clip(before, dst.capacity)
      modifies dst
      ensures dst.out == Clip(before + ValueSeparator(pretty, indentLevel), dst.capacity)
    {
      var _ := WriteLine(before, ",");
      PrintEol(before + ",");
      Assoc(before, ",", Eol(pretty));
      PrintIndent(before + ("," + Eol(pretty)));
      Assoc(before, "," + Eol(pretty), Indent(pretty, indentLevel));
    }

    /** print_signed_short, print_unsigned_short, print_signed_long,
     *  print_signed_very_long, print_unsigned_long and
     *  print_unsigned_very_long: len / width elements, each printed after
     *  a separator but the first. */
    method PrintIntegers(ghost before: string, value: seq<byte>, width: nat, signed: bool, asUnsignedShort: bool)
      requires width > 0
      requires dst.out == Clip(before, dst.capacity)
      modifies dst
      ensures dst.out == Clip(before + NumbersText(pretty, indentLevel, W.Values(value, width, signed), asUnsignedShort), dst.capacity)
    {
      var count := |value| / width;
      var n := 0;
      while n < count
        invariant 0 <= n <= count && n * width <= |value|
        invariant dst.out == Clip(before + NumbersText(pretty, indentLevel, W.Elements(value, width, signed, n), asUnsignedShort), dst.capacity)
      {
        var x := W.ReadElement(value, width, signed, n);
        PrintNumber(before, W.Elements(value, width, signed, n), n, x, asUnsignedShort);
        n := n + 1;
      }
    }

    /** One turn of the integer printers' loop: value n, after a separator
     *  unless it is the first. */
    method PrintNumber(ghost before: string, ghost xs: seq<int>, n: nat, x: int, asUnsignedShort: bool)
      requires |xs| == n
      requires dst.out == Clip(before + NumbersText(pretty, indentLevel, xs, asUnsignedShort), dst.capacity)
      modifies dst
      ensures dst.out == Clip(before + NumbersText(pretty, indentLevel, xs + [x], asUnsignedShort), dst.capacity)
    {
      ghost var nt := NumbersText(pretty, indentLevel, xs, asUnsignedShort);
      var d := Decimal(Printed(x, asUnsignedShort));
      NumbersSnoc(pretty, indentLevel, xs, x, asUnsignedShort);
      if n > 0 {
        ghost var vs := ValueSeparator(pretty, indentLevel);
        PrintValueSeparator(before + nt);
        Assoc(before, nt, vs);
        var _ := WriteLine(before + (nt + vs), d);
        Assoc(before, nt + vs, d);
      } else {
        assert before + nt == before;
        var _ := WriteLine(before, d);
      }
    }

    /** base64_print: one group of four characters per three bytes. */
    method Base64Print(ghost before: string, data: seq<byte>)
      requires |data| > 0
      requires dst.out == Clip(before, dst.capacity)
      modifies dst
      ensures dst.out == Clip(before + B.Encode(data), dst.capacity)
    {
      var i := 0;
      while i < |data|
        invariant i % 3 == 0 && i / 3 <= B.GroupCount(|data|)
        invariant i >= |data| ==> i / 3 == B.GroupCount(|data|)
        invariant dst.out == Clip(before + B.Groups(data, i / 3, ""), dst.capacity)
      {
        var out := B.EncodeGroup(data, i);
        ghost var g := B.Groups(data, i / 3, "");
        B.GroupsNext(data, i, "");
        assert g + out + "" == g + out;
        var _ := WriteLine(before + g, out);
        Assoc(before, g, out);
        i := i + 3;
      }
    }

    method PrintInlineBinary(ghost before: string, data: seq<byte>)
      requires |data| > 0
      requires dst.out == Clip(before, dst.capacity)
      modifies dst
      ensures dst.out == Clip(before + InlineBinaryText(vl, data), dst.capacity)
    {
      if !IsUndefined(vl) {
        Base64Print(before, data);
      } else {
        assert before + InlineBinaryText(vl, data) == before;
      }
    }

    /** _json_write_attribute. */
    method WriteAttribute(a: I.Attribute) returns (err: int)
      requires Valid()
      modifies this, dst
      ensures Valid()
      ensures dst.out == Clip(old(dst.out) + AttributeText(pretty, old(separator), old(indentLevel), a), dst.capacity)
      ensures separator == Some(Comma) && vr == a.vr && vl == a.vl
      ensures indentLevel == old(indentLevel) + 1 + ValueDepth(a.vr, a.vl)
      ensures err == 0
    {
      ghost var t := dst.out;
      PrintKey(t, a.tag);
      ghost var w := KeyText(pretty, separator, indentLevel, a.tag);
      indentLevel := indentLevel + 1;
      PrintIndent(t + w);
      Assoc(t, w, Indent(pretty, indentLevel));
      w := w + Indent(pretty, indentLevel);
      var _ := WriteLine(t + w, VrMember(a.vr));
      Assoc(t, w, VrMember(a.vr));
      w := w + VrMember(a.vr);
      separator := Some(Comma);
      vr := a.vr;
      vl := a.vl;
      PrintPreValue(t + w);
      Assoc(t, w, PreValueText(pretty, indentLevel - ValueDepth(vr, vl), vr, vl));
      err := 0;
    }

    /** The first lines of _json_write_attribute: the separator, then the
     *  tag as the key of the attribute's object. */
    method PrintKey(ghost before: string, tag: u32)
      requires dst.out == Clip(before, dst.capacity)
      modifies dst
      ensures dst.out == Clip(before + KeyText(pretty, separator, indentLevel, tag), dst.capacity)
    {
      PrintSeparator(before);
      ghost var w := SeparatorText(pretty, separator);
      PrintIndent(before + w);
      Assoc(before, w, Indent(pretty, indentLevel));
      w := w + Indent(pretty, indentLevel);
      var _ := WriteLine(before + w, TagKey(tag));
      Assoc(before, w, TagKey(tag));
      w := w + TagKey(tag);
      PrintEol(before + w);
      Assoc(before, w, Eol(pretty));
    }

    /** _json_write_value_length: nothing to print. */
    method WriteValueLength(s: nat) returns (err: int)
      ensures err == 0
    {
      err := 0;
    }

    /** _json_write_value. */
    method WriteValue(value: seq<byte>) returns (err: int)
      requires Valid() && !IsFloatVr(vr)
      modifies this, dst
      ensures indentLevel == old(indentLevel) && separator == old(separator) && vr == old(vr) && vl == old(vl)
      ensures Valid()
      ensures dst.out == Clip(old(dst.out) + WriteValueText(pretty, indentLevel, vr, vl, value), dst.capacity)
      ensures err == 0
    {
      err := 0;
      ghost var t := dst.out;
      if |value| == 0 {
        PrintEol(t);
        return;
      }
      var s := Chars(value);
      if IsQuotedStringVr(vr) {
        PrintWithSeparator(t, s, true);
      } else if IsNumberStringVr(vr) {
        PrintWithSeparator(t, s, false);
      } else if IsTextVr(vr) {
        PrintNoWhitespace(t, s);
      } else if vr == P.kPN {
        PrintPersonName(t, s);
      } else if IsBinaryVr(vr) || vr == kNONE {
        PrintInlineBinary(t, value);
      } else if IntegerFormat(vr).Some? {
        var f := IntegerFormat(vr).value;
        PrintIntegers(t, value, f.width, f.signed, vr == P.kSL);
      } else {
        assert t + WriteValueText(pretty, indentLevel, vr, vl, value) == t;
      }
    }

    /** _json_write_fragment: nothing to print. */
    method WriteFragment() returns (err: int)
      ensures err == 0
    {
      err := 0;
    }

    method StartItem() returns (err: int)
      requires Valid()
      modifies this, dst
      ensures Valid()
      ensures dst.out == Clip(old(dst.out) + StartItemText(pretty, old(separator), old(indentLevel)), dst.capacity)
      ensures separator == None && indentLevel == old(indentLevel) + 1 && vr == old(vr) && vl == old(vl)
      ensures err == 0
    {
      ghost var t := dst.out;
      PrintSeparator(t);
      ghost var w := SeparatorText(pretty, separator);
      ghost var p := "";
      if separator.Some? {
        PrintIndent(t + w);
        p := Indent(pretty, indentLevel);
      } else {
        assert t + w + p == t + w;
      }
      Assoc(t, w, p);
      w := w + p;
      separator := None;
      indentLevel := indentLevel + 1;
      var _ := WriteLine(t + w, "{");
      Assoc(t, w, "{");
      w := w + "{";
      PrintEol(t + w);
      Assoc(t, w, Eol(pretty));
      err := 0;
    }

    method EndItem() returns (err: int)
      requires Valid()
      modifies this, dst
      ensures Valid()
      ensures dst.out == Clip(old(dst.out) + EndItemText(pretty, old(indentLevel)), dst.capacity)
      ensures indentLevel == old(indentLevel) - 1
      ensures separator == old(separator) && vr == old(vr) && vl == old(vl)
      ensures err == 0
    {
      ghost var t := dst.out;
      PrintEol(t);
      ghost var w := Eol(pretty);
      indentLevel := indentLevel - 1;
      PrintIndent(t + w);
      Assoc(t, w, Indent(pretty, indentLevel));
      w := w + Indent(pretty, indentLevel);
      var _ := WriteLine(t + w, "}");
      Assoc(t, w, "}");
      err := 0;
    }

    method StartSequence() returns (err: int)
      modifies this
      ensures separator == None
      ensures indentLevel == old(indentLevel) && vr == old(vr) && vl == old(vl)
      ensures err == 0
    {
      separator := None;
      err := 0;
    }

    method EndSequence() returns (err: int)
      requires Valid()
      modifies this, dst
      ensures Valid()
      ensures dst.out == Clip(old(dst.out) + EndSequenceText(pretty, old(indentLevel)), dst.capacity)
      ensures indentLevel == old(indentLevel) - 2
      ensures separator == old(separator) && vr == old(vr) && vl == old(vl)
      ensures err == 0
    {
      ghost var t := dst.out;
      indentLevel := indentLevel - 1;
      PrintEol(t);
      ghost var w := Eol(pretty);
      PrintIndent(t + w);
      Assoc(t, w, Indent(pretty, indentLevel));
      w := w + Indent(pretty, indentLevel);
      var _ := WriteLine(t + w, "]");
      Assoc(t, w, "]");
      w := w + "]";
      PrintEol(t + w);
      Assoc(t, w, Eol(pretty));
      w := w + Eol(pretty);
      indentLevel := indentLevel - 1;
      PrintIndent(t + w);
      Assoc(t, w, Indent(pretty, indentLevel));
      w := w + Indent(pretty, indentLevel);
      var _ := WriteLine(t + w, "}");
      Assoc(t, w, "}");
      err := 0;
    }

    /** _json_write_start_dataset; the character set is not used. */
    method StartDataset(encoding: string) returns (err: int)
      requires Valid()
      modifies this, dst
      ensures Valid()
      ensures dst.out == Clip(old(dst.out) + StartDatasetText(pretty), dst.capacity)
      ensures indentLevel == old(indentLevel) + 1
      ensures separator == old(separator) && vr == old(vr) && vl == old(vl)
      ensures err == 0
    {
      ghost var t := dst.out;
      var _ := WriteLine(t, "{");
      PrintEol(t + "{");
      Assoc(t, "{", Eol(pretty));
      indentLevel := indentLevel + 1;
      err := 0;
    }

    method EndDataset() returns (err: int)
      requires Valid()
      modifies this, dst
      ensures Valid()
      ensures dst.out == Clip(old(dst.out) + EndDatasetText(pretty), dst.capacity)
      ensures indentLevel == old(indentLevel) - 1
      ensures separator == old(separator) && vr == old(vr) && vl == old(vl)
      ensures err == 0
    {
      ghost var t := dst.out;
      PrintEol(t);
      ghost var w := Eol(pretty);
      var _ := WriteLine(t + w, "}");
      Assoc(t, w, "}");
      w := w + "}";
      PrintEol(t + w);
      Assoc(t, w, Eol(pretty));
      indentLevel := indentLevel - 1;
      err := 0;
    }
  }
}
