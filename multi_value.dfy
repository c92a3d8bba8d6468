/**
 * The multi-valued string handling shared by print_with_separator in
 * examples/json.c and examples/xml.c: the value is first trimmed (one
 * trailing NUL, then one leading space, then one trailing space) and then
 * split at each backslash, the value delimiter of section 6.4 of DICOM
 * PS3.5.  The trimming is modelled as written, with size_t arithmetic, next
 * to the corrected trimming the rest of the model uses.
 */
module MultiValue {
  import opened TextIo

  /** size_t on the 64-bit hosts the examples are built for. */
  const SizeModulus: nat := 0x1_0000_0000_0000_0000

  /** `--len` on a size_t: 0 wraps to SIZE_MAX. */
  function SizeDec(x: nat): (r: nat)
    requires x < SizeModulus
    ensures x > 0 ==> r == x - 1
    ensures x == 0 ==> r == SizeModulus - 1
  {
    (x - 1) % SizeModulus
  }

  /** Where the loop of print_with_separator starts and how many characters
   *  it walks, or the out-of-bounds read the trimming makes first. */
  datatype Span = Span(start: nat, len: nat) | ReadsBeforeBuffer

  /**
   * The trimming as written: `len` is a size_t and the last test reads
   * str[len - 1] without checking that len is still positive.  When the
   * first two steps have already brought len to 0 that read is one
   * character before str: before the buffer when no space was skipped, and
   * the skipped space itself otherwise, which then makes len wrap to
   * SIZE_MAX.
   */
  function TrimAsWritten(s: string): (r: Span)
    requires 0 < |s| < SizeModulus
  {
    var len1 := if s[|s| - 1] == NUL then |s| - 1 else |s|;
    var start := if s[0] == ' ' then 1 else 0;
    var len2 := if s[0] == ' ' then SizeDec(len1) else len1;
    var index := start + len2 - 1;
    if index < 0 then ReadsBeforeBuffer
    else if s[index] == ' ' then Span(start, SizeDec(len2))
    else Span(start, len2)
  }

  /** The loop of print_with_separator stays inside the value. */
  predicate InBounds(s: string, r: Span) {
    r.Span? && r.start + r.len <= |s|
  }

  /** The trimming goes wrong for exactly three inputs: a lone space, a
   *  space followed by NUL (the loop then walks SIZE_MAX characters), and a
   *  lone NUL (which reads before the buffer). */
  lemma AsWrittenFailures(s: string)
    requires 0 < |s| < SizeModulus
    ensures !InBounds(s, TrimAsWritten(s)) <==> s == " " || s == [' ', NUL] || s == [NUL]
  {
    if |s| == 1 && s[0] == ' ' {
      assert s == " ";
    } else if |s| == 2 && s[0] == ' ' && s[1] == NUL {
      assert s == [' ', NUL];
    } else if |s| == 1 && s[0] == NUL {
      assert s == [NUL];
    }
  }

  /** The counterexamples: " " and " \0" make len wrap to SIZE_MAX. */
  lemma AsWrittenWraps()
    ensures TrimAsWritten(" ") == Span(1, SizeModulus - 1)
    ensures TrimAsWritten([' ', NUL]) == Span(1, SizeModulus - 1)
    ensures TrimAsWritten([NUL]) == ReadsBeforeBuffer
  {
  }

  /** The corrected trimming: each step only when something is left. */
  function TrimSpan(s: string): (r: Span)
    ensures r.Span? && r.start <= 1 && r.start + r.len <= |s| && |s| - 3 <= r.len
  {
    var len1 := if |s| > 0 && s[|s| - 1] == NUL then |s| - 1 else |s|;
    var start := if len1 > 0 && s[0] == ' ' then 1 else 0;
    var len2 := len1 - start;
    if len2 > 0 && s[start + len2 - 1] == ' ' then Span(start, len2 - 1) else Span(start, len2)
  }

  /** The characters the loop walks over. */
  function Trim(s: string): (t: string)
    ensures |t| <= |s|
  {
    var r := TrimSpan(s);
    s[r.start..r.start + r.len]
  }

  /** The trimming at the head of print_with_separator. */
  method TrimBounds(value: string) returns (start: nat, len: nat)
    requires |value| > 0
    ensures TrimSpan(value) == Span(start, len) && value[start..start + len] == Trim(value)
  {
    start, len := 0, |value|;
    if value[len - 1] == NUL {
      len := len - 1;
    }
    if len > 0 && value[start] == ' ' {
      start, len := start + 1, len - 1;
    }
    if len > 0 && value[start + len - 1] == ' ' {
      len := len - 1;
    }
  }

  /** Where the written trimming stays in bounds it agrees with the
   *  corrected one. */
  lemma AsWrittenAgrees(s: string)
    requires 0 < |s| < SizeModulus && InBounds(s, TrimAsWritten(s))
    ensures TrimAsWritten(s) == TrimSpan(s)
  {
  }

  /** Trimming removes exactly the padding: a value without leading space
   *  and without trailing space or NUL comes back unchanged from any of the
   *  paddings " " in front and " ", NUL or " " NUL behind. */
  lemma TrimPadding(x: string, front: string, back: string)
    requires x != [] && x[0] != ' ' && x[|x| - 1] != ' ' && x[|x| - 1] != NUL
    requires front == [] || front == " "
    requires back == [] || back == " " || back == [NUL] || back == [' ', NUL]
    ensures Trim(front + x + back) == x
  {
    var s := front + x + back;
    var b := if back == [NUL] then [] else if back == [' ', NUL] then " " else back;
    var len1 := |front| + |x| + |b|;
    assert s[..len1] == front + x + b;
    assert s[|front|] == x[0];
    assert s[|front| + |x| - 1] == x[|x| - 1];
    if b != [] {
      assert s[len1 - 1] == ' ';
    }
    assert TrimSpan(s) == Span(|front|, |x|);
    assert s[|front|..|front| + |x|] == x;
  }

  /** Splitting at backslashes: the components in order, the last one
   *  being what follows the last backslash (possibly empty). */
  function Split(t: string): (parts: seq<string>)
    ensures |parts| >= 1
  {
    if t == [] then [[]]
    else
      var p := Split(t[..|t| - 1]);
      var c := t[|t| - 1];
      if c == '\\' then p + [[]] else p[..|p| - 1] + [p[|p| - 1] + [c]]
  }

  /** One more character: a backslash starts a new component, */
  lemma SplitSnocBackslash(s: string)
    ensures Split(s + ['\\']) == Split(s) + [[]]
  {
    assert (s + ['\\'])[..|s|] == s;
  }

  /** and any other character goes on the last one. */
  lemma SplitSnocOther(s: string, c: char)
    requires c != '\\'
    ensures var p := Split(s); Split(s + [c]) == p[..|p| - 1] + [p[|p| - 1] + [c]]
  {
    assert (s + [c])[..|s|] == s;
  }

  /** Joining components with a separator between each two. */
  function Join(parts: seq<string>, sep: string): string
    requires |parts| >= 1
  {
    if |parts| == 1 then parts[0] else Join(parts[..|parts| - 1], sep) + sep + parts[|parts| - 1]
  }

  function Count(t: string, c: char): nat {
    if t == [] then 0 else Count(t[..|t| - 1], c) + if t[|t| - 1] == c then 1 else 0
  }

  lemma JoinSnoc(parts: seq<string>, last: string, x: string, sep: string)
    requires |parts| >= 1
    ensures Join(parts[..|parts| - 1] + [parts[|parts| - 1] + x], sep) == Join(parts, sep) + x
  {
    var q := parts[..|parts| - 1] + [parts[|parts| - 1] + x];
    if |parts| > 1 {
      assert q[..|q| - 1] == parts[..|parts| - 1];
    }
  }

  /** There is one more component than there are backslashes, no component
   *  holds a backslash, and joining them back with backslashes gives the
   *  value again. */
  lemma SplitJoin(t: string)
    ensures |Split(t)| == Count(t, '\\') + 1
    ensures forall i :: 0 <= i < |Split(t)| ==> '\\' !in Split(t)[i]
    ensures Join(Split(t), "\\") == t
  {
    SplitCount(t);
    SplitComponents(t);
    SplitJoinBack(t);
  }

  lemma {:induction false} SplitCount(t: string)
    ensures |Split(t)| == Count(t, '\\') + 1
  {
    if t != [] {
      SplitCount(t[..|t| - 1]);
    }
  }

  lemma {:induction false} SplitComponents(t: string)
    ensures forall i :: 0 <= i < |Split(t)| ==> '\\' !in Split(t)[i]
  {
    if t != [] {
      var u := t[..|t| - 1];
      var c := t[|t| - 1];
      var p := Split(u);
      SplitComponents(u);
      assert t == u + [c];
      if c == '\\' {
        SplitSnocBackslash(u);
        NewComponent(p);
      } else {
        SplitSnocOther(u, c);
        GrownComponent(p, c);
      }
    }
  }

  lemma NewComponent(p: seq<string>)
    requires forall i :: 0 <= i < |p| ==> '\\' !in p[i]
    ensures forall i :: 0 <= i < |p + [[]]| ==> '\\' !in (p + [[]])[i]
  {
  }

  lemma GrownComponent(p: seq<string>, c: char)
    requires |p| >= 1 && c != '\\'
    requires forall i :: 0 <= i < |p| ==> '\\' !in p[i]
    ensures var q := p[..|p| - 1] + [p[|p| - 1] + [c]];
      forall i :: 0 <= i < |q| ==> '\\' !in q[i]
  {
    var q := p[..|p| - 1] + [p[|p| - 1] + [c]];
    forall i | 0 <= i < |q| ensures '\\' !in q[i] {
      if i < |p| - 1 {
        assert q[i] == p[i];
      }
    }
  }

  lemma {:induction false} SplitJoinBack(t: string)
    ensures Join(Split(t), "\\") == t
  {
    if t != [] {
      var u := t[..|t| - 1];
      var c := t[|t| - 1];
      var p := Split(u);
      SplitJoinBack(u);
      assert t == u + [c];
      if c == '\\' {
        SplitSnocBackslash(u);
        JoinEmpty(p, "\\");
      } else {
        SplitSnocOther(u, c);
        JoinSnoc(p, p[|p| - 1], [c], "\\");
      }
    }
  }

  /** An empty last component leaves just the separator. */
  lemma JoinEmpty(parts: seq<string>, sep: string)
    requires |parts| >= 1
    ensures Join(parts + [[]], sep) == Join(parts, sep) + sep
  {
    assert (parts + [[]])[..|parts|] == parts;
  }
}
