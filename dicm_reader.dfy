/**
 * The stream reader of src/dicm.c: a state machine over the file layout of
 * PS3.10 section 7.1 (128-byte preamble, "DICM" prefix, group 0002 file meta
 * elements, then the data set), which reads each header into a 128-byte
 * buffer and decodes it with read_explicit1/read_explicit2 of src/parser.c.
 */
module DicmReader {
  import opened Io
  import opened DicmDe
  import Parser
  import opened Iteration

  /** enum state of src/dicm-private.h. */
  datatype State = StartInstance | FilePreamble | Prefix | FileMetaElement | DataElement | EndInstance

  /** (size_t)-1 on a 64-bit host. */
  const SizeMax: nat := 0xFFFF_FFFF_FFFF_FFFF

  const BufferSize: nat := 128

  /** The contents of the reader's 128-byte buffer. */
  type Buffer = b: seq<byte> | |b| == BufferSize witness seq(BufferSize, _ => 0)

  /** The reader's observable state: current_state, dataelement and buffer. */
  datatype Snapshot = Snapshot(state: State, de: Element, buf: Buffer)

  /** The buffer after a read that delivered `got`: fread overwrites only the
   *  bytes it read, the rest keeps its old contents. */
  function Fill(buf: Buffer, got: seq<byte>): (r: Buffer)
    requires |got| <= BufferSize
    ensures r[..|got|] == got && r[|got|..] == buf[|got|..]
  {
    got + buf[|got|..]
  }

  /** One header as the kPrefix, kFileMetaElement and kDataElement cases read
   *  it: 6 bytes for read_explicit1 (their return codes are ignored), the
   *  2 or 6 bytes get_explicit2_len asks for, then a seek over the value.
   *  Returns the new element, the new buffer and how far the source moved. */
  function HeaderStep(de: Element, buf: Buffer, rest: seq<byte>): (r: (Element, Buffer, nat))
    ensures r.2 >= |Take(rest, 6)|
  {
    var got1 := Take(rest, 6);
    HeaderTail(de, Fill(buf, got1), Drop(rest, |got1|), |got1|)
  }

  /** The rest of a header once the first 6-byte read (of d bytes) has filled
   *  the buffer: decode tag and VR, read and decode the length, skip the value. */
  function HeaderTail(de: Element, buf1: Buffer, rest1: seq<byte>, d: nat): (r: (Element, Buffer, nat))
    ensures r.2 >= d
  {
    var de1 := Parser.Explicit1Spec(de, buf1[..6]).1;
    var llen := Parser.Explicit2Len(de1.vr);
    var got2 := Take(rest1, llen);
    var buf2 := Fill(buf1, got2);
    var de2 := Parser.Explicit2Spec(de1, buf2[..llen]).1;
    (de2, buf2, d + |got2| + de2.vl)
  }

  /** What the source's read callback returns.  CountingRead returns the
   *  number of bytes it read, as the read callback is documented to do;
   *  SentinelAtEnd is the file back-end of the stream reader's example
   *  driver, which returns (size_t)-1 instead when fread stops short at the
   *  end of the file, and the count otherwise. */
  datatype ReadBackend = CountingRead | SentinelAtEnd

  /** The value the read callback returns when asked for `asked` bytes and
   *  the input delivered `got` (a short delivery means the input ended). */
  function ReadResult(backend: ReadBackend, asked: nat, got: seq<byte>): (d: nat)
    requires |got| <= asked < SizeMax
    ensures backend.CountingRead? ==> d == |got|
    ensures d == SizeMax <==> backend.SentinelAtEnd? && |got| < asked
    ensures d != SizeMax ==> d == |got|
  {
    if backend.SentinelAtEnd? && |got| < asked then SizeMax else |got|
  }

  /** The condition on the value d returned by the 6-byte read under which
   *  the kDataElement case ends the instance, as written: d == (size_t)-1. */
  function EndsAsWritten(d: nat): bool { d == SizeMax }

  /** The corrected condition: the input has no complete header left. */
  function EndsCorrected(d: nat): bool { d < 6 }

  /** Which end-of-instance rule a step follows: the corrected one, or the
   *  source's test on the value a given read back-end returns. */
  datatype Rule = Corrected | AsWritten(backend: ReadBackend)

  /** Whether the kDataElement case ends the instance after its 6-byte read
   *  delivered `got`. */
  function EndsAfterRead(rule: Rule, got: seq<byte>): bool
    requires |got| <= 6
  {
    match rule
    case Corrected => EndsCorrected(|got|)
    case AsWritten(backend) => EndsAsWritten(ReadResult(backend, 6, got))
  }

  /** dicm_sreader_next as a function of the snapshot and the unread input,
   *  under the given end-of-instance rule; returns the new snapshot and how
   *  far the source moved. */
  function NextWith(s: Snapshot, rest: seq<byte>, rule: Rule): (Snapshot, nat)
  {
    match s.state
    case StartInstance =>
      var got := Take(rest, 128);
      (s.(state := FilePreamble, buf := Fill(s.buf, got)), |got|)
    case FilePreamble =>
      var got := Take(rest, 4);
      (s.(state := Prefix, buf := Fill(s.buf, got)), |got|)
    case Prefix =>
      var (de, buf, adv) := HeaderStep(s.de, s.buf, rest);
      // a group other than 0002 trips assert(0); without assertions the state stays
      (Snapshot(if GetGroup(de.tag) == 2 then FileMetaElement else Prefix, de, buf), adv)
    case FileMetaElement =>
      var (de, buf, adv) := HeaderStep(s.de, s.buf, rest);
      var g := GetGroup(de.tag);
      (Snapshot(if g == 2 then FileMetaElement else if g >= 8 then DataElement else FileMetaElement, de, buf), adv)
    case DataElement =>
      var got := Take(rest, 6);
      if EndsAfterRead(rule, got) then
        (s.(state := EndInstance, buf := Fill(s.buf, got)), |got|)
      else
        var (de, buf, adv) := HeaderStep(s.de, s.buf, rest);
        (Snapshot(DataElement, de, buf), adv)
    case EndInstance =>
      (s, 0)
  }

  /** The transition the model uses: a short read in kDataElement ends the instance. */
  function NextSpec(s: Snapshot, rest: seq<byte>): (Snapshot, nat)
  {
    NextWith(s, rest, Corrected)
  }

  /** The reader together with the input it has not read yet. */
  datatype Config = Config(snap: Snapshot, rest: seq<byte>)

  /** One call of dicm_sreader_next on a configuration. */
  function Step(c: Config, rule: Rule): Config
  {
    var (s1, adv) := NextWith(c.snap, c.rest, rule);
    Config(s1, Drop(c.rest, adv))
  }

  function Stepper(rule: Rule): Config -> Config
  {
    c => Step(c, rule)
  }

  /** n successive calls of dicm_sreader_next on the given input. */
  function Run(s: Snapshot, rest: seq<byte>, n: nat, rule: Rule): Snapshot
  {
    Iterate(Stepper(rule), Config(s, rest), n).snap
  }

  /** kEndInstance is absorbing: next changes nothing and reads nothing. */
  lemma EndInstanceAbsorbing(s: Snapshot, rest: seq<byte>, rule: Rule)
    requires s.state == EndInstance
    ensures NextWith(s, rest, rule) == (s, 0)
  {
  }

  /** The preamble step reads 128 bytes and the prefix step 4, moving through
   *  kFilePreamble to kPrefix without decoding anything. */
  lemma PreambleAndPrefix(s: Snapshot, rest: seq<byte>)
    ensures s.state == StartInstance ==>
      NextSpec(s, rest).0.state == FilePreamble && NextSpec(s, rest).0.de == s.de &&
      NextSpec(s, rest).1 == Min(128, |rest|)
    ensures s.state == FilePreamble ==>
      NextSpec(s, rest).0.state == Prefix && NextSpec(s, rest).0.de == s.de &&
      NextSpec(s, rest).1 == Min(4, |rest|)
  {
  }

  /** From kPrefix only a group 0002 element leads on; from kFileMetaElement
   *  group 0002 stays and a group of 0008 or more starts the data set. */
  lemma MetaTransitions(s: Snapshot, rest: seq<byte>)
    ensures var (s1, _) := NextSpec(s, rest);
      var g := GetGroup(s1.de.tag);
      (s.state == Prefix ==> (s1.state == FileMetaElement <==> g == 2) && s1.state in {Prefix, FileMetaElement}) &&
      (s.state == FileMetaElement ==>
         (g == 2 ==> s1.state == FileMetaElement) && (g >= 8 ==> s1.state == DataElement) &&
         (2 != g < 8 ==> s1.state == FileMetaElement))
  {
  }

  /** As written, the kDataElement case ends the instance only when the read
   *  returns (size_t)-1, which a read callback returning the count it read
   *  never does: with such a back-end no state ever moves to kEndInstance. */
  lemma AsWrittenNeverEnds(s: Snapshot, rest: seq<byte>)
    requires s.state != EndInstance
    ensures NextWith(s, rest, AsWritten(CountingRead)).0.state != EndInstance
  {
  }

  /** As written, with a counting read back-end, a kDataElement step stays in
   *  kDataElement whatever the read delivers. */
  lemma AsWrittenDataElementStays(s: Snapshot, rest: seq<byte>)
    requires s.state == DataElement
    ensures NextWith(s, rest, AsWritten(CountingRead)).0.state == DataElement
  {
  }

  /** With the back-end that returns (size_t)-1 at the end of the file, the
   *  source as written takes exactly the corrected steps. */
  lemma SentinelAgrees(s: Snapshot, rest: seq<byte>)
    ensures NextWith(s, rest, AsWritten(SentinelAtEnd)) == NextSpec(s, rest)
  {
    if s.state == DataElement {
      var got := Take(rest, 6);
      assert EndsAfterRead(AsWritten(SentinelAtEnd), got) == EndsAfterRead(Corrected, got);
    }
  }

  /** A rule under which the end of the input ends the instance. */
  predicate EndsAtEndOfInput(rule: Rule) {
    rule == Corrected || rule == AsWritten(SentinelAtEnd)
  }

  /** Under the corrected rule, or as written with the sentinel back-end, a
   *  read that cannot deliver a whole header in kDataElement ends the
   *  instance. */
  lemma CorrectedEndsAtEndOfInput(s: Snapshot, rest: seq<byte>, rule: Rule)
    requires EndsAtEndOfInput(rule)
    requires s.state == DataElement && |rest| < 6
    ensures NextWith(s, rest, rule).0.state == EndInstance && NextWith(s, rest, rule).1 == |rest|
  {
    SentinelAgrees(s, rest);
  }

  /** One kDataElement step under such a rule: it ends on a short read, and
   *  otherwise stays in kDataElement having consumed at least a 6-byte header. */
  lemma DataElementStep(s: Snapshot, rest: seq<byte>, rule: Rule)
    requires EndsAtEndOfInput(rule)
    requires s.state == DataElement
    ensures var (s1, adv) := NextWith(s, rest, rule);
      (|rest| < 6 ==> s1.state == EndInstance) &&
      (|rest| >= 6 ==> s1.state == DataElement && adv >= 6)
  {
    SentinelAgrees(s, rest);
  }

  /** struct _dicm_sreader. */
  class StreamReader {
    const src: Source
    const dataelement: DataElement
    var currentState: State
    const buffer: array<byte>

    ghost predicate Valid()
      reads this
    {
      buffer.Length == BufferSize
    }

    ghost function Snap(): Snapshot
      requires Valid()
      reads this, dataelement, buffer
    {
      Snapshot(currentState, dataelement.Value(), buffer[..])
    }

    /** dicm_sreader_init: state kStartInstance, buffer zeroed, tag 0.  The VR
     *  and length of the element are not initialised by the source; they are
     *  whatever `vr` and `vl` say. */
    constructor Init(src: Source, vr: u16, vl: u32)
      ensures Valid() && fresh(buffer) && fresh(dataelement) && this.src == src
      ensures currentState == StartInstance
      ensures forall i :: 0 <= i < buffer.Length ==> buffer[i] == 0
      ensures dataelement.tag == 0
    {
      this.src := src;
      currentState := StartInstance;
      buffer := new byte[BufferSize](_ => 0);
      dataelement := new DataElement(0, vr, vl);
    }

    /** dicm_sreader_hasnext. */
    function HasNext(): (r: bool)
      reads this
      ensures r <==> currentState != EndInstance
    {
      currentState != EndInstance
    }

    /** A read into the buffer: src->ops->read(src, buf, n). */
    method ReadInto(n: nat) returns (d: nat)
      requires Valid() && n <= BufferSize
      modifies src, buffer
      ensures Valid()
      ensures buffer[..] == Fill(old(buffer[..]), Take(old(src.Rest()), n))
      ensures d == |Take(old(src.Rest()), n)|
      ensures src.pos == old(src.pos) + d && src.Rest() == Drop(old(src.Rest()), d)
    {
      var got := src.Read(n);
      ghost var pos := src.pos;
      var i := 0;
      while i < |got|
        invariant 0 <= i <= |got|
        invariant src.pos == pos
        invariant buffer[..i] == got[..i]
        invariant buffer[i..] == old(buffer[..])[i..]
      {
        buffer[i] := got[i];
        i := i + 1;
      }
      d := |got|;
    }

    /** The header-reading sequence shared by three cases of dicm_sreader_next. */
    method ReadHeader()
      requires Valid()
      modifies src, buffer, dataelement
      ensures Valid()
      ensures var (de, buf, adv) := HeaderStep(old(dataelement.Value()), old(buffer[..]), old(src.Rest()));
        dataelement.Value() == de && buffer[..] == buf && src.pos == old(src.pos) + adv
    {
      var d := ReadInto(6);
      ReadHeaderTail(d);
    }

    /** Everything after the first 6-byte read of a header. */
    method ReadHeaderTail(ghost d: nat)
      requires Valid()
      modifies src, buffer, dataelement
      ensures Valid()
      ensures var (de, buf, adv) := HeaderTail(old(dataelement.Value()), old(buffer[..]), old(src.Rest()), d);
        dataelement.Value() == de && buffer[..] == buf && src.pos == old(src.pos) + adv - d
    {
      var _ := Parser.ReadExplicit1(dataelement, buffer[..6]);
      var llen := Parser.Explicit2Len(dataelement.vr);
      var _ := ReadInto(llen);
      var _ := Parser.ReadExplicit2(dataelement, buffer[..llen]);
      src.Seek(dataelement.vl);
    }

    /** dicm_sreader_next: advances the state and returns the new state. */
    method Next() returns (r: State)
      requires Valid()
      modifies this, src, buffer, dataelement
      ensures Valid()
      ensures var (s, adv) := NextSpec(old(Snap()), old(src.Rest()));
        Snap() == s && src.pos == old(src.pos) + adv
      ensures r == currentState
    {
      match currentState {
        case StartInstance =>
          var _ := ReadInto(128);
          currentState := FilePreamble;
        case FilePreamble =>
          var _ := ReadInto(4);
          currentState := Prefix;
        case Prefix =>
          ReadHeader();
          if GetGroup(dataelement.tag) == 2 {
            currentState := FileMetaElement;
          }
        case FileMetaElement =>
          ReadHeader();
          if GetGroup(dataelement.tag) == 2 {
            currentState := FileMetaElement;
          } else if GetGroup(dataelement.tag) >= 8 {
            currentState := DataElement;
          }
        case DataElement =>
          var d := ReadInto(6);
          if EndsCorrected(d) {
            currentState := EndInstance;
          } else {
            ReadHeaderTail(d);
            currentState := DataElement;
          }
        case EndInstance =>
      }
      r := currentState;
    }

    /** dicm_sreader_get_dataelement: kError outside the two element states,
     *  otherwise a copy of the current element and kSuccess. */
    method GetDataElement(de: DataElement) returns (rc: int)
      modifies de
      ensures currentState !in {FileMetaElement, DataElement} ==> rc == Parser.kError && de.Value() == old(de.Value())
      ensures currentState in {FileMetaElement, DataElement} ==> rc == Parser.kSuccess && de.Value() == dataelement.Value()
    {
      if currentState != FileMetaElement && currentState != DataElement {
        return Parser.kError;
      }
      de.Set(dataelement.Value());
      return Parser.kSuccess;
    }
  }
}
