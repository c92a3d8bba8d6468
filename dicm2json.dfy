// The event pump of the dicm2json example: every event the reader reports
// becomes the matching call on the writer, and a value is passed on in
// chunks of at most len3 bytes, len3 being the largest multiple of 3 that
// fits the 4096-byte buffer, so that base64 output needs no padding until
// the last chunk.

module Dicm2Json {
  import opened Io
  import B = Base64
  import I = DicmItem

  /** The size of process_writer's value buffer. */
  const BufferSize: nat := 4096

  /** len3: the buffer size rounded down to a multiple of 3. */
  const Len3: nat := BufferSize / 3 * 3

  /** len3 is the largest multiple of 3 that fits the buffer. */
  lemma Len3Fits()
    ensures Len3 == 4095 && Len3 <= BufferSize && Len3 % 3 == 0
    ensures forall n: nat {:trigger n % 3} :: n <= BufferSize && n % 3 == 0 ==> n <= Len3
  {
  }

  /** What dicm_reader_next_event reports, with the payload the getters
   *  then return; Unknown is any other event code. */
  datatype Event =
    | AttributeEvent(da: I.Attribute)
    | ValueEvent(value: seq<byte>)
    | FragmentEvent
    | StartItemEvent
    | EndItemEvent
    | StartSequenceEvent
    | EndSequenceEvent
    | StartDatasetEvent(encoding: string)
    | EndDatasetEvent
    | Unknown(code: int)

  /** A call on the writer. */
  datatype Call =
    | WriteAttribute(da: I.Attribute)
    | WriteValueLength(size: nat)
    | WriteValue(buf: seq<byte>)
    | WriteFragment
    | WriteStartItem
    | WriteEndItem
    | WriteStartSequence
    | WriteEndSequence
    | WriteStartDataset(encoding: string)
    | WriteEndDataset

  /** The write_value calls of the do/while loop for a value: a chunk of
   *  len3 bytes while more than len3 are left, then the rest, which is
   *  empty only when the whole value is. */
  function ValueWrites(value: seq<byte>): (calls: seq<Call>)
    decreases |value|
  {
    if |value| <= Len3 then [WriteValue(value)]
    else [WriteValue(value[..Len3])] + ValueWrites(value[Len3..])
  }

  /** The bytes handed to the writer by a sequence of calls. */
  function Written(calls: seq<Call>): seq<byte> {
    if calls == [] then []
    else (if calls[0].WriteValue? then calls[0].buf else []) + Written(calls[1..])
  }

  /** The base64 text the JSON writer prints for the chunks, one chunk at a time. */
  function EncodedChunks(calls: seq<Call>): string {
    if calls == [] then ""
    else (if calls[0].WriteValue? then B.Encode(calls[0].buf) else "") + EncodedChunks(calls[1..])
  }

  /** The calls for one event. */
  function EventCalls(e: Event): seq<Call> {
    match e
    case AttributeEvent(da) => [WriteAttribute(da)]
    case ValueEvent(value) => [WriteValueLength(|value|)] + ValueWrites(value)
    case FragmentEvent => [WriteFragment]
    case StartItemEvent => [WriteStartItem]
    case EndItemEvent => [WriteEndItem]
    case StartSequenceEvent => [WriteStartSequence]
    case EndSequenceEvent => [WriteEndSequence]
    case StartDatasetEvent(encoding) => [WriteStartDataset(encoding)]
    case EndDatasetEvent => [WriteEndDataset]
    case Unknown(_) => []
  }

  /** The calls for the events of a stream, in order. */
  function Translate(events: seq<Event>): seq<Call> {
    if events == [] then [] else EventCalls(events[0]) + Translate(events[1..])
  }

  lemma WrittenAppend(x: seq<Call>, y: seq<Call>)
    ensures Written(x + y) == Written(x) + Written(y)
  {
    if x != [] {
      assert (x + y)[1..] == x[1..] + y;
      WrittenAppend(x[1..], y);
    } else {
      assert x + y == y;
    }
  }

  lemma EncodedChunksAppend(x: seq<Call>, y: seq<Call>)
    ensures EncodedChunks(x + y) == EncodedChunks(x) + EncodedChunks(y)
  {
    if x != [] {
      assert (x + y)[1..] == x[1..] + y;
      EncodedChunksAppend(x[1..], y);
    } else {
      assert x + y == y;
    }
  }

  /** The loop writes at least once, only write_value calls, never more than
   *  len3 bytes at a time, and every chunk but the last is exactly len3
   *  bytes; a chunk is empty only for an empty value. */
  lemma {:induction false} ValueWritesShape(value: seq<byte>)
    ensures var calls := ValueWrites(value);
      && |calls| >= 1
      && (forall i :: 0 <= i < |calls| ==> calls[i].WriteValue? && |calls[i].buf| <= Len3)
      && (forall i :: 0 <= i < |calls| - 1 ==> |calls[i].buf| == Len3)
      && (forall i :: 0 <= i < |calls| ==> (|calls[i].buf| == 0 <==> |value| == 0))
    decreases |value|
  {
    if |value| > Len3 {
      ValueWritesShape(value[Len3..]);
    }
  }

  /** The number of write_value calls: one for an empty value, otherwise
   *  the value length divided by len3, rounded up. */
  lemma {:induction false} ValueWritesCount(value: seq<byte>)
    ensures |ValueWrites(value)| == if |value| == 0 then 1 else (|value| + Len3 - 1) / Len3
    decreases |value|
  {
    Len3Fits();
    if |value| > Len3 {
      ValueWritesCount(value[Len3..]);
      var n := |value| - 4095;
      assert (n + 4095 + 4094) / 4095 == (n + 4094) / 4095 + 1;
    }
  }

  /** The chunks put back together are the value. */
  lemma {:induction false} ValueWritesJoin(value: seq<byte>)
    ensures Written(ValueWrites(value)) == value
    decreases |value|
  {
    if |value| > Len3 {
      ValueWritesJoin(value[Len3..]);
      WrittenAppend([WriteValue(value[..Len3])], ValueWrites(value[Len3..]));
      assert value[..Len3] + value[Len3..] == value;
    }
  }

  lemma FirstChunk(head: seq<byte>, more: seq<Call>)
    ensures EncodedChunks([WriteValue(head)] + more) == B.Encode(head) + EncodedChunks(more)
  {
    EncodedChunksAppend([WriteValue(head)], more);
    assert EncodedChunks([WriteValue(head)]) == B.Encode(head) + EncodedChunks([]);
  }

  /** Because every chunk but the last is a multiple of 3 bytes, printing
   *  each chunk in base64 gives the base64 of the whole value. */
  lemma {:induction false} ChunkedBase64(value: seq<byte>)
    ensures EncodedChunks(ValueWrites(value)) == B.Encode(value)
    decreases |value|
  {
    if |value| > Len3 {
      var head, tail := value[..Len3], value[Len3..];
      ChunkedBase64(tail);
      FirstChunk(head, ValueWrites(tail));
      Len3Fits();
      assert head + tail == value;
      B.EncodeAppend(head, tail);
    } else {
      FirstChunk(value, []);
    }
  }

  /** The EVENT_VALUE case: the value length, then the do/while loop that
   *  reads and writes a chunk of at most len3 bytes until none is left,
   *  at least once. */
  method ProcessValue(value: seq<byte>) returns (calls: seq<Call>)
    ensures calls == [WriteValueLength(|value|)] + ValueWrites(value)
  {
    calls := [WriteValueLength(|value|)];
    var size: nat := |value|;
    var pos: nat := 0;
    while true
      invariant pos + size == |value|
      invariant size == 0 ==> pos == 0
      invariant calls + ValueWrites(value[pos..]) == [WriteValueLength(|value|)] + ValueWrites(value)
      decreases size
    {
      var len := if size < Len3 then size else Len3;
      var buf := value[pos..pos + len];
      if size <= Len3 {
        assert buf == value[pos..];
        assert ValueWrites(value[pos..]) == [WriteValue(buf)];
      } else {
        assert value[pos..][..Len3] == buf;
        assert value[pos..][Len3..] == value[pos + len..];
        assert ValueWrites(value[pos..]) == [WriteValue(buf)] + ValueWrites(value[pos + len..]);
      }
      calls := calls + [WriteValue(buf)];
      pos := pos + len;
      size := size - len;
      if size == 0 {
        break;
      }
    }
  }

  /** process_writer: one call or group of calls per event, until the
   *  reader has no next event; an unknown event is reported on the
   *  console only. */
  method ProcessWriter(events: seq<Event>) returns (calls: seq<Call>)
    ensures calls == Translate(events)
  {
    calls := [];
    var n := 0;
    while n < |events|
      invariant n <= |events|
      invariant calls == Translate(events[..n])
    {
      var e := events[n];
      assert events[..n + 1] == events[..n] + [e];
      TranslateSnoc(events[..n], e);
      match e {
        case ValueEvent(value) =>
          var more := ProcessValue(value);
          calls := calls + more;
        case Unknown(_) =>
        case _ =>
          calls := calls + EventCalls(e);
      }
      n := n + 1;
    }
    assert events[..n] == events;
  }

  /** Translation is compositional: the calls for two streams in a row are
   *  the calls for the first, then those for the second. */
  lemma {:induction false} TranslateAppend(x: seq<Event>, y: seq<Event>)
    ensures Translate(x + y) == Translate(x) + Translate(y)
    decreases |x|
  {
    if x == [] {
      assert x + y == y;
    } else {
      assert (x + y)[1..] == x[1..] + y;
      TranslateAppend(x[1..], y);
      var a, b, c := EventCalls(x[0]), Translate(x[1..]), Translate(y);
      assert a + (b + c) == (a + b) + c;
    }
  }

  /** One more event adds its own calls at the end. */
  lemma TranslateSnoc(xs: seq<Event>, e: Event)
    ensures Translate(xs + [e]) == Translate(xs) + EventCalls(e)
  {
    TranslateAppend(xs, [e]);
    assert Translate([e]) == EventCalls(e) + Translate([]);
  }

  /** A value event writes its length once, then bytes that make up exactly
   *  the value; an unknown event writes nothing. */
  lemma EventBytes(e: Event)
    ensures e.ValueEvent? ==>
              EventCalls(e)[0] == WriteValueLength(|e.value|) && Written(EventCalls(e)) == e.value
    ensures e.Unknown? <==> EventCalls(e) == []
    ensures !e.ValueEvent? ==> Written(EventCalls(e)) == []
  {
    if e.ValueEvent? {
      ValueWritesJoin(e.value);
      WrittenAppend([WriteValueLength(|e.value|)], ValueWrites(e.value));
    }
  }
}
