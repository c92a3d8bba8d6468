# DICM in Dafny

A model of the core of DICM, a C library (with a C++ sandbox) that streams
DICOM instances. The model covers the following parts.

- **Explicit VR Little Endian header decoders, in two generations.**
  - `DicmParser` and `Parser` model `src/dicm-parser.c` and `src/parser.c`.
  - `DicmParserExp` models `src/dicm-parser-exp.c`. It also tracks the
    counters for defined-length items and sequences, fragments, and the
    file meta group length.
- **The reader state machines.**
  - `DicmReader` models `src/dicm.c`: preamble, prefix, file meta elements,
    data elements, end. `DicmReaderRuns` states what repeated calls do.
  - `DicmItem` models the attribute, value and end-attribute steps of
    `src/dicm-item.c`.
- **The item reader stack** of `src/dicm-item.h`, a growable array
  (`ItemArray`).
- **The binary writer** of `src/dicm-writer.c` (`DicmWriter`, with the header
  bytes in `DicmUde`). It is proved to write headers that the item reader
  decodes back.
- **The value codecs.**
  - VR codes packed into 16 bits: `Vr` for `vr.hxx`/`vr.cxx`, `SandboxVr` for
    `sandbox/vr.cxx`.
  - UIDs packed as base-11 nibbles: `Uid` for `src/dicm-uid.c`, `UidCxx` for
    `uid.cxx`/`uid.hxx`.
  - Tag group and element splitting: `DicmDe` for `src/dicm-de.h`.
- **The JSON and XML writers** of `examples/json.c` (`Json`) and
  `examples/xml.c` (`Xml`). Their parts are:
  - base64 (RFC 4648 section 4), in `Base64`;
  - backslash multi-value splitting with trimming, in `MultiValue`;
  - integer arrays read least significant byte first, in `Words`;
  - the VR classes the writers switch on, in `WriterVr`.
- **The value-chunking loop** of `examples/dicm2json.c` (`Dicm2Json`).

Reads and writes are modelled as follows:

- **Input.** The input is a byte sequence with a cursor (`Io.Source`).
  A read returns the bytes that are left, at most as many as asked; a seek
  moves the cursor.
- **What a read returns.** For the stream reader of `src/dicm.c`, the value
  the read callback returns has two variants (`DicmReader.ReadBackend`):
  - the count it read, as `src/dicm-io.h:17-18` documents;
  - `(size_t)-1` on a short read at the end of the file, as the file
    back-end of `examples/example1.c:22-35` does.
- **Binary output.** A binary sink (`Io.Sink`) accepts bytes until its room
  runs out.
- **Text output.** A text sink (`TextIo.TextSink`) keeps the prefix of
  everything asked of it that fits its capacity. A short write therefore
  truncates the output instead of failing.
- **Text events.** Every writer event is specified by a function that gives
  the text of that event from the writer state before it. The methods
  produce that text write by write.

Byte order is little-endian throughout.

C `assert`s are modelled in one of two ways:

- An assert on data read from the input is modelled as the release build
  runs it: the check is skipped.
- An assert on the writer's own state or on the result of an I/O call is
  skipped as well. Examples are the stored length tested by `write_value`
  and the count tested by `print_eol` (examples/json.c:127). The model goes
  on after a short write, as a release build does.
- An assert on an argument the caller supplies becomes a `requires`.

## Model

| member | source | states |
|---|---|---|
| DicmDe.GetGroup | src/dicm-de.h:53-55 | the group is the high 16 bits: g * 2^16 <= tag < (g + 1) * 2^16 |
| DicmDe.GetElement | src/dicm-de.h:56-58 | the element is the tag modulo 2^16 |
| DicmDe.SplitJoin | src/dicm-de.h:53-58 | putting a tag's group and element back together gives the tag |
| DicmDe.JoinSplit | src/dicm-de.h:53-58 | the group and element of a tag made from them are those two again |
| DicmDe.TagOrder | src/dicm-de.h:53-58 | tags order as their (group, element) pairs order lexicographically |
| DicmDe.DataElement.constructor | src/dicm-de.h:69-77 | a data element holds the given tag, VR and VL |
| DicmDe.DataElement.Set | src/dicm-de.h:69-77 | copying an element in replaces all three fields |
| DicmParser.VrTablesDisjoint | src/dicm-parser.c:110-180 | no VR is in both the 16-bit-length table and the 32-bit-length table |
| DicmParser.Vr32IsNotVr16 | src/dicm-parser.c:138-180 | for every 16-bit value, is_vr32 is the negation of is_vr16; unknown VRs are 32-bit |
| DicmParser.TableVrsValid | src/dicm-parser.c:182-187 | every VR in either table passes isvr_valid (both bytes upper-case letters) |
| DicmParser.ShortVrsLetters | src/dicm-parser.c:110-136 | each of the short-length VRs is stored as its two letters |
| DicmParser.LongVrsLetters | src/dicm-parser.c:138-180 | each listed long-length VR is stored as its two letters |
| DicmParser.DelimiterTags | src/dicm-parser.c:98-108 | start item, end item and end sequence hold exactly for group FFFE with element E000, E00D, E0DD |
| DicmParser.ComputeLen | src/dicm-parser.c:227-233 | the element's length on the wire is 8 + VL for 16-bit VRs and 12 + VL otherwise, when this does not wrap |
| DicmParser.ComputeUndefLen | src/dicm-parser.c:234-239 | the undefined-length form is 12 + len, when this does not wrap |
| DicmParser.ReadExplicit | src/dicm-parser.c:241-320 | read_explicit: the result, the new element and the input consumed are those of the decoding function, on every input |
| DicmParser.ShortHeader | src/dicm-parser.c:248-252 | fewer than 8 bytes left gives not-enough-data and keeps the element |
| DicmParser.ErrorsKeepElement | src/dicm-parser.c:241-320 | every error except invalid-tag leaves the data element unchanged |
| DicmParser.TagsIncrease | src/dicm-parser.c:291-293 | an accepted element has a tag strictly greater than the previous one, and a non-delimiter tag that is not greater gives out-of-order after 8 bytes |
| DicmParser.ItemsAndDelimiters | src/dicm-parser.c:269-289 | item start sets VR invalid and copies the VL, and skips a defined-length body; the two delimiters return their tokens after 8 bytes |
| DicmParser.ElementAdvance | src/dicm-parser.c:312-319 | a defined-length element advances by compute_len, and the token is file meta exactly for group 2 |
| Parser.ComputeLenAgrees | src/parser.c:55-61 | compute_len of parser.c agrees with that of dicm-parser.c |
| Parser.ReadExplicit1 | src/parser.c:69-91 | read_explicit1 returns the code and leaves the element as the decoding function says |
| Parser.ReadExplicit2 | src/parser.c:93-119 | read_explicit2 returns success and leaves the element as the decoding function says |
| Parser.Explicit1Outcomes | src/parser.c:69-91 | out of order exactly when the new tag is not greater; invalid VR exactly when a VR byte is not a capital; on error the element is unchanged; on success tag and VR are set and VL kept |
| Parser.Explicit2Outcomes | src/parser.c:93-119 | for a 32-bit VR, success exactly when the padding is zero, with the 4-byte VL; for a 16-bit VR the 2-byte VL zero-extended |
| DicmParserExp.Common | src/dicm-parser-exp.c:37-131 | a decoded header is the first 8 or 12 bytes of the input; an early result holding a header holds the first 8 bytes, all consumed |
| DicmParserExp.Header | src/dicm-parser-exp.c:61-131 | the same, once the first 8 bytes are read |
| DicmParserExp.ElementHeader | src/dicm-parser-exp.c:100-131 | a data element header is 8 bytes for a 16-bit VR and 12 otherwise, taken from the input |
| DicmParserExp.DefinedLengthEnds | src/dicm-parser-exp.c:48-58 | a completed defined-length item (or sequence) returns its delimitation token, resets its counters and consumes nothing |
| DicmParserExp.NotEnoughDataCases | src/dicm-parser-exp.c:61-62 | fewer than 8 bytes, or a 32-bit VR without its 4 VL bytes, gives not-enough-data with the counters kept |
| DicmParserExp.FragmentsAreCounted | src/dicm-parser-exp.c:64-71 | inside a sequence of fragments an item is the basic offset table first and a fragment after, and the counter goes up by one |
| DicmParserExp.DefinedItemOpens | src/dicm-parser-exp.c:72-82 | a defined-length item records its length and adds its 8 header bytes to a defined-length sequence |
| DicmParserExp.DelimiterCases | src/dicm-parser-exp.c:83-98 | a delimiter with non-zero VL is reserved-not-zero; inside fragments it ends them and resets the counter; otherwise the item or sequence delimitation token |
| DicmParserExp.BufferHoldsHeader | src/dicm-parser-exp.c:65-66 | the buffer holds exactly the header bytes consumed, 8 or 12 of them, and 12 only for a 32-bit VR |
| DicmParserExp.ClassificationOrder | src/dicm-parser-exp.c:130-167 | odd defined length first, then group 2, then encapsulated pixel data, then SQ, then group 8 and up, each with its counter update |
| DicmParserExp.ReservedMustBeZero | src/dicm-parser-exp.c:117 | a 32-bit VR with non-zero reserved bytes is refused after 8 bytes, counters kept |
| DicmParserExp.DataElementCounts | src/dicm-parser-exp.c:155-165 | a data element adds its header and value length to the defined-length item and sequence counters, and leaves undefined ones alone |
| DicmParserExp.FileMetaGroup | src/dicm-parser-exp.c:170-322 | read_fme ends the group and resets the lengths when the count is reached; (0002,0000) sets the group length from its value; other group-2 elements add compute_len |
| DicmParserExp.Dataset.constructor | src/dicm-parser-exp.c:48-58 | a new dataset is in the reset state: no defined-length item or sequence open (the resets change nothing), no fragments, no file meta group length, an empty buffer |
| DicmParserExp.Dataset.CopyHeader | src/dicm-parser-exp.c:65-66 | copies the header bytes into the buffer and sets bufsize |
| DicmParserExp.Dataset.ReadCommon | src/dicm-parser-exp.c:48-131 | the common part of read_explicit and read_fme, proved against Common |
| DicmParserExp.Dataset.ReadHeader | src/dicm-parser-exp.c:61-131 | decoding after the first 8 bytes, proved against Header |
| DicmParserExp.Dataset.ReadStartItem | src/dicm-parser-exp.c:64-82 | the item-tag branch, proved against its function |
| DicmParserExp.Dataset.ReadDelimiter | src/dicm-parser-exp.c:83-98 | the delimiter branch, proved against its function |
| DicmParserExp.Dataset.ReadElementHeader | src/dicm-parser-exp.c:100-131 | the VR and VL branch, proved against ElementHeader |
| DicmParserExp.Dataset.ClassifyInPlace | src/dicm-parser-exp.c:133-167 | the classification updates the counters as Classify says |
| DicmParserExp.Dataset.ReadExplicit | src/dicm-parser-exp.c:37-168 | read_explicit: result, counters, input consumed and buffer contents as the decoding function says |
| DicmParserExp.Dataset.ReadFme | src/dicm-parser-exp.c:170-322 | read_fme, proved the same way |
| DicmParserExp.Dataset.ReadFmeElement | src/dicm-parser-exp.c:274-286 | the group-2 element branch of read_fme |
| DicmReader.Fill | src/dicm.c:46 | a read of n bytes overwrites the first n bytes of the buffer and keeps the rest |
| DicmReader.HeaderStep | src/dicm.c:57-64 | reading a header consumes at least the bytes of the first read |
| DicmReader.HeaderTail | src/dicm.c:91-95 | and the rest of the header after the first read |
| DicmReader.EndInstanceAbsorbing | src/dicm.c:100-102 | next leaves the end state and the input unchanged |
| DicmReader.PreambleAndPrefix | src/dicm.c:42-54 | the first step reads up to 128 bytes to the preamble state, the next up to 4 bytes to the prefix state |
| DicmReader.MetaTransitions | src/dicm.c:56-84 | from the prefix, group 2 is the only way to the meta state; from the meta state, group 2 stays and group 8 and up goes to the data element state |
| DicmReader.ReadResult | examples/example1.c:22-35 | a counting back-end returns the count; the sentinel back-end returns (size_t)-1 exactly on a short read, which no count can equal |
| DicmReader.AsWrittenNeverEnds | src/dicm.c:86-98 | as written, over a read that returns its count, no step from any state but the end reaches the end state |
| DicmReader.AsWrittenDataElementStays | src/dicm.c:86-98 | as written, over a read that returns its count, the data element state steps to itself, on any input |
| DicmReader.SentinelAgrees | src/dicm.c:86-98 | as written, over the back-end that returns (size_t)-1 at the end of the file, every step is the corrected step |
| DicmReader.CorrectedEndsAtEndOfInput | src/dicm.c:86-89 | corrected, or as written with the sentinel back-end, a data element step with fewer than 6 bytes left ends the instance and reads them |
| DicmReader.DataElementStep | src/dicm.c:86-98 | corrected, or as written with the sentinel back-end, a data element step ends exactly on a short input and otherwise consumes at least 6 bytes |
| DicmReader.StreamReader.Init | src/dicm.c:19-28 | the start state, a zeroed buffer and tag 0 |
| DicmReader.StreamReader.HasNext | src/dicm.c:30-32 | true exactly when the state is not the end state |
| DicmReader.StreamReader.ReadInto | src/dicm.c:46 | a read fills the buffer from the input and advances the cursor by the count read |
| DicmReader.StreamReader.ReadHeader | src/dicm.c:57-64 | the header read of the prefix and meta states, proved against HeaderStep |
| DicmReader.StreamReader.ReadHeaderTail | src/dicm.c:91-95 | the header read after the first 6 bytes, proved against HeaderTail |
| DicmReader.StreamReader.Next | src/dicm.c:34-105 | next: the new state, element, buffer and cursor as the step function says, and it returns the stored state |
| DicmReader.StreamReader.GetDataElement | src/dicm.c:107-114 | kError and no copy outside the two element states, otherwise a copy and kSuccess |
| DicmReaderRuns.RunAbsorbing | src/dicm.c:100-102 | any number of steps from the end state stays there |
| DicmReaderRuns.AsWrittenHasNextForever | src/dicm.c:30-32 | as written, over a read that returns its count, hasnext stays true after any number of steps, on any input |
| DicmReaderRuns.CorrectedTerminates | src/dicm.c:86-104 | corrected, or as written with the sentinel back-end, more steps than there are bytes left always reach the end state |
| DicmItem.Ude2Attribute | src/dicm-item.c:118-137 | the tag, the VR, and the 16-bit VL for a 16-bit VR or the 32-bit VL otherwise |
| DicmItem.ItemReader.constructor | src/dicm-item.h:10-18 | a reader in the given state with the given attribute and value position 0 |
| DicmItem.ItemReader.NextImpl | src/dicm-item.c:145-197 | next_impl: state, attribute and input consumed as the header function says; the state and position fields are untouched |
| DicmItem.ItemReader.NextImpl2 | src/dicm-item.c:199-203 | resets the value position and returns the value state |
| DicmItem.ItemReader.Next | src/dicm-item.c:205-235 | next: the new reader as the step function says, and it returns the stored state |
| DicmItem.DelimitersClassify | src/dicm-item.c:164-170 | the three delimiter tags give start item, end item and end sequence after 8 bytes |
| DicmItem.ShortReadEndsModel | src/dicm-item.c:150-153 | fewer than 8 bytes gives the end of the model |
| DicmItem.AttributeHeaders | src/dicm-item.c:173-196 | another tag gives the attribute decoded by ude2attribute; 16-bit VRs read 8 bytes; others read 12 and SQ starts a sequence |
| DicmItem.Transitions | src/dicm-item.c:205-235 | start attribute goes to value; value goes to end attribute exactly when the position equals the VL; other states read a header |
| ItemArray.Array.Create | src/dicm-item.h:47-57 | size and capacity n, and no storage exactly when n is 0 |
| ItemArray.Array.At | src/dicm-item.h:61-65 | the element when the index is below the size, none otherwise |
| ItemArray.Array.PushBack | src/dicm-item.h:67-80 | contents grow by the pushed item at the end, size below capacity, capacity doubled to twice the size when full |
| ItemArray.Array.Back | src/dicm-item.h:82-85 | the last element |
| ItemArray.Array.PopBack | src/dicm-item.h:87-90 | needs a non-empty array; size down by one, storage and capacity untouched |
| ItemArray.PushThenPop | src/dicm-item.h:67-90 | a push then a pop gives back the same contents |
| DicmUde.TagBytes | src/dicm-writer.c:99-100 | the tag as written decodes back to the tag |
| DicmUde.AttributeBytes | src/dicm-writer.c:95-106 | 6 bytes for a 16-bit VR and 8 otherwise: tag, VR, and zero padding |
| DicmUde.LengthBytes | src/dicm-writer.c:108-125 | 2 bytes holding the length modulo 2^16 after a 16-bit VR, otherwise 4 bytes modulo 2^32 |
| DicmUde.StartItemFields | src/dicm-writer.c:145-155 | the start item header is the item tag with undefined length |
| DicmUde.EndItemFields | src/dicm-writer.c:156-166 | the end item header is the item delimitation tag with length 0 |
| DicmUde.EndSequenceFields | src/dicm-writer.c:177-187 | the end sequence header is the sequence delimitation tag with length 0 |
| DicmWriter.Writer.constructor | src/dicm-writer.c:76-85 | a writer on the given output |
| DicmWriter.Writer.WriteAttribute | src/dicm-writer.c:95-106 | appends the header bytes; 0 exactly when they all fit, and the VR size is recorded only then; 1 otherwise |
| DicmWriter.Writer.WriteValueLength | src/dicm-writer.c:108-125 | appends 2 or 4 length bytes after the last attribute's VR size; 1 on a short write |
| DicmWriter.Writer.WriteValue | src/dicm-writer.c:127-134 | appends the value bytes; 1 on a short write |
| DicmWriter.Writer.WriteFragment | src/dicm-writer.c:135-144 | appends only the 4-byte item tag |
| DicmWriter.Writer.WriteStartItem | src/dicm-writer.c:145-155 | appends the 8-byte item header with undefined length |
| DicmWriter.Writer.WriteEndItem | src/dicm-writer.c:156-166 | appends the 8-byte item delimitation |
| DicmWriter.Writer.WriteStartSequence | src/dicm-writer.c:167-176 | appends only a 4-byte undefined length |
| DicmWriter.Writer.WriteEndSequence | src/dicm-writer.c:177-187 | appends the 8-byte sequence delimitation |
| DicmWriter.Writer.WriteStartDataset | src/dicm-writer.c:188 | nothing written, 0 |
| DicmWriter.Writer.WriteEndDataset | src/dicm-writer.c:189 | nothing written, 0 |
| DicmWriter.ShortAttributeRoundTrip | src/dicm-writer.c:95-125 | a 16-bit-VR attribute written with its length reads back through the item reader as that attribute, 8 bytes |
| DicmWriter.LongAttributeRoundTrip | src/dicm-writer.c:95-125 | a 32-bit-VR attribute reads back as itself, 12 bytes, starting a sequence for SQ |
| DicmWriter.SequenceRoundTrip | src/dicm-writer.c:167-176 | an SQ attribute followed by start_sequence reads back as a sequence of undefined length |
| DicmWriter.StartItemRoundTrip | src/dicm-writer.c:145-155 | the start item header reads back as a start item |
| DicmWriter.EndItemRoundTrip | src/dicm-writer.c:156-166 | the end item header reads back as an end item |
| DicmWriter.EndSequenceRoundTrip | src/dicm-writer.c:177-187 | the end sequence header reads back as an end sequence |
| Uid.Base11 | src/dicm-uid.c:60-64 | a digit or dot maps to at most 0xA, and to 0xA exactly for the dot |
| Uid.InvBase11Base11 | src/dicm-uid.c:66-73 | invbase11 inverts base11 on digits and the dot |
| Uid.Pack | src/dicm-uid.c:57-58 | the packed byte's high and low nibbles are the two given |
| Uid.Packed | src/dicm-uid.c:75-103 | 32 bytes, each the packing of its pair of characters |
| Uid.Unpacked | src/dicm-uid.c:66-73 | 64 characters, the nibbles through invbase11 |
| Uid.UnpackPacked | src/dicm-uid.c:66-103 | unpacking a packed UID gives the string followed by NULs up to 64 |
| Uid.PackedPadding | src/dicm-uid.c:91-101 | an odd length ends with the 0xF terminator nibble, and the bytes after are 0xFF |
| Uid.PackedInjective | src/dicm-uid.c:75-103 | two UIDs with the same packing are equal |
| Uid.PackInto | src/dicm-uid.c:80-101 | the two loops fill the 32 bytes with the packing |
| Uid.UidBuffer.constructor | src/dicm-uid.c:33-37 | a 64-character buffer |
| Uid.UidBuffer.FromString | src/dicm-uid.c:39-47 | true exactly for a present string of at most 64 characters, which is copied over the front of the buffer; nothing changes otherwise |
| Uid.PackedUid.constructor | src/dicm-uid.c:53-55 | a 32-byte buffer |
| Uid.PackedUid.FromString | src/dicm-uid.c:75-103 | true exactly for a present string of at most 64 characters, which is packed; nothing changes otherwise |
| UidCxx.MakeUidString | uid.cxx:18-28 | the string followed by NULs for a present string of at most 64 characters, all NULs otherwise |
| UidCxx.AsWrittenEqualityInverted | uid.hxx:19-22 | as written, operator== is false for equal values and true exactly for different ones |
| UidCxx.Equal | uid.hxx:19-22 | corrected, equality holds exactly for equal buffers |
| UidCxx.EqualIffSameString | uid.cxx:18-28 | corrected, two UID strings made from C strings are equal exactly when the strings are |
| UidCxx.BcdOf | uid.cxx:57-89 | 32 bytes |
| UidCxx.MakeBcd | uid.cxx:57-89 | the loops of make_from_string compute BcdOf |
| UidCxx.ToArray | uid.cxx:48-55 | the loop decodes every nibble through invbase11 |
| UidCxx.BcdRoundTrip | uid.cxx:48-89 | to_array of make_from_string is the string followed by NULs up to 64 |
| UidCxx.PackedZeros | uid.cxx:57-89 | the 64-zero UID packs to all-zero bytes |
| UidCxx.UnpackedZero | uid.cxx:48-55 | all-zero bytes decode to 64 zero digits |
| UidCxx.RejectedLooksLikeZeros | uid.cxx:57-63 | a missing or too-long string gives the all-zero value, which is also the packing of the 64-zero UID |
| Vr.Letter | vr.cxx:133-134 | a byte plus 'A' is a character of one byte |
| Vr.Set | vr.hxx:74-82 | the value is (s[0] - 'A') * 256 + (s[1] - 'A'), each taken as a byte |
| Vr.ToArray | vr.cxx:125-137 | two one-byte characters |
| Vr.Equal | vr.hxx:100-103 | equal exactly when the values are |
| Vr.ToArraySet | vr.cxx:125-137 | to_array after set gives the two characters back |
| Vr.SetToArray | vr.hxx:74-82 | set after to_array gives the value back |
| Vr.SetOrder | vr.hxx:26-28 | for capitals the code is injective and follows lexicographic order |
| Vr.EnumeratorsAreNames | vr.hxx:28-60 | each of the 30 enum constants is set of its own name |
| Vr.EnumeratorsAscending | vr.cxx:71-102 | the enumerator table is strictly ascending |
| Vr.BinarySearch | vr.cxx:54-55 | on a strictly ascending table, found exactly when the value is in it |
| Vr.Check | vr.cxx:49-61 | the value when it is an enumerator, otherwise the error "invalid vr" |
| Vr.CheckBySearch | vr.cxx:49-61 | the binary search gives the result of Check |
| Vr.UnderlyingNames | vr.cxx:104-123 | underlying succeeds exactly for the 30 listed names |
| SandboxVr.MakeFromType | sandbox/vr.cxx:75-79 | the value, reduced modulo 2^16 |
| SandboxVr.MakeFromString | sandbox/vr.cxx:81-89 | the same code as set |
| SandboxVr.RoundTrip | sandbox/vr.cxx:63-73 | to_array of make_from_string gives the two characters back |
| SandboxVr.MakeFromTypeTruncates | sandbox/vr.cxx:75-79 | two values make the same VR exactly when they agree modulo 2^16 |
| SandboxVr.ZZIsInvalid | sandbox/testvr.cxx:7-11 | "ZZ" from the test list encodes to 6425 and underlying refuses it |
| Io.Source.Read | src/dicm-io.h:17-18 | the bytes left, at most as many as asked, and the cursor advances by their count |
| Io.Source.ReadExact | src/dicm-io.h:17-18 | the same, with 0 exactly when the whole count came |
| Io.Source.Seek | src/dicm-io.h:19-20 | the cursor moves forward by the offset |
| Io.Sink.Write | src/dicm-io.h:34-37 | appends what fits, and the count equals the length exactly when all of it fits |
| Io.ClipAppend | src/dicm-io.h:34-37 | two clipped writes in a row are one clipped write of both |
| TextIo.TextSink.Write | src/dicm-io.h:34-37 | the output is everything asked so far, cut at the capacity |
| TextIo.Formatted | examples/json.c:109-110 | snprintf into 512 bytes keeps at most 511 characters |
| TextIo.CString | examples/json.c:140-142 | what %s prints: the characters before the first NUL |
| TextIo.Hex4Value | examples/json.c:541-545 | the four %04X digits read back as the value |
| TextIo.NatDecimalValue | examples/json.c:328 | the decimal digits read back as the number |
| Words.LeValueOfBytes | examples/json.c:312-436 | storing a value least significant byte first and reading it back gives the value |
| Words.LeBytesOfValue | examples/json.c:312-436 | reading bytes and storing the value gives the bytes |
| Words.ToInteger | examples/json.c:312-436 | an element is its stored value, or that minus 2^(8w) when signed, within the signed range |
| Words.TwosComplement | examples/json.c:312-436 | a signed element modulo 2^(8w) is its stored value |
| Words.ReadElement | examples/json.c:317-330 | values[n] is the next element of the buffer |
| Words.Values | examples/json.c:315 | len / sizeof(T) elements |
| Words.ElementAt | examples/json.c:312-436 | element n is read from bytes n * w to n * w + w |
| WriterVr.VrName | examples/json.c:553-555 | "%.2s" prints at most two characters and no NUL |
| WriterVr.VrNameOfMakeVr | examples/json.c:553-555 | the name of a packed code is its two letters |
| WriterVr.IntegerFormat | examples/json.c:619-642 | the integer VRs have widths 2, 4 or 8 |
| Base64.Index | examples/json.c:491-494 | every character has a table index below 64 |
| Base64.IndexDigit | examples/json.c:491-494 | the index of the k-th table character is k |
| Base64.Group | examples/json.c:501-509 | each group of up to 3 bytes prints 4 characters |
| Base64.Groups | examples/json.c:501-518 | without separators, k groups print 4k characters |
| Base64.GroupsNext | examples/json.c:501-518 | the loop step: the next 3 bytes add one group |
| Base64.EncodeGroup | examples/json.c:502-509 | the body of the loop computes one group |
| Base64.EncodeLength | examples/json.c:485-489 | the encoding has base64_encoded_size characters, 4 per started group of 3 |
| Base64.EncodeAlphabet | examples/json.c:506-509 | every character is from the RFC 4648 alphabet, or '=' in the last group only |
| Base64.QuadAlphabet | examples/json.c:506-509 | the first two characters of a group are never '=', and the third and fourth are '=' exactly when bytes are missing |
| Base64.LastGroupLength | examples/json.c:501-504 | the last group holds len mod 3 bytes, or 3 |
| Base64.Padding | examples/json.c:508-509 | no '=' after whole groups, one after 2 leftover bytes, two after 1 |
| Base64.QuadRoundTrip | examples/json.c:502-509 | decoding a group gives its bytes |
| Base64.QuadOfGroup | examples/json.c:502-509 | decoding group i gives bytes i to i + n |
| Base64.DecodeGroups | examples/json.c:501-518 | decoding the first j groups gives the first 3j bytes |
| Base64.DecodeEncode | examples/json.c:496-518 | decoding the output gives the input back |
| Base64.GroupsPrefix | examples/xml.c:304-318 | fewer groups print a prefix of more groups |
| Base64.GroupsLength | examples/xml.c:304-318 | k groups with a line end each print k * (4 + line end) characters |
| Base64.LinesAreGroups | examples/xml.c:304-318 | line j of the XML output is group j |
| Base64.EncodeAppend | examples/json.c:496-518 | when the first part is a multiple of 3 bytes, the encoding of the whole is the two encodings joined |
| MultiValue.SizeDec | examples/json.c:252 | size_t decrement: one less, and 0 wraps to 2^64 - 1 |
| MultiValue.AsWrittenFailures | examples/json.c:249-254 | the trim as written goes out of bounds exactly for " ", " " then NUL, and NUL |
| MultiValue.AsWrittenWraps | examples/xml.c:144-149 | for " " and " " then NUL the length wraps to 2^64 - 1; for NUL it reads before the buffer |
| MultiValue.TrimSpan | examples/json.c:249-254 | corrected, the span starts at 0 or 1, lies inside the value and drops at most 3 characters |
| MultiValue.Trim | examples/json.c:249-254 | corrected, the trimmed value is no longer than the value |
| MultiValue.TrimBounds | examples/xml.c:144-149 | corrected trimming, the guarded steps computing the span of Trim |
| MultiValue.AsWrittenAgrees | examples/json.c:249-254 | wherever the trim as written stays in bounds, it gives the corrected span |
| MultiValue.TrimPadding | examples/json.c:249-254 | drops one leading space and one trailing space or NUL or both, and nothing from the value itself |
| MultiValue.Split | examples/xml.c:155-166 | at least one component |
| MultiValue.SplitSnocBackslash | examples/xml.c:156-162 | a backslash starts a new empty component |
| MultiValue.SplitSnocOther | examples/xml.c:163-165 | any other character extends the last component |
| MultiValue.SplitJoin | examples/json.c:260-282 | one component more than there are backslashes, none holding a backslash, and joining them with backslashes gives the value |
| Json.Indent | examples/json.c:104-121 | only spaces |
| Json.TagKey | examples/json.c:541-545 | the key is 13 characters |
| Json.TagKeyNamesTag | examples/json.c:541-545 | the key's eight hexadecimal digits read back as the tag |
| Json.Strip | examples/json.c:277-280 | a component printed with "%c" holds no NUL |
| Json.DropTrailingSpace | examples/json.c:233 | a prefix, at most one character shorter |
| Json.BodySnoc | examples/json.c:260-282 | one more character of the value prints one more character's text |
| Json.BodyIsJoin | examples/json.c:260-282 | the loop prints the components, NULs left out, joined by the separator |
| Json.SeparatedComponents | examples/json.c:244-287 | a non-empty trimmed value prints as its quoted components joined by a comma, line end and indentation |
| Json.NumbersSnoc | examples/json.c:312-436 | one more value adds a separator and the value in decimal |
| Json.NumbersCount | examples/json.c:312-436 | n values print n - 1 commas |
| Json.JsonWriter.constructor | examples/json.c:80-93 | pretty, no separator, level 0, no VR; the length is left as the allocation had it |
| Json.JsonWriter.WriteLine | examples/json.c:131-142 | appends the line; 0 exactly when it went out whole |
| Json.JsonWriter.PrintEol | examples/json.c:122-129 | a line end in pretty mode |
| Json.JsonWriter.PrintIndent | examples/json.c:116-121 | the indentation of the current level |
| Json.JsonWriter.PrintSeparator | examples/json.c:144-154 | the separator in pretty mode |
| Json.JsonWriter.PrintPreValue | examples/json.c:156-191 | opens the value and raises the level by the depth it opened |
| Json.JsonWriter.PrintPostValue | examples/json.c:193-216 | closes the value and lowers the level by that same depth |
| Json.JsonWriter.PrintComponentSeparator | examples/json.c:261-274 | what a backslash prints |
| Json.JsonWriter.PrintWithSeparator | examples/json.c:244-287 | with corrected trimming, prints SeparatedText |
| Json.JsonWriter.PrintBody | examples/json.c:260-282 | the loop prints the body of the trimmed value |
| Json.JsonWriter.PrintCharacter | examples/json.c:261-281 | one turn of the loop |
| Json.JsonWriter.PrintNoWhitespace | examples/json.c:224-242 | the value quoted, one trailing space dropped |
| Json.JsonWriter.PrintPersonName | examples/json.c:289-310 | the "Alphabetic" object, with the level restored |
| Json.JsonWriter.OpenPersonName | examples/json.c:293-299 | the opening, one level deeper |
| Json.JsonWriter.ClosePersonName | examples/json.c:305-309 | the closing, one level back |
| Json.JsonWriter.PrintValueSeparator | examples/json.c:318-323 | the separator between two numbers |
| Json.JsonWriter.PrintIntegers | examples/json.c:312-436 | the len / sizeof(T) values, separated; SL through %hu |
| Json.JsonWriter.PrintNumber | examples/json.c:317-330 | one turn of the integer loop |
| Json.JsonWriter.Base64Print | examples/json.c:496-518 | prints the base64 encoding of the data |
| Json.JsonWriter.PrintInlineBinary | examples/json.c:520-527 | base64 unless the length is undefined |
| Json.JsonWriter.WriteAttribute | examples/json.c:530-567 | the attribute text; separator ",\n"; VR and length stored; level up by one plus the value depth |
| Json.JsonWriter.PrintKey | examples/json.c:532-549 | the separator, indentation and key line |
| Json.JsonWriter.WriteValueLength | examples/json.c:569 | 0 |
| Json.JsonWriter.WriteValue | examples/json.c:571-671 | an empty value ends the line; otherwise the text for the stored VR; the state is unchanged |
| Json.JsonWriter.WriteFragment | examples/json.c:672 | 0 |
| Json.JsonWriter.StartItem | examples/json.c:673-684 | the item opening; separator cleared; level up by one |
| Json.JsonWriter.EndItem | examples/json.c:685-693 | the item closing; level down by one |
| Json.JsonWriter.StartSequence | examples/json.c:694-699 | separator cleared, nothing else changed |
| Json.JsonWriter.EndSequence | examples/json.c:700-714 | closes the array and the attribute; level down by two |
| Json.JsonWriter.StartDataset | examples/json.c:715-723 | the opening brace; level up by one |
| Json.JsonWriter.EndDataset | examples/json.c:724-733 | the closing brace; level down by one |
| Xml.LinesSnoc | examples/xml.c:127-129 | one more line appends it with its line end |
| Xml.AttributeLine | examples/xml.c:356-360 | the opening tag holds no NUL, so it goes out whole |
| Xml.HeadShape | examples/xml.c:357-360 | the opening tag fits the buffer and starts with the tag digits |
| Xml.AttributeLineTag | examples/xml.c:348-360 | the tag digits read back as the tag, or for a private tag as the group and the element's low byte |
| Xml.AttributeLinePrivate | examples/xml.c:351-355 | the privateCreator attribute is present exactly for private tags |
| Xml.ValueLine | examples/xml.c:158-159 | a value line holds no NUL |
| Xml.ValueLinesSnoc | examples/xml.c:155-166 | one more component adds the line numbered one more |
| Xml.ValueLinesNumbered | examples/xml.c:154-166 | the k-th line holds number k and the k-th component |
| Xml.EmittedComponents | examples/xml.c:155-172 | one line per backslash, plus one for the last component only when it is not empty |
| Xml.CompletedBackslash | examples/xml.c:156-162 | a backslash prints the component it ends |
| Xml.CompletedOther | examples/xml.c:163-165 | any other character prints nothing yet |
| Xml.Decimals | examples/xml.c:193-261 | one decimal per value |
| Xml.IntegerLine | examples/xml.c:197-199 | an element line holds its number and its value in decimal |
| Xml.ItemLine | examples/xml.c:481-483 | the item line holds no NUL |
| Xml.XmlWriter.constructor | examples/xml.c:83-98 | pretty, first attribute, item number 0, no VR; the length is left as the allocation had it |
| Xml.XmlWriter.PrintEol | examples/xml.c:108-116 | a line end in pretty mode; 1 when it did not go out |
| Xml.XmlWriter.WriteLine | examples/xml.c:118-129 | the line and its line end; 0 exactly when both went out whole |
| Xml.XmlWriter.PrintWithSeparator | examples/xml.c:140-174 | with corrected trimming, one numbered Value per component |
| Xml.XmlWriter.PrintComponents | examples/xml.c:155-166 | the loop over the trimmed characters |
| Xml.XmlWriter.EndComponents | examples/xml.c:167-172 | the last component, when not empty |
| Xml.XmlWriter.AddCharacter | examples/xml.c:156-165 | one turn of the loop |
| Xml.XmlWriter.PrintNoWhitespace | examples/xml.c:131-138 | one Value numbered 1 |
| Xml.XmlWriter.PrintPersonName | examples/xml.c:176-191 | the fixed person-name lines |
| Xml.XmlWriter.PrintIntegers | examples/xml.c:193-261 | len / sizeof(T) Value lines numbered 1 to n |
| Xml.XmlWriter.PrintInteger | examples/xml.c:197-200 | one turn of the integer loop |
| Xml.XmlWriter.Base64Print | examples/xml.c:299-319 | one line per base64 group |
| Xml.XmlWriter.PrintInlineBinary | examples/xml.c:321-328 | base64 unless the length is undefined |
| Xml.XmlWriter.WriteEndAttribute | examples/xml.c:330-336 | the closing tag unless first_attribute; 0 exactly when it went out |
| Xml.XmlWriter.WriteAttribute | examples/xml.c:339-368 | closing and opening tags; 0 exactly when they fit; then first_attribute cleared and VR and length stored; state kept otherwise |
| Xml.XmlWriter.WriteValueLength | examples/xml.c:470 | 0 |
| Xml.XmlWriter.WriteValue | examples/xml.c:370-469 | the text for the stored VR; nothing for an empty value |
| Xml.XmlWriter.WriteFragment | examples/xml.c:471-475 | the "fragment" line; 0 exactly when it fits |
| Xml.XmlWriter.StartItem | examples/xml.c:476-487 | item number up by one, first_attribute set, the numbered item line |
| Xml.XmlWriter.EndItem | examples/xml.c:488-496 | closes the last attribute, then the item |
| Xml.XmlWriter.StartSequence | examples/xml.c:497-501 | item number reset to 0 |
| Xml.XmlWriter.EndSequence | examples/xml.c:502-509 | closes the last attribute; on success item number 0 and first_attribute set |
| Xml.XmlWriter.WriteTwoLines | examples/xml.c:513-517 | two lines, the second skipped after a short first |
| Xml.XmlWriter.StartDataset | examples/xml.c:510-520 | the XML declaration and the model opening |
| Xml.XmlWriter.EndDataset | examples/xml.c:521-526 | the model closing |
| Dicm2Json.Len3Fits | examples/dicm2json.c:24-25 | len3 is 4095, a multiple of 3 within the buffer, and the largest such |
| Dicm2Json.ValueWritesShape | examples/dicm2json.c:40-45 | at least one write; every chunk at most len3; all but the last exactly len3; a chunk is empty only for an empty value |
| Dicm2Json.ValueWritesCount | examples/dicm2json.c:40-45 | one write for an empty value, otherwise the length over len3 rounded up |
| Dicm2Json.ValueWritesJoin | examples/dicm2json.c:36-45 | the chunks joined are the value |
| Dicm2Json.ChunkedBase64 | examples/dicm2json.c:23-25 | base64 of the chunks one after another is base64 of the whole value |
| Dicm2Json.ProcessValue | examples/dicm2json.c:35-46 | the do/while loop writes the length, then the chunks |
| Dicm2Json.ProcessWriter | examples/dicm2json.c:14-82 | one writer call, or the value calls, per event, in order |
| Dicm2Json.TranslateAppend | examples/dicm2json.c:27-81 | the calls for two streams in a row are those of the first, then the second |
| Dicm2Json.EventBytes | examples/dicm2json.c:35-46 | a value event writes its length and then exactly its bytes; an unknown event writes nothing |

## Left out

- Floating-point printing (`print_float`, `print_double` and `uselocale` in
  examples/json.c and examples/xml.c) is not modelled, because it
  depends on C floating point and locale formatting.
- Json.JsonWriter.WriteValue: requires that the VR is not FL or FD, because
  float printing is not modelled.
- Xml.XmlWriter.WriteValue: requires that the VR is not FL or FD, for the same reason.
- Exact `snprintf` formatting is modelled only as far as the writers need it:
  - `%04X`, `%d` and `%u` give the digits;
  - `%.2s` and `%s` stop at the first NUL;
  - everything goes through the 511-character cut of the 512-byte buffers.
  - `%hd`, `%ld` and `%lld` are modelled as the decimal of the integer.
- The XML `print_with_separator` copies a component into a 512-byte buffer
  without a bound (examples/xml.c:151-165). The model takes the component
  to be unbounded, so it does not show that overflow.
- `print_pre_value` and `print_post_value` copy `vl` into a `dicm_vr_t`
  local (examples/json.c:158, 195). That type's header is not part of this
  model, so the model tests the full 32-bit length for zero.
- The header that declares `dicm_vr_t`, `dicm_vr_get_string`,
  `dicm_vl_is_undefined` and `dicm_tag_is_private` is not part of this
  model. The model makes these assumptions:
  - the codes are the two letters packed as `MAKE_VR` packs them;
  - `VR_NONE` is 0;
  - a tag is private when its group is odd.
- Several helpers are called by the source but defined in files that are
  not part of this model. Each is modelled as follows:
  - `reset_defined_length_item` (called at src/dicm-parser-exp.c:50 and 190)
    marks the item length undefined and its count 0 (DicmParserExp.ResetItem).
  - `reset_defined_length_sequence` (called at src/dicm-parser-exp.c:55 and
    195) does the same for the sequence (DicmParserExp.ResetSequence).
  - `struct _dataset` (used throughout src/dicm-parser-exp.c) holds the
    counters the parser reads and writes, a buffer of at least 12 bytes and
    its size (DicmParserExp.Dataset).
  - `get_explicit2_len` (called at src/dicm.c:60, 75 and 92) asks for 6
    bytes after a 32-bit-length VR and 2 otherwise (Parser.Explicit2Len).
  - `_ude_init` (called at src/dicm-writer.c:99) fills the tag, the VR and,
    for a 32-bit-length VR, the 2 zero bytes, and returns whether the VR
    has a 16-bit length (DicmUde.AttributeBytes).
  - `isvr32` (called at src/parser.c:57 and 103) is `is_vr32` of
    src/dicm-parser.c.
- DicmParserExp.Dataset.constructor: the source never initialises a
  `struct _dataset` itself. The model starts from the reset state that
  src/dicm-parser-exp.c:50 and 55 establish, with no fragments
  (`sequenceoffragments` -1, as at line 91) and no file meta group length
  (as at lines 181-183).
- I/O back-ends, logging and allocation are not modelled, and failures of
  `malloc` and `realloc` are left out. Reads and writes are sequences, as
  described above.
- Json.JsonWriter.WriteLine returns 1 on a short write, but no JSON writer
  method looks at that result, as in the source. The JSON methods therefore
  return 0 whatever was cut.
- The Java drivers, the printf-only callback tables and the `main`
  functions are not modelled; they drive code outside this repository.
- `uid_string::to_array` (uid.cxx:13-16) is not modelled, because it passes
  an array where strncpy takes a length and does not compile as written.
- The `printf` of the unknown-event branch of `process_writer` is left out,
  and the `assert(0)` after it is modelled with release semantics: nothing
  is written.
- `dicm_reader_read_value` is modelled as delivering the next bytes of the
  value. Dicm2Json.ProcessWriter records the writer calls it makes instead of
  driving the JSON writer object. Dicm2Json.ChunkedBase64 connects the
  recorded chunks to the JSON base64 text.
- `print_simple` of examples/json.c is not modelled, because no writer
  method calls it. It only asserts 0.
- `print_at` is not modelled, because it prints nothing; AT values print no
  text in the model.
- A big-endian host (the SWAP macros of src/dicm-parser.c:33-53) is not
  modelled. The item reader refuses it at src/dicm-item.c:139-143.
- `src/parser.c` `read_explicit` (src/parser.c:121-132) is not modelled,
  because it ignores its helpers' results and has no return value.

## Findings

| source | as written | input that shows it | evidently intended | confidence | as-written member | corrected member |
|---|---|---|---|---|---|---|
| src/dicm.c:87-89 | the data element state ends only when `read` returns `(size_t)-1`. The read callback is documented to return the count it read (src/dicm-io.h:17-18), and a back-end that does so never reaches the end state. Only the file back-end of examples/example1.c:27-30 returns the sentinel. So the reader ends only over back-ends that break the documented contract | with a back-end that returns its count, the empty input in the data element state: the read returns 0, the state stays, and `dicm_sreader_hasnext` stays true | the end of the input ends the instance whatever the back-end: a short read of the 6 header bytes | not executed | DicmReaderRuns.AsWrittenHasNextForever | DicmReaderRuns.CorrectedTerminates |
| examples/json.c:249-254 | the trim of `print_with_separator` decrements `size_t len` unguarded (also examples/xml.c:144-149) | the value " " (or " " then NUL) makes `len` wrap to 2^64 - 1; the value NUL reads `str[-1]` | each trim step only when characters are left | not executed | MultiValue.AsWrittenFailures | MultiValue.AsWrittenAgrees |
| uid.hxx:19-22 | `operator==` returns `memcmp(...)` converted to bool, which is true when the buffers differ | any UID compared with itself gives false | true exactly when the 64 bytes are equal | not executed | UidCxx.AsWrittenEqualityInverted | UidCxx.EqualIffSameString |
