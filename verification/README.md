# Verified model of tansu

A Dafny model of four parts of tansu, a broker and proxy that speak the Apache Kafka protocol,
with proofs of what they promise.

**The codec.** A message is a tree of fields, each with a range of versions, a range in which it
is nullable and a kind. `Schema` has the tree, `Values` the values of the generated structures.
`Encoding` and `Decoding` say by recursion over the tree what is written and read, and `Frames`
adds size and header. The encoder and decoder themselves, in `Encoder` and `Decoder`, know no
tree: they are shown a value or asked for one member at a time (`Serde`), and find metadata by
name through a stack of lookups and, in the decoder, a table of structures (`Tables`). They are
proved to do what the recursion says. `RoundTrip` and `FrameRoundTrip` prove exactly which
messages and frames survive being written and read. `WireFormat` says in bytes what is written,
and `HeartbeatFrame` for the whole frame of one request. `RecordBlob` splits record blobs. Callers
hold public messages with tagged fields (`PublicMessages`); `Sending` turns them into frames with
tag buffers, makes room for them, sends and receives them. `Allocation` says exactly when that
room is enough, and `ApiVersions` for how many entries of one response it is.

**The produce batcher.** `Combining` merges record batches, `Merging` merges requests, `Produce`
splits replies, `Batcher` is the step system of all the tasks, `Custody` what holds in every run,
and `BatchService` the queue and response map with their locked sections.

**The consumer group member.** `Consumer` has the state machine and what holds in every run
against any broker.

**Schema walks.** `Avro` converts JSON to Avro and back, `FieldIds` numbers the fields of Avro and
JSON schemas, `IdOrder` has what a numbering promises, and `SchemaIds` and `FieldRoutes` what it
promises of the schemas themselves.

## What the proofs found

The two halves of the codec do not mirror each other. The well formed values, `MembersOk` in
`RoundTrip`, are exactly those that survive, and leave out: a nullable single structure that is
present; a null in a nullable byte string, and any null where the version has none; a nullable
sequence of texts that is not empty; a record frame that is empty, or that is not optional, as in
the fetch snapshot response; tag buffers of more than 128 tags or 128 bytes in one; and, inside a
single structure below the top level, which the decoder's table does not know, nulls, sequences,
and texts outside flexible versions. Tag buffers are always handed to the encoder; outside
flexible versions they are neither written nor read, and everything else comes back.

Merging batches moves a timestamp by twice the distance of the base timestamps, and repeats an
offset exactly where a batch ends at or above the start of a later one, as densely numbered
batches always do. A partition whose batches cannot be merged is sent without records.

The room computed for a frame, records included, always holds it outside flexible versions. In
flexible versions it does exactly if what short lengths save, and the room of tagged fields, set
or not, make up for the tag buffers and long lengths, which have no room of their own.

Field ids are exact unless two paths join to the same name, which takes a dot in a property name.

Where the documentation of a function and its code differ, the model follows the code.

## Assumptions

- Structure names are unique in a message, and the fields of a message are not named like those
  of a frame or its header; those of a message with records are not named like those of a record
  batch either (`ClearMessage`, `Findable`).
- Which bytes are UTF-8 is a parameter of the codec; encoding and decoding of texts is a
  parameter of the Avro conversion.
- Inflating and deflating a batch, the record count in a batch header, the assignors and the
  consumer metadata codec are parameters that may fail.
- Sums of offset and timestamp deltas wrap at 32 and 64 bits, as release builds do; builds with
  overflow checks abort instead.
- Tickets are fresh, and tasks are not cancelled.

## Model

| member | source | states |
|---|---|---|
| `Wire.VarintRoundTrip` | tansu-sans-io/src/ser.rs:208-218 | For every 32 bit value and any following bytes, reading what was written returns the value and leaves exactly those bytes. |
| `Wire.VarintShortest` | tansu-sans-io/src/de.rs:310-340 | Any bytes that decode to a value are at least as many as the encoder writes for it, so the written form is the shortest. |
| `Wire.VarintWithinSix` | tansu-sans-io/src/de.rs:310-340 | Six bytes always decide the outcome, and a value takes at most five of them. |
| `Wire.ShiftedFits` | tansu-sans-io/src/de.rs:319-333 | Adding a shifted group to the accumulator never exceeds 32 bits; of a fifth group only its low four bits count. |
| `WireFormat.Int64Format` | tansu-sans-io/src/ser.rs:364-367 | Every integer from -2^63 up to 2^63 can be sent, and no other, as eight bytes of two's complement with the most significant first. |
| `WireFormat.Int32Format` | tansu-sans-io/src/ser.rs:358-361 | The same with four bytes. |
| `WireFormat.Int16Format` | tansu-sans-io/src/ser.rs:321-355 | The same with two bytes. |
| `WireFormat.Int8Format` | tansu-sans-io/src/ser.rs:315-318 | The same with one byte. |
| `WireFormat.Uint16Format` | tansu-sans-io/src/ser.rs:376-379 | The same with two bytes and no sign. |
| `WireFormat.BoolFormat` | tansu-sans-io/src/ser.rs:309-312 | A boolean is one byte, 0 or 1. |
| `WireFormat.RawFormat` | tansu-sans-io/src/ser.rs:400-403 | A float is eight bytes and a uuid sixteen. |
| `WireFormat.VarintFormat` | tansu-sans-io/src/ser.rs:208-218 | A varint is one to five groups of seven bits, the least significant first and all but the last marked, spelled out for each length. |
| `WireFormat.TextFormat` | tansu-sans-io/src/ser.rs:411-440 | A text is a big-endian length of two bytes, or in flexible versions a varint of one more, and its bytes, and fails exactly when the length does not fit. |
| `WireFormat.BlobFormat` | tansu-sans-io/src/ser.rs:442-467 | The same for byte strings, with four bytes. |
| `WireFormat.ListFormat` | tansu-sans-io/src/ser.rs:631-648 | The same for the count of a sequence, with four bytes. |
| `WireFormat.ItemsFormat` | tansu-sans-io/src/ser.rs:715-732 | The elements of a sequence are written one after the other. |
| `WireFormat.NullFormat` | tansu-sans-io/src/ser.rs:469-505 | The null marker of every kind of field, in bytes. |
| `WireFormat.OutsideFormat` | tansu-sans-io/src/ser.rs:821-860 | A field outside the version is not written and read as none. |
| `WireFormat.StructFormat` | tansu-sans-io/src/ser.rs:821-860 | A structure is its members in order, and in flexible versions a tag buffer. |
| `WireFormat.BufferFormat` | tansu-sans-io/src/primitive/tagged.rs:213-238 | A tag buffer is the number of its tags and each of them, and written in flexible versions only. |
| `WireFormat.TagsFormat` | tansu-sans-io/src/primitive/tagged.rs:66-89 | A tag is its number, its size and its bytes. |
| `WireFormat.TagLimits` | tansu-sans-io/src/primitive/tagged.rs:287-291 | More than 128 tags, or more than 128 bytes in one, do not survive. |
| `WireFormat.SizeLimit` | tansu-sans-io/src/de.rs:669-672 | Anything of more than 2^30 bytes is refused, and nothing else for its size. |
| `WireFormat.LengthReads` | tansu-sans-io/src/de.rs:254-308 | A length of -1 is null where that is allowed, and any other negative one an error. |
| `WireFormat.CompactReads` | tansu-sans-io/src/de.rs:254-308 | A varint length of 0 is null where that is allowed, and an error elsewhere. |
| `WireFormat.FirstByteReads` | tansu-sans-io/src/de.rs:773-782 | Any byte but 0 is true, a negative byte is an absent structure, and a length of no records is none. |
| `WireFormat.BatchFormat` | tansu-sans-io/src/de.rs:1056-1093 | A batch is eight bytes of base offset, four of length, and as many bytes as that says, at least 49. |
| `WireFormat.RecordsFormat` | tansu-sans-io/src/ser.rs:508-578 | A present record frame is the length of its batches and the batches one after the other. |
| `WireFormat.RequestHeaderFormat` | tansu-sans-io/src/lib.rs:776-790 | Key, version, correlation id, client id with a two byte length in every version, and in flexible ones an empty tag buffer. |
| `WireFormat.ResponseHeaderFormat` | tansu-sans-io/src/lib.rs:790-796 | Size, correlation id and in flexible versions an empty tag buffer, which the response to key 18 never has. |
| `HeartbeatFrame.HeartbeatFormat` | tansu-sans-io/tests/encode.rs:3171-3198 | The whole frame of a heartbeat request in every version, byte for byte, for all ids, generations and client ids. |
| `Schema.MandatoryIsPresent` | tansu-model/src/lib.rs:254-272 | A field generated as not optional is in every version its parent is in. |
| `Schema.MandatoryIff` | tansu-model/src/lib.rs:261-272 | A range is mandatory under a parent exactly if it starts no later and ends with it, and without one exactly if it is every version. |
| `Tables.DistinctNamesAreFindable` | tansu-model/src/lib.rs:798-882 | When structure names are unique in a message, the decoder's table, built by pushing what is below a field before the field itself and leaving single structures below the top level out, resolves every structure it should and no other. |
| `RoundTrip.SurvivesIffWellFormed` | tansu-sans-io/src/de.rs:678-791 | For every schema tree, version, flexible or not, and every value of the generated type that can be encoded: decoding its encoding followed by any bytes returns that value and leaves those bytes, if and only if the value is well formed for the version. |
| `RoundTrip.ReturnsIffWellFormed` | tansu-sans-io/src/ser.rs:519-520 | With the tag buffers that are always handed to the encoder: the message comes back without those its version has none of, if and only if what comes back is well formed. |
| `RoundTrip.MembersRoundTrip` | tansu-sans-io/src/de.rs:1414-1442 | Every well formed list of members is written without failure and read back exactly, members outside the version as none. |
| `RoundTrip.MembersCost` | tansu-sans-io/src/de.rs:922-979 | Whatever bytes decode to a list of members, they are at least as many as its encoding, and exactly as many only if the members are well formed. |
| `RoundTrip.ElemRoundTrip` | tansu-sans-io/src/ser.rs:411-467 | One element of any kind, followed by any bytes, is read back exactly. |
| `RoundTrip.JustRoundTrip` | tansu-sans-io/src/de.rs:678-791 | A present optional value that is well formed is read back as present, for each kind and nullability. |
| `RoundTrip.NullRoundTrip` | tansu-sans-io/src/ser.rs:469-505 | An absent value that is well formed is read back as absent: the null marker written is the one the decoder looks for. |
| `RoundTrip.ListRoundTrip` | tansu-sans-io/src/de.rs:839-884 | A well formed sequence is read back with the length and the elements it was written with. |
| `RoundTrip.OptionCost` | tansu-sans-io/src/de.rs:678-791 | Whatever an optional field decodes to, it took at least the bytes that encode it, and no more only if it is well formed. |
| `RoundTrip.TagsRoundTrip` | tansu-sans-io/src/primitive/tagged.rs:240-310 | A tag buffer of at most 128 tags, each of at most 128 bytes, is read back exactly in flexible versions, and no tag buffer in the others. |
| `RoundTrip.TagListCost` | tansu-sans-io/src/primitive/tagged.rs:91-146 | Tags that decode took at least the bytes that encode them. |
| `RoundTrip.WellFormedIsPrefixFree` | tansu-sans-io/src/ser.rs:821-860 | No encoding of a well formed message starts another: equal concatenations have equal messages and equal remainders. |
| `RoundTrip.PresentCursorIsLost` | tansu-sans-io/src/ser.rs:508-578 | A nullable single structure that is present never survives: no presence byte is written, and one is read. |
| `RoundTrip.ConfigurationKeysAreLost` | tansu-sans-io/src/de.rs:254-308 | A nullable sequence of texts that is not empty never survives, in any version: the lengths of its texts are not read. |
| `RoundTrip.UnalignedRecordsAreLost` | tansu-sans-io/src/de.rs:839-884 | A record frame that is not optional never survives: neither its length nor its record data is written, and a sequence without a length is read. |
| `RoundTrip.UntaggedMembers` | tansu-sans-io/src/ser.rs:519-520 | Outside flexible versions a message is written the same with tag buffers as without. |
| `RecordBlob.SplitIsExact` | tansu-sans-io/src/de.rs:1056-1093 | A blob that splits gives well formed batches whose concatenation is the blob, byte for byte. |
| `RecordBlob.SplitOfConcatenation` | tansu-sans-io/src/de.rs:1056-1093 | Splitting a concatenation of well formed batches returns those batches. |
| `RecordBlob.BatchReader.NextElement` | tansu-sans-io/src/de.rs:1059-1093 | Each step takes one batch off the front of what is left, or ends, or fails; the remaining length falls. |
| `RecordBlob.BatchReader.Collect` | tansu-sans-io/src/de.rs:1056-1093 | Draining the reader gives exactly the split of the blob, or its first failure. |
| `Encoder.Encoder.UnsignedVarint` | tansu-sans-io/src/ser.rs:208-218 | The loop appends exactly the base 128 groups of the value. |
| `Encoder.Encoder.SerializeStr` | tansu-sans-io/src/ser.rs:411-440 | A text is appended with the length its version calls for, or not at all when it is too long. |
| `Encoder.Encoder.SerializeBytes` | tansu-sans-io/src/ser.rs:442-467 | A byte string is appended with the length its version calls for. |
| `Encoder.Encoder.SerializeNone` | tansu-sans-io/src/ser.rs:469-505 | The null marker appended depends on nullability, kind and version of the current field. |
| `Encoder.Encoder.SerializeSome` | tansu-sans-io/src/ser.rs:508-578 | A present value appends what the schema says for it; record frames are written as one byte string. |
| `Encoder.Encoder.SerializeTagMember` | tansu-sans-io/src/ser.rs:519-520 | The tag buffer that ends a structure is appended in flexible versions and skipped in the others. |
| `Encoder.Encoder.SerializeFrame` | tansu-sans-io/src/ser.rs:631-648 | A record frame outside an option has no metadata for its members: the fixed fields of its batches are appended, but neither their number nor their record data. |
| `Encoder.Encoder.SerializeSeq` | tansu-sans-io/src/ser.rs:631-648 | The length of a sequence in the form its version calls for. |
| `Encoder.Encoder.SerializeTags` | tansu-sans-io/src/primitive/tagged.rs:240-258 | The loop appends the number of tags and then every tag. |
| `Encoder.Encoder.BeginField` | tansu-sans-io/src/ser.rs:824-853 | The metadata held becomes that found under the name in the innermost lookup, else in the message, and the field's own lookup goes on the stack. |
| `Encoder.Encoder.Serialize` | tansu-sans-io/src/ser.rs:681-696 | Walking a value with the registers alone appends what the schema tree prescribes, and leaves stack, containers and message as they were. |
| `Encoder.Encoder.SerializeItems` | tansu-sans-io/src/ser.rs:721-731 | The elements are appended in order although the metadata is gone between structures. |
| `Encoder.Encoder.SerializeMembers` | tansu-sans-io/src/ser.rs:824-858 | At every member the metadata found by name is that of the member in the schema tree; the result is the encoding of the structure. |
| `Encoder.Encoder.SerializeRequestHeader` | tansu-sans-io/src/ser.rs:321-355 | The header is written as prescribed, the api key makes the message known, and the lookup it pushes is popped in place of another, leaving a stale empty one behind. |
| `Encoder.Encoder.SerializeBody` | tansu-sans-io/src/ser.rs:866-900 | Despite the stale lookup the body is written as the schema tree prescribes. |
| `Encoder.Encoder.SerializeRequest` | tansu-sans-io/src/ser.rs:132-142 | A whole request frame refines the schema-directed encoding. |
| `Encoder.Encoder.SerializeResponse` | tansu-sans-io/src/ser.rs:144-166 | A whole response frame refines the schema-directed encoding. |
| `Decoder.Decoder.UnsignedVarint` | tansu-sans-io/src/de.rs:310-340 | The loop reads exactly what the recursive reading of a varint does, within six bytes. |
| `Decoder.Decoder.ReadMandatoryNonNullableLength` | tansu-sans-io/src/de.rs:254-308 | A length is read and carried exactly for the fields that need one here. |
| `Decoder.Decoder.DeserializeString` | tansu-sans-io/src/de.rs:593-625 | A text takes the carried length, or reads its own; no length stays behind. |
| `Decoder.Decoder.DeserializeByteBuf` | tansu-sans-io/src/de.rs:650-676 | A byte string reads its own length in the form of its version. |
| `Decoder.Decoder.ReadPresence` | tansu-sans-io/src/de.rs:678-791 | Presence is decided by version, kind and nullability; when something is present its length, if any, is carried. |
| `Decoder.Decoder.DeserializeOption` | tansu-sans-io/src/de.rs:678-791 | An optional field reads as prescribed for its place, and carries no length on. |
| `Decoder.Decoder.Deserialize` | tansu-sans-io/src/de.rs:922-979 | Reading a value with the registers alone reads what the schema tree prescribes. |
| `Decoder.Decoder.DeserializeSeq` | tansu-sans-io/src/de.rs:839-884 | A sequence reads its length, or takes the one carried, and then so many elements. |
| `Decoder.Decoder.VisitMembers` | tansu-sans-io/src/de.rs:1414-1442 | At every member the metadata held is that of the member in the schema tree wherever the name table reaches; the carried length is empty at every member boundary and the stacks are restored. |
| `Decoder.Decoder.DeserializeRequestHeader` | tansu-sans-io/src/de.rs:391-435 | The header reads as prescribed and makes message, version and name table known. |
| `Decoder.Decoder.DeserializeRequest` | tansu-sans-io/src/de.rs:134-149 | A whole request frame refines the schema-directed decoding, failures included. |
| `Decoder.Decoder.DeserializeResponse` | tansu-sans-io/src/de.rs:151-180 | A whole response frame refines the schema-directed decoding, failures included. |
| `FrameRoundTrip.RequestSurvivesIffWellFormed` | tansu-sans-io/src/lib.rs:568-597 | A request frame with its header is read back exactly, whatever follows, if and only if header and body are well formed. |
| `FrameRoundTrip.ResponseSurvivesIffWellFormed` | tansu-sans-io/src/lib.rs:601-628 | The same for responses, whose header has no tag buffer for the version query itself. |
| `FrameRoundTrip.RequestReturnsIffWellFormed` | tansu-sans-io/src/lib.rs:568-597 | A request frame with the tag buffers always handed to the encoder comes back, whatever follows, without those its version has none of, if and only if what comes back is well formed. |
| `FrameRoundTrip.ResponseReturnsIffWellFormed` | tansu-sans-io/src/lib.rs:601-628 | The same for responses. |
| `Sending.FixLength` | tansu-sans-io/src/lib.rs:550-557 | The first four bytes become the number of bytes after them, all other bytes stay, and it fails exactly when that number does not fit. |
| `PublicMessages.BufferIsOfVersion` | tansu-sans-io/build.rs:407-428 | The tag buffer of a message holds exactly its tagged fields that are set, in the version and encodable. |
| `PublicMessages.IntoVersionKeeps` | tansu-sans-io/src/lib.rs:573-577 | Fitting a message to a version changes nothing but its tag buffer. |
| `Sending.SendRequest` | tansu-sans-io/src/lib.rs:568-586 | A public message is fitted to its version, its tagged fields turned into tag buffers, and what is sent is the prescribed encoding with its true size in front; it takes no more than the room made for it if and only if the room of its tagged fields holds its excess, as it always does outside flexible versions. |
| `Sending.SendResponse` | tansu-sans-io/src/lib.rs:601-617 | The same for responses. |
| `Sending.ReceiveRequest` | tansu-sans-io/src/lib.rs:588-597 | What is received is the prescribed decoding. |
| `Sending.ReceiveResponse` | tansu-sans-io/src/lib.rs:619-628 | The same for responses, under the key and version the caller knows. |
| `Sending.SendThenReceive` | tansu-sans-io/src/lib.rs:568-597 | A public request encoded by one machine and decoded by the other is received as it was encoded, but for tag buffers its version has none of, if and only if the rest of it is well formed. |
| `Sending.SendThenReceiveResponse` | tansu-sans-io/src/lib.rs:601-628 | The same for responses. |
| `Allocation.RequestFitsIff` | tansu-sans-io/src/lib.rs:541-548 | A request frame is longer than the room computed for the public message by exactly its excess, summed over lengths, tag buffers, null markers and fields outside the version, less the room of its tagged fields at any depth; so it fits if and only if that room holds the excess. |
| `Allocation.ResponseFitsIff` | tansu-sans-io/src/lib.rs:713-728 | The same for response frames. |
| `Allocation.StructSize` | tansu-sans-io/build.rs:793-817 | What is written for a structure, tag buffer included, is the room summed over all its fields, tagged ones too, and its excess less the room of the tagged fields, byte for byte. |
| `Allocation.MembersSpaceSplits` | tansu-sans-io/build.rs:793-817 | The room of the members of a public structure is that of what is written in place and that of the tagged fields within. |
| `Allocation.MembersSize` | tansu-sans-io/build.rs:793-817 | What is written in place for the members of a structure is their room and their excess, byte for byte. |
| `Allocation.RequestFits` | tansu-sans-io/src/lib.rs:541-548 | Outside flexible versions every request frame fits, records included. |
| `Allocation.ResponseFits` | tansu-sans-io/src/lib.rs:713-728 | The same for response frames. |
| `Allocation.MembersFit` | tansu-sans-io/build.rs:793-817 | Outside flexible versions no structure is in excess of its room. |
| `Allocation.RoomIsTight` | tansu-sans-io/src/lib.rs:171-241 | Nor is there room to spare for numbers, texts, byte strings and sequences of them. |
| `Allocation.FlexibleRequestOverflows` | tansu-sans-io/src/lib.rs:541-548 | In flexible versions a request may be too long: one without fields is, by its two empty tag buffers. |
| `Allocation.FlexibleRequestFits` | tansu-sans-io/src/lib.rs:231-241 | And it may fit: a request with one empty sequence is written, in one byte less than its room, as the length saves more than the tag buffers take. |
| `ApiVersions.EighteenApisFit` | tansu-sans-io/message/ApiVersionsResponse.json:35-77 | The flexible response to an API versions request, its four tagged fields unset but given room, is written for any number of entries and fits if and only if there are at most eighteen. |
| `Combining.Combine` | tansu-proxy/src/produce.rs:626-664 | The loop computes the merge in closed form: every batch moved by the last offset deltas before it and by the base timestamps' distance, the totals wrapped to 32 and 64 bits; the first failure is returned. |
| `Combining.AppendTo` | tansu-proxy/src/produce.rs:637-652 | One batch appended to the sink, record by record. |
| `Combining.MergedGrows` | tansu-proxy/src/produce.rs:635-652 | Folding batch after batch with wrapped running totals gives the closed form with true totals. |
| `Combining.OffsetsShift` | tansu-proxy/src/produce.rs:642-643 | The offset delta of each record is shifted by the sum of the last offset deltas of the earlier batches. |
| `Combining.MergedRises` | tansu-proxy/src/produce.rs:629-653 | Batches in offset order merge into a batch in offset order that ends at its last offset delta, strictly if each is strict and stops short of its own, as long as the total fits 32 bits. |
| `Combining.StrictIffAllMeet` | tansu-proxy/src/produce.rs:642-651 | Batches in offset order merge without repeating an offset if and only if each repeats none and every earlier batch ends, where merging puts it, below where every later one starts. |
| `Combining.DenseBatchesCollide` | tansu-proxy/src/produce.rs:642-651 | Two or more batches numbered 0, 1, 2 and so on never merge without repeating an offset. |
| `Combining.DenseOffsetsRepeat` | tansu-proxy/src/produce.rs:642-651 | The first record of each later such batch repeats the offset before it. |
| `Combining.TimestampsMoveTwice` | tansu-proxy/src/produce.rs:644-645 | A record's timestamp moves by twice the distance between the first base timestamp and its own batch's, so it is kept if and only if the two agree, or lie half the 64 bit range apart and the sum wraps. |
| `Combining.LatestIsMaximum` | tansu-proxy/src/produce.rs:652-652 | The final max timestamp is the maximum over all the batches. |
| `Combining.MergedHeader` | tansu-proxy/src/produce.rs:626-664 | The merged batch has the greatest max timestamp of all, as many records as all together, the sum of the last offset deltas while that fits, and otherwise the header of the first. |
| `Combining.TotalsAdd` | tansu-proxy/src/produce.rs:651-651 | The totals of last offset deltas and records add up over batches. |
| `Combining.BodyStays` | tansu-proxy/src/produce.rs:636-646 | Every record is found in the merged batch at its place with the body it had. |
| `Combining.GatheredKeepsBodies` | tansu-proxy/src/produce.rs:637-649 | Attributes, keys, values and headers come out in the order they went in, none lost or repeated. |
| `Combining.CombinedKeepsBodies` | tansu-proxy/src/produce.rs:626-664 | What comes out of a successful merge inflates to the bodies that went in. |
| `Produce.OwnersFrom` | tansu-proxy/src/produce.rs:425-453 | The nested loops give, for each topic partition, the set of callers that claim it. |
| `Produce.ClaimsAreNames` | tansu-proxy/src/produce.rs:431-449 | A caller claims a topic partition exactly if its request names it, in any topic list and with or without records. |
| `Produce.SplitReply` | tansu-proxy/src/produce.rs:456-502 | The nested loops give each owner the last entry of the reply for each topic partition it named, with throttle time and endpoints. |
| `Produce.MergeThenSplit` | tansu-proxy/src/produce.rs:425-502 | A caller is answered exactly if the reply covers something it named, and then with those partitions and no others, each with the entry at the last place of the reply that is about it. |
| `Produce.AnswerHoldsTheEntry` | tansu-proxy/src/produce.rs:459-484 | When one place of the reply is about a topic partition, everyone who named that holds the entry of that place as it is. |
| `Produce.HeldIsOfReply` | tansu-proxy/src/produce.rs:459-484 | Whatever anyone holds is an entry of the reply, under the topic and index it has there. |
| `Produce.OnlyCallersAnswered` | tansu-proxy/src/produce.rs:456-502 | Nobody is answered who is not in the batch. |
| `Merging.MergeRequests` | tansu-proxy/src/produce.rs:549-624 | The merged request has one frame for each topic partition that carries records, merged from its batches in order of arrival. |
| `Merging.FramesAreCarried` | tansu-proxy/src/produce.rs:549-578 | The merged request has a frame for exactly the topic partitions that a part of some request carries records for, asks for no acks and has five seconds. |
| `Merging.ArrivesAsSent` | tansu-proxy/src/produce.rs:552-572 | The batches for a topic partition are those of the requests' own parts, request after request, topic after topic, part after part. |
| `Merging.MergeConserves` | tansu-proxy/src/produce.rs:549-664 | Of what the requests' own parts send for a topic partition: a single batch is sent on as it is; of several that inflate, all records are carried in that order exactly when their merge deflates or there was none to carry; of several that do not all inflate, none. |
| `Merging.FailedMergeSendsNothing` | tansu-proxy/src/produce.rs:607-624 | When one of several batches does not inflate, the partition is sent empty and its records are lost. |
| `Batcher.StepKeeps` | tansu-proxy/src/produce.rs:160-252 | Every step of every task keeps the whole invariant: requests are genuine, sent at most once, each open call is driven by one task, and answers held are exactly those replies gave. |
| `Batcher.RunKeeps` | tansu-proxy/src/produce.rs:286-382 | So does every run of any tasks in any interleaving. |
| `Batcher.ReplyKeeps` | tansu-proxy/src/produce.rs:209-251 | A reply shared out while other tasks poll, wait and drain keeps the invariant. |
| `Batcher.OpenHoldsNothing` | tansu-proxy/src/produce.rs:187-207 | While a batch is with the origin nobody in it holds an answer. |
| `Custody.ExactlyOnePlace` | tansu-proxy/src/produce.rs:160-252 | An accepted request is in exactly one place: queued, in flight, answered in the map, returned, or dropped; dropped only if its call failed or the reply covers nothing it names. |
| `Custody.CustodyInEveryRun` | tansu-proxy/src/produce.rs:286-382 | That holds in every run, where each request is also sent at most once and what is sent is the merge of its batch. |
| `Custody.AnsweredIffCovered` | tansu-proxy/src/produce.rs:209-251 | Whoever is in a call is answered exactly if the reply covers something they named, and fairly. |
| `Custody.ArrivalOrderKept` | tansu-proxy/src/produce.rs:315-330 | In every run, what was sent on, call after call, and what still waits is what was handed in, in that order. |
| `Batcher.ChecksRecords` | tansu-proxy/src/produce.rs:334-349 | A caller drains exactly if the records in all the waiting batches, as the header of each counts them, reach its limit. |
| `Batcher.CountedAdds` | tansu-proxy/src/produce.rs:334-349 | Records are counted batch by batch. |
| `Custody.SenderGoesOn` | tansu-proxy/src/produce.rs:349-379 | Left without an answer, a task waits if it sent on overflow, and starts over if on a timeout. |
| `Custody.TimeoutDrains` | tansu-proxy/src/produce.rs:371-379 | A task whose wait timed out drains the queue whatever its size. |
| `Custody.StoredAnswerKept` | tansu-proxy/src/produce.rs:699-720 | No step overwrites a stored answer; only its own ticket takes it out, and returns it. |
| `Custody.AnswerStays` | tansu-proxy/src/produce.rs:209-251 | However a run goes on, an answer once given is in the map or with its caller. |
| `Custody.DroppedForGood` | tansu-proxy/src/produce.rs:190-207 | However a run goes on, a request that was dropped stays dropped. |
| `Custody.DeliveryInEveryRun` | tansu-proxy/src/produce.rs:351-379 | What a caller is given is, for the request it handed in, its share of the reply to the one call that carried it. |
| `Custody.AnswersAreReached` | tansu-proxy/src/produce.rs:209-251 | There is a run in which one caller sends for two, is answered at once, and leaves the other's answer in the map. |
| `Custody.DropsAreReached` | tansu-proxy/src/produce.rs:190-207 | There is a run in which a failed call drops both. |
| `BatchService.BatchProduceService.Push` | tansu-proxy/src/produce.rs:317-328 | Queueing a request is the step of that name on queue and response map. |
| `BatchService.BatchProduceService.IsFull` | tansu-proxy/src/produce.rs:334-349 | The records waiting are counted over all queued requests and compared with the caller's limit; nothing is taken. |
| `BatchService.BatchProduceService.TakePending` | tansu-proxy/src/produce.rs:174-188 | The whole queue is taken at once; nothing is sent when it was empty, otherwise the merge of exactly what was taken. |
| `BatchService.BatchProduceService.ShareOut` | tansu-proxy/src/produce.rs:219-251 | All answers but the sender's own are stored; its own is taken out of the map and returned. |
| `BatchService.BatchProduceService.Deliver` | tansu-proxy/src/produce.rs:209-251 | Sharing out a reply is the reply step, and returns the sender's own part if it has one. |
| `BatchService.BatchProduceService.Poll` | tansu-proxy/src/produce.rs:699-720 | A poll takes an answer, drops a waker it finds, or leaves one, and is the step of that name. |
| `Consumer.GroupConsumer.NextAction` | tansu-sans-io/src/consumer.rs:648-996 | The state, the action and the error counters after each input, with none at the start; unknown combinations fall through and count nothing. |
| `Consumer.GroupConsumer.JoinProtocols` | tansu-sans-io/src/consumer.rs:615-626 | One protocol for each assignor in order of preference, all with the same subscription. |
| `Consumer.AssignorNamed` | tansu-sans-io/src/consumer.rs:748-754 | The assignor of that name, or the range assignor when there is none. |
| `Consumer.OutsiderJoins` | tansu-sans-io/src/consumer.rs:648-996 | In every run the member is outside the group exactly when its last action was a join request. |
| `Consumer.Progress` | tansu-sans-io/src/consumer.rs:648-996 | In every run in which the broker answers each request with its own kind of response and a handled code, and the member is asked to act without one only outside the group, the fall-through case and failed assertions are never reached, failed library calls and retries included. |
| `Consumer.RequestsFollowProtocol` | tansu-sans-io/src/consumer.rs:723-990 | A sync request follows exactly a successful join, with the assignments of the assignor it names for a leader and none for a follower; a heartbeat follows exactly a successful sync or heartbeat. |
| `Consumer.CountersAddUp` | tansu-sans-io/src/consumer.rs:700-990 | The counters hold, code by code, the responses consumed, and add up to their number. |
| `Consumer.GoesByLastAdmission` | tansu-sans-io/src/consumer.rs:723-809 | Inside the group the member goes by generation and member id of the latest successful join, and leads exactly if that join named it leader. |
| `Consumer.RequestsCarryIdentity` | tansu-sans-io/src/consumer.rs:813-990 | Every sync and heartbeat request carries that pair, and only a named leader sends assignments. |
| `Consumer.JoinsCarryIdentity` | tansu-sans-io/src/consumer.rs:626-721 | Every request is under the member id the broker last gave out, unless it has disowned the member since. |
| `Consumer.StandingIsLatest` | tansu-sans-io/src/consumer.rs:829-966 | The standing assignment is that of the successful sync that no join, sync or unknown-member heartbeat has superseded. |
| `Consumer.JoinsOwnStanding` | tansu-sans-io/src/consumer.rs:578-646 | Every join request, retries included, owns the partitions of the standing assignment, and none otherwise, in the version of that assignment and from the generation last known. |
| `Consumer.JoinsCarryConfig` | tansu-sans-io/src/consumer.rs:626-646 | Every join request of every run is for the member's own group, with its own timeouts, and says why it is made. |
| `Consumer.JoinsOfferAssignors` | tansu-sans-io/src/consumer.rs:615-624 | It offers range, roundrobin, uniform and cooperative-sticky, in that order. |
| `Consumer.CodesDecide` | tansu-sans-io/src/consumer.rs:648-996 | Code by code: 0 lets a member in or keeps it there, 16 and 79 keep it outside, 25 and 27 send it back to join, and no other is handled. |
| `Avro.ConvertsIffSuits` | tansu-schema/src/avro.rs:365-505 | JSON converts under a schema if and only if it has the form the schema asks for at every depth: numbers in range, known symbols, and for a record a member for every field, whatever other members there are. |
| `Avro.ConvertedConforms` | tansu-schema/src/avro.rs:365-505 | Whatever converts from JSON conforms to the schema. |
| `Avro.JsonComesBackPruned` | tansu-schema/src/avro.rs:545-613 | Converted back it is the input, with members no record names removed at every depth. |
| `Avro.PrunedKeepsFields` | tansu-schema/src/avro.rs:481-498 | Of an object read as a record exactly the members that some field names are kept. |
| `Avro.PrunedByField` | tansu-schema/src/avro.rs:481-498 | And each of them is pruned by the schema of its field. |
| `Avro.ValueComesBackIffTextual` | tansu-schema/src/avro.rs:545-613 | A conforming value survives the way to JSON and back if and only if its bytes are UTF-8 texts and its enum indexes the first of their symbols, at every depth. |
| `FieldIds.AvroIds` | tansu-schema/src/avro.rs:263-325 | The walk gives consecutive ids, all fields of a record before anything below them, and returns the next free id. |
| `FieldIds.JsonIds` | tansu-schema/src/json.rs:175-214 | The walk gives consecutive ids, each property followed by what is below it, and returns the next free id. |
| `FieldIds.MessageIds` | tansu-schema/src/json.rs:174-244 | The message kinds present are numbered first, then what is below each of them. |
| `IdOrder.IdsAreOfPaths` | tansu-schema/src/avro.rs:260-328 | Every id lies between the start and the final counter, and is that of a path which joins to its name. |
| `IdOrder.DistinctNamesDistinctIds` | tansu-schema/src/avro.rs:260-328 | Different joined paths have different ids, whatever the names. |
| `IdOrder.GaplessIffApart` | tansu-schema/src/json.rs:174-244 | The ids leave no gap if and only if no two paths join to the same name. |
| `IdOrder.WalkInOrder` | tansu-schema/src/json.rs:175-214 | In every order of walking no path comes twice, and none before one it is under. |
| `IdOrder.JoinApartIfDotless` | tansu-schema/src/avro.rs:274-276 | Names without dots can be told apart after joining. |
| `IdOrder.NodesAreNumbered` | tansu-schema/src/avro.rs:263-325 | Every field below the root gets an id. |
| `IdOrder.NumberedAreNodes` | tansu-schema/src/avro.rs:263-325 | Nothing else gets one. |
| `IdOrder.ExactIffApart` | tansu-schema/src/json.rs:174-244 | Whatever the names: the ids are 1 to n, one for each field, different fields have different ids and a field's id is below those under it, if and only if no two paths join to the same name. |
| `FieldRoutes.NodesAreFields` | tansu-schema/src/avro.rs:263-325 | What is numbered of an Avro schema is exactly the routes through the items of arrays, the keys and values of maps and the fields of records. |
| `FieldRoutes.NodesAreProperties` | tansu-schema/src/json.rs:176-218 | The same for a JSON schema: the properties of objects and the items of arrays. |
| `FieldRoutes.MessageNodesAreFields` | tansu-schema/src/json.rs:220-244 | And for a message: its metadata, key and value, and the properties below them. |
| `FieldRoutes.AvroIdsExactIff` | tansu-schema/src/avro.rs:260-328 | The ids of an Avro schema are exact, one for each of its fields and 1 to n, if and only if no two of its fields join to the same name, which none do without dots. |
| `FieldRoutes.AvroSchemaIds` | tansu-schema/src/avro.rs:327-328 | So are the ids that the walk returns. |
| `FieldRoutes.RecordsInOrder` | tansu-schema/src/avro.rs:305-320 | The fields of every record are numbered as declared, all of them before anything below any of them. |
| `FieldRoutes.MessageIdsExactIff` | tansu-schema/src/json.rs:174-244 | The ids of a message schema in JSON are exact if and only if no two of its fields join to the same name, which none do without dots. |
| `FieldRoutes.MessageSchemaIds` | tansu-schema/src/json.rs:174-244 | So are the ids that the walk returns. |
| `FieldRoutes.KindsInOrder` | tansu-schema/src/json.rs:220-244 | Metadata is numbered before the key, the key before the value, and all of them before anything below any of them. |
| `FieldRoutes.PropertiesInOrder` | tansu-schema/src/json.rs:184-196 | The properties of every object are numbered in order, each with all that is below it before the next. |
| `SchemaIds.DottedNameLeavesGap` | tansu-schema/src/json.rs:187-194 | A message schema whose value has a property with a dot in its name: two fields share an id and another id is not used. |

## Left out

- The contents of tag buffers: how a tagged field is encoded is a parameter that may fail; the way back, from a tag buffer that was read to tagged fields, is not modelled.
- The contents of record batches: a batch is its base offset, its length and the bytes after them; record encoding, compression and checksums are not modelled.
- Sequences of sequences and of record frames, which no message has.
- The meaning of 64 bit floats and UUIDs: they are eight and sixteen opaque bytes.
- Decoder.Decoder.DeserializeSeq: without a known length the decoder reads elements until one fails; here that is a failure at once, so only the kind of error and the bytes consumed before it differ.
- Encoder.Encoder.SerializeSome: the tag buffer is left to SerializeTagMember, and the reuse of buffer capacity for record frames is not modelled.
- Sending.ReceiveResponse: takes keys of known responses only; the decoder without a message is not modelled.
- Sending.SendResponse: takes keys of known responses only; the encoder without a message is not modelled.
- The order of topics and partitions in a merged request or a split reply: both are maps from topic and partition to their entry.
- Wakers: a waker left in the response map is a mark; when the caller it belongs to looks again is not modelled, nor is fairness or the length of a timeout.
- The choice of batch limits from topic configuration: the limit of each check is an arbitrary input.
- The callback on a new assignment, and the group configuration builder.
- Floats, UUIDs and timestamps in the Avro conversion, and unions, which convert from JSON under no schema.
- The field ids of protocol buffer schemas, and counters beyond 32 bits.
- Sockets, connection pools, metrics, signals, logging and the command line programs.
