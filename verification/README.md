# A model of the live media server

The server takes in RTMP, keeps a cache of the newest media for players that join, and hands the stream on as RTMP,
as FLV and as HLS segments in an MPEG transport stream. This project models that core and proves it correct:

| module | part of the server |
|---|---|
| `Bytes`, `Bits`, `Masks` | byte order, bit fields and masks, under every codec |
| `Chunks`, `ChunkRuns`, `ChunkDomain`, `ChunkSizes` | the RTMP chunk layer on values: one chunk, whole runs, the exact domain |
| `ChunkFormat`, `AmfFormat` | chunks and AMF0 values byte by byte as their specifications have them, against what is written and read |
| `RtmpStream`, `RtmpSend` | its two directions with their state: chunk table, buffers on the heap, bytes written |
| `Handshake` | the digests of the complex handshake |
| `Receiver`, `ParameterSets`, `Gop`, `DataTypes` | the typing of messages, video headers, and the cache of the last groups of pictures |
| `FlvMedia`, `Typing` | what publishers lay out in video and audio messages, and how exactly that is typed and kept |
| `Pipeline` | receiver, sender, HLS producer and players as concurrent steps over two bounded channels |
| `Buffers`, `RtmpFeed` | what the buffers of delivered messages hold as the receiver goes on, on values and on the heap |
| `Connection`, `Shared` | the publisher's connection, and the concurrent steps over its buffers |
| `SharedRuns`, `SharedSchedules`, `SharedReuse`, `EarlyReuse` | which publishers' runs are read as they were sent under every schedule |
| `Amf0`, `AmfIo` | AMF0 as a printer and a parser, and as encoders and decoders over streams |
| `Flv` | the FLV tag stream |
| `Crc`, `Psi` | the MPEG-2 CRC and the two program tables |
| `TsPacket`, `Pes`, `PesIo`, `Adts` | transport stream packets, PES packets and ADTS headers |
| `Segments`, `Mux`, `HlsStream` | segments, playlist and files over whole runs, on values and with their state |
| `TsReader`, `AnnexB`, `Playback` | a player that knows only the standards: packets, clock and tables, NAL units, and what it gets from every file and frame |
| `Looks` | which bytes the HLS producer looks at |
| `Players` | what RTMP and FLV players get of what is written to them |
| `EndToEnd`, `Screens` | the layers put together, from the wire to the players and to the decoders behind them |

Where the source changes state the model is a class whose methods are proved against functions on values; the laws are
proved about those functions, for all inputs and all runs. What the functions mean is said by readers and layouts that
are written from the standards and share nothing with them. `dafny verify dfyconfig.toml` checks everything.

Bytes are numbers below 256, and bit vectors in `Crc` and where the source masks them. A connection is the sequence of
bytes still to come or already written, a file the sequence of its bytes, and random bytes and the keyed hash are
parameters. Go's integer widths are written out where they matter: timestamps, deltas and durations mod 2^32, sizes mod
2^16.

Where the code and its documentation part, the model follows the code:

- Csids 320 to 383 are sent in the two-byte form, which cannot hold them (rtmp.go:576); the three-byte form is
  big-endian on both sides, unlike section 5.3.1.1 of the RTMP 1.0 specification.
- The sender marks an extended timestamp by `> 0xffffff`, the receiver takes `== 0xffffff` for the mark (rtmp.go:597,
  rtmp.go:485), and repeats the field behind fmt 3 headers, where the receiver does not read it (rtmp.go:630).
  `ChunkDomain.ExactDomain` says just what survives.
- A fmt 3 chunk that opens a message straight after a fmt 0 one adds the last delta, not the timestamp
  (`ChunkRuns.RepeatAfterWhole`).
- A message opened under fmt 2 or fmt 3 is read into the buffer of the one before on its csid, which may still be in a
  channel, in the producer's hand or in the cache (rtmp.go:514-552): it can be muxed or sent with the newer bytes
  (`EarlyReuse.TwoFramesFail`, `EndToEnd.FrameLost`). `SharedSchedules.SafeExactly` says which runs are free of that.
- While a client publishes, its Set Chunk Size messages are queued like any other and change nothing
  (rtmp.go:822-862); `ChunkSizes.SizesMustAgree` says what then comes across.
- One ChunkSize serves both directions, where section 5.4.1 of the RTMP 1.0 specification has each side set its own.
  Answering connect sets it to 1024 (amf.go:465), so that a client that stays at 128 is misread from then on
  (`ChunkSizes.AfterConnect`).
- An extended delta replaces the timestamp and adds 0xffffff (rtmp.go:501-523; `ChunkRuns.ExtendedDelta`).
- A player that is served before metadata, video header and audio header have all come crashes the server
  (rtmp.go:1278-1287, flv.go:200-220; `Pipeline.NoCrashLater`, `Pipeline.CrashesBefore`).
- A keyframe that follows sound only is deleted from a cache of one group of pictures as soon as it is added
  (rtmp.go:1258-1274); `Gop.DesignExactly` says for which histories the cache is what rtmp.go:1230-1233 describes.
- A video header whose parameter sets do not fit 16 bits with their start codes panics in the HLS producer
  (hls.go:141-147; `ParameterSets.PrepareExactly`).
- Time stamps lose bit 30 (hls.go:947), ADTS lengths bit 11 (hls.go:273). Decoding times wrap at 2^32 where the field
  has 33 bits (hls.go:881; `Pes.DtsExactly`), and the signed composition time is taken for unsigned (hls.go:885;
  `Pes.PtsExactly`).
- The size test of SetPesPakcetLength can never hold, so that lengths beyond 16 bits are cut and not left out
  (`Pes.TrimmedExactly`).
- A decoder finds just the NAL units of a frame if and only if all but the first are single bytes: the lengths in front
  of the others are left standing where start codes should be (hls.go:1008-1012, hls.go:1036-1040;
  `Playback.PicturesRead`).
- Of the picture parameter sets of a video header the first is kept, but behind two sequence parameter sets it can be
  something else (hls.go:121-126; `Typing.SetsKept`, `Typing.SecondSpsMisread`).
- Every AACPacketType but 0 passes as a frame (rtmp.go:1183-1190; `Typing.AudioExactly`).
- Object types above 4 and channel configurations above 7 do not fit an ADTS header (hls.go:227-230;
  `Typing.ConfigKept`).
- A PES packet that fits its first transport packet is followed by one more with an empty payload behind an adaptation
  field of 183 bytes, where section 2.4.3.5 of ISO/IEC 13818-1 allows 182 (`TsPacket.PacketCounts`,
  `Playback.FilePlays`), and keyframes and inter frames too short for it are padded inside the payload, where
  notes/ts.md:27 asks for an adaptation field.
- FLV tags never use the timestamp extension (flv.go:357).
- PAT and PMT packets always carry counter 0 (hls.go:465).

## Model

| member | source | states |
|---|---|---|
| `Bytes.FromTo` | serialize.go:45-152 | reading back an n-byte field, in either byte order, gives the value reduced mod 256^n |
| `Bytes.ToFrom` | serialize.go:45-152 | writing back a field that was read restores its bytes, in either byte order |
| `Bytes.FieldRoundTrip` | serialize.go:45-152 | a field that is wide enough for its value round-trips exactly |
| `Bytes.ToAt` | serialize.go:110-152 | the bytes of a field one by one: the i-th is the value shifted by the bytes behind it in big-endian order, or before it in little-endian order |
| `Bytes.ByteToUint` | serialize.go:45-75 | the shift-and-add loop yields the number that the first `width` bytes denote, without overflow |
| `Bytes.UintToByte` | serialize.go:110-152 | the shifting loop yields the low-order bytes of the value in the byte order asked for, and overwrites just the caller's slice, as far as they fit |
| `RtmpSend.LowBytes` | serialize.go:283-298 | cutting a four-byte field at the end its byte order says leaves the n low-order bytes |
| `RtmpSend.Sender.WriteUint32` | serialize.go:283-298 | exactly the n low-order bytes of the value are written |
| `Chunks.HeaderBounds` | rtmp.go:478-543 | whatever bytes a header is read from, every field stays within its width, and a new message starts empty |
| `Chunks.ReadBasic` | rtmp.go:418-439 | any basic header yields a fmt of 0..3 and a csid of 2..65599 |
| `Chunks.Assemble` | rtmp.go:478-567 | after any successful ChunkAssemble MsgIndex + MsgRemain = MsgLength = len(MsgData), and Full holds just when nothing remains, even if a header interrupts a message |
| `Chunks.Merge` | rtmp.go:411-471 | whatever the bytes, the table keeps that invariant, a delivered chunk is full, and the stream gets shorter, so that the loop ends |
| `Chunks.ReceiveIsMerges` | rtmp.go:350-373 | all that is delivered is what calling MessageMerge over and over delivers |
| `ChunkRuns.BasicReadsBack` | rtmp.go:571-584 | the basic header reads back for csid 2..319 and 384..65599 |
| `ChunkRuns.WholeReadsBack` | rtmp.go:480-491 | a full header reads back on every field for every timestamp but 0xffffff |
| `ChunkRuns.DeltaReadsBack` | rtmp.go:497-508 | a fmt 1 header adds its delta mod 2^32 and keeps the stream id |
| `ChunkRuns.SameLengthReadsBack` | rtmp.go:514-523 | a fmt 2 header adds its delta mod 2^32 and keeps length, type and stream id |
| `ChunkRuns.StepInStep` | rtmp.go:457-470 | one chunk keeps the receiver's slot in step with the sender's message, and completes it just when the last byte is in |
| `ChunkRuns.RunDelivers` | rtmp.go:411-567 | every legal run of chunks, any streams interleaved in any way under any header forms, delivers exactly the messages it completes, in completion order |
| `ChunkRuns.PlainCompletesTheSame` | rtmp.go:478-543 | the run with every message opened by a full header is legal and completes the same messages |
| `ChunkRuns.CompressionPreservesMeaning` | rtmp.go:478-543 | a stream delivers the same messages with compressed headers as with full ones (section 5.3.1.2 of the RTMP 1.0 specification) |
| `ChunkRuns.RepeatAfterWhole` | rtmp.go:528-540 | on a fresh connection, with fmt 3 openings allowed straight after fmt 0 ones: what is delivered is what section 5.3.1.2.4 of the RTMP 1.0 specification says if, and for runs that leave no message unfinished only if, at every such opening the last delta of the csid equals the timestamp |
| `ChunkRuns.ExtendedDelta` | rtmp.go:497-523 | a delta field of 0xffffff under fmt 1 and fmt 2: the timestamp becomes the extended field plus 0xffffff, which is what section 5.3.1.3 of the RTMP 1.0 specification means if and only if the timestamp before was 0xffffff |
| `ChunkRuns.FinishedOnce` | rtmp.go:636-678 | in an interleaving every chunk stream finishes once if all its chunks were sent, and otherwise not |
| `ChunkRuns.InterleavingDelivers` | rtmp.go:411-678 | messages on distinct csids, cut by MessageSplit and interleaved chunk by chunk in any order, are delivered unchanged, in the order in which their last chunks arrive |
| `ChunkDomain.SendableComesBack` | rtmp.go:636-678 | what MessageSplit writes for one message inside the domain delivers that message and nothing else, whatever was received before |
| `ChunkDomain.ReceiveBounds` | rtmp.go:411-567 | nothing is ever delivered with a csid, a length, a type or an id outside the widths of the headers |
| `ChunkDomain.SameSplit` | rtmp.go:576-579 | a message on csid 320..383 leaves the sender as the same bytes as on the csid 256 lower |
| `ChunkDomain.ExtendedMarkFails` | rtmp.go:597-601 | for every length there is a payload that does not come back under timestamp 0xffffff |
| `ChunkDomain.RepeatedFieldFails` | rtmp.go:630-632 | for every length beyond one chunk there is a payload that does not come back under a timestamp above 0xffffff |
| `ChunkDomain.ExactDomain` | rtmp.go:569-678 | all payloads of a length come back if and only if the csid is 2..319 or 384..65599, the length below 2^24, the type below 256, and the timestamp below 0xffffff or above it with the message in one chunk |
| `ChunkFormat.Type0Read` | rtmp.go:479-491 | the 11 bytes of a type 0 header by their positions: timestamp, length, type, and the stream id, which alone is little-endian; from 0xffffff on the time is in the four bytes behind (section 5.3.1.2.1 of the RTMP 1.0 specification) |
| `ChunkFormat.Type1Read` | rtmp.go:497-512 | the 7 bytes of a type 1 header: delta, length and type, with the stream id kept |
| `ChunkFormat.Type2Read` | rtmp.go:514-526 | the 3 bytes of a type 2 header: a delta, all else kept |
| `ChunkFormat.BasicRead` | rtmp.go:418-439 | basic headers of one, two and three bytes, told by the six low bits of the first, with csids from 64 on less 64 |
| `ChunkFormat.Type0Written` | rtmp.go:590-632 | the same 11 bytes in what is sent, with 0xffffff for every time from there on and the time itself behind |
| `ChunkFormat.Type3Written` | rtmp.go:590-632 | no message header under type 3, but for the extended time repeated |
| `ChunkFormat.BasicWritten` | rtmp.go:570-588 | the basic header byte by byte for every csid that reads back |
| `ChunkFormat.ThreeBytesExactly` | rtmp.go:580-584 | a three-byte basic header says its csid by section 5.3.1.1 of the RTMP 1.0 specification, which has the other byte order, if and only if both bytes are the same |
| `ChunkFormat.SplitWritten` | rtmp.go:636-678 | the i-th chunk of a message has just the ChunkSize bytes from i * ChunkSize on, or those that are left, behind a header of type 0, or 3 behind the first; and all of the message is in them |
| `RtmpStream.Stream.ReadUint32` | serialize.go:217-226 | the field, or 0 where the stream ends inside it, which uses it up |
| `RtmpStream.Stream.AssembleHeader` | rtmp.go:479-543 | on the stored chunk, all four header forms do what the value semantics says |
| `RtmpStream.Stream.OpenChunk` | rtmp.go:493-513 | fmt 0 and fmt 1 give a fresh zeroed buffer, fmt 2 and fmt 3 keep the old one |
| `RtmpStream.Stream.ReadBodyInto` | rtmp.go:545-566 | a body goes to the place the message has reached and nowhere else |
| `RtmpStream.Stream.ChunkAssemble` | rtmp.go:478-567 | the heap form refines the value form, and writes to an old buffer only under fmt 2 and fmt 3 |
| `RtmpStream.Stream.ReadBasicHeader` | rtmp.go:418-439 | the three forms of the basic header, with an id cut short read as 0 |
| `RtmpStream.Stream.Store` | rtmp.go:462-462 | storing a chunk keeps slots apart, the table invariant, and every buffer still promised |
| `RtmpStream.Stream.ReceiveChunk` | rtmp.go:418-470 | a chunk changes its own slot only; of all delivered messages only the one on its own csid can lose its bytes, and only to fmt 2 or fmt 3 |
| `RtmpStream.Stream.MessageMerge` | rtmp.go:411-471 | delivers what the value semantics delivers, in a buffer promised until its csid is reused; the chunks it takes in have the headers of the stream; a promise made before ends if and only if one of them comes under fmt 2 or fmt 3 on the csid whose slot has that buffer, and all others stand |
| `RtmpStream.NewBuffersSpendNothing` | rtmp.go:493-513 | over a stretch of fmt 0 and fmt 1 chunks all promises stand |
| `RtmpStream.Stream.HandleSetChunkSize` | rtmp.go:376-381 | a Set Chunk Size message sets ChunkSize and RemoteChunkSize to its first four bytes, or the fewer it has, and changes no slot |
| `RtmpStream.Stream.AmfConnectResponse` | amf.go:454-465 | answering connect sets the size that the receiver reads by to 1024, unless a client has set one |
| `RtmpSend.Sender.WriteBasicHeader` | rtmp.go:570-588 | the form of the basic header by csid, with the source's bounds, and nothing at all beyond them |
| `RtmpSend.Sender.ChunkHeaderAssemble` | rtmp.go:569-634 | the header bytes for every fmt, with the extended timestamp behind every form |
| `RtmpSend.Sender.WriteChunk` | rtmp.go:642-671 | what one round writes is the head of what was still to be sent |
| `RtmpSend.Sender.MessageSplit` | rtmp.go:636-678 | the loop writes all chunks of the message once, and its bound on rounds is never what ends it |
| `Handshake.SigningIsStable` | rtmp.go:213-216 | writing the digest moves neither the digest's place nor what is hashed |
| `Handshake.PlaceExactly` | rtmp.go:230-238 | the place of the digest is the one of 728 behind the four bytes that is congruent to their sum, and with the digest inside the same half of 764 bytes |
| `Handshake.FoundExactly` | rtmp.go:251-260 | a digest is found exactly in packets that signing leaves unchanged, and always in signed ones |
| `Handshake.Server.DigestFindPos` | rtmp.go:230-238 | the loop finds the place, which leaves room for the digest |
| `Handshake.HashedExactly` | rtmp.go:240-249 | what is hashed is the same for two packets if and only if they agree on every byte outside the 32 at the place of the digest |
| `Handshake.Server.DigestFind` | rtmp.go:251-260 | returns the digest where it is right and nothing otherwise |
| `Handshake.Server.CreateComplexS1S2` | rtmp.go:189-228 | succeeds exactly when C1 carries a digest at either place; then S1 echoes the times of C1 and carries a digest the client finds, and S2 one keyed by the client's |
| `ParameterSets.PrepareExactly` | hls.go:141-147 | the uint16 slice bounds hold exactly when both parameter sets with their start codes stay below 65536 bytes |
| `ParameterSets.PrepareSpsPpsData` | hls.go:109-149 | the parameter sets, each behind a start code, in a buffer of just that size |
| `Typing.SetsKept` | hls.go:109-149 | a record with one sequence parameter set (section 5.2.4.1 of ISO/IEC 14496-15) can be prepared if and only if positions and sizes fit 16 bits; then that set and the first picture parameter set are kept, in this order, each behind a start code |
| `Typing.SecondSpsMisread` | hls.go:121-126 | a record with two can be prepared with something else in the place of its picture parameter set |
| `Typing.VideoExactly` | rtmp.go:957-1075 | a message is a keyframe, an inter frame or a video header if and only if it is a video message with CodecID 7 and NAL units under FrameType 1, NAL units under FrameType 2, or a record whose indices are in range (sections E.4.3.1 and E.4.3.2 of the FLV 10.1 specification); cached and muxed as that, with its time and bytes |
| `Typing.AudioExactly` | rtmp.go:1144-1192 | a message is an audio header if and only if it is an audio message with SoundFormat 10, AACPacketType 0 and two bytes of configuration, and a frame under any other packet type (sections E.4.2.1 and E.4.2.2) |
| `Typing.MetadataExactly` | rtmp.go:940-953 | data messages under type ids 18 and 15 are metadata, and cached if their bytes are AMF0 values |
| `Typing.CommandsExactly` | amf.go:59-434 | a command of encodable values other than connect passes if its name is one of six, and is refused otherwise; connect passes if the fields it looks at are strings and a number, and panics otherwise, as does a command without a name |
| `Receiver.AudioHeaderKnown` | hls.go:321-324 | the producer has an ADTS header just when an audio header has passed |
| `Receiver.HlsRunsExactly` | hls.go:302-331 | the producer gets through all that the receiver lets pass if and only if every video frame has 9 bytes, no AAC frame precedes the first audio header, and the parameter sets of every video header stay below 65536 bytes with their start codes |
| `Receiver.Publisher.RtmpReceiver` | rtmp.go:822-862 | a message passes, is refused or panics as its type and data say; the cache holds the history of exactly the frames among the messages that passed, numbered as they came, and the last header of each kind |
| `Receiver.Publisher.AmfHandle` | amf.go:59-115 | a command that cannot be decoded or is unknown is refused, one without a name, or a connect with a field of the wrong type, panics |
| `Receiver.Publisher.AudioHandle` | rtmp.go:1144-1192 | every AAC frame is cached and nothing else, with the errors and panics of the source |
| `Receiver.Publisher.VideoHandle` | rtmp.go:957-1075 | every NALU frame is cached as key or inter frame and nothing else, with the errors and panics of the source |
| `Gop.DropGopLeaves` | rtmp.go:1258-1274 | the deletion loop leaves the suffix from the second keyframe on, or nothing if there is none |
| `Gop.GopCache.GopCacheUpdate` | rtmp.go:1250-1276 | the loop with its early exits does the update on the list and the counter |
| `Gop.GopCache.PushVideo` | rtmp.go:1042-1062 | the cache stays the function of the whole media history that the lemmas are about |
| `Gop.GopCache.PushAudio` | rtmp.go:1183-1190 | the same for audio, which never triggers an update |
| `Gop.SuffixAlways` | rtmp.go:1234-1276 | in every run the cache is a contiguous suffix of the media with at most GopCacheMax keyframes |
| `Gop.KeyHeadedStays` | rtmp.go:1250-1276 | a cache that begins with a keyframe does so for ever after |
| `Gop.OneGop` | rtmp.go:1243-1276 | with GopCacheMax 1 the cache holds one keyframe, at its head, or none |
| `Gop.DesignExactly` | rtmp.go:1230-1276 | the cache is the suffix from the min(k, M)-th last keyframe with GopCacheNum min(k, M) - 1 if and only if the media begin with a keyframe, or M is 1 and two keyframes have come one straight after the other |
| `Gop.SoundFirst` | rtmp.go:1258-1274 | with M = 1 a sound frame and then a keyframe leave the cache empty |
| `Gop.LastGopsUnique` | rtmp.go:1230-1233 | there is only one such suffix |
| `Pipeline.StepInv` | rtmp.go:822-907 | every step of receiver, sender, HLS producer or joining player keeps the invariant |
| `Pipeline.Safety` | rtmp.go:822-907 | the invariant holds in every state of every run |
| `Pipeline.NothingLost` | rtmp.go:822-877 | received = taken by the producer ++ HlsChan ++ sender's hand ++ DataChan ++ receiver's hand, in order, with at most 12 chunks not taken yet |
| `Pipeline.PlayerSeesEverything` | rtmp.go:867-907 | a player served the cache during chunk k was sent the last metadata, the last video header and the last audio header received by then, in this order, then frames that are the GOP cache of the chunks received by then, and gets exactly k+1, k+2, ... while it stays; of all chunks that are media, none from the head of its burst on is missing, and at most 6 frames of the burst repeat |
| `Pipeline.HeadsAreLast` | rtmp.go:940-1192 | what is kept of each kind of header is the last of that kind, and nothing is kept just if none came |
| `Pipeline.FramesAre` | rtmp.go:1038-1190 | the frames that go to the cache are the chunks that are media, each under its number |
| `Pipeline.NoDeadlock` | rtmp.go:867-907 | while anything is on its way, some step other than a new chunk or player is enabled, or the sender has come to a new player while a header is missing and crashes |
| `Pipeline.NoCrashLater` | rtmp.go:1278-1287 | once all three headers have come, no player crashes the server in any run |
| `Pipeline.CrashesBefore` | rtmp.go:1278-1287 | and until then any new player can |
| `Amf0.PrintReadsBack` | amf.go:134-387 | every encodable value, however nested and in whatever field order, is parsed back from its bytes with the rest untouched |
| `Amf0.EcmaArrayIsObject` | amf.go:229-249 | an ECMA array reads as the object with its fields, whatever its count says |
| `Amf0.ParsedIsEncodable` | amf.go:134-249 | nothing but encodable values ever comes out of the decoder, which ends on every byte string |
| `Amf0.RoundTripExactly` | amf.go:134-387 | a value comes back if and only if no string or key has 65536 bytes or more and no key is empty |
| `Amf0.AllReadBack` | amf.go:120-132 | a list of encodable values comes back, followed by end of stream |
| `Amf0.MarshalRoundTripExactly` | amf.go:120-263 | AmfUnmarshal(AmfMarshal(vs)) is vs and end of stream if and only if all of vs is encodable |
| `AmfFormat.PrintSpells` | amf.go:254-387 | what is encoded spells the value byte by byte as sections 2.2 to 2.11 of the AMF0 specification have it: markers, lengths of two bytes, keys in front of values, and the object end |
| `AmfFormat.SpelledIsRead` | amf.go:134-249 | and whatever spells a value, with any byte but 0 for true and an ECMA array for an object, is decoded as that value, with the rest untouched |
| `AmfFormat.CutNumber` | amf.go:120-172 | a stream cut inside a number gives the values before, and an error that says so if and only if any byte of the number is there; cut behind its marker it reads as one that has ended |
| `AmfIo.Reader.ReadByte` | serialize.go:171-181 | all n bytes, or an error that says whether there was anything, and nothing left |
| `AmfIo.Reader.AmfDecode` | amf.go:134-159 | decodes what the parser parses, fails as it fails, and never reads past it |
| `AmfIo.Reader.Amf0DecodeNumber` | amf.go:161-172 | eight bytes, or an error |
| `AmfIo.Reader.Amf0DecodeBoolean` | amf.go:174-185 | any byte but 0 is true |
| `AmfIo.Reader.Amf0DecodeString` | amf.go:187-199 | the string, or an empty one where it is cut short |
| `AmfIo.Reader.Amf0DecodeObject` | amf.go:201-223 | the loop ends on every stream, at a zero length or where the stream ends, and a later field of the same key wins |
| `AmfIo.Reader.Amf0DecodeEcmaArray` | amf.go:229-249 | an object behind a count |
| `AmfIo.Reader.AmfUnmarshal` | amf.go:120-132 | all values up to the first error, and that error |
| `AmfIo.Writer.Amf0EncodeString` | amf.go:301-319 | marker if asked for, the low half of the length, the bytes; returns their number |
| `AmfIo.Writer.AmfEncode` | amf.go:265-289 | writes an encoding that means the value, and returns exactly its size |
| `AmfIo.Writer.Amf0EncodeObject` | amf.go:354-387 | every key once, in whatever order the map gives them; returns exactly the bytes written |
| `AmfIo.Writer.AmfMarshal` | amf.go:254-263 | on a new writer the bytes decode to the values if and only if all are encodable |
| `Flv.TagReadsBack` | flv.go:345-377 | a tag reads back with its type mod 256, timestamp and stream id mod 2^24, and its data |
| `Flv.HeadReads` | flv.go:222-241 | the file header by section E.2 of the FLV 10.1 specification: signature, version 1, both flags, and where the tags begin |
| `Flv.ForwardReads` | flv.go:345-390 | walking forward by DataSize yields the tags written |
| `Flv.BackwardReads` | flv.go:345-390 | walking backward by PreviousTagSize yields the tags written |
| `Flv.BothWaysAgree` | flv.go:200-220 | a reader that follows the file header finds sound and pictures announced and, like the walk from the end, the same list of tags |
| `Flv.ReadsBackExactly` | flv.go:345-426 | the messages come back if and only if types are below 256 and lengths, timestamps and stream ids below 2^24 |
| `Flv.FlvPlayer.FlvSendHead` | flv.go:222-241 | the 13 bytes of header and PreviousTagSize0 |
| `Flv.FlvPlayer.SendTag` | flv.go:403-420 | the buffer filled slice by slice is the tag |
| `Flv.FlvPlayer.FlvSendAs` | flv.go:243-343 | metadata and the two headers go out under their fixed types |
| `Flv.FlvPlayer.FlvSendData` | flv.go:345-390 | all cached frames, in order, though one variable serves all tags |
| `Flv.FlvPlayer.MessageSendFlv` | flv.go:392-426 | one more tag behind those sent |
| `Flv.FlvPlayer.GopCacheSendFlv` | flv.go:200-220 | the three headers under types 0x12, 0x9 and 0x8 and the cached frames behind a file header, which read the same from either end |
| `Crc.TableEntry` | hls.go:1228-1293 | each of the 256 constants is the remainder of its index shifted by eight bits |
| `Crc.ShiftLinear` | hls.go:1300-1300 | one bit of division is linear over xor |
| `Crc.ShiftInjective` | hls.go:1300-1300 | and loses nothing |
| `Crc.StepIsDivision` | hls.go:1298-1301 | one table step is eight bits of division |
| `Crc.Crc32Create` | hls.go:1295-1303 | the table-driven loop is division by 0x04C11DB7, bit at a time, from 0xFFFFFFFF, for every byte string |
| `Crc.CheckValue` | hls.go:1295-1303 | the remainder of the digits 1 to 9 is 0x0376e6e7, the published check value of the CRC of MPEG-2, which fixes initial value, polynomial and bit order |
| `Crc.CheckAccepts` | hls.go:1124-1125 | four bytes behind any data make the CRC 0 if and only if they are its CRC, big-endian |
| `Crc.ByteErrorDetected` | hls.go:1295-1303 | strings that differ in exactly one byte have different CRCs |
| `Crc.BurstDetected` | hls.go:1295-1303 | so have bit strings that differ only inside a window of 32 bits |
| `Psi.SectionChecks` | hls.go:1220-1221 | a section checks, and with any other CRC field it does not |
| `Psi.PatCreate` | hls.go:1094-1127 | the PAT is its fixed body closed by its CRC |
| `Psi.PmtCreate` | hls.go:1165-1223 | the PMT is its fixed body closed by its CRC |
| `TsReader.PatMeans` | hls.go:1094-1136 | read by section 2.4.4.3 of ISO/IEC 13818-1 the section is in force, passes its check and has one program, number 1, with its map on PID 0x1001 |
| `TsReader.PmtMeans` | hls.go:1165-1223 | read by section 2.4.4.8 it has the clock on PID 0x100, sound of type 0x0f on 0x101 and pictures of type 0x1b on 0x100 |
| `TsPacket.Taken` | hls.go:428-452 | a packet takes some of any data, never more than there is, also with 183 bytes left, so that the loops end |
| `TsPacket.StuffedReadsBack` | hls.go:390-453 | for every length the payload of a stuffed packet is just the data it took, behind an adaptation field that fits; PID, start flag and counter read back |
| `TsPacket.KeyReadsBack` | hls.go:498-553 | a keyframe's first packet: start flag, counter, clock reference, and the data padded to 176 |
| `TsPacket.InterReadsBack` | hls.go:557-591 | an inter frame's first packet: start flag, counter, and the data padded to 184 as payload |
| `TsPacket.TableReadsBack` | hls.go:456-494 | a table packet: start flag, counter 0, a zero and the padded section |
| `TsReader.StuffedRead` | hls.go:390-453 | a packet of the append loop begins with 0x47, has no error, priority or scrambling, an adaptation field that is stuffed as it says and no clock; its field leaves room for a payload, as section 2.4.3.5 of ISO/IEC 13818-1 asks, if and only if there was data left |
| `TsReader.KeyRead` | hls.go:498-553 | a reader that follows adaptation_field_control, the field's length and PCR_flag finds in a keyframe's first packet a clock of 300 times the base, for every base below 2^33, and reserved and stuffed parts as they should be |
| `TsReader.KeyPacketsRead` | hls.go:684-717 | a keyframe's packets carry one clock reference, and all are proper if and only if the PES packet is longer than 176 bytes |
| `TsReader.InterPacketsRead` | hls.go:719-751 | an inter frame's carry none, and are proper if and only if it is longer than 184 |
| `TsReader.AacPacketsRead` | hls.go:753-788 | an AAC frame's carry none, and are proper if and only if it is longer than 184 or has 183 |
| `TsPacket.RestIsTrain` | hls.go:702-716 | the append loop carries its data whole, in packets with consecutive counters and no start flag |
| `TsPacket.KeyIsTrain` | hls.go:684-717 | a key PES is recovered exactly from 176 bytes on, and padded below |
| `TsPacket.InterIsTrain` | hls.go:719-751 | an inter PES is recovered exactly from 184 bytes on, and padded below |
| `TsPacket.AacIsTrain` | hls.go:753-788 | an AAC PES is recovered exactly, whatever its length |
| `TsPacket.TrainAdds` | hls.go:684-788 | a frame's packets add one unit to their own PID and nothing to any other |
| `TsPacket.TrainCounts` | hls.go:405-419 | counters go on over any train that begins where the last one ended |
| `TsPacket.RestCount` | hls.go:702-716 | the loop makes max(1, g(n)) packets, with g(n) = n/184 plus 0, 2 or 1 as n%184 is 0, 183 or otherwise |
| `TsPacket.PacketCounts` | hls.go:684-788 | a frame takes max(2, g(n)) packets as AAC or inter frame, and 1 + max(1, g(n - 176)) as keyframe of 176 bytes or more |
| `Pes.PtsFits` | hls.go:881-887 | every presentation time is below 2^33 |
| `Pes.MaskOfStamp` | hls.go:947-947 | the expression with mask 0xd and marker keeps the two upper bits and drops the third |
| `Pes.StampReadsBack` | hls.go:945-966 | every time stamp below 2^33 reads back with bit 30 cleared and all markers set, and exactly if and only if bit 30 is 0 |
| `Pes.MaskedExactly` | hls.go:945-966 | hence exactly below 2^30 |
| `Pes.DtsExactly` | hls.go:881-966 | the decoding time read back is timestamp * 90 mod 2^33 if and only if bits 30 and 32 of that product are 0 |
| `Pes.PtsExactly` | hls.go:883-887 | the presentation time is the decoding time plus the signed composition time if and only if the top bit of that 24-bit field is 0 |
| `Pes.PacketReadsBack` | hls.go:880-969 | a frame's PES packet parses, with its fixed bits, prefixes and markers, to its stream id, both times without bit 30, and its body |
| `Pes.UnitsDiffer` | hls.go:880-1042 | video frames of one length with different payloads make different units |
| `AnnexB.StreamReads` | hls.go:144-148 | NAL units behind start codes read back one by one by Annex B of ITU-T H.264, if they are as section 7.4.1 has them |
| `AnnexB.SampleReadsExactly` | hls.go:1004-1012 | a decoder that reads units of which all but the first have their lengths in front, and no start codes, finds just these units if and only if all but the first are single bytes |
| `Playback.PicturesRead` | hls.go:982-1042 | the body of a frame is to a decoder the access unit delimiter, the parameter sets in front of a keyframe, and the NAL units of the message, if and only if all of these but the first are single bytes |
| `Pes.TrimmedExactly` | hls.go:971-977 | trimming by PES_packet_length gives the packet back exactly when a keyframe has 176 bytes, or any other frame a length that fits 16 bits or is cut by them to 0 |
| `PesIo.Times` | hls.go:881-887 | the uint32 products and the uint64 sum |
| `PesIo.PesHeaderCreate` | hls.go:880-969 | the header of 14 or 19 bytes that those lemmas are about |
| `PesIo.SetPesPakcetLength` | hls.go:971-977 | changes the two length bytes only, and is never stopped by its size test |
| `PesIo.PesDataCreateKeyFrame` | hls.go:982-1014 | header, delimiter, parameter sets, start code and data, each in its place |
| `PesIo.PesDataCreateInterFrame` | hls.go:1016-1042 | the same without parameter sets |
| `PesIo.PesDataCreateAacFrame` | hls.go:1044-1064 | the stream's ADTS header is patched with this frame's length and copied in front of its data |
| `Adts.ParseInvertsLayout` | hls.go:238-267 | parsing a laid out header gives every field at its bit width |
| `Adts.LayoutInvertsParse` | hls.go:248-268 | seven bytes come back from their parsed header if and only if they begin with the syncword |
| `Adts.MaskOfLength` | hls.go:273-273 | the masks of byte 3 give its upper six bits and one of two bits of the length |
| `Adts.MaskOfLowLength` | hls.go:275-275 | the masks of byte 5 give its lower five bits and the three low bits of the length |
| `Adts.WithLengthParses` | hls.go:272-276 | patching changes the frame length and no other field |
| `Adts.WithLengthAbsorbs` | hls.go:272-276 | a length that was patched in leaves no trace in the next |
| `Adts.KeptExactly` | hls.go:273-275 | the length is kept exactly if and only if it is below 8192 with bit 11 clear |
| `Adts.PatchedParses` | hls.go:1056-1058 | after any sequence of patches the header has the last length and all else as first prepared |
| `Adts.FrameReadsBackExactly` | hls.go:1056-1061 | a decoder finds the end of a frame if and only if its size is below 8192 with bit 11 clear |
| `Adts.PrepareAdtsData` | hls.go:200-246 | the header that an AudioSpecificConfig asks for, which parses back field by field |
| `Typing.ConfigKept` | hls.go:200-246 | of an AudioSpecificConfig (section 1.6.2.1 of ISO/IEC 14496-3) the ADTS header has the frequency always, the object type if and only if it is 1 to 4, and the channels if and only if they are below 8 |
| `Adts.ParseAdtsData` | hls.go:248-268 | every field, and nothing of the seven bytes lost |
| `Adts.SetAdtsLength` | hls.go:272-276 | in place: the length as far as it is kept, every other field untouched |
| `Segments.CutIsLawful` | hls.go:803-819 | every frame lands in exactly one segment, in order; each segment but the first begins with a keyframe at least HlsTsMaxTime seconds, by the uint32 clock, after the beginning of the one before; and no such keyframe lies inside a segment |
| `Segments.CutExactly` | hls.go:803-819 | and that is the only such partition |
| `Segments.DurationsTelescope` | hls.go:805-805 | published durations add up mod 2^32 to the distance between the first frames of the first and the open segment |
| `Segments.DurationsExact` | hls.go:803-819 | with non-decreasing timestamps every closed segment lasts at least HlsTsMaxTime seconds, and durations telescope exactly |
| `Segments.WindowSlides` | hls.go:1345-1358 | one update of a full or growing list is one slide of the window over all closed segments |
| `Segments.TargetIsLeast` | hls.go:1360-1370 | the target duration is the least number of seconds that no listed segment exceeds (section 4.3.3.1 of RFC 8216) |
| `Mux.StepKeeps` | hls.go:302-331 | one chunk adds its frame's unit to its own PID, none to the other, and keeps both counters in step, over segment cuts too |
| `Mux.RunCuts` | hls.go:645-819 | in every run the frames are in segments by the cut that Segments proves lawful and unique |
| `Mux.RunIsLawful` | hls.go:302-331 | and so in every run of the producer: all chunks but headers and metadata are in the segments in order, cut at late keyframes and at every one |
| `Mux.RunHolds` | hls.go:645-819 | in every run each file holds just the frames of its segment and can be demultiplexed by itself |
| `Mux.RunHeaders` | hls.go:318-324 | the producer uses the last parameter sets and the last audio header, whatever was patched since |
| `Mux.RunRecovers` | hls.go:390-819 | in every run demultiplexing all files gives the PES packets of each PID in order, and the i-th packet of a PID carries i mod 16 across frames and cuts |
| `Mux.PlayersGet` | hls.go:684-969 | what the i-th recovered unit is, when trimming makes it exact, and the times and the body that are in it |
| `Playback.FilePlays` | hls.go:646-682 | from the bytes of any segment file by itself: packets that begin with 0x47 and can be read; tables that lead to one program with sound on 0x101 and pictures on 0x100; on the PID of the clock one reference for each keyframe of the segment, timestamp * 90 mod 2^32, and no other; and in the two streams the frames of the segment; all packets are proper if and only if no PES packet fits its first one |
| `Playback.PictureUnit` | hls.go:684-1042 | in a run the unit at the place of a video frame among the video frames has its PES packet at its head, to which trimming by length leads just if the length fits or a keyframe fills its packet; it has stream id 0xe0, decoding and presentation time without bit 30, and for a decoder the delimiter, the sets of the last video header before it in front of a keyframe, and the NAL units of the message, if and only if all but the first are single bytes |
| `Playback.PicturePlays` | hls.go:684-1042 | and that is what comes out of the segment files of the run |
| `Playback.SoundPlays` | hls.go:753-1064 | an AAC frame comes out of them with stream id 0xc0, its time, an ADTS header that says what the last audio header before it asked for, as far as it can, and its data; its end is found if and only if the size is below 8192 with bit 11 clear |
| `Looks.LookedExactly` | hls.go:880-1064 | two frames of one kind, time and length are alike to the producer if and only if they agree on bytes 2 to 4 and from 9 on, or on bytes from 2 on if they are sound |
| `Looks.LookedInHeaders` | hls.go:200-246 | two audio headers, if and only if they agree on bytes 2 and 3 |
| `Looks.SamePes` | hls.go:880-1064 | frames that differ only in bytes the producer does not look at make the same PES packet |
| `Looks.AlikeUnits` | hls.go:109-331 | and so do whole streams: the same runs go through, with the same units for each PID |
| `HlsStream.TsPacketCreatePatPmt` | hls.go:456-494 | the table packet |
| `HlsStream.Hls.TsPacketCreate` | hls.go:390-453 | the continuation packet, and a counter step on its own PID only |
| `HlsStream.Hls.TsPacketCreateKeyFrame` | hls.go:498-553 | the first packet of a keyframe, and the video counter |
| `HlsStream.Hls.TsPacketCreateInterFrame` | hls.go:557-591 | the first packet of an inter frame, and the video counter |
| `HlsStream.Hls.TsPacketCreateAacFrame` | hls.go:595-640 | the first packet of an AAC frame, and the audio counter |
| `HlsStream.Hls.AppendRest` | hls.go:702-716 | the loop ends and appends the remaining packets to the open file, byte for byte |
| `HlsStream.Hls.TsFileAppendKeyFrame` | hls.go:684-717 | a keyframe's packets go to the open file |
| `HlsStream.Hls.TsFileAppendInterFrame` | hls.go:719-751 | an inter frame's packets go to the open file |
| `HlsStream.Hls.TsFileAppendAacFrame` | hls.go:753-788 | an AAC frame's packets go to the open file, and the stream's ADTS header is patched |
| `HlsStream.Hls.TsFileAppend` | hls.go:790-800 | the file, the counters and the headers are those of the run with one frame more; unknown types write nothing |
| `HlsStream.Hls.M3u8Update` | hls.go:1345-1396 | the list slides with its files, and the playlist published is the window, with a target duration that bounds it |
| `HlsStream.Hls.TsFileCreate` | hls.go:646-682 | closes the open segment, begins the next with its tables and its first frame, and keeps every window law |
| `HlsStream.Hls.TsCreate` | hls.go:803-819 | begins a segment exactly when there is none or a due keyframe comes, and keeps the state that of the run |
| `HlsStream.Hls.Handle` | hls.go:302-331 | one round of the producer, with the preparation of parameter sets and ADTS headers, is one step of the run |
| `HlsStream.Hls.HlsCreator` | hls.go:281-332 | after any stream that can be handled the state is that of the whole run, to which the lemmas of Mux and Segments apply |
| `HlsStream.Hls.WindowLaws` | hls.go:1345-1372 | TsNum = length of TsList <= HlsM3u8TsNum; TsFirstSeq + TsNum + (1 if a segment is open) = TsLastSeq; the list is consecutive from TsFirstSeq = MEDIA-SEQUENCE; just the listed and the open files are on disk |
| `Buffers.TookReads` | rtmp.go:457-552 | a chunk changes what is read of those messages only whose buffer the slot of its csid has, and only under fmt 2 or fmt 3; a message just delivered reads as it is |
| `Buffers.FedReceives` | rtmp.go:411-471 | the messages in the feed are all that MessageMerge delivers from the stream |
| `RtmpFeed.Feeder.Next` | rtmp.go:411-471 | on the heap: after one more chunk, every message ever delivered still has its buffer where the feed says, with the bytes that the feed says |
| `RtmpFeed.Feeder.Pump` | rtmp.go:822-862 | and so over any number of chunks and calls |
| `RtmpFeed.Feeder.ReadsNow` | rtmp.go:445-470 | whoever reads a delivered Chunk at that moment gets the message as the feed has it now |
| `Connection.GoneOk` | rtmp.go:411-471 | one chunk of the run keeps sender, receiver and buffers in step; a refused message overwrites its buffer and ends the run |
| `Connection.FedByLine` | rtmp.go:411-567 | the buffers of the concurrent model are those that the receiver has when it reads the bytes of the run |
| `Shared.WireOk` | rtmp.go:822-862 | a chunk that comes in keeps sender, receiver, buffers, cache and channels in agreement |
| `Shared.MoveOk` | rtmp.go:867-907 | so does every step of the channels, the sender and the players |
| `Shared.MakeOk` | hls.go:302-331 | and the producer when it reads the message it has taken |
| `Shared.WriteOk` | rtmp.go:1278-1306 | and the sender when it writes the next message to a player |
| `SharedRuns.MakingIsRecent` | hls.go:302-331 | what the producer has in hand is one of the newest 13 messages, or 12 while another comes in |
| `SharedRuns.WritingIsRecent` | rtmp.go:867-907 | what is being written to a player was cached at a moment since the sender began to serve, or is the chunk that it serves |
| `SharedRuns.SafeIsRight` | rtmp.go:822-907 | in every schedule of a safe run all that the producer looks at and all that players are written is as it was delivered |
| `SharedSchedules.ProducerMisreads` | hls.go:302-331 | a message that is overwritten in what the producer looks at, before it has read it, will be read so under some schedule |
| `SharedSchedules.BurstMisread` | rtmp.go:1278-1306 | an overwritten message that was cached since the sender can have begun to serve is written to some new player under some schedule |
| `SharedSchedules.LiveMisread` | rtmp.go:867-907 | and one among those that the sender can be serving is written to an old player, if the three headers came in time for one |
| `SharedSchedules.UnsafeGoesWrong` | rtmp.go:822-907 | every unsafe run has a schedule in which the producer or a player reads something else |
| `SharedSchedules.SafeExactly` | rtmp.go:822-907 | all schedules read everything as delivered if and only if, after every chunk that can come in, the bytes of a refused message included, nothing has been written over what the producer looks at in the newest 13 messages (12 while one is coming in), as far as it gets, nor over a message that may be being written to a player |
| `SharedReuse.LateReuseIsSafe` | rtmp.go:514-552 | a run is safe if a fmt 2 or fmt 3 opening comes only when no message since the last new buffer on its csid is among the newest 12, or cached, or was cached within the last 5 messages |
| `SharedReuse.NewBuffersAreSafe` | rtmp.go:493-513 | that holds of every run that opens its messages under fmt 0 and fmt 1 only |
| `EarlyReuse.EarlyReuseFails` | rtmp.go:514-552 | an opening under fmt 2 or fmt 3 that changes what the producer looks at in one of the newest 12 messages, or anything in a message that may be being written to a player, makes the run unsafe |
| `EarlyReuse.TwoFramesFail` | rtmp.go:514-552 | a frame, then a message of its length under fmt 2: the producer can make the second one's bytes for the first, even if the second is refused, and if it is not, makes it twice |
| `ChunkSizes.LargerFails` | rtmp.go:822-862 | with chunks larger than the receiver's, a message beyond the receiver's size can fail to come across |
| `ChunkSizes.SmallerFails` | rtmp.go:822-862 | with smaller ones, a message beyond the sender's size can |
| `ChunkSizes.SizesMustAgree` | rtmp.go:822-862 | all payloads of a length come across if and only if both sides use one chunk size or the message fits in one chunk of either |
| `ChunkSizes.AfterConnect` | amf.go:454-465 | from a client that goes on with chunks of 128 bytes after connect, just the messages of at most 128 bytes come across whatever they hold |
| `Players.AllGo` | rtmp.go:636-678 | message after message by MessageSplit: an RTMP player that has received anything before gets all that can be sent at its chunk size |
| `Players.FlvExactly` | flv.go:200-426 | an FLV player that follows the file header gets its messages back if and only if the fields of each fit a tag |
| `EndToEnd.WireDelivers` | rtmp.go:411-567 | the receiver takes from the wire what the publisher sent |
| `EndToEnd.MuxRecovers` | hls.go:281-332 | the segment files of publishable messages demultiplex to what players are to get |
| `EndToEnd.WireToSegments` | hls.go:281-332 | interleaved chunks with compressed headers in, under every schedule of a safe run: the producer has read all messages but the newest 13 at most, and their frames come out of the segment files, all of them, in order |
| `Screens.PictureExpected` | hls.go:302-331 | of messages that can be published, each video message of NAL units is at its place among what players are to get, with its times and, for a decoder, the parameter sets of the last video header message before it and its NAL units, if and only if all of these but the first are single bytes |
| `Screens.WireToPictures` | hls.go:281-332 | and so it comes out of the segment files under every schedule of a safe run, for any interleaved and compressed chunks on the wire |
| `EndToEnd.FrameLost` | rtmp.go:514-552 | two publishable frames of one kind with different payloads, the second under fmt 2: the segment files can get the second one twice, which is not what was sent |
| `EndToEnd.WireToPlayers` | rtmp.go:867-907 | under every schedule of a safe run each player is written just what it is to be sent: first the last message cached as metadata, the last as video header and the last as audio header of those received by then, under FLV types 0x12, 0x9 and 0x8, then frames; over RTMP it gets all that back if each message can be sent at its chunk size, over FLV if and only if the fields of each fit a tag |

## Left out

- RtmpStream.Stream.ReadBodyInto: a body read is full or fails; the source's single `Conn.Read` (rtmp.go:552) may return fewer bytes and go on.
- HlsStream.Hls.TsFileCreate: file operations succeed, and sequence numbers are unbounded where the source's uint32 wraps after 2^32 segments.
- HlsStream.Hls.M3u8Update: durations are whole milliseconds, exact for the float64 quotients of the source; the two decimals that EXTINF prints and the text around them are not modelled.
- RtmpSend.Sender.MessageSplit: the message length is the length of its data, as it is for every chunk that reaches it; the Fmt it leaves behind in the chunk is never read again and not kept.
- RtmpStream.Stream.HandleSetChunkSize: receiving and sending are separate objects here, each with its chunk size, where the source keeps one for both; nor is the division by a chunk size of 0 modelled.
- Receiver.Publisher.AmfHandle: the answers to commands and what they change in the session are not modelled, only how the handler ends.
- AmfIo.Writer.AmfEncode: numbers are opaque 8-byte values, so that the conversions of Go's int and uint32 to float64 are not modelled, nor kinds of values it rejects.
- Handshake.Server.CreateComplexS1S2: HMAC-SHA256 is any function with results of 32 bytes.
- Flv.FlvPlayer.GopCacheSendFlv: the cached headers exist; that they may not is in `Pipeline.Crashing`.
- Pipeline.PlayerSeesEverything: cache updates and sends are atomic steps; data races on the cached list and on the map of players (the FIXME at rtmp.go:1240) and the one-second pause when a stream stops are not modelled.
- SharedSchedules.SafeExactly: a chunk comes in in one step; which cached messages a new player is sent is settled when the sender turns to it, where the source walks a list that may change meanwhile. A server that panics takes no more steps.
- Sockets, HTTP handlers, logs, service installation and JSON configuration.
- What the commands of an RTMP session do (connect, publish, play), acknowledgement windows and the simple handshake.
- SIP, PS and RTP: sip.go scrapes fixed templates, ps.go and rtp.go only declare records.
- Uint64ToByte, WriteUint64 and M3u8Update0, which nothing uses.
