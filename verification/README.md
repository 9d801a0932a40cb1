# Eternal Terminal client: a verified model of the recoverable stream

An Eternal Terminal session is a pair of encrypted packet streams that survive the loss of their TCP connection at any
byte. This project models the client's side of that promise and proves it, together with the exact conditions under which
it fails. `dafny verify dfyconfig.toml` checks everything.

## What is modelled

| layer | modules |
|---|---|
| counter-nonce cipher, packets, frames | `Crypto`, `Packets` |
| sockets that move any number of bytes, block, are interrupted, close or fail | `Sockets` |
| `BackedWriter` and its laws over whole runs | `Writers`, `WriterLaws`, `WritePacket` |
| `BackedReader` and its laws over every way of cutting a byte stream | `Readers`, `ReadOutcomes`, `ReaderLaws` |
| one direction of a session: writer, connection, reader, catch-up handshake | `Links`, `LinkSafety`, `LinkDelivery`, `LinkWindow`, `LinkRefusal`, `LinkGap` |
| Protocol Buffers encoding and the ten messages | `Varints`, `Wire`, `Messages`, `Encoders`, `MessageLaws`, `KnownBytes` |
| the reconnect handshake through its bytes | `Framing`, `Handshake`, `Reconnect`, `HandshakeRefinement` |
| the client's threads, alone and over both links | `Lifecycle`, `LifecycleLaws`, `Session`, `SessionGap` |
| the keepalive part of the session loop | `Keepalive`, `KeepaliveLaws` |

Code that updates state is a class or a loop proved against a function on values (`BackedWriter.Write` against `WriteStep`,
`BackedReader.Read` against `ReadStep`, `TryRecover` against `TryRecoverStep`, and so on); the laws are about those
functions. A `Link` carries history: the writer's log of every accepted packet, what was delivered and from which log
index, and where on the log the connection stands. Its steps are lock sections of either end, taken in any order.

Two assumptions stand behind the delivery results. The cipher is ideal: a text opens under the nonce that sealed it and no
other, and a sealed text is 16 bytes longer (`Crypto.IdealIsSatisfiable` shows that these can be met together). The other
end of each link, which is not in the repository, is this repository's own writer or reader.

## What the proofs found

* Delivery is exactly once and in order per log entry, up to the first packet that the reader's cipher refuses
  (`LinkDelivery.DeliveryUntilRefusal`), and none is refused as long as no packet is logged between `recover` and `revive`.
  The condition is exact: after a revival every continuation without further window writes delivers in order if and only
  if nothing was logged since `recover`, or no reader can follow, or the connection has died meanwhile
  (`LinkGap.RevivalIsSafeExactly`). Otherwise the first frame that the reader completes from past the gap is refused, the
  skipped entry is lost for good, and without another window write nothing is delivered in that direction ever again,
  however often both ends reconnect (`LinkRefusal.TheFirstRefusalIsTheEnd`); the client's own threads can bring that about
  (`SessionGap.TheWindowLosesThePacket`). Until then the gap heals: one more reconnect delivers everything
  (`LinkGap.ReconnectingHeals`).
* Exactly once is per log entry and not per `write_packet` call: a successful call logs its packet once if and only if the
  first turn that logs it does not fail (`WritePacket.LoggedOnceExactly`); a live write that fails has already been
  logged, and its retry logs the packet again (`WritePacket.ARetriedPacketIsLoggedTwice`).
* A catch-up can exceed the 128 MiB a handshake message may have, although writer and disconnect buffer keep their own
  limits; the peer then refuses it (`Handshake.CatchupCanBeTooLong`).
* The sequence number crosses as an `i32`, exactly if and only if it is below 2^31. From there on the session cannot be
  resumed: below 2^32 no writer can serve the number that arrives, and above that none that backs up fewer than 2^32
  entries (`Handshake.LongSessionsCannotResume`).
* An embedded message that occurs twice is replaced, where the Protocol Buffers encoding guide ("Last One Wins") has the
  two merged field by field. The decoder agrees with the guide if and only if the later one has every field the earlier
  one has (`MessageLaws.MergesAsTheGuideExactly`, with an example in `MessageLaws.ReplacingLosesTheName`). A `jumphost` of
  false comes back absent (`MessageLaws.InitialPayloadRoundTrip`).
* Nonces do not repeat for 2^184 increments per stream, and after exactly that many a stream enters the next one's
  (`Crypto.NoncesMeetAtTheSpan`).

## Model

| member | source | states |
|---|---|---|
| Crypto.IncrementNonce | src/crypto.rs:82-89 | the carry loop over the array gives the little-endian successor of the old nonce |
| Crypto.IncrementAddsOne | src/crypto.rs:82-89 | that successor is +1 on the counter's value, wrapping to 0 only at the largest value its bytes hold |
| Crypto.NonceValue | src/crypto.rs:44-89 | after k increments a stream's nonce has value msb * 2^184 + k modulo 2^192 |
| Crypto.NoncesNeverRepeat | src/crypto.rs:44-89 | below 2^184 increments per stream, two nonces are equal if and only if stream and count are |
| Crypto.NoncesMeetAtTheSpan | src/crypto.rs:44-89 | the bound is exact: after 2^184 increments a stream runs through the next stream's nonces |
| Crypto.IdealIsSatisfiable | src/crypto.rs:57-77 | the assumption made of the cipher holds of some cipher |
| Crypto.IdealCipherGivesIdealStream | src/crypto.rs:57-77 | ideal cipher plus exact nonce arithmetic: the k-th sealed text opens at the k-th opening and at no other |
| Crypto.TheTwoStreams | src/crypto.rs:16-19 | under one key both directions are such streams, and no nonce of one is ever a nonce of the other |
| Crypto.CryptoHandler.New | src/crypto.rs:44-55 | a key of any length but 32 is an error; otherwise a handler at count 0 with the stream's last nonce byte |
| Crypto.CryptoHandler.Encrypt | src/crypto.rs:57-65 | the counter advances by one before it seals |
| Crypto.CryptoHandler.Decrypt | src/crypto.rs:67-77 | a text shorter than a tag is refused without advancing the counter; any other advances it, even when it fails |
| Packets.Packet.SerializeRoundTrip | src/packet.rs:21-50 | a serialized packet parses back to itself |
| KnownBytes.FrameBytes | src/packet.rs:44-50 | flag, header and payload behind a length in four bytes, most significant first |
| KnownBytes.FlagReads | src/packet.rs:21-30 | two bytes are needed; any flag but zero reads as sealed |
| Packets.Packet.Encrypt | src/packet.rs:52-59 | sealing uses the next count of the stream; an encrypted packet is refused and the count stays |
| Packets.Packet.Decrypt | src/packet.rs:61-68 | the outcome and the counter afterwards in each of the four cases |
| Packets.EntryOpensOnlyInTurn | src/packet.rs:21-68 | serialized log entry i comes back as logged if and only if the receiver has opened i entries before |
| Packets.FramesParseBack | src/backed.rs:82-87 | concatenated frames and an incomplete tail parse to exactly the entries and that tail |
| Packets.PrefixOfFrames | src/backed.rs:181-209 | a prefix of a frame stream stops inside the first frame or holds exactly that frame first |
| Sockets.WriteAllRetry | src/backed.rs:234-253 | what got out is a prefix of the data, and it succeeds if and only if the schedule carries all of it: some unbroken prefix of the calls moves that many bytes, each ready call at least one |
| Sockets.AllAcceptedExactly | src/backed.rs:234-253 | told on the schedule alone: all n bytes go out if and only if some prefix of the calls has no closed or failed one and its ready calls move n bytes or more |
| Sockets.WaitingChangesNothing | src/backed.rs:227-250 | deleting every would-block, timeout and interrupt changes neither the bytes nor the verdict |
| Writers.BackedWriter.constructor | src/backed.rs:36-46 | a live writer with an empty log |
| Writers.BackedWriter.InvalidateSocket | src/backed.rs:48-50 | only the socket is dropped |
| Writers.BackedWriter.Trim | src/backed.rs:69-75 | what survives on a live socket is the longest fitting tail of the log; on a dead one everything |
| Writers.BackedWriter.Write | src/backed.rs:52-96 | whole next state, verdict and bytes sent; the backup remains the log's newest entries, sealed, newest first, and its size their exact sum |
| Writers.BackedWriter.Recover | src/backed.rs:99-122 | refines the plain log: on a dead socket exactly `log[n..]` oldest first, if and only if 0 <= seq - n <= entries kept, otherwise which error; nothing changes |
| Writers.BackedWriter.Transmit | src/backed.rs:82-95 | what reaches the socket is a prefix of the frame, all of it on success; otherwise the socket is dropped |
| Writers.BackedWriter.Revive | src/backed.rs:124-127 | the socket is live and the disconnect count 0; log and backup stay |
| WriterLaws.WriteOutcomes | src/backed.rs:52-96 | each of the four answers with its exact condition: a live write of an unsealed packet fails if and only if the connection ends before the frame is out, and a dead one skips if and only if the packet passes 64 MiB |
| WriterLaws.WriteEffects | src/backed.rs:52-96 | what each answer leaves: log, bytes sent, whether the writer lives, and that a dead writer trims nothing |
| WriterLaws.RecoverOutcomes | src/backed.rs:99-122 | each of the four answers of `recover` with its exact condition, and each entry it returns as the sealed packet of that log index |
| WriterLaws.DisconnectedExactly | src/backed.rs:55-80 | over every run: the disconnect count is exactly the sealed bytes of what was logged since the writer was last alive |
| WriterLaws.NothingIsTrimmedWhileDead | src/backed.rs:65-80 | over every run: from a disconnect to the next revival no entry leaves the backup, however much is buffered |
| WriterLaws.RunRetains | src/backed.rs:65-75 | over every run, each log tail of at most 64 MiB is still backed up in full |
| WriterLaws.RetentionGuarantee | src/backed.rs:65-112 | over every run, a peer whose missing tail is within 64 MiB is caught up in full and in order after a disconnect |
| WriterLaws.LiveWriteKeepsTheLongestTail | src/backed.rs:65-75 | right after a live write the backup is the longest log tail within the limit, even if that is empty |
| WriterLaws.ByteAccounting | src/backed.rs:55-127 | over every run: disconnect count 0 while live and at most 64 MiB + 16; backup at most 64 MiB plus one disconnect buffer per revival since the last live write plus that count |
| WriterLaws.LogEntryNonce | src/backed.rs:61-121 | log entry i has nonce value msb * 2^184 + i + 1 in its frame and in every catch-up that repeats it |
| WritePacket.WritePacket | src/connection.rs:118-145 | the retry loop over any sequence of turns: whether it succeeds, the writer afterwards, and how often it logged |
| WritePacket.AcceptedExactly | src/connection.rs:118-145 | a call succeeds if and only if at some turn a live socket carries the whole frame or a dead writer has room, and no turn up to it finds the session over |
| WritePacket.CallsLogCopies | src/connection.rs:118-145 | a call appends nothing to the log but copies of its packet, at least one if it returns true |
| WritePacket.LoggedOnceExactly | src/connection.rs:118-145 | a call that returns true logs its packet exactly once if and only if the first turn that logs it does not end in a failed write |
| WritePacket.DeadWriterLogsOnce | src/connection.rs:118-145 | a call that starts on a dead writer with room logs its packet exactly once |
| WritePacket.LiveWriterLogsOnceExactly | src/connection.rs:118-145 | one that starts on a live writer and returns true does if and only if the socket takes the whole frame at the first turn |
| WritePacket.ARetriedPacketIsLoggedTwice | src/connection.rs:132-135 | a concrete call that succeeds and logs its packet twice |
| Readers.BackedReader.FillTo | src/backed.rs:181-207 | each fill loop takes bytes off the connection in order, never past its target, and says why it stopped |
| Readers.BackedReader.FetchFrame | src/backed.rs:181-207 | the length and then the body: never a byte past the current frame, and what has arrived stays in `partial` |
| Readers.BackedReader.Read | src/backed.rs:163-215 | whole next state and outcome: catch-up first, then the connection; the sequence number moves only for a packet from the connection |
| Readers.BackedReader.Revive | src/backed.rs:217-224 | the half-read frame is dropped, the catch-up queued behind what was queued, and counted at once |
| ReadOutcomes.ReadAnswers | src/backed.rs:176-212 | told on the schedule and the arrived bytes: `read` reports a closed connection, a lost one, or nothing yet, each if and only if such a call is met before the frame is whole |
| ReadOutcomes.ReadAnswersWithoutSocket | src/backed.rs:163-179 | from the queue or without a socket no byte is read: nothing is there if and only if the queue is empty |
| ReadOutcomes.ReadingReports | src/backed.rs:163-212 | over a whole sequence of reads: it ends in a closed, or in a lost, connection if and only if some call that is made meets that |
| ReaderLaws.ReadingIsParsing | src/backed.rs:176-214 | for any split into reads with interrupts and would-block anywhere: the packets, the rest and the error of one simple parse of the bytes taken |
| ReaderLaws.ChunkingIndependence | src/backed.rs:176-214 | two ways of cutting the same bytes give the same packets, the same reader and the same refusal |
| LinkSafety.StepKeepsInv | src/backed.rs:52-224 | every step of writer, reader, connection and handshake keeps the link invariant, also while one end still holds an old connection: what is in flight is a prefix of the frames due, all of them while writer and connection live |
| LinkDelivery.RunsKeepInv | src/backed.rs:52-224 | so does every run; without a gap reader and log positions agree, and so do they, but for the connection's, until a packet is refused |
| LinkDelivery.NoDuplicationNoReordering | src/backed.rs:52-224 | under every interleaving, window writes included, delivered packets are log entries at strictly increasing indices |
| LinkDelivery.DeliveryUntilRefusal | src/backed.rs:163-224 | over every run, gaps or not: delivered packets and then the decoded catch-up queue are the log up to the reader's number, with the cipher advanced once per delivered packet, if and only if no packet was refused |
| LinkDelivery.RefusalEndsDelivery | src/crypto.rs:67-77 | the one direction: the cipher's count is what was delivered plus what was refused, so after a refusal that no longer holds |
| LinkDelivery.GapFreeDelivery | src/connection.rs:244-320 | and while no writer was revived past its catch-up, none is |
| LinkDelivery.ChannelHoldsWhatIsDue | src/backed.rs:82-218 | without a gap: partial frame plus bytes in flight are a prefix of the frames of the entries not counted yet, all of them while both live |
| LinkDelivery.NoWindowWriteNoGap | src/connection.rs:287-317 | a run with no packet accepted between `recover` and the writer's `revive` has no gap |
| LinkWindow.WindowCharacterisation | src/connection.rs:287-317 | if the log grew to length s1 in the window, then for as long as that connection is used, with any reads, writes and the reader's revival: the catch-up is exactly `log[remote..s0]`, and after k frames what is in flight are the frames of the log from s1 + k on |
| LinkWindow.PositionedFrame | src/backed.rs:181-214 | and the k-th frame a reader completes there, from zero, is entry s1 + k |
| LinkWindow.SkippedEntriesAreBackedUp | src/backed.rs:77-127 | the skipped entries are the front of the backup at the revival, and a later recover from the catch-up's end returns them first and in order |
| LinkWindow.PassedIsLost | src/crypto.rs:67-77 | an entry the reader's cipher has passed undelivered is delivered in no continuation |
| LinkWindow.ReadingPastAGapLosesTheEntry | src/backed.rs:181-214 | completing a frame from past a gap is refused and loses the entry that was waited for, in every continuation |
| LinkGap.RevivalIsSafeExactly | src/connection.rs:287-317 | for every reachable link with nothing refused yet: after the writer's revival every continuation without further window writes delivers the log in order and unrefused, if and only if nothing was logged since `recover`, or no reader can follow, or the connection has died |
| LinkRefusal.TheFirstRefusalIsTheEnd | src/backed.rs:163-224 | over every run: from the first packet refused on, no continuation without a window write delivers anything more, whatever both ends do |
| LinkGap.FailingContinuation | src/connection.rs:287-317 | otherwise one more packet is refused, the first skipped entry is delivered in no continuation, and nothing at all in any without another window write |
| LinkGap.DroppingTheReaderHeals | src/backed.rs:157-159 | if the reader drops its connection before it completes a frame from past the gap, every continuation without a window write delivers the log in order |
| LinkGap.ReconnectingHeals | src/connection.rs:244-320 | over every run with nothing refused whose backup reaches back to the reader's number: one more reconnect has the whole log delivered or queued, and what comes later is delivered too |
| LinkGap.WindowWriteLosesThePacket | src/connection.rs:287-317 | a run from a fresh session in which one window write makes the reader refuse the next packet, loses the first for good, and ends all delivery without another |
| Varints.WriteVarint | src/proto.rs:141-147 | the loop appends the base-128 form |
| Varints.ReadVarint | src/proto.rs:149-162 | the loop's value, position and error: truncated, or more than ten groups; bits past the 64th dropped |
| Varints.VarintRoundTrip | src/proto.rs:141-162 | every u64 reads back from its form of 1 to 10 bytes, whatever follows |
| Varints.AcceptedFormsNormalise | src/proto.rs:149-222 | every accepted form, canonical or not, re-encodes to no more bytes and rereads equal |
| Varints.Int32RoundTrip | src/proto.rs:180-183 | every i32 survives widening and narrowing; a negative one takes ten bytes |
| Varints.WideningExactly | src/proto.rs:180-183 | what is written is v itself from 0 on and v + 2^64 below |
| Varints.NonNegativeIsShort | src/proto.rs:180-183 | from 0 on that is at most five bytes, and reads as v before any narrowing |
| Varints.NarrowingIsCongruent | src/proto.rs:267-273 | the narrowed value is the one i32 that agrees modulo 2^32 |
| Varints.VarintDigits | src/proto.rs:141-147 | byte i of a varint holds the i-th base-128 digit, with the high bit on every byte but the last |
| Varints.NarrowingIsExactWithin31Bits | src/connection.rs:275-281 | a sequence number survives the cast to i32 if and only if it is below 2^31 |
| Wire.WriteTag | src/proto.rs:164-166 | appends the tag varint |
| Wire.WriteBytes | src/proto.rs:168-194 | strings, bytes and embedded messages: tag, length, data |
| Wire.WriteInt32 | src/proto.rs:180-183 | tag, and then the varint of v from 0 on, of v + 2^64 below |
| Wire.WriteBool | src/proto.rs:185-188 | tag and 0 or 1 |
| Wire.ParseFields | src/proto.rs:209-249 | the loop gives all fields of the message, or the first error, and ends on every input |
| Wire.FieldOutcomes | src/proto.rs:209-249 | one field, wire type by wire type: its number, its data, how far it reaches, and which error |
| Wire.FieldMeanings | src/proto.rs:251-273 | which fields are a text, bytes or a number, and which value they have |
| Wire.ParseConcatenation | src/proto.rs:209-249 | if a parses, a followed by b parses to the fields of a and then those of b, or b's error |
| Wire.ItemsParse | src/proto.rs:164-249 | whatever the writers write parses back to exactly its fields |
| Wire.DecodeLoop | src/proto.rs:295-305 | the loop every decoder runs folds the fields in order and stops at the first error |
| Encoders.EncodeConnectRequest | src/proto.rs:284-293 | the encoder's buffer holds exactly the message's fields in order |
| Encoders.EncodeSequenceHeader | src/proto.rs:338-344 | likewise |
| Encoders.EncodeTerminalInfo | src/proto.rs:400-418 | likewise, five optional fields |
| Encoders.EncodeCatchup | src/proto.rs:358-364 | the loop writes every entry once, in order |
| Encoders.EncodePortForward | src/proto.rs:462-474 | nested endpoints are encoded and embedded |
| Encoders.EncodeInitialPayload | src/proto.rs:499-512 | both loops, the map in any iteration order; only a true `jumphost` is written |
| MessageLaws.ConnectRequestRoundTrip | src/proto.rs:283-306 | decoding inverts encoding; of two concatenated encodings the last value of each field wins |
| MessageLaws.ConnectResponseRoundTrip | src/proto.rs:308-335 | likewise, statuses included |
| MessageLaws.SequenceHeaderRoundTrip | src/proto.rs:337-355 | likewise |
| MessageLaws.CatchupRoundTrip | src/proto.rs:357-377 | any list of entries comes back; concatenated encodings decode to concatenated lists |
| MessageLaws.TerminalBufferRoundTrip | src/proto.rs:379-397 | round trip and last one wins |
| MessageLaws.TerminalInfoRoundTrip | src/proto.rs:399-434 | round trip and last one wins, field by field |
| MessageLaws.EndpointRoundTrip | src/proto.rs:436-459 | round trip and last one wins |
| MessageLaws.TunnelRoundTrip | src/proto.rs:461-496 | nested round trip; of two embedded messages the last replaces the first whole |
| MessageLaws.MergesAsTheGuideExactly | src/proto.rs:477-495 | two concatenated encodings decode to the encoding guide's field-by-field merge if and only if no embedded message loses a field by being replaced |
| MessageLaws.ReplacingLosesTheName | src/proto.rs:477-495 | a name-only and then a port-only endpoint: the guide keeps both, the decoder the port alone |
| MessageLaws.MapEntryRoundTrip | src/proto.rs:196-201 | a map entry's key and value come back |
| MessageLaws.InitialPayloadRoundTrip | src/proto.rs:498-546 | the payload comes back under every iteration order of its map, a false `jumphost` as absent |
| MessageLaws.InitialResponseRoundTrip | src/proto.rs:548-566 | round trip and last one wins |
| KnownBytes.RequestLayout | src/proto.rs:283-293 | a request of protocol version 6, byte by byte |
| KnownBytes.ResponseLayout | src/proto.rs:308-318 | the four status codes and the error text, byte by byte |
| KnownBytes.HeaderLayout | src/proto.rs:337-344 | a sequence number in one byte and in two |
| KnownBytes.CatchupLayout | src/proto.rs:357-364 | two entries, byte by byte |
| KnownBytes.TerminalLayout | src/proto.rs:399-418 | the five fields of a terminal, byte by byte |
| KnownBytes.TunnelLayout | src/proto.rs:461-474 | two embedded endpoints and a variable |
| KnownBytes.PayloadLayout | src/proto.rs:498-512 | the flag, a tunnel and an entry of the environment |
| KnownBytes.StatusCodes | src/proto.rs:50-60 | a decoded number names each status if and only if it is that status's code |
| KnownBytes.OthersArePassedOver | src/proto.rs:295-566 | in every message, fields with other numbers change nothing |
| KnownBytes.OtherWireTypes | src/proto.rs:295-546 | a known field of another wire type clears an optional value and leaves a status, a list or an embedded message |
| KnownBytes.EmbeddedEndpoints | src/proto.rs:476-494 | an embedded endpoint is taken whole, or its error fails the tunnel |
| KnownBytes.PayloadFields | src/proto.rs:514-546 | what each field of a payload does, and which fail it |
| Framing.WriteProto | src/proto.rs:572-580 | eight length bytes and the encoding |
| Framing.ReadProto | src/proto.rs:583-596 | the message and exactly its bytes, or which error: short input, a length out of range, an undecodable body |
| KnownBytes.FramedBytes | src/proto.rs:572-580 | the eight length bytes of a message, least significant first |
| KnownBytes.LengthDecides | src/proto.rs:583-596 | each outcome by the length that was read: refused as negative or above 134217728, short of bytes, or decoded |
| Framing.FramedRoundTrip | src/proto.rs:572-596 | a framed message reads back and leaves what follows if and only if its encoding is at most 128 MiB |
| Framing.TruncatedIsEndOfInput | src/proto.rs:583-596 | cut short anywhere it is refused for want of input, even where a prefix of its encoding would decode |
| Framing.PrefixRead | src/proto.rs:583-596 | however many bytes arrive of a message and what follows it: the whole message is received or nothing |
| Handshake.SequenceNumberCrosses | src/connection.rs:275-285 | the header arrives as sent whatever follows; it names the true number if and only if that is below 2^31 |
| Handshake.LongSessionsCannotResume | src/connection.rs:275-293 | a number from 2^31 on is refused: below 2^32 by every writer, above by every writer that has logged that many packets and backs up fewer than 2^32 |
| Handshake.CatchupCrosses | src/connection.rs:294-301 | catch-up entries arrive as sent if and only if their encoding is at most 128 MiB |
| Handshake.CatchupCanBeTooLong | src/proto.rs:587-589 | two packets that respect both 64 MiB limits whose catch-up every peer refuses |
| Reconnect.CatchUp | src/connection.rs:287-320 | catch-up out and in and both revivals, over a connection that may fail at any byte and any writes in the window |
| Reconnect.Exchange | src/connection.rs:275-320 | sequence numbers out and in, recover, catch-up: verdict, both ends, bytes sent, bytes left |
| Reconnect.TryRecover | src/connection.rs:244-320 | the whole attempt on the real classes: verdict, both ends, bytes sent, and that the revived reader starts at the first byte after the handshake |
| Reconnect.TheAnswerDecides | src/connection.rs:250-273 | whatever the server sends: the session ends if and only if the request was sent and the answer refuses the key; without a returning client's answer both ends are untouched |
| Reconnect.TheServerDecides | src/connection.rs:250-273 | for every response that arrives whole: which verdict each status gives, what was sent, and that any but a returning client's leaves both ends as they were |
| Reconnect.AttemptOverAPrefix | src/connection.rs:244-320 | for every prefix of the server's bytes and every number of bytes the connection takes: both ends are revived, with exactly the server's entries and exactly `log[remote..]` sent; or the attempt is an error, the reader is untouched, the writer changed only by the window, and a prefix was sent |
| Reconnect.RefusedRecoveryChangesNothing | src/connection.rs:287-293 | a number the writer cannot recover ends the attempt with both ends untouched |
| Reconnect.HandshakeThroughBytes | src/connection.rs:275-317 | when everything gets through: the exact outcome, with the bytes after the handshake unread |
| HandshakeRefinement.TryRecoverRefinesTheLinks | src/connection.rs:244-320 | over any prefix in both directions, the byte-level attempt ends where the links end: after `Recover`, the window's `Write` steps and both revivals, or with the reader untouched and at most those `Write` steps taken |
| HandshakeRefinement.ServerReadsAllOrNothing | src/connection.rs:253-301 | from any prefix of the client's bytes the server revives its reader exactly as the abstract step does, or lacks input and leaves it untouched |
| Lifecycle.StepKeepsLifeInv | src/connection.rs:118-320 | every lock section and atomic operation of every thread keeps the invariant behind the six results below |
| Lifecycle.AtMostOneReconnectThread | src/connection.rs:163-242 | in every interleaving at most one reconnect thread has not ended |
| Lifecycle.RecoverFindsADeadWriter | src/connection.rs:287-317 | `recover` and both `revive` calls always find reader and writer present and the writer's socket dead |
| Lifecycle.ReportedSequenceIsFrozen | src/connection.rs:275-310 | the reader's number is unchanged from the moment it is reported until the reader is revived |
| Lifecycle.AliveAtTheLoopHead | src/client.rs:104-107 | at the head of the session loop `socket_alive` implies both sockets |
| Lifecycle.ShutdownIsFinal | src/connection.rs:193-209 | once reader and writer are cleared, no reconnect thread runs and none can be spawned |
| Lifecycle.ADeadConnectionIsAttended | src/connection.rs:163-242 | a disconnected client is always being reconnected: whenever the main thread finds `socket_alive` and `shutting_down` clear, the stored handle names a reconnect thread that has not ended |
| LifecycleLaws.TheEndHasACause | src/connection.rs:193-242 | over every interleaving: `shutting_down` is set only after a call of `shutdown` or a refusal of the key, and no other failure sets it |
| LifecycleLaws.FailedAttemptsAreTriedAgain | src/connection.rs:218-242 | an attempt that fails at any point is slept over and begun again, with nothing else changed |
| LifecycleLaws.AThreadEndsForAReason | src/connection.rs:218-242 | a reconnect thread that has ended found the connection alive or the session over, or revived both ends, or was refused |
| LifecycleLaws.AThreadEndsExactly | src/connection.rs:218-242 | and a step ends it if and only if it finds one of these |
| LifecycleLaws.AnUndisturbedAttemptRevives | src/connection.rs:218-320 | an attempt in which nothing fails revives both ends, marks the connection alive and ends, within ten steps of its own |
| LifecycleLaws.AFailedReadReconnects | src/connection.rs:147-185 | after a failed read, or a call that closes, the main thread comes back only with a new reconnect thread spawned and its handle stored, or with the session over |
| LifecycleLaws.ShutdownEndsEverything | src/connection.rs:193-209 | a call of `shutdown` comes back with both ends cleared and every reconnect thread ended |
| LifecycleLaws.AWriteIsTriedUntilItSettles | src/connection.rs:118-145 | over every interleaving a write, skipped or failed, comes back only once it was sent or buffered, or the session is over |
| Session.ClientStaysInProtocol | src/connection.rs:118-320 | whatever the threads do next, the link steps they take are steps the handshake allows |
| Session.RunsKeepSession | src/connection.rs:118-320 | over every interleaving of threads, server and connections, threads and both links stay coupled |
| Session.NoClientStepIsBlocked | src/connection.rs:118-320 | no run of the composed system is cut short by the coupling |
| Session.SessionDelivery | src/connection.rs:118-320 | in whole sessions each direction delivers in order without repeats; delivered and queued are the log, with the cipher in step, if and only if nothing was refused, and nothing is while there is no gap |
| Session.DeliveryWithoutWindowWrites | src/connection.rs:118-320 | if the main thread never writes while its reconnect thread is between `recover` and `revive`, all it logged is delivered in order and once, up to where the server's reader stands |
| SessionGap.TheWindowLosesThePacket | src/connection.rs:287-317 | a run of the client's own threads in which the main thread writes in the window: the server refuses the next packet, and the first is delivered in no continuation of the session |
| Keepalive.Drain | src/client.rs:107-132 | deadline, outstanding flag, clock readings and account after reading packets up to the first malformed one, as the fold of one packet's effect gives them |
| Keepalive.OnePass | src/client.rs:104-169 | the same for one pass: a deadline check only with the socket up and after the packets, the flag cleared with it down, local input last |
| Keepalive.RunSession | src/client.rs:99-182 | the same for every finite run of passes, from the first deadline on; the loop is left at the first failure and stays left |
| Keepalive.ForcedReconnectIsJustified | src/client.rs:99-169 | over every run: forced only after a keepalive with nothing heard and no socket seen down since, and a full clamped interval after every earlier reset |
| Keepalive.DeadlineDecides | src/client.rs:138-153 | and at the deadline check of every pass, after its packets, a keepalive or a forced reconnect happens exactly when that interval is over, forced exactly when one is outstanding |
| Keepalive.Interval | src/client.rs:99 | the number of seconds itself from 1 to 5, the nearer bound outside |
| KeepaliveLaws.EffectOfAPacket | src/client.rs:107-132 | what each kind of packet does to deadline, outstanding flag and loop |
| KeepaliveLaws.EffectOfInput | src/client.rs:156-169 | and each kind of local input |
| KeepaliveLaws.OutstandingExactly | src/client.rs:104-154 | told on the passes: a keepalive is outstanding if and only if an earlier pass wrote one and every pass since had the socket up, no KEEP_ALIVE, and forced nothing |
| KeepaliveLaws.ForcesExactly | src/client.rs:104-154 | a pass forces a reconnect if and only if its deadline is over, its packets hold no KEEP_ALIVE, and a keepalive is outstanding from an earlier pass |
| KeepaliveLaws.DueAfterAFullInterval | src/client.rs:99-169 | a deadline that is over is so by a full interval after everything shown, typed, sent or forced before it |
| KeepaliveLaws.ForcedBySilence | src/client.rs:99-169 | a forced reconnect: an earlier pass wrote a keepalive, every pass since had the socket up and no KEEP_ALIVE, and a full interval has passed since it and since everything shown or typed |
| KeepaliveLaws.EveryActIsAPass | src/client.rs:138-153 | every keepalive and forced reconnect in the loop's account is the act of a pass, the one the laws above are about |
| KeepaliveLaws.OverExactly | src/client.rs:104-169 | over every run: the loop is left on its own if and only if, with a console, some pass that saw the socket up got malformed terminal data or some pass found the console broken |

## Left out

- XSalsa20-Poly1305 itself: a library, replaced by the ideal cipher above; its encryption never fails here.
- Real TCP, DNS, timeouts, sleeps and the switch to non-blocking mode: a socket is a schedule of results; an attempt that fails in any of these is one that fails.
- Liveness: would-block, interrupt and reconnect loops can run forever, so schedules, turns, passes and runs are finite; one that runs out is a connection that is lost or a run that stops.
- Locks and atomics: each lock section and each atomic operation is one step.
- Width of counters: logs are shorter than 2^63 - 1 entries and a reader's cipher opens fewer than 2^184 times; both are guards of the link's steps, as is a frame below 2^32 bytes. Lengths fit in 64 bits. Allocation limits are not modelled.
- Byte order: the message length is host-endian in the source and little-endian here.
- The first connection (`connect`): only the state it leaves is modelled; its initial payload and response are covered by their round trips.
- Packets and messages are values: `encrypt` and `decrypt` return the new packet, and decoders return the new message. What is not captured is the update in place.
- Reconnect.TryRecover: the main thread's writes in the window happen at one point of the method, between `recover` and `revive`, and reader and writer are present throughout, which is what `Lifecycle.RecoverFindsADeadWriter` shows.
- HandshakeRefinement.TryRecoverRefinesTheLinks: needs the server's number below 2^31, its messages at most 128 MiB and sequence numbers left for the window's writes; outside the first two the attempt is refused, under the conditions that `Handshake.LongSessionsCannotResume` and `Handshake.CatchupCrosses` state.
- Session.SessionDelivery: the server serves one attempt of this client at a time. It gives up one the client still uses only by failing it, and begins its part of the next only when the client's thread is done with the last.
- LinkGap.RevivalIsSafeExactly: asks for one sequence number to be left for another write; with none left, nothing can follow a gap.
- Keepalive.RunSession: terminal output that the console refuses, terminal size changes and the signal handler do not appear.
- Encoders of `ConnectResponse`, `TerminalBuffer`, `InitialResponse`: given as values only, as lists of fields.
- HEARTBEAT and unknown packet types: read and ignored.
- `src/terminal.rs`, `src/ssh_setup.rs`, `src/host.rs`, `src/main.rs`, `build.rs` and logging: console calls, processes and argument handling.
