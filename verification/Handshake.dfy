/** The reconnect handshake down to its bytes: what each end sends, what the other makes of it. */
module Handshake {
  import opened Outcomes
  import opened Bytes
  import opened Crypto
  import opened Packets
  import opened Sockets
  import opened Writers
  import opened Readers
  import opened Varints
  import opened Wire
  import opened Messages
  import opened MessageLaws
  import opened Framing

  datatype Failure =
    | NoConnection
    | SendFailed
    | BadMessage(error: ProtoReadError)
    | UnexpectedStatus(status: Option<ConnectStatus>)
    | CannotRecover(reason: RecoverError)

  // ---------------------------------------------------------------- the three messages an end sends

  function RequestBytes(id: Text): seq<byte> {
    EncodeItems(ConnectRequestItems(ConnectRequest(Some(id), Some(PROTOCOL_VERSION))))
  }

  /** The sequence number goes out as an `i32`: its low 32 bits. */
  function HeaderBytes(sequence: nat): seq<byte> {
    EncodeItems(SequenceHeaderItems(SequenceHeader(Some(AsI32(sequence)))))
  }

  /** Entries of a log whose packets fit in a frame are byte vectors of ordinary length. */
  ghost predicate Blobs(entries: seq<seq<byte>>) {
    forall i :: 0 <= i < |entries| ==> |entries[i]| < U64
  }

  ghost function CatchupBytes(entries: seq<seq<byte>>): seq<byte>
    requires Blobs(entries)
  {
    EncodeItems(CatchupItems(AsBlobs(entries)))
  }

  ghost function AsBlobs(entries: seq<seq<byte>>): (b: seq<Blob>)
    requires Blobs(entries)
    ensures b == entries
  {
    seq(|entries|, i requires 0 <= i < |entries| => entries[i])
  }

  ghost function ResponseBytes(m: ConnectResponse): seq<byte> {
    EncodeItems(ConnectResponseItems(m))
  }

  // ---------------------------------------------------------------- what comes out at the other end

  function RemoteSequence(h: SequenceHeader): int {
    match h.sequenceNumber
    case Some(n) => n
    case None => 0
  }

  lemma HeaderIsShort(sequence: nat)
    ensures |HeaderBytes(sequence)| <= 20
  {
    var item := Number(1, AsU64(AsI32(sequence)));
    EncodeOne(item);
    VarintRoundTrip(8, []);
    VarintRoundTrip(AsU64(AsI32(sequence)), []);
  }

  /** The header that comes out of the bytes is the one that went in; the peer learns the true sequence number
      exactly when it is below 2^31. */
  lemma SequenceNumberCrosses(sequence: nat, rest: seq<byte>)
    ensures ReadFramed(TakeSequenceHeader, NO_HEADER, Framed(HeaderBytes(sequence)) + rest)
         == Ok((SequenceHeader(Some(AsI32(sequence))), |Framed(HeaderBytes(sequence))|))
    ensures (Framed(HeaderBytes(sequence)) + rest)[|Framed(HeaderBytes(sequence))|..] == rest
    ensures RemoteSequence(SequenceHeader(Some(AsI32(sequence)))) == sequence <==> sequence < 0x8000_0000
  {
    var h := SequenceHeader(Some(AsI32(sequence)));
    HeaderIsShort(sequence);
    SequenceHeaderRoundTrip(h, h);
    FramedRoundTrip(TakeSequenceHeader, NO_HEADER, HeaderBytes(sequence), h, rest);
    NarrowingIsExactWithin31Bits(sequence);
  }

  /** From 2^31 on the number arrives too small by 2^32 or more, and the session cannot be resumed: below 2^32 it
      arrives negative, and every writer refuses it; above, every writer that has logged so many packets and backs up
      fewer than 2^32 of them does. */
  lemma LongSessionsCannotResume(st: Stream, w: Writer, sequence: nat, rest: seq<byte>)
    requires WriterOk(w) && !w.live && 0x8000_0000 <= sequence
    requires sequence < U32 || (sequence <= |w.log| && w.kept < U32)
    ensures var header := ReadFramed(TakeSequenceHeader, NO_HEADER, Framed(HeaderBytes(sequence)) + rest);
            header.Ok? && RecoverStep(st, w, RemoteSequence(header.value.0)) == Err(BackupExhausted)
  {
    var header := ReadFramed(TakeSequenceHeader, NO_HEADER, Framed(HeaderBytes(sequence)) + rest);
    SequenceNumberCrosses(sequence, rest);
    ArrivesTooSmall(sequence);
    assert header.Ok? && header.value.0 == SequenceHeader(Some(AsI32(sequence)));
    SmallNumbersAreRefused(st, w, AsI32(sequence));
  }

  lemma ArrivesTooSmall(sequence: nat)
    requires 0x8000_0000 <= sequence
    ensures RemoteSequence(SequenceHeader(Some(AsI32(sequence)))) == AsI32(sequence) <= sequence - U32
  {
  }

  lemma SmallNumbersAreRefused(st: Stream, w: Writer, last: int)
    requires WriterOk(w) && !w.live && |w.log| - last > w.kept && last <= |w.log|
    ensures RecoverStep(st, w, last) == Err(BackupExhausted)
  {
  }

  /** The catch-up entries come out as they went in if and only if their encoding is at most 128 MiB. */
  lemma CatchupCrosses(entries: seq<seq<byte>>, rest: seq<byte>)
    requires Blobs(entries) && |CatchupBytes(entries)| < 0x8000_0000_0000_0000
    ensures ReadFramed(TakeCatchup, NO_CATCHUP, Framed(CatchupBytes(entries)) + rest)
         == if |CatchupBytes(entries)| <= MAX_PROTO_BYTES
            then Ok((CatchupBuffer(AsBlobs(entries)), |Framed(CatchupBytes(entries))|))
            else Err(InvalidLength(|CatchupBytes(entries)|))
  {
    var b := AsBlobs(entries);
    CatchupRoundTrip(b, []);
    FramedRoundTrip(TakeCatchup, NO_CATCHUP, CatchupBytes(entries), CatchupBuffer(b), rest);
  }

  // ---------------------------------------------------------------- what comes out when the connection dies on the way

  lemma HeaderPrefix(sequence: nat, rest: seq<byte>, input: seq<byte>)
    requires input <= Framed(HeaderBytes(sequence)) + rest
    ensures var n := |Framed(HeaderBytes(sequence))|;
            && Received(TakeSequenceHeader, NO_HEADER, input)
               == (if |input| >= n then Ok((SequenceHeader(Some(AsI32(sequence))), input[n..])) else Err(EndOfInput))
            && (|input| >= n ==> input[n..] <= rest)
  {
    var h := SequenceHeader(Some(AsI32(sequence)));
    HeaderIsShort(sequence);
    SequenceHeaderRoundTrip(h, h);
    PrefixRead(TakeSequenceHeader, NO_HEADER, HeaderBytes(sequence), h, rest, input);
  }

  lemma CatchupPrefix(entries: seq<seq<byte>>, rest: seq<byte>, input: seq<byte>)
    requires Blobs(entries) && |CatchupBytes(entries)| <= MAX_PROTO_BYTES
             && input <= Framed(CatchupBytes(entries)) + rest
    ensures var n := |Framed(CatchupBytes(entries))|;
            && Received(TakeCatchup, NO_CATCHUP, input)
               == (if |input| >= n then Ok((CatchupBuffer(AsBlobs(entries)), input[n..])) else Err(EndOfInput))
            && (|input| >= n ==> input[n..] <= rest)
  {
    CatchupRoundTrip(AsBlobs(entries), []);
    PrefixRead(TakeCatchup, NO_CATCHUP, CatchupBytes(entries), CatchupBuffer(AsBlobs(entries)), rest, input);
  }

  lemma ResponsePrefix(response: ConnectResponse, rest: seq<byte>, input: seq<byte>)
    requires |ResponseBytes(response)| <= MAX_PROTO_BYTES && input <= Framed(ResponseBytes(response)) + rest
    ensures var n := |Framed(ResponseBytes(response))|;
            && Received(TakeConnectResponse, NO_RESPONSE, input)
               == (if |input| >= n then Ok((response, input[n..])) else Err(EndOfInput))
            && (|input| >= n ==> input[n..] <= rest)
  {
    ConnectResponseRoundTrip(response, response);
    PrefixRead(TakeConnectResponse, NO_RESPONSE, ResponseBytes(response), response, rest, input);
  }

  lemma RequestPrefix(id: Text, rest: seq<byte>, input: seq<byte>)
    requires |RequestBytes(id)| <= MAX_PROTO_BYTES && input <= Framed(RequestBytes(id)) + rest
    ensures var n := |Framed(RequestBytes(id))|;
            && Received(TakeConnectRequest, NO_REQUEST, input)
               == (if |input| >= n then Ok((ConnectRequest(Some(id), Some(PROTOCOL_VERSION)), input[n..]))
                   else Err(EndOfInput))
            && (|input| >= n ==> input[n..] <= rest)
  {
    var m := ConnectRequest(Some(id), Some(PROTOCOL_VERSION));
    ConnectRequestRoundTrip(m, m);
    PrefixRead(TakeConnectRequest, NO_REQUEST, RequestBytes(id), m, rest, input);
  }

  lemma {:induction false} FlattenLength(parts: seq<seq<byte>>, i: nat)
    requires i < |parts|
    ensures |Flatten(parts)| >= |parts[i]|
    ensures i > 0 ==> |Flatten(parts)| >= |parts[0]| + |parts[i]|
  {
    if i > 0 {
      FlattenLength(parts[1..], i - 1);
    }
  }

  /** The limit can be passed by a writer that never exceeds its own: one packet of 64 MiB logged on a live socket,
      another accepted while disconnected, and the catch-up from zero is refused by every peer. */
  lemma CatchupCanBeTooLong(st: Stream, p: Packet, q: Packet, rest: seq<byte>)
    requires TagLaw(st) && !p.encrypted && !q.encrypted
    requires SealedLength(p) == MAX_BACKUP_BYTES && q.Length() == DISCONNECT_BUFFER_BYTES
    ensures var w := WriteStep(st, WriteStep(st, NEW_WRITER, p, []).writer, q, []).writer;
            var catchup := RecoverStep(st, w, 0);
            && catchup == Ok([Entry(st, 0, p), Entry(st, 1, q)])
            && Blobs(catchup.value)
            && ReadFramed(TakeCatchup, NO_CATCHUP, Framed(CatchupBytes(catchup.value)) + rest)
               == Err(InvalidLength(|CatchupBytes(catchup.value)|))
  {
    var w1 := WriteStep(st, NEW_WRITER, p, []).writer;
    assert [] + [p] == [p];
    assert TailBytes([p], 1) == SealedLength(p) + TailBytes([p], 0);
    assert LongestFit([p], 1) == 1;
    assert w1 == Writer([p], false, 1, 0);
    var w2 := WriteStep(st, w1, q, []).writer;
    assert [p] + [q] == [p, q];
    assert w2.log == [p, q] && w2.kept == 2 && !w2.live;
    var entries := [Entry(st, 0, p), Entry(st, 1, q)];
    assert Entries(st, [p, q], 0, 2) == entries;
    SealedHasSealedLength(st, 0, p);
    SealedHasSealedLength(st, 1, q);
    TwoEntriesTooLong(entries, rest);
  }

  lemma TwoEntriesTooLong(entries: seq<seq<byte>>, rest: seq<byte>)
    requires |entries| == 2 && |entries[0]| == 0x400_0000 && |entries[1]| == 0x400_0010
    ensures Blobs(entries)
    ensures ReadFramed(TakeCatchup, NO_CATCHUP, Framed(CatchupBytes(entries)) + rest)
            == Err(InvalidLength(|CatchupBytes(entries)|))
  {
    assert Blobs(entries);
    var parts := EncodeEach(CatchupItems(AsBlobs(entries)));
    assert parts[0] == LengthField(1, entries[0]) && parts[1] == LengthField(1, entries[1]);
    FlattenLength(parts, 1);
    assert parts == [parts[0], parts[1]];
    var none: seq<seq<byte>> := [];
    assert parts[1..] == [parts[1]] && parts[1..][1..] == none;
    assert Flatten(parts[1..]) == parts[1] + Flatten(none);
    VarintRoundTrip(10, []);
    VarintRoundTrip(|entries[0]|, []);
    VarintRoundTrip(|entries[1]|, []);
    assert MAX_PROTO_BYTES < |CatchupBytes(entries)| < 0x8000_0000;
    CatchupCrosses(entries, rest);
  }
}
