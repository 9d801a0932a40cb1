/** One reconnect attempt of this client, over the bytes it exchanges with the server. */
module Reconnect {
  import opened Outcomes
  import opened Bytes
  import opened Crypto
  import opened Packets
  import opened Sockets
  import opened Writers
  import opened Readers
  import opened Varints
  import opened Wire
  import opened Messages
  import opened MessageLaws
  import opened Encoders
  import opened Framing
  import opened Handshake

  /** Outcome of an attempt: the verdict, both ends afterwards, what was sent, and what the server sent that is still
      unread. */
  datatype Recovery = Recovery(verdict: Result<bool, Failure>, writer: Writer, reader: Reader, sent: seq<byte>,
                               unread: seq<byte>)

  /** Packets in a log whose frames are below 2^32 bytes. */
  ghost predicate Ordinary(st: Stream, w: Writer) {
    TagLaw(st) && WriterOk(w) && forall i :: 0 <= i < |w.log| ==> SealedLength(w.log[i]) < U32
  }

  lemma EntriesAreBlobs(st: Stream, w: Writer, from: nat)
    requires Ordinary(st, w) && from <= |w.log|
    ensures Blobs(Entries(st, w.log, from, |w.log|))
  {
    forall i | 0 <= i < |w.log| - from
      ensures |Entries(st, w.log, from, |w.log|)[i]| < U64
    {
      var at := from + i;
      assert SealedLength(w.log[at]) < U32;
      SealedHasSealedLength(st, at, w.log[at]);
      assert Entries(st, w.log, from, |w.log|)[i] == Entry(st, at, w.log[at]);
    }
  }

  /** The writer after the main thread's writes that fall between `recover` and `revive`. */
  function AfterWindow(st: Stream, w: Writer, window: seq<Packet>): (r: Writer)
    requires w.kept <= |w.log|
    ensures r.kept <= |r.log|
  {
    if window == [] then w
    else WriteStep(st, AfterWindow(st, w, window[..|window| - 1]), window[|window| - 1], []).writer
  }

  /** The attempt as a function of what the server sends (`input`), how many bytes the connection takes before it
      fails (`budget`), and what the main thread writes in the window. */
  ghost function TryRecoverStep(st: Stream, w: Writer, r: Reader, id: Text, connected: bool, input: seq<byte>,
                                budget: nat, window: seq<Packet>): Recovery
    requires Ordinary(st, w)
  {
    var sent := Framed(RequestBytes(id));
    if !connected then Recovery(Err(NoConnection), w, r, [], input)
    else if |sent| > budget then Recovery(Err(SendFailed), w, r, sent[..budget], input)
    else match ReadFramed(TakeConnectResponse, NO_RESPONSE, input)
      case Err(e) => Recovery(Err(BadMessage(e)), w, r, sent, input)
      case Ok(response) =>
        if response.0.status == Some(InvalidKey) then Recovery(Ok(false), w, r, sent, input[response.1..])
        else if response.0.status != Some(ReturningClient) then
          Recovery(Err(UnexpectedStatus(response.0.status)), w, r, sent, input[response.1..])
        else ExchangeStep(st, w, r, sent, input[response.1..], budget, window)
  }

  ghost function ExchangeStep(st: Stream, w: Writer, r: Reader, before: seq<byte>, input: seq<byte>, budget: nat,
                              window: seq<Packet>): Recovery
    requires Ordinary(st, w)
  {
    var sent := before + Framed(HeaderBytes(r.sequence));
    if |sent| > budget then Recovery(Err(SendFailed), w, r, sent[..budget], input)
    else match ReadFramed(TakeSequenceHeader, NO_HEADER, input)
      case Err(e) => Recovery(Err(BadMessage(e)), w, r, sent, input)
      case Ok(header) =>
        match RecoverStep(st, w, RemoteSequence(header.0))
        case Err(e) => Recovery(Err(CannotRecover(e)), w, r, sent, input[header.1..])
        case Ok(entries) =>
          EntriesAreBlobs(st, w, RemoteSequence(header.0));
          CatchUpStep(AfterWindow(st, w, window), r, sent, entries, input[header.1..], budget)
  }

  ghost function CatchUpStep(w: Writer, r: Reader, before: seq<byte>, entries: seq<seq<byte>>, input: seq<byte>,
                             budget: nat): Recovery
    requires Blobs(entries)
  {
    var sent := before + Framed(CatchupBytes(entries));
    if |sent| > budget then Recovery(Err(SendFailed), w, r, sent[..budget], input)
    else match ReadFramed(TakeCatchup, NO_CATCHUP, input)
      case Err(e) => Recovery(Err(BadMessage(e)), w, r, sent, input)
      case Ok(catchup) => Recovery(Ok(true), ReviveWriterStep(w), ReviveReaderStep(r, catchup.0.buffer), sent,
                                   input[catchup.1..])
  }

  // ---------------------------------------------------------------- the attempt as the client runs it

  /** The connection an attempt runs over: what the server sends, and a count of what it will still accept. */
  class Connection {
    const input: Cursor
    const output: ByteBuffer
    const budget: nat

    ghost predicate Valid()
      reads this, input, output
    {
      input.Valid() && |output.bytes| <= budget
    }

    function Unread(): seq<byte>
      requires input.Valid()
      reads input
    {
      input.data[input.position..]
    }

    constructor (data: seq<byte>, budget: nat)
      ensures Valid() && Unread() == data && output.bytes == [] && this.budget == budget && fresh(input)
              && fresh(output)
    {
      input := new Cursor(data);
      output := new ByteBuffer();
      this.budget := budget;
    }

    method Send(payload: seq<byte>) returns (ok: bool)
      requires Valid()
      modifies output
      ensures Valid()
      ensures var all := old(output.bytes) + Framed(payload);
              ok == (|all| <= budget) && output.bytes == if ok then all else all[..budget]
    {
      WriteProto(output, payload);
      ok := |output.bytes| <= budget;
      if !ok {
        output.bytes := output.bytes[..budget];
      }
    }

    method Receive<M>(take: (M, Field) -> Result<M, ProtoError>, empty: M) returns (r: Result<M, ProtoReadError>)
      requires Valid()
      modifies input
      ensures Valid()
      ensures match ReadFramed(take, empty, old(Unread()))
              case Ok(g) => r == Ok(g.0) && Unread() == old(Unread())[g.1..]
              case Err(e) => r == Err(e)
    {
      r := ReadProto(input, take, empty);
    }
  }

  method WriteInWindow(writer: BackedWriter, window: seq<Packet>)
    requires writer.Valid() && writer.socket == null
    modifies writer, writer.crypto, writer.crypto.nonce
    ensures writer.Valid() && writer.socket == null
    ensures writer.View() == AfterWindow(writer.crypto.Direction(), old(writer.View()), window)
  {
    assert window[..0] == [];
    for i := 0 to |window|
      invariant writer.Valid() && writer.socket == null
      invariant writer.View() == AfterWindow(writer.crypto.Direction(), old(writer.View()), window[..i])
    {
      var state := writer.Write(window[i]);
      assert window[..i + 1][..i] == window[..i];
    }
    assert window[..|window|] == window;
  }

  /** Hands both halves of the connection over: the reader gets what the server has sent and the catch-up, the writer
      the rest. */
  method ReviveBoth(c: Connection, reader: BackedReader, writer: BackedWriter, catchup: seq<seq<byte>>,
                    schedule: seq<Io>)
    requires c.Valid() && reader.Valid() && writer.Valid()
    requires writer.crypto != reader.crypto && writer.crypto.nonce != reader.crypto.nonce
    modifies reader, writer
    ensures reader.Valid() && writer.Valid()
    ensures writer.View() == ReviveWriterStep(old(writer.View()))
            && reader.View() == ReviveReaderStep(old(reader.View()), catchup)
    ensures reader.socket != null && reader.socket.inbound == c.Unread()
  {
    var readHalf := new Socket(c.Unread(), schedule);
    reader.Revive(readHalf, catchup);
    var writeHalf := new Socket([], schedule);
    writer.Revive(writeHalf);
  }

  /** `CatchupBuffer` out and in, then `revive` twice. The writer's lock is free between `recover` and `revive`:
      `window` is whatever the main thread writes there. */
  method CatchUp(c: Connection, reader: BackedReader, writer: BackedWriter, entries: seq<seq<byte>>,
                 window: seq<Packet>, schedule: seq<Io>)
    returns (verdict: Result<bool, Failure>)
    requires c.Valid() && reader.Valid() && writer.Valid() && writer.socket == null && Blobs(entries)
    requires writer.crypto != reader.crypto && writer.crypto.nonce != reader.crypto.nonce
    modifies c.input, c.output, reader, writer, writer.crypto, writer.crypto.nonce
    ensures reader.Valid() && writer.Valid()
    ensures var st := writer.crypto.Direction();
            var s := CatchUpStep(AfterWindow(st, old(writer.View()), window), old(reader.View()), old(c.output.bytes),
                                 entries, old(c.Unread()), c.budget);
            verdict == s.verdict && writer.View() == s.writer && reader.View() == s.reader && c.output.bytes == s.sent
            && (verdict == Ok(true) ==> reader.socket != null && reader.socket.inbound == s.unread)
  {
    var payload := EncodeCatchup(entries);
    assert payload == CatchupBytes(entries);
    WriteInWindow(writer, window);
    var sent := c.Send(payload);
    if !sent {
      return Err(SendFailed);
    }
    var catchup := c.Receive(TakeCatchup, NO_CATCHUP);
    if catchup.Err? {
      return Err(BadMessage(catchup.error));
    }
    ReviveBoth(c, reader, writer, catchup.value.buffer, schedule);
    verdict := Ok(true);
  }

  method Exchange(c: Connection, reader: BackedReader, writer: BackedWriter, window: seq<Packet>, schedule: seq<Io>)
    returns (verdict: Result<bool, Failure>)
    requires c.Valid() && reader.Valid() && writer.Valid() && Ordinary(writer.crypto.Direction(), writer.View())
    requires writer.crypto != reader.crypto && writer.crypto.nonce != reader.crypto.nonce
    modifies c.input, c.output, reader, writer, writer.crypto, writer.crypto.nonce
    ensures reader.Valid() && writer.Valid()
    ensures var s := old(ExchangeStep(writer.crypto.Direction(), writer.View(), reader.View(), c.output.bytes,
                                      c.Unread(), c.budget, window));
            verdict == s.verdict && writer.View() == s.writer && reader.View() == s.reader && c.output.bytes == s.sent
            && (verdict == Ok(true) ==> reader.socket != null && reader.socket.inbound == s.unread)
  {
    var header := SequenceHeader(Some(AsI32(reader.sequenceNumber)));
    var payload := EncodeSequenceHeader(header);
    var sent := c.Send(payload);
    if !sent {
      return Err(SendFailed);
    }
    var remote := c.Receive(TakeSequenceHeader, NO_HEADER);
    if remote.Err? {
      return Err(BadMessage(remote.error));
    }
    var recovered := writer.Recover(RemoteSequence(remote.value));
    if recovered.Err? {
      return Err(CannotRecover(recovered.error));
    }
    EntriesAreBlobs(writer.crypto.Direction(), writer.View(), RemoteSequence(remote.value));
    verdict := CatchUp(c, reader, writer, recovered.value, window, schedule);
  }

  method TryRecover(c: Connection, id: Text, connected: bool, reader: BackedReader, writer: BackedWriter,
                    window: seq<Packet>, schedule: seq<Io>)
    returns (verdict: Result<bool, Failure>)
    requires c.Valid() && c.output.bytes == []
    requires reader.Valid() && writer.Valid() && Ordinary(writer.crypto.Direction(), writer.View())
    requires writer.crypto != reader.crypto && writer.crypto.nonce != reader.crypto.nonce
    modifies c.input, c.output, reader, writer, writer.crypto, writer.crypto.nonce
    ensures reader.Valid() && writer.Valid()
    ensures var s := old(TryRecoverStep(writer.crypto.Direction(), writer.View(), reader.View(), id, connected,
                                        c.Unread(), c.budget, window));
            verdict == s.verdict && writer.View() == s.writer && reader.View() == s.reader && c.output.bytes == s.sent
            && (verdict == Ok(true) ==> reader.socket != null && reader.socket.inbound == s.unread)
  {
    if !connected {
      return Err(NoConnection);
    }
    var payload := EncodeConnectRequest(ConnectRequest(Some(id), Some(PROTOCOL_VERSION)));
    var sent := c.Send(payload);
    assert [] + Framed(RequestBytes(id)) == Framed(RequestBytes(id));
    if !sent {
      return Err(SendFailed);
    }
    var response := c.Receive(TakeConnectResponse, NO_RESPONSE);
    if response.Err? {
      return Err(BadMessage(response.error));
    }
    if response.value.status == Some(InvalidKey) {
      return Ok(false);
    }
    if response.value.status != Some(ReturningClient) {
      return Err(UnexpectedStatus(response.value.status));
    }
    verdict := Exchange(c, reader, writer, window, schedule);
  }

  // ---------------------------------------------------------------- two ends

  /** What the server sends a returning client: its response, its reader's sequence number, its writer's catch-up; and
      then, on the revived connection, `live`. */
  ghost function ServerBytes(response: ConnectResponse, sequence: nat, entries: seq<seq<byte>>,
                             live: seq<byte>): seq<byte>
    requires Blobs(entries)
  {
    Framed(ResponseBytes(response)) + (Framed(HeaderBytes(sequence)) + (Framed(CatchupBytes(entries)) + live))
  }

  /** How many of those bytes are the handshake. */
  ghost function ServerLength(response: ConnectResponse, sequence: nat, entries: seq<seq<byte>>): nat
    requires Blobs(entries)
  {
    |Framed(ResponseBytes(response))| + (|Framed(HeaderBytes(sequence))| + |Framed(CatchupBytes(entries))|)
  }

  /** What the client sends in a whole attempt: its request, its reader's sequence number, its writer's catch-up. */
  ghost function ClientBytes(id: Text, sequence: nat, entries: seq<seq<byte>>): seq<byte>
    requires Blobs(entries)
  {
    Framed(RequestBytes(id)) + Framed(HeaderBytes(sequence)) + Framed(CatchupBytes(entries))
  }

  /** Either the attempt is complete, both ends are revived, `out` is sent and `unread` left; or it ends in an error,
      the reader is untouched, the writer is as before or as the window left it, and a prefix of `out` is sent. */
  ghost predicate AllOrNothing(s: Recovery, complete: bool, w: Writer, after: Writer, r: Reader,
                               entries: seq<seq<byte>>,
                               out: seq<byte>, unread: seq<byte>) {
    if complete then
      s == Recovery(Ok(true), ReviveWriterStep(after), ReviveReaderStep(r, entries), out, unread)
    else
      s.verdict.Err? && s.reader == r && (s.writer == w || s.writer == after) && s.sent <= out
  }

  lemma NumberIsExact(remote: nat)
    requires remote < 0x8000_0000
    ensures RemoteSequence(SequenceHeader(Some(AsI32(remote)))) == remote
  {
    NarrowingIsExactWithin31Bits(remote);
  }

  /** The part of the handshake that is the same in both directions: a sequence number, then a catch-up; and what
      follows. */
  function HeaderAndCatchup(input: seq<byte>): Result<(SequenceHeader, CatchupBuffer, seq<byte>), ProtoReadError> {
    match Received(TakeSequenceHeader, NO_HEADER, input)
    case Err(e) => Err(e)
    case Ok(header) =>
      match Received(TakeCatchup, NO_CATCHUP, header.1)
      case Err(e) => Err(e)
      case Ok(catchup) => Ok((header.0, catchup.0, catchup.1))
  }

  /** What the client makes of the server's bytes: its response first. */
  function ServerSays(input: seq<byte>): Result<(SequenceHeader, CatchupBuffer, seq<byte>), ProtoReadError> {
    match Received(TakeConnectResponse, NO_RESPONSE, input)
    case Err(e) => Err(e)
    case Ok(response) => HeaderAndCatchup(response.1)
  }

  /** The server's response and sequence number, as far as they arrive. */
  predicate Says(response: ConnectResponse, remote: nat, input: seq<byte>) {
    var first := Received(TakeConnectResponse, NO_RESPONSE, input);
    first.Ok? ==> first.value.0 == response && SaysNumber(remote, first.value.1)
  }

  predicate SaysNumber(remote: nat, input: seq<byte>) {
    var header := Received(TakeSequenceHeader, NO_HEADER, input);
    header.Ok? ==> RemoteSequence(header.value.0) == remote
  }

  lemma CatchUpFlow(s: Recovery, w: Writer, after: Writer, r: Reader, before: seq<byte>, mine: seq<seq<byte>>,
                    input: seq<byte>, budget: nat)
    requires Blobs(mine) && |before| <= budget && s == CatchUpStep(after, r, before, mine, input, budget)
    ensures var out, got := before + Framed(CatchupBytes(mine)), Received(TakeCatchup, NO_CATCHUP, input);
            if got.Ok? && |out| <= budget then AllOrNothing(s, true, w, after, r, got.value.0.buffer, out, got.value.1)
            else AllOrNothing(s, false, w, after, r, [], out, [])
  {
  }

  lemma ExchangeFlow(st: Stream, s: Recovery, w: Writer, r: Reader, before: seq<byte>, remote: nat,
                     mine: seq<seq<byte>>,
                     input: seq<byte>, budget: nat, window: seq<Packet>)
    requires Ordinary(st, w) && RecoverStep(st, w, remote) == Ok(mine) && Blobs(mine) && |before| <= budget
    requires SaysNumber(remote, input) && s == ExchangeStep(st, w, r, before, input, budget, window)
    ensures var out := before + Framed(HeaderBytes(r.sequence)) + Framed(CatchupBytes(mine));
            var after := AfterWindow(st, w, window);
            var got := HeaderAndCatchup(input);
            if got.Ok? && |out| <= budget then AllOrNothing(s, true, w, after, r, got.value.1.buffer, out, got.value.2)
            else AllOrNothing(s, false, w, after, r, [], out, [])
  {
    var sent, after := before + Framed(HeaderBytes(r.sequence)), AfterWindow(st, w, window);
    var header := Received(TakeSequenceHeader, NO_HEADER, input);
    if header.Ok? && |sent| <= budget {
      assert s == CatchUpStep(after, r, sent, mine, header.value.1, budget);
      CatchUpFlow(s, w, after, r, sent, mine, header.value.1, budget);
    } else {
      assert s.verdict.Err? && s.writer == w && s.reader == r && s.sent <= sent;
      StoppedIsNothing(s, w, after, r, [], sent, sent + Framed(CatchupBytes(mine)), []);
    }
  }

  lemma AttemptFlow(st: Stream, s: Recovery, w: Writer, r: Reader, id: Text, response: ConnectResponse, remote: nat,
                    mine: seq<seq<byte>>,
                    input: seq<byte>, budget: nat, window: seq<Packet>)
    requires Ordinary(st, w) && RecoverStep(st, w, remote) == Ok(mine) && Blobs(mine)
    requires Says(response, remote, input) && response.status == Some(ReturningClient)
    requires s == TryRecoverStep(st, w, r, id, true, input, budget, window)
    ensures var out, after, got := ClientBytes(id, r.sequence, mine), AfterWindow(st, w, window), ServerSays(input);
            if got.Ok? && |out| <= budget then AllOrNothing(s, true, w, after, r, got.value.1.buffer, out, got.value.2)
            else AllOrNothing(s, false, w, after, r, [], out, [])
  {
    var sent, out, after := Framed(RequestBytes(id)), ClientBytes(id, r.sequence, mine), AfterWindow(st, w, window);
    var first := Received(TakeConnectResponse, NO_RESPONSE, input);
    SentIsAPrefix(id, r.sequence, mine);
    if first.Ok? && |sent| <= budget {
      assert s == ExchangeStep(st, w, r, sent, first.value.1, budget, window);
      ExchangeFlow(st, s, w, r, sent, remote, mine, first.value.1, budget, window);
    } else {
      assert s.verdict.Err? && s.writer == w && s.reader == r && s.sent <= sent;
      StoppedIsNothing(s, w, after, r, [], sent, out, []);
    }
  }

  lemma StoppedIsNothing(s: Recovery, w: Writer, after: Writer, r: Reader, entries: seq<seq<byte>>, sent: seq<byte>,
                         out: seq<byte>,
                         unread: seq<byte>)
    requires s.verdict.Err? && s.writer == w && s.reader == r && s.sent <= sent <= out
    ensures AllOrNothing(s, false, w, after, r, entries, out, unread)
  {
  }

  lemma SentIsAPrefix(id: Text, sequence: nat, mine: seq<seq<byte>>)
    requires Blobs(mine)
    ensures Framed(RequestBytes(id)) <= ClientBytes(id, sequence, mine)
    ensures |Framed(RequestBytes(id))| <= |ClientBytes(id, sequence, mine)|
  {
  }

  lemma ServerBytesArrive(response: ConnectResponse, remote: nat, theirs: seq<seq<byte>>, live: seq<byte>,
                          input: seq<byte>)
    requires |ResponseBytes(response)| <= MAX_PROTO_BYTES && Blobs(theirs) && |CatchupBytes(theirs)| <= MAX_PROTO_BYTES
    requires input <= ServerBytes(response, remote, theirs, live)
    ensures var n := |Framed(ResponseBytes(response))|
                     + (|Framed(HeaderBytes(remote))| + |Framed(CatchupBytes(theirs))|);
            ServerSays(input)
            == if |input| >= n
               then Ok((SequenceHeader(Some(AsI32(remote))), CatchupBuffer(AsBlobs(theirs)), input[n..]))
                 else Err(EndOfInput)
  {
    var f1, f2, f3 := Framed(ResponseBytes(response)), Framed(HeaderBytes(remote)), Framed(CatchupBytes(theirs));
    ResponsePrefix(response, f2 + (f3 + live), input);
    if |input| >= |f1| {
      HeaderPrefix(remote, f3 + live, input[|f1|..]);
      if |input| >= |f1| + |f2| {
        CatchupPrefix(theirs, live, input[|f1|..][|f2|..]);
        if |input| >= |f1| + (|f2| + |f3|) {
          assert input[|f1|..][|f2|..][|f3|..] == input[|f1| + (|f2| + |f3|)..];
        }
      }
    }
  }

  lemma ServerNumberArrives(response: ConnectResponse, remote: nat, theirs: seq<seq<byte>>, live: seq<byte>,
                            input: seq<byte>)
    requires |ResponseBytes(response)| <= MAX_PROTO_BYTES && Blobs(theirs)
    requires remote < 0x8000_0000 && input <= ServerBytes(response, remote, theirs, live)
    ensures Says(response, remote, input)
  {
    var f1, f2, f3 := Framed(ResponseBytes(response)), Framed(HeaderBytes(remote)), Framed(CatchupBytes(theirs));
    ResponsePrefix(response, f2 + (f3 + live), input);
    if |input| >= |f1| {
      HeaderPrefix(remote, f3 + live, input[|f1|..]);
      NumberIsExact(remote);
    }
  }

  /** The handshake through its bytes, however many of them arrive in either direction. When the server's number is
      below 2^31 and its messages are at most 128 MiB: if all of the server's bytes arrive and the connection takes all
      of the client's, the reader is revived with exactly the server's entries, exactly what the writer recovers for the
      server's reader is sent, and the bytes that follow are left untouched. Otherwise the reader is untouched, and all
      that changed in the writer is what the window wrote. */
  lemma AttemptOverAPrefix(st: Stream, w: Writer, r: Reader, id: Text, response: ConnectResponse, remote: nat,
                           theirs: seq<seq<byte>>,
                           live: seq<byte>, input: seq<byte>, budget: nat, window: seq<Packet>)
    requires Ordinary(st, w) && RecoverStep(st, w, remote).Ok? && Blobs(RecoverStep(st, w, remote).value)
             && remote < 0x8000_0000
    requires response.status == Some(ReturningClient) && |ResponseBytes(response)| <= MAX_PROTO_BYTES
    requires Blobs(theirs) && |CatchupBytes(theirs)| <= MAX_PROTO_BYTES
             && input <= ServerBytes(response, remote, theirs, live)
    ensures var out := ClientBytes(id, r.sequence, RecoverStep(st, w, remote).value);
            var after := AfterWindow(st, w, window);
            var n := ServerLength(response, remote, theirs);
            var s := TryRecoverStep(st, w, r, id, true, input, budget, window);
            if |input| >= n && |out| <= budget then AllOrNothing(s, true, w, after, r, theirs, out, input[n..])
            else AllOrNothing(s, false, w, after, r, [], out, [])
  {
    ServerBytesArrive(response, remote, theirs, live, input);
    ServerNumberArrives(response, remote, theirs, live, input);
    var s, mine := TryRecoverStep(st, w, r, id, true, input, budget, window), RecoverStep(st, w, remote).value;
    AttemptFlow(st, s, w, r, id, response, remote, mine, input, budget, window);
  }

  /** In particular, when everything gets through. */
  lemma HandshakeThroughBytes(st: Stream, w: Writer, r: Reader, id: Text, response: ConnectResponse, remote: nat,
                              theirs: seq<seq<byte>>,
                              live: seq<byte>, budget: nat, window: seq<Packet>)
    requires Ordinary(st, w) && RecoverStep(st, w, remote).Ok? && Blobs(RecoverStep(st, w, remote).value)
             && remote < 0x8000_0000
    requires response.status == Some(ReturningClient) && |ResponseBytes(response)| <= MAX_PROTO_BYTES
    requires Blobs(theirs) && |CatchupBytes(theirs)| <= MAX_PROTO_BYTES
    requires |ClientBytes(id, r.sequence, RecoverStep(st, w, remote).value)| <= budget
    ensures TryRecoverStep(st, w, r, id, true, ServerBytes(response, remote, theirs, live), budget, window)
         == Recovery(Ok(true), ReviveWriterStep(AfterWindow(st, w, window)), ReviveReaderStep(r, theirs),
                     ClientBytes(id, r.sequence, RecoverStep(st, w, remote).value), live)
  {
    LiveFollows(response, remote, theirs, live);
    AttemptOverAPrefix(st, w, r, id, response, remote, theirs, live, ServerBytes(response, remote, theirs, live),
                       budget, window);
  }

  lemma LiveFollows(response: ConnectResponse, remote: nat, theirs: seq<seq<byte>>, live: seq<byte>)
    requires Blobs(theirs)
    ensures var bytes, n := ServerBytes(response, remote, theirs, live), ServerLength(response, remote, theirs);
            |bytes| == n + |live| && bytes[n..] == live
  {
  }

  // ---------------------------------------------------------------- the server's answer

  /** What the server answers, if its answer arrives whole. */
  ghost function Answer(input: seq<byte>): Option<ConnectResponse> {
    match Received(TakeConnectResponse, NO_RESPONSE, input)
    case Ok(response) => Some(response.0)
    case Err(_) => None
  }

  /** The request is out: there is a connection, and it took all of it. */
  ghost predicate Asked(id: Text, connected: bool, budget: nat) {
    connected && |Framed(RequestBytes(id))| <= budget
  }

  /** The verdicts of an attempt by the server's answer. The session is over if and only if the server, asked, says that
      the key is invalid; then, as after every answer but that the client is returning, both ends are untouched and
      nothing was sent but the request. */
  lemma TheAnswerDecides(st: Stream, w: Writer, r: Reader, id: Text, connected: bool, input: seq<byte>, budget: nat,
                         window: seq<Packet>)
    requires Ordinary(st, w)
    ensures var s, status := TryRecoverStep(st, w, r, id, connected, input, budget, window), Answer(input);
            && (s.verdict == Ok(false) <==>
                Asked(id, connected, budget) && status.Some? && status.value.status == Some(InvalidKey))
            && (s.verdict == Ok(true) ==>
                Asked(id, connected, budget) && status.Some? && status.value.status == Some(ReturningClient))
            && (status.None? || status.value.status != Some(ReturningClient) ==> s.writer == w && s.reader == r)
            && (Asked(id, connected, budget) && (status.None? || status.value.status != Some(ReturningClient)) ==>
                s.sent == Framed(RequestBytes(id)))
            && (!Asked(id, connected, budget) ==>
                s.verdict.Err? && s.writer == w && s.reader == r && s.sent <= Framed(RequestBytes(id)))
  {
  }

  /** The same in terms of what the server sends: its response and whatever follows. */
  lemma TheServerDecides(st: Stream, w: Writer, r: Reader, id: Text, response: ConnectResponse, rest: seq<byte>,
                         budget: nat, window: seq<Packet>)
    requires Ordinary(st, w) && Asked(id, true, budget) && |ResponseBytes(response)| <= MAX_PROTO_BYTES
    ensures var s := TryRecoverStep(st, w, r, id, true, Framed(ResponseBytes(response)) + rest, budget, window);
            && (s.verdict == Ok(false) <==> response.status == Some(InvalidKey))
            && (response.status == Some(InvalidKey) ==> s == Recovery(Ok(false), w, r, Framed(RequestBytes(id)), rest))
            && (response.status !in {Some(InvalidKey), Some(ReturningClient)} ==>
                s == Recovery(Err(UnexpectedStatus(response.status)), w, r, Framed(RequestBytes(id)), rest))
            && (s.verdict == Ok(true) ==> response.status == Some(ReturningClient))
  {
    var f := Framed(ResponseBytes(response));
    ResponsePrefix(response, rest, f + rest);
    assert (f + rest)[|f|..] == rest;
    TheAnswerDecides(st, w, r, id, true, f + rest, budget, window);
  }

  // ---------------------------------------------------------------- an attempt that cannot go on

  /** What the writer cannot recover ends the attempt, whatever else arrives, with nothing changed. */
  lemma RefusedRecoveryChangesNothing(st: Stream, w: Writer, r: Reader, id: Text, response: ConnectResponse,
                                      remote: nat, theirs: seq<seq<byte>>,
                                      live: seq<byte>, input: seq<byte>, budget: nat, window: seq<Packet>)
    requires Ordinary(st, w) && RecoverStep(st, w, remote).Err? && remote < 0x8000_0000
    requires response.status == Some(ReturningClient) && |ResponseBytes(response)| <= MAX_PROTO_BYTES
    requires Blobs(theirs) && input <= ServerBytes(response, remote, theirs, live)
    ensures var s := TryRecoverStep(st, w, r, id, true, input, budget, window);
            s.verdict.Err? && s.reader == r && s.writer == w
  {
    ServerNumberArrives(response, remote, theirs, live, input);
    RefusedFlow(st, w, r, id, response, remote, input, budget, window);
  }

  lemma RefusedFlow(st: Stream, w: Writer, r: Reader, id: Text, response: ConnectResponse, remote: nat,
                    input: seq<byte>, budget: nat,
                    window: seq<Packet>)
    requires Ordinary(st, w) && RecoverStep(st, w, remote).Err? && response.status == Some(ReturningClient)
    requires Says(response, remote, input)
    ensures var s := TryRecoverStep(st, w, r, id, true, input, budget, window);
            s.verdict.Err? && s.reader == r && s.writer == w
  {
  }
}
