/** The attempt over bytes does to both links what their abstract handshake steps do. */
module HandshakeRefinement {
  import opened Outcomes
  import opened Bytes
  import opened Crypto
  import opened Packets
  import opened Sockets
  import opened Writers
  import opened Readers
  import opened Varints
  import opened Wire
  import opened Messages
  import opened MessageLaws
  import opened Framing
  import opened Handshake
  import opened Reconnect
  import L = Links
  import D = LinkDelivery

  lemma LinkLogsAreOrdinary(st: Stream, l: L.Link)
    requires IdealStream(st) && L.Inv(st, l) && l.attempt.Reported?
    ensures Ordinary(st, l.w)
    ensures L.Recovering(st, l).attempt.Recovered? ==>
              RecoverStep(st, l.w, l.r.sequence) == Ok(L.Recovering(st, l).attempt.catchup)
                && Blobs(L.Recovering(st, l).attempt.catchup)
  {
    if L.Recovering(st, l).attempt.Recovered? {
      EntriesAreBlobs(st, l.w, l.r.sequence);
    }
  }

  // ---------------------------------------------------------------- the window's writes, as steps

  /** The main thread's writes in the window, as steps of the link. */
  function WindowSteps(window: seq<Packet>): (steps: seq<L.Step>)
    ensures |steps| == |window|
  {
    seq(|window|, i requires 0 <= i < |window| => L.Write(window[i], []))
  }

  /** There are sequence numbers left for them, and their frames are below 2^32 bytes. */
  ghost predicate WindowFits(l: L.Link, window: seq<Packet>) {
    |l.w.log| + |window| <= L.MAX_SEQUENCE && forall i :: 0 <= i < |window| ==> SealedLength(window[i]) < U32
  }

  lemma {:induction false} WindowIsSteps(st: Stream, l: L.Link, window: seq<Packet>)
    requires L.Shape(l) && !l.w.live && WindowFits(l, window)
    ensures D.PlayFrom(st, l, WindowSteps(window)) == Some(l.(w := AfterWindow(st, l.w, window)))
    ensures var v := AfterWindow(st, l.w, window); WriterOk(v) && !v.live && |v.log| <= |l.w.log| + |window|
  {
    if window != [] {
      var before, p := window[..|window| - 1], window[|window| - 1];
      WindowIsSteps(st, l, before);
      assert WindowSteps(window)[..|window| - 1] == WindowSteps(before);
      var v := AfterWindow(st, l.w, before);
      OneWindowWrite(st, l.(w := v), p);
    }
  }

  lemma OneWindowWrite(st: Stream, l: L.Link, p: Packet)
    requires L.Shape(l) && !l.w.live
    ensures var v := WriteStep(st, l.w, p, []).writer;
            L.Written(st, l, p, []) == l.(w := v) && WriterOk(v) && !v.live && |v.log| <= |l.w.log| + 1
  {
    assert l.pipe + [] == l.pipe;
  }

  // ---------------------------------------------------------------- the client's end

  /** The link a successful attempt leaves behind: recovered, written to in the window, and revived. */
  ghost function ThroughTheWindow(st: Stream, l: L.Link, window: seq<Packet>): L.Link
    requires L.Shape(l) && l.attempt.Reported? && L.Recovering(st, l).attempt.Recovered? && WindowFits(l, window)
    ensures D.PlayFrom(st, L.Recovering(st, l), WindowSteps(window)) == Some(ThroughTheWindow(st, l, window))
    ensures ThroughTheWindow(st, l, window).w == AfterWindow(st, l.w, window)
    ensures ThroughTheWindow(st, l, window).attempt == L.Recovering(st, l).attempt
  {
    WindowIsSteps(st, L.Recovering(st, l), window);
    L.Recovering(st, l).(w := AfterWindow(st, l.w, window))
  }

  /** Some prefix of what both directions carry gets through. `up` is the link this client writes to, `down` the one it
      reads from; both readers have reported and both writers can recover. If everything gets through, the concrete
      attempt ends where the abstract steps do: the reader revived as on `down`, and the writer as `up` has it after
      `Recover`, the window's `Write` steps and `ReviveWriter`. If not, the reader is untouched, and the writer is as
      before or as `up` has it after `Recover` and those `Write` steps. */
  lemma TryRecoverRefinesTheLinks(stUp: Stream, stDown: Stream, up: L.Link, down: L.Link, id: Text,
                                  response: ConnectResponse,
                                  live: seq<byte>, input: seq<byte>, budget: nat, window: seq<Packet>)
    requires IdealStream(stUp) && IdealStream(stDown) && L.Inv(stUp, up) && L.Inv(stDown, down)
    requires up.attempt.Reported? && down.attempt.Reported? && WindowFits(up, window)
    requires L.Recovering(stUp, up).attempt.Recovered? && L.Recovering(stDown, down).attempt.Recovered?
    requires Blobs(L.Recovering(stUp, up).attempt.catchup) && Blobs(L.Recovering(stDown, down).attempt.catchup)
    requires up.r.sequence < 0x8000_0000
             && |CatchupBytes(L.Recovering(stDown, down).attempt.catchup)| <= MAX_PROTO_BYTES
    requires response.status == Some(ReturningClient) && |ResponseBytes(response)| <= MAX_PROTO_BYTES
    requires input <= ServerBytes(response, up.r.sequence, L.Recovering(stDown, down).attempt.catchup, live)
    ensures Ordinary(stUp, up.w)
    ensures var n := ServerLength(response, up.r.sequence, L.Recovering(stDown, down).attempt.catchup);
            var out := ClientBytes(id, down.r.sequence, L.Recovering(stUp, up).attempt.catchup);
            var s := TryRecoverStep(stUp, up.w, down.r, id, true, input, budget, window);
            var l := ThroughTheWindow(stUp, up, window);
            if |input| >= n && |out| <= budget then
              s.verdict == Ok(true) && s.reader == L.RevivingReader(L.Recovering(stDown, down)).r
                && s.writer == L.RevivingWriter(l).w
              && s.sent == out && s.unread == input[n..]
            else
              s.verdict.Err? && s.reader == down.r && (s.writer == up.w || s.writer == l.w) && s.sent <= out
  {
    LinkLogsAreOrdinary(stUp, up);
    LinkLogsAreOrdinary(stDown, down);
    AttemptOverAPrefix(stUp, up.w, down.r, id, response, up.r.sequence, L.Recovering(stDown, down).attempt.catchup,
                       live, input, budget, window);
  }

  // ---------------------------------------------------------------- the server's end

  /** What the client sends in a whole attempt, and then, on the revived connection, `live`. */
  ghost function ClientStream(id: Text, sequence: nat, entries: seq<seq<byte>>, live: seq<byte>): seq<byte>
    requires Blobs(entries)
  {
    Framed(RequestBytes(id)) + (Framed(HeaderBytes(sequence)) + (Framed(CatchupBytes(entries)) + live))
  }

  lemma ClientStreamIsClientBytes(id: Text, sequence: nat, entries: seq<seq<byte>>, live: seq<byte>)
    requires Blobs(entries)
    ensures ClientStream(id, sequence, entries, live) == ClientBytes(id, sequence, entries) + live
    ensures |ClientBytes(id, sequence, entries)|
         == |Framed(RequestBytes(id))| + (|Framed(HeaderBytes(sequence))| + |Framed(CatchupBytes(entries))|)
  {
    var f1, f2, f3 := Framed(RequestBytes(id)), Framed(HeaderBytes(sequence)), Framed(CatchupBytes(entries));
    Reassociate(f1 + f2, f3, live);
    Reassociate(f1, f2, f3 + live);
  }

  /** What the server reads of a client's attempt: the request, the sequence number, the catch-up; and what follows. */
  function ServerReads(input: seq<byte>): Result<(SequenceHeader, CatchupBuffer, seq<byte>), ProtoReadError> {
    match Received(TakeConnectRequest, NO_REQUEST, input)
    case Err(e) => Err(e)
    case Ok(request) => HeaderAndCatchup(request.1)
  }

  function ServerReaderAfter(r: Reader, got: Result<(SequenceHeader, CatchupBuffer, seq<byte>), ProtoReadError>)
    : Reader
  {
    match got
    case Ok(g) => ReviveReaderStep(r, g.1.buffer)
    case Err(_) => r
  }

  /** The other direction: some prefix of the client's bytes, and of what follows them, arrives. If they are all there,
      the server reads the client reader's number and revives its own reader as the abstract step does; if not, it is
      short of input and its reader is untouched. */
  lemma ServerReadsAllOrNothing(st: Stream, up: L.Link, id: Text, sequence: nat, live: seq<byte>, input: seq<byte>)
    requires IdealStream(st) && L.Inv(st, up) && up.attempt.Reported? && L.Recovering(st, up).attempt.Recovered?
    requires Blobs(L.Recovering(st, up).attempt.catchup) && |RequestBytes(id)| <= MAX_PROTO_BYTES
    requires sequence < 0x8000_0000 && |CatchupBytes(L.Recovering(st, up).attempt.catchup)| <= MAX_PROTO_BYTES
    requires input <= ClientStream(id, sequence, L.Recovering(st, up).attempt.catchup, live)
    ensures var n, got := |ClientBytes(id, sequence, L.Recovering(st, up).attempt.catchup)|, ServerReads(input);
            if |input| >= n then
              got.Ok? && RemoteSequence(got.value.0) == sequence && got.value.2 == input[n..]
              && ServerReaderAfter(up.r, got) == L.RevivingReader(L.Recovering(st, up)).r
            else
              got == Err(EndOfInput) && ServerReaderAfter(up.r, got) == up.r
  {
    var catchup := L.Recovering(st, up).attempt.catchup;
    NumberIsExact(sequence);
    ClientStreamIsClientBytes(id, sequence, catchup, live);
    ClientBytesArrive(id, sequence, catchup, live, input);
  }

  lemma ClientBytesArrive(id: Text, sequence: nat, catchup: seq<seq<byte>>, live: seq<byte>, input: seq<byte>)
    requires Blobs(catchup) && |RequestBytes(id)| <= MAX_PROTO_BYTES && |CatchupBytes(catchup)| <= MAX_PROTO_BYTES
    requires input <= ClientStream(id, sequence, catchup, live)
    ensures var n := |Framed(RequestBytes(id))| + (|Framed(HeaderBytes(sequence))| + |Framed(CatchupBytes(catchup))|);
            ServerReads(input)
            == if |input| >= n
               then Ok((SequenceHeader(Some(AsI32(sequence))), CatchupBuffer(AsBlobs(catchup)), input[n..]))
                 else Err(EndOfInput)
  {
    var f1, f2, f3 := Framed(RequestBytes(id)), Framed(HeaderBytes(sequence)), Framed(CatchupBytes(catchup));
    RequestPrefix(id, f2 + (f3 + live), input);
    if |input| >= |f1| {
      HeaderPrefix(sequence, f3 + live, input[|f1|..]);
      if |input| >= |f1| + |f2| {
        CatchupPrefix(catchup, live, input[|f1|..][|f2|..]);
        if |input| >= |f1| + (|f2| + |f3|) {
          assert input[|f1|..][|f2|..][|f3|..] == input[|f1| + (|f2| + |f3|)..];
        }
      }
    }
  }
}
