/** The receiving end: reassembles frames from whatever pieces arrive, and drains a catch-up queue first. */
module Readers {
  import opened Outcomes
  import opened Bytes
  import opened Crypto
  import opened Packets
  import opened Sockets

  datatype ReadError = ConnectionClosed | SocketLost | Unreadable(reason: PacketError)

  datatype ReadOutcome = Nothing | Got(packet: Packet) | Broken(error: ReadError)

  // ---------------------------------------------------------------- the reader as a value

  /** What a reader is: whether its socket is alive, its sequence number, the frame it is in the middle of,
      its catch-up queue, and how often its cipher has advanced. */
  datatype Reader = Reader(live: bool, sequence: nat, partial: seq<byte>, queue: seq<seq<byte>>, count: nat)

  const NEW_READER := Reader(true, 0, [], [], 0)

  predicate ReaderOk(r: Reader) {
    Incomplete(r.partial)
  }

  /** Result of one `read`: the outcome, the next reader, and how many arrived bytes it took. */
  datatype ReadResult = ReadResult(outcome: ReadOutcome, reader: Reader, taken: nat, rest: seq<Io>)

  function Outcome(r: Result<Packet, PacketError>): ReadOutcome {
    match r
    case Ok(p) => Got(p)
    case Err(e) => Broken(Unreadable(e))
  }

  /** Why a fill stopped short. */
  function Stopped(f: Fill): ReadOutcome {
    match f
    case EndOfStream => Broken(ConnectionClosed)
    case Lost => Broken(SocketLost)
    case _ => Nothing
  }

  /** What is still missing of a frame of which `s` has arrived: first of its length, then of its body. */
  function Missing(s: seq<byte>): nat {
    if |s| < LENGTH_BYTES then LENGTH_BYTES - |s|
    else if |s| < LENGTH_BYTES + FromBe4(s) then LENGTH_BYTES + FromBe4(s) - |s|
    else 0
  }

  function FillLength(partial: seq<byte>, available: nat, schedule: seq<Io>): (r: (nat, Fill, seq<Io>))
    ensures r.0 <= available
    ensures r.1 == Filled <==> |partial| + r.0 >= LENGTH_BYTES
  {
    if |partial| < LENGTH_BYTES then Filling(LENGTH_BYTES - |partial|, available, schedule) else (0, Filled, schedule)
  }

  lemma Splice(start: seq<byte>, arrived: seq<byte>, n: nat, m: nat)
    requires n + m <= |arrived|
    ensures start + arrived[..n] + arrived[n..][..m] == start + arrived[..n + m]
    ensures arrived[n..][m..] == arrived[n + m..]
  {
    assert arrived[..n] + arrived[n..][..m] == arrived[..n + m];
  }

  /** Reading towards one whole frame: the length first, then the body it announces. */
  function FillFrame(partial: seq<byte>, inbound: seq<byte>, schedule: seq<Io>): (r: (nat, Fill, seq<Io>))
    requires Incomplete(partial)
    ensures r.0 <= |inbound|
    ensures r.1 == Filled ==>
            |partial + inbound[..r.0]| >= LENGTH_BYTES
              && |partial + inbound[..r.0]| == LENGTH_BYTES + FromBe4(partial + inbound[..r.0])
    ensures r.1 != Filled ==> Incomplete(partial + inbound[..r.0])
  {
    var (n, f, rest) := FillLength(partial, |inbound|, schedule);
    if f != Filled then (n, f, rest)
    else
      var start := partial + inbound[..n];
      var (m, g, left) := Filling(Missing(start), |inbound| - n, rest);
      Splice(partial, inbound, n, m);
      (n + m, g, left)
  }

  function ReadStep(st: Stream, r: Reader, inbound: seq<byte>, schedule: seq<Io>): ReadResult
    requires ReaderOk(r)
  {
    if r.queue != [] then
      var (p, count) := OpenEntry(st, r.count, r.queue[0]);
      ReadResult(Outcome(p), r.(queue := r.queue[1..], count := count), 0, schedule)
    else if !r.live then ReadResult(Nothing, r, 0, schedule)
    else
      var (n, f, rest) := FillFrame(r.partial, inbound, schedule);
      var whole := r.partial + inbound[..n];
      if f != Filled then ReadResult(Stopped(f), r.(partial := whole), n, rest)
      else
        var (p, count) := OpenEntry(st, r.count, whole[LENGTH_BYTES..]);
        ReadResult(Outcome(p),
                   r.(partial := [], count := count, sequence := if p.Ok? then r.sequence + 1 else r.sequence), n, rest)
  }

  function ReviveReaderStep(r: Reader, catchup: seq<seq<byte>>): Reader {
    r.(live := true, partial := [], queue := r.queue + catchup, sequence := r.sequence + |catchup|)
  }

  // ---------------------------------------------------------------- the class

  class BackedReader {
    const crypto: CryptoHandler
    var socket: Socket?
    var sequenceNumber: nat
    var partial: seq<byte>
    /** A queue of serialized packets, oldest at the front (index 0). */
    var localBuffer: seq<seq<byte>>

    ghost predicate Valid()
      reads this, crypto, crypto.nonce
    {
      crypto.Valid() && ReaderOk(View())
    }

    ghost function View(): Reader
      reads this, crypto
    {
      Reader(socket != null, sequenceNumber, partial, localBuffer, crypto.count)
    }

    constructor (crypto: CryptoHandler, socket: Socket)
      requires crypto.Valid() && crypto.count == 0
      ensures Valid() && this.crypto == crypto && this.socket == socket && View() == NEW_READER
    {
      this.crypto := crypto;
      this.socket := socket;
      sequenceNumber, partial, localBuffer := 0, [], [];
    }

    method InvalidateSocket()
      requires Valid()
      modifies this`socket
      ensures Valid() && socket == null && View() == old(View()).(live := false)
    {
      socket := null;
    }

    /** One `read` call towards `target` bytes: what it moves, and how the fill goes on from there. */
    method Pull(target: nat) returns (e: Io, ghost moved: nat)
      requires socket != null && |partial| < target
      modifies this`partial, socket`inbound, socket`schedule
      ensures moved <= old(|socket.inbound|) && partial == old(partial) + old(socket.inbound[..moved])
      ensures socket.inbound == old(socket.inbound[moved..]) && |partial| <= target
      ensures var (n, f, rest) := old(Filling(target - |partial|, |socket.inbound|, socket.schedule));
              if e.Ready? || e.Interrupted? then
                var (more, g, left) := Filling(target - |partial|, |socket.inbound|, socket.schedule);
                |socket.schedule| < |old(socket.schedule)| && (n, f, rest) == (moved + more, g, left)
              else
                moved == 0 && n == 0 && rest == socket.schedule
                && f == if e.Closed? then EndOfStream else if e.Failed? then Lost else Pending
    {
      var data;
      e, data := socket.Read(target - |partial|);
      moved := |data|;
      partial := partial + data;
    }

    /** Extends `partial` to `target` bytes, or says why it could not. */
    method FillTo(target: nat) returns (outcome: Fill)
      requires socket != null && |partial| <= target
      modifies this`partial, socket`inbound, socket`schedule
      ensures var (n, f, rest) := old(Filling(target - |partial|, |socket.inbound|, socket.schedule));
              outcome == f && partial == old(partial) + old(socket.inbound[..n])
              && socket.inbound == old(socket.inbound[n..]) && socket.schedule == rest
    {
      ghost var start, arrived := partial, socket.inbound;
      ghost var goal := Filling(target - |partial|, |socket.inbound|, socket.schedule);
      ghost var done := 0;
      while |partial| < target
        invariant 0 <= done <= |arrived| && |partial| == |start| + done <= target
        invariant partial == start + arrived[..done] && socket.inbound == arrived[done..]
        invariant var (n, f, rest) := Filling(target - |partial|, |socket.inbound|, socket.schedule);
                  goal == (done + n, f, rest)
        decreases |socket.schedule|, target - |partial|
      {
        var e, moved := Pull(target);
        Splice(start, arrived, done, moved);
        done := done + moved;
        match e {
          case Ready(_) =>
          case Interrupted =>
          case WouldBlock | TimedOut => return Pending;
          case Closed => return EndOfStream;
          case Failed => return Lost;
        }
      }
      outcome := Filled;
    }

    /** One packet, nothing yet, or a reason to reconnect. */
    method Read() returns (outcome: ReadOutcome)
      requires Valid()
      modifies this`sequenceNumber, this`partial, this`localBuffer, crypto, crypto.nonce, socket
      ensures Valid()
      ensures var r := old(ReadStep(crypto.Direction(), View(), if socket == null then [] else socket.inbound,
                                    if socket == null then [] else socket.schedule));
              outcome == r.outcome && View() == r.reader
              && (socket != null ==> socket.inbound == old(socket.inbound[r.taken..]) && socket.schedule == r.rest)
      ensures socket != null ==> socket.sent == old(socket.sent)
    {
      if socket == null && localBuffer == [] {
        return Nothing;
      }
      if localBuffer != [] {
        var serialized := localBuffer[0];
        localBuffer := localBuffer[1..];
        outcome := Decode(serialized);
        return;
      }
      outcome := ReadFrame();
    }

    method Decode(serialized: seq<byte>) returns (outcome: ReadOutcome)
      requires Valid()
      modifies crypto, crypto.nonce
      ensures Valid()
      ensures var (p, count) := OpenEntry(crypto.Direction(), old(crypto.count), serialized);
              outcome == Outcome(p) && crypto.count == count
    {
      var packet := Packet.FromSerialized(serialized);
      if packet.Err? {
        return Broken(Unreadable(packet.error));
      }
      var plain := packet.value.Decrypt(crypto);
      outcome := Outcome(plain);
    }

    method FetchLength() returns (filled: Fill)
      requires Valid() && socket != null
      modifies this`partial, socket`inbound, socket`schedule
      ensures var (n, f, rest) := old(FillLength(partial, |socket.inbound|, socket.schedule));
              filled == f && partial == old(partial) + old(socket.inbound[..n])
              && socket.inbound == old(socket.inbound[n..]) && socket.schedule == rest
    {
      filled := Filled;
      if |partial| < LENGTH_BYTES {
        filled := FillTo(LENGTH_BYTES);
      }
    }

    /** The length, then the body it announces; never a byte past the end of this frame. */
    method FetchFrame() returns (filled: Fill)
      requires Valid() && socket != null
      modifies this`partial, socket`inbound, socket`schedule
      ensures var (n, f, rest) := old(FillFrame(partial, socket.inbound, socket.schedule));
              filled == f && partial == old(partial) + old(socket.inbound[..n])
              && socket.inbound == old(socket.inbound[n..]) && socket.schedule == rest
    {
      ghost var start, arrived := partial, socket.inbound;
      ghost var (n, f, rest) := FillLength(partial, |socket.inbound|, socket.schedule);
      filled := FetchLength();
      if filled != Filled {
        return;
      }
      var total := LENGTH_BYTES + FromBe4(partial);
      assert total - |partial| == Missing(partial);
      ghost var (m, g, left) := Filling(Missing(partial), |arrived| - n, rest);
      filled := FillTo(total);
      Splice(start, arrived, n, m);
    }

    method ReadFrame() returns (outcome: ReadOutcome)
      requires Valid() && socket != null && localBuffer == []
      modifies this`sequenceNumber, this`partial, crypto, crypto.nonce, socket`inbound, socket`schedule
      ensures Valid()
      ensures var r := old(ReadStep(crypto.Direction(), View(), socket.inbound, socket.schedule));
              outcome == r.outcome && View() == r.reader && socket.inbound == old(socket.inbound[r.taken..])
                && socket.schedule == r.rest
    {
      var filled := FetchFrame();
      if filled != Filled {
        return Stopped(filled);
      }
      var serialized := partial[LENGTH_BYTES..LENGTH_BYTES + FromBe4(partial)];
      assert serialized == partial[LENGTH_BYTES..];
      partial := [];
      outcome := Decode(serialized);
      if outcome.Got? {
        sequenceNumber := sequenceNumber + 1;
      }
    }

    /** Forgets the frame it was in the middle of, queues the catch-up entries and counts them all at once. */
    method Revive(socket: Socket, catchup: seq<seq<byte>>)
      requires Valid()
      modifies this`socket, this`partial, this`localBuffer, this`sequenceNumber
      ensures Valid() && this.socket == socket && View() == ReviveReaderStep(old(View()), catchup)
    {
      partial := [];
      for i := 0 to |catchup|
        invariant partial == [] && this.socket == old(this.socket)
        invariant localBuffer == old(localBuffer) + catchup[..i] && sequenceNumber == old(sequenceNumber) + i
      {
        localBuffer := localBuffer + [catchup[i]];
        sequenceNumber := sequenceNumber + 1;
        assert catchup[..i] + [catchup[i]] == catchup[..i + 1];
      }
      this.socket := socket;
      assert catchup[..|catchup|] == catchup;
    }
  }
}
