/** One direction of a session: a writer, the connection, a reader, and the catch-up handshake that joins them again.
    Every lock section of either side is one step; steps of the two sides interleave freely. */
module Links {
  import opened Outcomes
  import opened Bytes
  import opened Crypto
  import opened Packets
  import opened Sockets
  import opened Writers
  import opened Readers

  /** A sequence number is an `i64`. */
  const MAX_SEQUENCE: nat := 0x7FFF_FFFF_FFFF_FFFF

  /** A reconnect attempt on a fresh connection. The reader has reported its sequence number, while the writer may still
      hold the old connection; the writer has then recovered `log[remote..upto]`; from there each end is revived, or
      not, in either order. */
  datatype Attempt =
    | NoAttempt
    | Reported(remote: nat)
    | Recovered(remote: nat, upto: nat, catchup: seq<seq<byte>>, readerDone: bool, writerDone: bool)

  datatype Link = Link(
    w: Writer,
    r: Reader,
    pipe: seq<byte>,         // bytes of the current connection not yet read
    intact: bool,            // whether what is written still reaches the reader's connection
    attempt: Attempt,
    // history
    delivered: seq<Packet>,  // what `read` has returned
    hits: seq<nat>,          // the log index of each delivered packet
    queued: seq<nat>,        // the log index of each catch-up entry still queued
    at: nat,                 // the log index of the next frame on the connection
    gap: bool,               // whether a writer was ever revived past its catch-up while a reader could still follow
    refused: nat)            // how many packets could not be opened

  datatype Step =
    | Write(packet: Packet, schedule: seq<Io>)
    | Read(schedule: seq<Io>)
    | DropWriter
    | DropReader
    | Lose(keep: nat)        // the connection dies; all but the first `keep` unread bytes are lost
    | Report                 // a new attempt; an earlier one that is not over is abandoned with it
    | Recover
    | ReviveReader
    | ReviveWriter
    | ReviveStale            // the writer goes on with an abandoned attempt, over a connection no reader joins
    | Finish                 // the attempt is over, whether or not both ends were revived

  const INITIAL := Link(NEW_WRITER, NEW_READER, [], true, NoAttempt, [], [], [], 0, false, 0)

  predicate Enabled(s: Link, step: Step) {
    match step
    case Write(p, _) => |s.w.log| < MAX_SEQUENCE && SealedLength(p) < U32
    case Read(_) => s.r.count + 1 < STREAM_SPAN
    case DropWriter => true
    case DropReader => true
    case Lose(keep) => keep <= |s.pipe|
    case Report => !s.r.live
    case Recover => s.attempt.Reported?
    case ReviveReader => s.attempt.Recovered? && !s.attempt.readerDone
    case ReviveWriter => s.attempt.Recovered? && !s.attempt.writerDone
    case ReviveStale => !s.w.live && (s.attempt.Recovered? ==> s.attempt.writerDone)
    case Finish => s.attempt != NoAttempt
  }

  ghost predicate Shape(s: Link) {
    WriterOk(s.w) && ReaderOk(s.r) && |s.queued| == |s.r.queue|
  }

  function Written(st: Stream, s: Link, p: Packet, schedule: seq<Io>): Link
    requires Shape(s)
  {
    var res := WriteStep(st, s.w, p, schedule);
    s.(w := res.writer, pipe := if s.intact then s.pipe + res.sent else s.pipe)
  }

  /** Whether a `read` completes a frame from the connection. */
  predicate CompletesFrame(s: Link, schedule: seq<Io>)
    requires Incomplete(s.r.partial)
  {
    s.r.live && s.r.queue == [] && FillFrame(s.r.partial, s.pipe, schedule).1 == Filled
  }

  function ReadFrom(st: Stream, s: Link, schedule: seq<Io>): Link
    requires Shape(s)
  {
    var res := ReadStep(st, s.r, s.pipe, schedule);
    var index := if s.r.queue != [] then s.queued[0] else s.at;
    s.(r := res.reader,
       pipe := s.pipe[res.taken..],
       delivered := if res.outcome.Got? then s.delivered + [res.outcome.packet] else s.delivered,
       hits := if res.outcome.Got? then s.hits + [index] else s.hits,
       queued := if s.r.queue != [] then s.queued[1..] else s.queued,
       at := if CompletesFrame(s, schedule) then s.at + 1 else s.at,
       refused := if res.outcome.Broken? && res.outcome.error.Unreadable? then s.refused + 1 else s.refused)
  }

  /** The reader is on the current connection, or may still join it. */
  predicate Attached(s: Link) {
    s.r.live || (s.attempt.Recovered? && !s.attempt.readerDone)
  }

  function Recovering(st: Stream, s: Link): Link
    requires Shape(s) && s.attempt.Reported?
  {
    match RecoverStep(st, s.w, s.attempt.remote)
    case Err(_) => s.(attempt := NoAttempt)
    case Ok(catchup) => s.(attempt := Recovered(s.attempt.remote, |s.w.log|, catchup, false, false), intact := true)
  }

  function RevivingReader(s: Link): Link
    requires s.attempt.Recovered?
  {
    var a := s.attempt;
    s.(r := ReviveReaderStep(s.r, a.catchup),
       queued := s.queued + seq(|a.catchup|, i requires 0 <= i < |a.catchup| => a.remote + i),
       at := if a.writerDone then s.at else a.upto,
       attempt := a.(readerDone := true))
  }

  function RevivingWriter(s: Link): Link
    requires s.attempt.Recovered?
  {
    s.(w := ReviveWriterStep(s.w),
       at := |s.w.log|,
       gap := s.gap || (Attached(s) && s.attempt.upto < |s.w.log|),
       attempt := s.attempt.(writerDone := true))
  }

  function Next(st: Stream, s: Link, step: Step): Link
    requires Shape(s) && Enabled(s, step)
  {
    match step
    case Write(p, schedule) => Written(st, s, p, schedule)
    case Read(schedule) => ReadFrom(st, s, schedule)
    case DropWriter => s.(w := s.w.(live := false))
    case DropReader => s.(r := s.r.(live := false))
    case Lose(keep) => s.(pipe := s.pipe[..keep], intact := false)
    case Report => s.(attempt := Reported(s.r.sequence), pipe := [], intact := false)
    case Recover => Recovering(st, s)
    case ReviveReader => RevivingReader(s)
    case ReviveWriter => RevivingWriter(s)
    case ReviveStale => s.(w := ReviveWriterStep(s.w), intact := false)
    case Finish => s.(attempt := NoAttempt)
  }

  // ---------------------------------------------------------------- what every reachable link satisfies

  ghost predicate LogOk(w: Writer) {
    && WriterOk(w) && |w.log| <= MAX_SEQUENCE
    && forall i :: 0 <= i < |w.log| ==> SealedLength(w.log[i]) < U32
  }

  /** Every queued catch-up entry is a log entry. */
  ghost predicate QueueOk(st: Stream, s: Link) {
    && |s.queued| == |s.r.queue|
    && forall i :: 0 <= i < |s.queued| ==>
         s.queued[i] < |s.w.log| && s.r.queue[i] == Entry(st, s.queued[i], s.w.log[s.queued[i]])
  }

  /** Bytes the reader has of a frame, and those still to be read. */
  function InFlight(s: Link): seq<byte> {
    if s.r.live then s.r.partial + s.pipe else s.pipe
  }

  /** The frames of every entry from `at` to the end of the log. */
  function Due(st: Stream, s: Link): seq<byte>
    requires s.at <= |s.w.log|
  {
    Frames(Entries(st, s.w.log, s.at, |s.w.log|))
  }

  /** The bytes in flight are a prefix of the frames due; all of them while the writer is live on an intact
      connection. */
  ghost predicate ChannelOk(st: Stream, s: Link) {
    && s.at <= |s.w.log|
    && (Attached(s) ==> InFlight(s) <= Due(st, s))
    && (Attached(s) && s.w.live && s.intact ==> InFlight(s) == Due(st, s))
  }

  ghost predicate AttemptOk(st: Stream, s: Link) {
    match s.attempt
    case NoAttempt => true
    case Reported(remote) => !s.r.live && s.pipe == [] && !s.intact && remote == s.r.sequence
    case Recovered(remote, upto, catchup, readerDone, writerDone) =>
      && remote <= upto <= |s.w.log|
      && catchup == Entries(st, s.w.log, remote, upto)
      && (!readerDone ==> !s.r.live && s.r.sequence == remote)
      && (!writerDone ==>
          !s.w.live && s.pipe == [] && (s.r.live ==> s.r.partial == []) && |s.w.log| - remote <= s.w.kept)
      && (readerDone && !writerDone ==> s.at == s.r.sequence == upto)
  }

  /** What was delivered is log entries at strictly increasing indices, each opened in its turn. */
  ghost predicate HitsOk(s: Link) {
    && |s.hits| == |s.delivered|
    && (forall i :: 0 <= i < |s.hits| ==>
        s.hits[i] < |s.w.log| && s.hits[i] < s.r.count && s.delivered[i] == s.w.log[s.hits[i]])
    && (forall i, j :: 0 <= i < j < |s.hits| ==> s.hits[i] < s.hits[j])
  }

  ghost predicate Inv(st: Stream, s: Link) {
    && LogOk(s.w) && ReaderOk(s.r) && s.r.count < STREAM_SPAN
    && QueueOk(st, s) && ChannelOk(st, s) && AttemptOk(st, s) && HitsOk(s)
    && s.r.count == |s.delivered| + s.refused
  }

  /** What was delivered is the front of the log, what is queued comes next, and the reader's number counts both. */
  ghost predicate InStep(s: Link) {
    && s.r.sequence <= |s.w.log|
    && s.r.count + |s.r.queue| == s.r.sequence
    && |s.queued| == |s.r.queue|
    && (forall i :: 0 <= i < |s.queued| ==> s.queued[i] == s.r.count + i)
    && s.delivered == s.w.log[..s.r.count]
    && s.refused == 0
  }

  /** And the connection stands at the reader's number. */
  ghost predicate Sync(s: Link) {
    && InStep(s)
    && (s.r.live ==> s.at == s.r.sequence)
    && (s.attempt.Recovered? && !s.attempt.readerDone && s.attempt.writerDone ==> s.at == s.attempt.upto)
  }
}
