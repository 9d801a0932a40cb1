/** The handshake window: what a write in it does to the connection, how its packets can still be recovered,
    and when they are lost for good. */
module LinkWindow {
  import opened Outcomes
  import opened Bytes
  import opened Crypto
  import opened Packets
  import opened Sockets
  import opened Writers
  import opened Readers
  import opened Links
  import opened LinkSafety
  import opened LinkDelivery

  // ---------------------------------------------------------------- what the peer is sent

  /** How many frames the reads of a run complete. */
  ghost function Completed(st: Stream, start: Link, steps: seq<Step>): nat {
    if steps == [] then 0
    else
      var before, step := steps[..|steps| - 1], steps[|steps| - 1];
      Completed(st, start, before) + if Completes(PlayFrom(st, start, before), step) then 1 else 0
  }

  ghost predicate Completes(s: Option<Link>, step: Step) {
    s.Some? && Shape(s.value) && step.Read? && CompletesFrame(s.value, step.schedule)
  }

  ghost predicate NoNewAttempt(steps: seq<Step>) {
    forall i :: 0 <= i < |steps| ==> !steps[i].Report?
  }

  /** The attempt of a revived writer, or nothing once it is over. */
  predicate OnThisConnection(s: Link, u: Link)
    requires s.attempt.Recovered?
  {
    && (u.attempt == NoAttempt
        || (u.attempt.Recovered? && u.attempt.writerDone && u.attempt.remote == s.attempt.remote
            && u.attempt.upto == s.attempt.upto))
    && s.w.log <= u.w.log
  }

  lemma StepOnThisConnection(st: Stream, s: Link, t: Link, step: Step)
    requires s.attempt.Recovered? && Shape(t) && OnThisConnection(s, t) && Enabled(t, step) && !step.Report?
    ensures OnThisConnection(s, Next(st, t, step))
    ensures Next(st, t, step).at == t.at + if Completes(Some(t), step) then 1 else 0
  {
    match step
    case Write(p, schedule) => assert t.w.log <= Written(st, t, p, schedule).w.log;
    case _ =>
  }

  /** On the connection that `s` is about to revive, `k` frames have been completed. */
  ghost predicate Positioned(st: Stream, s: Link, u: Link, k: nat)
    requires s.attempt.Recovered?
  {
    Inv(st, u) && OnThisConnection(s, u) && u.at == |s.w.log| + k
  }

  lemma {:induction false} ConnectionStartsAt(st: Stream, s: Link, steps: seq<Step>)
    requires IdealStream(st) && Inv(st, s) && Enabled(s, ReviveWriter)
    requires PlayFrom(st, RevivingWriter(s), steps).Some? && NoNewAttempt(steps)
    ensures Positioned(st, s, PlayFrom(st, RevivingWriter(s), steps).value, Completed(st, RevivingWriter(s), steps))
  {
    if steps == [] {
      ReviveWriterKeepsInv(st, s);
    } else {
      var before, step := steps[..|steps| - 1], steps[|steps| - 1];
      assert forall i :: 0 <= i < |before| ==> before[i] == steps[i];
      ConnectionStartsAt(st, s, before);
      var t := PlayFrom(st, RevivingWriter(s), before).value;
      StepKeepsInv(st, t, step);
      StepOnThisConnection(st, s, t, step);
      assert PlayFrom(st, RevivingWriter(s), steps) == Some(Next(st, t, step));
    }
  }

  /** If the log grew from `upto` to `|log|` in the window, then for as long as this connection is used, whatever both
      ends do: the catch-up is exactly `log[remote..upto]`, and what is in flight once `k` frames were completed are the
      frames of the log from entry `|log| + k` on, all of them while writer and connection live. */
  lemma WindowCharacterisation(st: Stream, s: Link, steps: seq<Step>, u: Link)
    requires IdealStream(st) && Inv(st, s) && Enabled(s, ReviveWriter)
    requires PlayFrom(st, RevivingWriter(s), steps) == Some(u) && NoNewAttempt(steps)
    ensures Sends(st, s, u, Completed(st, RevivingWriter(s), steps))
  {
    var k := FramesCompleted(st, s, steps, u);
    PositionedSends(st, s, u, k);
  }

  lemma FramesCompleted(st: Stream, s: Link, steps: seq<Step>, u: Link) returns (k: nat)
    requires IdealStream(st) && Inv(st, s) && Enabled(s, ReviveWriter)
    requires PlayFrom(st, RevivingWriter(s), steps) == Some(u) && NoNewAttempt(steps)
    ensures k == Completed(st, RevivingWriter(s), steps) && Positioned(st, s, u, k)
  {
    ConnectionStartsAt(st, s, steps);
    k := Completed(st, RevivingWriter(s), steps);
  }

  ghost predicate Sends(st: Stream, s: Link, u: Link, k: nat)
    requires s.attempt.Recovered?
  {
    var next := |s.w.log| + k;
    && s.attempt.remote <= s.attempt.upto <= |s.w.log| && s.w.log <= u.w.log && next <= |u.w.log|
    && s.attempt.catchup == Entries(st, s.w.log, s.attempt.remote, s.attempt.upto)
    && (u.attempt.Recovered? ==> u.attempt.catchup == s.attempt.catchup)
    && (Attached(u) ==> InFlight(u) <= Frames(Entries(st, u.w.log, next, |u.w.log|)))
    && (Attached(u) && u.w.live && u.intact ==> InFlight(u) == Frames(Entries(st, u.w.log, next, |u.w.log|)))
  }

  lemma PositionedSends(st: Stream, s: Link, u: Link, k: nat)
    requires Inv(st, s) && s.attempt.Recovered? && Positioned(st, s, u, k)
    ensures Sends(st, s, u, k)
  {
    CatchUpIsKept(st, s, u);
    assert ChannelOk(st, u);
  }

  /** The next read with this schedule completes `frame`. */
  ghost predicate CompletesWith(u: Link, schedule: seq<Io>, frame: seq<byte>) {
    ReaderOk(u.r) && CompletesFrame(u, schedule) && frame == CompletedFrame(u, schedule)
  }

  ghost predicate IsFrameOf(st: Stream, log: seq<Packet>, i: nat, frame: seq<byte>) {
    i < |log| && frame == Frame(Entry(st, i, log[i]))
  }

  /** And so the frame a reader completes next on this connection, after `k` others, is entry `|log| + k`. */
  lemma PositionedFrame(st: Stream, s: Link, u: Link, k: nat, schedule: seq<Io>, frame: seq<byte>)
    requires IdealStream(st) && s.attempt.Recovered? && Positioned(st, s, u, k) && CompletesWith(u, schedule, frame)
    ensures IsFrameOf(st, u.w.log, |s.w.log| + k, frame)
  {
    CompletedIsDue(st, u, schedule);
  }

  lemma CatchUpIsKept(st: Stream, s: Link, u: Link)
    requires AttemptOk(st, s) && AttemptOk(st, u) && s.attempt.Recovered? && OnThisConnection(s, u)
    ensures u.attempt.Recovered? ==> u.attempt.catchup == s.attempt.catchup
  {
    if u.attempt.Recovered? {
      SameEntries(st, s.w.log, u.w.log, s.attempt.remote, s.attempt.upto);
    }
  }

  /** The bytes of the frame a read completes. */
  function CompletedFrame(s: Link, schedule: seq<Io>): seq<byte>
    requires Incomplete(s.r.partial)
  {
    s.r.partial + s.pipe[..FillFrame(s.r.partial, s.pipe, schedule).0]
  }

  lemma CompletedIsDue(st: Stream, s: Link, schedule: seq<Io>)
    requires IdealStream(st) && Inv(st, s) && CompletesFrame(s, schedule)
    ensures s.at < |s.w.log| && CompletedFrame(s, schedule) == Frame(Entry(st, s.at, s.w.log[s.at]))
    ensures CompletedFrame(s, schedule)[LENGTH_BYTES..] == Entry(st, s.at, s.w.log[s.at])
  {
    var n := FillFrame(s.r.partial, s.pipe, schedule).0;
    Rejoin(s.r.partial, s.pipe, n);
    FrameInFlightIsDue(st, s, CompletedFrame(s, schedule), s.pipe[n..]);
  }

  lemma SameEntries(st: Stream, log: seq<Packet>, more: seq<Packet>, from: nat, to: nat)
    requires log <= more && from <= to <= |log|
    ensures Entries(st, more, from, to) == Entries(st, log, from, to)
  {
  }

  // ---------------------------------------------------------------- while nothing was read past the gap

  /** The entries the window skipped are the front of the backup at the revival; and as long as the backup still
      reaches them, recovering from the catch-up's end on a dead socket returns them first, in order. */
  lemma SkippedEntriesAreBackedUp(st: Stream, s: Link, later: Writer)
    requires Inv(st, s) && Enabled(s, ReviveWriter)
    requires WriterOk(later) && !later.live && s.w.log <= later.log && |later.log| - s.attempt.upto <= later.kept
    ensures |s.w.log| - s.attempt.upto <= s.w.kept
    ensures forall i :: 0 <= i < |s.w.log| - s.attempt.upto ==>
              Newest(st, s.w.log, s.w.kept)[i] == Sealed(st, |s.w.log| - 1 - i, s.w.log[|s.w.log| - 1 - i])
    ensures RecoverStep(st, later, s.attempt.upto)
         == Ok(Entries(st, s.w.log, s.attempt.upto, |s.w.log|) + Entries(st, later.log, |s.w.log|, |later.log|))
  {
    EntriesSplit(st, later.log, s.attempt.upto, |s.w.log|, |later.log|);
    assert Entries(st, later.log, s.attempt.upto, |s.w.log|) == Entries(st, s.w.log, s.attempt.upto, |s.w.log|);
  }

  // ---------------------------------------------------------------- once something was

  /** An index the cipher has passed without delivering it is never delivered. */
  lemma {:induction false} PassedIsLost(st: Stream, s: Link, steps: seq<Step>, i: nat)
    requires IdealStream(st) && Inv(st, s) && i < s.r.count && i !in s.hits && PlayFrom(st, s, steps).Some?
    ensures var u := PlayFrom(st, s, steps).value;
            Inv(st, u) && i < u.r.count && i !in u.hits
  {
    if steps != [] {
      var before, step := steps[..|steps| - 1], steps[|steps| - 1];
      PassedIsLost(st, s, before, i);
      var t := PlayFrom(st, s, before).value;
      StepKeepsInv(st, t, step);
      StepHitsOnlyTheCount(st, t, step);
      assert PlayFrom(st, s, steps) == Some(Next(st, t, step));
    }
  }

  lemma StepHitsOnlyTheCount(st: Stream, s: Link, step: Step)
    requires IdealStream(st) && Inv(st, s) && Enabled(s, step)
    ensures var t := Next(st, s, step);
            t.r.count >= s.r.count && (t.hits == s.hits || t.hits == s.hits + [s.r.count])
  {
    if step.Read? {
      var t := ReadFrom(st, s, step.schedule);
      if s.r.queue != [] {
        ReadQueued(st, s, step.schedule);
      } else if CompletesFrame(s, step.schedule) {
        ReadCompleting(st, s, step.schedule);
      } else {
        ReadWaiting(st, s, step.schedule);
      }
      assert t.r.count >= s.r.count;
    }
  }

  /** A reader in step that completes a frame from past a gap refuses it, and the entry it was waiting for
      is never delivered, in any continuation, even though it may be recovered and sent again. */
  lemma ReadingPastAGapLosesTheEntry(st: Stream, s: Link, schedule: seq<Io>, steps: seq<Step>)
    requires IdealStream(st) && Inv(st, s) && Enabled(s, Step.Read(schedule)) && CompletesFrame(s, schedule)
    requires s.at != s.r.count && s.r.count !in s.hits
    requires PlayFrom(st, ReadFrom(st, s, schedule), steps).Some?
    ensures ReadStep(st, s.r, s.pipe, schedule).outcome == Broken(Unreadable(Refused(Decrypt)))
    ensures s.r.count !in PlayFrom(st, ReadFrom(st, s, schedule), steps).value.hits
  {
    ReadCompleting(st, s, schedule);
    ReadKeepsInv(st, s, schedule);
    PassedIsLost(st, ReadFrom(st, s, schedule), steps, s.r.count);
    CompletedOutOfTurn(st, s, schedule);
  }

  lemma CompletedOutOfTurn(st: Stream, s: Link, schedule: seq<Io>)
    requires IdealStream(st) && Inv(st, s) && s.r.count + 1 < STREAM_SPAN && CompletesFrame(s, schedule)
             && s.at != s.r.count
    ensures ReadStep(st, s.r, s.pipe, schedule).outcome == Broken(Unreadable(Refused(Decrypt)))
  {
    CompletedIsDue(st, s, schedule);
    EntryOpensOnlyInTurn(st, s.at, s.w.log[s.at], s.r.count);
  }
}
