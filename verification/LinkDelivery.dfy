/** Whole runs of a link: what is delivered, exactly when it is everything, and what a gap costs. */
module LinkDelivery {
  import opened Outcomes
  import opened Bytes
  import opened Crypto
  import opened Packets
  import opened Sockets
  import opened Writers
  import opened Readers
  import opened Links
  import opened LinkSafety

  // ---------------------------------------------------------------- the steps while nothing has been refused

  lemma ReadKeepsInStep(st: Stream, s: Link, schedule: seq<Io>)
    requires IdealStream(st) && Inv(st, s) && InStep(s) && Enabled(s, Step.Read(schedule))
    requires ReadFrom(st, s, schedule).refused == 0
    ensures InStep(ReadFrom(st, s, schedule))
  {
    var t := ReadFrom(st, s, schedule);
    if s.r.queue != [] {
      ReadQueued(st, s, schedule);
      TakingQueuedKeepsInStep(s);
      assert InStep(t);
    } else if CompletesFrame(s, schedule) {
      ReadCompleting(st, s, schedule);
      TakingFrameKeepsInStep(s, t.pipe);
      assert InStep(t);
    } else {
      ReadWaiting(st, s, schedule);
      assert InStep(t);
    }
  }

  lemma WriteKeepsInStep(st: Stream, s: Link, p: Packet, schedule: seq<Io>)
    requires Inv(st, s) && InStep(s) && Enabled(s, Step.Write(p, schedule))
    ensures InStep(Written(st, s, p, schedule))
  {
    var t := Written(st, s, p, schedule);
    if Accepts(s.w, p) {
      assert t.w.log == s.w.log + [p];
      assert t.w.log[..t.r.count] == s.w.log[..s.r.count];
    }
    assert InStep(t);
  }

  lemma ReviveReaderKeepsInStep(st: Stream, s: Link)
    requires Inv(st, s) && InStep(s) && Enabled(s, ReviveReader)
    ensures InStep(RevivingReader(s))
  {
    var t, a := RevivingReader(s), s.attempt;
    forall i | 0 <= i < |t.queued|
      ensures t.queued[i] == t.r.count + i
    {
      if i >= |s.queued| {
        assert t.queued[i] == a.remote + (i - |s.queued|);
      }
    }
    assert InStep(t);
  }

  lemma StepKeepsInStep(st: Stream, s: Link, step: Step)
    requires IdealStream(st) && Inv(st, s) && InStep(s) && Enabled(s, step) && Next(st, s, step).refused == 0
    ensures InStep(Next(st, s, step))
  {
    match step
    case Write(p, schedule) => WriteKeepsInStep(st, s, p, schedule);
    case Read(schedule) => ReadKeepsInStep(st, s, schedule);
    case ReviveReader => ReviveReaderKeepsInStep(st, s);
    case _ =>
  }

  // ---------------------------------------------------------------- the steps while no gap has been left

  lemma ReadKeepsSync(st: Stream, s: Link, schedule: seq<Io>)
    requires IdealStream(st) && Inv(st, s) && Sync(s) && Enabled(s, Step.Read(schedule))
    ensures Sync(ReadFrom(st, s, schedule))
  {
    var t := ReadFrom(st, s, schedule);
    if s.r.queue != [] {
      ReadQueued(st, s, schedule);
      TakingQueuedKeepsInStep(s);
      assert Sync(t);
    } else if CompletesFrame(s, schedule) {
      ReadCompleting(st, s, schedule);
      TakingFrameKeepsInStep(s, t.pipe);
      assert Sync(t);
    } else {
      ReadWaiting(st, s, schedule);
      assert Sync(t);
    }
  }

  lemma TakingQueuedKeepsInStep(s: Link)
    requires InStep(s) && s.r.queue != [] && WriterOk(s.w) && s.queued[0] < |s.w.log|
    ensures InStep(TakingQueued(s))
  {
    assert s.queued[0] == s.r.count;
    assert s.w.log[..s.r.count + 1] == s.w.log[..s.r.count] + [s.w.log[s.r.count]];
  }

  /** In step, an entry opens exactly where the reader's number stands. */
  lemma TakingFrameKeepsInStep(s: Link, pipe: seq<byte>)
    requires InStep(s) && s.r.queue == [] && s.at < |s.w.log|
    requires TakingFrame(s, pipe).refused == 0
    ensures InStep(TakingFrame(s, pipe)) && s.at == s.r.sequence
  {
    assert s.w.log[..s.r.count + 1] == s.w.log[..s.r.count] + [s.w.log[s.r.count]];
  }

  lemma ReviveWriterKeepsSync(st: Stream, s: Link)
    requires Inv(st, s) && Sync(s) && Enabled(s, ReviveWriter) && (Attached(s) ==> s.attempt.upto == |s.w.log|)
    ensures Sync(RevivingWriter(s))
  {
    assert Sync(RevivingWriter(s));
  }

  lemma OtherStepKeepsSync(st: Stream, s: Link, step: Step)
    requires Inv(st, s) && Sync(s) && Enabled(s, step)
    requires !step.Write? && !step.Read? && !step.ReviveReader? && !step.ReviveWriter?
    ensures Sync(Next(st, s, step))
  {
    assert Sync(Next(st, s, step));
  }

  lemma StepKeepsSync(st: Stream, s: Link, step: Step)
    requires IdealStream(st) && Inv(st, s) && Sync(s) && Enabled(s, step) && !Next(st, s, step).gap
    ensures Sync(Next(st, s, step))
  {
    match step
    case Write(p, schedule) => WriteKeepsInStep(st, s, p, schedule);
    case Read(schedule) => ReadKeepsSync(st, s, schedule);
    case ReviveReader => ReviveReaderKeepsInStep(st, s);
    case ReviveWriter => ReviveWriterKeepsSync(st, s);
    case _ => OtherStepKeepsSync(st, s, step);
  }

  // ---------------------------------------------------------------- runs

  /** The link after a run of enabled steps; nothing if some step was not enabled. */
  ghost function PlayFrom(st: Stream, start: Link, steps: seq<Step>): Option<Link> {
    if steps == [] then Some(start)
    else
      var before, step := PlayFrom(st, start, steps[..|steps| - 1]), steps[|steps| - 1];
      if before.Some? && Shape(before.value) && Enabled(before.value, step)
      then Some(Next(st, before.value, step)) else None
  }

  /** A run from a fresh session. */
  ghost function Play(st: Stream, steps: seq<Step>): Option<Link> {
    PlayFrom(st, INITIAL, steps)
  }

  lemma InitialIsOk(st: Stream)
    ensures Inv(st, INITIAL) && Sync(INITIAL)
  {
    NothingDueAtTheEnd(st, []);
    assert STREAM_SPAN > 0;
    assert InFlight(INITIAL) == [];
    assert ChannelOk(st, INITIAL);
  }

  lemma {:induction false} RunsKeepInv(st: Stream, steps: seq<Step>)
    requires IdealStream(st) && Play(st, steps).Some?
    ensures Inv(st, Play(st, steps).value)
    ensures !Play(st, steps).value.gap ==> Sync(Play(st, steps).value)
    ensures Play(st, steps).value.refused == 0 ==> InStep(Play(st, steps).value)
  {
    if steps == [] {
      InitialIsOk(st);
    } else {
      var before, step := steps[..|steps| - 1], steps[|steps| - 1];
      RunsKeepInv(st, before);
      var s := Play(st, before).value;
      StepKeepsInv(st, s, step);
      GapsAndRefusalsStay(st, s, step);
      if !Next(st, s, step).gap {
        StepKeepsSync(st, s, step);
      }
      if Next(st, s, step).refused == 0 {
        StepKeepsInStep(st, s, step);
      }
      assert Play(st, steps) == Some(Next(st, s, step));
    }
  }

  lemma GapsAndRefusalsStay(st: Stream, s: Link, step: Step)
    requires Shape(s) && Enabled(s, step)
    ensures s.gap ==> Next(st, s, step).gap
    ensures s.refused <= Next(st, s, step).refused
  {
  }

  // ---------------------------------------------------------------- no duplication, no reordering

  /** Whatever the interleaving, even with writes in the handshake window: delivered packets are log entries
      at strictly increasing indices. Nothing is delivered twice or out of order. */
  lemma NoDuplicationNoReordering(st: Stream, steps: seq<Step>)
    requires IdealStream(st) && Play(st, steps).Some?
    ensures var s := Play(st, steps).value;
            |s.hits| == |s.delivered|
            && (forall i :: 0 <= i < |s.hits| ==> s.hits[i] < |s.w.log| && s.delivered[i] == s.w.log[s.hits[i]])
            && (forall i, j :: 0 <= i < j < |s.hits| ==> s.hits[i] < s.hits[j])
  {
    RunsKeepInv(st, steps);
  }

  // ---------------------------------------------------------------- gap-free delivery

  /** The catch-up queue, opened in turn. */
  function Decoded(st: Stream, count: nat, queue: seq<seq<byte>>): seq<Result<Packet, PacketError>> {
    seq(|queue|, i requires 0 <= i < |queue| => OpenEntry(st, count + i, queue[i]).0)
  }

  function AllOk(packets: seq<Packet>): seq<Result<Packet, PacketError>> {
    seq(|packets|, i requires 0 <= i < |packets| => Ok(packets[i]))
  }

  /** What was delivered followed by what the catch-up queue still decodes to is the log up to the reader's sequence
      number, and the cipher has advanced once for each delivered packet. */
  ghost predicate Delivers(st: Stream, s: Link) {
    && s.r.sequence <= |s.w.log|
    && AllOk(s.delivered) + Decoded(st, s.r.count, s.r.queue) == AllOk(s.w.log[..s.r.sequence])
    && |s.delivered| == s.r.count == s.r.sequence - |s.r.queue|
  }

  /** Every packet the cipher has passed was delivered or refused, so a refusal is never made up for. */
  lemma RefusalEndsDelivery(st: Stream, s: Link)
    requires Inv(st, s) && s.refused > 0
    ensures !Delivers(st, s)
  {
  }

  lemma QueueDecodes(st: Stream, s: Link)
    requires IdealStream(st) && Inv(st, s) && InStep(s)
    ensures Decoded(st, s.r.count, s.r.queue) == AllOk(s.w.log[s.r.count..s.r.sequence])
  {
    forall i | 0 <= i < |s.r.queue|
      ensures OpenEntry(st, s.r.count + i, s.r.queue[i]).0 == Ok(s.w.log[s.r.count + i])
    {
      assert s.r.queue[i] == Entry(st, s.queued[i], s.w.log[s.queued[i]]);
      assert MAX_SEQUENCE + 1 < U64 && U64 < STREAM_SPAN;
      EntryOpensOnlyInTurn(st, s.queued[i], s.w.log[s.queued[i]], s.r.count + i);
    }
  }

  lemma InStepDelivers(st: Stream, s: Link)
    requires IdealStream(st) && Inv(st, s) && InStep(s)
    ensures Delivers(st, s)
  {
    QueueDecodes(st, s);
    assert s.w.log[..s.r.sequence] == s.w.log[..s.r.count] + s.w.log[s.r.count..s.r.sequence];
  }

  /** Exactly once and in order over whole runs, gaps or not: up to the first packet that is refused. */
  lemma DeliveryUntilRefusal(st: Stream, steps: seq<Step>)
    requires IdealStream(st) && Play(st, steps).Some?
    ensures Play(st, steps).value.refused == 0 <==> Delivers(st, Play(st, steps).value)
  {
    RunsKeepInv(st, steps);
    if Play(st, steps).value.refused == 0 {
      InStepDelivers(st, Play(st, steps).value);
    } else {
      RefusalEndsDelivery(st, Play(st, steps).value);
    }
  }

  /** And none is ever refused while no writer was revived past its catch-up. */
  lemma GapFreeDelivery(st: Stream, steps: seq<Step>)
    requires IdealStream(st) && Play(st, steps).Some? && !Play(st, steps).value.gap
    ensures Delivers(st, Play(st, steps).value) && Play(st, steps).value.refused == 0
  {
    RunsKeepInv(st, steps);
    InStepDelivers(st, Play(st, steps).value);
  }

  /** The bytes behind it: a reader on the current connection has in flight a prefix of the frames of exactly the
      entries it has not counted, and all of them while the writer is live and the connection carries. */
  lemma ChannelHoldsWhatIsDue(st: Stream, steps: seq<Step>)
    requires IdealStream(st) && Play(st, steps).Some? && !Play(st, steps).value.gap && Play(st, steps).value.r.live
    ensures var s := Play(st, steps).value;
            s.r.sequence <= |s.w.log|
            && s.r.partial + s.pipe <= Frames(Entries(st, s.w.log, s.r.sequence, |s.w.log|))
            && (s.w.live && s.intact ==> s.r.partial + s.pipe == Frames(Entries(st, s.w.log, s.r.sequence, |s.w.log|)))
  {
    RunsKeepInv(st, steps);
  }

  // ---------------------------------------------------------------- the handshake window

  /** A packet accepted between recovering the catch-up and reviving the writer. */
  predicate WindowWrite(s: Link, step: Step) {
    step.Write? && s.attempt.Recovered? && !s.attempt.writerDone && Accepts(s.w, step.packet)
  }

  /** No step of the run from `start` is such a write. */
  ghost predicate WindowsKept(st: Stream, start: Link, steps: seq<Step>) {
    steps == [] ||
    var before, step := steps[..|steps| - 1], steps[|steps| - 1];
    WindowsKept(st, start, before)
    && (PlayFrom(st, start, before).Some? ==> !WindowWrite(PlayFrom(st, start, before).value, step))
  }

  ghost predicate WindowStill(s: Link) {
    s.attempt.Recovered? && !s.attempt.writerDone ==> s.attempt.upto == |s.w.log|
  }

  lemma StepKeepsWindowStill(st: Stream, s: Link, step: Step)
    requires Shape(s) && Enabled(s, step) && WindowStill(s) && !WindowWrite(s, step)
    ensures WindowStill(Next(st, s, step)) && Next(st, s, step).gap == s.gap
  {
    if step.Write? {
      assert !Accepts(s.w, step.packet) ==> Next(st, s, step).w.log == s.w.log;
    }
  }

  /** A run with no write in any handshake window leaves no gap. */
  lemma {:induction false} NoWindowWriteNoGap(st: Stream, steps: seq<Step>)
    requires Play(st, steps).Some? && WindowsKept(st, INITIAL, steps)
    ensures WindowStill(Play(st, steps).value) && !Play(st, steps).value.gap
  {
    if steps != [] {
      var before, step := steps[..|steps| - 1], steps[|steps| - 1];
      NoWindowWriteNoGap(st, before);
      StepKeepsWindowStill(st, Play(st, before).value, step);
      assert Play(st, steps) == Some(Next(st, Play(st, before).value, step));
    }
  }
}
