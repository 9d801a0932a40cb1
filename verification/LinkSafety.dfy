/** Every step of a link keeps its invariant, whatever the interleaving. */
module LinkSafety {
  import opened Outcomes
  import opened Bytes
  import opened Crypto
  import opened Packets
  import opened Sockets
  import opened Writers
  import opened Readers
  import opened Links

  // ---------------------------------------------------------------- entries and frames

  lemma EntriesOfLongerLog(st: Stream, log: seq<Packet>, p: Packet, from: nat, to: nat)
    requires from <= to <= |log|
    ensures Entries(st, log + [p], from, to) == Entries(st, log, from, to)
  {
  }

  lemma EntriesSnoc(st: Stream, log: seq<Packet>, from: nat, to: nat)
    requires from <= to < |log|
    ensures Entries(st, log, from, to + 1) == Entries(st, log, from, to) + [Entry(st, to, log[to])]
  {
  }

  lemma EntriesCons(st: Stream, log: seq<Packet>, from: nat, to: nat)
    requires from < to <= |log|
    ensures Entries(st, log, from, to) == [Entry(st, from, log[from])] + Entries(st, log, from + 1, to)
  {
  }

  lemma EntriesSplit(st: Stream, log: seq<Packet>, from: nat, mid: nat, to: nat)
    requires from <= mid <= to <= |log|
    ensures Entries(st, log, from, to) == Entries(st, log, from, mid) + Entries(st, log, mid, to)
  {
  }

  lemma {:induction false} FramesSnoc(entries: seq<seq<byte>>, e: seq<byte>)
    ensures Frames(entries + [e]) == Frames(entries) + Frame(e)
  {
    if entries == [] {
      assert [e][1..] == [] && Frames([e]) == Frame(e) + Frames([]);
    } else {
      FramesSnoc(entries[1..], e);
      assert (entries + [e])[1..] == entries[1..] + [e];
    }
  }

  /** A logged packet's frame comes last among the frames due. */
  lemma DueAfterLogging(st: Stream, s: Link, t: Link, p: Packet)
    requires s.at == t.at <= |s.w.log| && t.w.log == s.w.log + [p]
    ensures Due(st, t) == Due(st, s) + Frame(Entry(st, |s.w.log|, p))
  {
    EntriesSnoc(st, t.w.log, s.at, |s.w.log|);
    EntriesOfLongerLog(st, s.w.log, p, s.at, |s.w.log|);
    FramesSnoc(Entries(st, s.w.log, s.at, |s.w.log|), Entry(st, |s.w.log|, p));
  }

  lemma EntryIsSmall(st: Stream, i: nat, p: Packet)
    requires TagLaw(st) && SealedLength(p) < U32
    ensures |Entry(st, i, p)| < U32
  {
    SealedHasSealedLength(st, i, p);
  }

  lemma NothingDueAtTheEnd(st: Stream, log: seq<Packet>)
    ensures Frames(Entries(st, log, |log|, |log|)) == []
  {
    assert Entries(st, log, |log|, |log|) == [];
  }

  // ---------------------------------------------------------------- writing

  /** Logging a packet changes nothing that was queued, caught up or sent before. */
  lemma LoggingKeepsQueue(st: Stream, s: Link, t: Link, p: Packet)
    requires QueueOk(st, s) && t.w.log == s.w.log + [p] && t.r == s.r && t.queued == s.queued
    ensures QueueOk(st, t)
  {
  }

  lemma LoggingKeepsAttempt(st: Stream, s: Link, t: Link, p: Packet)
    requires AttemptOk(st, s) && t.w.log == s.w.log + [p] && t.r == s.r && t.attempt == s.attempt && t.at == s.at
    requires t.intact == s.intact && (!s.intact ==> t.pipe == s.pipe)
    requires !s.w.live ==> !t.w.live && t.w.kept == s.w.kept + 1 && t.pipe == s.pipe
    ensures AttemptOk(st, t)
  {
    if s.attempt.Recovered? {
      EntriesOfLongerLog(st, s.w.log, p, s.attempt.remote, s.attempt.upto);
    }
  }

  lemma LoggingKeepsHits(s: Link, t: Link, p: Packet)
    requires HitsOk(s) && t.w.log == s.w.log + [p] && t.r == s.r && t.hits == s.hits && t.delivered == s.delivered
    ensures HitsOk(t)
  {
  }

  lemma LoggingKeepsLog(w: Writer, x: Writer, p: Packet)
    requires LogOk(w) && |w.log| < MAX_SEQUENCE && SealedLength(p) < U32 && !p.encrypted
    requires x.log == w.log + [p] && x.kept <= |x.log|
    ensures LogOk(x)
  {
  }

  /** The frame goes out whole on a live writer, or as a prefix from a writer that has just died. */
  lemma LoggingKeepsChannel(st: Stream, s: Link, t: Link, p: Packet, sent: seq<byte>)
    requires ChannelOk(st, s) && t.w.log == s.w.log + [p] && t.at == s.at && t.r == s.r && t.attempt == s.attempt
             && t.intact == s.intact
    requires t.pipe == if s.intact then s.pipe + sent else s.pipe
    requires !s.w.live ==> sent == [] && !t.w.live
    requires s.w.live ==>
             sent <= Frame(Entry(st, |s.w.log|, p)) && (t.w.live ==> sent == Frame(Entry(st, |s.w.log|, p)))
    ensures ChannelOk(st, t)
  {
    DueAfterLogging(st, s, t, p);
    if Attached(s) {
      var frame := Frame(Entry(st, |s.w.log|, p));
      assert Due(st, t) == Due(st, s) + frame;
      if s.intact && s.w.live {
        assert InFlight(t) == Due(st, s) + sent;
      } else {
        assert InFlight(t) == InFlight(s);
      }
    }
  }

  lemma WriteKeepsInv(st: Stream, s: Link, p: Packet, schedule: seq<Io>)
    requires Inv(st, s) && Enabled(s, Step.Write(p, schedule))
    ensures Inv(st, Written(st, s, p, schedule))
  {
    var t, res := Written(st, s, p, schedule), WriteStep(st, s.w, p, schedule);
    if Accepts(s.w, p) {
      assert res.writer.log == s.w.log + [p] && res.writer.kept <= |res.writer.log|;
      assert !s.w.live ==> res.sent == [] && s.pipe + res.sent == s.pipe;
      LoggingKeepsLog(s.w, t.w, p);
      LoggingKeepsQueue(st, s, t, p);
      LoggingKeepsAttempt(st, s, t, p);
      LoggingKeepsHits(s, t, p);
      LoggingKeepsChannel(st, s, t, p, res.sent);
    } else {
      assert s.pipe + [] == s.pipe;
      assert t == s;
    }
  }

  // ---------------------------------------------------------------- reading

  /** A packet returned by `read` sits in the log at the index the cipher count names. */
  lemma HitExtends(s: Link, t: Link, index: nat, got: bool)
    requires HitsOk(s) && t.w == s.w && t.r.count == s.r.count + 1
    requires index < |s.w.log|
    requires if got
             then index == s.r.count && t.hits == s.hits + [index] && t.delivered == s.delivered + [s.w.log[index]]
             else t.hits == s.hits && t.delivered == s.delivered
    ensures HitsOk(t)
  {
  }

  /** What a `read` that takes a catch-up entry does: the entry opens exactly in its turn. */
  function TakingQueued(s: Link): Link
    requires s.queued != [] && |s.queued| == |s.r.queue| && s.queued[0] < |s.w.log|
  {
    var got := s.queued[0] == s.r.count;
    s.(r := s.r.(queue := s.r.queue[1..], count := s.r.count + 1), queued := s.queued[1..],
       delivered := if got then s.delivered + [s.w.log[s.queued[0]]] else s.delivered,
       hits := if got then s.hits + [s.queued[0]] else s.hits,
       refused := if got then s.refused else s.refused + 1)
  }

  lemma ReadQueued(st: Stream, s: Link, schedule: seq<Io>)
    requires IdealStream(st) && Inv(st, s) && s.r.count + 1 < STREAM_SPAN && s.r.queue != []
    ensures ReadFrom(st, s, schedule) == TakingQueued(s)
  {
    EntryOpensOnlyInTurn(st, s.queued[0], s.w.log[s.queued[0]], s.r.count);
    assert s.pipe[0..] == s.pipe;
  }

  function TakingFrame(s: Link, pipe: seq<byte>): Link
    requires s.at < |s.w.log|
  {
    var got := s.at == s.r.count;
    s.(r := s.r.(partial := [], count := s.r.count + 1, sequence := if got then s.r.sequence + 1 else s.r.sequence),
       pipe := pipe, at := s.at + 1,
       delivered := if got then s.delivered + [s.w.log[s.at]] else s.delivered,
       hits := if got then s.hits + [s.at] else s.hits,
       refused := if got then s.refused else s.refused + 1)
  }

  /** What a `read` that completes a frame does: the frame is the entry at `at`, whole, and opens exactly in its
      turn. */
  lemma ReadCompleting(st: Stream, s: Link, schedule: seq<Io>)
    requires IdealStream(st) && Inv(st, s) && s.r.count + 1 < STREAM_SPAN && CompletesFrame(s, schedule)
    ensures s.at < |s.w.log|
    ensures var t := ReadFrom(st, s, schedule);
            t == TakingFrame(s, t.pipe) && InFlight(s) == Frame(Entry(st, s.at, s.w.log[s.at])) + t.pipe
  {
    var (n, f, rest) := FillFrame(s.r.partial, s.pipe, schedule);
    var whole := s.r.partial + s.pipe[..n];
    Rejoin(s.r.partial, s.pipe, n);
    FrameInFlightIsDue(st, s, whole, s.pipe[n..]);
    EntryOpensOnlyInTurn(st, s.at, s.w.log[s.at], s.r.count);
    var (p, count) := OpenEntry(st, s.r.count, Entry(st, s.at, s.w.log[s.at]));
    StepCompleting(st, s.r, s.pipe, schedule, Entry(st, s.at, s.w.log[s.at]));
    assert ReadFrom(st, s, schedule) == TakingFrame(s, s.pipe[n..]);
  }

  lemma StepCompleting(st: Stream, r: Reader, pipe: seq<byte>, schedule: seq<Io>, e: seq<byte>)
    requires ReaderOk(r) && r.live && r.queue == []
    requires var (n, f, _) := FillFrame(r.partial, pipe, schedule);
             f == Filled && (r.partial + pipe[..n])[LENGTH_BYTES..] == e
    ensures var (n, _, rest) := FillFrame(r.partial, pipe, schedule);
            var (p, count) := OpenEntry(st, r.count, e);
            ReadStep(st, r, pipe, schedule)
            == ReadResult(Outcome(p),
                          r.(partial := [], count := count, sequence := if p.Ok? then r.sequence + 1 else r.sequence),
                          n, rest)
  {
  }

  lemma FrameInFlightIsDue(st: Stream, s: Link, whole: seq<byte>, more: seq<byte>)
    requires TagLaw(st) && LogOk(s.w) && s.at <= |s.w.log| && whole + more <= Due(st, s)
    requires |whole| >= LENGTH_BYTES && |whole| == LENGTH_BYTES + FromBe4(whole)
    ensures s.at < |s.w.log| && whole == Frame(Entry(st, s.at, s.w.log[s.at]))
            && whole[LENGTH_BYTES..] == Entry(st, s.at, s.w.log[s.at])
  {
    if s.at == |s.w.log| {
      NothingDueAtTheEnd(st, s.w.log);
      assert false;
    }
    EntryIsSmall(st, s.at, s.w.log[s.at]);
    EntriesCons(st, s.w.log, s.at, |s.w.log|);
    WholeFrameInFlight(whole, more, Entry(st, s.at, s.w.log[s.at]), Frames(Entries(st, s.w.log, s.at + 1, |s.w.log|)));
  }

  lemma WholeFrameInFlight(whole: seq<byte>, more: seq<byte>, e: seq<byte>, rest: seq<byte>)
    requires |e| < U32 && whole + more <= Frame(e) + rest
    requires |whole| >= LENGTH_BYTES && |whole| == LENGTH_BYTES + FromBe4(whole)
    ensures whole == Frame(e) && whole[LENGTH_BYTES..] == e && more <= rest
  {
    assert whole <= Frame(e) + rest;
    PrefixOfFrames(whole, e, rest);
    assert |whole| == |Frame(e)|;
    assert whole == (Frame(e) + rest)[..|whole|] == Frame(e);
    assert more == (whole + more)[|whole|..];
    assert rest == (Frame(e) + rest)[|whole|..];
  }

  /** What any other `read` does: it at most moves bytes from the connection into `partial`. */
  lemma ReadWaiting(st: Stream, s: Link, schedule: seq<Io>)
    requires Shape(s) && s.r.queue == [] && !CompletesFrame(s, schedule)
    ensures var t := ReadFrom(st, s, schedule);
            t == s.(r := s.r.(partial := t.r.partial), pipe := t.pipe) && Incomplete(t.r.partial)
            && s.r.partial + s.pipe == t.r.partial + t.pipe && (!s.r.live ==> t == s)
  {
    if s.r.live {
      var (n, f, rest) := FillFrame(s.r.partial, s.pipe, schedule);
      var res := ReadResult(Stopped(f), s.r.(partial := s.r.partial + s.pipe[..n]), n, rest);
      assert ReadStep(st, s.r, s.pipe, schedule) == res;
      assert ReadFrom(st, s, schedule) == s.(r := res.reader, pipe := s.pipe[n..]);
      Rejoin(s.r.partial, s.pipe, n);
    } else {
      assert ReadStep(st, s.r, s.pipe, schedule) == ReadResult(Nothing, s.r, 0, schedule);
      assert s.pipe[0..] == s.pipe;
      assert ReadFrom(st, s, schedule) == s;
    }
  }

  lemma Rejoin(start: seq<byte>, pipe: seq<byte>, n: nat)
    requires n <= |pipe|
    ensures start + pipe == start + pipe[..n] + pipe[n..]
  {
    assert pipe == pipe[..n] + pipe[n..];
  }

  lemma ChannelAfterFrame(st: Stream, s: Link, t: Link)
    requires ChannelOk(st, s) && s.at < |s.w.log| && s.r.live
    requires t.w == s.w && t.at == s.at + 1 && t.r.live && t.r.partial == [] && t.intact == s.intact
             && t.attempt == s.attempt
    requires InFlight(s) == Frame(Entry(st, s.at, s.w.log[s.at])) + t.pipe
    ensures ChannelOk(st, t)
  {
    EntriesCons(st, s.w.log, s.at, |s.w.log|);
    var frame := Frame(Entry(st, s.at, s.w.log[s.at]));
    assert Due(st, s) == frame + Due(st, t);
    assert InFlight(t) == t.pipe;
    assert InFlight(s)[|frame|..] == t.pipe && Due(st, s)[|frame|..] == Due(st, t);
  }

  lemma TakingQueuedKeepsInv(st: Stream, s: Link)
    requires Inv(st, s) && s.r.count + 1 < STREAM_SPAN && s.r.queue != []
    ensures Inv(st, TakingQueued(s))
  {
    var t := TakingQueued(s);
    HitExtends(s, t, s.queued[0], s.queued[0] == s.r.count);
    assert QueueOk(st, t);
    assert Due(st, t) == Due(st, s) && InFlight(t) == InFlight(s);
    assert ChannelOk(st, t);
    assert AttemptOk(st, t);
  }

  lemma TakingFrameKeepsInv(st: Stream, s: Link, pipe: seq<byte>)
    requires Inv(st, s) && s.r.count + 1 < STREAM_SPAN && s.r.live && s.r.queue == [] && s.at < |s.w.log|
    requires InFlight(s) == Frame(Entry(st, s.at, s.w.log[s.at])) + pipe
    ensures Inv(st, TakingFrame(s, pipe))
  {
    var t := TakingFrame(s, pipe);
    HitExtends(s, t, s.at, s.at == s.r.count);
    ChannelAfterFrame(st, s, t);
    assert |InFlight(s)| > 0;
    assert QueueOk(st, t);
    assert AttemptOk(st, t);
  }

  lemma MovingBytesKeepsInv(st: Stream, s: Link, partial: seq<byte>, pipe: seq<byte>)
    requires Inv(st, s) && s.r.live && Incomplete(partial) && s.r.partial + s.pipe == partial + pipe
    ensures Inv(st, s.(r := s.r.(partial := partial), pipe := pipe))
  {
    var t := s.(r := s.r.(partial := partial), pipe := pipe);
    assert InFlight(t) == InFlight(s) && Due(st, t) == Due(st, s);
    assert |partial + pipe| == |s.r.partial| + |s.pipe|;
    assert ChannelOk(st, t);
    assert AttemptOk(st, t);
  }

  lemma ReadKeepsInv(st: Stream, s: Link, schedule: seq<Io>)
    requires IdealStream(st) && Inv(st, s) && Enabled(s, Step.Read(schedule))
    ensures Inv(st, ReadFrom(st, s, schedule))
  {
    var t := ReadFrom(st, s, schedule);
    if s.r.queue != [] {
      ReadQueued(st, s, schedule);
      TakingQueuedKeepsInv(st, s);
      assert Inv(st, t);
    } else if CompletesFrame(s, schedule) {
      ReadCompleting(st, s, schedule);
      TakingFrameKeepsInv(st, s, t.pipe);
      assert Inv(st, t);
    } else {
      ReadWaiting(st, s, schedule);
      if s.r.live {
        MovingBytesKeepsInv(st, s, t.r.partial, t.pipe);
      }
      assert Inv(st, t);
    }
  }

  // ---------------------------------------------------------------- disconnecting and reconnecting

  lemma DropKeepsInv(st: Stream, s: Link, step: Step)
    requires Inv(st, s) && (step == DropWriter || step == DropReader) && Enabled(s, step)
    ensures Inv(st, Next(st, s, step))
  {
    var t := Next(st, s, step);
    assert Due(st, t) == Due(st, s);
    assert Attached(t) && !s.r.live ==> InFlight(t) == InFlight(s);
    assert ChannelOk(st, t);
    assert AttemptOk(st, t);
  }

  lemma LoseKeepsInv(st: Stream, s: Link, keep: nat)
    requires Inv(st, s) && Enabled(s, Lose(keep))
    ensures Inv(st, Next(st, s, Lose(keep)))
  {
    var t := Next(st, s, Lose(keep));
    assert Due(st, t) == Due(st, s) && InFlight(t) <= InFlight(s);
    assert ChannelOk(st, t);
    assert AttemptOk(st, t);
  }

  lemma ReportKeepsInv(st: Stream, s: Link)
    requires Inv(st, s) && Enabled(s, Report)
    ensures Inv(st, Next(st, s, Report))
  {
  }

  lemma FinishKeepsInv(st: Stream, s: Link)
    requires Inv(st, s) && Enabled(s, Finish)
    ensures Inv(st, Next(st, s, Finish))
  {
    var t := Next(st, s, Finish);
    assert Due(st, t) == Due(st, s);
    assert ChannelOk(st, t);
  }

  lemma RecoverKeepsInv(st: Stream, s: Link)
    requires Inv(st, s) && Enabled(s, Recover)
    ensures Inv(st, Recovering(st, s))
  {
    var t := Recovering(st, s);
    assert InFlight(t) == [] && [] <= Due(st, t);
    assert ChannelOk(st, t);
    assert AttemptOk(st, t);
  }

  lemma ReviveReaderKeepsInv(st: Stream, s: Link)
    requires Inv(st, s) && Enabled(s, ReviveReader)
    ensures Inv(st, RevivingReader(s))
  {
    var t, a := RevivingReader(s), s.attempt;
    forall i | 0 <= i < |t.queued|
      ensures t.queued[i] < |t.w.log| && t.r.queue[i] == Entry(st, t.queued[i], t.w.log[t.queued[i]])
    {
      if i >= |s.queued| {
        assert t.queued[i] == a.remote + (i - |s.queued|);
        assert t.r.queue[i] == a.catchup[i - |s.queued|];
      }
    }
    assert InFlight(t) == InFlight(s) by {
      assert [] + s.pipe == s.pipe;
    }
    if a.writerDone {
      assert Due(st, t) == Due(st, s);
    } else {
      assert InFlight(t) == [] && [] <= Due(st, t);
    }
    assert ChannelOk(st, t);
    assert AttemptOk(st, t);
    assert HitsOk(t);
  }

  lemma ReviveWriterKeepsInv(st: Stream, s: Link)
    requires Inv(st, s) && Enabled(s, ReviveWriter)
    ensures Inv(st, RevivingWriter(s))
  {
    var t := RevivingWriter(s);
    NothingDueAtTheEnd(st, s.w.log);
    assert InFlight(t) == [] && Due(st, t) == [];
    assert ChannelOk(st, t);
    assert AttemptOk(st, t);
  }

  lemma ReviveStaleKeepsInv(st: Stream, s: Link)
    requires Inv(st, s) && Enabled(s, ReviveStale)
    ensures Inv(st, Next(st, s, ReviveStale))
  {
    var t := Next(st, s, ReviveStale);
    assert InFlight(t) == InFlight(s) && Due(st, t) == Due(st, s);
    assert ChannelOk(st, t);
    assert AttemptOk(st, t);
  }

  lemma StepKeepsInv(st: Stream, s: Link, step: Step)
    requires IdealStream(st) && Inv(st, s) && Enabled(s, step)
    ensures Inv(st, Next(st, s, step))
  {
    match step
    case Write(p, schedule) => WriteKeepsInv(st, s, p, schedule);
    case Read(schedule) => ReadKeepsInv(st, s, schedule);
    case DropWriter => DropKeepsInv(st, s, step);
    case DropReader => DropKeepsInv(st, s, step);
    case Lose(keep) => LoseKeepsInv(st, s, keep);
    case Report => ReportKeepsInv(st, s);
    case Recover => RecoverKeepsInv(st, s);
    case ReviveReader => ReviveReaderKeepsInv(st, s);
    case ReviveWriter => ReviveWriterKeepsInv(st, s);
    case ReviveStale => ReviveStaleKeepsInv(st, s);
    case Finish => FinishKeepsInv(st, s);
  }
}
