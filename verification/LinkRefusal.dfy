/** What follows the first refusal: without another write in a handshake window, nothing is ever delivered again. */
module LinkRefusal {
  import opened Outcomes
  import opened Bytes
  import opened Crypto
  import opened Packets
  import opened Sockets
  import opened Writers
  import opened Readers
  import opened Links
  import opened LinkSafety
  import opened LinkDelivery

  /** The cipher is ahead of everything it will be given: of each queued catch-up entry, and of no frame exactly in
      turn, whether on the current connection or on one that the reader may still join. */
  ghost predicate Ahead(s: Link) {
    && |s.queued| == |s.r.queue| <= s.r.sequence < s.r.count + |s.r.queue|
    && (forall i :: 0 <= i < |s.queued| ==> s.queued[i] == s.r.sequence - |s.queued| + i)
    && WindowStill(s)
    && (s.r.live ==> s.at != s.r.count + |s.r.queue|)
    && (s.attempt.Recovered? && !s.attempt.readerDone && s.attempt.writerDone ==>
        s.at != s.r.count + |s.r.queue| + |s.attempt.catchup|)
  }

  lemma SilenceCompletesNothing(s: Link, schedule: seq<Io>)
    requires ReaderOk(s.r) && s.pipe == [] && (s.r.live ==> s.r.partial == [])
    ensures !CompletesFrame(s, schedule)
  {
    var nothing := s.r.partial + s.pipe[..FillFrame(s.r.partial, s.pipe, schedule).0];
    assert s.r.live ==> |nothing| == 0;
  }

  lemma ReadKeepsAhead(st: Stream, s: Link, schedule: seq<Io>)
    requires IdealStream(st) && Inv(st, s) && Ahead(s) && Enabled(s, Step.Read(schedule))
    ensures var t := ReadFrom(st, s, schedule); Ahead(t) && t.hits == s.hits && t.delivered == s.delivered
  {
    var t := ReadFrom(st, s, schedule);
    if s.r.queue != [] {
      ReadQueued(st, s, schedule);
      TakingQueuedKeepsAhead(s);
      assert Ahead(t);
    } else if CompletesFrame(s, schedule) {
      ReadCompleting(st, s, schedule);
      assert t == TakingFrame(s, t.pipe) && Ahead(t);
    } else {
      ReadWaiting(st, s, schedule);
      assert Ahead(t);
    }
  }

  lemma TakingQueuedKeepsAhead(s: Link)
    requires Ahead(s) && s.r.queue != [] && s.queued[0] < |s.w.log|
    ensures var t := TakingQueued(s); Ahead(t) && t.hits == s.hits && t.delivered == s.delivered
  {
    assert s.queued[0] == s.r.sequence - |s.queued| != s.r.count;
  }

  lemma ReviveReaderKeepsAhead(st: Stream, s: Link)
    requires Inv(st, s) && Ahead(s) && Enabled(s, ReviveReader)
    ensures Ahead(RevivingReader(s))
  {
    var t, a := RevivingReader(s), s.attempt;
    forall i | 0 <= i < |t.queued|
      ensures t.queued[i] == t.r.sequence - |t.queued| + i
    {
      if i >= |s.queued| {
        assert t.queued[i] == a.remote + (i - |s.queued|);
      }
    }
    assert Ahead(t);
  }

  lemma ReviveWriterKeepsAhead(st: Stream, s: Link)
    requires Inv(st, s) && Ahead(s) && Enabled(s, ReviveWriter)
    ensures Ahead(RevivingWriter(s))
  {
    var t := RevivingWriter(s);
    assert t.at == s.attempt.upto == s.attempt.remote + |s.attempt.catchup|;
    assert Ahead(t);
  }

  lemma OtherStepKeepsAhead(st: Stream, s: Link, step: Step)
    requires Inv(st, s) && Ahead(s) && Enabled(s, step) && WindowStill(Next(st, s, step))
    requires !step.Read? && !step.ReviveReader? && !step.ReviveWriter?
    ensures var t := Next(st, s, step); Ahead(t) && t.hits == s.hits && t.delivered == s.delivered
  {
    assert Ahead(Next(st, s, step));
  }

  lemma StepKeepsAhead(st: Stream, s: Link, step: Step)
    requires IdealStream(st) && Inv(st, s) && Ahead(s) && Enabled(s, step) && !WindowWrite(s, step)
    ensures var t := Next(st, s, step); Ahead(t) && t.hits == s.hits && t.delivered == s.delivered
  {
    StepKeepsWindowStill(st, s, step);
    match step
    case Read(schedule) => ReadKeepsAhead(st, s, schedule);
    case ReviveReader => ReviveReaderKeepsAhead(st, s);
    case ReviveWriter => ReviveWriterKeepsAhead(st, s);
    case _ => OtherStepKeepsAhead(st, s, step);
  }

  lemma {:induction false} RunsKeepAhead(st: Stream, s: Link, steps: seq<Step>)
    requires IdealStream(st) && Inv(st, s) && Ahead(s) && PlayFrom(st, s, steps).Some? && WindowsKept(st, s, steps)
    ensures var u := PlayFrom(st, s, steps).value;
            Inv(st, u) && Ahead(u) && u.hits == s.hits && u.delivered == s.delivered
  {
    if steps != [] {
      var before, step := steps[..|steps| - 1], steps[|steps| - 1];
      RunsKeepAhead(st, s, before);
      var t := PlayFrom(st, s, before).value;
      StepKeepsInv(st, t, step);
      StepKeepsAhead(st, t, step);
      assert PlayFrom(st, s, steps) == Some(Next(st, t, step));
    }
  }

  /** No continuation without a write in a window delivers anything more. */
  ghost predicate NothingFollows(st: Stream, s: Link) {
    forall more :: PlayFrom(st, s, more).Some? && WindowsKept(st, s, more) ==>
      PlayFrom(st, s, more).value.delivered == s.delivered
  }

  lemma AheadNothingFollows(st: Stream, s: Link)
    requires IdealStream(st) && Inv(st, s) && Ahead(s)
    ensures NothingFollows(st, s)
  {
    forall more | PlayFrom(st, s, more).Some? && WindowsKept(st, s, more)
      ensures PlayFrom(st, s, more).value.delivered == s.delivered
    {
      RunsKeepAhead(st, s, more);
    }
  }

  /** The first packet refused is a frame from past a gap, and it puts the cipher ahead. No window is open then: until
      its writer is revived a connection carries no frame. */
  lemma FirstRefusal(st: Stream, s: Link, schedule: seq<Io>)
    requires IdealStream(st) && Inv(st, s) && InStep(s) && Enabled(s, Step.Read(schedule))
    requires ReadFrom(st, s, schedule).refused > 0
    ensures Ahead(ReadFrom(st, s, schedule)) && ReadFrom(st, s, schedule).delivered == s.delivered
  {
    var t := ReadFrom(st, s, schedule);
    if s.r.queue != [] {
      ReadQueued(st, s, schedule);
      TakingQueuedKeepsInStep(s);
    } else if CompletesFrame(s, schedule) {
      if s.attempt.Recovered? && !s.attempt.writerDone {
        SilenceCompletesNothing(s, schedule);
      }
      ReadCompleting(st, s, schedule);
      assert t == TakingFrame(s, t.pipe) && Ahead(t);
    } else {
      ReadWaiting(st, s, schedule);
    }
  }

  /** The first refusal ends the stream: over every run, from the moment the reader first refuses a packet, nothing is
      delivered again without another write in a window, however often both ends reconnect. */
  lemma TheFirstRefusalIsTheEnd(st: Stream, steps: seq<Step>, schedule: seq<Io>)
    requires IdealStream(st) && Play(st, steps).Some? && Play(st, steps).value.refused == 0
    requires Play(st, steps + [Step.Read(schedule)]).Some? && Play(st, steps + [Step.Read(schedule)]).value.refused > 0
    ensures Play(st, steps + [Step.Read(schedule)]).value.delivered == Play(st, steps).value.delivered
    ensures NothingFollows(st, Play(st, steps + [Step.Read(schedule)]).value)
  {
    RunsKeepInv(st, steps);
    RunsKeepInv(st, steps + [Step.Read(schedule)]);
    assert (steps + [Step.Read(schedule)])[..|steps|] == steps;
    FirstRefusal(st, Play(st, steps).value, schedule);
    AheadNothingFollows(st, ReadFrom(st, Play(st, steps).value, schedule));
  }
}
