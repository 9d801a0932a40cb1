/** When a gap shows in what is delivered, when it heals, and a run in which a packet is lost for good. */
module LinkGap {
  import opened Outcomes
  import opened Bytes
  import opened Crypto
  import opened Packets
  import opened Sockets
  import opened Writers
  import opened Readers
  import opened Links
  import opened LinkSafety
  import opened LinkDelivery
  import opened LinkWindow
  import opened LinkRefusal

  // ---------------------------------------------------------------- runs, one after the other

  lemma PlayOn(st: Stream, start: Link, before: seq<Step>, s: Link, step: Step)
    requires PlayFrom(st, start, before) == Some(s) && Shape(s) && Enabled(s, step)
    ensures PlayFrom(st, start, before + [step]) == Some(Next(st, s, step))
    ensures WindowsKept(st, start, before) && !WindowWrite(s, step) ==> WindowsKept(st, start, before + [step])
  {
    assert (before + [step])[..|before|] == before;
  }

  lemma {:induction false} PlayThen(st: Stream, start: Link, first: seq<Step>, second: seq<Step>)
    requires PlayFrom(st, start, first).Some?
    ensures PlayFrom(st, start, first + second) == PlayFrom(st, PlayFrom(st, start, first).value, second)
  {
    if second == [] {
      assert first + second == first;
    } else {
      var before := second[..|second| - 1];
      PlayThen(st, start, first, before);
      assert (first + second)[..|first + second| - 1] == first + before;
    }
  }

  lemma {:induction false} WindowsKeptThen(st: Stream, start: Link, first: seq<Step>, second: seq<Step>)
    requires PlayFrom(st, start, first).Some? && WindowsKept(st, start, first)
    requires WindowsKept(st, PlayFrom(st, start, first).value, second)
    ensures WindowsKept(st, start, first + second)
  {
    if second == [] {
      assert first + second == first;
    } else {
      var before, step := second[..|second| - 1], second[|second| - 1];
      WindowsKeptThen(st, start, first, before);
      PlayThen(st, start, first, before);
      assert first + second == (first + before) + [step];
      KeptOneMore(st, start, first + before, step, PlayFrom(st, PlayFrom(st, start, first).value, before));
    }
  }

  lemma KeptOneMore(st: Stream, start: Link, before: seq<Step>, step: Step, s: Option<Link>)
    requires WindowsKept(st, start, before) && PlayFrom(st, start, before) == s
    requires s.Some? ==> !WindowWrite(s.value, step)
    ensures WindowsKept(st, start, before + [step])
  {
    assert (before + [step])[..|before|] == before;
  }

  /** Steps from `s` to `t` with no write in a window. */
  ghost predicate Leads(st: Stream, s: Link, steps: seq<Step>, t: Link) {
    PlayFrom(st, s, steps) == Some(t) && WindowsKept(st, s, steps)
  }

  lemma One(st: Stream, s: Link, step: Step) returns (steps: seq<Step>)
    requires Shape(s) && Enabled(s, step) && !WindowWrite(s, step)
    ensures Leads(st, s, steps, Next(st, s, step))
  {
    PlayOn(st, s, [], s, step);
    steps := [] + [step];
  }

  lemma Then(st: Stream, s: Link, first: seq<Step>, t: Link, second: seq<Step>, u: Link) returns (steps: seq<Step>)
    requires Leads(st, s, first, t) && Leads(st, t, second, u)
    ensures Leads(st, s, steps, u)
  {
    steps := first + second;
    PlayThen(st, s, first, second);
    WindowsKeptThen(st, s, first, second);
  }

  // ---------------------------------------------------------------- a connection that carries nothing out of step

  /** Nothing out of step can complete a frame: the connection stands where the reader does, or brings nothing more. */
  ghost predicate Settled(s: Link) {
    && InStep(s)
    && WindowStill(s)
    && (Sync(s) || Silent(s))
  }

  /** No bytes in flight, and none to come before the next attempt. */
  ghost predicate Silent(s: Link) {
    !s.intact && s.pipe == [] && (s.r.live ==> s.r.partial == [])
  }

  lemma SilentStep(st: Stream, s: Link, step: Step)
    requires IdealStream(st) && Inv(st, s) && InStep(s) && WindowStill(s) && Silent(s) && Enabled(s, step)
    ensures var t := Next(st, s, step); t.refused == 0 && (Silent(t) || Sync(t))
  {
    var t := Next(st, s, step);
    match step
    case Read(schedule) => SilentRead(st, s, schedule);
    case ReviveWriter =>
      ReviveWriterFromSilence(st, s);
      assert Sync(t);
    case Recover =>
      RecoverFromSilence(st, s);
      assert Sync(t);
    case Write(p, schedule) => SilentWrite(st, s, p, schedule);
    case _ => OtherSilentStep(st, s, step);
  }

  lemma SilentWrite(st: Stream, s: Link, p: Packet, schedule: seq<Io>)
    requires Shape(s) && Silent(s)
    ensures var t := Written(st, s, p, schedule); Silent(t) && t.refused == s.refused
  {
  }

  lemma OtherSilentStep(st: Stream, s: Link, step: Step)
    requires Shape(s) && Silent(s) && Enabled(s, step)
    requires !step.Read? && !step.Write? && !step.Recover? && !step.ReviveWriter?
    ensures Silent(Next(st, s, step)) && Next(st, s, step).refused == s.refused
  {
    assert Next(st, s, step).refused == s.refused;
  }

  lemma RecoverFromSilence(st: Stream, s: Link)
    requires Inv(st, s) && InStep(s) && Enabled(s, Recover)
    ensures Sync(Recovering(st, s))
  {
  }

  /** With no bytes in flight a read can only take a catch-up entry. */
  lemma SilentRead(st: Stream, s: Link, schedule: seq<Io>)
    requires IdealStream(st) && Inv(st, s) && InStep(s) && Silent(s) && Enabled(s, Step.Read(schedule))
    ensures Silent(ReadFrom(st, s, schedule)) && ReadFrom(st, s, schedule).refused == 0
  {
    var t := ReadFrom(st, s, schedule);
    if s.r.queue != [] {
      ReadQueued(st, s, schedule);
      assert t == TakingQueued(s);
    } else {
      SilenceCompletesNothing(s, schedule);
      ReadWaiting(st, s, schedule);
      if s.r.live {
        assert |t.r.partial + t.pipe| == 0;
      }
    }
  }

  lemma ReviveWriterFromSilence(st: Stream, s: Link)
    requires Inv(st, s) && InStep(s) && WindowStill(s) && Enabled(s, ReviveWriter)
    ensures Sync(RevivingWriter(s))
  {
    assert Sync(RevivingWriter(s));
  }

  lemma StepKeepsSettled(st: Stream, s: Link, step: Step)
    requires IdealStream(st) && Inv(st, s) && Settled(s) && Enabled(s, step) && !WindowWrite(s, step)
    ensures Settled(Next(st, s, step))
  {
    StepKeepsWindowStill(st, s, step);
    if Sync(s) {
      SyncStep(st, s, step);
    } else {
      SilentStep(st, s, step);
      StepKeepsInStep(st, s, step);
    }
  }

  /** Steps from a link in step, whatever gap lies behind it. */
  lemma SyncStep(st: Stream, s: Link, step: Step)
    requires IdealStream(st) && Inv(st, s) && Sync(s) && WindowStill(s) && Enabled(s, step)
    ensures Sync(Next(st, s, step))
  {
    match step
    case Write(p, schedule) => WriteKeepsInStep(st, s, p, schedule);
    case Read(schedule) => ReadKeepsSync(st, s, schedule);
    case ReviveReader => ReviveReaderKeepsInStep(st, s);
    case ReviveWriter => ReviveWriterKeepsSync(st, s);
    case _ => OtherStepKeepsSync(st, s, step);
  }

  /** From there on, with no further write in a window, everything is delivered. */
  lemma {:induction false} SettledDelivers(st: Stream, s: Link, steps: seq<Step>)
    requires IdealStream(st) && Inv(st, s) && Settled(s) && PlayFrom(st, s, steps).Some? && WindowsKept(st, s, steps)
    ensures var u := PlayFrom(st, s, steps).value;
            Inv(st, u) && Settled(u) && Delivers(st, u)
  {
    if steps != [] {
      var before, step := steps[..|steps| - 1], steps[|steps| - 1];
      SettledDelivers(st, s, before);
      var t := PlayFrom(st, s, before).value;
      StepKeepsInv(st, t, step);
      StepKeepsSettled(st, t, step);
      assert PlayFrom(st, s, steps) == Some(Next(st, t, step));
    }
    InStepDelivers(st, PlayFrom(st, s, steps).value);
  }

  // ---------------------------------------------------------------- a connection that does

  /** Entry `i` is delivered in no continuation. */
  ghost predicate LostForGood(st: Stream, s: Link, i: nat) {
    forall more :: PlayFrom(st, s, more).Some? ==> i !in PlayFrom(st, s, more).value.hits
  }

  lemma PassedIsLostForGood(st: Stream, s: Link, i: nat)
    requires IdealStream(st) && Inv(st, s) && i < s.r.count && i !in s.hits
    ensures LostForGood(st, s, i)
  {
    forall more | PlayFrom(st, s, more).Some?
      ensures i !in PlayFrom(st, s, more).value.hits
    {
      PassedIsLost(st, s, more, i);
    }
  }

  /** `u` is `s` with the catch-up queue read to its end. */
  ghost predicate Drained(s: Link, u: Link) {
    && u.r == s.r.(queue := [], count := s.r.sequence)
    && u.w == s.w && u.pipe == s.pipe && u.intact == s.intact && u.attempt == s.attempt && u.at == s.at
       && u.gap == s.gap
  }

  lemma DrainedAlready(s: Link)
    requires InStep(s) && s.r.queue == []
    ensures Drained(s, s)
  {
  }

  lemma DrainedAfterOne(s: Link, t: Link, u: Link)
    requires TookOne(s, t) && Drained(t, u)
    ensures Drained(s, u)
  {
  }

  lemma {:induction false} Drain(st: Stream, s: Link) returns (steps: seq<Step>, u: Link)
    requires IdealStream(st) && Inv(st, s) && InStep(s)
    ensures Leads(st, s, steps, u) && Inv(st, u) && InStep(u) && Drained(s, u)
    decreases |s.r.queue|
  {
    if s.r.queue == [] {
      steps, u := [], s;
      DrainedAlready(s);
    } else {
      var first, t := TakeOneQueued(st, s);
      var rest;
      rest, u := Drain(st, t);
      steps := Then(st, s, first, t, rest, u);
      DrainedAfterOne(s, t, u);
    }
  }

  /** `t` is `s` with one catch-up entry read. */
  ghost predicate TookOne(s: Link, t: Link) {
    && s.r.queue != [] && t.r == s.r.(queue := s.r.queue[1..], count := s.r.count + 1)
    && t.w == s.w && t.pipe == s.pipe && t.intact == s.intact && t.attempt == s.attempt && t.at == s.at
       && t.gap == s.gap
  }

  lemma CountsStayInSpan(count: nat)
    requires count <= MAX_SEQUENCE
    ensures count + 1 < STREAM_SPAN
  {
  }

  lemma TakeOneQueued(st: Stream, s: Link) returns (steps: seq<Step>, t: Link)
    requires IdealStream(st) && Inv(st, s) && InStep(s) && s.r.queue != []
    ensures Leads(st, s, steps, t) && Inv(st, t) && InStep(t) && TookOne(s, t)
  {
    assert s.r.count < |s.w.log| <= MAX_SEQUENCE;
    CountsStayInSpan(s.r.count);
    t := ReadFrom(st, s, []);
    steps := One(st, s, Step.Read([]));
    ReadQueued(st, s, []);
    TakingQueuedKeepsInv(st, s);
    TakingQueuedKeepsInStep(s);
    TakingQueuedTakesOne(s);
  }

  lemma TakingQueuedTakesOne(s: Link)
    requires s.queued != [] && |s.queued| == |s.r.queue| && s.queued[0] < |s.w.log|
    ensures TookOne(s, TakingQueued(s))
  {
  }

  // ---------------------------------------------------------------- one more packet

  /** A socket that takes a whole frame, and one that yields a whole frame: its length, then its body. */
  function TakeAll(st: Stream, s: Link, q: Packet): seq<Io> {
    [Ready(|Frame(Entry(st, |s.w.log|, q))|)]
  }

  function YieldAll(e: seq<byte>): seq<Io> {
    [Ready(LENGTH_BYTES), Ready(|e|)]
  }

  function Sent(st: Stream, s: Link, q: Packet): Link
    requires s.w.kept <= |s.w.log|
  {
    s.(w := Logged(s.w, q), pipe := Frame(Entry(st, |s.w.log|, q)))
  }

  lemma SendWhole(st: Stream, s: Link, q: Packet)
    requires Shape(s) && s.w.live && s.intact && s.pipe == [] && !q.encrypted
    ensures Written(st, s, q, TakeAll(st, s, q)) == Sent(st, s, q)
  {
    var frame, schedule := Frame(Entry(st, |s.w.log|, q)), TakeAll(st, s, q);
    assert Accepted(|frame|, schedule) == (|frame|, []) by {
      assert schedule[1..] == [] && Accepted(0, schedule[1..]) == (0, []);
    }
    assert WriteStep(st, s.w, q, schedule) == WriteResult(Success, Logged(s.w, q), frame, []);
    assert [] + frame == frame;
  }

  lemma SendingSucceeds(st: Stream, s: Link, q: Packet)
    requires Shape(s) && s.w.live && !q.encrypted
    ensures var r := WriteStep(st, s.w, q, TakeAll(st, s, q)); r.state == Success && r.writer == Logged(s.w, q)
  {
    var frame, schedule := Frame(Entry(st, |s.w.log|, q)), TakeAll(st, s, q);
    assert Accepted(|frame|, schedule) == (|frame|, []) by {
      assert schedule[1..] == [] && Accepted(0, schedule[1..]) == (0, []);
    }
  }

  lemma YieldWhole(e: seq<byte>)
    requires 0 < |e| < U32
    ensures FillFrame([], Frame(e), YieldAll(e)) == (LENGTH_BYTES + |e|, Filled, [])
  {
    var schedule := YieldAll(e);
    assert schedule[1..] == [Ready(|e|)] && schedule[1..][1..] == [];
    assert Filling(LENGTH_BYTES, LENGTH_BYTES + |e|, schedule) == (LENGTH_BYTES, Filled, schedule[1..]) by {
      assert Filling(0, |e|, schedule[1..]) == (0, Filled, schedule[1..]);
    }
    assert Filling(|e|, |e|, schedule[1..]) == (|e|, Filled, []) by {
      assert Filling(0, 0, schedule[1..][1..]) == (0, Filled, []);
    }
    var start := [] + Frame(e)[..LENGTH_BYTES];
    FrontFrame(e, []);
    assert Frame(e) + [] == Frame(e);
    assert FromBe4(start) == |e|;
    assert Missing(start) == |e|;
  }

  /** A live reader with nothing pending, on a working connection that stands at the end of the log: one more packet
      is written and read. */
  lemma SendAndRead(st: Stream, s: Link, q: Packet) returns (steps: seq<Step>, u: Link)
    requires IdealStream(st) && Inv(st, s) && s.r.live && s.r.queue == [] && s.r.partial == [] && s.pipe == []
    requires s.w.live && s.intact && s.at == |s.w.log| < MAX_SEQUENCE && !q.encrypted && SealedLength(q) < U32
    requires s.r.count + 1 < STREAM_SPAN && (s.attempt.Recovered? ==> s.attempt.writerDone)
    ensures Leads(st, s, steps, u) && Inv(st, u) && u.w.log == s.w.log + [q] && u.r.count == s.r.count + 1
    ensures s.at == s.r.count ==> u.hits == s.hits + [s.r.count] && u.refused == s.refused
    ensures s.at != s.r.count ==> u.hits == s.hits && u.refused == s.refused + 1
    ensures InStep(s) && s.at != s.r.count ==> Ahead(u)
  {
    var t := Sent(st, s, q);
    SendWhole(st, s, q);
    var first := One(st, s, Step.Write(q, TakeAll(st, s, q)));
    StepKeepsInv(st, s, Step.Write(q, TakeAll(st, s, q)));
    ReadWhole(st, t, |s.w.log|, q);
    u := ReadFrom(st, t, YieldAll(Entry(st, |s.w.log|, q)));
    var second := One(st, t, Step.Read(YieldAll(Entry(st, |s.w.log|, q))));
    steps := Then(st, s, first, t, second, u);
    if InStep(s) && s.at != s.r.count {
      WriteKeepsInStep(st, s, q, TakeAll(st, s, q));
      FirstRefusal(st, t, YieldAll(Entry(st, |s.w.log|, q)));
    }
  }

  /** A reader with nothing pending reads the one frame on its connection. */
  lemma ReadWhole(st: Stream, t: Link, i: nat, q: Packet)
    requires IdealStream(st) && Inv(st, t) && t.r.live && t.r.queue == [] && t.r.partial == []
    requires SealedLength(q) < U32 && t.pipe == Frame(Entry(st, i, q)) && t.r.count + 1 < STREAM_SPAN
    ensures var u := ReadFrom(st, t, YieldAll(Entry(st, i, q)));
            && Inv(st, u) && u.w == t.w && u.r.count == t.r.count + 1
            && (t.at == t.r.count ==> u.hits == t.hits + [t.r.count] && u.refused == t.refused)
            && (t.at != t.r.count ==> u.hits == t.hits && u.refused == t.refused + 1)
  {
    EntryIsSmall(st, i, q);
    SealedHasSealedLength(st, i, q);
    YieldWhole(Entry(st, i, q));
    ReadCompleting(st, t, YieldAll(Entry(st, i, q)));
    ReadKeepsInv(st, t, YieldAll(Entry(st, i, q)));
  }

  // ---------------------------------------------------------------- the exact condition

  /** If the writer is revived past its catch-up while the connection works and a reader can follow, then there is a
      continuation, with no further write in a window, in which a packet is refused, the first skipped entry is lost
      for good, and nothing is delivered again without another write in a window. */
  lemma FailingContinuation(st: Stream, s: Link, q: Packet) returns (steps: seq<Step>, u: Link)
    requires IdealStream(st) && Inv(st, s) && InStep(s) && Enabled(s, ReviveWriter) && Attached(s) && s.intact
    requires s.attempt.upto < |s.w.log| < MAX_SEQUENCE && !q.encrypted && SealedLength(q) < U32
    ensures Leads(st, RevivingWriter(s), steps, u)
    ensures u.w.log == s.w.log + [q] && u.refused == 1 && LostForGood(st, u, s.attempt.upto)
    ensures Inv(st, u) && NothingFollows(st, u)
  {
    var t := RevivingWriter(s);
    RevivedPastTheCatchUp(st, s);
    var before, v := Join(st, t);
    var more;
    more, u := ReadPastTheGap(st, v, q);
    steps := Then(st, t, before, v, more, u);
  }

  /** A live reader behind the place where the connection stands: it drains its queue, and refuses the next packet. */
  lemma ReadPastTheGap(st: Stream, s: Link, q: Packet) returns (steps: seq<Step>, u: Link)
    requires IdealStream(st) && Inv(st, s) && InStep(s) && s.r.live && s.r.partial == [] && s.pipe == []
    requires s.w.live && s.intact && s.r.sequence < s.at == |s.w.log| < MAX_SEQUENCE && !q.encrypted
             && SealedLength(q) < U32
    requires s.attempt.Recovered? ==> s.attempt.writerDone
    ensures Leads(st, s, steps, u) && u.w.log == s.w.log + [q] && u.refused == 1 && LostForGood(st, u, s.r.sequence)
    ensures Inv(st, u) && NothingFollows(st, u)
  {
    var before, d := Drain(st, s);
    CountsStayInSpan(d.r.count);
    var more;
    more, u := SendAndRead(st, d, q);
    steps := Then(st, s, before, d, more, u);
    NotYetDelivered(d);
    PassedIsLostForGood(st, u, s.r.sequence);
    AheadNothingFollows(st, u);
  }

  lemma RevivedPastTheCatchUp(st: Stream, s: Link)
    requires IdealStream(st) && Inv(st, s) && InStep(s) && Enabled(s, ReviveWriter) && Attached(s)
    ensures var t := RevivingWriter(s);
            && Inv(st, t) && InStep(t) && Attached(t) && t.attempt.Recovered? && t.attempt.writerDone
               && t.attempt.upto == s.attempt.upto
            && t.pipe == [] && (t.r.live ==> t.r.partial == [] && t.r.sequence == t.attempt.upto)
            && t.w.live && t.w.log == s.w.log && t.at == |s.w.log| && t.intact == s.intact
               && s.attempt.upto + 1 < STREAM_SPAN
  {
    ReviveWriterKeepsInv(st, s);
    CountsStayInSpan(s.attempt.upto);
  }

  lemma NotYetDelivered(s: Link)
    requires HitsOk(s)
    ensures s.r.count !in s.hits
  {
  }

  /** The reader takes its catch-up, if it has not yet. */
  lemma Join(st: Stream, t: Link) returns (steps: seq<Step>, v: Link)
    requires IdealStream(st) && Inv(st, t) && InStep(t) && Attached(t) && t.attempt.Recovered? && t.attempt.writerDone
    requires t.pipe == [] && (t.r.live ==> t.r.partial == [] && t.r.sequence == t.attempt.upto)
    ensures Leads(st, t, steps, v) && Inv(st, v) && InStep(v)
    ensures v.r.live && v.r.partial == [] && v.r.sequence == t.attempt.upto && v.w == t.w && v.at == t.at
            && v.pipe == [] && v.intact == t.intact
    ensures v.attempt.Recovered? && v.attempt.writerDone
  {
    if t.r.live {
      steps, v := [], t;
    } else {
      v := RevivingReader(t);
      steps := One(st, t, ReviveReader);
      ReviveReaderKeepsInv(st, t);
      ReviveReaderKeepsInStep(st, t);
    }
  }

  /** The exact condition. Reviving the writer is safe, in that every continuation with no further write in a window
      delivers the log in order and without a refusal, if and only if nothing was logged since `recover`, or no reader
      can follow, or the connection has died meanwhile. */
  lemma RevivalIsSafeExactly(st: Stream, steps: seq<Step>)
    requires IdealStream(st) && Play(st, steps).Some? && Play(st, steps).value.refused == 0
    requires Enabled(Play(st, steps).value, ReviveWriter) && |Play(st, steps).value.w.log| < MAX_SEQUENCE
    ensures var s := Play(st, steps).value;
            AlwaysDelivers(st, RevivingWriter(s)) <==> s.attempt.upto == |s.w.log| || !Attached(s) || !s.intact
  {
    RunsKeepInv(st, steps);
    var s := Play(st, steps).value;
    if s.attempt.upto == |s.w.log| || !Attached(s) || !s.intact {
      SafeRevival(st, s);
    } else {
      var more, u := FailingContinuation(st, s, Packet(false, 0, []));
      RefusalEndsDelivery(st, u);
    }
  }

  ghost predicate AlwaysDelivers(st: Stream, s: Link) {
    forall more :: PlayFrom(st, s, more).Some? && WindowsKept(st, s, more) ==> Delivers(st, PlayFrom(st, s, more).value)
  }

  lemma SettledAlwaysDelivers(st: Stream, s: Link)
    requires IdealStream(st) && Inv(st, s) && Settled(s)
    ensures AlwaysDelivers(st, s)
  {
    forall more | PlayFrom(st, s, more).Some? && WindowsKept(st, s, more)
      ensures Delivers(st, PlayFrom(st, s, more).value)
    {
      SettledDelivers(st, s, more);
    }
  }

  lemma SafeRevival(st: Stream, s: Link)
    requires IdealStream(st) && Inv(st, s) && InStep(s) && Enabled(s, ReviveWriter)
    requires s.attempt.upto == |s.w.log| || !Attached(s) || !s.intact
    ensures AlwaysDelivers(st, RevivingWriter(s))
  {
    var t := RevivingWriter(s);
    ReviveWriterKeepsInv(st, s);
    if s.intact || !Attached(s) {
      assert Sync(t);
    } else {
      assert Silent(t);
    }
    assert Settled(t);
    SettledAlwaysDelivers(st, t);
  }

  // ---------------------------------------------------------------- healing

  /** A reader that drops its connection before it completes a frame from past the gap is in step again, and with no
      further write in a window everything is delivered from there on. */
  lemma DroppingTheReaderHeals(st: Stream, s: Link)
    requires IdealStream(st) && Inv(st, s) && InStep(s) && s.r.live
    ensures Sync(Next(st, s, DropReader))
    ensures WindowStill(s) ==> AlwaysDelivers(st, Next(st, s, DropReader))
  {
    if WindowStill(s) {
      DropKeepsInv(st, s, DropReader);
      SettledAlwaysDelivers(st, Next(st, s, DropReader));
    }
  }

  const RECONNECT := [DropReader, DropWriter, Report] + [Recover, ReviveReader, ReviveWriter]

  /** Whatever gap lies behind, as long as nothing was refused and the backup reaches back to the reader's number: after
      one more reconnect the reader has delivered or queued the whole log, and everything later is delivered too. */
  lemma ReconnectingHeals(st: Stream, steps: seq<Step>)
    requires IdealStream(st) && Play(st, steps).Some? && Play(st, steps).value.refused == 0
    requires |Play(st, steps).value.w.log| - Play(st, steps).value.r.sequence <= Play(st, steps).value.w.kept
    ensures Play(st, steps + RECONNECT).Some?
            && Healed(st, Play(st, steps).value.w.log, Play(st, steps + RECONNECT).value)
  {
    RunsKeepInv(st, steps);
    var s := Play(st, steps).value;
    var t := HangUp(st, s);
    var u := CatchUp(st, t);
    PlayThen(st, s, [DropReader, DropWriter, Report], [Recover, ReviveReader, ReviveWriter]);
    PlayThen(st, INITIAL, steps, RECONNECT);
  }

  /** Both ends live, everything logged delivered or queued, and so it stays. */
  ghost predicate Healed(st: Stream, log: seq<Packet>, u: Link) {
    u.w.live && u.r.live && u.w.log == log && u.r.sequence == |log| && Delivers(st, u) && AlwaysDelivers(st, u)
  }

  lemma Three(st: Stream, s: Link, a: Step, s1: Link, b: Step, s2: Link, c: Step)
    requires Shape(s) && Enabled(s, a) && s1 == Next(st, s, a)
    requires Shape(s1) && Enabled(s1, b) && s2 == Next(st, s1, b)
    requires Shape(s2) && Enabled(s2, c)
    ensures PlayFrom(st, s, [a, b, c]) == Some(Next(st, s2, c))
  {
    PlayOn(st, s, [], s, a);
    PlayOn(st, s, [] + [a], s1, b);
    PlayOn(st, s, [] + [a] + [b], s2, c);
    assert [] + [a] + [b] + [c] == [a, b, c];
  }

  lemma HangUp(st: Stream, s: Link) returns (t: Link)
    requires IdealStream(st) && Inv(st, s) && InStep(s)
    ensures PlayFrom(st, s, [DropReader, DropWriter, Report]) == Some(t) && Inv(st, t) && InStep(t)
    ensures t.attempt.Reported? && !t.w.live && t.w.log == s.w.log && t.w.kept == s.w.kept
            && t.r.sequence == s.r.sequence
  {
    var s1 := s.(r := s.r.(live := false));
    StepKeepsInv(st, s, DropReader);
    var s2 := s1.(w := s1.w.(live := false));
    StepKeepsInv(st, s1, DropWriter);
    t := s2.(attempt := Reported(s2.r.sequence), pipe := [], intact := false);
    StepKeepsInv(st, s2, Report);
    Three(st, s, DropReader, s1, DropWriter, s2, Report);
  }

  lemma CatchUp(st: Stream, s: Link) returns (v: Link)
    requires IdealStream(st) && Inv(st, s) && InStep(s) && s.attempt.Reported? && !s.w.live
             && |s.w.log| - s.r.sequence <= s.w.kept
    ensures PlayFrom(st, s, [Recover, ReviveReader, ReviveWriter]) == Some(v) && Healed(st, s.w.log, v)
  {
    var t := Recovering(st, s);
    RecoverKeepsInv(st, s);
    RecoverSucceeds(st, s);
    var u := RevivingReader(t);
    ReviveReaderKeepsInv(st, t);
    ReviveReaderKeepsInStep(st, t);
    v := RevivingWriter(u);
    Three(st, s, Recover, t, ReviveReader, u, ReviveWriter);
    SafeRevival(st, u);
    DeliversNow(st, v);
  }

  lemma RecoverSucceeds(st: Stream, s: Link)
    requires Inv(st, s) && InStep(s) && s.attempt.Reported? && !s.w.live && |s.w.log| - s.r.sequence <= s.w.kept
    ensures var t := Recovering(st, s);
            t.attempt == Recovered(s.r.sequence, |s.w.log|, Entries(st, s.w.log, s.r.sequence, |s.w.log|), false, false)
            && t.w == s.w && t.r == s.r && InStep(t)
  {
  }

  lemma DeliversNow(st: Stream, s: Link)
    requires AlwaysDelivers(st, s)
    ensures Delivers(st, s)
  {
    assert PlayFrom(st, s, []) == Some(s) && WindowsKept(st, s, []);
  }

  // ---------------------------------------------------------------- a packet lost for good

  /** A run from a fresh session: both ends lose the socket, `p` is accepted between `recover` and `revive`, the reader
      joins, and `q` is written and read. `q` is refused, and `p` is delivered in no continuation. */
  lemma WindowWriteLosesThePacket(st: Stream, p: Packet, q: Packet) returns (steps: seq<Step>)
    requires IdealStream(st) && !p.encrypted && !q.encrypted && SealedLength(p) <= DISCONNECT_BUFFER_BYTES
             && SealedLength(q) < U32
    ensures Play(st, steps).Some?
    ensures var u := Play(st, steps).value;
            u.w.log == [p, q] && u.refused == 1 && LostForGood(st, u, 0) && NothingFollows(st, u)
  {
    var s := OpenWindow(st, p);
    RunsKeepInv(st, OPENING + [Step.Write(p, [])]);
    var more, u := FailingContinuation(st, s, q);
    steps := OPENING + [Step.Write(p, [])] + ([ReviveWriter] + more);
    ReviveAndGoOn(st, s, more);
    PlayThen(st, INITIAL, OPENING + [Step.Write(p, [])], [ReviveWriter] + more);
    assert u.w.log == [p] + [q] == [p, q];
  }

  lemma ReviveAndGoOn(st: Stream, s: Link, more: seq<Step>)
    requires Shape(s) && Enabled(s, ReviveWriter)
    ensures PlayFrom(st, s, [ReviveWriter] + more) == PlayFrom(st, RevivingWriter(s), more)
  {
    PlayOn(st, s, [], s, ReviveWriter);
    assert [] + [ReviveWriter] == [ReviveWriter];
    PlayThen(st, s, [ReviveWriter], more);
  }

  const OPENING := [DropWriter, DropReader] + [Report, Recover]

  /** Both sockets lost at once, the empty catch-up just taken, and `p` written. */
  lemma OpenWindow(st: Stream, p: Packet) returns (s: Link)
    requires IdealStream(st) && !p.encrypted && SealedLength(p) <= DISCONNECT_BUFFER_BYTES
    ensures Play(st, OPENING + [Step.Write(p, [])]) == Some(s)
    ensures s.w == Writer([p], false, 1, SealedLength(p)) && s.r == NEW_READER.(live := false) && s.intact
            && s.refused == 0
    ensures s.attempt == Recovered(0, 0, [], false, false) && s.hits == [] && s.delivered == []
  {
    var t := Open(st);
    s := t.(w := Writer([p], false, 1, SealedLength(p)));
    assert [] + [p] == [p];
    assert WriteStep(st, t.w, p, []).writer == s.w;
    assert Written(st, t, p, []) == s;
    PlayOn(st, INITIAL, OPENING, t, Step.Write(p, []));
  }

  lemma Open(st: Stream) returns (t: Link)
    ensures Play(st, OPENING) == Some(t)
    ensures t == INITIAL.(w := NEW_WRITER.(live := false), r := NEW_READER.(live := false),
                          attempt := Recovered(0, 0, [], false, false))
  {
    var s1 := INITIAL.(w := NEW_WRITER.(live := false));
    var s2 := s1.(r := NEW_READER.(live := false));
    var s3 := s2.(attempt := Reported(0), intact := false);
    t := s2.(attempt := Recovered(0, 0, [], false, false));
    Three(st, INITIAL, DropWriter, s1, DropReader, s2, Report);
    assert Entries(st, [], 0, 0) == [];
    assert Recovering(st, s3) == t;
    PlayOn(st, INITIAL, [DropWriter, DropReader, Report], s3, Recover);
    assert [DropWriter, DropReader, Report] + [Recover] == OPENING;
  }
}
