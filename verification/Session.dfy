/** A whole session: the client's threads over two links, one for each direction, facing a server that plays the
    other ends. What the client's code does at each program point is tied to the link step it takes there. */
module Session {
  import opened Outcomes
  import opened Bytes
  import opened Crypto
  import opened Packets
  import opened Sockets
  import opened Writers
  import opened Readers
  import L = Links
  import D = LinkDelivery
  import S = LinkSafety
  import C = Lifecycle

  /** `up`: this client writes, the server reads. `down`: the server writes, this client reads. */
  datatype Session = Session(life: C.Life, up: L.Link, down: L.Link, upRun: seq<L.Step>, downRun: seq<L.Step>)

  datatype Streams = Streams(up: Stream, down: Stream)

  datatype Step =
    | Client(action: C.Step, schedule: seq<Io>)
    | ServerUp(upStep: L.Step)
    | ServerDown(downStep: L.Step)

  const START := Session(C.CONNECTED, L.INITIAL, L.INITIAL, [], [])

  ghost predicate Shapes(s: Session) {
    L.Shape(s.up) && L.Shape(s.down)
  }

  /** The step the client takes on the link it writes to. */
  function UpEffect(s: Session, step: C.Step, schedule: seq<Io>): Option<L.Step>
    requires C.Enabled(s.life, step)
  {
    match step
    case MainWrite(_, _) => if s.life.present then Some(L.Write(s.life.main.packet, schedule)) else None
    case MainGo => if s.life.main.Invalidating? || s.life.main.Clearing? then Some(L.DropWriter) else None
    case ThreadGo(i, _, _) =>
      (match s.life.threads[i]
       case RecoverLocked(_) => Some(L.Recover)
       case ReviveWriterLocked => Some(L.ReviveWriter)
       case _ => None)
    case _ => None
  }

  /** The step the client takes on the link it reads from. */
  function DownEffect(s: Session, step: C.Step, schedule: seq<Io>): Option<L.Step>
    requires C.Enabled(s.life, step)
  {
    match step
    case MainRead(_, _) => if s.life.present then Some(L.Read(schedule)) else None
    case MainGo => if s.life.main.Invalidating? || s.life.main.Clearing? then Some(L.DropReader) else None
    case ThreadGo(i, _, _) =>
      (match s.life.threads[i]
       case ReadSequence => Some(L.Report)
       case ReviveReaderLocked(_) => Some(L.ReviveReader)
       case _ => None)
    case _ => None
  }

  /** What a client step learns from the writer, the reader and the network is what is there. An attempt goes on only
      once the server has sent its number, and then its catch-up. */
  ghost predicate Truthful(st: Streams, s: Session, step: C.Step, schedule: seq<Io>)
    requires Shapes(s) && C.Enabled(s.life, step)
  {
    match step
    case MainWrite(state, live) =>
      s.life.present ==>
        var r := WriteStep(st.up, s.up.w, s.life.main.packet, schedule);
        state == r.state && live == r.writer.live && |s.up.w.log| < L.MAX_SEQUENCE
          && SealedLength(s.life.main.packet) < U32
    case MainRead(failed, advanced) =>
      s.life.present ==>
        var r := ReadStep(st.down, s.down.r, s.down.pipe, schedule);
        failed == r.outcome.Broken? && advanced == (r.reader.sequence != s.down.r.sequence)
          && s.down.r.count + 1 < STREAM_SPAN
    case ThreadGo(i, reply, catchup) =>
      (match s.life.threads[i]
       case AwaitRemote(_) => reply == C.Good ==> s.up.attempt.Reported?
       case RecoverLocked(_) => s.up.attempt.Reported? ==>
                                (reply == C.Good <==> RecoverStep(st.up, s.up.w, s.up.attempt.remote).Ok?)
       case AwaitCatchup(_) => reply == C.Good ==> s.down.attempt.Recovered?
       case ReviveReaderLocked(_) => s.down.attempt.Recovered? ==> catchup == |s.down.attempt.catchup|
       case _ => true)
    case _ => true
  }

  /** A client thread that still needs the attempt on a link. */
  predicate UsesUp(pc: C.ThreadPc) {
    pc.RecoverLocked? || pc.AwaitCatchup? || pc.ReviveReaderLocked? || pc.ReviveWriterLocked?
  }

  predicate UsesDown(pc: C.ThreadPc) {
    pc.AwaitRemote? || pc.RecoverLocked? || pc.AwaitCatchup? || pc.ReviveReaderLocked?
  }

  /** What the server does on the link it reads from, and on the connection. */
  ghost predicate ServerUpMay(s: Session, step: L.Step) {
    L.Shape(s.up) && L.Enabled(s.up, step)
    && (step.Read? || step.DropReader? || step.Report? || step.ReviveReader? || step.Lose? || step.Finish?)
    && (step.Finish? || step.Report? ==> forall i :: 0 <= i < |s.life.threads| ==> !UsesUp(s.life.threads[i]))
  }

  ghost predicate ServerDownMay(s: Session, step: L.Step) {
    L.Shape(s.down) && L.Enabled(s.down, step)
    && (step.Write? || step.DropWriter? || step.Recover? || step.ReviveWriter? || step.ReviveStale? || step.Lose?
        || step.Finish?)
    && (step.Finish? ==> forall i :: 0 <= i < |s.life.threads| ==> !UsesDown(s.life.threads[i]))
  }

  ghost predicate Enabled(st: Streams, s: Session, step: Step) {
    match step
    case Client(c, schedule) => Shapes(s) && C.Enabled(s.life, c) && Truthful(st, s, c, schedule)
    case ServerUp(l) => ServerUpMay(s, l)
    case ServerDown(l) => ServerDownMay(s, l)
  }

  /** The link steps a client step takes are steps of the protocol. */
  ghost predicate InProtocol(s: Session, c: C.Step, schedule: seq<Io>)
    requires C.Enabled(s.life, c)
  {
    && Shapes(s)
    && (UpEffect(s, c, schedule).Some? ==> L.Enabled(s.up, UpEffect(s, c, schedule).value))
    && (DownEffect(s, c, schedule).Some? ==> L.Enabled(s.down, DownEffect(s, c, schedule).value))
  }

  ghost function After(st: Stream, l: L.Link, effect: Option<L.Step>): L.Link
    requires L.Shape(l) && (effect.Some? ==> L.Enabled(l, effect.value))
  {
    if effect.Some? then L.Next(st, l, effect.value) else l
  }

  function Log(run: seq<L.Step>, effect: Option<L.Step>): seq<L.Step> {
    if effect.Some? then run + [effect.value] else run
  }

  ghost function Next(st: Streams, s: Session, step: Step): Session
    requires Enabled(st, s, step) && (step.Client? ==> InProtocol(s, step.action, step.schedule))
  {
    match step
    case Client(c, schedule) =>
      var up, down := UpEffect(s, c, schedule), DownEffect(s, c, schedule);
      Session(C.Next(s.life, c), After(st.up, s.up, up), After(st.down, s.down, down), Log(s.upRun, up),
              Log(s.downRun, down))
    case ServerUp(l) => s.(up := L.Next(st.up, s.up, l), upRun := s.upRun + [l])
    case ServerDown(l) => s.(down := L.Next(st.down, s.down, l), downRun := s.downRun + [l])
  }

  // ---------------------------------------------------------------- the invariant

  ghost predicate ThreadCoupled(s: Session, pc: C.ThreadPc) {
    && (pc.RecoverLocked? ==> s.up.attempt.Reported?)
    && (pc.AwaitCatchup? || pc.ReviveReaderLocked? || pc.ReviveWriterLocked? ==>
        s.up.attempt.Recovered? && !s.up.attempt.writerDone)
    && (UsesDown(pc) && s.down.attempt.Recovered? ==> !s.down.attempt.readerDone)
    && (pc.ReviveReaderLocked? ==> s.down.attempt.Recovered?)
  }

  ghost predicate Coupled(s: Session) {
    && s.life.writerLive == s.up.w.live
    && s.life.readerLive == s.down.r.live
    && s.life.readerSequence == s.down.r.sequence
    && forall i :: 0 <= i < |s.life.threads| ==> ThreadCoupled(s, s.life.threads[i])
  }

  ghost predicate SessionInv(st: Streams, s: Session) {
    && C.LifeInv(s.life)
    && D.Play(st.up, s.upRun) == Some(s.up)
    && D.Play(st.down, s.downRun) == Some(s.down)
    && Coupled(s)
  }

  lemma LinksAreOk(st: Streams, s: Session)
    requires IdealStream(st.up) && IdealStream(st.down) && SessionInv(st, s)
    ensures L.Inv(st.up, s.up) && L.Inv(st.down, s.down) && Shapes(s)
  {
    D.RunsKeepInv(st.up, s.upRun);
    D.RunsKeepInv(st.down, s.downRun);
  }

  lemma RunExtends(st: Stream, run: seq<L.Step>, l: L.Link, step: L.Step)
    requires D.Play(st, run) == Some(l) && L.Shape(l) && L.Enabled(l, step)
    ensures D.Play(st, run + [step]) == Some(L.Next(st, l, step))
  {
    assert (run + [step])[..|run|] == run;
  }

  /** The client never leaves the protocol: whatever its threads do next, the link steps it takes are enabled. */
  lemma ClientStaysInProtocol(st: Streams, s: Session, c: C.Step, schedule: seq<Io>)
    requires IdealStream(st.up) && IdealStream(st.down) && SessionInv(st, s)
    requires Shapes(s) && C.Enabled(s.life, c) && Truthful(st, s, c, schedule)
    ensures InProtocol(s, c, schedule)
  {
    if c.ThreadGo? {
      assert C.ThreadOk(s.life, c.thread);
      assert ThreadCoupled(s, s.life.threads[c.thread]);
    }
  }

  lemma EffectKeepsRun(st: Stream, run: seq<L.Step>, l: L.Link, effect: Option<L.Step>)
    requires D.Play(st, run) == Some(l) && L.Shape(l) && (effect.Some? ==> L.Enabled(l, effect.value))
    ensures D.Play(st, Log(run, effect)) == Some(After(st, l, effect))
  {
    if effect.Some? {
      RunExtends(st, run, l, effect.value);
    }
  }

  lemma ThreadsStayCoupled(s: Session, t: Session)
    requires Coupled(s) && t.life.threads == s.life.threads && t.up.attempt == s.up.attempt
             && t.down.attempt == s.down.attempt
    ensures forall i :: 0 <= i < |t.life.threads| ==> ThreadCoupled(t, t.life.threads[i])
  {
    forall i | 0 <= i < |t.life.threads|
      ensures ThreadCoupled(t, t.life.threads[i])
    {
      assert ThreadCoupled(s, s.life.threads[i]);
    }
  }

  lemma WriteKeepsCoupled(st: Streams, s: Session, c: C.Step, schedule: seq<Io>)
    requires SessionInv(st, s) && Enabled(st, s, Client(c, schedule)) && InProtocol(s, c, schedule) && c.MainWrite?
    ensures Coupled(Next(st, s, Client(c, schedule)))
  {
    ThreadsStayCoupled(s, Next(st, s, Client(c, schedule)));
  }

  lemma ReadCounts(st: Stream, r: Reader, pipe: seq<byte>, schedule: seq<Io>)
    requires ReaderOk(r)
    ensures var t := ReadStep(st, r, pipe, schedule).reader;
            t.live == r.live && (t.sequence == r.sequence || (t.sequence == r.sequence + 1 && r.live))
  {
  }

  lemma ReadKeepsCoupled(st: Streams, s: Session, c: C.Step, schedule: seq<Io>)
    requires SessionInv(st, s) && Enabled(st, s, Client(c, schedule)) && InProtocol(s, c, schedule) && c.MainRead?
    ensures Coupled(Next(st, s, Client(c, schedule)))
  {
    ReadCounts(st.down, s.down.r, s.down.pipe, schedule);
    ThreadsStayCoupled(s, Next(st, s, Client(c, schedule)));
  }

  lemma MainKeepsThreadsCoupled(st: Streams, s: Session, c: C.Step, schedule: seq<Io>)
    requires SessionInv(st, s) && Enabled(st, s, Client(c, schedule)) && InProtocol(s, c, schedule)
             && (c.MainGo? || c.MainCall?)
    ensures var t := Next(st, s, Client(c, schedule));
            t.up.attempt == s.up.attempt && t.down.attempt == s.down.attempt
            && forall i :: 0 <= i < |t.life.threads| ==>
               (i < |s.life.threads| && t.life.threads[i] == s.life.threads[i]) || t.life.threads[i] == C.Head
  {
    MainKeepsAttempts(st, s, c, schedule);
    MainStartsAtTheHead(s, c);
  }

  lemma MainKeepsAttempts(st: Streams, s: Session, c: C.Step, schedule: seq<Io>)
    requires Enabled(st, s, Client(c, schedule)) && InProtocol(s, c, schedule) && (c.MainGo? || c.MainCall?)
    ensures var t := Next(st, s, Client(c, schedule)); t.up.attempt == s.up.attempt && t.down.attempt == s.down.attempt
  {
    var t := Next(st, s, Client(c, schedule));
    assert t.up == s.up || t.up == s.up.(w := s.up.w.(live := false));
    assert t.down == s.down || t.down == s.down.(r := s.down.r.(live := false));
  }

  lemma MainStartsAtTheHead(s: Session, c: C.Step)
    requires C.Enabled(s.life, c) && (c.MainGo? || c.MainCall?)
    ensures var threads := C.Next(s.life, c).threads;
            forall i :: 0 <= i < |threads| ==>
              (i < |s.life.threads| && threads[i] == s.life.threads[i]) || threads[i] == C.Head
  {
  }

  lemma MainKeepsLives(st: Streams, s: Session, c: C.Step, schedule: seq<Io>)
    requires SessionInv(st, s) && Enabled(st, s, Client(c, schedule)) && InProtocol(s, c, schedule)
             && (c.MainGo? || c.MainCall?)
    ensures var t := Next(st, s, Client(c, schedule));
            t.life.writerLive == t.up.w.live && t.life.readerLive == t.down.r.live
              && t.life.readerSequence == t.down.r.sequence
  {
    if c.MainGo? && (s.life.main.Invalidating? || s.life.main.Clearing?) {
      DroppingKeepsLives(st, s, schedule);
    } else {
      assert Next(st, s, Client(c, schedule)).up == s.up && Next(st, s, Client(c, schedule)).down == s.down;
    }
  }

  lemma DroppingKeepsLives(st: Streams, s: Session, schedule: seq<Io>)
    requires Enabled(st, s, Client(C.MainGo, schedule)) && InProtocol(s, C.MainGo, schedule) && Coupled(s)
    requires s.life.main.Invalidating? || s.life.main.Clearing?
    ensures var t := Next(st, s, Client(C.MainGo, schedule));
            !t.life.writerLive && !t.up.w.live && !t.life.readerLive && !t.down.r.live
            && t.life.readerSequence == t.down.r.sequence
  {
  }

  lemma MainKeepsCoupled(st: Streams, s: Session, c: C.Step, schedule: seq<Io>)
    requires SessionInv(st, s) && Enabled(st, s, Client(c, schedule)) && InProtocol(s, c, schedule)
             && (c.MainGo? || c.MainCall?)
    ensures Coupled(Next(st, s, Client(c, schedule)))
  {
    var t := Next(st, s, Client(c, schedule));
    MainKeepsLives(st, s, c, schedule);
    MainKeepsThreadsCoupled(st, s, c, schedule);
    forall i | 0 <= i < |t.life.threads|
      ensures ThreadCoupled(t, t.life.threads[i])
    {
      if i < |s.life.threads| {
        assert ThreadCoupled(s, s.life.threads[i]);
      }
    }
    assert Coupled(t);
  }

  /** What a step of a reconnect thread does to the link it writes to, and to the one it reads from. */
  function ThreadUp(st: Streams, s: Session, pc: C.ThreadPc): L.Link
    requires s.up.w.kept <= |s.up.w.log|
  {
    if pc.RecoverLocked? && s.up.attempt.Reported? then
      match RecoverStep(st.up, s.up.w, s.up.attempt.remote)
      case Err(_) => s.up.(attempt := L.NoAttempt)
      case Ok(catchup) => s.up.(attempt := L.Recovered(s.up.attempt.remote, |s.up.w.log|, catchup, false, false),
                                intact := true)
    else if pc.ReviveWriterLocked? && s.up.attempt.Recovered? then L.RevivingWriter(s.up)
    else s.up
  }

  function ThreadDown(s: Session, pc: C.ThreadPc): L.Link {
    if pc.ReadSequence? then s.down.(attempt := L.Reported(s.down.r.sequence), pipe := [], intact := false)
    else if pc.ReviveReaderLocked? && s.down.attempt.Recovered? then L.RevivingReader(s.down)
    else s.down
  }

  lemma ThreadEffects(st: Streams, s: Session, i: nat, reply: C.Reply, catchup: nat, schedule: seq<Io>)
    requires Enabled(st, s, Client(C.ThreadGo(i, reply, catchup), schedule))
             && InProtocol(s, C.ThreadGo(i, reply, catchup), schedule)
    ensures var t := Next(st, s, Client(C.ThreadGo(i, reply, catchup), schedule));
            && t.life == C.ThreadStep(s.life, i, reply, catchup)
            && t.up == ThreadUp(st, s, s.life.threads[i])
            && t.down == ThreadDown(s, s.life.threads[i])
  {
  }

  /** The thread that moves is coupled to the links where it arrives. */
  lemma ThreadArrivesCoupled(st: Streams, s: Session, i: nat, reply: C.Reply, catchup: nat, schedule: seq<Io>)
    requires L.Inv(st.up, s.up) && L.Inv(st.down, s.down) && C.LifeInv(s.life) && Coupled(s)
    requires Enabled(st, s, Client(C.ThreadGo(i, reply, catchup), schedule))
             && InProtocol(s, C.ThreadGo(i, reply, catchup), schedule)
    ensures var t := Next(st, s, Client(C.ThreadGo(i, reply, catchup), schedule));
            ThreadCoupled(t, t.life.threads[i])
  {
    var t := Next(st, s, Client(C.ThreadGo(i, reply, catchup), schedule));
    ThreadEffects(st, s, i, reply, catchup, schedule);
    ArrivesCoupled(st, s, t, i, reply, catchup);
  }

  lemma ArrivesCoupled(st: Streams, s: Session, t: Session, i: nat, reply: C.Reply, catchup: nat)
    requires Shapes(s) && C.LifeInv(s.life) && i < |s.life.threads| && s.life.threads[i] != C.Done
             && ThreadCoupled(s, s.life.threads[i])
    requires t.life == C.ThreadStep(s.life, i, reply, catchup) && t.up == ThreadUp(st, s, s.life.threads[i])
             && t.down == ThreadDown(s, s.life.threads[i])
    requires Truthful(st, s, C.ThreadGo(i, reply, catchup), [])
    ensures ThreadCoupled(t, t.life.threads[i])
  {
    assert C.ThreadOk(s.life, i);
  }

  lemma ThreadKeepsLives(st: Streams, s: Session, i: nat, reply: C.Reply, catchup: nat, schedule: seq<Io>)
    requires L.Inv(st.up, s.up) && L.Inv(st.down, s.down) && C.LifeInv(s.life) && Coupled(s)
    requires Enabled(st, s, Client(C.ThreadGo(i, reply, catchup), schedule))
             && InProtocol(s, C.ThreadGo(i, reply, catchup), schedule)
    ensures var t := Next(st, s, Client(C.ThreadGo(i, reply, catchup), schedule));
            t.life.writerLive == t.up.w.live && t.life.readerLive == t.down.r.live
              && t.life.readerSequence == t.down.r.sequence
  {
    assert C.ThreadOk(s.life, i);
    assert ThreadCoupled(s, s.life.threads[i]);
    ThreadEffects(st, s, i, reply, catchup, schedule);
  }

  lemma ThreadKeepsCoupled(st: Streams, s: Session, c: C.Step, schedule: seq<Io>)
    requires IdealStream(st.up) && IdealStream(st.down) && SessionInv(st, s)
    requires Enabled(st, s, Client(c, schedule)) && InProtocol(s, c, schedule) && c.ThreadGo?
    ensures Coupled(Next(st, s, Client(c, schedule)))
  {
    var t, i := Next(st, s, Client(c, schedule)), c.thread;
    LinksAreOk(st, s);
    ThreadKeepsLives(st, s, i, c.reply, c.catchup, schedule);
    ThreadArrivesCoupled(st, s, i, c.reply, c.catchup, schedule);
    OthersAreDone(s, i, c.reply, c.catchup);
    assert Coupled(t);
  }

  lemma OthersAreDone(s: Session, i: nat, reply: C.Reply, catchup: nat)
    requires C.LifeInv(s.life) && i < |s.life.threads| && s.life.threads[i] != C.Done
    ensures var threads := C.ThreadStep(s.life, i, reply, catchup).threads;
            |threads| == |s.life.threads| && forall j :: 0 <= j < |threads| && j != i ==> threads[j] == C.Done
  {
    forall j | 0 <= j < |s.life.threads| && j != i
      ensures s.life.threads[j] == C.Done
    {
      C.OnlyOneHeld(s.life, i, j);
    }
  }

  lemma ClientKeepsSession(st: Streams, s: Session, c: C.Step, schedule: seq<Io>)
    requires IdealStream(st.up) && IdealStream(st.down) && SessionInv(st, s) && Enabled(st, s, Client(c, schedule))
    ensures InProtocol(s, c, schedule) && SessionInv(st, Next(st, s, Client(c, schedule)))
  {
    ClientStaysInProtocol(st, s, c, schedule);
    C.StepKeepsLifeInv(s.life, c);
    EffectKeepsRun(st.up, s.upRun, s.up, UpEffect(s, c, schedule));
    EffectKeepsRun(st.down, s.downRun, s.down, DownEffect(s, c, schedule));
    match c
    case MainWrite(_, _) => WriteKeepsCoupled(st, s, c, schedule);
    case MainRead(_, _) => ReadKeepsCoupled(st, s, c, schedule);
    case MainGo => MainKeepsCoupled(st, s, c, schedule);
    case MainCall(_) => MainKeepsCoupled(st, s, c, schedule);
    case ThreadGo(_, _, _) => ThreadKeepsCoupled(st, s, c, schedule);
  }

  lemma ServerUpKeepsSession(st: Streams, s: Session, l: L.Step)
    requires IdealStream(st.up) && IdealStream(st.down) && SessionInv(st, s) && ServerUpMay(s, l)
    ensures SessionInv(st, Next(st, s, ServerUp(l)))
  {
    var t := Next(st, s, ServerUp(l));
    RunExtends(st.up, s.upRun, s.up, l);
    LinksAreOk(st, s);
    assert t.up.w == s.up.w;
    forall i | 0 <= i < |t.life.threads|
      ensures ThreadCoupled(t, t.life.threads[i])
    {
      assert ThreadCoupled(s, s.life.threads[i]);
    }
  }

  lemma ServerDownKeepsSession(st: Streams, s: Session, l: L.Step)
    requires IdealStream(st.up) && IdealStream(st.down) && SessionInv(st, s) && ServerDownMay(s, l)
    ensures SessionInv(st, Next(st, s, ServerDown(l)))
  {
    var t := Next(st, s, ServerDown(l));
    RunExtends(st.down, s.downRun, s.down, l);
    LinksAreOk(st, s);
    assert t.down.r == s.down.r;
    forall i | 0 <= i < |t.life.threads|
      ensures ThreadCoupled(t, t.life.threads[i])
    {
      assert ThreadCoupled(s, s.life.threads[i]);
    }
  }

  // ---------------------------------------------------------------- whole sessions

  /** The session after a run of enabled steps; nothing if some step was not enabled or left the protocol. */
  ghost function Run(st: Streams, steps: seq<Step>): Option<Session> {
    if steps == [] then Some(START)
    else
      var before, step := Run(st, steps[..|steps| - 1]), steps[|steps| - 1];
      if before.Some? && Enabled(st, before.value, step)
         && (step.Client? ==> InProtocol(before.value, step.action, step.schedule))
      then Some(Next(st, before.value, step)) else None
  }

  lemma {:induction false} RunsKeepSession(st: Streams, steps: seq<Step>)
    requires IdealStream(st.up) && IdealStream(st.down) && Run(st, steps).Some?
    ensures SessionInv(st, Run(st, steps).value)
  {
    if steps != [] {
      var before, step := steps[..|steps| - 1], steps[|steps| - 1];
      RunsKeepSession(st, before);
      var s := Run(st, before).value;
      match step
      case Client(c, schedule) => ClientKeepsSession(st, s, c, schedule);
      case ServerUp(l) => ServerUpKeepsSession(st, s, l);
      case ServerDown(l) => ServerDownKeepsSession(st, s, l);
    }
  }

  /** No run is cut short by the client: every enabled client step stays in the protocol. */
  lemma NoClientStepIsBlocked(st: Streams, steps: seq<Step>, c: C.Step, schedule: seq<Io>)
    requires IdealStream(st.up) && IdealStream(st.down) && Run(st, steps).Some?
             && Enabled(st, Run(st, steps).value, Client(c, schedule))
    ensures Run(st, steps + [Client(c, schedule)]).Some?
  {
    RunsKeepSession(st, steps);
    ClientKeepsSession(st, Run(st, steps).value, c, schedule);
    assert (steps + [Client(c, schedule)])[..|steps|] == steps;
  }

  /** In-order delivery of a whole session: under every interleaving of the client's threads, the server and the
      connections, each direction delivers log entries at strictly increasing indices; what it delivered and still has
      queued is the log itself up to the first packet refused; and none is while no writer was revived past its
      catch-up. */
  lemma SessionDelivery(st: Streams, steps: seq<Step>)
    requires IdealStream(st.up) && IdealStream(st.down) && Run(st, steps).Some?
    ensures var s := Run(st, steps).value;
            && L.HitsOk(s.up) && L.HitsOk(s.down)
            && (s.up.refused == 0 <==> D.Delivers(st.up, s.up))
            && (s.down.refused == 0 <==> D.Delivers(st.down, s.down))
            && (!s.up.gap ==> s.up.refused == 0)
            && (!s.down.gap ==> s.down.refused == 0)
  {
    RunsKeepSession(st, steps);
    var s := Run(st, steps).value;
    D.RunsKeepInv(st.up, s.upRun);
    D.RunsKeepInv(st.down, s.downRun);
    D.DeliveryUntilRefusal(st.up, s.upRun);
    D.DeliveryUntilRefusal(st.down, s.downRun);
  }

  // ---------------------------------------------------------------- the window, as the client's threads see it

  /** A reconnect thread between its `recover` and its `revive` of the writer. */
  predicate InWindow(pc: C.ThreadPc) {
    pc.AwaitCatchup? || pc.ReviveReaderLocked? || pc.ReviveWriterLocked?
  }

  ghost predicate WritesInWindow(s: Session, step: Step) {
    step.Client? && step.action.MainWrite? && exists i :: 0 <= i < |s.life.threads| && InWindow(s.life.threads[i])
  }

  /** In no step of the run does the main thread write while a reconnect thread is there. */
  ghost predicate ThreadWindowsKept(st: Streams, steps: seq<Step>) {
    steps == [] ||
    var before, step := steps[..|steps| - 1], steps[|steps| - 1];
    ThreadWindowsKept(st, before) && (Run(st, before).Some? ==> !WritesInWindow(Run(st, before).value, step))
  }

  ghost predicate UpStill(s: Session) {
    && !s.up.gap
    && forall i :: 0 <= i < |s.life.threads| && InWindow(s.life.threads[i]) ==> LogIsCaughtUp(s.up)
  }

  predicate LogIsCaughtUp(l: L.Link) {
    l.attempt.Recovered? && l.attempt.upto == |l.w.log|
  }

  lemma ThreadKeepsUpStill(st: Streams, s: Session, i: nat, reply: C.Reply, catchup: nat, schedule: seq<Io>)
    requires L.Inv(st.up, s.up) && C.LifeInv(s.life) && Coupled(s) && UpStill(s)
    requires Enabled(st, s, Client(C.ThreadGo(i, reply, catchup), schedule))
             && InProtocol(s, C.ThreadGo(i, reply, catchup), schedule)
    ensures UpStill(Next(st, s, Client(C.ThreadGo(i, reply, catchup), schedule)))
  {
    var t := Next(st, s, Client(C.ThreadGo(i, reply, catchup), schedule));
    OthersAreDone(s, i, reply, catchup);
    ThreadStaysInWindow(st, s, i, reply, catchup, schedule);
  }

  lemma ThreadStaysInWindow(st: Streams, s: Session, i: nat, reply: C.Reply, catchup: nat, schedule: seq<Io>)
    requires L.Inv(st.up, s.up) && Coupled(s) && UpStill(s)
    requires Enabled(st, s, Client(C.ThreadGo(i, reply, catchup), schedule))
             && InProtocol(s, C.ThreadGo(i, reply, catchup), schedule)
    ensures var t := Next(st, s, Client(C.ThreadGo(i, reply, catchup), schedule));
            !t.up.gap && (InWindow(t.life.threads[i]) ==> LogIsCaughtUp(t.up))
  {
    ThreadEffects(st, s, i, reply, catchup, schedule);
    if InWindow(C.ThreadStep(s.life, i, reply, catchup).threads[i]) {
      EntersTheWindow(s.life, i, reply, catchup);
    }
    assert ThreadCoupled(s, s.life.threads[i]);
    StaysInWindow(st, s, s.life.threads[i], reply);
  }

  /** A thread in the window was there before, or has just recovered. */
  lemma EntersTheWindow(s: C.Life, i: nat, reply: C.Reply, catchup: nat)
    requires i < |s.threads| && s.threads[i] != C.Done && InWindow(C.ThreadStep(s, i, reply, catchup).threads[i])
    ensures s.threads[i].RecoverLocked? ==> reply == C.Good
    ensures s.threads[i].RecoverLocked? || (InWindow(s.threads[i]) && !s.threads[i].ReviveWriterLocked?)
  {
  }

  lemma StaysInWindow(st: Streams, s: Session, pc: C.ThreadPc, reply: C.Reply)
    requires Shapes(s) && !s.up.gap && (InWindow(pc) ==> LogIsCaughtUp(s.up))
    requires pc.RecoverLocked? ==>
               s.up.attempt.Reported? && (reply == C.Good <==> RecoverStep(st.up, s.up.w, s.up.attempt.remote).Ok?)
    ensures !ThreadUp(st, s, pc).gap
    ensures pc.RecoverLocked? && reply == C.Good ==> LogIsCaughtUp(ThreadUp(st, s, pc))
    ensures InWindow(pc) && !pc.ReviveWriterLocked? ==> LogIsCaughtUp(ThreadUp(st, s, pc))
  {
  }

  lemma MainKeepsUpStill(st: Streams, s: Session, c: C.Step, schedule: seq<Io>)
    requires Coupled(s) && UpStill(s) && Enabled(st, s, Client(c, schedule)) && InProtocol(s, c, schedule)
             && !c.ThreadGo?
    requires !WritesInWindow(s, Client(c, schedule))
    ensures UpStill(Next(st, s, Client(c, schedule)))
  {
    var t := Next(st, s, Client(c, schedule));
    MainKeepsTheAttempt(st, s, c, schedule);
    MainStartsOutside(s, c);
    forall i | 0 <= i < |t.life.threads| && InWindow(t.life.threads[i])
      ensures LogIsCaughtUp(t.up)
    {
      assert i < |s.life.threads| && s.life.threads[i] == t.life.threads[i];
    }
  }

  lemma MainKeepsTheAttempt(st: Streams, s: Session, c: C.Step, schedule: seq<Io>)
    requires Enabled(st, s, Client(c, schedule)) && InProtocol(s, c, schedule) && !c.ThreadGo?
    ensures var t := Next(st, s, Client(c, schedule));
            t.up.gap == s.up.gap && t.up.attempt == s.up.attempt && (!c.MainWrite? ==> t.up.w.log == s.up.w.log)
  {
    var t := Next(st, s, Client(c, schedule));
    match UpEffect(s, c, schedule)
    case None => assert t.up == s.up;
    case Some(l) => assert t.up == L.Next(st.up, s.up, l) && (l.Write? || l.DropWriter?);
  }

  lemma MainStartsOutside(s: Session, c: C.Step)
    requires C.Enabled(s.life, c) && !c.ThreadGo?
    ensures var threads := C.Next(s.life, c).threads;
            forall i :: 0 <= i < |threads| && InWindow(threads[i]) ==>
              i < |s.life.threads| && threads[i] == s.life.threads[i]
  {
  }

  lemma ServerKeepsUpStill(st: Streams, s: Session, step: Step)
    requires Coupled(s) && UpStill(s) && Enabled(st, s, step) && !step.Client?
    ensures UpStill(Next(st, s, step))
  {
    var t := Next(st, s, step);
    assert t.up.gap == s.up.gap && t.up.w.log == s.up.w.log;
    forall i | 0 <= i < |t.life.threads| && InWindow(t.life.threads[i])
      ensures LogIsCaughtUp(t.up)
    {
      assert ThreadCoupled(s, s.life.threads[i]);
    }
  }

  lemma {:induction false} KeptWindowsStayStill(st: Streams, steps: seq<Step>)
    requires IdealStream(st.up) && IdealStream(st.down) && Run(st, steps).Some? && ThreadWindowsKept(st, steps)
    ensures UpStill(Run(st, steps).value)
  {
    if steps != [] {
      var before, step := steps[..|steps| - 1], steps[|steps| - 1];
      KeptWindowsStayStill(st, before);
      RunsKeepSession(st, before);
      var s := Run(st, before).value;
      LinksAreOk(st, s);
      if !step.Client? {
        ServerKeepsUpStill(st, s, step);
      } else if step.action.ThreadGo? {
        ThreadKeepsUpStill(st, s, step.action.thread, step.action.reply, step.action.catchup, step.schedule);
      } else {
        MainKeepsUpStill(st, s, step.action, step.schedule);
      }
      assert Run(st, steps) == Some(Next(st, s, step));
    }
  }

  /** If the main thread never writes while its reconnect thread is between `recover` and `revive`, everything it ever
      logged is delivered by the server exactly once and in order, up to where the server's reader stands. */
  lemma DeliveryWithoutWindowWrites(st: Streams, steps: seq<Step>)
    requires IdealStream(st.up) && IdealStream(st.down) && Run(st, steps).Some? && ThreadWindowsKept(st, steps)
    ensures D.Delivers(st.up, Run(st, steps).value.up)
  {
    KeptWindowsStayStill(st, steps);
    SessionDelivery(st, steps);
  }
}
