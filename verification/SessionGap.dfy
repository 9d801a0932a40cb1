/** The gap is real: a run of the client's own two threads in which a packet written during the handshake is skipped. */
module SessionGap {
  import opened Outcomes
  import opened Bytes
  import opened Crypto
  import opened Packets
  import opened Sockets
  import opened Writers
  import opened Readers
  import opened Session
  import L = Links
  import G = LinkGap
  import opened LinkWindow
  import C = Lifecycle

  lemma RunOn(st: Streams, steps: seq<Step>, s: Session, step: Step, t: Session) returns (more: seq<Step>)
    requires Run(st, steps) == Some(s) && Enabled(st, s, step)
             && (step.Client? ==> InProtocol(s, step.action, step.schedule))
    requires Next(st, s, step) == t
    ensures Run(st, more) == Some(t)
  {
    more := steps + [step];
    assert more[..|more| - 1] == steps;
  }

  /** One step of the main thread that touches no link. */
  lemma MainOn(st: Streams, steps: seq<Step>, s: Session, c: C.Step, t: Session) returns (more: seq<Step>)
    requires Run(st, steps) == Some(s) && Shapes(s) && C.Enabled(s.life, c) && (c.MainCall? || c.MainGo?)
    requires !s.life.main.Invalidating? && !s.life.main.Clearing?
    requires t == s.(life := C.Next(s.life, c))
    ensures Run(st, more) == Some(t)
  {
    more := RunOn(st, steps, s, Client(c, []), t);
  }

  /** One successful step of reconnect thread 0 that touches no link. */
  lemma ThreadOn(st: Streams, steps: seq<Step>, s: Session, t: Session) returns (more: seq<Step>)
    requires Run(st, steps) == Some(s) && Shapes(s) && |s.life.threads| == 1
    requires var pc := s.life.threads[0];
             pc.Head? || pc.CheckShutdown? || pc.Connecting? || (pc.AwaitRemote? && s.up.attempt.Reported?)
               || (pc.AwaitCatchup? && s.down.attempt.Recovered?)
    requires t == s.(life := C.ThreadStep(s.life, 0, C.Good, 0))
    ensures Run(st, more) == Some(t)
  {
    more := RunOn(st, steps, s, Client(C.ThreadGo(0, C.Good, 0), []), t);
  }

  const DEAD_WRITER := L.INITIAL.(w := L.INITIAL.w.(live := false))
  const DEAD_READER := L.INITIAL.(r := L.INITIAL.r.(live := false))
  const REPORTED := L.INITIAL.(w := DEAD_WRITER.w, r := DEAD_READER.r, intact := false, attempt := L.Reported(0))
  const CAUGHT_UP := REPORTED.(intact := true, attempt := L.Recovered(0, 0, [], false, false))

  function Disconnected(main: C.MainPc, threads: seq<C.ThreadPc>, handle: Option<nat>, alive: bool): C.Life {
    C.Life(main, threads, handle, true, alive, false, false, false, 0)
  }

  lemma Drop(st: Streams) returns (steps: seq<Step>, s: Session)
    ensures Run(st, steps) == Some(s) && s.life == Disconnected(C.MarkingDead(C.Return), [], None, true)
            && s.up == DEAD_WRITER && s.down == DEAD_READER
  {
    var s1 := START.(life := C.CONNECTED.(main := C.TakeHandle(C.Return)));
    steps := MainOn(st, [], START, C.MainCall(C.CallClose), s1);
    var s2 := START.(life := C.CONNECTED.(main := C.Invalidating(C.Return)));
    steps := MainOn(st, steps, s1, C.MainGo, s2);
    s := Next(st, s2, Client(C.MainGo, []));
    steps := RunOn(st, steps, s2, Client(C.MainGo, []), s);
  }

  /** The session loop forces a reconnect; the thread is spawned. */
  lemma Close(st: Streams) returns (steps: seq<Step>, s: Session)
    ensures Run(st, steps) == Some(s) && s.life == Disconnected(C.Idle, [C.Head], Some(0), false) && s.up == DEAD_WRITER
            && s.down == DEAD_READER
  {
    steps, s := Drop(st);
    var s4 := s.(life := Disconnected(C.CheckingShutdown(C.Return), [], None, false));
    steps := MainOn(st, steps, s, C.MainGo, s4);
    var s5 := s.(life := Disconnected(C.Spawning(C.Return), [], None, false));
    steps := MainOn(st, steps, s4, C.MainGo, s5);
    var s6 := s.(life := Disconnected(C.StoringHandle(C.Return, 0), [C.Head], None, false));
    steps := MainOn(st, steps, s5, C.MainGo, s6);
    s := s.(life := Disconnected(C.Idle, [C.Head], Some(0), false));
    steps := MainOn(st, steps, s6, C.MainGo, s);
  }

  function Trying(pc: C.ThreadPc): C.Life {
    Disconnected(C.Idle, [pc], Some(0), false)
  }

  lemma Connect(st: Streams, before: seq<Step>, a: Session) returns (steps: seq<Step>, s: Session)
    requires Run(st, before) == Some(a) && a.life == Trying(C.Head) && Shapes(a)
    ensures Run(st, steps) == Some(s) && s == a.(life := Trying(C.ReadSequence))
  {
    steps := ThreadOn(st, before, a, a.(life := Trying(C.CheckShutdown)));
    steps := ThreadOn(st, steps, a.(life := Trying(C.CheckShutdown)), a.(life := Trying(C.Connecting)));
    s := a.(life := Trying(C.ReadSequence));
    steps := ThreadOn(st, steps, a.(life := Trying(C.Connecting)), s);
  }

  /** Both ends of both links drop and report; the client's thread is about to recover. */
  lemma Exchange(st: Streams, before: seq<Step>, a: Session) returns (steps: seq<Step>, s: Session)
    requires Run(st, before) == Some(a) && a.life == Trying(C.Head) && a.up == DEAD_WRITER && a.down == DEAD_READER
    ensures Run(st, steps) == Some(s) && s.life == Trying(C.RecoverLocked(0))
    ensures s.up == REPORTED && s.down == REPORTED
  {
    steps, s := Connect(st, before, a);
    steps, s := Server(st, steps, s, ServerDown(L.DropWriter));
    steps, s := Server(st, steps, s, ServerUp(L.DropReader));
    steps, s := Server(st, steps, s, ServerUp(L.Report));
    steps, s := AskForTheHeader(st, steps, s);
    var t := s.(life := Trying(C.RecoverLocked(0)));
    steps := ThreadOn(st, steps, s, t);
    s := t;
  }

  lemma AskForTheHeader(st: Streams, before: seq<Step>, s: Session) returns (steps: seq<Step>, t: Session)
    requires Run(st, before) == Some(s) && s.life == Trying(C.ReadSequence) && Shapes(s)
    requires s.down == DEAD_READER.(w := DEAD_WRITER.w)
    ensures Run(st, steps) == Some(t) && t.life == Trying(C.AwaitRemote(0)) && t.up == s.up && t.down == REPORTED
  {
    var ask := Client(C.ThreadGo(0, C.Good, 0), []);
    t := Next(st, s, ask);
    assert t.down == L.Next(st.down, s.down, L.Report) == REPORTED;
    steps := RunOn(st, before, s, ask, t);
  }

  lemma Server(st: Streams, before: seq<Step>, s: Session, step: Step) returns (steps: seq<Step>, t: Session)
    requires Run(st, before) == Some(s) && !step.Client? && Enabled(st, s, step)
    ensures Run(st, steps) == Some(t) && t == Next(st, s, step)
  {
    t := Next(st, s, step);
    steps := RunOn(st, before, s, step, t);
  }

  lemma TakeCatchUps(st: Streams, before: seq<Step>, a: Session) returns (steps: seq<Step>, c: Session)
    requires Run(st, before) == Some(a) && a.life == Trying(C.RecoverLocked(0))
    requires a.up == REPORTED && a.down == REPORTED
    ensures Run(st, steps) == Some(c) && c.life == Trying(C.AwaitCatchup(0)) && Shapes(c)
    ensures c.up == CAUGHT_UP && c.down == CAUGHT_UP
  {
    assert Entries(st.up, [], 0, 0) == [] && Entries(st.down, [], 0, 0) == [];
    var b := Next(st, a, Client(C.ThreadGo(0, C.Good, 0), []));
    steps := RunOn(st, before, a, Client(C.ThreadGo(0, C.Good, 0), []), b);
    steps, c := Server(st, steps, b, ServerDown(L.Recover));
  }

  /** The window: catch-ups are taken on both links, and then the main thread writes. */
  lemma WriteInTheWindow(st: Streams, before: seq<Step>, c: Session, p: Packet) returns (steps: seq<Step>, s: Session)
    requires Run(st, before) == Some(c) && c.life == Trying(C.AwaitCatchup(0)) && Shapes(c)
    requires c.up == CAUGHT_UP && c.down == CAUGHT_UP
    requires !p.encrypted && SealedLength(p) <= DISCONNECT_BUFFER_BYTES
    ensures Run(st, steps) == Some(s) && s.life == Trying(C.AwaitCatchup(0))
    ensures s.up == Skipping(p) && s.down == c.down && Shapes(s)
  {
    var d := c.(life := c.life.(main := C.WriteHead(p)));
    steps := MainOn(st, before, c, C.MainCall(C.CallWrite(p)), d);
    var e := c.(life := c.life.(main := C.WriteLocked(p)));
    steps := MainOn(st, steps, d, C.MainGo, e);
    steps, s := BufferWrite(st, steps, e, p);
  }

  /** The writer takes it, and sends nothing. */
  lemma BufferWrite(st: Streams, before: seq<Step>, e: Session, p: Packet) returns (steps: seq<Step>, s: Session)
    requires Run(st, before) == Some(e) && Shapes(e) && e.up == CAUGHT_UP
    requires e.life == Trying(C.AwaitCatchup(0)).(main := C.WriteLocked(p))
    requires !p.encrypted && SealedLength(p) <= DISCONNECT_BUFFER_BYTES
    ensures Run(st, steps) == Some(s) && s.life == Trying(C.AwaitCatchup(0)) && s.up == Skipping(p) && s.down == e.down
  {
    BufferedIsSkipping(st.up, p);
    var write := Client(C.MainWrite(BufferedOnly, false), []);
    s := Next(st, e, write);
    steps := RunOn(st, before, e, write, s);
  }

  lemma BufferedIsSkipping(st: Stream, p: Packet)
    requires !p.encrypted && SealedLength(p) <= DISCONNECT_BUFFER_BYTES
    ensures WriteStep(st, CAUGHT_UP.w, p, []) == WriteResult(BufferedOnly, Skipping(p).w, [], [])
    ensures L.Shape(CAUGHT_UP) && L.Written(st, CAUGHT_UP, p, []) == Skipping(p)
  {
    assert [] + [p] == [p];
    assert WriteStep(st, CAUGHT_UP.w, p, []).writer == Skipping(p).w;
  }

  lemma Revive(st: Streams, before: seq<Step>, s: Session, p: Packet) returns (steps: seq<Step>, u: Session)
    requires Run(st, before) == Some(s) && s.life == Trying(C.AwaitCatchup(0)) && Shapes(s)
    requires s.up == Skipping(p) && s.down == CAUGHT_UP
    ensures Run(st, steps) == Some(u) && u.life.threads == [C.ReviveWriterLocked] && u.up == s.up && Shapes(u)
            && Calling(u)
  {
    var t := s.(life := Trying(C.ReviveReaderLocked(0)));
    steps := ThreadOn(st, before, s, t);
    u := Next(st, t, Client(C.ThreadGo(0, C.Good, 0), []));
    steps := RunOn(st, steps, t, Client(C.ThreadGo(0, C.Good, 0), []), u);
  }

  /** The main thread may make a call. */
  predicate Calling(s: Session) {
    s.life.main == C.Idle && s.life.present && !s.life.shutting
  }

  lemma Rejoin(st: Streams, before: seq<Step>, s: Session) returns (steps: seq<Step>, u: Session)
    requires Run(st, before) == Some(s) && s.life.threads == [C.ReviveWriterLocked] && Shapes(s) && Calling(s)
    requires s.up.attempt == L.Recovered(0, 0, [], false, false) && |s.up.w.log| == 1
    ensures Run(st, steps) == Some(u) && u.up == L.RevivingWriter(s.up) && Calling(u) && u.life.writerLive
  {
    var revive := Client(C.ThreadGo(0, C.Good, 0), []);
    u := Next(st, s, revive);
    steps := RunOn(st, before, s, revive, u);
  }

  /** The session once the client's writer is revived past `p`. */
  lemma WindowRun(st: Streams, p: Packet) returns (steps: seq<Step>, s: Session)
    requires !p.encrypted && SealedLength(p) <= DISCONNECT_BUFFER_BYTES
    ensures Run(st, steps) == Some(s) && Calling(s) && s.life.writerLive
    ensures s.up == L.RevivingWriter(Skipping(p))
  {
    steps, s := Close(st);
    steps, s := Exchange(st, steps, s);
    steps, s := TakeCatchUps(st, steps, s);
    steps, s := WriteInTheWindow(st, steps, s, p);
    steps, s := Revive(st, steps, s, p);
    steps, s := Rejoin(st, steps, s);
  }

  function Skipping(p: Packet): L.Link {
    CAUGHT_UP.(w := Writer([p], false, 1, SealedLength(p)))
  }

  // ---------------------------------------------------------------- and the packet is lost

  /** The server's reader joins: the catch-up it takes is empty. */
  lemma ServerJoins(st: Streams, before: seq<Step>, s: Session, p: Packet) returns (steps: seq<Step>, t: Session)
    requires Run(st, before) == Some(s) && s.up == L.RevivingWriter(Skipping(p)) && !p.encrypted && Shapes(s)
    ensures Run(st, steps) == Some(t) && t == s.(up := Joined(p), upRun := t.upRun)
  {
    assert L.Enabled(s.up, L.ReviveReader);
    steps, t := Server(st, before, s, ServerUp(L.ReviveReader));
    var none: seq<seq<byte>> := [];
    assert none + none == none;
    assert L.RevivingReader(s.up) == Joined(p);
  }

  /** Both ends live again, and the connection already past `p`. */
  function Joined(p: Packet): L.Link {
    L.INITIAL.(w := Writer([p], true, 1, 0), attempt := L.Recovered(0, 0, [], true, true), at := 1, gap := true)
  }

  /** The main thread writes `q`, and its frame goes out whole. */
  lemma WriteLive(st: Streams, before: seq<Step>, s: Session, q: Packet) returns (steps: seq<Step>, t: Session)
    requires Run(st, before) == Some(s) && Shapes(s) && Calling(s) && s.life.writerLive && !q.encrypted
             && SealedLength(q) < U32
    requires s.up.w.live && s.up.intact && s.up.pipe == [] && |s.up.w.log| < L.MAX_SEQUENCE
    ensures Run(st, steps) == Some(t) && t.up == G.Sent(st.up, s.up, q)
  {
    var a := s.(life := s.life.(main := C.WriteHead(q)));
    steps := MainOn(st, before, s, C.MainCall(C.CallWrite(q)), a);
    var b := s.(life := s.life.(main := C.WriteLocked(q)));
    steps := MainOn(st, steps, a, C.MainGo, b);
    var schedule := G.TakeAll(st.up, s.up, q);
    G.SendWhole(st.up, s.up, q);
    G.SendingSucceeds(st.up, s.up, q);
    var write := Client(C.MainWrite(Success, true), schedule);
    t := Next(st, b, write);
    steps := RunOn(st, steps, b, write, t);
  }

  /** The server reads it, and refuses it. */
  lemma ServerRefuses(st: Streams, before: seq<Step>, s: Session, p: Packet, q: Packet)
    returns (steps: seq<Step>, t: Session)
    requires IdealStream(st.up) && IdealStream(st.down) && Run(st, before) == Some(s)
    requires s.up == G.Sent(st.up, Joined(p), q) && SealedLength(q) < U32
    ensures Run(st, steps) == Some(t) && t.up.w.log == [p, q] && t.up.refused == 1 && t.up.r.count == 1
            && t.up.hits == []
  {
    RunsKeepSession(st, before);
    LinksAreOk(st, s);
    PastTheFirst(st.up, s.up, p, q);
    var read := ServerUp(L.Read(G.YieldAll(Entry(st.up, 1, q))));
    steps, t := Server(st, before, s, read);
    G.ReadWhole(st.up, s.up, 1, q);
  }

  lemma PastTheFirst(st: Stream, s: L.Link, p: Packet, q: Packet)
    requires s == G.Sent(st, Joined(p), q)
    ensures s.w.log == [p, q] && s.at == 1 && s.r.count == 0 && s.r.live && s.r.queue == [] && s.r.partial == []
    ensures s.pipe == Frame(Entry(st, 1, q)) && s.refused == 0 && s.hits == []
  {
    assert [p] + [q] == [p, q];
  }

  /** An entry that the server's cipher has passed undelivered is delivered in no continuation of the session. */
  lemma {:induction false} PassedIsLostInSessions(st: Streams, steps: seq<Step>, more: seq<Step>, i: nat)
    requires IdealStream(st.up) && IdealStream(st.down) && Run(st, steps).Some? && Run(st, steps + more).Some?
    requires Passed(Run(st, steps).value, i)
    ensures Passed(Run(st, steps + more).value, i)
  {
    if more == [] {
      assert steps + more == steps;
    } else {
      var before := more[..|more| - 1];
      assert (steps + more)[..|steps + more| - 1] == steps + before;
      PassedIsLostInSessions(st, steps, before, i);
      OneMoreStepPasses(st, steps + more, i);
    }
  }

  /** The server's cipher is past entry `i`, which was not delivered. */
  ghost predicate Passed(s: Session, i: nat) {
    i < s.up.r.count && i !in s.up.hits
  }

  lemma OneMoreStepPasses(st: Streams, steps: seq<Step>, i: nat)
    requires IdealStream(st.up) && IdealStream(st.down) && steps != [] && Run(st, steps).Some?
    requires Passed(Run(st, steps[..|steps| - 1]).value, i)
    ensures Passed(Run(st, steps).value, i)
  {
    var before := steps[..|steps| - 1];
    RunsKeepSession(st, before);
    LinksAreOk(st, Run(st, before).value);
    UpPassesOn(st, Run(st, before).value, steps[|steps| - 1], i);
  }

  lemma UpPassesOn(st: Streams, s: Session, step: Step, i: nat)
    requires IdealStream(st.up) && L.Inv(st.up, s.up) && Shapes(s) && i < s.up.r.count && i !in s.up.hits
    requires Enabled(st, s, step) && (step.Client? ==> InProtocol(s, step.action, step.schedule))
    ensures i < Next(st, s, step).up.r.count && i !in Next(st, s, step).up.hits
  {
    match step
    case Client(c, schedule) =>
      var effect := UpEffect(s, c, schedule);
      if effect.Some? {
        StepHitsOnlyTheCount(st.up, s.up, effect.value);
      }
    case ServerUp(l) => StepHitsOnlyTheCount(st.up, s.up, l);
    case ServerDown(_) =>
  }

  /** The handshake is not atomic with writers. The client's main thread writes `p` while its reconnect thread is
      between `recover` and `revive`, and `q` afterwards, on the live connection: the server refuses `q`, and `p` is
      delivered in no continuation of the session. */
  lemma TheWindowLosesThePacket(st: Streams, p: Packet, q: Packet) returns (steps: seq<Step>)
    requires IdealStream(st.up) && IdealStream(st.down) && !p.encrypted && !q.encrypted
    requires SealedLength(p) <= DISCONNECT_BUFFER_BYTES && SealedLength(q) < U32
    ensures Run(st, steps).Some? && Run(st, steps).value.up.w.log == [p, q] && Run(st, steps).value.up.refused == 1
    ensures forall more :: Run(st, steps + more).Some? ==> 0 !in Run(st, steps + more).value.up.hits
  {
    var s;
    steps, s := WindowRun(st, p);
    RunsKeepSession(st, steps);
    LinksAreOk(st, s);
    steps, s := ServerJoins(st, steps, s, p);
    RunsKeepSession(st, steps);
    LinksAreOk(st, s);
    steps, s := WriteLive(st, steps, s, q);
    steps, s := ServerRefuses(st, steps, s, p, q);
    forall more | Run(st, steps + more).Some?
      ensures 0 !in Run(st, steps + more).value.up.hits
    {
      PassedIsLostInSessions(st, steps, more, 0);
    }
  }
}
