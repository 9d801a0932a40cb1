/** The main thread and the reconnect threads of a client connection. Every lock section and every atomic
    operation is one step; steps of all threads interleave freely. One thread makes the calls. */
module Lifecycle {
  import opened Outcomes
  import opened Packets
  import opened Writers

  /** What the main thread does once it has waited for the reconnect thread. */
  datatype After = RetryWrite(packet: Packet) | Return | FinishShutdown

  datatype MainPc =
    | Idle                                  // at the head of the session loop, or between calls
    | WriteHead(packet: Packet)             // `write_packet`: about to look at `shutting_down`
    | WriteLocked(packet: Packet)           // about to take the writer lock and write
    | ReadLocked                            // `read_packet`: about to take the reader lock and read
    | TakeHandle(k: After)                  // `wait_reconnect`: about to take the thread handle
    | Joining(k: After, thread: nat)
    | Invalidating(k: After)                // about to drop both sockets under both locks
    | MarkingDead(k: After)                 // about to clear `socket_alive`
    | CheckingShutdown(k: After)
    | Spawning(k: After)
    | StoringHandle(k: After, thread: nat)
    | ShutStoring                           // `shutdown`: about to set `shutting_down`
    | Clearing                              // about to drop reader and writer for good
    | ShutMarking                           // about to clear `socket_alive` for good

  datatype ThreadPc =
    | Head                                  // `reconnect_loop`: about to look at `socket_alive`
    | CheckShutdown
    | Connecting                            // `try_recover`: connecting, request and response
    | ReadSequence                          // about to take the reader lock for the sequence number
    | AwaitRemote(local: nat)               // header out, peer's header in
    | RecoverLocked(local: nat)             // about to take the writer lock and recover
    | AwaitCatchup(local: nat)              // catch-up out, peer's catch-up in
    | ReviveReaderLocked(local: nat)
    | ReviveWriterLocked
    | StoringAlive
    | StoringShutdown
    | Sleeping
    | Done

  datatype Life = Life(
    main: MainPc,
    threads: seq<ThreadPc>,                 // every reconnect thread ever spawned
    handle: Option<nat>,                    // the stored join handle
    present: bool,                          // whether the reader and the writer are there at all
    alive: bool,                            // `socket_alive`
    shutting: bool,                         // `shutting_down`
    writerLive: bool,                       // whether the writer has a socket
    readerLive: bool,                       // whether the reader has a socket
    readerSequence: nat)

  datatype Call = CallWrite(packet: Packet) | CallRead | CallClose | CallShutdown

  /** How a network exchange of a reconnect attempt ends. */
  datatype Reply = Good | Bad | Refusal

  datatype Step =
    | MainCall(call: Call)
    | MainGo                                // a step whose outcome the state decides
    | MainWrite(state: WriteState, live: bool)
    | MainRead(failed: bool, advanced: bool)
    | ThreadGo(thread: nat, reply: Reply, catchup: nat)

  /** Right after `connect`. */
  const CONNECTED := Life(Idle, [], None, true, true, false, true, true, 0)

  predicate MainEnabled(s: Life) {
    match s.main
    case Idle => false
    case WriteLocked(_) => false
    case ReadLocked => false
    case Joining(_, i) => i < |s.threads| && s.threads[i] == Done
    case _ => true
  }

  /** What `write` can answer: success only on a live socket, buffering only on a dead one, a failure may kill it. */
  predicate WriteAnswers(s: Life, state: WriteState, live: bool) {
    if !s.present then state == Skipped && live == s.writerLive
    else match state
      case Success => s.writerLive && live
      case BufferedOnly => !s.writerLive && !live
      case Skipped => !s.writerLive && !live
      case WroteWithFailure => live ==> s.writerLive
  }

  predicate Enabled(s: Life, step: Step) {
    match step
    case MainCall(_) => s.main == Idle
    case MainGo => MainEnabled(s)
    case MainWrite(state, live) => s.main.WriteLocked? && WriteAnswers(s, state, live)
    case MainRead(failed, advanced) =>
      s.main == ReadLocked && (advanced ==> s.present && s.readerLive) && (failed ==> s.present)
    case ThreadGo(i, reply, _) => i < |s.threads| && s.threads[i] != Done
  }

  function CallStep(s: Life, c: Call): Life {
    s.(main := match c
               case CallWrite(p) => WriteHead(p)
               case CallRead => ReadLocked
               case CallClose => TakeHandle(Return)
               case CallShutdown => ShutStoring)
  }

  function Resume(k: After): MainPc {
    match k
    case RetryWrite(p) => WriteHead(p)
    case Return => Idle
    case FinishShutdown => Clearing
  }

  function Waited(k: After): MainPc {
    if k == FinishShutdown then Clearing else Invalidating(k)
  }

  function MainStep(s: Life): Life
    requires MainEnabled(s)
  {
    match s.main
    case WriteHead(p) => s.(main := if s.shutting then Idle else WriteLocked(p))
    case TakeHandle(k) =>
      (match s.handle
       case Some(i) => s.(handle := None, main := Joining(k, i))
       case None => s.(main := Waited(k)))
    case Joining(k, _) => s.(main := Waited(k))
    case Invalidating(k) => s.(writerLive := false, readerLive := false, main := MarkingDead(k))
    case MarkingDead(k) => s.(alive := false, main := CheckingShutdown(k))
    case CheckingShutdown(k) => s.(main := if s.shutting then Resume(k) else Spawning(k))
    case Spawning(k) => s.(threads := s.threads + [Head], main := StoringHandle(k, |s.threads|))
    case StoringHandle(k, i) => s.(handle := Some(i), main := Resume(k))
    case ShutStoring => s.(shutting := true, main := TakeHandle(FinishShutdown))
    case Clearing => s.(present := false, writerLive := false, readerLive := false, main := ShutMarking)
    case ShutMarking => s.(alive := false, main := Idle)
  }

  function WriteOutcome(s: Life, state: WriteState, live: bool): Life
    requires s.main.WriteLocked?
  {
    var p := s.main.packet;
    s.(writerLive := live,
       main := match state
               case Success | BufferedOnly => Idle
               case WroteWithFailure => TakeHandle(RetryWrite(p))
               case Skipped => WriteHead(p))
  }

  /** Where a reconnect thread goes next. */
  function NextPc(s: Life, pc: ThreadPc, reply: Reply): ThreadPc
    requires pc != Done
  {
    match pc
    case Head => if s.alive then Done else CheckShutdown
    case CheckShutdown => if s.shutting then Done else Connecting
    case Connecting => (match reply case Good => ReadSequence case Bad => Sleeping case Refusal => StoringShutdown)
    case ReadSequence => AwaitRemote(if s.present then s.readerSequence else 0)
    case AwaitRemote(local) => if reply == Good then RecoverLocked(local) else Sleeping
    case RecoverLocked(local) => if reply == Good && !s.writerLive then AwaitCatchup(local) else Sleeping
    case AwaitCatchup(local) => if reply == Good then ReviveReaderLocked(local) else Sleeping
    case ReviveReaderLocked(_) => ReviveWriterLocked
    case ReviveWriterLocked => StoringAlive
    case StoringAlive => Done
    case StoringShutdown => Done
    case Sleeping => Head
  }

  function ThreadStep(s: Life, i: nat, reply: Reply, catchup: nat): Life
    requires i < |s.threads| && s.threads[i] != Done
  {
    var t := s.(threads := s.threads[i := NextPc(s, s.threads[i], reply)]);
    match s.threads[i]
    case ReviveReaderLocked(_) => t.(readerLive := s.present, readerSequence := s.readerSequence + catchup)
    case ReviveWriterLocked => t.(writerLive := s.present)
    case StoringAlive => t.(alive := true)
    case StoringShutdown => t.(shutting := true)
    case _ => t
  }

  function Next(s: Life, step: Step): Life
    requires Enabled(s, step)
  {
    match step
    case MainCall(c) => CallStep(s, c)
    case MainGo => MainStep(s)
    case MainWrite(state, live) => WriteOutcome(s, state, live)
    case MainRead(failed, advanced) =>
      s.(readerSequence := if advanced then s.readerSequence + 1 else s.readerSequence,
         main := if failed then TakeHandle(Return) else Idle)
    case ThreadGo(i, reply, catchup) => ThreadStep(s, i, reply, catchup)
  }

  // ---------------------------------------------------------------- the invariant

  /** An attempt that has not yet revived the reader. */
  predicate Early(pc: ThreadPc) {
    pc.Head? || pc.CheckShutdown? || pc.Connecting? || pc.ReadSequence? || pc.AwaitRemote? || pc.RecoverLocked?
    || pc.AwaitCatchup? || pc.ReviveReaderLocked? || pc.Sleeping?
  }

  /** The main thread is on its way to clearing `socket_alive`. */
  predicate Tearing(pc: MainPc) {
    pc.TakeHandle? || pc.Joining? || pc.Invalidating? || pc.MarkingDead? || pc.Clearing? || pc.ShutMarking?
  }

  /** Someone holds the handle of thread `i`. */
  predicate Held(s: Life, i: nat) {
    s.handle == Some(i) || (s.main.Joining? && s.main.thread == i) || (s.main.StoringHandle? && s.main.thread == i)
  }

  /** Between waiting for the reconnect thread and storing the next handle there is none to hold. */
  predicate Handleless(pc: MainPc) {
    pc.Joining? || pc.Invalidating? || pc.MarkingDead? || pc.CheckingShutdown? || pc.Spawning? || pc.StoringHandle?
    || pc.Clearing? || pc.ShutMarking?
  }

  ghost predicate ThreadOk(s: Life, i: nat)
    requires i < |s.threads|
  {
    var pc := s.threads[i];
    && (pc != Done ==> Held(s, i) && s.present)
    && (Early(pc) ==> !s.writerLive && !s.readerLive)
    && (pc.ReviveWriterLocked? ==> !s.writerLive && s.readerLive)
    && (pc.StoringAlive? ==> s.readerLive && (s.writerLive || Tearing(s.main)))
    && (pc.StoringShutdown? ==> !s.writerLive && !s.readerLive)
    && ((pc.AwaitRemote? || pc.RecoverLocked? || pc.AwaitCatchup? || pc.ReviveReaderLocked?) ==>
        pc.local == s.readerSequence)
  }

  ghost predicate MainOk(s: Life) {
    && (Handleless(s.main) ==> s.handle == None)
    && (s.handle.Some? ==> s.handle.value < |s.threads|)
    && (s.main.Joining? || s.main.StoringHandle? ==> s.main.thread < |s.threads|)
    && (s.main.StoringHandle? ==> s.main.thread == |s.threads| - 1)
    && (s.main.MarkingDead? || s.main.CheckingShutdown? || s.main.Spawning? ==> !s.writerLive && !s.readerLive)
    && (s.main.CheckingShutdown? || s.main.Spawning? ==> s.main.k != FinishShutdown)
    && (s.main.Invalidating? || s.main.MarkingDead? || s.main.StoringHandle? ==> s.main.k != FinishShutdown)
    && (s.main.Spawning? ==> s.present && !s.shutting)
    && (!s.present ==> s.shutting && !s.writerLive && !s.readerLive)
    && ((s.main.TakeHandle? || s.main.Joining?) && s.main.k == FinishShutdown ==> s.shutting)
    && (s.main.Clearing? || s.main.ShutMarking? ==> s.shutting)
    && (s.alive ==> (s.writerLive && s.readerLive) || Tearing(s.main))
  }

  ghost predicate LifeInv(s: Life) {
    MainOk(s) && forall i :: 0 <= i < |s.threads| ==> ThreadOk(s, i)
  }

  lemma MainStepKeepsThread(s: Life, i: nat)
    requires LifeInv(s) && MainEnabled(s) && i < |MainStep(s).threads|
    ensures ThreadOk(MainStep(s), i)
  {
    if i < |s.threads| {
      assert ThreadOk(s, i);
      assert MainStep(s).threads[i] == s.threads[i];
    }
  }

  /** Waiting for the reconnect thread, the part of `MainStep` before the sockets go. */
  predicate Waiting(pc: MainPc) {
    pc.WriteHead? || pc.TakeHandle? || pc.Joining? || pc.ShutStoring?
  }

  lemma WaitingKeepsMain(s: Life)
    requires LifeInv(s) && MainEnabled(s) && Waiting(s.main)
    ensures MainOk(MainStep(s))
  {
  }

  lemma MainStepKeepsMain(s: Life)
    requires LifeInv(s) && MainEnabled(s)
    ensures MainOk(MainStep(s))
  {
    if Waiting(s.main) {
      WaitingKeepsMain(s);
    } else {
      assert MainOk(MainStep(s));
    }
  }

  lemma MainStepKeepsInv(s: Life)
    requires LifeInv(s) && MainEnabled(s)
    ensures LifeInv(MainStep(s))
  {
    forall i | 0 <= i < |MainStep(s).threads|
      ensures ThreadOk(MainStep(s), i)
    {
      MainStepKeepsThread(s, i);
    }
    MainStepKeepsMain(s);
  }

  lemma ThreadStepKeepsMain(s: Life, i: nat, reply: Reply, catchup: nat)
    requires LifeInv(s) && i < |s.threads| && s.threads[i] != Done
    ensures MainOk(ThreadStep(s, i, reply, catchup))
  {
    assert ThreadOk(s, i);
  }

  lemma ThreadStepKeepsItself(s: Life, i: nat, reply: Reply, catchup: nat)
    requires LifeInv(s) && i < |s.threads| && s.threads[i] != Done
    ensures ThreadOk(ThreadStep(s, i, reply, catchup), i)
  {
    assert ThreadOk(s, i);
  }

  lemma ThreadStepKeepsInv(s: Life, i: nat, reply: Reply, catchup: nat)
    requires LifeInv(s) && i < |s.threads| && s.threads[i] != Done
    ensures LifeInv(ThreadStep(s, i, reply, catchup))
  {
    var t := ThreadStep(s, i, reply, catchup);
    ThreadStepKeepsItself(s, i, reply, catchup);
    ThreadStepKeepsMain(s, i, reply, catchup);
    forall j | 0 <= j < |t.threads|
      ensures ThreadOk(t, j)
    {
      if j != i {
        ThreadStepKeepsOthers(s, i, j, reply, catchup);
      }
    }
  }

  lemma ThreadStepKeepsOthers(s: Life, i: nat, j: nat, reply: Reply, catchup: nat)
    requires LifeInv(s) && i < |s.threads| && s.threads[i] != Done && j < |s.threads| && j != i
    ensures j < |ThreadStep(s, i, reply, catchup).threads| && ThreadOk(ThreadStep(s, i, reply, catchup), j)
  {
    OnlyOneHeld(s, i, j);
    DoneIsOk(ThreadStep(s, i, reply, catchup), j);
  }

  lemma DoneIsOk(s: Life, i: nat)
    requires i < |s.threads| && s.threads[i] == Done
    ensures ThreadOk(s, i)
  {
  }

  lemma OnlyOneHeld(s: Life, i: nat, j: nat)
    requires LifeInv(s) && i < |s.threads| && j < |s.threads| && i != j && s.threads[i] != Done
    ensures s.threads[j] == Done
  {
    assert ThreadOk(s, i) && ThreadOk(s, j);
  }

  lemma OtherStepKeepsInv(s: Life, step: Step)
    requires LifeInv(s) && Enabled(s, step) && (step.MainCall? || step.MainWrite? || step.MainRead?)
    ensures LifeInv(Next(s, step))
  {
    var t := Next(s, step);
    forall i | 0 <= i < |t.threads|
      ensures ThreadOk(t, i)
    {
      assert ThreadOk(s, i);
    }
    assert MainOk(t);
  }

  lemma StepKeepsLifeInv(s: Life, step: Step)
    requires LifeInv(s) && Enabled(s, step)
    ensures LifeInv(Next(s, step))
  {
    match step
    case MainGo => MainStepKeepsInv(s);
    case ThreadGo(i, reply, catchup) => ThreadStepKeepsInv(s, i, reply, catchup);
    case _ => OtherStepKeepsInv(s, step);
  }

  // ---------------------------------------------------------------- whole runs

  /** The connection after a run of enabled steps; nothing if some step was not enabled. */
  function Play(steps: seq<Step>): Option<Life> {
    if steps == [] then Some(CONNECTED)
    else
      var before, step := Play(steps[..|steps| - 1]), steps[|steps| - 1];
      if before.Some? && Enabled(before.value, step) then Some(Next(before.value, step)) else None
  }

  lemma {:induction false} RunsKeepLifeInv(steps: seq<Step>)
    requires Play(steps).Some?
    ensures LifeInv(Play(steps).value)
  {
    if steps != [] {
      RunsKeepLifeInv(steps[..|steps| - 1]);
      StepKeepsLifeInv(Play(steps[..|steps| - 1]).value, steps[|steps| - 1]);
    }
  }

  /** Every interleaving has at most one reconnect thread that has not ended. */
  lemma AtMostOneReconnectThread(steps: seq<Step>, i: nat, j: nat)
    requires Play(steps).Some?
    requires i < |Play(steps).value.threads| && j < |Play(steps).value.threads|
    requires Play(steps).value.threads[i] != Done && Play(steps).value.threads[j] != Done
    ensures i == j
  {
    RunsKeepLifeInv(steps);
    if i != j {
      OnlyOneHeld(Play(steps).value, i, j);
    }
  }

  /** `recover` is never reached with a live writer socket, nor `revive` with one, nor either without a reader and
      writer. */
  lemma RecoverFindsADeadWriter(steps: seq<Step>, i: nat)
    requires Play(steps).Some? && i < |Play(steps).value.threads|
    requires var pc := Play(steps).value.threads[i];
             pc.RecoverLocked? || pc.AwaitCatchup? || pc.ReviveReaderLocked? || pc.ReviveWriterLocked?
    ensures Play(steps).value.present && !Play(steps).value.writerLive
  {
    RunsKeepLifeInv(steps);
    assert ThreadOk(Play(steps).value, i);
  }

  /** The reader's sequence number stays what the attempt reported until the reader is revived. */
  lemma ReportedSequenceIsFrozen(steps: seq<Step>, i: nat)
    requires Play(steps).Some? && i < |Play(steps).value.threads|
    requires var pc := Play(steps).value.threads[i];
             pc.AwaitRemote? || pc.RecoverLocked? || pc.AwaitCatchup? || pc.ReviveReaderLocked?
    ensures Play(steps).value.threads[i].local == Play(steps).value.readerSequence && !Play(steps).value.readerLive
  {
    RunsKeepLifeInv(steps);
    assert ThreadOk(Play(steps).value, i);
  }

  /** At the head of the session loop, `socket_alive` means that both sockets are there. */
  lemma AliveAtTheLoopHead(steps: seq<Step>)
    requires Play(steps).Some? && Play(steps).value.main == Idle && Play(steps).value.alive
    ensures Play(steps).value.present && Play(steps).value.writerLive && Play(steps).value.readerLive
  {
    RunsKeepLifeInv(steps);
  }

  /** Once `shutdown` has cleared the reader and the writer, no reconnect thread is running, and none starts again. */
  lemma ShutdownIsFinal(steps: seq<Step>, i: nat)
    requires Play(steps).Some? && !Play(steps).value.present && i < |Play(steps).value.threads|
    ensures Play(steps).value.threads[i] == Done
    ensures Play(steps).value.shutting && !Play(steps).value.main.Spawning?
  {
    RunsKeepLifeInv(steps);
    assert ThreadOk(Play(steps).value, i);
  }

  // ---------------------------------------------------------------- somebody is always reconnecting

  /** The main thread is not on its way to starting a reconnect thread, or to shutting down. */
  predicate Working(pc: MainPc) {
    pc.Idle? || pc.WriteHead? || pc.WriteLocked? || pc.ReadLocked?
  }

  predicate Running(s: Life, i: nat) {
    i < |s.threads| && s.threads[i] != Done
  }

  /** A connection that is down and not being shut down has a reconnect thread that has not ended. */
  ghost predicate Attended(s: Life) {
    !s.alive && !s.shutting ==>
      && (Working(s.main) ==> s.handle.Some? && Running(s, s.handle.value))
      && (s.main.StoringHandle? ==> Running(s, s.main.thread))
  }

  lemma StepKeepsAttended(s: Life, step: Step)
    requires LifeInv(s) && Attended(s) && Enabled(s, step)
    ensures Attended(Next(s, step))
  {
    if step.ThreadGo? {
      assert ThreadOk(s, step.thread);
    }
  }

  lemma {:induction false} RunsKeepAttended(steps: seq<Step>)
    requires Play(steps).Some?
    ensures Attended(Play(steps).value)
  {
    if steps != [] {
      var before := steps[..|steps| - 1];
      RunsKeepAttended(before);
      RunsKeepLifeInv(before);
      StepKeepsAttended(Play(before).value, steps[|steps| - 1]);
    }
  }

  /** A disconnected client is always being reconnected: whenever the session loop, or a call that only writes or reads,
      finds `socket_alive` and `shutting_down` both clear, the stored handle names a reconnect thread that has not
      ended. */
  lemma ADeadConnectionIsAttended(steps: seq<Step>)
    requires Play(steps).Some? && Working(Play(steps).value.main)
    requires !Play(steps).value.alive && !Play(steps).value.shutting
    ensures Play(steps).value.handle.Some? && Running(Play(steps).value, Play(steps).value.handle.value)
  {
    RunsKeepAttended(steps);
  }
}
