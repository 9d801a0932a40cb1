/** What ends a session, what ends a reconnect thread, and how calls come back, over every interleaving. */
module LifecycleLaws {
  import opened Outcomes
  import opened Packets
  import opened Writers
  import opened Lifecycle

  // ---------------------------------------------------------------- why `shutting_down` is set

  /** `shutting_down` is set, or some thread is about to set it. */
  ghost predicate Ending(s: Life) {
    s.shutting || s.main.ShutStoring? || exists i :: 0 <= i < |s.threads| && s.threads[i].StoringShutdown?
  }

  /** Step `k` of the run calls `shutdown`, or is a server's refusal of the key to an attempt that just connected. */
  ghost predicate AsksForTheEnd(steps: seq<Step>, k: nat)
    requires k < |steps|
  {
    steps[k] == MainCall(CallShutdown)
    || (steps[k].ThreadGo? && steps[k].reply == Refusal && Play(steps[..k]).Some?
        && steps[k].thread < |Play(steps[..k]).value.threads|
        && Play(steps[..k]).value.threads[steps[k].thread] == Connecting)
  }

  lemma OnlyARefusalEnds(s: Life, i: nat, reply: Reply, catchup: nat)
    requires Enabled(s, ThreadGo(i, reply, catchup)) && !Ending(s) && Ending(ThreadStep(s, i, reply, catchup))
    ensures reply == Refusal && s.threads[i] == Connecting
  {
    var t := ThreadStep(s, i, reply, catchup);
    assert forall j :: 0 <= j < |s.threads| && j != i ==> t.threads[j] == s.threads[j];
    assert !s.threads[i].StoringShutdown?;
  }

  lemma MainStepsDoNotEnd(s: Life)
    requires MainEnabled(s) && !Ending(s)
    ensures !Ending(MainStep(s))
  {
    var t := MainStep(s);
    assert forall j :: 0 <= j < |t.threads| ==>
           (j < |s.threads| && t.threads[j] == s.threads[j]) || t.threads[j] == Head;
  }

  lemma OnlyTheseEnd(s: Life, step: Step)
    requires Enabled(s, step) && !Ending(s) && Ending(Next(s, step))
    ensures step == MainCall(CallShutdown)
            || (step.ThreadGo? && step.reply == Refusal && s.threads[step.thread] == Connecting)
  {
    match step
    case ThreadGo(i, reply, catchup) => OnlyARefusalEnds(s, i, reply, catchup);
    case MainGo => MainStepsDoNotEnd(s);
    case _ =>
  }

  /** A session ends only because it was told to: `shutting_down` is set in no run in which nobody called `shutdown` and
      no server refused the key. An attempt that fails in any other way leaves it clear. */
  lemma {:induction false} TheEndHasACause(steps: seq<Step>) returns (k: nat)
    requires Play(steps).Some? && Ending(Play(steps).value)
    ensures k < |steps| && AsksForTheEnd(steps, k)
  {
    var n := |steps| - 1;
    var before := steps[..n];
    if Ending(Play(before).value) {
      k := TheEndHasACause(before);
      assert before[..k] == steps[..k] && before[k] == steps[k];
    } else {
      OnlyTheseEnd(Play(before).value, steps[n]);
      k := n;
    }
  }

  // ---------------------------------------------------------------- why a reconnect thread ends

  /** A failed attempt, wherever it fails, is slept over and begun again; nothing else changes. */
  lemma FailedAttemptsAreTriedAgain(s: Life, i: nat)
    requires i < |s.threads|
    requires var pc := s.threads[i]; pc.Connecting? || pc.AwaitRemote? || pc.RecoverLocked? || pc.AwaitCatchup?
    ensures Enabled(s, ThreadGo(i, Bad, 0)) && Enabled(Next(s, ThreadGo(i, Bad, 0)), ThreadGo(i, Good, 0))
    ensures Next(Next(s, ThreadGo(i, Bad, 0)), ThreadGo(i, Good, 0)) == s.(threads := s.threads[i := Head])
  {
    assert s.threads[i := Sleeping][i := Head] == s.threads[i := Head];
  }

  /** Step `k` ends thread `i`: it finds the connection alive again or the session over, or has itself revived both ends
      or been refused. */
  ghost predicate EndsThread(steps: seq<Step>, k: nat, i: nat)
    requires k < |steps|
  {
    && steps[k].ThreadGo? && steps[k].thread == i && Play(steps[..k]).Some? && i < |Play(steps[..k]).value.threads|
    && var s := Play(steps[..k]).value;
       match s.threads[i]
       case Head => s.alive
       case CheckShutdown => s.shutting
       case StoringAlive => true
       case StoringShutdown => true
       case _ => false
  }

  lemma {:induction false} AThreadEndsForAReason(steps: seq<Step>, i: nat) returns (k: nat)
    requires Play(steps).Some? && i < |Play(steps).value.threads| && Play(steps).value.threads[i] == Done
    ensures k < |steps| && EndsThread(steps, k, i)
  {
    var n := |steps| - 1;
    var before := steps[..n];
    var s := Play(before).value;
    if i < |s.threads| && s.threads[i] == Done {
      k := AThreadEndsForAReason(before, i);
      assert before[..k] == steps[..k] && before[k] == steps[k];
    } else {
      OnlyItselfEnds(s, steps[n], i);
      k := n;
    }
  }

  lemma OnlyItselfEnds(s: Life, step: Step, i: nat)
    requires Enabled(s, step) && i < |Next(s, step).threads| && Next(s, step).threads[i] == Done
    requires i < |s.threads| ==> s.threads[i] != Done
    ensures i < |s.threads| && step.ThreadGo? && step.thread == i
    ensures match s.threads[i]
            case Head => s.alive
            case CheckShutdown => s.shutting
            case StoringAlive => true
            case StoringShutdown => true
            case _ => false
  {
    if step.ThreadGo? {
      assert Next(s, step).threads == s.threads[step.thread := NextPc(s, s.threads[step.thread], step.reply)];
    } else {
      MainStepsEndNoThread(s, step, i);
    }
  }

  lemma MainStepsEndNoThread(s: Life, step: Step, i: nat)
    requires Enabled(s, step) && !step.ThreadGo? && i < |Next(s, step).threads|
    ensures i < |s.threads| ==> Next(s, step).threads[i] == s.threads[i]
    ensures i >= |s.threads| ==> Next(s, step).threads[i] == Head
  {
  }

  /** One step ends a thread if and only if the thread is at one of these points and finds that. */
  lemma AThreadEndsExactly(s: Life, i: nat, reply: Reply, catchup: nat)
    requires Enabled(s, ThreadGo(i, reply, catchup))
    ensures Next(s, ThreadGo(i, reply, catchup)).threads[i] == Done <==>
              || (s.threads[i] == Head && s.alive) || (s.threads[i] == CheckShutdown && s.shutting)
              || s.threads[i] == StoringAlive || s.threads[i] == StoringShutdown
  {
  }

  /** Thread `i` alone takes `n` steps, and whatever it asks for succeeds. */
  function Undisturbed(s: Life, i: nat, catchup: nat, n: nat): Life
    requires i < |s.threads|
    decreases n
  {
    if n == 0 || s.threads[i] == Done then s
    else Undisturbed(ThreadStep(s, i, Good, catchup), i, catchup, n - 1)
  }

  /** An attempt in which nothing fails needs ten steps: it revives the reader and then the writer, marks the connection
      alive, and ends. */
  lemma AnUndisturbedAttemptRevives(s: Life, i: nat, catchup: nat, n: nat)
    requires i < |s.threads| && s.threads[i] == Head && !s.alive && !s.shutting && s.present && !s.writerLive && n >= 10
    ensures Undisturbed(s, i, catchup, n)
         == s.(threads := s.threads[i := Done], readerLive := true, readerSequence := s.readerSequence + catchup,
               writerLive := true, alive := true)
  {
    UpToTheSequence(s, i, catchup, n);
    UpToTheCatchup(s, i, catchup, n - 4);
    UpToTheEnd(s, i, catchup, n - 7);
  }

  function At(s: Life, i: nat, pc: ThreadPc): Life
    requires i < |s.threads|
  {
    s.(threads := s.threads[i := pc])
  }

  lemma UpToTheSequence(s: Life, i: nat, catchup: nat, n: nat)
    requires i < |s.threads| && s.threads[i] == Head && !s.alive && !s.shutting && s.present && n >= 4
    ensures Undisturbed(s, i, catchup, n) == Undisturbed(At(s, i, AwaitRemote(s.readerSequence)), i, catchup, n - 4)
  {
    assert At(s, i, Head) == s;
    GoodStep(s, i, Head, CheckShutdown, catchup, n);
    GoodStep(s, i, CheckShutdown, Connecting, catchup, n - 1);
    GoodStep(s, i, Connecting, ReadSequence, catchup, n - 2);
    GoodStep(s, i, ReadSequence, AwaitRemote(s.readerSequence), catchup, n - 3);
  }

  lemma UpToTheCatchup(s: Life, i: nat, catchup: nat, n: nat)
    requires i < |s.threads| && !s.writerLive && n >= 3
    ensures var local := s.readerSequence;
            Undisturbed(At(s, i, AwaitRemote(local)), i, catchup, n)
            == Undisturbed(At(s, i, ReviveReaderLocked(local)), i, catchup, n - 3)
  {
    var local := s.readerSequence;
    GoodStep(s, i, AwaitRemote(local), RecoverLocked(local), catchup, n);
    GoodStep(s, i, RecoverLocked(local), AwaitCatchup(local), catchup, n - 1);
    GoodStep(s, i, AwaitCatchup(local), ReviveReaderLocked(local), catchup, n - 2);
  }

  /** A step that changes nothing but where the thread is. */
  lemma GoodStep(s: Life, i: nat, from: ThreadPc, to: ThreadPc, catchup: nat, n: nat)
    requires i < |s.threads| && from != Done && n > 0 && NextPc(s, from, Good) == to
    requires !from.ReviveReaderLocked? && !from.ReviveWriterLocked? && !from.StoringAlive? && !from.StoringShutdown?
    ensures Undisturbed(At(s, i, from), i, catchup, n) == Undisturbed(At(s, i, to), i, catchup, n - 1)
  {
    var t := At(s, i, from);
    assert NextPc(t, from, Good) == to;
    assert t.threads[i := to] == s.threads[i := to];
    assert ThreadStep(t, i, Good, catchup) == At(s, i, to);
  }

  lemma UpToTheEnd(s: Life, i: nat, catchup: nat, n: nat)
    requires i < |s.threads| && s.present && n >= 3
    ensures Undisturbed(At(s, i, ReviveReaderLocked(s.readerSequence)), i, catchup, n)
         == s.(threads := s.threads[i := Done], readerLive := true, readerSequence := s.readerSequence + catchup,
               writerLive := true, alive := true)
  {
    var t := At(s, i, ReviveReaderLocked(s.readerSequence));
    var revived := s.(readerLive := true, readerSequence := s.readerSequence + catchup);
    assert t.threads[i := ReviveWriterLocked] == s.threads[i := ReviveWriterLocked];
    assert ThreadStep(t, i, Good, catchup) == At(revived, i, ReviveWriterLocked);
    LastSteps(revived, i, catchup, n - 1);
  }

  lemma LastSteps(s: Life, i: nat, catchup: nat, n: nat)
    requires i < |s.threads| && s.present && n >= 2
    ensures Undisturbed(At(s, i, ReviveWriterLocked), i, catchup, n)
         == s.(threads := s.threads[i := Done], writerLive := true, alive := true)
  {
    var reader, both := At(s, i, ReviveWriterLocked), s.(writerLive := true);
    assert reader.threads[i := StoringAlive] == s.threads[i := StoringAlive];
    assert ThreadStep(reader, i, Good, catchup) == At(both, i, StoringAlive);
    assert At(both, i, StoringAlive).threads[i := Done] == s.threads[i := Done];
    var done := At(both, i, Done).(alive := true);
    assert ThreadStep(At(both, i, StoringAlive), i, Good, catchup) == done;
    assert Undisturbed(done, i, catchup, n - 2) == done;
    assert Undisturbed(At(both, i, StoringAlive), i, catchup, n - 1) == done;
  }

  /** The same attempt answered with a refusal of the key ends the session after four steps. */
  lemma ARefusedAttemptEndsTheSession(s: Life, i: nat)
    requires i < |s.threads| && s.threads[i] == Connecting
    ensures var t := ThreadStep(s, i, Refusal, 0);
            t.threads[i] != Done
            && ThreadStep(t, i, Good, 0) == s.(threads := s.threads[i := Done], shutting := true)
  {
  }

  // ---------------------------------------------------------------- how a call comes back

  /** Each turn of a write looks at `shutting_down` first: over, the call returns; otherwise the writer is tried. */
  lemma AWriteGivesUpExactly(s: Life)
    requires s.main.WriteHead?
    ensures MainEnabled(s)
    ensures MainStep(s).main == Idle <==> s.shutting
    ensures MainStep(s) == s.(main := if s.shutting then Idle else WriteLocked(s.main.packet))
  {
  }

  /** No call is made: whatever the main thread does belongs to the call it is in. */
  predicate NoCall(steps: seq<Step>) {
    forall i :: 0 <= i < |steps| ==> !steps[i].MainCall?
  }

  /** The main thread is closing the connection, which had `n` reconnect threads so far, or is back from that. */
  predicate ClosingFrom(s: Life, n: nat) {
    match s.main
    case TakeHandle(k) => k == Return && |s.threads| == n
    case Joining(k, _) => k == Return && |s.threads| == n
    case Invalidating(k) => k == Return && |s.threads| == n
    case MarkingDead(k) => k == Return && |s.threads| == n && !s.writerLive && !s.readerLive
    case CheckingShutdown(k) => k == Return && |s.threads| == n && !s.writerLive && !s.readerLive
    case Spawning(k) => k == Return && |s.threads| == n
    case StoringHandle(k, i) => k == Return && |s.threads| == n + 1 && i == n
    case Idle => s.shutting || (|s.threads| == n + 1 && s.handle == Some(n))
    case _ => false
  }

  lemma StepKeepsClosing(s: Life, step: Step, n: nat)
    requires LifeInv(s) && ClosingFrom(s, n) && Enabled(s, step) && !step.MainCall?
    ensures ClosingFrom(Next(s, step), n)
  {
    if step.ThreadGo? {
      assert ThreadOk(s, step.thread);
    }
  }

  /** A read that fails, or a call that asks for it, closes the connection: when the main thread is back from it, it has
      stored the handle of a new reconnect thread, unless the session is over. */
  lemma {:induction false} AFailedReadReconnects(before: seq<Step>, first: Step, more: seq<Step>)
    requires (first.MainRead? && first.failed) || first == MainCall(CallClose)
    requires Play(before + [first] + more).Some? && NoCall(more)
    ensures Play(before).Some?
    ensures ClosingFrom(Play(before + [first] + more).value, |Play(before).value.threads|)
  {
    var steps := before + [first] + more;
    if more == [] {
      assert steps[..|steps| - 1] == before;
    } else {
      var fewer := more[..|more| - 1];
      assert steps[..|steps| - 1] == before + [first] + fewer;
      AFailedReadReconnects(before, first, fewer);
      RunsKeepLifeInv(steps[..|steps| - 1]);
      StepKeepsClosing(Play(steps[..|steps| - 1]).value, steps[|steps| - 1], |Play(before).value.threads|);
    }
  }

  /** The main thread is shutting the session down, or back from that with nothing left of it. */
  ghost predicate ShuttingDown(s: Life) {
    match s.main
    case ShutStoring => true
    case TakeHandle(k) => k == FinishShutdown && s.shutting
    case Joining(k, _) => k == FinishShutdown && s.shutting
    case Clearing => s.shutting
    case ShutMarking => s.shutting && !s.present && !s.writerLive && !s.readerLive
    case Idle => s.shutting && !s.present && !s.writerLive && !s.readerLive && !s.alive
                 && forall i :: 0 <= i < |s.threads| ==> s.threads[i] == Done
    case _ => false
  }

  lemma MainStepKeepsShuttingDown(s: Life)
    requires LifeInv(s) && ShuttingDown(s) && MainEnabled(s)
    ensures ShuttingDown(MainStep(s))
  {
    if s.main.ShutMarking? {
      forall i | 0 <= i < |s.threads|
        ensures s.threads[i] == Done
      {
        assert ThreadOk(s, i);
      }
    }
  }

  lemma ThreadsKeepShuttingDown(s: Life, i: nat, reply: Reply, catchup: nat)
    requires LifeInv(s) && ShuttingDown(s) && Enabled(s, ThreadGo(i, reply, catchup))
    ensures ShuttingDown(ThreadStep(s, i, reply, catchup))
  {
    ThreadsLeaveMain(s, i, reply, catchup);
    assert ThreadOk(s, i);
  }

  /** A call of `shutdown` that returns has ended everything: both ends are cleared and no thread is left. */
  lemma {:induction false} ShutdownEndsEverything(before: seq<Step>, more: seq<Step>)
    requires Play(before + [MainCall(CallShutdown)] + more).Some? && NoCall(more)
    ensures ShuttingDown(Play(before + [MainCall(CallShutdown)] + more).value)
  {
    var steps := before + [MainCall(CallShutdown)] + more;
    if more == [] {
      assert steps[..|steps| - 1] == before;
    } else {
      var fewer, last := more[..|more| - 1], more[|more| - 1];
      assert steps[..|steps| - 1] == before + [MainCall(CallShutdown)] + fewer;
      ShutdownEndsEverything(before, fewer);
      var s := Play(steps[..|steps| - 1]).value;
      RunsKeepLifeInv(steps[..|steps| - 1]);
      match last
      case ThreadGo(i, reply, catchup) => ThreadsKeepShuttingDown(s, i, reply, catchup);
      case MainGo => MainStepKeepsShuttingDown(s);
      case _ =>
    }
  }

  /** One of these steps is a write that settles the call. */
  predicate Settles(steps: seq<Step>) {
    exists i :: 0 <= i < |steps| && steps[i].MainWrite? && (steps[i].state == Success || steps[i].state == BufferedOnly)
  }

  /** The main thread is writing `p`, reconnecting in order to write it again, or back from that. */
  predicate WritingFrom(s: Life, p: Packet, settled: bool) {
    match s.main
    case WriteHead(q) => q == p
    case WriteLocked(q) => q == p
    case TakeHandle(k) => k == RetryWrite(p)
    case Joining(k, _) => k == RetryWrite(p)
    case Invalidating(k) => k == RetryWrite(p)
    case MarkingDead(k) => k == RetryWrite(p)
    case CheckingShutdown(k) => k == RetryWrite(p)
    case Spawning(k) => k == RetryWrite(p)
    case StoringHandle(k, _) => k == RetryWrite(p)
    case Idle => s.shutting || settled
    case _ => false
  }

  lemma StepKeepsWriting(s: Life, step: Step, p: Packet, settled: bool)
    requires WritingFrom(s, p, settled) && Enabled(s, step) && !step.MainCall?
    ensures WritingFrom(Next(s, step), p, settled || Settles([step]))
  {
    match step
    case ThreadGo(i, reply, catchup) => ThreadsLeaveMain(s, i, reply, catchup);
    case MainGo => MainStepKeepsWriting(s, p, settled);
    case MainWrite(_, _) => assert [step][0] == step;
    case MainRead(_, _) => assert false;
  }

  lemma ThreadsLeaveMain(s: Life, i: nat, reply: Reply, catchup: nat)
    requires Enabled(s, ThreadGo(i, reply, catchup))
    ensures ThreadStep(s, i, reply, catchup).main == s.main
    ensures s.shutting ==> ThreadStep(s, i, reply, catchup).shutting
  {
  }

  lemma MainStepKeepsWriting(s: Life, p: Packet, settled: bool)
    requires WritingFrom(s, p, settled) && MainEnabled(s)
    ensures WritingFrom(MainStep(s), p, settled)
  {
  }

  /** A write call goes on, skipped or failed, until the packet is sent or buffered, or the session is over. */
  lemma {:induction false} AWriteIsTriedUntilItSettles(before: seq<Step>, p: Packet, more: seq<Step>)
    requires Play(before + [MainCall(CallWrite(p))] + more).Some? && NoCall(more)
    ensures WritingFrom(Play(before + [MainCall(CallWrite(p))] + more).value, p, Settles(more))
  {
    var steps := before + [MainCall(CallWrite(p))] + more;
    if more == [] {
      assert steps[..|steps| - 1] == before;
    } else {
      var fewer, last := more[..|more| - 1], more[|more| - 1];
      assert steps[..|steps| - 1] == before + [MainCall(CallWrite(p))] + fewer;
      AWriteIsTriedUntilItSettles(before, p, fewer);
      StepKeepsWriting(Play(steps[..|steps| - 1]).value, last, p, Settles(fewer));
      assert Settles(fewer) || Settles([last]) ==> Settles(more) by {
        assert forall i :: 0 <= i < |fewer| ==> fewer[i] == more[i];
      }
      SettledStays(Next(Play(steps[..|steps| - 1]).value, last), p, Settles(fewer) || Settles([last]), Settles(more));
    }
  }

  lemma SettledStays(s: Life, p: Packet, settled: bool, later: bool)
    requires WritingFrom(s, p, settled) && (settled ==> later)
    ensures WritingFrom(s, p, later)
  {
  }
}
