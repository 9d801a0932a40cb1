/** The keepalive part of the session loop, and why a forced reconnect is never premature. */
module Keepalive {
  const TICKS_PER_SECOND: nat := 1_000_000_000

  /** The interval in seconds, clamped to one to five. */
  function Interval(seconds: nat): (d: nat)
    ensures TICKS_PER_SECOND <= d <= 5 * TICKS_PER_SECOND
    ensures 1 <= seconds <= 5 ==> d == seconds * 1_000_000_000
    ensures seconds < 1 ==> d == 1_000_000_000
    ensures seconds > 5 ==> d == 5_000_000_000
  {
    (if seconds < 1 then 1 else if seconds > 5 then 5 else seconds) * TICKS_PER_SECOND
  }

  /** A packet the loop reads: terminal data (well-formed or not), a keepalive, or anything else. */
  datatype Incoming = TerminalData | BadTerminalData | KeepAlive | Other

  datatype Input = NoInput | Typed | InputError

  /** What one pass of the loop finds: the packets there are if it sees the socket up, and the local input. */
  datatype Pass = Pass(socketUp: bool, packets: seq<Incoming>, input: Input)

  /** What the loop does that matters here. `check` is the reading compared with the deadline, `reset` the reading a
      new deadline is counted from. */
  datatype Event =
    | Sent(check: nat, reset: nat)     // a keepalive was written
    | Forced(check: nat, reset: nat)   // a reconnect was forced
    | Heard                            // a KEEP_ALIVE was received
    | SocketDown                       // a pass saw the socket down
    | Activity(reset: nat)             // terminal data was shown or local input was sent

  predicate Monotone(clock: seq<nat>) {
    forall i, j :: 0 <= i <= j < |clock| ==> clock[i] <= clock[j]
  }

  /** The `k`-th reading of the clock; past the last one it stands still. */
  function Reading(clock: seq<nat>, k: nat): nat
    requires clock != []
  {
    if k < |clock| then clock[k] else clock[|clock| - 1]
  }

  predicate Resets(e: Event) {
    e.Sent? || e.Forced? || e.Activity?
  }

  /** The reading the current deadline is counted from. */
  function LatestReset(trace: seq<Event>, start: nat): nat {
    if trace == [] then start
    else
      var last := trace[|trace| - 1];
      if Resets(last) then last.reset else LatestReset(trace[..|trace| - 1], start)
  }

  /** Whether a keepalive is outstanding. */
  function Waiting(trace: seq<Event>): bool {
    if trace == [] then false
    else
      match trace[|trace| - 1]
      case Sent(_, _) => true
      case Activity(_) => Waiting(trace[..|trace| - 1])
      case _ => false
  }

  /** The loop's own account of each keepalive and each forced reconnect. */
  predicate Faithful(trace: seq<Event>, start: nat, interval: nat) {
    forall i :: 0 <= i < |trace| && (trace[i].Sent? || trace[i].Forced?) ==>
      trace[i].check >= LatestReset(trace[..i], start) + interval && trace[i].Forced? == Waiting(trace[..i])
  }

  /** Readings only grow along the trace, and stay at or below `now`. */
  predicate Timed(trace: seq<Event>, start: nat, now: nat) {
    && start <= now
    && (forall i :: 0 <= i < |trace| && Resets(trace[i]) ==> start <= trace[i].reset <= now)
    && (forall i, j :: 0 <= i < j < |trace| && Resets(trace[i]) && Resets(trace[j]) ==>
        trace[i].reset <= trace[j].reset)
  }

  lemma FaithfulSnoc(trace: seq<Event>, e: Event, start: nat, interval: nat)
    requires Faithful(trace, start, interval)
    requires e.Sent? || e.Forced? ==> e.check >= LatestReset(trace, start) + interval && e.Forced? == Waiting(trace)
    ensures Faithful(trace + [e], start, interval)
  {
    var more := trace + [e];
    forall i | 0 <= i < |more| && (more[i].Sent? || more[i].Forced?)
      ensures more[i].check >= LatestReset(more[..i], start) + interval && more[i].Forced? == Waiting(more[..i])
    {
      assert more[..i] == trace[..i];
      if i == |trace| {
        assert trace[..i] == trace;
      }
    }
  }

  /** The loop state: where the trace stands, and the two variables that stand for it. */
  predicate Tracks(trace: seq<Event>, start: nat, interval: nat, deadline: nat, waiting: bool, now: nat) {
    && Faithful(trace, start, interval) && Timed(trace, start, now)
    && deadline == LatestReset(trace, start) + interval && waiting == Waiting(trace)
  }

  lemma TracksSnoc(trace: seq<Event>, e: Event, start: nat, interval: nat, deadline: nat, waiting: bool, now: nat,
                   later: nat)
    requires Tracks(trace, start, interval, deadline, waiting, now) && now <= later
    requires Resets(e) ==> now <= e.reset <= later
    requires e.Sent? || e.Forced? ==> e.check >= deadline && e.Forced? == waiting
    ensures Tracks(trace + [e], start, interval, if Resets(e) then e.reset + interval else deadline,
                   match e case Sent(_, _) => true case Activity(_) => waiting case _ => false, later)
  {
    FaithfulSnoc(trace, e, start, interval);
    assert (trace + [e])[..|trace|] == trace;
  }

  // ---------------------------------------------------------------- the loop as a value

  /** The loop's variables: the deadline, whether a keepalive is outstanding, how many clock readings were taken,
      whether the loop was left, and its account. */
  datatype Loop = Loop(deadline: nat, waiting: bool, ticks: nat, ended: bool, trace: seq<Event>)

  datatype Setting = Setting(interval: nat, console: bool, clock: seq<nat>)

  predicate SettingOk(c: Setting) {
    c.clock != [] && Monotone(c.clock)
  }

  function Begin(c: Setting): Loop
    requires SettingOk(c)
  {
    Loop(Reading(c.clock, 0) + c.interval, false, 1, false, [])
  }

  function Active(c: Setting, l: Loop): Loop
    requires SettingOk(c)
  {
    var t := Reading(c.clock, l.ticks);
    l.(deadline := t + c.interval, ticks := l.ticks + 1, trace := l.trace + [Activity(t)])
  }

  function TakePacket(c: Setting, l: Loop, p: Incoming): Loop
    requires SettingOk(c)
  {
    if l.ended then l
    else match p
      case TerminalData => if c.console then Active(c, l) else l
      case BadTerminalData => if c.console then l.(ended := true) else l
      case KeepAlive => l.(waiting := false, trace := l.trace + [Heard])
      case Other => l
  }

  function TakePackets(c: Setting, l: Loop, packets: seq<Incoming>): Loop
    requires SettingOk(c)
  {
    if packets == [] then l else TakePacket(c, TakePackets(c, l, packets[..|packets| - 1]), packets[|packets| - 1])
  }

  function CheckDeadline(c: Setting, l: Loop): Loop
    requires SettingOk(c)
  {
    if l.ended then l
    else
      var check, t := Reading(c.clock, l.ticks), Reading(c.clock, l.ticks + 1);
      if check < l.deadline then l.(ticks := l.ticks + 1)
      else l.(deadline := t + c.interval, waiting := !l.waiting, ticks := l.ticks + 2,
              trace := l.trace + [if l.waiting then Forced(check, t) else Sent(check, t)])
  }

  function TakeInput(c: Setting, l: Loop, input: Input): Loop
    requires SettingOk(c)
  {
    if l.ended || !c.console then l
    else match input
      case Typed => Active(c, l)
      case NoInput => l
      case InputError => l.(ended := true)
  }

  function TakePass(c: Setting, l: Loop, pass: Pass): Loop
    requires SettingOk(c)
  {
    if l.ended then l
    else TakeInput(c, if pass.socketUp then CheckDeadline(c, TakePackets(c, l, pass.packets))
                      else l.(waiting := false, trace := l.trace + [SocketDown]), pass.input)
  }

  function RunPasses(c: Setting, passes: seq<Pass>): Loop
    requires SettingOk(c)
  {
    if passes == [] then Begin(c) else TakePass(c, RunPasses(c, passes[..|passes| - 1]), passes[|passes| - 1])
  }

  /** Once left, the loop stays left. */
  lemma {:induction false} EndedStays(c: Setting, passes: seq<Pass>, n: nat)
    requires SettingOk(c) && n <= |passes| && RunPasses(c, passes[..n]).ended
    ensures RunPasses(c, passes) == RunPasses(c, passes[..n])
    decreases |passes|
  {
    if n == |passes| {
      assert passes[..n] == passes;
    } else {
      assert passes[..|passes| - 1][..n] == passes[..n];
      EndedStays(c, passes[..|passes| - 1], n);
    }
  }

  lemma {:induction false} PacketsEndedStays(c: Setting, l: Loop, packets: seq<Incoming>, n: nat)
    requires SettingOk(c) && n <= |packets| && TakePackets(c, l, packets[..n]).ended
    ensures TakePackets(c, l, packets) == TakePackets(c, l, packets[..n])
    decreases |packets|
  {
    if n == |packets| {
      assert packets[..n] == packets;
    } else {
      assert packets[..|packets| - 1][..n] == packets[..n];
      PacketsEndedStays(c, l, packets[..|packets| - 1], n);
    }
  }

  // ---------------------------------------------------------------- the loop as it runs

  /** Reads packets until there are none; false means that the session ends on a malformed one. */
  method Drain(ghost c: Setting, interval: nat, console: bool, clock: seq<nat>, packets: seq<Incoming>, ghost l: Loop,
               deadline0: nat, waiting0: bool, ticks0: nat)
    returns (deadline: nat, waiting: bool, ticks: nat, ok: bool, ghost trace: seq<Event>)
    requires c == Setting(interval, console, clock) && SettingOk(c)
             && l == Loop(deadline0, waiting0, ticks0, false, l.trace)
    ensures var m := TakePackets(c, l, packets);
            deadline == m.deadline && waiting == m.waiting && ticks == m.ticks && ok == !m.ended
    ensures trace == TakePackets(c, l, packets).trace
  {
    deadline, waiting, ticks, ok, trace := deadline0, waiting0, ticks0, true, l.trace;
    for k := 0 to |packets|
      invariant TakePackets(c, l, packets[..k]) == Loop(deadline, waiting, ticks, false, trace) && ok
    {
      assert packets[..k + 1][..k] == packets[..k];
      match packets[k] {
        case TerminalData =>
          if console {
            var now := Reading(clock, ticks);
            deadline, ticks, trace := now + interval, ticks + 1, trace + [Activity(now)];
          }
        case BadTerminalData =>
          if console {
            PacketsEndedStays(c, l, packets, k + 1);
            ok := false;
            return;
          }
        case KeepAlive =>
          waiting, trace := false, trace + [Heard];
        case Other =>
      }
    }
    assert packets[..|packets|] == packets;
  }

  /** One pass of the loop: the network, the keepalive, the local input. */
  method OnePass(ghost c: Setting, interval: nat, console: bool, clock: seq<nat>, pass: Pass, ghost l: Loop,
                 deadline0: nat, waiting0: bool, ticks0: nat)
    returns (deadline: nat, waiting: bool, ticks: nat, ended: bool, ghost trace: seq<Event>)
    requires c == Setting(interval, console, clock) && SettingOk(c)
             && l == Loop(deadline0, waiting0, ticks0, false, l.trace)
    ensures var m := TakePass(c, l, pass);
            deadline == m.deadline && waiting == m.waiting && ticks == m.ticks && ended == m.ended
    ensures trace == TakePass(c, l, pass).trace
  {
    deadline, waiting, ticks, ended, trace := deadline0, waiting0, ticks0, false, l.trace;
    if pass.socketUp {
      var ok;
      deadline, waiting, ticks, ok, trace :=
        Drain(c, interval, console, clock, pass.packets, l, deadline, waiting, ticks);
      if !ok {
        ended := true;
        return;
      }
      var check := Reading(clock, ticks);
      ticks := ticks + 1;
      if check >= deadline {
        var now := Reading(clock, ticks);
        trace := trace + [if waiting then Forced(check, now) else Sent(check, now)];
        deadline, ticks := now + interval, ticks + 1;
        waiting := !waiting;
      }
    } else {
      waiting, trace := false, trace + [SocketDown];
    }
    if console {
      match pass.input {
        case Typed =>
          var now := Reading(clock, ticks);
          deadline, ticks, trace := now + interval, ticks + 1, trace + [Activity(now)];
        case NoInput =>
        case InputError => ended := true;
      }
    }
  }

  /** The session loop. Each `Instant::now()` takes the next reading. */
  method RunSession(seconds: nat, console: bool, clock: seq<nat>, passes: seq<Pass>)
    returns (deadline: nat, waiting: bool, ticks: nat, ended: bool, ghost trace: seq<Event>)
    requires SettingOk(Setting(Interval(seconds), console, clock))
    ensures var m := RunPasses(Setting(Interval(seconds), console, clock), passes);
            deadline == m.deadline && waiting == m.waiting && ticks == m.ticks && ended == m.ended
    ensures trace == RunPasses(Setting(Interval(seconds), console, clock), passes).trace
  {
    var interval := Interval(seconds);
    ghost var c := Setting(interval, console, clock);
    deadline, waiting, ticks, ended, trace := Reading(clock, 0) + interval, false, 1, false, [];
    for i := 0 to |passes|
      invariant RunPasses(c, passes[..i]) == Loop(deadline, waiting, ticks, ended, trace) && !ended
    {
      assert passes[..i + 1][..i] == passes[..i];
      ghost var l := RunPasses(c, passes[..i]);
      deadline, waiting, ticks, ended, trace :=
        OnePass(c, interval, console, clock, passes[i], l, deadline, waiting, ticks);
      assert RunPasses(c, passes[..i + 1]) == TakePass(c, l, passes[i]);
      if ended {
        EndedStays(c, passes, i + 1);
        return;
      }
    }
    assert passes[..|passes|] == passes;
  }

  // ---------------------------------------------------------------- every run gives a faithful account

  ghost predicate Sound(c: Setting, l: Loop)
    requires SettingOk(c)
  {
    l.ticks >= 1 && Tracks(l.trace, c.clock[0], c.interval, l.deadline, l.waiting, Reading(c.clock, l.ticks - 1))
  }

  lemma ReadingsGrow(clock: seq<nat>, i: nat, j: nat)
    requires clock != [] && Monotone(clock) && i <= j
    ensures Reading(clock, i) <= Reading(clock, j)
  {
  }

  lemma ActiveIsSound(c: Setting, l: Loop)
    requires SettingOk(c) && Sound(c, l)
    ensures Sound(c, Active(c, l))
  {
    var t := Reading(c.clock, l.ticks);
    ReadingsGrow(c.clock, l.ticks - 1, l.ticks);
    TracksSnoc(l.trace, Activity(t), c.clock[0], c.interval, l.deadline, l.waiting, Reading(c.clock, l.ticks - 1), t);
  }

  lemma HeardIsSound(c: Setting, l: Loop)
    requires SettingOk(c) && Sound(c, l)
    ensures Sound(c, l.(waiting := false, trace := l.trace + [Heard]))
  {
    var now := Reading(c.clock, l.ticks - 1);
    TracksSnoc(l.trace, Heard, c.clock[0], c.interval, l.deadline, l.waiting, now, now);
  }

  lemma SocketDownIsSound(c: Setting, l: Loop)
    requires SettingOk(c) && Sound(c, l)
    ensures Sound(c, l.(waiting := false, trace := l.trace + [SocketDown]))
  {
    var now := Reading(c.clock, l.ticks - 1);
    TracksSnoc(l.trace, SocketDown, c.clock[0], c.interval, l.deadline, l.waiting, now, now);
  }

  lemma {:induction false} PacketsAreSound(c: Setting, l: Loop, packets: seq<Incoming>)
    requires SettingOk(c) && Sound(c, l)
    ensures Sound(c, TakePackets(c, l, packets))
  {
    if packets != [] {
      var before, p := packets[..|packets| - 1], packets[|packets| - 1];
      PacketsAreSound(c, l, before);
      var m := TakePackets(c, l, before);
      if !m.ended && p == TerminalData && c.console {
        ActiveIsSound(c, m);
      } else if !m.ended && p == KeepAlive {
        HeardIsSound(c, m);
      }
      assert Sound(c, TakePacket(c, m, p));
    }
  }

  /** Time passing keeps the account. */
  lemma TracksLater(trace: seq<Event>, start: nat, interval: nat, deadline: nat, waiting: bool, now: nat, later: nat)
    requires Tracks(trace, start, interval, deadline, waiting, now) && now <= later
    ensures Tracks(trace, start, interval, deadline, waiting, later)
  {
  }

  lemma DueIsSound(c: Setting, l: Loop, check: nat, t: nat)
    requires SettingOk(c) && Sound(c, l) && check >= l.deadline
    requires Reading(c.clock, l.ticks - 1) <= t == Reading(c.clock, l.ticks + 1)
    ensures Sound(c,
                  Loop(t + c.interval, !l.waiting, l.ticks + 2, false,
                       l.trace + [if l.waiting then Forced(check, t) else Sent(check, t)]))
  {
    var now := Reading(c.clock, l.ticks - 1);
    if l.waiting {
      TracksSnoc(l.trace, Forced(check, t), c.clock[0], c.interval, l.deadline, l.waiting, now, t);
    } else {
      TracksSnoc(l.trace, Sent(check, t), c.clock[0], c.interval, l.deadline, l.waiting, now, t);
    }
  }

  lemma NotDueIsSound(c: Setting, l: Loop)
    requires SettingOk(c) && Sound(c, l)
    ensures Sound(c, l.(ticks := l.ticks + 1))
  {
    ReadingsGrow(c.clock, l.ticks - 1, l.ticks);
    TracksLater(l.trace, c.clock[0], c.interval, l.deadline, l.waiting, Reading(c.clock, l.ticks - 1),
                Reading(c.clock, l.ticks));
  }

  lemma CheckIsSound(c: Setting, l: Loop)
    requires SettingOk(c) && Sound(c, l)
    ensures Sound(c, CheckDeadline(c, l))
  {
    var check, t := Reading(c.clock, l.ticks), Reading(c.clock, l.ticks + 1);
    if check >= l.deadline {
      ReadingsGrow(c.clock, l.ticks - 1, l.ticks + 1);
      DueIsSound(c, l, check, t);
    } else {
      NotDueIsSound(c, l);
    }
  }

  lemma {:induction false} RunsAreSound(c: Setting, passes: seq<Pass>)
    requires SettingOk(c)
    ensures Sound(c, RunPasses(c, passes))
  {
    if passes != [] {
      var before, pass := passes[..|passes| - 1], passes[|passes| - 1];
      RunsAreSound(c, before);
      var l := RunPasses(c, before);
      PassIsSound(c, l, pass);
      assert RunPasses(c, passes) == TakePass(c, l, pass);
    }
  }

  lemma InputIsSound(c: Setting, l: Loop, input: Input)
    requires SettingOk(c) && Sound(c, l)
    ensures Sound(c, TakeInput(c, l, input))
  {
    if !l.ended && c.console && input == Typed {
      ActiveIsSound(c, l);
    }
    assert Sound(c, TakeInput(c, l, input));
  }

  lemma PassIsSound(c: Setting, l: Loop, pass: Pass)
    requires SettingOk(c) && Sound(c, l)
    ensures Sound(c, TakePass(c, l, pass))
  {
    if !l.ended {
      if pass.socketUp {
        PacketsAreSound(c, l, pass.packets);
        CheckIsSound(c, TakePackets(c, l, pass.packets));
        InputIsSound(c, CheckDeadline(c, TakePackets(c, l, pass.packets)), pass.input);
      } else {
        SocketDownIsSound(c, l);
        InputIsSound(c, l.(waiting := false, trace := l.trace + [SocketDown]), pass.input);
      }
    }
    assert Sound(c, TakePass(c, l, pass));
  }

  // ---------------------------------------------------------------- what the account means

  lemma {:induction false} OutstandingKeepalive(trace: seq<Event>) returns (j: nat)
    requires Waiting(trace)
    ensures j < |trace| && trace[j].Sent? && forall k :: j < k < |trace| ==> trace[k].Activity?
  {
    var n := |trace| - 1;
    if trace[n].Sent? {
      j := n;
    } else {
      j := OutstandingKeepalive(trace[..n]);
    }
  }

  lemma {:induction false} ResetsBound(trace: seq<Event>, start: nat, now: nat, j: nat)
    requires Timed(trace, start, now) && j < |trace| && Resets(trace[j])
    ensures trace[j].reset <= LatestReset(trace, start)
    decreases |trace|
  {
    var n := |trace| - 1;
    if !Resets(trace[n]) {
      assert forall i :: 0 <= i < n ==> trace[..n][i] == trace[i];
      ResetsBound(trace[..n], start, now, j);
    }
  }

  lemma TimedPrefix(trace: seq<Event>, start: nat, now: nat, n: nat)
    requires Timed(trace, start, now) && n <= |trace|
    ensures Timed(trace[..n], start, now)
  {
  }

  /** Over every run of the session loop on a monotone clock: a reconnect is forced only after a keepalive was written,
      with no KEEP_ALIVE received since, no pass having seen the socket down since, no other keepalive or forced
      reconnect in between, and a full clamped interval after every earlier reset of the deadline, whatever reset it;
      so in particular a full interval after the keepalive itself. */
  lemma ForcedReconnectIsJustified(c: Setting, passes: seq<Pass>, i: nat) returns (j: nat)
    requires SettingOk(c) && i < |RunPasses(c, passes).trace| && RunPasses(c, passes).trace[i].Forced?
    ensures var trace := RunPasses(c, passes).trace;
            && j < i && trace[j].Sent?
            && (forall k :: j < k < i ==>
                !trace[k].Heard? && !trace[k].SocketDown? && !trace[k].Sent? && !trace[k].Forced?)
            && trace[i].check >= trace[j].reset + c.interval
            && (forall k :: 0 <= k < i && Resets(trace[k]) ==> trace[i].check >= trace[k].reset + c.interval)
  {
    RunsAreSound(c, passes);
    var l := RunPasses(c, passes);
    var trace, now := l.trace, Reading(c.clock, l.ticks - 1);
    var before := trace[..i];
    j := OutstandingKeepalive(before);
    assert forall k :: 0 <= k < i ==> before[k] == trace[k];
    TimedPrefix(trace, c.clock[0], now, i);
    forall k | 0 <= k < i && Resets(trace[k])
      ensures trace[i].check >= trace[k].reset + c.interval
    {
      ResetsBound(before, c.clock[0], now, k);
    }
  }

  /** And it is forced as soon as that is so: at the check of every pass, after its packets, exactly when a keepalive is
      outstanding and the reading has reached a full interval after the latest reset. */
  lemma DeadlineDecides(c: Setting, passes: seq<Pass>, packets: seq<Incoming>)
    requires SettingOk(c) && !TakePackets(c, RunPasses(c, passes), packets).ended
    ensures var l := TakePackets(c, RunPasses(c, passes), packets);
            var check, next := Reading(c.clock, l.ticks), CheckDeadline(c, l);
            && (|next.trace| == |l.trace| + 1 <==> check >= LatestReset(l.trace, c.clock[0]) + c.interval)
            && (|next.trace| == |l.trace| + 1 ==> next.trace[|l.trace|].Forced? == Waiting(l.trace))
  {
    RunsAreSound(c, passes);
    PacketsAreSound(c, RunPasses(c, passes), packets);
  }
}
