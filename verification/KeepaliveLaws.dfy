/** The keepalive told on what each pass of the session loop finds, and not on the loop's own account. */
module KeepaliveLaws {
  import opened Outcomes
  import opened Keepalive

  // ---------------------------------------------------------------- what each thing a pass finds does

  /** The effect of one packet: a KEEP_ALIVE settles the keepalive, terminal data that is shown moves the deadline to
      its reading plus the interval, malformed data ends the session, and nothing else does any of that. */
  lemma EffectOfAPacket(c: Setting, l: Loop, p: Incoming)
    requires SettingOk(c) && !l.ended
    ensures var m := TakePacket(c, l, p);
            && m.waiting == (l.waiting && p != KeepAlive)
            && m.ended == (c.console && p == BadTerminalData)
            && m.deadline
               == (if c.console && p == TerminalData then Reading(c.clock, l.ticks) + c.interval else l.deadline)
            && m.ticks == (if c.console && p == TerminalData then l.ticks + 1 else l.ticks)
  {
  }

  /** The effect of local input: what is typed moves the deadline, a broken console ends the session. */
  lemma EffectOfInput(c: Setting, l: Loop, input: Input)
    requires SettingOk(c) && !l.ended
    ensures var m := TakeInput(c, l, input);
            && m.waiting == l.waiting
            && m.ended == (c.console && input == InputError)
            && m.deadline
               == (if c.console && input == Typed then Reading(c.clock, l.ticks) + c.interval else l.deadline)
            && m.ticks == (if c.console && input == Typed then l.ticks + 1 else l.ticks)
  {
  }

  /** After the packets of a pass a keepalive is outstanding if it was and none of them is a KEEP_ALIVE. */
  lemma {:induction false} HearingSettles(c: Setting, l: Loop, packets: seq<Incoming>)
    requires SettingOk(c) && !TakePackets(c, l, packets).ended
    ensures !l.ended && TakePackets(c, l, packets).waiting == (l.waiting && KeepAlive !in packets)
  {
    if packets != [] {
      var before, p := packets[..|packets| - 1], packets[|packets| - 1];
      assert packets == before + [p];
      HearingSettles(c, l, before);
      EffectOfAPacket(c, TakePackets(c, l, before), p);
    }
  }

  // ---------------------------------------------------------------- the stages of a pass

  function Start(c: Setting, passes: seq<Pass>, p: nat): Loop
    requires SettingOk(c) && p <= |passes|
  {
    RunPasses(c, passes[..p])
  }

  /** After the packets of pass `p`. */
  function Drained(c: Setting, passes: seq<Pass>, p: nat): Loop
    requires SettingOk(c) && p < |passes|
  {
    TakePackets(c, Start(c, passes, p), passes[p].packets)
  }

  /** The reading that pass `p` compares with the deadline. */
  function CheckReading(c: Setting, passes: seq<Pass>, p: nat): nat
    requires SettingOk(c) && p < |passes|
  {
    Reading(c.clock, Drained(c, passes, p).ticks)
  }

  /** After the check of pass `p`, or after it found the socket down. */
  function Checked(c: Setting, passes: seq<Pass>, p: nat): Loop
    requires SettingOk(c) && p < |passes|
  {
    var l := Start(c, passes, p);
    if passes[p].socketUp then CheckDeadline(c, Drained(c, passes, p))
    else l.(waiting := false, trace := l.trace + [SocketDown])
  }

  lemma PassStages(c: Setting, passes: seq<Pass>, p: nat)
    requires SettingOk(c) && p < |passes| && !Start(c, passes, p).ended
    ensures Start(c, passes, p + 1) == TakeInput(c, Checked(c, passes, p), passes[p].input)
  {
    assert passes[..p + 1][..p] == passes[..p] && passes[..p + 1][p] == passes[p];
  }

  /** What pass `p` does at its check, as it is recorded: the one event its check adds, if any. */
  function Act(c: Setting, passes: seq<Pass>, p: nat): Option<Event>
    requires SettingOk(c) && p < |passes|
  {
    var before, after := Drained(c, passes, p).trace, Checked(c, passes, p).trace;
    if passes[p].socketUp && |after| > |before| then Some(after[|after| - 1]) else None
  }

  predicate Sends(c: Setting, passes: seq<Pass>, p: nat)
    requires SettingOk(c) && p < |passes|
  {
    Act(c, passes, p).Some? && Act(c, passes, p).value.Sent?
  }

  predicate Forces(c: Setting, passes: seq<Pass>, p: nat)
    requires SettingOk(c) && p < |passes|
  {
    Act(c, passes, p).Some? && Act(c, passes, p).value.Forced?
  }

  /** Pass `p` gets to its check, and the deadline is over. */
  predicate Due(c: Setting, passes: seq<Pass>, p: nat)
    requires SettingOk(c) && p < |passes|
  {
    passes[p].socketUp && !Drained(c, passes, p).ended && CheckReading(c, passes, p) >= Drained(c, passes, p).deadline
  }

  lemma ActExactly(c: Setting, passes: seq<Pass>, p: nat)
    requires SettingOk(c) && p < |passes|
    ensures Forces(c, passes, p) <==> Due(c, passes, p) && Drained(c, passes, p).waiting
    ensures Sends(c, passes, p) <==> Due(c, passes, p) && !Drained(c, passes, p).waiting
    ensures Act(c, passes, p).Some? <==> Due(c, passes, p)
  {
  }

  // ---------------------------------------------------------------- an outstanding keepalive

  /** Nothing in pass `p` settles a keepalive that is outstanding: the socket is up, no KEEP_ALIVE comes, and no
      reconnect is forced. */
  predicate Quiet(c: Setting, passes: seq<Pass>, p: nat)
    requires SettingOk(c) && p < |passes|
  {
    passes[p].socketUp && KeepAlive !in passes[p].packets && !Forces(c, passes, p)
  }

  /** Pass `j` wrote a keepalive, and nothing has settled it before pass `k`. */
  ghost predicate OutstandingFrom(c: Setting, passes: seq<Pass>, j: nat, k: nat)
    requires SettingOk(c) && k <= |passes|
  {
    j < k && Sends(c, passes, j) && forall p :: j < p < k ==> Quiet(c, passes, p)
  }

  lemma WaitingAfterPass(c: Setting, passes: seq<Pass>, p: nat)
    requires SettingOk(c) && p < |passes| && !Start(c, passes, p + 1).ended
    ensures !Start(c, passes, p).ended
    ensures Start(c, passes, p + 1).waiting <==>
              Sends(c, passes, p) || (Start(c, passes, p).waiting && Quiet(c, passes, p))
  {
    StillEnded(c, passes, p);
    PassStages(c, passes, p);
    ActExactly(c, passes, p);
    if passes[p].socketUp {
      HearingSettles(c, Start(c, passes, p), passes[p].packets);
    }
  }

  lemma StillEnded(c: Setting, passes: seq<Pass>, p: nat)
    requires SettingOk(c) && p < |passes|
    ensures Start(c, passes, p).ended ==> Start(c, passes, p + 1).ended
  {
    assert passes[..p + 1][..p] == passes[..p];
  }

  /** A keepalive is outstanding at the start of a pass if and only if some earlier pass wrote one, and since then every
      pass found the socket up, none got a KEEP_ALIVE, and none forced a reconnect. */
  lemma {:induction false} OutstandingExactly(c: Setting, passes: seq<Pass>, k: nat)
    requires SettingOk(c) && k <= |passes| && !Start(c, passes, k).ended
    ensures Start(c, passes, k).waiting <==> exists j :: OutstandingFrom(c, passes, j, k)
  {
    if k > 0 {
      var p := k - 1;
      WaitingAfterPass(c, passes, p);
      OutstandingExactly(c, passes, p);
      if Sends(c, passes, p) {
        assert OutstandingFrom(c, passes, p, k);
      }
      forall j: nat | j < p
        ensures OutstandingFrom(c, passes, j, k) <==> OutstandingFrom(c, passes, j, p) && Quiet(c, passes, p)
      {
      }
    }
  }

  /** A pass forces a reconnect if and only if it gets to its check with the deadline over, none of its own packets is a
      KEEP_ALIVE, and a keepalive is outstanding from an earlier pass. */
  lemma ForcesExactly(c: Setting, passes: seq<Pass>, i: nat)
    requires SettingOk(c) && i < |passes|
    ensures Forces(c, passes, i) <==>
              Due(c, passes, i) && KeepAlive !in passes[i].packets && exists j :: OutstandingFrom(c, passes, j, i)
  {
    ActExactly(c, passes, i);
    if Due(c, passes, i) {
      HearingSettles(c, Start(c, passes, i), passes[i].packets);
      OutstandingExactly(c, passes, i);
    }
  }

  // ---------------------------------------------------------------- a full interval

  /** The deadline is no later than an interval after the latest reading. */
  predicate Timely(c: Setting, l: Loop)
    requires SettingOk(c)
  {
    l.ticks >= 1 && l.deadline <= Reading(c.clock, l.ticks - 1) + c.interval
  }

  /** Later in a run: readings and deadline only grow. */
  predicate Follows(c: Setting, l: Loop, m: Loop)
    requires SettingOk(c)
  {
    Timely(c, m) && l.ticks <= m.ticks && l.deadline <= m.deadline
  }

  lemma ActiveFollows(c: Setting, l: Loop)
    requires SettingOk(c) && Timely(c, l)
    ensures Follows(c, l, Active(c, l)) && Active(c, l).deadline == Reading(c.clock, l.ticks) + c.interval
  {
    ReadingsGrow(c.clock, l.ticks - 1, l.ticks);
  }

  lemma {:induction false} PacketsFollow(c: Setting, l: Loop, packets: seq<Incoming>, q: nat)
    requires SettingOk(c) && Timely(c, l) && q <= |packets|
    ensures Follows(c, l, TakePackets(c, l, packets[..q]))
            && Follows(c, TakePackets(c, l, packets[..q]), TakePackets(c, l, packets))
    decreases |packets|
  {
    if packets == [] {
      assert packets[..q] == packets;
    } else {
      var before, p := packets[..|packets| - 1], packets[|packets| - 1];
      PacketsFollow(c, l, before, if q < |packets| then q else q - 1);
      assert q < |packets| ==> before[..q] == packets[..q];
      assert packets[..|packets|] == packets && before[..|packets| - 1] == before;
      var m := TakePackets(c, l, before);
      if !m.ended && c.console && p == TerminalData {
        ActiveFollows(c, m);
      }
      assert Follows(c, m, TakePacket(c, m, p));
    }
  }

  lemma CheckFollows(c: Setting, l: Loop)
    requires SettingOk(c) && Timely(c, l)
    ensures Follows(c, l, CheckDeadline(c, l))
  {
    ReadingsGrow(c.clock, l.ticks - 1, l.ticks);
    ReadingsGrow(c.clock, l.ticks - 1, l.ticks + 1);
  }

  lemma InputFollows(c: Setting, l: Loop, input: Input)
    requires SettingOk(c) && Timely(c, l)
    ensures Follows(c, l, TakeInput(c, l, input))
  {
    ActiveFollows(c, l);
  }

  lemma StagesFollow(c: Setting, passes: seq<Pass>, p: nat)
    requires SettingOk(c) && p < |passes| && Timely(c, Start(c, passes, p))
    ensures Follows(c, Start(c, passes, p), Drained(c, passes, p))
    ensures Follows(c, Start(c, passes, p), Checked(c, passes, p))
    ensures passes[p].socketUp ==> Follows(c, Drained(c, passes, p), Checked(c, passes, p))
    ensures Follows(c, Start(c, passes, p), Start(c, passes, p + 1))
    ensures !Start(c, passes, p).ended ==> Follows(c, Checked(c, passes, p), Start(c, passes, p + 1))
  {
    var packets := passes[p].packets;
    PacketsFollow(c, Start(c, passes, p), packets, |packets|);
    assert packets[..|packets|] == packets;
    CheckFollows(c, Drained(c, passes, p));
    InputFollows(c, Checked(c, passes, p), passes[p].input);
    if Start(c, passes, p).ended {
      assert passes[..p + 1][..p] == passes[..p];
    } else {
      PassStages(c, passes, p);
    }
  }

  lemma {:induction false} StartsFollow(c: Setting, passes: seq<Pass>, p: nat, i: nat)
    requires SettingOk(c) && p <= i <= |passes|
    ensures Timely(c, Start(c, passes, p)) && Follows(c, Start(c, passes, p), Start(c, passes, i))
    decreases i
  {
    if i == 0 {
      assert passes[..0] == [];
    } else if p < i {
      StartsFollow(c, passes, p, i - 1);
      StagesFollow(c, passes, i - 1);
    } else {
      StartsFollow(c, passes, i - 1, i - 1);
      StagesFollow(c, passes, i - 1);
    }
  }

  /** The reading at which pass `p` showed its `q`-th packet, and at which it sent what was typed. */
  function ShownAt(c: Setting, passes: seq<Pass>, p: nat, q: nat): nat
    requires SettingOk(c) && p < |passes| && q < |passes[p].packets|
  {
    Reading(c.clock, TakePackets(c, Start(c, passes, p), passes[p].packets[..q]).ticks)
  }

  function TypedAt(c: Setting, passes: seq<Pass>, p: nat): nat
    requires SettingOk(c) && p < |passes|
  {
    Reading(c.clock, Checked(c, passes, p).ticks)
  }

  /** The reading from which pass `p` counts the new deadline when its check finds the old one over. */
  function ActedAt(c: Setting, passes: seq<Pass>, p: nat): nat
    requires SettingOk(c) && p < |passes|
  {
    Reading(c.clock, Drained(c, passes, p).ticks + 1)
  }

  // ---------------------------------------------------------------- every activity moves the deadline

  /** A run that is not over was not over before. */
  lemma NotOverBefore(c: Setting, passes: seq<Pass>, p: nat, i: nat)
    requires SettingOk(c) && p <= i <= |passes| && !Start(c, passes, i).ended
    ensures !Start(c, passes, p).ended
  {
    assert passes[..i][..p] == passes[..p];
    if Start(c, passes, p).ended {
      EndedStays(c, passes[..i], p);
    }
  }

  lemma NotOverInPass(c: Setting, passes: seq<Pass>, p: nat)
    requires SettingOk(c) && p < |passes| && !Start(c, passes, p + 1).ended
    ensures !Start(c, passes, p).ended && !Checked(c, passes, p).ended
    ensures passes[p].socketUp ==> !Drained(c, passes, p).ended
  {
    NotOverBefore(c, passes, p, p + 1);
    PassStages(c, passes, p);
  }

  /** Terminal data that is shown keeps the deadline a full interval after its reading. */
  lemma ShowingMovesTheDeadline(c: Setting, passes: seq<Pass>, p: nat, q: nat)
    requires SettingOk(c) && p < |passes| && q < |passes[p].packets| && !Drained(c, passes, p).ended
    requires c.console && passes[p].packets[q] == TerminalData
    ensures Drained(c, passes, p).deadline >= ShownAt(c, passes, p, q) + c.interval
  {
    var l, packets := Start(c, passes, p), passes[p].packets;
    StartsFollow(c, passes, p, p);
    PacketsFollow(c, l, packets, q + 1);
    assert packets[..q + 1][..q] == packets[..q];
    var m := TakePackets(c, l, packets[..q]);
    if m.ended {
      assert packets[..q + 1][..q] == packets[..q];
      PacketsEndedStays(c, l, packets, q);
    }
    EffectOfAPacket(c, m, TerminalData);
    assert TakePackets(c, l, packets[..q + 1]) == TakePacket(c, m, TerminalData);
  }

  /** So does what is typed. */
  lemma TypingMovesTheDeadline(c: Setting, passes: seq<Pass>, p: nat)
    requires SettingOk(c) && p < |passes| && !Start(c, passes, p + 1).ended && c.console && passes[p].input == Typed
    ensures Start(c, passes, p + 1).deadline == TypedAt(c, passes, p) + c.interval
  {
    NotOverInPass(c, passes, p);
    PassStages(c, passes, p);
    EffectOfInput(c, Checked(c, passes, p), Typed);
  }

  /** And so does a keepalive or a forced reconnect. */
  lemma ActingMovesTheDeadline(c: Setting, passes: seq<Pass>, p: nat)
    requires SettingOk(c) && p < |passes| && Act(c, passes, p).Some?
    ensures Checked(c, passes, p).deadline == ActedAt(c, passes, p) + c.interval
  {
  }

  /** A keepalive deadline that is over has been for a full interval after everything that moved it: what was shown, in
      this pass or before, what was typed, and every keepalive and forced reconnect. */
  lemma DueAfterAFullInterval(c: Setting, passes: seq<Pass>, i: nat)
    requires SettingOk(c) && i < |passes| && Due(c, passes, i)
    ensures forall p, q :: 0 <= p <= i && 0 <= q < |passes[p].packets| && passes[p].socketUp && c.console
                           && passes[p].packets[q] == TerminalData ==>
              CheckReading(c, passes, i) >= ShownAt(c, passes, p, q) + c.interval
    ensures forall p :: 0 <= p < i && c.console && passes[p].input == Typed ==>
              CheckReading(c, passes, i) >= TypedAt(c, passes, p) + c.interval
    ensures forall p :: 0 <= p < i && Act(c, passes, p).Some? ==>
              CheckReading(c, passes, i) >= ActedAt(c, passes, p) + c.interval
  {
    NotOverInDue(c, passes, i);
    forall p, q | 0 <= p <= i && 0 <= q < |passes[p].packets| && passes[p].socketUp && c.console
                  && passes[p].packets[q] == TerminalData
      ensures CheckReading(c, passes, i) >= ShownAt(c, passes, p, q) + c.interval
    {
      if p < i {
        DeadlinesReach(c, passes, p, i);
      }
      ShowingMovesTheDeadline(c, passes, p, q);
    }
    forall p | 0 <= p < i && c.console && passes[p].input == Typed
      ensures CheckReading(c, passes, i) >= TypedAt(c, passes, p) + c.interval
    {
      DeadlinesReach(c, passes, p, i);
      TypingMovesTheDeadline(c, passes, p);
    }
    forall p | 0 <= p < i && Act(c, passes, p).Some?
      ensures CheckReading(c, passes, i) >= ActedAt(c, passes, p) + c.interval
    {
      DeadlinesReach(c, passes, p, i);
      ActingMovesTheDeadline(c, passes, p);
    }
  }

  lemma NotOverInDue(c: Setting, passes: seq<Pass>, i: nat)
    requires SettingOk(c) && i < |passes| && !Drained(c, passes, i).ended
    ensures !Start(c, passes, i).ended
  {
    HearingSettles(c, Start(c, passes, i), passes[i].packets);
  }

  /** The deadlines of an earlier pass are no later than the one that a later pass checks. */
  lemma DeadlinesReach(c: Setting, passes: seq<Pass>, p: nat, i: nat)
    requires SettingOk(c) && p < i < |passes| && !Start(c, passes, i).ended
    ensures !Start(c, passes, p + 1).ended && !Checked(c, passes, p).ended
    ensures passes[p].socketUp ==> !Drained(c, passes, p).ended
    ensures Start(c, passes, p + 1).deadline <= Drained(c, passes, i).deadline
    ensures Checked(c, passes, p).deadline <= Drained(c, passes, i).deadline
    ensures passes[p].socketUp ==> Drained(c, passes, p).deadline <= Drained(c, passes, i).deadline
  {
    NotOverBefore(c, passes, p + 1, i);
    NotOverInPass(c, passes, p);
    StartsFollow(c, passes, p, p);
    StagesFollow(c, passes, p);
    StartsFollow(c, passes, p + 1, i);
    StartsFollow(c, passes, i, i);
    StagesFollow(c, passes, i);
  }

  // ---------------------------------------------------------------- why a reconnect is forced

  /** A pass that forces a reconnect does so because an earlier pass wrote a keepalive, and no pass since, this one
      included, found the socket down or got a KEEP_ALIVE; and a full interval has passed since that keepalive, and
      since everything shown or typed before this check. */
  lemma ForcedBySilence(c: Setting, passes: seq<Pass>, i: nat) returns (j: nat)
    requires SettingOk(c) && i < |passes| && Forces(c, passes, i)
    ensures j < i && Sends(c, passes, j)
    ensures forall p :: j < p <= i ==> passes[p].socketUp && KeepAlive !in passes[p].packets
    ensures forall p :: j < p < i ==> Act(c, passes, p) == None
    ensures CheckReading(c, passes, i) >= ActedAt(c, passes, j) + c.interval
    ensures forall p, q :: 0 <= p <= i && 0 <= q < |passes[p].packets| && passes[p].socketUp && c.console
                           && passes[p].packets[q] == TerminalData ==>
              CheckReading(c, passes, i) >= ShownAt(c, passes, p, q) + c.interval
    ensures forall p :: 0 <= p < i && c.console && passes[p].input == Typed ==>
              CheckReading(c, passes, i) >= TypedAt(c, passes, p) + c.interval
  {
    ForcesExactly(c, passes, i);
    DueAfterAFullInterval(c, passes, i);
    NotOverInDue(c, passes, i);
    j :| OutstandingFrom(c, passes, j, i);
    assert Act(c, passes, j).Some?;
    forall p | j < p <= i
      ensures passes[p].socketUp && KeepAlive !in passes[p].packets
    {
      assert p < i ==> Quiet(c, passes, p);
    }
    forall p | j < p < i
      ensures Act(c, passes, p) == None
    {
      NothingSentWhileOutstanding(c, passes, j, p, i);
    }
  }

  /** While a keepalive is outstanding no other is written. */
  lemma NothingSentWhileOutstanding(c: Setting, passes: seq<Pass>, j: nat, p: nat, i: nat)
    requires SettingOk(c) && j < p < i <= |passes| && OutstandingFrom(c, passes, j, i) && !Start(c, passes, i).ended
    ensures Act(c, passes, p) == None
  {
    assert Quiet(c, passes, p);
    NotOverBefore(c, passes, p, i);
    NotOverBefore(c, passes, p + 1, i);
    NotOverInPass(c, passes, p);
    assert OutstandingFrom(c, passes, j, p);
    OutstandingExactly(c, passes, p);
    HearingSettles(c, Start(c, passes, p), passes[p].packets);
    ActExactly(c, passes, p);
  }

  /** The session is over if and only if, with a console, some pass got malformed terminal data or found the console
      broken. */
  lemma {:induction false} OverExactly(c: Setting, passes: seq<Pass>)
    requires SettingOk(c)
    ensures RunPasses(c, passes).ended <==>
              c.console && exists p :: 0 <= p < |passes| && Breaks(passes[p])
  {
    if passes != [] {
      var before, pass := passes[..|passes| - 1], passes[|passes| - 1];
      OverExactly(c, before);
      assert passes == before + [pass];
      var l := RunPasses(c, before);
      if !l.ended {
        MalformedEnds(c, l, pass.packets);
      }
      assert RunPasses(c, passes) == TakePass(c, l, pass);
    }
  }

  predicate Breaks(pass: Pass) {
    (pass.socketUp && BadTerminalData in pass.packets) || pass.input == InputError
  }

  lemma {:induction false} MalformedEnds(c: Setting, l: Loop, packets: seq<Incoming>)
    requires SettingOk(c) && !l.ended
    ensures TakePackets(c, l, packets).ended <==> c.console && BadTerminalData in packets
  {
    if packets != [] {
      var before, p := packets[..|packets| - 1], packets[|packets| - 1];
      assert packets == before + [p];
      MalformedEnds(c, l, before);
    }
  }

  // ---------------------------------------------------------------- the loop's account, pass by pass

  /** `l` went on to `m` without a keepalive written or a reconnect forced. */
  predicate NoAct(l: Loop, m: Loop) {
    l.trace <= m.trace && forall e :: |l.trace| <= e < |m.trace| ==> !m.trace[e].Sent? && !m.trace[e].Forced?
  }

  lemma {:induction false} PacketsDoNotAct(c: Setting, l: Loop, packets: seq<Incoming>)
    requires SettingOk(c)
    ensures NoAct(l, TakePackets(c, l, packets))
  {
    if packets != [] {
      PacketsDoNotAct(c, l, packets[..|packets| - 1]);
    }
  }

  lemma {:induction false} EveryActIsAPass(c: Setting, passes: seq<Pass>, e: nat) returns (p: nat)
    requires SettingOk(c) && e < |RunPasses(c, passes).trace|
    requires RunPasses(c, passes).trace[e].Sent? || RunPasses(c, passes).trace[e].Forced?
    ensures p < |passes| && Act(c, passes, p) == Some(RunPasses(c, passes).trace[e])
  {
    var n := |passes| - 1;
    var before := passes[..n];
    assert passes[..|passes|] == passes;
    if e < |RunPasses(c, before).trace| {
      LastPassAdds(c, passes);
      p := EveryActIsAPass(c, before, e);
      assert before[..p] == passes[..p] && before[p] == passes[p];
    } else {
      LastPassAdds(c, passes);
      p := n;
    }
  }

  /** The last pass adds its act, and other events that are neither. */
  lemma LastPassAdds(c: Setting, passes: seq<Pass>)
    requires SettingOk(c) && passes != []
    ensures var n := |passes| - 1;
            var fewer, all := RunPasses(c, passes[..n]).trace, RunPasses(c, passes).trace;
            && fewer <= all
            && forall e :: |fewer| <= e < |all| && (all[e].Sent? || all[e].Forced?) ==>
               Act(c, passes, n) == Some(all[e])
  {
    var n := |passes| - 1;
    assert passes[..n + 1] == passes;
    if !Start(c, passes, n).ended {
      PassStages(c, passes, n);
      PacketsDoNotAct(c, Start(c, passes, n), passes[n].packets);
    }
  }
}
