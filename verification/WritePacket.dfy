/** The retry loop around `write`: a packet whose live write failed is already in the log, and is written again. */
module WritePacket {
  import opened Outcomes
  import opened Bytes
  import opened Crypto
  import opened Packets
  import opened Sockets
  import opened Writers
  import opened WriterLaws

  /** One turn of the loop: whether it finds `shutting_down` set, what the socket does, and whether the reconnect
      thread has revived the writer before the next turn. */
  datatype Turn = Turn(shutting: bool, schedule: seq<Io>, revived: bool)

  /** Result of a call: what it returns, the writer afterwards, and how often the packet was logged. */
  datatype Call = Call(accepted: bool, writer: Writer, copies: nat)

  /** The writer at the start of the next turn: after a failure both sockets are dropped. */
  function NextTurn(w: Writer, failed: bool, revived: bool): Writer {
    var v := if failed then w.(live := false) else w;
    if revived then ReviveWriterStep(v) else v
  }

  function WriteUntil(st: Stream, w: Writer, p: Packet, turns: seq<Turn>): Call
    requires w.kept <= |w.log|
    decreases |turns|
  {
    if turns == [] || turns[0].shutting then Call(false, w, 0)
    else
      var r := WriteStep(st, w, p, turns[0].schedule);
      var logged := if Accepts(w, p) then 1 else 0;
      if r.state == Success || r.state == BufferedOnly then Call(true, r.writer, logged)
      else
        var c := WriteUntil(st, NextTurn(r.writer, r.state == WroteWithFailure, turns[0].revived), p, turns[1..]);
        c.(copies := logged + c.copies)
  }

  function Copies(p: Packet, n: nat): (s: seq<Packet>)
    ensures |s| == n && forall i :: 0 <= i < n ==> s[i] == p
  {
    seq(n, _ => p)
  }

  /** A call adds nothing to the log but copies of its packet: none or more if it gives up, one or more if it
      succeeds. */
  lemma {:induction false} CallsLogCopies(st: Stream, w: Writer, p: Packet, turns: seq<Turn>)
    requires w.kept <= |w.log|
    ensures var c := WriteUntil(st, w, p, turns);
            c.writer.log == w.log + Copies(p, c.copies) && (c.accepted ==> c.copies >= 1)
    decreases |turns|
  {
    if turns == [] || turns[0].shutting {
      assert w.log + Copies(p, 0) == w.log;
    } else {
      var r := WriteStep(st, w, p, turns[0].schedule);
      if r.state == Success || r.state == BufferedOnly {
        assert [p] == Copies(p, 1);
      } else {
        var next := NextTurn(r.writer, r.state == WroteWithFailure, turns[0].revived);
        CallsLogCopies(st, next, p, turns[1..]);
        var n := WriteUntil(st, next, p, turns[1..]).copies;
        if Accepts(w, p) {
          assert w.log + [p] + Copies(p, n) == w.log + Copies(p, n + 1);
        }
      }
    }
  }

  /** The writer that turn `i` finds, if the call gets there. */
  function Finds(st: Stream, w: Writer, p: Packet, turns: seq<Turn>, i: nat): (r: Writer)
    requires w.kept <= |w.log| && i <= |turns|
    ensures r.kept <= |r.log|
  {
    if i == 0 then w
    else
      var before := Finds(st, w, p, turns, i - 1);
      var r := WriteStep(st, before, p, turns[i - 1].schedule);
      NextTurn(r.writer, r.state == WroteWithFailure, turns[i - 1].revived)
  }

  /** Turn `i` settles the call: a live socket carries the whole frame, or a dead writer has room. */
  ghost predicate Settles(st: Stream, w: Writer, p: Packet, turns: seq<Turn>, i: nat)
    requires w.kept <= |w.log| && i < |turns|
  {
    var v := Finds(st, w, p, turns, i);
    !p.encrypted && if v.live then Carries(turns[i].schedule, |NextFrame(st, v, p)|) else !Full(v, p)
  }

  /** Turn `i` settles the call, and no turn up to it finds the session over. */
  ghost predicate SettlesInTime(st: Stream, w: Writer, p: Packet, turns: seq<Turn>, i: nat)
    requires w.kept <= |w.log| && i < |turns|
  {
    Settles(st, w, p, turns, i) && forall j :: 0 <= j <= i ==> !turns[j].shutting
  }

  lemma {:induction false} FindsLater(st: Stream, w: Writer, p: Packet, turns: seq<Turn>, i: nat)
    requires w.kept <= |w.log| && 0 < i <= |turns|
    ensures var v := Finds(st, w, p, turns, 1);
            Finds(st, w, p, turns, i) == Finds(st, v, p, turns[1..], i - 1)
  {
    if i > 1 {
      FindsLater(st, w, p, turns, i - 1);
    }
  }

  lemma FirstTurnSettles(st: Stream, w: Writer, p: Packet, turns: seq<Turn>)
    requires w.kept <= |w.log| && turns != []
    ensures var r := WriteStep(st, w, p, turns[0].schedule);
            && (Settles(st, w, p, turns, 0) <==> r.state == Success || r.state == BufferedOnly)
            && Finds(st, w, p, turns, 1) == NextTurn(r.writer, r.state == WroteWithFailure, turns[0].revived)
  {
    WriteOutcomes(st, w, p, turns[0].schedule);
    assert Finds(st, w, p, turns, 0) == w;
  }

  lemma LaterTurnSettles(st: Stream, w: Writer, p: Packet, turns: seq<Turn>, i: nat)
    requires w.kept <= |w.log| && 0 < i < |turns| && !turns[0].shutting
    ensures SettlesInTime(st, w, p, turns, i) <==>
              SettlesInTime(st, Finds(st, w, p, turns, 1), p, turns[1..], i - 1)
  {
    FindsLater(st, w, p, turns, i);
    var rest := turns[1..];
    assert forall j :: 0 <= j < |rest| ==> rest[j] == turns[j + 1];
    assert forall j :: 0 < j < |turns| ==> turns[j] == rest[j - 1];
  }

  /** A call succeeds if and only if some turn settles it before one finds the session over: skipped or failed, the
      packet is tried again. */
  lemma {:induction false} AcceptedExactly(st: Stream, w: Writer, p: Packet, turns: seq<Turn>)
    requires w.kept <= |w.log|
    ensures WriteUntil(st, w, p, turns).accepted
       <==> exists i :: 0 <= i < |turns| && SettlesInTime(st, w, p, turns, i)
    decreases |turns|
  {
    if turns != [] && !turns[0].shutting {
      FirstTurnSettles(st, w, p, turns);
      if Settles(st, w, p, turns, 0) {
        assert SettlesInTime(st, w, p, turns, 0);
      } else {
        var v, rest := Finds(st, w, p, turns, 1), turns[1..];
        AcceptedExactly(st, v, p, rest);
        forall i | 0 < i < |turns|
          ensures SettlesInTime(st, w, p, turns, i) <==> SettlesInTime(st, v, p, rest, i - 1)
        {
          LaterTurnSettles(st, w, p, turns, i);
        }
        if i :| 0 <= i < |rest| && SettlesInTime(st, v, p, rest, i) {
          assert SettlesInTime(st, w, p, turns, i + 1);
        }
      }
    }
  }

  /** After a failure both sockets are dropped; a revival in between makes the writer live, and its count zero. */
  lemma BetweenTurns(w: Writer, failed: bool, revived: bool)
    ensures var v := NextTurn(w, failed, revived);
            && (v.live <==> revived || (w.live && !failed))
            && v.log == w.log && v.kept == w.kept && v.disconnected == if revived then 0 else w.disconnected
  {
  }

  /** How the first turn that logs the packet ends, if any does. */
  function FirstLogged(st: Stream, w: Writer, p: Packet, turns: seq<Turn>): Option<WriteState>
    requires w.kept <= |w.log|
    decreases |turns|
  {
    if turns == [] || turns[0].shutting then None
    else
      var r := WriteStep(st, w, p, turns[0].schedule);
      if Accepts(w, p) then Some(r.state)
      else FirstLogged(st, NextTurn(r.writer, r.state == WroteWithFailure, turns[0].revived), p, turns[1..])
  }

  /** The exact condition: a successful call logs its packet once if and only if the first turn that logs it does not
      fail; otherwise more than once. */
  lemma {:induction false} LoggedOnceExactly(st: Stream, w: Writer, p: Packet, turns: seq<Turn>)
    requires w.kept <= |w.log| && WriteUntil(st, w, p, turns).accepted
    ensures WriteUntil(st, w, p, turns).copies == 1 <==> FirstLogged(st, w, p, turns) != Some(WroteWithFailure)
    decreases |turns|
  {
    var r := WriteStep(st, w, p, turns[0].schedule);
    if r.state != Success && r.state != BufferedOnly {
      var next := NextTurn(r.writer, r.state == WroteWithFailure, turns[0].revived);
      if Accepts(w, p) {
        CallsLogCopies(st, next, p, turns[1..]);
      } else {
        LoggedOnceExactly(st, next, p, turns[1..]);
      }
    }
  }

  /** Seen before the call: a dead writer with room always takes the packet once, and at once. */
  lemma DeadWriterLogsOnce(st: Stream, w: Writer, p: Packet, turns: seq<Turn>)
    requires w.kept <= |w.log| && !w.live && Accepts(w, p) && turns != [] && !turns[0].shutting
    ensures WriteUntil(st, w, p, turns) == Call(true, Logged(w, p), 1)
  {
    assert WriteStep(st, w, p, turns[0].schedule).state == BufferedOnly;
  }

  /** And a live one takes it once if and only if the socket takes the whole frame at the first turn. */
  lemma LiveWriterLogsOnceExactly(st: Stream, w: Writer, p: Packet, turns: seq<Turn>)
    requires w.kept <= |w.log| && w.live && !p.encrypted && WriteUntil(st, w, p, turns).accepted
    ensures turns != []
    ensures var frame := Frame(Entry(st, |w.log|, p));
            WriteUntil(st, w, p, turns).copies == 1 <==> Accepted(|frame|, turns[0].schedule).0 == |frame|
  {
    LoggedOnceExactly(st, w, p, turns);
    assert FirstLogged(st, w, p, turns) == Some(WriteStep(st, w, p, turns[0].schedule).state);
  }

  /** Exactly once is per log entry, not per call: a live write that dies and is retried logs its packet twice. */
  lemma ARetriedPacketIsLoggedTwice(st: Stream, w: Writer, p: Packet)
    requires w.kept <= |w.log| && w.live && w.disconnected == 0 && !p.encrypted && p.Length() <= DISCONNECT_BUFFER_BYTES
    ensures WriteUntil(st, w, p, [Turn(false, [Failed], false), Turn(false, [], false)]) ==
            Call(true, Logged(Logged(w, p).(live := false), p), 2)
  {
    var turns := [Turn(false, [Failed], false), Turn(false, [], false)];
    var first := WriteStep(st, w, p, [Failed]);
    assert first.state == WroteWithFailure && first.writer == Logged(w, p).(live := false);
    assert turns[1..] == [Turn(false, [], false)];
    var second := WriteStep(st, first.writer, p, []);
    assert second.state == BufferedOnly;
    assert WriteUntil(st, first.writer, p, turns[1..]) == Call(true, second.writer, 1);
  }

  lemma DeadWritesIgnoreTheSocket(st: Stream, w: Writer, p: Packet, schedule: seq<Io>)
    requires w.kept <= |w.log| && !w.live
    ensures WriteStep(st, w, p, schedule).state == WriteStep(st, w, p, []).state
    ensures WriteStep(st, w, p, schedule).writer == WriteStep(st, w, p, []).writer
  {
  }

  /** One write under the writer lock and, if it does not settle the call, what happens before the next. */
  method TakeTurn(writer: BackedWriter, packet: Packet, turn: Turn) returns (state: WriteState)
    requires writer.Valid()
    modifies writer, writer.crypto, writer.crypto.nonce, writer.socket
    ensures writer.Valid()
    ensures writer.socket == old(writer.socket) || writer.socket == null || fresh(writer.socket)
    ensures var r := WriteStep(writer.crypto.Direction(), old(writer.View()), packet, turn.schedule);
            state == r.state
            && writer.View() == if state == Success || state == BufferedOnly then r.writer
                                else NextTurn(r.writer, state == WroteWithFailure, turn.revived)
  {
    if writer.socket != null {
      writer.socket.schedule := turn.schedule;
    } else {
      DeadWritesIgnoreTheSocket(writer.crypto.Direction(), writer.View(), packet, turn.schedule);
    }
    state := writer.Write(packet);
    if state == Success || state == BufferedOnly {
      return;
    }
    if state == WroteWithFailure {
      writer.InvalidateSocket();
    }
    if turn.revived {
      var fresher := new Socket([], []);
      writer.Revive(fresher);
    }
  }

  method WritePacket(writer: BackedWriter, packet: Packet, turns: seq<Turn>) returns (accepted: bool, ghost copies: nat)
    requires writer.Valid()
    modifies writer, writer.crypto, writer.crypto.nonce, writer.socket
    ensures writer.Valid()
    ensures WriteUntil(writer.crypto.Direction(), old(writer.View()), packet, turns)
            == Call(accepted, writer.View(), copies)
  {
    copies := 0;
    ghost var st, start := writer.crypto.Direction(), writer.View();
    assert turns[0..] == turns;
    for i := 0 to |turns|
      invariant writer.Valid() && (writer.socket == old(writer.socket) || writer.socket == null || fresh(writer.socket))
      invariant var rest := WriteUntil(st, writer.View(), packet, turns[i..]);
                WriteUntil(st, start, packet, turns) == rest.(copies := copies + rest.copies)
    {
      assert turns[i..][1..] == turns[i + 1..];
      if turns[i].shutting {
        return false, copies;
      }
      ghost var logged := if Accepts(writer.View(), packet) then 1 else 0;
      var state := TakeTurn(writer, packet, turns[i]);
      copies := copies + logged;
      if state == Success || state == BufferedOnly {
        return true, copies;
      }
    }
    accepted := false;
  }
}
