/** What holds of every writer, after any run of writes, disconnects and reconnects. */
module WriterLaws {
  import opened Outcomes
  import opened Bytes
  import opened Crypto
  import opened Packets
  import opened Sockets
  import opened Writers

  datatype WriterOp = Write(packet: Packet, schedule: seq<Io>) | Invalidate | Revive

  function Apply(st: Stream, w: Writer, op: WriterOp): (r: Writer)
    requires w.kept <= |w.log|
    ensures r.kept <= |r.log|
  {
    match op
    case Write(p, schedule) => WriteStep(st, w, p, schedule).writer
    case Invalidate => w.(live := false)
    case Revive => ReviveWriterStep(w)
  }

  /** The writer after a run of operations on a fresh connection. */
  function Run(st: Stream, ops: seq<WriterOp>): (r: Writer)
    ensures r.kept <= |r.log|
  {
    if ops == [] then NEW_WRITER else Apply(st, Run(st, ops[..|ops| - 1]), ops[|ops| - 1])
  }

  /** How many times the writer was revived since the last packet it accepted on a live socket. */
  function Revivals(st: Stream, ops: seq<WriterOp>): nat {
    if ops == [] then 0
    else
      var before, op := ops[..|ops| - 1], ops[|ops| - 1];
      if op.Revive? then Revivals(st, before) + 1
      else if op.Write? && Run(st, before).live && !op.packet.encrypted then 0
      else Revivals(st, before)
  }

  // ---------------------------------------------------------------- one call

  /** The frame that log entry `|log|` will be. */
  function NextFrame(st: Stream, w: Writer, p: Packet): seq<byte> {
    Frame(Entry(st, |w.log|, p))
  }

  /** No room: the packet would take a dead writer past 64 MiB. */
  predicate Full(w: Writer, p: Packet) {
    !w.live && w.disconnected + 2 + |p.payload| > 0x400_0000
  }

  /** Each answer of `write`, exactly. On a live socket an unsealed packet fails if and only if the connection ends
      before the whole frame is out, however often it waits. */
  lemma WriteOutcomes(st: Stream, w: Writer, p: Packet, schedule: seq<Io>)
    requires w.kept <= |w.log|
    ensures var r := WriteStep(st, w, p, schedule);
            && (r.state == Skipped <==> Full(w, p))
            && (r.state == BufferedOnly <==> !w.live && !Full(w, p) && !p.encrypted)
            && (r.state == Success <==> w.live && !p.encrypted && Carries(schedule, |NextFrame(st, w, p)|))
            && (r.state == WroteWithFailure <==>
                !Full(w, p) && (p.encrypted || (w.live && !Carries(schedule, |NextFrame(st, w, p)|))))
  {
    AllAcceptedExactly(|NextFrame(st, w, p)|, schedule);
  }

  /** What each answer means: only a skipped or an already sealed packet is not logged, and then nothing changes; what
      is sent is a prefix of the frame, all of it on success, nothing from a dead writer; and only a failed send
      kills. */
  lemma WriteEffects(st: Stream, w: Writer, p: Packet, schedule: seq<Io>)
    requires w.kept <= |w.log|
    ensures var r := WriteStep(st, w, p, schedule);
            && (r.state == Skipped || p.encrypted ==> r.writer == w && r.sent == [])
            && (r.state != Skipped && !p.encrypted ==> r.writer.log == w.log + [p])
            && (r.sent <= NextFrame(st, w, p) && (r.sent == NextFrame(st, w, p) <==> r.state == Success))
            && (!w.live ==> r.sent == [] && !r.writer.live)
            && (w.live ==> (r.writer.live <==> r.state == Success || p.encrypted))
            && (!w.live ==> |r.writer.log| - r.writer.kept == |w.log| - w.kept)
  {
  }

  /** A dead writer trims nothing, however much it buffers: what was backed up when the connection was lost, and all
      that was logged since, is still there until it lives again. */
  lemma {:induction false} NothingIsTrimmedWhileDead(st: Stream, before: seq<WriterOp>, more: seq<WriterOp>)
    requires !Run(st, before).live && Revive !in more
    ensures var w, v := Run(st, before), Run(st, before + more);
            !v.live && |v.log| - v.kept == |w.log| - w.kept && v.log[..|v.log| - v.kept] == w.log[..|w.log| - w.kept]
  {
    if more == [] {
      assert before + more == before;
    } else {
      var n := |more| - 1;
      NothingIsTrimmedWhileDead(st, before, more[..n]);
      assert (before + more)[..|before + more| - 1] == before + more[..n];
      var v, op := Run(st, before + more[..n]), more[n];
      assert op in more && op != Revive;
      if op.Write? {
        WriteEffects(st, v, op.packet, op.schedule);
      }
    }
  }

  /** Each answer of `recover`, exactly; on success the entries, serialized, from the requested number on. */
  lemma RecoverOutcomes(st: Stream, w: Writer, last: int)
    requires w.kept <= |w.log|
    ensures var r := RecoverStep(st, w, last);
            && (r == Err(SocketAlive) <==> w.live)
            && (r == Err(PeerAhead) <==> !w.live && |w.log| - last < 0)
            && (r == Err(BackupExhausted) <==> !w.live && |w.log| - last > w.kept)
            && (r.Ok? <==> !w.live && 0 <= |w.log| - last <= w.kept)
    ensures var r := RecoverStep(st, w, last);
            r.Ok? ==> last >= 0 && |r.value| == |w.log| - last
    ensures var r := RecoverStep(st, w, last);
            forall i :: r.Ok? && 0 <= i < |r.value| ==> r.value[i] == Sealed(st, last + i, w.log[last + i]).Serialize()
  {
    var r := RecoverStep(st, w, last);
    forall i | r.Ok? && 0 <= i < |r.value|
      ensures r.value[i] == Sealed(st, last + i, w.log[last + i]).Serialize()
    {
      var at := last + i;
      assert r.value[i] == Entry(st, at, w.log[at]);
    }
  }

  /** How many packets the writer logged since it was last alive. */
  function LoggedSinceLive(st: Stream, ops: seq<WriterOp>): (k: nat)
    ensures k <= |Run(st, ops).log|
  {
    if ops == [] then 0
    else
      var before, op := ops[..|ops| - 1], ops[|ops| - 1];
      var w := Run(st, before);
      if w.live || op.Revive? then 0
      else if op.Write? && !Full(w, op.packet) && !op.packet.encrypted then LoggedSinceLive(st, before) + 1
      else LoggedSinceLive(st, before)
  }

  /** The disconnect count is exactly the sealed bytes of those packets. */
  lemma {:induction false} DisconnectedExactly(st: Stream, ops: seq<WriterOp>)
    ensures Run(st, ops).disconnected == TailBytes(Run(st, ops).log, LoggedSinceLive(st, ops))
  {
    if ops != [] {
      var before, op := ops[..|ops| - 1], ops[|ops| - 1];
      var w, k := Run(st, before), LoggedSinceLive(st, before);
      DisconnectedExactly(st, before);
      if w.live {
        LiveMeansNoneSince(st, before);
      }
      if op.Write? && !w.live && !Full(w, op.packet) && !op.packet.encrypted {
        WriteOutcomes(st, w, op.packet, op.schedule);
        TailBytesAppend(w.log, op.packet, k);
        assert Run(st, ops) == Logged(w, op.packet);
      } else if op.Write? {
        WriteOutcomes(st, w, op.packet, op.schedule);
        assert Run(st, ops).disconnected == w.disconnected;
      }
    }
  }

  lemma LiveMeansNoneSince(st: Stream, ops: seq<WriterOp>)
    requires Run(st, ops).live
    ensures LoggedSinceLive(st, ops) == 0
  {
  }

  // ---------------------------------------------------------------- whole runs

  /** Every log tail that fits the backup limit is still backed up. */
  ghost predicate Retains(w: Writer) {
    && w.kept <= |w.log|
    && forall k :: 0 <= k <= |w.log| && TailBytes(w.log, k) <= MAX_BACKUP_BYTES ==> k <= w.kept
  }

  lemma LoggingRetains(w: Writer, p: Packet)
    requires Retains(w)
    ensures Retains(Logged(w, p))
    ensures w.live ==> Logged(w, p).kept == LongestFit(w.log + [p], |w.log| + 1)
  {
    var log := w.log + [p];
    forall k | 0 <= k <= |log| && TailBytes(log, k) <= MAX_BACKUP_BYTES
      ensures k <= w.kept + 1 && k <= Logged(w, p).kept
    {
      if k > 0 {
        TailBytesAppend(w.log, p, k - 1);
        assert TailBytes(w.log, k - 1) <= MAX_BACKUP_BYTES;
      }
    }
    var best := LongestFit(log, |log|);
    assert best <= w.kept + 1;
    if w.live {
      assert LongestFit(log, w.kept + 1) == best;
    }
  }

  lemma {:induction false} RunRetains(st: Stream, ops: seq<WriterOp>)
    ensures Retains(Run(st, ops))
  {
    if ops != [] {
      var before, op := ops[..|ops| - 1], ops[|ops| - 1];
      RunRetains(st, before);
      var w := Run(st, before);
      if op.Write? && Accepts(w, op.packet) {
        LoggingRetains(w, op.packet);
        var r := WriteStep(st, w, op.packet, op.schedule);
        assert r.writer.log == Logged(w, op.packet).log && r.writer.kept == Logged(w, op.packet).kept;
      }
    }
  }

  /** A peer whose unacknowledged tail fits the limit can always be caught up, in full and in order. */
  lemma RetentionGuarantee(st: Stream, ops: seq<WriterOp>, acknowledged: nat)
    requires acknowledged <= |Run(st, ops).log|
    requires TailBytes(Run(st, ops).log, |Run(st, ops).log| - acknowledged) <= MAX_BACKUP_BYTES
    ensures var w := Run(st, ops + [Invalidate]);
            w.log == Run(st, ops).log
            && RecoverStep(st, w, acknowledged) == Ok(Entries(st, w.log, acknowledged, |w.log|))
  {
    RunRetains(st, ops);
    assert (ops + [Invalidate])[..|ops|] == ops;
  }

  /** Right after a packet is accepted on a live socket, the backup is the longest log tail within the limit. */
  lemma LiveWriteKeepsTheLongestTail(st: Stream, ops: seq<WriterOp>, p: Packet, schedule: seq<Io>)
    requires Run(st, ops).live && !p.encrypted
    ensures var w := Run(st, ops + [Write(p, schedule)]);
            w.log == Run(st, ops).log + [p]
            && TailBytes(w.log, w.kept) <= MAX_BACKUP_BYTES
            && forall k :: w.kept < k <= |w.log| ==> TailBytes(w.log, k) > MAX_BACKUP_BYTES
  {
    RunRetains(st, ops);
    LoggingRetains(Run(st, ops), p);
    assert (ops + [Write(p, schedule)])[..|ops|] == ops;
  }

  /** How much the backup may hold: the limit, one disconnect buffer per revival, and what came in since. */
  function Allowance(revivals: nat, disconnected: nat): nat {
    MAX_BACKUP_BYTES + revivals * (DISCONNECT_BUFFER_BYTES + MAC_BYTES) + disconnected
  }

  lemma AllowanceGrows(revivals: nat, disconnected: nat)
    requires disconnected <= DISCONNECT_BUFFER_BYTES + MAC_BYTES
    ensures Allowance(revivals, disconnected) <= Allowance(revivals + 1, 0)
  {
    var c := DISCONNECT_BUFFER_BYTES + MAC_BYTES;
    assert (revivals + 1) * c == revivals * c + c;
  }

  ghost predicate Accounted(w: Writer, revivals: nat) {
    && w.kept <= |w.log|
    && (w.live ==> w.disconnected == 0)
    && w.disconnected <= DISCONNECT_BUFFER_BYTES + MAC_BYTES
    && TailBytes(w.log, w.kept) <= Allowance(revivals, w.disconnected)
  }

  lemma WritingIsAccounted(st: Stream, w: Writer, p: Packet, schedule: seq<Io>, revivals: nat)
    requires Accounted(w, revivals)
    ensures Accounted(WriteStep(st, w, p, schedule).writer, if w.live && !p.encrypted then 0 else revivals)
  {
    if Accepts(w, p) && !w.live {
      TailBytesAppend(w.log, p, w.kept);
      assert Accounted(Logged(w, p), revivals);
    } else if Accepts(w, p) {
      assert Accounted(Logged(w, p), 0) && Accounted(Logged(w, p).(live := false), 0);
    }
  }

  /** Byte accounting over whole runs: the disconnect count is zero on a live socket and bounded on a dead one,
      and each revival since the last live write can add one disconnect buffer to the backup. */
  lemma {:induction false} ByteAccounting(st: Stream, ops: seq<WriterOp>)
    ensures Accounted(Run(st, ops), Revivals(st, ops))
  {
    if ops != [] {
      var before, op := ops[..|ops| - 1], ops[|ops| - 1];
      ByteAccounting(st, before);
      var w := Run(st, before);
      match op
      case Write(p, schedule) => WritingIsAccounted(st, w, p, schedule, Revivals(st, before));
      case Invalidate =>
      case Revive => AllowanceGrows(Revivals(st, before), w.disconnected);
      assert Accounted(Apply(st, w, op), Revivals(st, ops));
    }
  }

  /** The nonce of log entry `i`, in a frame, in the backup and in every catch-up that carries it again, is the one
      after `i + 1` increments, with value `msb * 2^184 + i + 1`; sending it again uses no other. */
  lemma LogEntryNonce(a: Aead, msb: byte, log: seq<Packet>, i: nat, from: nat)
    requires from <= i < |log| && i + 1 < STREAM_SPAN
    ensures Entry(StreamOf(a, msb), i, log[i])
            == Packet(true, log[i].header, a.seal(NonceAt(msb, i + 1), log[i].payload)).Serialize()
    ensures Entries(StreamOf(a, msb), log, from, |log|)[i - from] == Entry(StreamOf(a, msb), i, log[i])
    ensures FromLe(NonceAt(msb, i + 1)) == msb * STREAM_SPAN + i + 1
  {
    NonceValue(msb, i + 1);
    InSpan(msb, i + 1);
    EntryOfTail(StreamOf(a, msb), log, i, from);
    SealingUsesTheCount(a, msb, i + 1, log[i].payload);
  }

  lemma EntryOfTail(st: Stream, log: seq<Packet>, i: nat, from: nat)
    requires from <= i < |log|
    ensures Entries(st, log, from, |log|)[i - from] == Entry(st, i, log[i])
  {
    var k := i - from;
    assert from + k == i;
  }

  lemma SealingUsesTheCount(a: Aead, msb: byte, k: nat, text: seq<byte>)
    ensures StreamOf(a, msb).seal(k, text) == a.seal(NonceAt(msb, k), text)
  {
  }
}
