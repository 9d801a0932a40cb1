/** The sending end: every accepted packet is logged, backed up, and written if the socket is alive. */
module Writers {
  import opened Outcomes
  import opened Bytes
  import opened Crypto
  import opened Packets
  import opened Sockets

  const MAX_BACKUP_BYTES: nat := 64 * 1024 * 1024
  const DISCONNECT_BUFFER_BYTES: nat := 64 * 1024 * 1024

  datatype WriteState = Success | BufferedOnly | WroteWithFailure | Skipped

  datatype RecoverError = SocketAlive | PeerAhead | BackupExhausted

  // ---------------------------------------------------------------- the log and its tails

  /** Bytes the last `k` log entries take up once sealed. */
  function TailBytes(log: seq<Packet>, k: nat): (n: nat)
    requires k <= |log|
  {
    if k == 0 then 0 else SealedLength(log[|log| - k]) + TailBytes(log, k - 1)
  }

  lemma {:induction false} TailBytesGrow(log: seq<Packet>, j: nat, k: nat)
    requires j <= k <= |log|
    ensures TailBytes(log, j) <= TailBytes(log, k)
  {
    if j < k {
      TailBytesGrow(log, j, k - 1);
    }
  }

  lemma {:induction false} TailBytesAppend(log: seq<Packet>, p: Packet, k: nat)
    requires k <= |log|
    ensures TailBytes(log + [p], k + 1) == TailBytes(log, k) + SealedLength(p)
  {
    if k == 0 {
      assert TailBytes(log + [p], 0) == 0;
      assert (log + [p])[|log|] == p;
    } else {
      TailBytesAppend(log, p, k - 1);
      assert (log + [p])[|log| - k] == log[|log| - k];
    }
  }

  /** The longest tail of at most `k` entries that fits in `MAX_BACKUP_BYTES`. */
  function LongestFit(log: seq<Packet>, k: nat): (r: nat)
    requires k <= |log|
    ensures r <= k && TailBytes(log, r) <= MAX_BACKUP_BYTES
    ensures forall j :: r < j <= k ==> TailBytes(log, j) > MAX_BACKUP_BYTES
  {
    if TailBytes(log, k) <= MAX_BACKUP_BYTES then k else LongestFit(log, k - 1)
  }

  /** The last `k` log entries, sealed, newest first: what the backup queue holds. */
  function Newest(st: Stream, log: seq<Packet>, k: nat): (s: seq<Packet>)
    requires k <= |log|
    ensures |s| == k
  {
    seq(k, i requires 0 <= i < k => Sealed(st, |log| - 1 - i, log[|log| - 1 - i]))
  }

  /** Log entries `from..to` as they appear on the wire, oldest first. */
  function Entries(st: Stream, log: seq<Packet>, from: nat, to: nat): (s: seq<seq<byte>>)
    requires from <= to <= |log|
    ensures |s| == to - from
  {
    seq(to - from, i requires 0 <= i < to - from => Entry(st, from + i, log[from + i]))
  }

  ghost predicate AllPlain(log: seq<Packet>) {
    forall i :: 0 <= i < |log| ==> !log[i].encrypted
  }

  /** What dropping the oldest of `k` backed-up entries leaves. */
  lemma OldestGoes(st: Stream, log: seq<Packet>, k: nat)
    requires TagLaw(st) && 0 < k <= |log|
    ensures Newest(st, log, k)[..k - 1] == Newest(st, log, k - 1)
    ensures TailBytes(log, k) == Newest(st, log, k)[k - 1].Length() + TailBytes(log, k - 1)
    ensures TailBytes(log, k) > MAX_BACKUP_BYTES ==> LongestFit(log, k) == LongestFit(log, k - 1)
  {
    SealedHasSealedLength(st, |log| - k, log[|log| - k]);
  }

  // ---------------------------------------------------------------- the writer as a value

  /** What a writer is: its log, whether its socket is alive, how many entries it still backs up,
      and how many bytes it has taken while disconnected. */
  datatype Writer = Writer(log: seq<Packet>, live: bool, kept: nat, disconnected: nat)

  ghost predicate WriterOk(w: Writer) {
    w.kept <= |w.log| && AllPlain(w.log)
  }

  const NEW_WRITER := Writer([], true, 0, 0)

  datatype WriteResult = WriteResult(state: WriteState, writer: Writer, sent: seq<byte>, rest: seq<Io>)

  /** Whether a write reaches the log. */
  predicate Accepts(w: Writer, p: Packet) {
    (w.live || w.disconnected + p.Length() <= DISCONNECT_BUFFER_BYTES) && !p.encrypted
  }

  function Logged(w: Writer, p: Packet): Writer
    requires w.kept <= |w.log|
  {
    var log := w.log + [p];
    w.(log := log,
       kept := if w.live then LongestFit(log, w.kept + 1) else w.kept + 1,
       disconnected := if w.live then w.disconnected else w.disconnected + SealedLength(p))
  }

  /** One `write`: the writer's whole next state and the bytes that reach the socket. */
  function WriteStep(st: Stream, w: Writer, p: Packet, schedule: seq<Io>): WriteResult
    requires w.kept <= |w.log|
  {
    if !w.live && w.disconnected + p.Length() > DISCONNECT_BUFFER_BYTES then WriteResult(Skipped, w, [], schedule)
    else if p.encrypted then WriteResult(WroteWithFailure, w, [], schedule)
    else if !w.live then WriteResult(BufferedOnly, Logged(w, p), [], schedule)
    else
      var frame := Frame(Entry(st, |w.log|, p));
      var (n, rest) := Accepted(|frame|, schedule);
      if n == |frame| then WriteResult(Success, Logged(w, p), frame, rest)
      else WriteResult(WroteWithFailure, Logged(w, p).(live := false), frame[..n], rest)
  }

  /** Recovery against the simple log: everything from `last` on, if the backup still reaches that far. */
  function RecoverStep(st: Stream, w: Writer, last: int): Result<seq<seq<byte>>, RecoverError>
    requires w.kept <= |w.log|
  {
    if w.live then Err(SocketAlive)
    else if last > |w.log| then Err(PeerAhead)
    else if |w.log| - last > w.kept then Err(BackupExhausted)
    else Ok(Entries(st, w.log, last, |w.log|))
  }

  function ReviveWriterStep(w: Writer): Writer {
    w.(live := true, disconnected := 0)
  }

  function SaturatingSub(a: nat, b: nat): nat {
    if a >= b then a - b else 0
  }

  // ---------------------------------------------------------------- the class

  class BackedWriter {
    const crypto: CryptoHandler
    var socket: Socket?
    /** A double-ended queue, newest packet at the front (index 0). */
    var backup: seq<Packet>
    var backupSize: nat
    var disconnectedBytes: nat
    var sequenceNumber: int
    ghost var log: seq<Packet>

    ghost predicate Valid()
      reads this, crypto, crypto.nonce
    {
      && crypto.Valid()
      && TagLaw(crypto.Direction())
      && crypto.count == sequenceNumber == |log|
      && AllPlain(log)
      && |backup| <= |log|
      && backup == Newest(crypto.Direction(), log, |backup|)
      && backupSize == TailBytes(log, |backup|)
    }

    ghost function View(): Writer
      reads this
    {
      Writer(log, socket != null, |backup|, disconnectedBytes)
    }

    constructor (crypto: CryptoHandler, socket: Socket)
      requires crypto.Valid() && crypto.count == 0 && TagLaw(crypto.Direction())
      ensures Valid() && this.crypto == crypto && this.socket == socket && View() == NEW_WRITER
    {
      this.crypto := crypto;
      this.socket := socket;
      backup, backupSize, disconnectedBytes, sequenceNumber := [], 0, 0, 0;
      log := [];
    }

    method InvalidateSocket()
      requires Valid()
      modifies this`socket
      ensures Valid() && socket == null && View() == old(View()).(live := false)
    {
      socket := null;
    }

    /** Drops oldest entries until the backup fits; how many survive is the longest fitting tail. */
    method Trim()
      requires crypto.Valid() && TagLaw(crypto.Direction()) && |backup| <= |log|
               && backup == Newest(crypto.Direction(), log, |backup|)
      requires backupSize == TailBytes(log, |backup|)
      modifies this`backup, this`backupSize
      ensures socket == null ==> backup == old(backup)
      ensures socket != null ==> |backup| == LongestFit(log, |old(backup)|)
      ensures |backup| <= |log| && backup == Newest(crypto.Direction(), log, |backup|)
      ensures backupSize == TailBytes(log, |backup|)
    {
      while socket != null && backupSize > MAX_BACKUP_BYTES
        invariant |backup| <= |log| && backup == Newest(crypto.Direction(), log, |backup|)
        invariant backupSize == TailBytes(log, |backup|)
        invariant |backup| <= |old(backup)| && (socket == null ==> backup == old(backup))
        invariant LongestFit(log, |backup|) == LongestFit(log, |old(backup)|)
        decreases |backup|
      {
        if backup == [] {
          break;
        }
        var oldest := backup[|backup| - 1];
        OldestGoes(crypto.Direction(), log, |backup|);
        backup := backup[..|backup| - 1];
        backupSize := SaturatingSub(backupSize, oldest.Length());
      }
    }

    /** Puts a freshly sealed packet at the front of the backup and trims the back. */
    method BackUp(sealed: Packet, ghost packet: Packet)
      requires crypto.Valid() && crypto.count == |log| + 1 && TagLaw(crypto.Direction())
      requires |log| == sequenceNumber && AllPlain(log + [packet])
      requires |backup| <= |log| && backup == Newest(crypto.Direction(), log, |backup|)
      requires backupSize == TailBytes(log, |backup|)
      requires sealed == Sealed(crypto.Direction(), |log|, packet)
      modifies this`backup, this`backupSize, this`sequenceNumber, this`log
      ensures Valid() && log == old(log) + [packet]
      ensures |backup| == if socket != null then LongestFit(log, |old(backup)| + 1) else |old(backup)| + 1
    {
      SealedHasSealedLength(crypto.Direction(), |log|, packet);
      TailBytesAppend(log, packet, |backup|);
      NewestAppend(crypto.Direction(), log, packet, |backup|);
      backup := [sealed] + backup;
      backupSize := backupSize + sealed.Length();
      sequenceNumber := sequenceNumber + 1;
      log := log + [packet];
      Trim();
    }

    method Write(packet: Packet) returns (state: WriteState)
      requires Valid()
      modifies this`socket, this`backup, this`backupSize, this`disconnectedBytes, this`sequenceNumber, this`log
      modifies crypto, crypto.nonce, socket
      ensures Valid()
      ensures var r := old(WriteStep(crypto.Direction(), View(), packet,
                                     if socket == null then [] else socket.schedule));
              state == r.state && View() == r.writer
              && (old(socket) != null ==>
                  old(socket).sent == old(socket.sent) + r.sent && old(socket).schedule == r.rest)
      ensures socket == old(socket) || socket == null
      ensures old(socket) != null ==> old(socket).inbound == old(socket.inbound)
    {
      if socket == null && disconnectedBytes + packet.Length() > DISCONNECT_BUFFER_BYTES {
        return Skipped;
      }
      var sealing := packet.Encrypt(crypto);
      if sealing.Err? {
        return WroteWithFailure;
      }
      state := Accept(sealing.value, packet);
    }

    /** Logs a freshly sealed packet, and sends it if the socket is alive. */
    method Accept(sealed: Packet, ghost packet: Packet) returns (state: WriteState)
      requires crypto.Valid() && crypto.count == |log| + 1 && TagLaw(crypto.Direction())
      requires |log| == sequenceNumber && AllPlain(log + [packet])
      requires |backup| <= |log| && backup == Newest(crypto.Direction(), log, |backup|)
      requires backupSize == TailBytes(log, |backup|)
      requires sealed == Sealed(crypto.Direction(), |log|, packet)
      modifies this`socket, this`backup, this`backupSize, this`disconnectedBytes, this`sequenceNumber, this`log, socket
      ensures Valid()
      ensures old(socket) == null ==> socket == null && state == BufferedOnly && View() == Logged(old(View()), packet)
      ensures old(socket) != null ==>
                var frame := Frame(Entry(crypto.Direction(), |old(log)|, packet));
                var (n, rest) := Accepted(|frame|, old(socket.schedule));
                && state == (if n == |frame| then Success else WroteWithFailure)
                && socket == (if n == |frame| then old(socket) else null)
                && View() == Logged(old(View()), packet).(live := n == |frame|)
                && old(socket).sent == old(socket.sent) + frame[..n] && old(socket).schedule == rest
                && old(socket).inbound == old(socket.inbound)
    {
      BackUp(sealed, packet);
      if socket == null {
        SealedHasSealedLength(crypto.Direction(), |old(log)|, packet);
        disconnectedBytes := disconnectedBytes + sealed.Length();
        return BufferedOnly;
      }
      state := Transmit(sealed);
    }

    /** Sends one frame: its length and the sealed packet. A socket that does not take all of it is dropped. */
    method Transmit(sealed: Packet) returns (state: WriteState)
      requires Valid() && socket != null
      modifies this`socket, socket`sent, socket`schedule
      ensures Valid()
      ensures var frame := Frame(sealed.Serialize());
              var (n, rest) := Accepted(|frame|, old(socket.schedule));
              && state == (if n == |frame| then Success else WroteWithFailure)
              && socket == (if n == |frame| then old(socket) else null)
              && old(socket).sent == old(socket.sent) + frame[..n] && old(socket).schedule == rest
    {
      var serialized := sealed.Serialize();
      var frame := ToBe4(|serialized|) + serialized;
      var ok := WriteAllRetry(socket, frame);
      if ok {
        state := Success;
      } else {
        socket := null;
        state := WroteWithFailure;
      }
    }

    /** The sealed packets the peer has not acknowledged, oldest first; nothing changes. */
    method Recover(lastValidSequence: int) returns (r: Result<seq<seq<byte>>, RecoverError>)
      requires Valid()
      ensures r == RecoverStep(crypto.Direction(), View(), lastValidSequence)
    {
      if socket != null {
        return Err(SocketAlive);
      }
      var messages := sequenceNumber - lastValidSequence;
      if messages < 0 {
        return Err(PeerAhead);
      }
      if messages == 0 {
        assert Entries(crypto.Direction(), log, |log|, |log|) == [];
        return Ok([]);
      }
      if messages > |backup| {
        return Err(BackupExhausted);
      }
      r := Ok(Reversed(SerializeAll(backup[..messages])));
      ReversedNewest(crypto.Direction(), log, |backup|, messages);
    }

    method Revive(socket: Socket)
      requires Valid()
      modifies this`socket, this`disconnectedBytes
      ensures Valid() && this.socket == socket && View() == ReviveWriterStep(old(View()))
    {
      this.socket := socket;
      disconnectedBytes := 0;
    }
  }

  function Reversed<T>(s: seq<T>): (r: seq<T>)
    ensures |r| == |s| && forall i :: 0 <= i < |s| ==> r[i] == s[|s| - 1 - i]
  {
    seq(|s|, i requires 0 <= i < |s| => s[|s| - 1 - i])
  }

  lemma NewestAppend(st: Stream, log: seq<Packet>, p: Packet, k: nat)
    requires k <= |log|
    ensures Newest(st, log + [p], k + 1) == [Sealed(st, |log|, p)] + Newest(st, log, k)
  {
  }

  function SerializeAll(packets: seq<Packet>): (r: seq<seq<byte>>)
    ensures |r| == |packets| && forall i :: 0 <= i < |packets| ==> r[i] == packets[i].Serialize()
  {
    seq(|packets|, i requires 0 <= i < |packets| => packets[i].Serialize())
  }

  /** The front of the backup, turned around, is the end of the log. */
  lemma ReversedNewest(st: Stream, log: seq<Packet>, k: nat, m: nat)
    requires m <= k <= |log|
    ensures Reversed(SerializeAll(Newest(st, log, k)[..m])) == Entries(st, log, |log| - m, |log|)
  {
    var front := Newest(st, log, k)[..m];
    forall i | 0 <= i < m
      ensures Reversed(SerializeAll(front))[i] == Entries(st, log, |log| - m, |log|)[i]
    {
      var at := |log| - m + i;
      assert front[m - 1 - i] == Newest(st, log, k)[m - 1 - i] == Sealed(st, at, log[at]);
      assert Entries(st, log, |log| - m, |log|)[i] == Entry(st, at, log[at]);
      assert SerializeAll(front)[m - 1 - i] == front[m - 1 - i].Serialize();
      assert |SerializeAll(front)| - 1 - i == m - 1 - i;
    }
  }
}
