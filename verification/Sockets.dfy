/** A non-blocking socket half, driven by a finite schedule of what the operating system does. */
module Sockets {
  import opened Bytes

  /** One outcome of a `read` or `write` call. `Ready(n)` moves up to `n` bytes, and at least one. */
  datatype Io = Ready(n: nat) | WouldBlock | TimedOut | Interrupted | Closed | Failed

  /** How many of `limit` bytes a `Ready(n)` call moves. */
  function Moved(n: nat, limit: nat): (m: nat)
    requires limit > 0
    ensures 0 < m <= limit
  {
    if n == 0 then 1 else if n < limit then n else limit
  }

  /** How many of `n` bytes get written before they are all out or the socket is lost, and what is left of the
      schedule. */
  function Accepted(n: nat, schedule: seq<Io>): (r: (nat, seq<Io>))
    ensures r.0 <= n
    decreases |schedule|
  {
    if n == 0 || schedule == [] then (0, schedule)
    else match schedule[0]
      case Ready(k) =>
        var m := Moved(k, n);
        var (more, rest) := Accepted(n - m, schedule[1..]);
        (m + more, rest)
      case WouldBlock | TimedOut | Interrupted => Accepted(n, schedule[1..])
      case Closed | Failed => (0, schedule[1..])
  }

  // ---------------------------------------------------------------- what a schedule lets out, call by call

  /** The connection is gone after this call. */
  predicate Ends(e: Io) {
    e.Closed? || e.Failed?
  }

  /** The first `k` calls leave the connection up. */
  ghost predicate Unbroken(schedule: seq<Io>, k: nat)
    requires k <= |schedule|
  {
    forall i :: 0 <= i < k ==> !Ends(schedule[i])
  }

  /** How many bytes the calls of a schedule are ready to move, each at least one. */
  function Offered(schedule: seq<Io>): nat {
    if schedule == [] then 0
    else Offered(schedule[1..]) + match schedule[0] case Ready(n) => (if n == 0 then 1 else n) case _ => 0
  }

  /** The calls before the one that ends the connection; the end of the schedule ends it too. */
  ghost predicate UpToTheEnd(schedule: seq<Io>, k: nat) {
    k <= |schedule| && Unbroken(schedule, k) && (k < |schedule| ==> Ends(schedule[k]))
  }

  /** A write gets out what is offered before the connection ends, and no more than it has: waiting costs nothing. */
  lemma {:induction false} AcceptedIsOffered(n: nat, schedule: seq<Io>, k: nat)
    requires UpToTheEnd(schedule, k)
    ensures Accepted(n, schedule).0 == if n <= Offered(schedule[..k]) then n else Offered(schedule[..k])
    decreases k
  {
    if k > 0 {
      var rest := schedule[1..];
      assert rest[..k - 1] == schedule[..k][1..];
      assert !Ends(schedule[0]);
      var m := if n == 0 || !schedule[0].Ready? then 0 else Moved(schedule[0].n, n);
      AcceptedIsOffered(n - m, rest, k - 1);
      AcceptedIsOffered(0, rest, k - 1);
    }
  }

  lemma {:induction false} EveryScheduleEnds(schedule: seq<Io>) returns (k: nat)
    ensures UpToTheEnd(schedule, k)
  {
    if schedule == [] || Ends(schedule[0]) {
      k := 0;
    } else {
      k := EveryScheduleEnds(schedule[1..]);
      k := k + 1;
      assert forall i :: 1 <= i < k ==> schedule[i] == schedule[1..][i - 1];
    }
  }

  lemma {:induction false} OfferedGrows(schedule: seq<Io>, j: nat, k: nat)
    requires j <= k <= |schedule|
    ensures Offered(schedule[..j]) <= Offered(schedule[..k])
  {
    if j > 0 {
      assert schedule[..j][1..] == schedule[1..][..j - 1] && schedule[..k][1..] == schedule[1..][..k - 1];
      OfferedGrows(schedule[1..], j - 1, k - 1);
    }
  }

  /** The calls before the connection ends are ready to move at least `n` bytes. */
  ghost predicate Carries(schedule: seq<Io>, n: nat) {
    exists k :: 0 <= k <= |schedule| && Unbroken(schedule, k) && Offered(schedule[..k]) >= n
  }

  /** All of it gets out if and only if that much is offered before the connection ends. */
  lemma AllAcceptedExactly(n: nat, schedule: seq<Io>)
    ensures Accepted(n, schedule).0 == n <==> Carries(schedule, n)
  {
    var k := EveryScheduleEnds(schedule);
    AcceptedIsOffered(n, schedule, k);
    forall j | 0 <= j <= |schedule| && Unbroken(schedule, j)
      ensures Offered(schedule[..j]) <= Offered(schedule[..k])
    {
      OfferedGrows(schedule, j, k);
    }
  }

  predicate Waits(e: Io) {
    e.WouldBlock? || e.TimedOut? || e.Interrupted?
  }

  /** The schedule without the calls that only wait. */
  function Firm(schedule: seq<Io>): seq<Io> {
    if schedule == [] then []
    else if Waits(schedule[0]) then Firm(schedule[1..])
    else [schedule[0]] + Firm(schedule[1..])
  }

  /** Would-block, timeout and interrupt, wherever they come, change neither what gets out nor the verdict. */
  lemma {:induction false} WaitingChangesNothing(n: nat, schedule: seq<Io>)
    ensures Accepted(n, Firm(schedule)).0 == Accepted(n, schedule).0
    decreases |schedule|
  {
    if n > 0 && schedule != [] && !Ends(schedule[0]) {
      var rest := schedule[1..];
      if Waits(schedule[0]) {
        WaitingChangesNothing(n, rest);
      } else {
        assert Firm(schedule)[1..] == Firm(rest);
        WaitingChangesNothing(n - Moved(schedule[0].n, n), rest);
      }
    }
  }

  datatype Fill = Filled | Pending | EndOfStream | Lost

  /** Filling `need` bytes from a connection that holds `available` of them: bytes taken, outcome, rest of the
      schedule. */
  function Filling(need: nat, available: nat, schedule: seq<Io>): (r: (nat, Fill, seq<Io>))
    ensures r.0 <= need && r.0 <= available
    ensures r.1 == Filled <==> r.0 == need
    decreases |schedule|
  {
    if need == 0 then (0, Filled, schedule)
    else if schedule == [] then (0, Lost, [])
    else match schedule[0]
      case Ready(k) =>
        if available == 0 then (0, Pending, schedule[1..])
        else
          var m := Moved(k, if need < available then need else available);
          var (more, outcome, rest) := Filling(need - m, available - m, schedule[1..]);
          (m + more, outcome, rest)
      case WouldBlock | TimedOut => (0, Pending, schedule[1..])
      case Interrupted => Filling(need, available, schedule[1..])
      case Closed => (0, EndOfStream, schedule[1..])
      case Failed => (0, Lost, schedule[1..])
  }

  /** A connected stream: bytes that have arrived, bytes handed over for sending, and the schedule to come. */
  class Socket {
    var inbound: seq<byte>
    var sent: seq<byte>
    var schedule: seq<Io>

    constructor (inbound: seq<byte>, schedule: seq<Io>)
      ensures this.inbound == inbound && this.sent == [] && this.schedule == schedule
    {
      this.inbound := inbound;
      this.sent := [];
      this.schedule := schedule;
    }

    /** A schedule that has run out means a dead connection. */
    method Next() returns (e: Io)
      modifies this`schedule
      ensures old(schedule) == [] ==> e == Failed && schedule == []
      ensures old(schedule) != [] ==> e == old(schedule[0]) && schedule == old(schedule[1..])
    {
      if schedule == [] {
        return Failed;
      }
      e := schedule[0];
      schedule := schedule[1..];
    }

    method Write(data: seq<byte>) returns (e: Io, n: nat)
      requires data != []
      modifies this`schedule, this`sent
      ensures old(schedule) == [] ==> e == Failed && schedule == []
      ensures old(schedule) != [] ==> e == old(schedule[0]) && schedule == old(schedule[1..])
      ensures n == (if e.Ready? then Moved(e.n, |data|) else 0) && sent == old(sent) + data[..n]
    {
      e := Next();
      n := if e.Ready? then Moved(e.n, |data|) else 0;
      sent := sent + data[..n];
    }

    /** Reads at most `need` bytes; with nothing to read the call would block. */
    method Read(need: nat) returns (e: Io, data: seq<byte>)
      requires need > 0
      modifies this`schedule, this`inbound
      ensures old(schedule) == [] ==> e == Failed && schedule == []
      ensures old(schedule) != [] ==>
                schedule == old(schedule[1..])
                && e == if old(schedule[0]).Ready? && old(inbound) == [] then WouldBlock else old(schedule[0])
      ensures e.Ready? ==>
              old(inbound) != [] && |data| == Moved(e.n, if need < |old(inbound)| then need else |old(inbound)|)
      ensures !e.Ready? ==> data == []
      ensures old(inbound) == data + inbound
    {
      e := Next();
      if e.Ready? && inbound == [] {
        e := WouldBlock;
      }
      var n := if e.Ready? then Moved(e.n, if need < |inbound| then need else |inbound|) else 0;
      data := inbound[..n];
      inbound := inbound[n..];
    }
  }

  /** Retries until every byte is accepted or the socket is lost; what got out is always a prefix. */
  method WriteAllRetry(socket: Socket, bytes: seq<byte>) returns (ok: bool)
    modifies socket`schedule, socket`sent
    ensures var (n, rest) := old(Accepted(|bytes|, socket.schedule));
            socket.sent == old(socket.sent) + bytes[..n] && socket.schedule == rest && ok == (n == |bytes|)
    ensures ok <==> Carries(old(socket.schedule), |bytes|)
  {
    var data := bytes;
    ghost var (n, rest) := Accepted(|bytes|, socket.schedule);
    ghost var whole := Carries(socket.schedule, |bytes|);
    assert (n == |bytes|) == whole by {
      AllAcceptedExactly(|bytes|, socket.schedule);
    }
    while data != []
      invariant |data| <= |bytes| && data == bytes[|bytes| - |data|..]
      invariant socket.sent == old(socket.sent) + bytes[..|bytes| - |data|]
      invariant var (more, left) := Accepted(|data|, socket.schedule);
                n == |bytes| - |data| + more && rest == left
      decreases |socket.schedule|, |data|
    {
      ghost var gone := |bytes| - |data|;
      var e, k := socket.Write(data);
      match e {
        case Ready(_) =>
          data := data[k..];
          assert bytes[..gone] + bytes[gone..][..k] == bytes[..gone + k];
        case WouldBlock | TimedOut | Interrupted =>
        case Closed | Failed =>
          return false;
      }
    }
    ok := true;
  }
}
