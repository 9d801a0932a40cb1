/** What a `read` answers, told call by call: which event on the socket gives which outcome. */
module ReadOutcomes {
  import opened Outcomes
  import opened Bytes
  import opened Crypto
  import opened Packets
  import opened Sockets
  import opened Readers
  import opened ReaderLaws

  // ---------------------------------------------------------------- one call on the socket

  /** What the buffer of the next call holds: the rest of the length, or the rest of the body it announces. */
  function Wanted(s: seq<byte>): nat
    requires Incomplete(s)
  {
    if |s| < 4 then 4 - |s| else 4 + FromBe4(s) - |s|
  }

  /** The bytes a call moves: at least one if there are any, at most what is wanted and what is there. */
  function Takes(e: Io, wanted: nat, available: nat): (m: nat)
    ensures m <= wanted && m <= available
  {
    var most := if wanted < available then wanted else available;
    if !e.Ready? || most == 0 then 0 else if e.n == 0 then 1 else if e.n < most then e.n else most
  }

  /** Calls after which the loops go on: bytes came, or the call was interrupted. */
  predicate GoesOn(e: Io, available: nat) {
    e.Interrupted? || (e.Ready? && available > 0)
  }

  /** Calls that find nothing to read, now. */
  predicate FindsNothing(e: Io, available: nat) {
    e.WouldBlock? || e.TimedOut? || (e.Ready? && available == 0)
  }

  /** The first `k` calls all go on, and the frame is not whole before any of them, nor after the last. */
  ghost predicate Reaches(partial: seq<byte>, inbound: seq<byte>, schedule: seq<Io>, k: nat)
    requires k <= |schedule|
    decreases k
  {
    Incomplete(partial) &&
    (k > 0 ==>
       var m := Takes(schedule[0], Wanted(partial), |inbound|);
       GoesOn(schedule[0], |inbound|) && Reaches(partial + inbound[..m], inbound[m..], schedule[1..], k - 1))
  }

  /** How many bytes are still to be read after those calls. */
  ghost function LeftAfter(partial: seq<byte>, inbound: seq<byte>, schedule: seq<Io>, k: nat): nat
    requires k <= |schedule| && Reaches(partial, inbound, schedule, k)
    decreases k
  {
    if k == 0 then |inbound|
    else
      var m := Takes(schedule[0], Wanted(partial), |inbound|);
      LeftAfter(partial + inbound[..m], inbound[m..], schedule[1..], k - 1)
  }

  // ---------------------------------------------------------------- the two fill loops, call by call

  lemma FillingUnfolds(need: nat, available: nat, schedule: seq<Io>)
    requires need > 0 && schedule != [] && GoesOn(schedule[0], available)
    ensures var m := Takes(schedule[0], need, available);
            var (n, f, rest) := Filling(need - m, available - m, schedule[1..]);
            Filling(need, available, schedule) == (m + n, f, rest)
  {
  }

  /** A call that stops stops both loops. */
  lemma StoppingCall(partial: seq<byte>, inbound: seq<byte>, schedule: seq<Io>)
    requires Incomplete(partial) && (schedule != [] ==> !GoesOn(schedule[0], |inbound|))
    ensures var f := FillFrame(partial, inbound, schedule).1;
            && (schedule == [] || schedule[0].Failed? ==> f == Lost)
            && (schedule != [] && schedule[0].Closed? ==> f == EndOfStream)
            && (schedule != [] && FindsNothing(schedule[0], |inbound|) ==> f == Pending)
  {
    if |partial| >= 4 {
      assert partial + inbound[..0] == partial;
    }
  }

  /** A call that goes on leaves the loops with the bytes it moved. */
  lemma GoingCall(partial: seq<byte>, inbound: seq<byte>, schedule: seq<Io>)
    requires Incomplete(partial) && schedule != [] && GoesOn(schedule[0], |inbound|)
    ensures var m := Takes(schedule[0], Wanted(partial), |inbound|);
            var next := partial + inbound[..m];
            if Incomplete(next) then FillFrame(partial, inbound, schedule).1
               == FillFrame(next, inbound[m..], schedule[1..]).1
            else FillFrame(partial, inbound, schedule).1 == Filled
  {
    var m := Takes(schedule[0], Wanted(partial), |inbound|);
    if |partial| < 4 {
      GoingInTheLength(partial, inbound, schedule, m);
    } else {
      GoingInTheBody(partial, inbound, schedule, m);
    }
  }

  /** The answer of both loops: the first one's, or the second one's where the first filled the length. */
  lemma LengthThenBody(partial: seq<byte>, inbound: seq<byte>, schedule: seq<Io>)
    requires Incomplete(partial)
    ensures var (n, f, rest) := FillLength(partial, |inbound|, schedule);
            FillFrame(partial, inbound, schedule).1
            == if f != Filled then f else Filling(Missing(partial + inbound[..n]), |inbound| - n, rest).1
  {
  }

  lemma LengthGoesOn(partial: seq<byte>, inbound: seq<byte>, schedule: seq<Io>, m: nat)
    requires |partial| < 4 && schedule != [] && GoesOn(schedule[0], |inbound|)
    requires m == Takes(schedule[0], 4 - |partial|, |inbound|)
    ensures var (n, f, rest) := FillLength(partial + inbound[..m], |inbound| - m, schedule[1..]);
            FillLength(partial, |inbound|, schedule) == (m + n, f, rest)
  {
    FillingUnfolds(4 - |partial|, |inbound|, schedule);
  }

  lemma GoingInTheLength(partial: seq<byte>, inbound: seq<byte>, schedule: seq<Io>, m: nat)
    requires |partial| < 4 && schedule != [] && GoesOn(schedule[0], |inbound|)
    requires m == Takes(schedule[0], 4 - |partial|, |inbound|)
    ensures var next := partial + inbound[..m];
            if Incomplete(next) then FillFrame(partial, inbound, schedule).1
               == FillFrame(next, inbound[m..], schedule[1..]).1
            else FillFrame(partial, inbound, schedule).1 == Filled
  {
    var next := partial + inbound[..m];
    LengthGoesOn(partial, inbound, schedule, m);
    var (n, f, rest) := FillLength(next, |inbound| - m, schedule[1..]);
    LengthThenBody(partial, inbound, schedule);
    if Incomplete(next) {
      LengthThenBody(next, inbound[m..], schedule[1..]);
      assert next + inbound[m..][..n] == partial + inbound[..m + n] by {
        Splice(partial, inbound, m, n);
      }
    } else {
      WholeInTheLength(next, |inbound| - m, schedule[1..]);
      assert m + n == m;
    }
  }

  lemma WholeInTheLength(next: seq<byte>, available: nat, schedule: seq<Io>)
    requires !Incomplete(next)
    ensures FillLength(next, available, schedule) == (0, Filled, schedule)
    ensures Filling(Missing(next), available, schedule).1 == Filled
  {
  }

  lemma GoingInTheBody(partial: seq<byte>, inbound: seq<byte>, schedule: seq<Io>, m: nat)
    requires Incomplete(partial) && |partial| >= 4 && schedule != [] && GoesOn(schedule[0], |inbound|)
    requires m == Takes(schedule[0], 4 + FromBe4(partial) - |partial|, |inbound|)
    ensures var next := partial + inbound[..m];
            if Incomplete(next) then FillFrame(partial, inbound, schedule).1
               == FillFrame(next, inbound[m..], schedule[1..]).1
            else FillFrame(partial, inbound, schedule).1 == Filled
  {
    var next := partial + inbound[..m];
    assert FromBe4(next) == FromBe4(partial);
    FillingUnfolds(Missing(partial), |inbound|, schedule);
    BodyOnly(partial, inbound, schedule);
    if Incomplete(next) {
      BodyOnly(next, inbound[m..], schedule[1..]);
    }
  }

  /** Once the length is there, only the body is filled. */
  lemma BodyOnly(partial: seq<byte>, inbound: seq<byte>, schedule: seq<Io>)
    requires Incomplete(partial) && |partial| >= 4
    ensures FillFrame(partial, inbound, schedule).1 == Filling(Missing(partial), |inbound|, schedule).1
  {
    assert partial + inbound[..0] == partial;
  }

  /** Where a fill ends: at the first call that stops it. */
  lemma {:induction false} StopsWhereItReaches(partial: seq<byte>, inbound: seq<byte>, schedule: seq<Io>, k: nat)
    requires k <= |schedule| && Reaches(partial, inbound, schedule, k)
    requires k < |schedule| ==> !GoesOn(schedule[k], LeftAfter(partial, inbound, schedule, k))
    ensures var f := FillFrame(partial, inbound, schedule).1;
            && (k == |schedule| || schedule[k].Failed? ==> f == Lost)
            && (k < |schedule| && schedule[k].Closed? ==> f == EndOfStream)
            && (k < |schedule| && FindsNothing(schedule[k], LeftAfter(partial, inbound, schedule, k)) ==> f == Pending)
    decreases k
  {
    if k == 0 {
      StoppingCall(partial, inbound, schedule);
    } else {
      var m := Takes(schedule[0], Wanted(partial), |inbound|);
      GoingCall(partial, inbound, schedule);
      assert k < |schedule| ==> schedule[1..][k - 1] == schedule[k];
      StopsWhereItReaches(partial + inbound[..m], inbound[m..], schedule[1..], k - 1);
    }
  }

  /** A fill that does not complete the frame does end at such a call. */
  lemma {:induction false} UnfilledStops(partial: seq<byte>, inbound: seq<byte>, schedule: seq<Io>) returns (k: nat)
    requires Incomplete(partial) && FillFrame(partial, inbound, schedule).1 != Filled
    ensures k <= |schedule| && Reaches(partial, inbound, schedule, k)
    ensures k < |schedule| ==> !GoesOn(schedule[k], LeftAfter(partial, inbound, schedule, k))
    decreases |schedule|
  {
    if schedule == [] || !GoesOn(schedule[0], |inbound|) {
      k := 0;
    } else {
      var m := Takes(schedule[0], Wanted(partial), |inbound|);
      GoingCall(partial, inbound, schedule);
      k := UnfilledStops(partial + inbound[..m], inbound[m..], schedule[1..]);
      assert k < |schedule[1..]| ==> schedule[1..][k] == schedule[k + 1];
      k := k + 1;
    }
  }

  // ---------------------------------------------------------------- what `read` answers

  /** The connection is closed by the peer before the frame is whole. */
  ghost predicate MeetsClosed(partial: seq<byte>, inbound: seq<byte>, schedule: seq<Io>) {
    exists k :: 0 <= k < |schedule| && Reaches(partial, inbound, schedule, k) && schedule[k].Closed?
  }

  /** It fails, or the schedule runs out, before the frame is whole. */
  ghost predicate MeetsFailure(partial: seq<byte>, inbound: seq<byte>, schedule: seq<Io>) {
    exists k :: 0 <= k <= |schedule| && Reaches(partial, inbound, schedule, k)
      && (k == |schedule| || schedule[k].Failed?)
  }

  /** A call would block, times out or finds no byte before the frame is whole. */
  ghost predicate MeetsNothing(partial: seq<byte>, inbound: seq<byte>, schedule: seq<Io>) {
    exists k :: 0 <= k < |schedule| && Reaches(partial, inbound, schedule, k)
      && FindsNothing(schedule[k], LeftAfter(partial, inbound, schedule, k))
  }

  lemma FillAnswers(partial: seq<byte>, inbound: seq<byte>, schedule: seq<Io>)
    requires Incomplete(partial)
    ensures var f := FillFrame(partial, inbound, schedule).1;
            && (f == EndOfStream <==> MeetsClosed(partial, inbound, schedule))
            && (f == Lost <==> MeetsFailure(partial, inbound, schedule))
            && (f == Pending <==> MeetsNothing(partial, inbound, schedule))
  {
    var f := FillFrame(partial, inbound, schedule).1;
    if f != Filled {
      var k := UnfilledStops(partial, inbound, schedule);
      StopsWhereItReaches(partial, inbound, schedule, k);
    }
    forall k | 0 <= k <= |schedule| && Reaches(partial, inbound, schedule, k)
               && (k < |schedule| ==> !GoesOn(schedule[k], LeftAfter(partial, inbound, schedule, k)))
      ensures k == |schedule| || schedule[k].Failed? ==> f == Lost
      ensures k < |schedule| && schedule[k].Closed? ==> f == EndOfStream
      ensures k < |schedule| && FindsNothing(schedule[k], LeftAfter(partial, inbound, schedule, k)) ==> f == Pending
    {
      StopsWhereItReaches(partial, inbound, schedule, k);
    }
  }

  /** Each answer of a `read` from a live socket with no catch-up queued, exactly: a closed and a lost connection are
      reported, whatever arrived before, and nothing else is reported as either; and there is no packet yet if and only
      if the socket has no more to give for now. */
  lemma ReadAnswers(st: Stream, r: Reader, inbound: seq<byte>, schedule: seq<Io>)
    requires ReaderOk(r) && r.live && r.queue == []
    ensures var outcome := ReadStep(st, r, inbound, schedule).outcome;
            && (outcome == Broken(ConnectionClosed) <==> MeetsClosed(r.partial, inbound, schedule))
            && (outcome == Broken(SocketLost) <==> MeetsFailure(r.partial, inbound, schedule))
            && (outcome == Nothing <==> MeetsNothing(r.partial, inbound, schedule))
  {
    FillAnswers(r.partial, inbound, schedule);
  }

  /** A reader with a catch-up entry answers with that entry, or with its refusal, and does not touch the socket; one
      with neither entry nor socket has nothing. */
  lemma ReadAnswersWithoutSocket(st: Stream, r: Reader, inbound: seq<byte>, schedule: seq<Io>)
    requires ReaderOk(r) && (r.queue != [] || !r.live)
    ensures var s := ReadStep(st, r, inbound, schedule);
            && s.taken == 0 && s.rest == schedule && s.reader.live == r.live
            && s.reader.sequence == r.sequence && s.reader.partial == r.partial
            && (s.outcome == Nothing <==> r.queue == [])
            && (s.outcome.Broken? ==> s.outcome.error.Unreadable?)
            && (r.queue == [] ==> s.reader == r)
            && (r.queue != [] ==> s.reader.queue == r.queue[1..])
  {
  }

  // ---------------------------------------------------------------- a sequence of reads

  /** The session up to, and without, call `c`. */
  function Before(st: Stream, r: Reader, inbound: seq<byte>, schedules: seq<seq<Io>>, c: nat): Session
    requires ReaderOk(r) && c <= |schedules|
  {
    Reads(st, r, inbound, schedules[..c])
  }

  /** Call `c` is made, and closes or loses the connection. */
  ghost predicate CallMeetsClosed(st: Stream, r: Reader, inbound: seq<byte>, schedules: seq<seq<Io>>, c: nat)
    requires ReaderOk(r) && c < |schedules|
  {
    var s := Before(st, r, inbound, schedules, c);
    s.error == None && MeetsClosed(s.reader.partial, inbound[s.taken..], schedules[c])
  }

  ghost predicate CallMeetsFailure(st: Stream, r: Reader, inbound: seq<byte>, schedules: seq<seq<Io>>, c: nat)
    requires ReaderOk(r) && c < |schedules|
  {
    var s := Before(st, r, inbound, schedules, c);
    s.error == None && MeetsFailure(s.reader.partial, inbound[s.taken..], schedules[c])
  }

  /** The error after one more call: an earlier one stays, and else it is what that `read` answers. */
  function ErrorAfter(st: Stream, was: Option<ReadError>, r: Reader, inbound: seq<byte>, schedule: seq<Io>)
    : Option<ReadError>
    requires ReaderOk(r)
  {
    if was.Some? then was
    else match ReadStep(st, r, inbound, schedule).outcome
      case Broken(e) => Some(e)
      case _ => None
  }

  /** The error after session `s` and one more call. */
  function ErrorThen(st: Stream, s: Session, inbound: seq<byte>, schedule: seq<Io>): Option<ReadError>
    requires ReaderOk(s.reader) && s.taken <= |inbound|
  {
    ErrorAfter(st, s.error, s.reader, inbound[s.taken..], schedule)
  }

  /** A session starts with its first call. */
  lemma FirstRead(st: Stream, r: Reader, inbound: seq<byte>, schedules: seq<seq<Io>>)
    requires ReaderOk(r) && schedules != []
    ensures var first, all := ReadStep(st, r, inbound, schedules[0]), Reads(st, r, inbound, schedules);
            if first.outcome.Broken? then all.error == Some(first.outcome.error)
            else
              var s := Reads(st, first.reader, inbound[first.taken..], schedules[1..]);
              all == s.(packets := all.packets, taken := first.taken + s.taken)
  {
  }

  lemma {:induction false} OneMoreRead(st: Stream, r: Reader, inbound: seq<byte>, schedules: seq<seq<Io>>)
    requires ReaderOk(r) && schedules != []
    ensures var n := |schedules| - 1;
            Reads(st, r, inbound, schedules).error
            == ErrorThen(st, Before(st, r, inbound, schedules, n), inbound, schedules[n])
    decreases |schedules|
  {
    var n, first := |schedules| - 1, ReadStep(st, r, inbound, schedules[0]);
    FirstRead(st, r, inbound, schedules);
    if n == 0 {
      assert inbound[0..] == inbound;
    } else {
      FirstRead(st, r, inbound, schedules[..n]);
      if !first.outcome.Broken? {
        OneMoreRead(st, first.reader, inbound[first.taken..], schedules[1..]);
        AfterTheFirst(st, r, inbound, schedules, first);
      }
    }
  }

  lemma ErrorLater(st: Stream, all: Session, s: Session, inbound: seq<byte>, taken: nat, schedule: seq<Io>)
    requires ReaderOk(s.reader) && taken + s.taken <= |inbound|
    requires all.error == s.error && all.reader == s.reader && all.taken == taken + s.taken
    ensures ErrorThen(st, all, inbound, schedule) == ErrorThen(st, s, inbound[taken..], schedule)
  {
    assert inbound[taken..][s.taken..] == inbound[taken + s.taken..];
  }

  lemma AfterTheFirst(st: Stream, r: Reader, inbound: seq<byte>, schedules: seq<seq<Io>>, first: ReadResult)
    requires ReaderOk(r) && |schedules| > 1 && first == ReadStep(st, r, inbound, schedules[0]) && !first.outcome.Broken?
    ensures var n, rest := |schedules| - 1, schedules[1..];
            ErrorThen(st, Before(st, r, inbound, schedules, n), inbound, schedules[n])
            == ErrorThen(st, Before(st, first.reader, inbound[first.taken..], rest, n - 1), inbound[first.taken..],
                         rest[n - 1])
  {
    var n, before := |schedules| - 1, schedules[..|schedules| - 1];
    assert before[1..] == schedules[1..][..n - 1] && before[0] == schedules[0];
    FirstRead(st, r, inbound, before);
    var s := Reads(st, first.reader, inbound[first.taken..], before[1..]);
    ErrorLater(st, Reads(st, r, inbound, before), s, inbound, first.taken, schedules[n]);
  }

  /** Some call of the session closes, or loses, the connection. */
  ghost predicate SomeCallCloses(st: Stream, r: Reader, inbound: seq<byte>, schedules: seq<seq<Io>>)
    requires ReaderOk(r)
  {
    exists c :: 0 <= c < |schedules| && CallMeetsClosed(st, r, inbound, schedules, c)
  }

  ghost predicate SomeCallFails(st: Stream, r: Reader, inbound: seq<byte>, schedules: seq<seq<Io>>)
    requires ReaderOk(r)
  {
    exists c :: 0 <= c < |schedules| && CallMeetsFailure(st, r, inbound, schedules, c)
  }

  lemma SomeCallOrTheLast(st: Stream, r: Reader, inbound: seq<byte>, schedules: seq<seq<Io>>)
    requires ReaderOk(r) && schedules != []
    ensures var n := |schedules| - 1;
            && (SomeCallCloses(st, r, inbound, schedules) <==>
                SomeCallCloses(st, r, inbound, schedules[..n]) || CallMeetsClosed(st, r, inbound, schedules, n))
            && (SomeCallFails(st, r, inbound, schedules) <==>
                SomeCallFails(st, r, inbound, schedules[..n]) || CallMeetsFailure(st, r, inbound, schedules, n))
  {
    var n := |schedules| - 1;
    forall c | 0 <= c < n
      ensures CallMeetsClosed(st, r, inbound, schedules, c) == CallMeetsClosed(st, r, inbound, schedules[..n], c)
      ensures CallMeetsFailure(st, r, inbound, schedules, c) == CallMeetsFailure(st, r, inbound, schedules[..n], c)
    {
      SameCall(st, r, inbound, schedules, n, c);
    }
  }

  lemma SameCall(st: Stream, r: Reader, inbound: seq<byte>, schedules: seq<seq<Io>>, n: nat, c: nat)
    requires ReaderOk(r) && c < n <= |schedules|
    ensures CallMeetsClosed(st, r, inbound, schedules, c) == CallMeetsClosed(st, r, inbound, schedules[..n], c)
    ensures CallMeetsFailure(st, r, inbound, schedules, c) == CallMeetsFailure(st, r, inbound, schedules[..n], c)
  {
    assert schedules[..n][..c] == schedules[..c] && schedules[..n][c] == schedules[c];
  }

  /** The error of a session of reads, exactly: it ends with a closed connection if and only if some call that is made
      meets the close before its frame is whole, and with a lost one if and only if some call meets the failure. */
  lemma {:induction false} ReadingReports(st: Stream, r: Reader, inbound: seq<byte>, schedules: seq<seq<Io>>)
    requires ReaderOk(r) && r.live && r.queue == []
    ensures Reads(st, r, inbound, schedules).error == Some(ConnectionClosed)
            <==> SomeCallCloses(st, r, inbound, schedules)
    ensures Reads(st, r, inbound, schedules).error == Some(SocketLost) <==> SomeCallFails(st, r, inbound, schedules)
    decreases |schedules|
  {
    if schedules != [] {
      ReadingReports(st, r, inbound, schedules[..|schedules| - 1]);
      ErrorOfOneMore(st, r, inbound, schedules);
      SomeCallOrTheLast(st, r, inbound, schedules);
    }
  }

  lemma ErrorOfOneMore(st: Stream, r: Reader, inbound: seq<byte>, schedules: seq<seq<Io>>)
    requires ReaderOk(r) && r.live && r.queue == [] && schedules != []
    ensures var n := |schedules| - 1;
            var was, now := Reads(st, r, inbound, schedules[..n]).error, Reads(st, r, inbound, schedules).error;
            && (now == Some(ConnectionClosed) <==>
                was == Some(ConnectionClosed) || CallMeetsClosed(st, r, inbound, schedules, n))
            && (now == Some(SocketLost) <==> was == Some(SocketLost) || CallMeetsFailure(st, r, inbound, schedules, n))
  {
    OneMoreRead(st, r, inbound, schedules);
    LastCall(st, r, inbound, schedules);
  }

  /** What the last call adds, if it is made. */
  lemma LastCall(st: Stream, r: Reader, inbound: seq<byte>, schedules: seq<seq<Io>>)
    requires ReaderOk(r) && r.live && r.queue == [] && schedules != []
    ensures var s, n := Before(st, r, inbound, schedules, |schedules| - 1), |schedules| - 1;
            s.error == None ==>
              var outcome := ReadStep(st, s.reader, inbound[s.taken..], schedules[n]).outcome;
              && (outcome == Broken(ConnectionClosed) <==> CallMeetsClosed(st, r, inbound, schedules, n))
              && (outcome == Broken(SocketLost) <==> CallMeetsFailure(st, r, inbound, schedules, n))
  {
    var s, n := Before(st, r, inbound, schedules, |schedules| - 1), |schedules| - 1;
    ReadingIsParsing(st, r, inbound, schedules[..n]);
    assert Faithful(st, r, inbound, s);
    ReadAnswers(st, s.reader, inbound[s.taken..], schedules[n]);
  }
}
