/** However a byte stream is cut into reads, the reader sees the frames of one simple parse. */
module ReaderLaws {
  import opened Outcomes
  import opened Bytes
  import opened Crypto
  import opened Packets
  import opened Sockets
  import opened Readers

  /** What a sequence of `read` calls yields up to the first error. */
  datatype Session = Session(packets: seq<Packet>, reader: Reader, taken: nat, error: Option<ReadError>)

  /** One schedule per call; the calls stop at the first error. */
  function Reads(st: Stream, r: Reader, inbound: seq<byte>, schedules: seq<seq<Io>>): (s: Session)
    requires ReaderOk(r)
    ensures s.taken <= |inbound| && ReaderOk(s.reader)
    decreases |schedules|
  {
    if schedules == [] then Session([], r, 0, None)
    else
      var step := ReadStep(st, r, inbound, schedules[0]);
      match step.outcome
      case Broken(e) => Session([], step.reader, step.taken, Some(e))
      case Nothing =>
        var s := Reads(st, step.reader, inbound[step.taken..], schedules[1..]);
        s.(taken := step.taken + s.taken)
      case Got(p) =>
        var s := Reads(st, step.reader, inbound[step.taken..], schedules[1..]);
        s.(packets := [p] + s.packets, taken := step.taken + s.taken)
  }

  /** Opening frames in turn, up to the first that is refused. */
  datatype Opening = Opening(packets: seq<Packet>, error: Option<PacketError>, count: nat)

  function OpenAll(st: Stream, count: nat, frames: seq<seq<byte>>): (o: Opening)
    ensures |o.packets| <= |frames|
    decreases |frames|
  {
    if frames == [] then Opening([], None, count)
    else
      var (p, next) := OpenEntry(st, count, frames[0]);
      match p
      case Err(e) => Opening([], Some(e), next)
      case Ok(q) =>
        var o := OpenAll(st, next, frames[1..]);
        o.(packets := [q] + o.packets)
  }

  function Refusal(e: Option<ReadError>): Option<PacketError> {
    if e.Some? && e.value.Unreadable? then Some(e.value.reason) else None
  }

  /** A session that opened the whole frames in turn and kept the rest in `partial`;
      one that ended on an unreadable frame took exactly up to that frame's end. */
  ghost predicate Follows(st: Stream, r: Reader, parsed: Parsed, s: Session) {
    var o := OpenAll(st, r.count, parsed.frames);
    && s.packets == o.packets
    && Refusal(s.error) == o.error
    && s.reader == Reader(true, r.sequence + |o.packets|, parsed.left, [], o.count)
    && (if o.error.Some? then |parsed.frames| == |o.packets| + 1 && parsed.left == []
        else |parsed.frames| == |o.packets|)
  }

  /** The session read exactly what one parse of the bytes it took would give. */
  ghost predicate Faithful(st: Stream, r: Reader, inbound: seq<byte>, s: Session) {
    s.taken <= |inbound| && Follows(st, r, ParseFrames(r.partial + inbound[..s.taken]), s)
  }

  lemma ParseIncomplete(s: seq<byte>)
    requires Incomplete(s)
    ensures ParseFrames(s) == Parsed([], s)
  {
  }

  predicate OneFrame(whole: seq<byte>) {
    |whole| >= LENGTH_BYTES && |whole| == LENGTH_BYTES + FromBe4(whole)
  }

  lemma ParseWholeFrame(whole: seq<byte>, more: seq<byte>)
    requires OneFrame(whole)
    ensures ParseFrames(whole + more)
            == Parsed([whole[LENGTH_BYTES..]] + ParseFrames(more).frames, ParseFrames(more).left)
  {
    var s := whole + more;
    assert s[0] == whole[0] && s[1] == whole[1] && s[2] == whole[2] && s[3] == whole[3];
    assert s[|whole|..] == more && s[LENGTH_BYTES..|whole|] == whole[LENGTH_BYTES..];
  }

  lemma ParseLastFrame(whole: seq<byte>)
    requires OneFrame(whole)
    ensures ParseFrames(whole) == Parsed([whole[LENGTH_BYTES..]], [])
  {
    ParseWholeFrame(whole, []);
    ParseIncomplete([]);
    assert whole + [] == whole;
  }

  function Waiting(r: Reader, arrived: seq<byte>): Reader {
    r.(partial := r.partial + arrived)
  }

  function Completing(r: Reader, count: nat): Reader {
    r.(partial := [], count := count, sequence := r.sequence + 1)
  }

  lemma ReadsWhenWaiting(st: Stream, r: Reader, inbound: seq<byte>, schedules: seq<seq<Io>>, n: nat, f: Fill,
                         rest: seq<Io>)
    requires ReaderOk(r) && r.live && r.queue == [] && schedules != []
    requires FillFrame(r.partial, inbound, schedules[0]) == (n, f, rest) && f != Filled
    ensures var s := Reads(st, r, inbound, schedules);
            if Stopped(f) == Nothing
            then var t := Reads(st, Waiting(r, inbound[..n]), inbound[n..], schedules[1..]);
              s == t.(taken := n + t.taken)
            else s == Session([], Waiting(r, inbound[..n]), n, Some(Stopped(f).error))
  {
  }

  lemma ReadsWhenCompleting(st: Stream, r: Reader, inbound: seq<byte>, schedules: seq<seq<Io>>, n: nat, rest: seq<Io>)
    requires ReaderOk(r) && r.live && r.queue == [] && schedules != []
    requires FillFrame(r.partial, inbound, schedules[0]) == (n, Filled, rest)
    ensures var s := Reads(st, r, inbound, schedules);
            var (p, count) := OpenEntry(st, r.count, (r.partial + inbound[..n])[LENGTH_BYTES..]);
            if p.Ok?
            then var t := Reads(st, Completing(r, count), inbound[n..], schedules[1..]);
              s == t.(packets := [p.value] + t.packets, taken := n + t.taken)
            else s == Session([], r.(partial := [], count := count), n, Some(Unreadable(p.error)))
  {
  }

  /** A call that completes no frame only moves bytes from the connection to `partial`. */
  lemma WaitingChangesNothing(st: Stream, r: Reader, arrived: seq<byte>, parsed: Parsed, t: Session, taken: nat)
    requires Follows(st, Waiting(r, arrived), parsed, t)
    ensures Follows(st, r, parsed, t.(taken := taken))
  {
  }

  lemma FollowsAfterWait(st: Stream, r: Reader, inbound: seq<byte>, n: nat, t: Session)
    requires n + t.taken <= |inbound| && Faithful(st, Waiting(r, inbound[..n]), inbound[n..], t)
    ensures Faithful(st, r, inbound, t.(taken := n + t.taken))
  {
    Splice(r.partial, inbound, n, t.taken);
    var bytes := r.partial + inbound[..n] + inbound[n..][..t.taken];
    WaitingChangesNothing(st, r, inbound[..n], ParseFrames(bytes), t, n + t.taken);
    TookExactly(st, r, inbound, bytes, t.(taken := n + t.taken));
  }

  lemma FollowsAfterFrame(st: Stream, r: Reader, first: seq<byte>, p: Packet, parsed: Parsed, t: Session, n: nat)
    requires OpenEntry(st, r.count, first) == (Ok(p), r.count + 1)
    requires Follows(st, Completing(r, r.count + 1), parsed, t)
    ensures Follows(st, r, Parsed([first] + parsed.frames, parsed.left),
                    t.(packets := [p] + t.packets, taken := n + t.taken))
  {
    assert ([first] + parsed.frames)[1..] == parsed.frames;
  }

  /** A call that completes a frame takes exactly its bytes. */
  lemma FollowsAfterWhole(st: Stream, r: Reader, whole: seq<byte>, more: seq<byte>, p: Packet, t: Session, n: nat)
    requires OneFrame(whole) && OpenEntry(st, r.count, whole[LENGTH_BYTES..]) == (Ok(p), r.count + 1)
    requires Follows(st, Completing(r, r.count + 1), ParseFrames(more), t)
    ensures Follows(st, r, ParseFrames(whole + more), t.(packets := [p] + t.packets, taken := n + t.taken))
  {
    ParseWholeFrame(whole, more);
    FollowsAfterFrame(st, r, whole[LENGTH_BYTES..], p, ParseFrames(more), t, n);
  }

  lemma OpeningAdvances(st: Stream, count: nat, data: seq<byte>)
    requires OpenEntry(st, count, data).0.Ok?
    ensures OpenEntry(st, count, data).1 == count + 1
  {
  }

  lemma FollowsOn(st: Stream, r: Reader, inbound: seq<byte>, n: nat, p: Packet, t: Session)
    requires n + t.taken <= |inbound| && OneFrame(r.partial + inbound[..n])
    requires OpenEntry(st, r.count, (r.partial + inbound[..n])[LENGTH_BYTES..]) == (Ok(p), r.count + 1)
    requires Faithful(st, Completing(r, r.count + 1), inbound[n..], t)
    ensures Faithful(st, r, inbound, t.(packets := [p] + t.packets, taken := n + t.taken))
  {
    var whole, more := r.partial + inbound[..n], inbound[n..][..t.taken];
    StartsAfresh(st, r, inbound[n..], t);
    FollowsAfterWhole(st, r, whole, more, p, t, n);
    Splice(r.partial, inbound, n, t.taken);
    TookExactly(st, r, inbound, whole + more, t.(packets := [p] + t.packets, taken := n + t.taken));
  }

  /** After a frame, what a session reads is what the bytes it took parse to. */
  lemma StartsAfresh(st: Stream, r: Reader, inbound: seq<byte>, t: Session)
    requires t.taken <= |inbound| && Faithful(st, Completing(r, r.count + 1), inbound, t)
    ensures Follows(st, Completing(r, r.count + 1), ParseFrames(inbound[..t.taken]), t)
  {
    assert Completing(r, r.count + 1).partial + inbound[..t.taken] == inbound[..t.taken];
  }

  lemma TookExactly(st: Stream, r: Reader, inbound: seq<byte>, bytes: seq<byte>, s: Session)
    requires s.taken <= |inbound| && bytes == r.partial + inbound[..s.taken] && Follows(st, r, ParseFrames(bytes), s)
    ensures Faithful(st, r, inbound, s)
  {
  }

  lemma FollowsUnreadable(st: Stream, r: Reader, whole: seq<byte>, e: PacketError, count: nat, n: nat)
    requires OneFrame(whole) && r.live && r.queue == []
             && OpenEntry(st, r.count, whole[LENGTH_BYTES..]) == (Err(e), count)
    ensures Follows(st, r, ParseFrames(whole), Session([], r.(partial := [], count := count), n, Some(Unreadable(e))))
  {
    ParseLastFrame(whole);
  }

  lemma FollowsStopped(st: Stream, r: Reader, s: Session)
    requires Incomplete(s.reader.partial) && s.reader == r.(partial := s.reader.partial) && s.packets == []
             && Refusal(s.error) == None
    requires r.live && r.queue == []
    ensures Follows(st, r, ParseFrames(s.reader.partial), s)
  {
    ParseIncomplete(s.reader.partial);
  }

  /** Reading is parsing: for any split into reads, with would-block and interrupts anywhere. */
  lemma {:induction false} ReadingIsParsing(st: Stream, r: Reader, inbound: seq<byte>, schedules: seq<seq<Io>>)
    requires ReaderOk(r) && r.live && r.queue == []
    ensures Faithful(st, r, inbound, Reads(st, r, inbound, schedules))
    decreases |schedules|, 2
  {
    if schedules == [] {
      assert r.partial + inbound[..0] == r.partial;
      FollowsStopped(st, r, Reads(st, r, inbound, schedules));
    } else {
      var (n, f, rest) := FillFrame(r.partial, inbound, schedules[0]);
      if f == Filled {
        CallThatCompletes(st, r, inbound, schedules, n, rest);
      } else {
        CallThatWaits(st, r, inbound, schedules, n, f, rest);
      }
    }
  }

  lemma {:induction false} CallThatCompletes(st: Stream, r: Reader, inbound: seq<byte>, schedules: seq<seq<Io>>, n: nat,
                                             rest: seq<Io>)
    requires ReaderOk(r) && r.live && r.queue == [] && schedules != []
    requires FillFrame(r.partial, inbound, schedules[0]) == (n, Filled, rest)
    ensures Faithful(st, r, inbound, Reads(st, r, inbound, schedules))
    decreases |schedules|, 1
  {
    var whole := r.partial + inbound[..n];
    var (p, count) := OpenEntry(st, r.count, whole[LENGTH_BYTES..]);
    if p.Ok? {
      CallThatSucceeds(st, r, inbound, schedules, n, rest, p.value);
    } else {
      ReadsWhenCompleting(st, r, inbound, schedules, n, rest);
      FollowsUnreadable(st, r, whole, p.error, count, n);
    }
  }

  lemma {:induction false} CallThatSucceeds(st: Stream, r: Reader, inbound: seq<byte>, schedules: seq<seq<Io>>, n: nat,
                                            rest: seq<Io>, p: Packet)
    requires ReaderOk(r) && r.live && r.queue == [] && schedules != []
    requires FillFrame(r.partial, inbound, schedules[0]) == (n, Filled, rest)
    requires OpenEntry(st, r.count, (r.partial + inbound[..n])[LENGTH_BYTES..]).0 == Ok(p)
    ensures Faithful(st, r, inbound, Reads(st, r, inbound, schedules))
    decreases |schedules|, 0
  {
    OpeningAdvances(st, r.count, (r.partial + inbound[..n])[LENGTH_BYTES..]);
    ReadsWhenCompleting(st, r, inbound, schedules, n, rest);
    var next, t := Completing(r, r.count + 1), Reads(st, Completing(r, r.count + 1), inbound[n..], schedules[1..]);
    ReadingIsParsing(st, next, inbound[n..], schedules[1..]);
    FollowsOn(st, r, inbound, n, p, t);
    assert Reads(st, r, inbound, schedules) == t.(packets := [p] + t.packets, taken := n + t.taken);
    assert Faithful(st, r, inbound, Reads(st, r, inbound, schedules));
  }

  lemma {:induction false} CallThatWaits(st: Stream, r: Reader, inbound: seq<byte>, schedules: seq<seq<Io>>, n: nat,
                                         f: Fill, rest: seq<Io>)
    requires ReaderOk(r) && r.live && r.queue == [] && schedules != []
    requires FillFrame(r.partial, inbound, schedules[0]) == (n, f, rest) && f != Filled
    ensures Faithful(st, r, inbound, Reads(st, r, inbound, schedules))
    decreases |schedules|, 0
  {
    ReadsWhenWaiting(st, r, inbound, schedules, n, f, rest);
    if Stopped(f) == Nothing {
      ReadingIsParsing(st, Waiting(r, inbound[..n]), inbound[n..], schedules[1..]);
      var t := Reads(st, Waiting(r, inbound[..n]), inbound[n..], schedules[1..]);
      FollowsAfterWait(st, r, inbound, n, t);
      assert Reads(st, r, inbound, schedules) == t.(taken := n + t.taken);
      assert Faithful(st, r, inbound, Reads(st, r, inbound, schedules));
    } else {
      FollowsStopped(st, r, Reads(st, r, inbound, schedules));
    }
  }

  /** Two ways of cutting the same bytes into reads give the same packets and leave the same reader. */
  lemma ChunkingIndependence(st: Stream, r: Reader, inbound: seq<byte>, one: seq<seq<Io>>, two: seq<seq<Io>>)
    requires ReaderOk(r) && r.live && r.queue == []
    requires Reads(st, r, inbound, one).taken == Reads(st, r, inbound, two).taken
    ensures var a, b := Reads(st, r, inbound, one), Reads(st, r, inbound, two);
            a.packets == b.packets && a.reader == b.reader && Refusal(a.error) == Refusal(b.error)
  {
    ReadingIsParsing(st, r, inbound, one);
    ReadingIsParsing(st, r, inbound, two);
  }
}
