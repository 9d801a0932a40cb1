/** Application packets, how they are sealed and opened, and their frames on the wire. */
module Packets {
  import opened Outcomes
  import opened Bytes
  import opened Crypto

  datatype PacketError = TooShort | AlreadyEncrypted | NotEncrypted | Refused(reason: CryptoError)

  datatype Packet = Packet(encrypted: bool, header: byte, payload: seq<byte>) {
    static function New(header: byte, payload: seq<byte>): Packet {
      Packet(false, header, payload)
    }

    /** Any non-zero first byte reads back as "encrypted". */
    static function FromSerialized(data: seq<byte>): Result<Packet, PacketError> {
      if |data| < 2 then Err(TooShort) else Ok(Packet(data[0] != 0, data[1], data[2..]))
    }

    function Serialize(): (s: seq<byte>)
      ensures |s| == Length()
    {
      [if encrypted then 1 else 0, header] + payload
    }

    function Length(): nat {
      2 + |payload|
    }

    lemma SerializeRoundTrip()
      ensures FromSerialized(Serialize()) == Ok(this)
    {
      assert Serialize()[2..] == payload;
    }

    method Encrypt(crypto: CryptoHandler) returns (r: Result<Packet, PacketError>)
      requires crypto.Valid()
      modifies crypto, crypto.nonce
      ensures crypto.Valid()
      ensures encrypted ==> r == Err(AlreadyEncrypted) && crypto.count == old(crypto.count)
      ensures !encrypted ==>
                crypto.count == old(crypto.count) + 1
                && r == Ok(Sealed(crypto.Direction(), old(crypto.count), this))
    {
      if encrypted {
        return Err(AlreadyEncrypted);
      }
      var sealed := crypto.Encrypt(payload);
      r := Ok(Packet(true, header, sealed));
    }

    method Decrypt(crypto: CryptoHandler) returns (r: Result<Packet, PacketError>)
      requires crypto.Valid()
      modifies crypto, crypto.nonce
      ensures crypto.Valid()
      ensures (r, crypto.count) == Opened(crypto.Direction(), old(crypto.count), this)
      ensures !encrypted ==> r == Err(NotEncrypted) && crypto.count == old(crypto.count)
      ensures encrypted && |payload| < 16 ==> r == Err(Refused(Truncated)) && crypto.count == old(crypto.count)
      ensures encrypted && |payload| >= 16 ==>
                crypto.count == old(crypto.count) + 1
                && r == match crypto.Direction().open(crypto.count, payload)
                        case Some(text) => Ok(Packet(false, header, text))
                        case None => Err(Refused(CryptoError.Decrypt))
    {
      if !encrypted {
        return Err(NotEncrypted);
      }
      var text := crypto.Decrypt(payload);
      match text
      case Ok(t) => r := Ok(Packet(false, header, t));
      case Err(e) => r := Err(Refused(e));
    }
  }

  /** What becomes of the `i`-th packet (from zero) a stream encrypts: it uses the nonce after `i + 1` increments. */
  function Sealed(st: Stream, i: nat, p: Packet): Packet {
    Packet(true, p.header, st.seal(i + 1, p.payload))
  }

  /** Decrypting with a stream that has already advanced `count` times: the outcome and the new count. */
  function Opened(st: Stream, count: nat, p: Packet): (Result<Packet, PacketError>, nat) {
    if !p.encrypted then (Err(NotEncrypted), count)
    else if |p.payload| < MAC_BYTES then (Err(Refused(Truncated)), count)
    else match st.open(count + 1, p.payload)
      case Some(text) => (Ok(Packet(false, p.header, text)), count + 1)
      case None => (Err(Refused(Decrypt)), count + 1)
  }

  /** Parsing and decrypting one serialized packet. */
  function OpenEntry(st: Stream, count: nat, data: seq<byte>): (Result<Packet, PacketError>, nat) {
    match Packet.FromSerialized(data)
    case Err(e) => (Err(e), count)
    case Ok(p) => Opened(st, count, p)
  }

  function SealedLength(p: Packet): nat {
    p.Length() + MAC_BYTES
  }

  lemma SealedHasSealedLength(st: Stream, i: nat, p: Packet)
    requires TagLaw(st)
    ensures Sealed(st, i, p).Length() == SealedLength(p)
  {
    assert |st.seal(i + 1, p.payload)| == |p.payload| + MAC_BYTES;
  }

  /** The bytes the `i`-th logged packet has in a frame and in a catch-up buffer. */
  function Entry(st: Stream, i: nat, p: Packet): seq<byte> {
    Sealed(st, i, p).Serialize()
  }

  /** The receiver gets packet `i` back exactly when it has opened `i` packets before; otherwise it refuses it. */
  lemma EntryOpensOnlyInTurn(st: Stream, i: nat, p: Packet, count: nat)
    requires IdealStream(st) && i + 1 < U64 && count + 1 < STREAM_SPAN && !p.encrypted
    ensures OpenEntry(st, count, Entry(st, i, p))
         == (if count == i then Ok(p) else Err(Refused(Decrypt)), count + 1)
  {
    Sealed(st, i, p).SerializeRoundTrip();
    SealedHasSealedLength(st, i, p);
    assert st.open(count + 1, st.seal(i + 1, p.payload)) == if count == i then Some(p.payload) else None;
  }

  // ---------------------------------------------------------------- frames

  const LENGTH_BYTES: nat := 4

  /** One serialized packet on the wire: its length as a big-endian `u32`, then its bytes. */
  function Frame(data: seq<byte>): (f: seq<byte>)
    ensures |f| == LENGTH_BYTES + |data|
  {
    ToBe4(|data|) + data
  }

  /** Fewer bytes than the frame they start. */
  predicate Incomplete(s: seq<byte>) {
    |s| < LENGTH_BYTES || |s| < LENGTH_BYTES + FromBe4(s)
  }

  datatype Parsed = Parsed(frames: seq<seq<byte>>, left: seq<byte>)

  /** The reference reading of a byte stream: whole frames off the front, and what is left over. */
  function ParseFrames(s: seq<byte>): (r: Parsed)
    ensures Incomplete(r.left)
    decreases |s|
  {
    if Incomplete(s) then Parsed([], s)
    else
      var end := LENGTH_BYTES + FromBe4(s);
      var more := ParseFrames(s[end..]);
      Parsed([s[LENGTH_BYTES..end]] + more.frames, more.left)
  }

  function Frames(entries: seq<seq<byte>>): seq<byte> {
    if entries == [] then [] else Frame(entries[0]) + Frames(entries[1..])
  }

  /** Framing then parsing gives the entries back, and leaves an incomplete tail alone. */
  lemma {:induction false} FramesParseBack(entries: seq<seq<byte>>, tail: seq<byte>)
    requires forall i :: 0 <= i < |entries| ==> |entries[i]| < U32
    requires Incomplete(tail)
    ensures ParseFrames(Frames(entries) + tail) == Parsed(entries, tail)
  {
    if entries == [] {
      assert Frames(entries) + tail == tail;
    } else {
      var e, rest := entries[0], Frames(entries[1..]) + tail;
      FramesParseBack(entries[1..], tail);
      assert Frames(entries) + tail == Frame(e) + rest;
      FrontFrame(e, rest);
      assert entries == [e] + entries[1..];
    }
  }

  lemma FrontFrame(e: seq<byte>, rest: seq<byte>)
    requires |e| < U32
    ensures var s := Frame(e) + rest;
            FromBe4(s) == |e| && !Incomplete(s) && s[LENGTH_BYTES..LENGTH_BYTES + |e|] == e
              && s[LENGTH_BYTES + |e|..] == rest
  {
    assert Frame(e) + rest == ToBe4(|e|) + (e + rest);
    Be4RoundTrip(|e|, e + rest);
  }

  /** A prefix of the stream `Frame(e) + rest` either stops inside the first frame or holds all of it. */
  lemma PrefixOfFrames(s: seq<byte>, e: seq<byte>, rest: seq<byte>)
    requires |e| < U32 && s <= Frame(e) + rest
    ensures !Incomplete(s) <==> |Frame(e)| <= |s|
    ensures !Incomplete(s) ==>
              FromBe4(s) == |e| && s[LENGTH_BYTES..LENGTH_BYTES + |e|] == e && s[LENGTH_BYTES + |e|..] <= rest
  {
    FrontFrame(e, rest);
    var whole := Frame(e) + rest;
    if |s| >= LENGTH_BYTES {
      assert s[0] == whole[0] && s[1] == whole[1] && s[2] == whole[2] && s[3] == whole[3];
      if |Frame(e)| <= |s| {
        assert s[LENGTH_BYTES..LENGTH_BYTES + |e|] == whole[LENGTH_BYTES..LENGTH_BYTES + |e|];
        assert s[LENGTH_BYTES + |e|..] == whole[LENGTH_BYTES + |e|..|s|];
      }
    }
  }
}
