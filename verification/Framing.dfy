/** Length-prefixed messages of the handshake: an eight-byte little-endian `i64` length, then the encoding. */
module Framing {
  import opened Outcomes
  import opened Bytes
  import opened Varints
  import opened Wire
  import opened Messages

  const PROTOCOL_VERSION: i32 := 6
  const HEADER_BYTES: nat := 8
  const MAX_PROTO_BYTES: nat := 128 * 1024 * 1024

  datatype ProtoReadError = EndOfInput | InvalidLength(length: int) | Undecodable(error: ProtoError)

  /** Vector lengths fit in an `i64`. */
  type Payload = s: seq<byte> | |s| < 0x8000_0000_0000_0000

  function Framed(payload: seq<byte>): (s: seq<byte>)
    ensures |s| == HEADER_BYTES + |payload|
  {
    ToLe(|payload|, HEADER_BYTES) + payload
  }

  function AsI64(v: nat): int {
    if v >= 0x8000_0000_0000_0000 then v - U64 else v
  }

  /** One framed message off the front of the input, and how many bytes it takes. */
  function ReadFramed<M>(take: (M, Field) -> Result<M, ProtoError>, empty: M, s: seq<byte>)
    : (r: Result<(M, nat), ProtoReadError>)
    ensures r.Ok? ==> HEADER_BYTES <= r.value.1 <= |s|
  {
    if |s| < HEADER_BYTES then Err(EndOfInput)
    else
      var length := AsI64(FromLe(s[..HEADER_BYTES]));
      if length < 0 || length > MAX_PROTO_BYTES then Err(InvalidLength(length))
      else if |s| - HEADER_BYTES < length then Err(EndOfInput)
      else match Decode(take, empty, s[HEADER_BYTES..HEADER_BYTES + length])
        case Err(e) => Err(Undecodable(e))
        case Ok(m) => Ok((m, HEADER_BYTES + length))
  }

  method ReadProto<M>(r: Cursor, take: (M, Field) -> Result<M, ProtoError>, empty: M)
    returns (result: Result<M, ProtoReadError>)
    requires r.Valid()
    modifies r
    ensures r.Valid()
    ensures match ReadFramed(take, empty, r.data[old(r.position)..])
            case Ok(g) => result == Ok(g.0) && r.position == old(r.position) + g.1
            case Err(e) => result == Err(e)
  {
    ghost var s, start := r.data[r.position..], r.position;
    var header := r.ReadExact(HEADER_BYTES);
    if header.Err? {
      return Err(EndOfInput);
    }
    assert header.value == s[..HEADER_BYTES];
    var length := AsI64(FromLe(header.value));
    if length < 0 || length > MAX_PROTO_BYTES {
      return Err(InvalidLength(length));
    }
    var body := r.ReadExact(length);
    if body.Err? {
      return Err(EndOfInput);
    }
    assert body.value == s[HEADER_BYTES..HEADER_BYTES + length];
    var m := DecodeLoop(take, empty, body.value);
    match m
    case Ok(v) => result := Ok(v);
    case Err(e) => result := Err(Undecodable(e));
  }

  method WriteProto(w: ByteBuffer, payload: seq<byte>)
    modifies w
    ensures w.bytes == old(w.bytes) + Framed(payload)
  {
    w.PutSlice(ToLe(|payload|, HEADER_BYTES));
    if payload != [] {
      w.PutSlice(payload);
    }
    assert w.bytes == old(w.bytes) + Framed(payload);
  }

  lemma HeaderReadsBack(n: nat, rest: seq<byte>)
    requires n < 0x8000_0000_0000_0000
    ensures AsI64(FromLe((ToLe(n, HEADER_BYTES) + rest)[..HEADER_BYTES])) == n
  {
    assert Pow256(8) == U64;
    LeRoundTrip(n, HEADER_BYTES);
    assert (ToLe(n, HEADER_BYTES) + rest)[..HEADER_BYTES] == ToLe(n, HEADER_BYTES);
  }

  /** A framed message is read back, and exactly what follows is left, if and only if its encoding is at most 128 MiB;
      a longer one is refused by its length alone. */
  lemma FramedRoundTrip<M>(take: (M, Field) -> Result<M, ProtoError>, empty: M, payload: Payload, m: M, rest: seq<byte>)
    requires Decode(take, empty, payload) == Ok(m)
    ensures ReadFramed(take, empty, Framed(payload) + rest)
         == if |payload| <= MAX_PROTO_BYTES then Ok((m, |Framed(payload)|)) else Err(InvalidLength(|payload|))
    ensures (Framed(payload) + rest)[|Framed(payload)|..] == rest
  {
    var s := Framed(payload) + rest;
    assert s == ToLe(|payload|, HEADER_BYTES) + (payload + rest);
    HeaderReadsBack(|payload|, payload + rest);
    assert s[HEADER_BYTES..HEADER_BYTES + |payload|] == payload;
  }

  /** A framed message cut short anywhere is refused for want of input, even where a prefix of its encoding would
      decode. */
  lemma TruncatedIsEndOfInput<M>(take: (M, Field) -> Result<M, ProtoError>, empty: M, payload: Payload, cut: nat)
    requires |payload| <= MAX_PROTO_BYTES && cut < |Framed(payload)|
    ensures ReadFramed(take, empty, Framed(payload)[..cut]) == Err(EndOfInput)
  {
    if cut >= HEADER_BYTES {
      HeaderReadsBack(|payload|, payload);
      assert Framed(payload)[..cut][..HEADER_BYTES] == Framed(payload)[..HEADER_BYTES];
    }
  }

  /** One framed message off the front of the input, and what is left. */
  function Received<M>(take: (M, Field) -> Result<M, ProtoError>, empty: M, s: seq<byte>)
    : Result<(M, seq<byte>), ProtoReadError>
  {
    match ReadFramed(take, empty, s)
    case Ok(g) => Ok((g.0, s[g.1..]))
    case Err(e) => Err(e)
  }

  /** However many bytes arrive of a framed message and what follows it: all of the message is received, or nothing. */
  lemma PrefixRead<M>(take: (M, Field) -> Result<M, ProtoError>, empty: M, payload: Payload, m: M, rest: seq<byte>,
                      input: seq<byte>)
    requires Decode(take, empty, payload) == Ok(m) && |payload| <= MAX_PROTO_BYTES && input <= Framed(payload) + rest
    ensures Received(take, empty, input)
         == if |input| >= |Framed(payload)| then Ok((m, input[|Framed(payload)|..])) else Err(EndOfInput)
    ensures |input| >= |Framed(payload)| ==> input[|Framed(payload)|..] <= rest
  {
    var f := Framed(payload);
    if |input| < |f| {
      assert input == f[..|input|];
      TruncatedIsEndOfInput(take, empty, payload, |input|);
    } else {
      assert input == f + input[|f|..];
      FramedRoundTrip(take, empty, payload, m, input[|f|..]);
    }
  }
}
