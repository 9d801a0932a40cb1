/** The counter-nonce cipher: nonce arithmetic is exact, the cipher itself is an ideal one. */
module Crypto {
  import opened Outcomes
  import opened Bytes

  const KEY_BYTES := 32
  const NONCE_BYTES := 24
  const MAC_BYTES := 16

  const CLIENT_SERVER_NONCE_MSB: byte := 0
  const SERVER_CLIENT_NONCE_MSB: byte := 1

  datatype CryptoError = InvalidKeyLength(length: nat) | Decrypt | Truncated

  // ---------------------------------------------------------------- nonces

  /** Adding one to a little-endian counter, byte by byte, dropping the last carry. */
  function Increment(n: seq<byte>): (r: seq<byte>)
    ensures |r| == |n|
  {
    if n == [] then []
    else if n[0] == 255 then [0] + Increment(n[1..])
    else [n[0] + 1] + n[1..]
  }

  /** One more, wrapping to zero past the largest value the bytes can hold. */
  lemma {:induction false} IncrementAddsOne(n: seq<byte>)
    ensures FromLe(Increment(n)) == if FromLe(n) + 1 == Pow256(|n|) then 0 else FromLe(n) + 1
  {
    if n != [] {
      if n[0] == 255 {
        IncrementAddsOne(n[1..]);
        assert Increment(n)[1..] == Increment(n[1..]);
      } else {
        assert Increment(n)[1..] == n[1..];
      }
    }
  }

  /** The carry went through the first `i` bytes and stopped, or ran off the end. */
  ghost predicate CarryStopped(n: seq<byte>, m: seq<byte>, i: nat) {
    && |m| == |n| && i <= |n|
    && (forall j :: 0 <= j < i ==> n[j] == 255 && m[j] == 0)
    && (i < |n| ==> n[i] < 255 && m[i] == n[i] + 1 && m[i + 1..] == n[i + 1..])
  }

  lemma {:induction false} CarryIncrements(n: seq<byte>, m: seq<byte>, i: nat)
    requires CarryStopped(n, m, i)
    ensures m == Increment(n)
  {
    if n != [] {
      assert m == [m[0]] + m[1..];
      if i > 0 {
        assert i < |n| ==> m[1..][i..] == m[i + 1..] && n[1..][i..] == n[i + 1..];
        CarryIncrements(n[1..], m[1..], i - 1);
      }
    }
  }

  function InitialNonce(msb: byte): (n: seq<byte>)
    ensures |n| == NONCE_BYTES
  {
    seq(NONCE_BYTES - 1, _ => 0 as byte) + [msb]
  }

  /** The nonce of the stream `msb` after `k` increments. */
  function NonceAt(msb: byte, k: nat): (n: seq<byte>)
    ensures |n| == NONCE_BYTES
  {
    if k == 0 then InitialNonce(msb) else Increment(NonceAt(msb, k - 1))
  }

  /** How many increments a stream can make before its nonces reach those of the next stream: 2^184. */
  const STREAM_SPAN: nat := 0x1_0000_0000_0000_0000_0000_0000_0000_0000_0000_0000_0000_00
  /** How many nonces there are: 2^192. */
  const NONCE_SPAN: nat := 256 * STREAM_SPAN

  lemma SpansArePowers()
    ensures Pow256(NONCE_BYTES - 1) == STREAM_SPAN && Pow256(NONCE_BYTES) == NONCE_SPAN
  {
    assert Pow256(4) == 0x1_0000_0000;
    assert Pow256(8) == 0x1_0000_0000_0000_0000;
    assert Pow256(16) == 0x1_0000_0000_0000_0000_0000_0000_0000_0000 by { Pow256Add(8, 8); }
    assert Pow256(20) == 0x1_0000_0000_0000_0000_0000_0000_0000_0000_0000_0000 by { Pow256Add(16, 4); }
    assert Pow256(22) == 0x1_0000_0000_0000_0000_0000_0000_0000_0000_0000_0000_0000 by { Pow256Add(20, 2); }
  }

  /** Every increment of a stream's nonce adds one to its value, modulo 2^192. */
  lemma {:induction false} NonceValue(msb: byte, k: nat)
    ensures FromLe(NonceAt(msb, k)) == (msb * STREAM_SPAN + k) % NONCE_SPAN
  {
    SpansArePowers();
    if k == 0 {
      var zeros := seq(NONCE_BYTES - 1, _ => 0 as byte);
      FromLeAppend(zeros, [msb]);
      FromLeZeros(zeros);
      assert FromLe([msb]) == msb;
    } else {
      NonceValue(msb, k - 1);
      IncrementAddsOne(NonceAt(msb, k - 1));
      SuccessorModulo(msb * STREAM_SPAN + k - 1, NONCE_SPAN);
    }
  }

  lemma SuccessorModulo(a: nat, m: nat)
    requires m > 0
    ensures (a + 1) % m == if a % m + 1 == m then 0 else a % m + 1
  {
    var q, r := a / m, a % m;
    if r + 1 == m {
      ModuloUnique(a + 1, q + 1, 0, m);
    } else {
      ModuloUnique(a + 1, q, r + 1, m);
    }
  }

  lemma ModuloUnique(a: nat, q: nat, r: nat, m: nat)
    requires r < m && a == q * m + r
    ensures a % m == r
  {
    var p, s := a / m, a % m;
    assert a == p * m + s;
    if p < q {
      assert (q - p) * m >= m by { ProductGrows(q - p, m); }
    } else if q < p {
      assert (p - q) * m >= m by { ProductGrows(p - q, m); }
    }
  }

  lemma ProductGrows(k: nat, m: nat)
    requires k > 0
    ensures k * m >= m
  {
  }

  lemma InSpan(msb: byte, k: nat)
    requires k < STREAM_SPAN
    ensures (msb * STREAM_SPAN + k) % NONCE_SPAN == msb * STREAM_SPAN + k
  {
    ModuloUnique(msb * STREAM_SPAN + k, 0, msb * STREAM_SPAN + k, NONCE_SPAN);
  }

  /** No nonce repeats, within one stream or across two, in fewer than `STREAM_SPAN` increments. */
  lemma NoncesNeverRepeat(m1: byte, k1: nat, m2: byte, k2: nat)
    requires k1 < STREAM_SPAN && k2 < STREAM_SPAN
    ensures NonceAt(m1, k1) == NonceAt(m2, k2) <==> m1 == m2 && k1 == k2
  {
    NonceValue(m1, k1);
    NonceValue(m2, k2);
    InSpan(m1, k1);
    InSpan(m2, k2);
  }

  /** The bound is exact: one more increment and a stream enters the nonces of the next one. */
  lemma NoncesMeetAtTheSpan(msb: byte, k: nat)
    requires msb < 255
    ensures NonceAt(msb, STREAM_SPAN + k) == NonceAt(msb + 1, k)
  {
    NonceValue(msb, STREAM_SPAN + k);
    NonceValue(msb + 1, k);
    LeInjective(NonceAt(msb, STREAM_SPAN + k), NonceAt(msb + 1, k));
  }

  // ---------------------------------------------------------------- the ideal cipher

  /** An authenticated cipher under one fixed key: arguments are the nonce and the text. */
  datatype Aead = Aead(seal: (seq<byte>, seq<byte>) -> seq<byte>, open: (seq<byte>, seq<byte>) -> Option<seq<byte>>)

  /** A nonce whose counter part is below 2^64 (a superset of what an `i64` sequence number reaches). */
  ghost predicate Usable(n: seq<byte>) {
    |n| == NONCE_BYTES && forall i :: 8 <= i < NONCE_BYTES - 1 ==> n[i] == 0
  }

  /** A sealed text is exactly `MAC_BYTES` longer. */
  ghost predicate LengthLaw(a: Aead) {
    forall n, p :: |a.seal(n, p)| == |p| + MAC_BYTES
  }

  /** The idealisation: a text opens under the nonce that sealed it, and under no other. */
  ghost predicate Ideal(a: Aead) {
    && LengthLaw(a)
    && (forall n, p :: Usable(n) ==> a.open(n, a.seal(n, p)) == Some(p))
    && (forall m, n, p :: Usable(m) && |n| == NONCE_BYTES && n != m ==> a.open(n, a.seal(m, p)) == None)
  }

  function ToyTag(n: seq<byte>): (t: seq<byte>)
    ensures |t| == MAC_BYTES
  {
    if |n| == NONCE_BYTES then n[..15] + [n[23]] else seq(MAC_BYTES, _ => 0 as byte)
  }

  predicate ToyOpens(n: seq<byte>, c: seq<byte>) {
    |n| == NONCE_BYTES && |c| >= MAC_BYTES && c[..MAC_BYTES] == ToyTag(n) && forall i :: 15 <= i < 23 ==> n[i] == 0
  }

  function Toy(): Aead {
    Aead((n, p) => ToyTag(n) + p, (n, c) => if ToyOpens(n, c) then Some(c[MAC_BYTES..]) else None)
  }

  /** The idealisation can be met, so nothing proved from it is proved from a contradiction. */
  lemma IdealIsSatisfiable()
    ensures Ideal(Toy())
  {
    var a := Toy();
    forall n, p | Usable(n)
      ensures a.open(n, a.seal(n, p)) == Some(p)
    {
      var c := ToyTag(n) + p;
      assert c[..MAC_BYTES] == ToyTag(n) && c[MAC_BYTES..] == p;
    }
    forall m, n, p | Usable(m) && |n| == NONCE_BYTES && n != m
      ensures a.open(n, a.seal(m, p)) == None
    {
      var c := ToyTag(m) + p;
      assert c[..MAC_BYTES] == ToyTag(m);
      if ToyOpens(n, c) {
        ToyTagSeparates(m, n);
        assert false;
      }
    }
  }

  lemma ToyTagSeparates(m: seq<byte>, n: seq<byte>)
    requires |m| == |n| == NONCE_BYTES && ToyTag(m) == ToyTag(n)
    requires forall i :: 15 <= i < 23 ==> m[i] == 0 && n[i] == 0
    ensures m == n
  {
    forall i | 0 <= i < 15
      ensures m[i] == n[i]
    {
      assert ToyTag(m)[i] == m[i] && ToyTag(n)[i] == n[i];
    }
    assert ToyTag(m)[15] == m[23] && ToyTag(n)[15] == n[23];
  }

  // ---------------------------------------------------------------- streams

  /** One direction of a session, as its users see it: what the `k`-th encryption makes of a text,
      and what the `k`-th decryption makes of it. */
  datatype Stream = Stream(seal: (nat, seq<byte>) -> seq<byte>, open: (nat, seq<byte>) -> Option<seq<byte>>)

  /** The stream of a cipher whose nonces end in `msb`. */
  function StreamOf(a: Aead, msb: byte): Stream {
    Stream((k: nat, text) => a.seal(NonceAt(msb, k), text), (k: nat, data) => a.open(NonceAt(msb, k), data))
  }

  ghost predicate TagLaw(st: Stream) {
    forall k: nat, text :: |st.seal(k, text)| == |text| + MAC_BYTES
  }

  /** A text opens at the count that sealed it and at no other. */
  ghost predicate IdealStream(st: Stream) {
    && TagLaw(st)
    && forall k: nat, at: nat, text :: k < U64 && at < STREAM_SPAN ==>
         st.open(at, st.seal(k, text)) == if at == k then Some(text) else None
  }

  lemma SmallCountersAreUsable(msb: byte, k: nat)
    requires k < U64
    ensures Usable(NonceAt(msb, k))
  {
    var low, zeros := ToLe(k, 8), seq(15, _ => 0 as byte);
    SpansArePowers();
    assert Pow256(8) == U64;
    LeRoundTrip(k, 8);
    FromLeZeros(zeros);
    FromLeAppend(low, zeros);
    FromLeAppend(low + zeros, [msb]);
    assert FromLe([msb]) == msb;
    NonceValue(msb, k);
    InSpan(msb, k);
    LeInjective(NonceAt(msb, k), low + zeros + [msb]);
  }

  /** Opening pins the counter: the ideal cipher and the exact nonce arithmetic give an ideal stream. */
  lemma IdealCipherGivesIdealStream(a: Aead, msb: byte)
    requires Ideal(a)
    ensures IdealStream(StreamOf(a, msb))
  {
    var st := StreamOf(a, msb);
    forall k: nat, text
      ensures |st.seal(k, text)| == |text| + MAC_BYTES
    {
      assert |a.seal(NonceAt(msb, k), text)| == |text| + MAC_BYTES;
    }
    forall k: nat, at: nat, text | k < U64 && at < STREAM_SPAN
      ensures st.open(at, st.seal(k, text)) == if at == k then Some(text) else None
    {
      SmallCountersAreUsable(msb, k);
      NoncesNeverRepeat(msb, at, msb, k);
    }
  }

  /** The two directions of a session, under one key: each is an ideal stream, and they never use the same nonce. */
  lemma TheTwoStreams(a: Aead, k1: nat, k2: nat)
    requires Ideal(a) && k1 < STREAM_SPAN && k2 < STREAM_SPAN
    ensures IdealStream(StreamOf(a, CLIENT_SERVER_NONCE_MSB)) && IdealStream(StreamOf(a, SERVER_CLIENT_NONCE_MSB))
    ensures NonceAt(CLIENT_SERVER_NONCE_MSB, k1) != NonceAt(SERVER_CLIENT_NONCE_MSB, k2)
  {
    IdealCipherGivesIdealStream(a, CLIENT_SERVER_NONCE_MSB);
    IdealCipherGivesIdealStream(a, SERVER_CLIENT_NONCE_MSB);
    NoncesNeverRepeat(CLIENT_SERVER_NONCE_MSB, k1, SERVER_CLIENT_NONCE_MSB, k2);
  }

  // ---------------------------------------------------------------- the handler

  method IncrementNonce(nonce: array<byte>)
    modifies nonce
    ensures nonce[..] == Increment(old(nonce[..]))
  {
    ghost var before := nonce[..];
    var i := 0;
    while i < nonce.Length
      invariant 0 <= i <= nonce.Length
      invariant forall j :: 0 <= j < i ==> before[j] == 255 && nonce[j] == 0
      invariant forall j :: i <= j < nonce.Length ==> nonce[j] == before[j]
    {
      nonce[i] := if nonce[i] == 255 then 0 else nonce[i] + 1;
      if nonce[i] != 0 {
        break;
      }
      i := i + 1;
    }
    assert i < |before| ==> nonce[..][i + 1..] == before[i + 1..];
    CarryIncrements(before, nonce[..], i);
  }

  class CryptoHandler {
    const aead: Aead
    const msb: byte
    const nonce: array<byte>
    ghost var count: nat

    ghost predicate Valid()
      reads this, nonce
    {
      nonce.Length == NONCE_BYTES && nonce[..] == NonceAt(msb, count)
    }

    ghost function Direction(): Stream {
      StreamOf(aead, msb)
    }

    constructor (aead: Aead, msb: byte)
      ensures Valid() && fresh(nonce) && count == 0 && this.aead == aead && this.msb == msb
    {
      this.aead := aead;
      this.msb := msb;
      count := 0;
      nonce := new byte[NONCE_BYTES](i => if i == NONCE_BYTES - 1 then msb else 0);
      new;
      assert nonce[..] == InitialNonce(msb);
    }

    /** A handler for a session key; `suite` is the cipher as a function of the key. */
    static method New(suite: seq<byte> -> Aead, key: seq<byte>, msb: byte)
      returns (r: Result<CryptoHandler, CryptoError>)
      ensures |key| != KEY_BYTES ==> r == Err(InvalidKeyLength(|key|))
      ensures |key| == KEY_BYTES ==>
                r.Ok? && fresh(r.value) && fresh(r.value.nonce) && r.value.Valid()
                && r.value.count == 0 && r.value.aead == suite(key) && r.value.msb == msb
    {
      if |key| != KEY_BYTES {
        return Err(InvalidKeyLength(|key|));
      }
      var h := new CryptoHandler(suite(key), msb);
      r := Ok(h);
    }

    method Encrypt(plaintext: seq<byte>) returns (sealed: seq<byte>)
      requires Valid()
      modifies this, nonce
      ensures Valid() && count == old(count) + 1
      ensures sealed == Direction().seal(count, plaintext)
    {
      IncrementNonce(nonce);
      count := count + 1;
      sealed := aead.seal(nonce[..], plaintext);
    }

    /** A text too short to hold a tag is refused before the nonce moves; a failed opening moves it. */
    method Decrypt(data: seq<byte>) returns (r: Result<seq<byte>, CryptoError>)
      requires Valid()
      modifies this, nonce
      ensures Valid() && count == old(count) + if |data| < MAC_BYTES then 0 else 1
      ensures r == if |data| < MAC_BYTES then Err(Truncated)
                   else match Direction().open(count, data)
                        case Some(text) => Ok(text)
                        case None => Err(CryptoError.Decrypt)
    {
      if |data| < MAC_BYTES {
        return Err(Truncated);
      }
      IncrementNonce(nonce);
      count := count + 1;
      match aead.open(nonce[..], data)
      case Some(text) => r := Ok(text);
      case None => r := Err(CryptoError.Decrypt);
    }
  }
}
