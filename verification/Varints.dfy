/** Base-128 varints: the low seven bits of each byte, least significant group first, high bit set on all but the
    last. */
module Varints {
  import opened Outcomes
  import opened Bytes

  datatype ProtoError = UnexpectedEof | InvalidVarint | Truncated | InvalidWireType

  type u64 = v: nat | v < 0x1_0000_0000_0000_0000
  type i32 = v: int | -0x8000_0000 <= v < 0x8000_0000

  const MAX_VARINT_BYTES: nat := 10

  /** An append-only byte buffer. */
  class ByteBuffer {
    var bytes: seq<byte>

    constructor ()
      ensures bytes == []
    {
      bytes := [];
    }

    method PutU8(b: byte)
      modifies this
      ensures bytes == old(bytes) + [b]
    {
      bytes := bytes + [b];
    }

    method PutSlice(s: seq<byte>)
      modifies this
      ensures bytes == old(bytes) + s
    {
      bytes := bytes + s;
    }
  }

  /** A position in a byte string. */
  class Cursor {
    const data: seq<byte>
    var position: nat

    ghost predicate Valid()
      reads this
    {
      position <= |data|
    }

    constructor (data: seq<byte>)
      ensures Valid() && this.data == data && position == 0
    {
      this.data := data;
      position := 0;
    }

    /** All of the next `n` bytes, or an error if there are not that many. */
    method ReadExact(n: nat) returns (r: Result<seq<byte>, ProtoError>)
      requires Valid()
      modifies this
      ensures Valid()
      ensures old(position) + n <= |data| ==>
              r == Ok(data[old(position)..old(position) + n]) && position == old(position) + n
      ensures old(position) + n > |data| ==> r == Err(UnexpectedEof)
    {
      if |data| - position < n {
        return Err(UnexpectedEof);
      }
      r := Ok(data[position..position + n]);
      position := position + n;
    }
  }

  // ---------------------------------------------------------------- writing

  function Varint(v: nat): (s: seq<byte>)
    ensures |s| >= 1
  {
    if v < 0x80 then [v] else [v % 0x80 + 0x80] + Varint(v / 0x80)
  }

  method WriteVarint(out: ByteBuffer, value: u64)
    modifies out
    ensures out.bytes == old(out.bytes) + Varint(value)
  {
    var v := value;
    while v >= 0x80
      invariant out.bytes + Varint(v) == old(out.bytes) + Varint(value)
    {
      ghost var before := out.bytes;
      out.PutU8(v % 0x80 + 0x80);
      assert before + Varint(v) == out.bytes + Varint(v / 0x80);
      v := v / 0x80;
    }
    out.PutU8(v);
  }

  // ---------------------------------------------------------------- reading

  function Pow128(k: nat): (p: nat)
    ensures p >= 1
  {
    if k == 0 then 1 else 128 * Pow128(k - 1)
  }

  /** The unbounded value of the groups at the front of `s`, of which at most `room` may be read, and how many there
      are. */
  function ReadGroups(s: seq<byte>, room: nat): (r: Result<(nat, nat), ProtoError>)
    ensures r.Ok? ==> 1 <= r.value.1 <= room && r.value.1 <= |s| && r.value.0 < Pow128(r.value.1)
  {
    if room == 0 then Err(InvalidVarint)
    else if s == [] then Err(Truncated)
    else if s[0] < 0x80 then assert Pow128(1) == 128; Ok((s[0], 1))
    else match ReadGroups(s[1..], room - 1)
      case Err(e) => Err(e)
      case Ok(g) => Ok((s[0] - 0x80 + 0x80 * g.0, 1 + g.1))
  }

  /** Reading a `u64`: bits past the 64th are dropped, as the shift in the source drops them. */
  function Read(s: seq<byte>): (r: Result<(u64, nat), ProtoError>)
    ensures r.Ok? ==> 1 <= r.value.1 <= MAX_VARINT_BYTES && r.value.1 <= |s|
  {
    match ReadGroups(s, MAX_VARINT_BYTES)
    case Err(e) => Err(e)
    case Ok(g) => Ok((g.0 % U64, g.1))
  }

  /** The outcome for a varint whose first `i` groups have value `low`, given the outcome `r` for the groups after
      them. */
  function After(low: nat, weight: nat, i: nat, r: Result<(nat, nat), ProtoError>): Result<(nat, nat), ProtoError> {
    match r
    case Err(e) => Err(e)
    case Ok(g) => Scaled(weight, g.0); Ok((low + weight * g.0, i + g.1))
  }

  lemma Scaled(a: nat, b: nat)
    ensures a * b >= 0
  {
  }

  lemma AfterAfter(low: nat, p: nat, i: nat, b: nat, r: Result<(nat, nat), ProtoError>)
    ensures low + p * b >= 0 && After(low, p, i, After(b, 0x80, 1, r)) == After(low + p * b, 128 * p, i + 1, r)
  {
    Scaled(p, b);
    if r.Ok? {
      Regrouped(p, b, r.value.0);
    }
  }

  /** What has been read of a varint so far: `low` is the value of its first `i` groups. */
  ghost predicate ReadSoFar(s: seq<byte>, i: nat, low: nat) {
    && i <= MAX_VARINT_BYTES && i <= |s| && low < Pow128(i)
    && ReadGroups(s, MAX_VARINT_BYTES) == After(low, Pow128(i), i, ReadGroups(s[i..], MAX_VARINT_BYTES - i))
  }

  lemma OneMoreGroup(s: seq<byte>, i: nat, low: nat)
    requires ReadSoFar(s, i, low) && i < MAX_VARINT_BYTES && i < |s| && s[i] >= 0x80
    ensures ReadSoFar(s, i + 1, low + Pow128(i) * (s[i] - 0x80))
  {
    var b: nat := s[i] - 0x80;
    GroupBound(Pow128(i), b, low);
    AfterAfter(low, Pow128(i), i, b, ReadGroups(s[i + 1..], MAX_VARINT_BYTES - i - 1));
    UnfoldGroups(s[i..], MAX_VARINT_BYTES - i);
    assert s[i..][1..] == s[i + 1..];
  }

  lemma UnfoldGroups(s: seq<byte>, room: nat)
    requires room > 0 && s != [] && s[0] >= 0x80
    ensures ReadGroups(s, room) == After(s[0] - 0x80, 0x80, 1, ReadGroups(s[1..], room - 1))
  {
  }

  lemma LastGroup(s: seq<byte>, i: nat, low: nat)
    requires ReadSoFar(s, i, low) && i < MAX_VARINT_BYTES && i < |s| && s[i] < 0x80
    ensures ReadGroups(s, MAX_VARINT_BYTES) == Ok((low + Pow128(i) * s[i], i + 1))
  {
    var room := MAX_VARINT_BYTES - i;
    LastOfGroups(s[i..], room);
    assert After(low, Pow128(i), i, Ok((s[i], 1))) == Ok((low + Pow128(i) * s[i], i + 1));
  }

  lemma LastOfGroups(s: seq<byte>, room: nat)
    requires room > 0 && s != [] && s[0] < 0x80
    ensures ReadGroups(s, room) == Ok((s[0], 1))
  {
  }

  lemma GroupBound(p: nat, b: nat, low: nat)
    requires low < p && b < 128
    ensures low + p * b < 128 * p
  {
    assert p * b <= p * 127;
  }

  lemma Regrouped(p: nat, b: nat, g: nat)
    ensures p * (b + 0x80 * g) == p * b + (128 * p) * g
  {
  }

  /** The tenth group keeps one bit: what a 63-bit shift leaves of it in 64. */
  lemma TenthGroup(low: nat, b: nat)
    requires low < 0x8000_0000_0000_0000
    ensures low + (b * 0x8000_0000_0000_0000) % U64 == (low + 0x8000_0000_0000_0000 * b) % U64
  {
    var h := b / 2;
    assert b * 0x8000_0000_0000_0000 == h * U64 + (b % 2) * 0x8000_0000_0000_0000;
  }

  lemma SmallGroup(low: nat, b: nat, p: nat)
    requires low < p <= 0x100_0000_0000_0000 && b < 128
    ensures (b * p) % U64 == b * p == p * b && (low + p * b) % U64 == low + p * b
  {
    GroupBound(p, b, low);
    assert 128 * p < U64;
    assert 0 <= b * p;
  }

  lemma PowerValues()
    ensures Pow128(8) == 0x100_0000_0000_0000 && Pow128(9) == 0x8000_0000_0000_0000
  {
    assert Pow128(4) == 0x1000_0000;
    assert Pow128(6) == 0x400_0000_0000;
  }

  lemma ShiftedGroup(i: nat, low: nat, b: nat)
    requires i < MAX_VARINT_BYTES && low < Pow128(i) && b < 128
    ensures low + (b * Pow128(i)) % U64 == (low + Pow128(i) * b) % U64
    ensures i < 9 ==> low + (b * Pow128(i)) % U64 == low + Pow128(i) * b
  {
    PowerValues();
    if i == 9 {
      TenthGroup(low, b);
    } else {
      PowersGrow(i, 8);
      SmallGroup(low, b, Pow128(i));
    }
  }

  lemma {:induction false} PowersGrow(i: nat, j: nat)
    requires i <= j
    ensures Pow128(i) <= Pow128(j)
  {
    if i < j {
      PowersGrow(i, j - 1);
    }
  }

  /** `group << k` in 64 bits, where `weight` is `2^k`. */
  function ShiftLeft(group: nat, weight: nat): u64 {
    assert group * weight >= 0;
    (group * weight) % U64
  }

  lemma LastValue(s: seq<byte>, i: nat, low: nat)
    requires ReadSoFar(s, i, low) && i < MAX_VARINT_BYTES && i < |s| && s[i] < 0x80
    ensures low + ShiftLeft(s[i], Pow128(i)) < U64 && Read(s) == Ok((low + ShiftLeft(s[i], Pow128(i)), i + 1))
  {
    LastGroup(s, i, low);
    GroupsAsRead(s, low + Pow128(i) * s[i], i + 1);
    ShiftedGroup(i, low, s[i]);
  }

  lemma GroupsAsRead(s: seq<byte>, v: nat, n: nat)
    requires ReadGroups(s, MAX_VARINT_BYTES) == Ok((v, n))
    ensures Read(s) == Ok((v % U64, n))
  {
  }

  lemma NextValue(s: seq<byte>, i: nat, low: nat)
    requires ReadSoFar(s, i, low) && i < MAX_VARINT_BYTES - 1 && i < |s| && s[i] >= 0x80
    ensures ReadSoFar(s, i + 1, low + ShiftLeft(s[i] - 0x80, Pow128(i)))
  {
    OneMoreGroup(s, i, low);
    ShiftedGroup(i, low, s[i] - 0x80);
  }

  lemma NoLastGroup(s: seq<byte>, i: nat, low: nat)
    requires ReadSoFar(s, i, low) && i < MAX_VARINT_BYTES
    ensures i == |s| ==> Read(s) == Err(Truncated)
    ensures i == MAX_VARINT_BYTES - 1 && i < |s| && s[i] >= 0x80 ==> Read(s) == Err(InvalidVarint)
  {
    if i == |s| {
      assert s[i..] == [];
    } else if i == MAX_VARINT_BYTES - 1 && s[i] >= 0x80 {
      assert ReadGroups(s[i..][1..], 0) == Err(InvalidVarint);
    }
  }

  /** The loop over groups; or-ing in a shifted group adds it, since only bits below it are set so far. */
  method ReadVarint(buf: Cursor) returns (r: Result<u64, ProtoError>)
    requires buf.Valid()
    modifies buf
    ensures buf.Valid()
    ensures match Read(buf.data[old(buf.position)..])
            case Ok(g) => r == Ok(g.0) && buf.position == old(buf.position) + g.1
            case Err(e) => r == Err(e)
  {
    ghost var s := buf.data[buf.position..];
    var result: nat, group: nat, weight: nat := 0, 0, 1;
    assert s[0..] == s;
    while group < MAX_VARINT_BYTES
      invariant buf.position == old(buf.position) + group && buf.Valid()
      invariant group < MAX_VARINT_BYTES && ReadSoFar(s, group, result) && weight == Pow128(group)
    {
      NoLastGroup(s, group, result);
      if buf.position == |buf.data| {
        return Err(Truncated);
      }
      var b := buf.data[buf.position];
      assert b == s[group];
      buf.position := buf.position + 1;
      if b < 0x80 {
        LastValue(s, group, result);
        var v := result + ShiftLeft(b, weight);
        return Ok(v);
      }
      if group == MAX_VARINT_BYTES - 1 {
        break;
      }
      NextValue(s, group, result);
      var low7 := b as int - 0x80;
      result := result + ShiftLeft(low7, weight);
      weight := 128 * weight;
      group := group + 1;
    }
    return Err(InvalidVarint);
  }

  // ---------------------------------------------------------------- laws

  lemma {:induction false} GroupsReadBack(v: nat, room: nat, rest: seq<byte>)
    requires room >= 1 && v < Pow128(room)
    ensures ReadGroups(Varint(v) + rest, room) == Ok((v, |Varint(v)|))
  {
    var s := Varint(v) + rest;
    if v >= 0x80 {
      assert Pow128(1) == 128;
      GroupsReadBack(v / 0x80, room - 1, rest);
      assert s[1..] == Varint(v / 0x80) + rest;
    }
  }

  /** Every `u64` reads back, from one to ten bytes, and exactly what follows is left. */
  lemma VarintRoundTrip(v: u64, rest: seq<byte>)
    ensures Read(Varint(v) + rest) == Ok((v, |Varint(v)|)) && 1 <= |Varint(v)| <= MAX_VARINT_BYTES
  {
    assert Pow128(5) == 0x8_0000_0000;
    assert Pow128(10) == 0x40_0000_0000_0000_0000;
    GroupsReadBack(v, MAX_VARINT_BYTES, rest);
  }

  lemma {:induction false} VarintLength(v: nat, n: nat)
    requires n >= 1 && v < Pow128(n)
    ensures |Varint(v)| <= n
  {
    if v >= 0x80 {
      assert Pow128(1) == 128;
      VarintLength(v / 0x80, n - 1);
    }
  }

  /** Any accepted form, canonical or not, re-encodes to no more bytes and reads back equal. */
  lemma AcceptedFormsNormalise(s: seq<byte>, rest: seq<byte>)
    requires Read(s).Ok?
    ensures var (v, n) := Read(s).value;
            |Varint(v)| <= n && Read(Varint(v) + rest) == Ok((v, |Varint(v)|))
  {
    var g := ReadGroups(s, MAX_VARINT_BYTES).value;
    assert g.0 % U64 <= g.0;
    VarintLength(g.0 % U64, g.1);
    VarintRoundTrip(g.0 % U64, rest);
  }

  lemma {:induction false} GroupsIgnoreWhatFollows(s: seq<byte>, room: nat, more: seq<byte>)
    requires ReadGroups(s, room).Ok?
    ensures ReadGroups(s + more, room) == ReadGroups(s, room)
  {
    assert (s + more)[1..] == s[1..] + more;
    if s[0] >= 0x80 {
      GroupsIgnoreWhatFollows(s[1..], room - 1, more);
    }
  }

  lemma ReadIgnoresWhatFollows(s: seq<byte>, more: seq<byte>)
    requires Read(s).Ok?
    ensures Read(s + more) == Read(s)
  {
    GroupsIgnoreWhatFollows(s, MAX_VARINT_BYTES, more);
  }

  // ---------------------------------------------------------------- signed 32-bit fields

  /** `v as u64`: negative numbers are sign-extended. */
  function AsU64(v: i32): u64 {
    if v < 0 then v + U64 else v
  }

  /** `v as i32`: the low 32 bits, read as two's complement. */
  function AsI32(v: int): i32 {
    var low := v % U32;
    if low >= 0x8000_0000 then low - U32 else low
  }

  lemma Int32RoundTrip(v: i32)
    ensures AsI32(AsU64(v)) == v
    ensures v < 0 ==> |Varint(AsU64(v))| == MAX_VARINT_BYTES
  {
    if v < 0 {
      assert Pow128(9) == 0x8000_0000_0000_0000;
      LongVarint(AsU64(v), 9);
      VarintRoundTrip(AsU64(v), []);
    }
  }

  lemma {:induction false} LongVarint(v: nat, n: nat)
    requires v >= Pow128(n)
    ensures |Varint(v)| > n
  {
    if n > 0 {
      LongVarint(v / 0x80, n - 1);
    }
  }

  /** Widening keeps the value of a number that is not negative and adds 2^64 to one that is. */
  lemma WideningExactly(v: i32)
    ensures v >= 0 ==> AsU64(v) == v
    ensures v < 0 ==> AsU64(v) == v + 0x1_0000_0000_0000_0000
  {
  }

  /** So a number that is not negative takes at most five bytes, which read as the number itself. */
  lemma NonNegativeIsShort(v: i32, rest: seq<byte>)
    requires v >= 0
    ensures 1 <= |Varint(v)| <= 5 && Read(Varint(v) + rest) == Ok((v, |Varint(v)|))
  {
    assert Pow128(5) == 0x8_0000_0000;
    VarintLength(v, 5);
    VarintRoundTrip(v, rest);
  }

  /** Narrowing keeps the value modulo 2^32: it is the one 32-bit number that differs by a multiple of 2^32. */
  lemma NarrowingIsCongruent(n: int, v: i32)
    ensures AsI32(n) == v <==> (n - v) % 0x1_0000_0000 == 0
  {
    var q := n / U32;
    assert n == q * U32 + n % U32;
    if (n - v) % 0x1_0000_0000 == 0 {
      var k := (n - v) / U32;
      assert n - v == k * U32;
    }
  }

  /** The digits of a varint: the `i`-th byte holds the `i`-th group of seven bits, and the high bit says that more
      follow. */
  lemma {:induction false} VarintDigits(v: nat, i: nat)
    requires i < |Varint(v)|
    ensures Varint(v)[i] % 0x80 == (v / Pow128(i)) % 0x80
    ensures Varint(v)[i] >= 0x80 <==> i + 1 < |Varint(v)|
  {
    if i > 0 {
      VarintDigits(v / 0x80, i - 1);
      assert Varint(v)[i] == Varint(v / 0x80)[i - 1];
      DivideTwice(v, Pow128(i - 1));
    }
  }

  lemma DivideTwice(v: nat, p: nat)
    requires p > 0
    ensures (v / 128) / p == v / (128 * p)
  {
    var q := (v / 128) / p;
    var a, b := v % 128, (v / 128) % p;
    assert v == 128 * (q * p + b) + a;
    assert 128 * (q * p) == q * (128 * p);
    assert v == q * (128 * p) + (128 * b + a) && 0 <= 128 * b + a < 128 * p;
    QuotientIs(v, 128 * p, q, 128 * b + a);
  }

  lemma QuotientIs(v: nat, m: nat, q: nat, r: nat)
    requires r < m && v == q * m + r
    ensures v / m == q
  {
    var p, s := v / m, v % m;
    assert v == p * m + s;
    if p < q {
      NextMultiple(p, q, m);
    } else if p > q {
      NextMultiple(q, p, m);
    }
  }

  lemma NextMultiple(p: nat, q: nat, m: nat)
    requires p < q
    ensures p * m + m <= q * m
  {
    assert (q - p) * m == q * m - p * m;
    AtLeastOnce(q - p, m);
  }

  lemma AtLeastOnce(k: nat, m: nat)
    requires k > 0
    ensures k * m >= m
  {
  }

  /** Narrowing an `i64` to `i32` keeps it exactly when it fits. */
  lemma NarrowingIsExactWithin31Bits(n: nat)
    ensures AsI32(n) == n <==> n < 0x8000_0000
  {
  }
}
