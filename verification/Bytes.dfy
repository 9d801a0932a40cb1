/** Bytes, and the fixed-width integer layouts the wire formats and the nonce use. */
module Bytes {
  type byte = b: int | 0 <= b < 256

  const U32: nat := 0x1_0000_0000
  const U64: nat := 0x1_0000_0000_0000_0000

  function Pow256(k: nat): (p: nat)
    ensures p >= 1
  {
    if k == 0 then 1 else 256 * Pow256(k - 1)
  }

  /** The little-endian value of a byte string. */
  function FromLe(s: seq<byte>): (v: nat)
    ensures v < Pow256(|s|)
  {
    if s == [] then 0 else s[0] + 256 * FromLe(s[1..])
  }

  /** The low `k` bytes of `v`, least significant first. */
  function ToLe(v: nat, k: nat): (s: seq<byte>)
    ensures |s| == k
  {
    if k == 0 then [] else [v % 256] + ToLe(v / 256, k - 1)
  }

  lemma {:induction false} LeRoundTrip(v: nat, k: nat)
    requires v < Pow256(k)
    ensures FromLe(ToLe(v, k)) == v
  {
    if k > 0 {
      LeRoundTrip(v / 256, k - 1);
      assert ToLe(v, k)[1..] == ToLe(v / 256, k - 1);
    }
  }

  lemma {:induction false} LeInjective(s: seq<byte>, t: seq<byte>)
    requires |s| == |t| && FromLe(s) == FromLe(t)
    ensures s == t
  {
    if s != [] {
      assert s[0] == FromLe(s) % 256 == FromLe(t) % 256 == t[0];
      LeInjective(s[1..], t[1..]);
      assert s == [s[0]] + s[1..];
      assert t == [t[0]] + t[1..];
    }
  }

  lemma {:induction false} FromLeAppend(s: seq<byte>, t: seq<byte>)
    ensures FromLe(s + t) == FromLe(s) + Pow256(|s|) * FromLe(t)
  {
    if s == [] {
      assert s + t == t;
    } else {
      FromLeAppend(s[1..], t);
      assert (s + t)[1..] == s[1..] + t;
      Regroup(Pow256(|s| - 1), FromLe(t));
    }
  }

  lemma Regroup(p: int, q: int)
    ensures 256 * (p * q) == (256 * p) * q
  {
  }

  lemma {:induction false} FromLeZeros(s: seq<byte>)
    requires forall i :: 0 <= i < |s| ==> s[i] == 0
    ensures FromLe(s) == 0
  {
    if s != [] {
      FromLeZeros(s[1..]);
    }
  }

  lemma {:induction false} Pow256Add(a: nat, b: nat)
    ensures Pow256(a + b) == Pow256(a) * Pow256(b)
  {
    if a > 0 {
      Pow256Add(a - 1, b);
      Regroup(Pow256(a - 1), Pow256(b));
    }
  }

  /** Big-endian `u32`: the length is first truncated to 32 bits, as the cast in the source does. */
  function ToBe4(v: nat): (s: seq<byte>)
    ensures |s| == 4
  {
    [(v / 0x100_0000) % 256, (v / 0x1_0000) % 256, (v / 0x100) % 256, v % 256]
  }

  function FromBe4(s: seq<byte>): (v: nat)
    requires |s| >= 4
    ensures v < U32
  {
    var a: int, b: int, c: int, d: int := s[0], s[1], s[2], s[3];
    0x100_0000 * a + 0x1_0000 * b + 0x100 * c + d
  }

  lemma Be4RoundTrip(v: nat, rest: seq<byte>)
    ensures FromBe4(ToBe4(v) + rest) == v % U32
  {
    var a, b, c, d := v / 0x100_0000, v / 0x1_0000, v / 0x100, v;
    assert c == d / 256 && b == c / 256 && a == b / 256;
    assert d % 256 == d - 256 * c && c % 256 == c - 256 * b && b % 256 == b - 256 * a;
    assert a % 256 == a - 256 * (a / 256);
    assert v % U32 == v - U32 * (a / 256);
  }
}
