/** Fixed-width unsigned integers, network-order words, and reads that run past the end of a frame. */
module Octets {

  type u8 = x: int | 0 <= x < 0x100
  type u16 = x: int | 0 <= x < 0x1_0000
  type u32 = x: int | 0 <= x < 0x1_0000_0000

  type bytes = seq<u8>

  datatype Option<+T> = None | Some(value: T)

  /** Two octets, most significant first (TLV_ENCODE_PUTW). */
  function W(v: u16): (b: bytes)
    ensures |b| == 2
  {
    [v / 256, v % 256]
  }

  /** Four octets, most significant first (TLV_ENCODE_PUTL). */
  function L(v: u32): (b: bytes)
    ensures |b| == 4
  {
    [v / 0x100_0000, v / 0x1_0000 % 256, v / 256 % 256, v % 256]
  }

  function Zeros(n: nat): (b: bytes)
    ensures |b| == n
    ensures forall i | 0 <= i < n :: b[i] == 0
  {
    seq(n, _ => 0)
  }

  /** The octet at `p`; the receive buffer is zero beyond the octets received. */
  function At(data: bytes, p: int): u8 {
    if 0 <= p < |data| then data[p] else 0
  }

  function WordAt(data: bytes, p: int): u16 {
    At(data, p) * 256 + At(data, p + 1)
  }

  function LongAt(data: bytes, p: int): u32 {
    At(data, p) * 0x100_0000 + At(data, p + 1) * 0x1_0000 + At(data, p + 2) * 256 + At(data, p + 3)
  }

  /** The `n` octets from `p` on, zero-filled. */
  function Chunk(data: bytes, p: int, n: nat): (b: bytes)
    ensures |b| == n
  {
    seq<u8>(n, i => At(data, p + i))
  }

  /** `part` is what a reader finds at `p`. */
  ghost predicate Holds(data: bytes, p: nat, part: bytes) {
    p + |part| <= |data| && data[p..p + |part|] == part
  }

  /** A part made of two pieces is found exactly when both pieces are found one after the other. */
  lemma HoldsSplit(data: bytes, p: nat, a: bytes, b: bytes)
    ensures Holds(data, p, a + b) <==> Holds(data, p, a) && Holds(data, p + |a|, b)
  {
    if p + |a| + |b| <= |data| {
      assert data[p..p + |a + b|] == data[p..p + |a|] + data[p + |a|..p + |a| + |b|];
      if data[p..p + |a + b|] == a + b {
        assert (a + b)[..|a|] == a && (a + b)[|a|..] == b;
        assert data[p..p + |a|] == data[p..p + |a + b|][..|a|];
        assert data[p + |a|..p + |a| + |b|] == data[p..p + |a + b|][|a|..];
      }
    }
  }

  lemma HoldsAt(data: bytes, p: nat, part: bytes, i: nat)
    requires Holds(data, p, part) && i < |part|
    ensures At(data, p + i) == part[i]
  {
    assert data[p..p + |part|][i] == data[p + i];
  }

  lemma HoldsChunk(data: bytes, p: nat, part: bytes)
    requires Holds(data, p, part)
    ensures Chunk(data, p, |part|) == part
  {
    forall i | 0 <= i < |part|
      ensures Chunk(data, p, |part|)[i] == part[i]
    {
      HoldsAt(data, p, part, i);
    }
  }

  /** Reading back a word or a long gives the number written. */
  lemma HoldsWord(data: bytes, p: nat, v: u16)
    requires Holds(data, p, W(v))
    ensures WordAt(data, p) == v
  {
    HoldsAt(data, p, W(v), 0);
    HoldsAt(data, p, W(v), 1);
  }

  lemma LongDigits(v: u32)
    ensures v == v / 0x100_0000 * 0x100_0000 + v / 0x1_0000 % 256 * 0x1_0000 + v / 256 % 256 * 256 + v % 256
  {
    assert v / 0x1_0000 == v / 0x100_0000 * 256 + v / 0x1_0000 % 256;
    assert v / 256 == v / 0x1_0000 * 256 + v / 256 % 256;
  }

  lemma HoldsLong(data: bytes, p: nat, v: u32)
    requires Holds(data, p, L(v))
    ensures LongAt(data, p) == v
  {
    LongDigits(v);
    HoldsAt(data, p, L(v), 0);
    HoldsAt(data, p, L(v), 1);
    HoldsAt(data, p, L(v), 2);
    HoldsAt(data, p, L(v), 3);
  }

  /** The part of a buffer a C string function sees: everything before the first zero octet. */
  function CStr(buf: bytes): (s: bytes)
    ensures |s| <= |buf| && s == buf[..|s|] && 0 !in s
    ensures |s| == |buf| || buf[|s|] == 0
  {
    if buf == [] || buf[0] == 0 then [] else [buf[0]] + CStr(buf[1..])
  }

  lemma {:induction false} CStrOfString(s: bytes, tail: bytes)
    requires 0 !in s
    requires tail == [] || tail[0] == 0
    ensures CStr(s + tail) == s
  {
    if s == [] {
      assert s + tail == tail;
    } else {
      assert (s + tail)[1..] == s[1..] + tail;
      CStrOfString(s[1..], tail);
    }
  }

  // ---- parts written one after the other ----

  lemma Concat2(c: bytes, x: bytes, y: bytes)
    ensures c + x + y == c + (x + y)
  {
  }

  lemma Concat3(c: bytes, x: bytes, y: bytes, z: bytes)
    ensures c + x + y + z == c + (x + y + z)
  {
    Concat2(c, x, y);
    Concat2(c, x + y, z);
  }

  lemma Concat4(c: bytes, x: bytes, y: bytes, z: bytes, u: bytes)
    ensures c + x + y + z + u == c + (x + y + z + u)
  {
    Concat3(c, x, y, z);
    Concat2(c, x + y + z, u);
  }

  lemma Concat5(c: bytes, x: bytes, y: bytes, z: bytes, u: bytes, v: bytes)
    ensures c + x + y + z + u + v == c + (x + y + z + u + v)
  {
    Concat4(c, x, y, z, u);
    Concat2(c, x + y + z + u, v);
  }
}
