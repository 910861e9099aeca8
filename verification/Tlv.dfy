/** The cursor macros of lib/tlv.h: a moving pointer together with a count of the octets left. */
module Tlv {
  import opened Octets

  /** An output buffer; `pos` is how far `*pnt` has moved, `Size()` is `*size`. */
  class Writer {
    const buf: array<u8>
    var pos: nat

    ghost predicate Valid()
      reads this
    {
      pos <= buf.Length
    }

    ghost function Contents(): (c: bytes)
      requires Valid()
      reads this, buf
      ensures |c| == pos
    {
      buf[..pos]
    }

    function Size(): nat
      requires Valid()
      reads this
    {
      buf.Length - pos
    }

    constructor (capacity: nat)
      ensures Valid() && fresh(buf) && buf.Length == capacity && Contents() == []
    {
      buf := new u8[capacity];
      pos := 0;
    }

    method PutC(v: nat)
      requires Valid() && Size() >= 1
      modifies this`pos, buf
      ensures Valid() && Contents() == old(Contents()) + [v % 256]
    {
      buf[pos] := v % 256;
      pos := pos + 1;
    }

    /** Several single octets in a row. */
    method PutRow(row: bytes)
      requires Valid() && Size() >= |row|
      modifies this`pos, buf
      ensures Valid() && Contents() == old(Contents()) + row
    {
      for i := 0 to |row|
        invariant Valid() && Size() >= |row| - i
        invariant Contents() == old(Contents()) + row[..i]
      {
        PutC(row[i]);
        assert row[..i + 1] == row[..i] + [row[i]];
      }
    }

    method PutW(v: u16)
      requires Valid() && Size() >= 2
      modifies this`pos, buf
      ensures Valid() && Contents() == old(Contents()) + W(v)
    {
      buf[pos] := v / 256 % 256;
      buf[pos + 1] := v % 256;
      pos := pos + 2;
    }

    method PutL(v: u32)
      requires Valid() && Size() >= 4
      modifies this`pos, buf
      ensures Valid() && Contents() == old(Contents()) + L(v)
    {
      buf[pos] := v / 0x100_0000 % 256;
      buf[pos + 1] := v / 0x1_0000 % 256;
      buf[pos + 2] := v / 256 % 256;
      buf[pos + 3] := v % 256;
      pos := pos + 4;
    }

    method Put(s: bytes)
      requires Valid() && Size() >= |s|
      modifies this`pos, buf
      ensures Valid() && Contents() == old(Contents()) + s
    {
      forall i | 0 <= i < |s| {
        buf[pos + i] := s[i];
      }
      pos := pos + |s|;
    }

    method PutEmpty(n: nat)
      requires Valid() && Size() >= n
      modifies this`pos, buf
      ensures Valid() && Contents() == old(Contents()) + Zeros(n)
    {
      forall i | 0 <= i < n {
        buf[pos + i] := 0;
      }
      pos := pos + n;
    }
  }

  /** A received frame; `Size()` may go negative when a decoder reads on past the end. */
  class Reader {
    const data: bytes
    var pos: nat

    function Size(): int
      reads this
    {
      |data| - pos
    }

    constructor (frame: bytes)
      ensures data == frame && pos == 0
    {
      data := frame;
      pos := 0;
    }

    method GetC() returns (v: u8)
      modifies this
      ensures v == At(data, old(pos)) && pos == old(pos) + 1
    {
      v := At(data, pos);
      pos := pos + 1;
    }

    method GetW() returns (v: u16)
      modifies this
      ensures v == WordAt(data, old(pos)) && pos == old(pos) + 2
    {
      v := At(data, pos) * 256 + At(data, pos + 1);
      pos := pos + 2;
    }

    method GetL() returns (v: u32)
      modifies this
      ensures v == LongAt(data, old(pos)) && pos == old(pos) + 4
    {
      v := LongAt(data, pos);
      pos := pos + 4;
    }

    method Get(n: nat) returns (s: bytes)
      modifies this
      ensures s == Chunk(data, old(pos), n) && pos == old(pos) + n
    {
      s := Chunk(data, pos, n);
      pos := pos + n;
    }

    method Skip(n: nat)
      modifies this
      ensures pos == old(pos) + n
    {
      pos := pos + n;
    }

    method Rewind(n: nat)
      requires n <= pos
      modifies this
      ensures pos == old(pos) - n
    {
      pos := pos - n;
    }
  }
}
