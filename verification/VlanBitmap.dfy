/** The 4096-bit VLAN bitmap of elmi_types.h, kept as 128 words of 32 bits. */
module VlanBitmap {
  import opened Octets

  const WORD_WIDTH := 32
  const WORD_MAX := 128
  const VID_MAX := 4096

  type vid = x: int | 0 <= x < 4096

  /** The VLANs of `s` from `v` up to, not including, `hi`, in ascending order. */
  function Ascending(s: set<vid>, v: nat, hi: nat): (r: seq<vid>)
    requires v <= hi <= VID_MAX
    ensures forall i | 0 <= i < |r| :: r[i] in s && v <= r[i] < hi
    ensures forall x: vid | v <= x < hi && x in s :: x in r
    ensures forall i, j | 0 <= i < j < |r| :: r[i] < r[j]
    decreases hi, s
  {
    if v == hi then [] else Ascending(s, v, hi - 1) + (if hi - 1 in s then [hi - 1] else [])
  }

  /** The whole bitmap in the order the iteration macro visits it. */
  function Members(s: set<vid>): (r: seq<vid>)
    ensures forall x: vid :: x in r <==> x in s
    ensures forall i, j | 0 <= i < j < |r| :: r[i] < r[j]
  {
    Ascending(s, 0, VID_MAX)
  }

  lemma {:induction false} StrictlyAscendingCount(s: set<vid>, r: seq<vid>)
    requires forall x: vid :: x in r <==> x in s
    requires forall i, j | 0 <= i < j < |r| :: r[i] < r[j]
    ensures |r| == |s|
  {
    if r == [] {
      assert s == {};
    } else {
      var t := s - {r[0]};
      forall x: vid
        ensures x in r[1..] <==> x in t
      {
        if x in r[1..] {
          var i :| 0 <= i < |r| - 1 && r[1..][i] == x;
          assert r[i + 1] == x;
        }
        if x in t {
          var i :| 0 <= i < |r| && r[i] == x;
          assert r[1..][i - 1] == x;
        }
      }
      StrictlyAscendingCount(t, r[1..]);
    }
  }

  /** Iteration visits each member exactly once. */
  lemma MembersCount(s: set<vid>)
    ensures |Members(s)| == |s|
  {
    StrictlyAscendingCount(s, Members(s));
  }

  /** w & (1U << i), by binary digits. */
  predicate TestBit(w: nat, i: nat) {
    if i == 0 then w % 2 == 1 else TestBit(w / 2, i - 1)
  }

  /** w | (1U << i) */
  function OrBit(w: nat, i: nat): nat {
    if i == 0 then w / 2 * 2 + 1 else OrBit(w / 2, i - 1) * 2 + w % 2
  }

  /** w & ~(1U << i) */
  function AndNotBit(w: nat, i: nat): nat {
    if i == 0 then w / 2 * 2 else AndNotBit(w / 2, i - 1) * 2 + w % 2
  }

  lemma {:induction false} OrBitSets(w: nat, i: nat, j: nat)
    ensures TestBit(OrBit(w, i), j) <==> i == j || TestBit(w, j)
  {
    if i > 0 && j > 0 {
      OrBitSets(w / 2, i - 1, j - 1);
    }
  }

  lemma {:induction false} AndNotBitClears(w: nat, i: nat, j: nat)
    ensures TestBit(AndNotBit(w, i), j) <==> i != j && TestBit(w, j)
  {
    if i > 0 && j > 0 {
      AndNotBitClears(w / 2, i - 1, j - 1);
    }
  }

  lemma {:induction false} ZeroHasNoBits(i: nat)
    ensures !TestBit(0, i)
  {
    if i > 0 {
      ZeroHasNoBits(i - 1);
    }
  }

  function Pow2(k: nat): (p: nat)
    ensures p > 0
  {
    if k == 0 then 1 else 2 * Pow2(k - 1)
  }

  /** Setting or clearing one of the low k bits keeps a k-bit word a k-bit word. */
  lemma {:induction false} StaysInWidth(w: nat, i: nat, k: nat)
    requires i < k && w < Pow2(k)
    ensures OrBit(w, i) < Pow2(k) && AndNotBit(w, i) < Pow2(k)
  {
    assert Pow2(k) == 2 * Pow2(k - 1) && w / 2 < Pow2(k - 1);
    if i > 0 {
      StaysInWidth(w / 2, i - 1, k - 1);
    }
  }

  lemma WordRange()
    ensures Pow2(32) == 0x1_0000_0000
  {
    assert Pow2(8) == 256;
    assert Pow2(16) == 256 * 256;
    assert Pow2(24) == 256 * 256 * 256;
  }

  class Bitmap {
    const words: array<u32>

    ghost predicate Valid() {
      words.Length == WORD_MAX
    }

    predicate IsMember(v: vid)
      requires Valid()
      reads words
    {
      TestBit(words[v / WORD_WIDTH], v % WORD_WIDTH)
    }

    ghost function View(): set<vid>
      requires Valid()
      reads words
    {
      set v: vid | 0 <= v < VID_MAX && IsMember(v)
    }

    constructor ()
      ensures Valid() && fresh(words) && View() == {}
    {
      words := new u32[WORD_MAX](_ => 0);
      new;
      forall v: vid
        ensures !IsMember(v)
      {
        ZeroHasNoBits(v % WORD_WIDTH);
      }
    }

    method Set(v: vid)
      requires Valid()
      modifies words
      ensures View() == old(View()) + {v}
    {
      ghost var was := words[v / WORD_WIDTH];
      WordRange();
      StaysInWidth(was, v % WORD_WIDTH, WORD_WIDTH);
      words[v / WORD_WIDTH] := OrBit(words[v / WORD_WIDTH], v % WORD_WIDTH);
      forall x: vid
        ensures IsMember(x) <==> x == v || old(IsMember(x))
      {
        if x / WORD_WIDTH == v / WORD_WIDTH {
          OrBitSets(was, v % WORD_WIDTH, x % WORD_WIDTH);
        }
      }
    }

    method Unset(v: vid)
      requires Valid()
      modifies words
      ensures View() == old(View()) - {v}
    {
      ghost var was := words[v / WORD_WIDTH];
      WordRange();
      StaysInWidth(was, v % WORD_WIDTH, WORD_WIDTH);
      words[v / WORD_WIDTH] := AndNotBit(words[v / WORD_WIDTH], v % WORD_WIDTH);
      forall x: vid
        ensures IsMember(x) <==> x != v && old(IsMember(x))
      {
        if x / WORD_WIDTH == v / WORD_WIDTH {
          AndNotBitClears(was, v % WORD_WIDTH, x % WORD_WIDTH);
        }
      }
    }

    /** The iteration macro: words in order, bits in order, the VLAN id counting along. */
    method Iterate() returns (visited: seq<vid>)
      requires Valid()
      ensures visited == Members(View())
    {
      visited := [];
      var v: nat := 0;
      for w := 0 to WORD_MAX
        invariant v == w * WORD_WIDTH
        invariant visited == Ascending(View(), 0, v)
      {
        for i := 0 to WORD_WIDTH
          invariant v == w * WORD_WIDTH + i
          invariant visited == Ascending(View(), 0, v)
        {
          Split(v, w, i);
          if TestBit(words[w], i) {
            visited := visited + [v];
          }
          v := v + 1;
        }
      }
    }
  }

  lemma Split(v: nat, w: nat, i: nat)
    requires v == w * WORD_WIDTH + i && i < WORD_WIDTH
    ensures v / WORD_WIDTH == w && v % WORD_WIDTH == i
  {
  }

  method CountShared(evc: Bitmap, port: Bitmap) returns (count: nat)
    requires evc.Valid() && port.Valid()
    ensures count == |evc.View() * port.View()|
  {
    ghost var shared := evc.View() * port.View();
    MembersCount(shared);
    count := 0;
    for v := 0 to VID_MAX
      invariant count == |Ascending(shared, 0, v)|
    {
      if evc.IsMember(v) && port.IsMember(v) {
        count := count + 1;
      }
    }
  }

  /** elmi_unic_delete_cvlan_evc_map: count the VLANs the port also has, allocate, then fill.
      The array holds the intersection, ascending, with every slot written and none left over. */
  method CollectShared(evc: Bitmap, port: Bitmap) returns (vidInfo: array<vid>)
    requires evc.Valid() && port.Valid()
    ensures fresh(vidInfo)
    ensures vidInfo[..] == Members(evc.View() * port.View())
    ensures vidInfo.Length == |evc.View() * port.View()|
  {
    var num := CountShared(evc, port);
    MembersCount(evc.View() * port.View());
    vidInfo := new vid[num](_ => 0);
    FillShared(evc, port, vidInfo);
  }

  method FillShared(evc: Bitmap, port: Bitmap, vidInfo: array<vid>)
    requires evc.Valid() && port.Valid()
    requires vidInfo as object != evc.words && vidInfo as object != port.words
    requires vidInfo.Length == |Members(evc.View() * port.View())|
    modifies vidInfo
    ensures vidInfo[..] == Members(evc.View() * port.View())
  {
    ghost var es, ps := evc.View(), port.View();
    ghost var members := Members(es * ps);
    var count := 0;
    for v := 0 to VID_MAX
      invariant evc.View() == es && port.View() == ps
      invariant count <= vidInfo.Length
      invariant vidInfo[..count] == members[..count]
      invariant Below(members, v, count)
    {
      NextMember(members, v, count);
      assert v in members <==> v in es && v in ps;
      if evc.IsMember(v) && port.IsMember(v) {
        vidInfo[count] := v;
        count := count + 1;
      }
    }
    assert vidInfo[..] == vidInfo[..count];
  }

  /** Exactly the first `count` of the ascending ids lie below v. */
  ghost predicate Below(members: seq<vid>, v: nat, count: nat) {
    && count <= |members|
    && (forall i, j | 0 <= i < j < |members| :: members[i] < members[j])
    && (forall i | 0 <= i < |members| :: members[i] < v <==> i < count)
  }

  lemma NextMember(members: seq<vid>, v: nat, count: nat)
    requires Below(members, v, count)
    ensures v in members ==> count < |members| && members[count] == v && Below(members, v + 1, count + 1)
    ensures v !in members ==> Below(members, v + 1, count)
  {
    if v in members {
      var i :| 0 <= i < |members| && members[i] == v;
      assert members[count] <= members[i];
    }
  }
}
