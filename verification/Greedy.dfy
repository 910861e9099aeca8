/** First-come filling of a bounded frame with elements of given sizes. */
module Greedy {

  function Sum(sizes: seq<nat>): nat {
    if sizes == [] then 0 else sizes[0] + Sum(sizes[1..])
  }

  /** How many leading elements fit, each checked against the room left before it is written. */
  function Fits(sizes: seq<nat>, room: nat): (n: nat)
    ensures n <= |sizes|
  {
    if sizes == [] || sizes[0] > room then 0 else 1 + Fits(sizes[1..], room - sizes[0])
  }

  lemma {:induction false} SumAppend(a: seq<nat>, b: seq<nat>)
    ensures Sum(a + b) == Sum(a) + Sum(b)
  {
    if a == [] {
      assert a + b == b;
    } else {
      assert (a + b)[1..] == a[1..] + b;
      SumAppend(a[1..], b);
    }
  }

  /** The elements taken fit, and the next one, if any, does not. */
  lemma {:induction false} FitsIsGreedy(sizes: seq<nat>, room: nat)
    ensures var n := Fits(sizes, room);
            && Sum(sizes[..n]) <= room
            && (n < |sizes| ==> sizes[n] > room - Sum(sizes[..n]))
  {
    var n := Fits(sizes, room);
    if n > 0 {
      FitsIsGreedy(sizes[1..], room - sizes[0]);
      assert sizes[..n][1..] == sizes[1..][..n - 1];
    }
  }

  lemma {:induction false} FitsAll(sizes: seq<nat>, room: nat)
    ensures Fits(sizes, room) == |sizes| <==> Sum(sizes) <= room
  {
    if sizes != [] && sizes[0] <= room {
      FitsAll(sizes[1..], room - sizes[0]);
    }
  }

  /** Filling from one list and then, if it is used up, from the next is filling from both in a row. */
  lemma {:induction false} FitsConcat(a: seq<nat>, b: seq<nat>, room: nat)
    requires Sum(a[..Fits(a, room)]) <= room
    ensures var n := Fits(a, room);
            Fits(a + b, room) == if n < |a| then n else |a| + Fits(b, room - Sum(a[..n]))
  {
    var n := Fits(a, room);
    if a == [] {
      assert a + b == b;
    } else if a[0] <= room {
      assert (a + b)[1..] == a[1..] + b;
      assert a[..n][1..] == a[1..][..n - 1];
      FitsConcat(a[1..], b, room - a[0]);
    }
  }
}
