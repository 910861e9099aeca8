/** The customer's list nodes, as opposed to the records they point to, while elements are learnt. */
module NodeLists {
  import opened Octets
  import opened Wire
  import opened UniCSpec
  import opened RoundTrip
  import opened DatabaseOps

  /** One node for every record, in ascending order. */
  ghost predicate Tidy(evcs: Records<LearntEvc>) {
    Rising(evcs.nodes) && forall id :: id in evcs.nodes <==> id in evcs.recs
  }

  lemma {:induction false} InsertRises(nodes: seq<u16>, id: u16)
    requires Rising(nodes) && id !in nodes
    ensures Rising(Insert(nodes, id)) && forall x :: x in Insert(nodes, id) <==> x in nodes || x == id
  {
    if nodes != [] && nodes[0] < id {
      var rest := Insert(nodes[1..], id);
      InsertRises(nodes[1..], id);
      Prepended(nodes[0], rest);
      assert nodes == [nodes[0]] + nodes[1..];
    } else {
      Prepended(id, nodes);
    }
  }

  lemma Prepended(x: u16, rest: seq<u16>)
    requires Rising(rest) && forall y | y in rest :: x < y
    ensures Rising([x] + rest)
  {
    assert forall i | 0 <= i < |rest| :: rest[i] in rest;
  }

  lemma FirstOnly(a: seq<u16>)
    requires Rising(a) && a != []
    ensures Rising(a[1..]) && forall x :: x in a[1..] <==> x in a && x != a[0]
  {
    assert a == [a[0]] + a[1..];
  }

  lemma {:induction false} DeleteRises(nodes: seq<u16>, id: u16)
    requires Rising(nodes) && id in nodes
    ensures Rising(Delete(nodes, id)) && forall x :: x in Delete(nodes, id) <==> x in nodes && x != id
  {
    assert nodes == [nodes[0]] + nodes[1..];
    if nodes[0] != id {
      DeleteRises(nodes[1..], id);
      Prepended(nodes[0], Delete(nodes[1..], id));
    }
  }

  lemma {:induction false} FilterRises(nodes: seq<u16>, evcs: Records<LearntEvc>)
    requires Rising(nodes)
    ensures Rising(Filter(nodes, evcs)) && forall x :: x in Filter(nodes, evcs) <==> x in nodes && IsActive(evcs, x)
  {
    if nodes != [] {
      assert nodes == [nodes[0]] + nodes[1..];
      FilterRises(nodes[1..], evcs);
      Prepended(nodes[0], Filter(nodes[1..], evcs));
      assert [] + Filter(nodes[1..], evcs) == Filter(nodes[1..], evcs);
    }
  }

  lemma HeadShared(a: seq<u16>, b: seq<u16>)
    requires b != [] && forall x :: x in a <==> x in b
    ensures a != [] && a[0] in b && b[0] in a
  {
    assert b[0] in b;
  }

  lemma {:induction false} SameRising(a: seq<u16>, b: seq<u16>)
    requires Rising(a) && Rising(b) && forall x :: x in a <==> x in b
    ensures a == b
  {
    if b != [] {
      HeadShared(a, b);
      FirstOnly(a);
      FirstOnly(b);
      SameRising(a[1..], b[1..]);
    } else if a != [] {
      HeadShared(b, a);
    }
  }

  lemma LearnEvcTidy(evcs: Records<LearntEvc>, e: Evc)
    requires Tidy(evcs)
    ensures Tidy(LearnEvc(evcs, e))
  {
    if e.refId in evcs.recs {
      DeleteRises(evcs.nodes, e.refId);
      InsertRises(Delete(evcs.nodes, e.refId), e.refId);
    } else {
      InsertRises(evcs.nodes, e.refId);
    }
  }

  lemma {:induction false} LearnEvcsTidy(evcs: Records<LearntEvc>, es: seq<Evc>)
    requires Tidy(evcs)
    ensures Tidy(LearnEvcs(evcs, es))
    decreases |es|
  {
    if es != [] {
      LearnEvcTidy(evcs, es[0]);
      LearnEvcsTidy(LearnEvc(evcs, es[0]), es[1..]);
    }
  }

  lemma {:induction false} InsertCounts(nodes: seq<u16>, id: u16)
    ensures multiset(Insert(nodes, id)) == multiset(nodes) + multiset{id}
  {
    if nodes != [] {
      assert nodes == [nodes[0]] + nodes[1..];
      InsertCounts(nodes[1..], id);
    }
  }

  /** Every map announced adds a node, whether or not its record exists. */
  lemma {:induction false} LearnMapsCounts(maps: Records<LearntMap>, ms: seq<CvlanMap>)
    ensures multiset(LearnMaps(maps, ms).nodes) == multiset(maps.nodes) + multiset(MapRefs(ms))
    decreases |ms|
  {
    if ms != [] {
      InsertCounts(maps.nodes, ms[0].refId);
      LearnMapsCounts(LearnMap(maps, ms[0]), ms[1..]);
      assert MapRefs(ms) == [ms[0].refId] + MapRefs(ms[1..]);
    }
  }
}
