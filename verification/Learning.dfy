/** What UNI-C holds after learning a provider's lists, record by record and node by node. */
module Learning {
  import opened Octets
  import opened Wire
  import opened UniCSpec
  import opened RoundTrip
  import opened NodeLists
  import DatabaseOps
  import Bandwidth

  // ---- learning a list ----

  function Get<T>(recs: map<u16, T>, id: u16): Option<T> {
    if id in recs then Some(recs[id]) else None
  }

  /** The first EVC with this reference id. */
  function FindEvc(es: seq<Evc>, id: u16): (r: Option<Evc>)
    ensures r.Some? ==> r.value in es && r.value.refId == id
  {
    if es == [] then None else if es[0].refId == id then Some(es[0]) else FindEvc(es[1..], id)
  }

  function FindMap(ms: seq<CvlanMap>, id: u16): (r: Option<CvlanMap>)
    ensures r.Some? ==> r.value in ms && r.value.refId == id
  {
    if ms == [] then None else if ms[0].refId == id then Some(ms[0]) else FindMap(ms[1..], id)
  }

  lemma EvcNotAgain(es: seq<Evc>)
    requires es != [] && AscendingEvcs(es)
    ensures FindEvc(es[1..], es[0].refId) == None
  {
    assert forall x | x in es[1..] :: x.refId != es[0].refId;
  }

  lemma MapNotAgain(ms: seq<CvlanMap>)
    requires ms != [] && AscendingMaps(ms)
    ensures FindMap(ms[1..], ms[0].refId) == None
  {
    assert forall x | x in ms[1..] :: x.refId != ms[0].refId;
  }

  lemma {:induction false} LearnMoreEvcs(evcs: Records<LearntEvc>, a: seq<Evc>, b: seq<Evc>)
    ensures LearnEvcs(LearnEvcs(evcs, a), b) == LearnEvcs(evcs, a + b)
    decreases |a|
  {
    if a == [] {
      assert a + b == b;
    } else {
      assert (a + b)[1..] == a[1..] + b;
      LearnMoreEvcs(LearnEvc(evcs, a[0]), a[1..], b);
    }
  }

  lemma {:induction false} LearnMoreMaps(maps: Records<LearntMap>, a: seq<CvlanMap>, b: seq<CvlanMap>)
    ensures LearnMaps(LearnMaps(maps, a), b) == LearnMaps(maps, a + b)
    decreases |a|
  {
    if a == [] {
      assert a + b == b;
    } else {
      assert (a + b)[1..] == a[1..] + b;
      LearnMoreMaps(LearnMap(maps, a[0]), a[1..], b);
    }
  }

  /** Each EVC in the list gets the record sent, every other record stays. */
  lemma {:induction false} LearntEvcRecord(evcs: Records<LearntEvc>, es: seq<Evc>, id: u16)
    requires AscendingEvcs(es)
    ensures Get(LearnEvcs(evcs, es).recs, id)
         == if FindEvc(es, id).Some? then Some(LearntEvcOf(FindEvc(es, id).value)) else Get(evcs.recs, id)
    decreases |es|
  {
    if es != [] {
      LearntEvcRecord(LearnEvc(evcs, es[0]), es[1..], id);
      EvcNotAgain(es);
    }
  }

  /** The record of a map: flags as sent, VLANs added to those learnt before. */
  function LearntMapOf(m: CvlanMap, before: Option<LearntMap>): LearntMap {
    LearntMap(true, 1, m.untagged, m.defaultEvc, (if before.Some? then before.value.vids else {}) + m.vids)
  }

  lemma {:induction false} LearntMapRecord(maps: Records<LearntMap>, ms: seq<CvlanMap>, id: u16)
    requires AscendingMaps(ms)
    ensures Get(LearnMaps(maps, ms).recs, id)
         == if FindMap(ms, id).Some? then Some(LearntMapOf(FindMap(ms, id).value, Get(maps.recs, id)))
            else Get(maps.recs, id)
    decreases |ms|
  {
    if ms != [] {
      LearntMapRecord(LearnMap(maps, ms[0]), ms[1..], id);
      MapNotAgain(ms);
    }
  }

  lemma {:induction false} EvcFound(es: seq<Evc>, i: nat)
    requires i < |es| && AscendingEvcs(es)
    ensures FindEvc(es, es[i].refId) == Some(es[i])
  {
    if i > 0 {
      assert es[1..][i - 1] == es[i];
      EvcFound(es[1..], i - 1);
    }
  }

  lemma {:induction false} MapFound(ms: seq<CvlanMap>, i: nat)
    requires i < |ms| && AscendingMaps(ms)
    ensures FindMap(ms, ms[i].refId) == Some(ms[i])
  {
    if i > 0 {
      assert ms[1..][i - 1] == ms[i];
      MapFound(ms[1..], i - 1);
    }
  }

  // ---- what is known at the end ----

  /** A database as a receiver looks at it: a UNI, and lists in ascending order. */
  ghost predicate Ordered(db: Database) {
    db.uni.Some? && AscendingEvcs(db.evcs) && AscendingMaps(db.maps)
  }

  /** The EVC is announced or was known before. */
  ghost predicate EvcKnown(db: Database, before: Learnt, id: u16) {
    FindEvc(db.evcs, id).Some? || id in before.evcs.recs
  }

  ghost predicate MapKnown(db: Database, before: Learnt, id: u16) {
    FindMap(db.maps, id).Some? || id in before.maps.recs
  }

  /** Every EVC announced has a map, announced as well or known before. */
  ghost predicate EvcsMapped(db: Database, before: Learnt) {
    forall e | e in db.evcs :: MapKnown(db, before, e.refId)
  }

  /** Everything in the database has been learnt. */
  ghost predicate LearntAll(learnt: Learnt, db: Database, before: Learnt) {
    db.uni.Some?
    && learnt == Learnt(LearntUniOf(db), LearnEvcs(before.evcs, db.evcs), LearnMaps(before.maps, db.maps))
  }

  lemma KnownAfter(db: Database, before: Learnt, learnt: Learnt, id: u16)
    requires Ordered(db) && LearntAll(learnt, db, before)
    ensures id in learnt.evcs.recs <==> EvcKnown(db, before, id)
    ensures id in learnt.maps.recs <==> MapKnown(db, before, id)
  {
    hide LearntEvcOf, LearntUniOf, LearntMapOf;
    LearntEvcRecord(before.evcs, db.evcs, id);
    LearntMapRecord(before.maps, db.maps, id);
  }

  /** Before a request is sent every EVC learnt so far is put to sleep. */
  ghost predicate Dormant(evcs: Records<LearntEvc>) {
    forall id | id in evcs.recs :: !evcs.recs[id].active
  }

  /** EVCs that took part in the exchange are those the provider sent. */
  lemma ActiveAreSent(db: Database, before: Learnt, id: u16)
    requires AscendingEvcs(db.evcs) && Dormant(before.evcs)
    ensures IsActive(LearnEvcs(before.evcs, db.evcs), id) <==> FindEvc(db.evcs, id).Some?
  {
    LearntEvcRecord(before.evcs, db.evcs, id);
  }

  // ---- nodes of learnt EVCs ----

  lemma {:induction false} InsertHas(nodes: seq<u16>, id: u16, x: u16)
    ensures x in Insert(nodes, id) <==> x == id || x in nodes
  {
    if nodes != [] {
      assert nodes == [nodes[0]] + nodes[1..];
      InsertHas(nodes[1..], id, x);
    }
  }

  lemma {:induction false} DeleteHas(nodes: seq<u16>, id: u16, x: u16)
    requires x in nodes && x != id
    ensures x in Delete(nodes, id)
  {
    assert nodes == [nodes[0]] + nodes[1..];
    if nodes[0] != id && nodes[0] != x {
      DeleteHas(nodes[1..], id, x);
    }
  }

  lemma LearnEvcHas(evcs: Records<LearntEvc>, e: Evc, x: u16)
    requires x == e.refId || x in evcs.nodes
    ensures x in LearnEvc(evcs, e).nodes
  {
    var nodes := if e.refId in evcs.recs then Delete(evcs.nodes, e.refId) else evcs.nodes;
    if x != e.refId && e.refId in evcs.recs {
      DeleteHas(evcs.nodes, e.refId, x);
    }
    InsertHas(nodes, e.refId, x);
  }

  /** Every EVC learnt has a node. */
  lemma {:induction false} LearntHasNode(evcs: Records<LearntEvc>, es: seq<Evc>, x: u16)
    requires x in evcs.nodes || FindEvc(es, x).Some?
    ensures x in LearnEvcs(evcs, es).nodes
    decreases |es|
  {
    if es != [] {
      if x in evcs.nodes || x == es[0].refId {
        LearnEvcHas(evcs, es[0], x);
      }
      LearntHasNode(LearnEvc(evcs, es[0]), es[1..], x);
    }
  }

  // ---- the closing sweep ----

  /** The learnt database mirrors the provider's: looked up by any reference id, the EVC records are those
      sent and there are no others; each map has its flags and at least its VLANs. */
  ghost predicate Mirrors(learnt: Learnt, db: Database, before: Learnt)
    requires db.uni.Some?
  {
    && learnt.uni == LearntUniOf(db)
    && (forall id: u16 :: Get(learnt.evcs.recs, id) == LearntOf(FindEvc(db.evcs, id)))
    && (forall id: u16 :: Get(learnt.maps.recs, id) == MapAfter(FindMap(db.maps, id), Get(before.maps.recs, id)))
  }

  function LearntOf(e: Option<Evc>): Option<LearntEvc> {
    if e.Some? then Some(LearntEvcOf(e.value)) else None
  }

  function MapAfter(m: Option<CvlanMap>, before: Option<LearntMap>): Option<LearntMap> {
    if m.Some? then Some(LearntMapOf(m.value, before)) else before
  }

  /** What the sweep at the end of an exchange leaves. */
  function Swept(evcs: Records<LearntEvc>): Records<LearntEvc> {
    Records(Filter(evcs.nodes, evcs), map id | id in evcs.recs && IsActive(evcs, id) :: evcs.recs[id])
  }

  lemma SweepMirrors(db: Database, before: Learnt, learnt: Learnt)
    requires Dormant(before.evcs) && Ordered(db) && LearntAll(learnt, db, before)
    ensures Mirrors(learnt.(evcs := Swept(learnt.evcs)), db, before)
  {
    hide LearntEvcOf, LearntUniOf, LearntMapOf;
    forall id: u16
      ensures Get(Swept(learnt.evcs).recs, id) == LearntOf(FindEvc(db.evcs, id))
    {
      ActiveAreSent(db, before, id);
      LearntEvcRecord(before.evcs, db.evcs, id);
    }
    forall id: u16
      ensures Get(learnt.maps.recs, id) == MapAfter(FindMap(db.maps, id), Get(before.maps.recs, id))
    {
      LearntMapRecord(before.maps, db.maps, id);
    }
  }

  /** An active EVC without a map, on which the sweep drops everything. */
  ghost predicate Unmapped(learnt: Learnt) {
    exists id :: id in learnt.evcs.nodes && IsActive(learnt.evcs, id) && id !in learnt.maps.recs
  }

  lemma SweepRefuses(db: Database, before: Learnt, learnt: Learnt)
    requires Dormant(before.evcs) && Ordered(db) && LearntAll(learnt, db, before)
    ensures Unmapped(learnt) <==> !EvcsMapped(db, before)
  {
    hide LearntUniOf, LearnEvcs, LearnMaps, FindMap;
    if id :| id in learnt.evcs.nodes && IsActive(learnt.evcs, id) && id !in learnt.maps.recs {
      ActiveAreSent(db, before, id);
      KnownAfter(db, before, learnt, id);
      assert FindEvc(db.evcs, id).value in db.evcs;
    }
    if e :| e in db.evcs && !MapKnown(db, before, e.refId) {
      var i :| 0 <= i < |db.evcs| && db.evcs[i] == e;
      EvcFound(db.evcs, i);
      ActiveAreSent(db, before, e.refId);
      KnownAfter(db, before, learnt, e.refId);
      LearntHasNode(before.evcs, db.evcs, e.refId);
    }
  }

  /** The list nodes: if there was one for every EVC record before, there is now exactly one for every EVC of the
      provider, in order; every map announced has added a node to those already there. */
  ghost predicate NodesMirror(learnt: Learnt, db: Database, before: Learnt) {
    && (Tidy(before.evcs) ==> Tidy(learnt.evcs) && learnt.evcs.nodes == DatabaseOps.EvcRefs(db.evcs))
    && multiset(learnt.maps.nodes) == multiset(before.maps.nodes) + multiset(DatabaseOps.MapRefs(db.maps))
  }

  lemma SweepNodes(db: Database, before: Learnt, learnt: Learnt)
    requires Dormant(before.evcs) && Ordered(db) && LearntAll(learnt, db, before)
    ensures NodesMirror(learnt.(evcs := Swept(learnt.evcs)), db, before)
  {
    LearnMapsCounts(before.maps, db.maps);
    if Tidy(before.evcs) {
      LearnEvcsTidy(before.evcs, db.evcs);
      FilterRises(learnt.evcs.nodes, learnt.evcs);
      forall id
        ensures id in Filter(learnt.evcs.nodes, learnt.evcs) <==> id in DatabaseOps.EvcRefs(db.evcs)
      {
        ActiveAreSent(db, before, id);
        ListedIsFound(db.evcs, id);
      }
      SameRising(Filter(learnt.evcs.nodes, learnt.evcs), DatabaseOps.EvcRefs(db.evcs));
    }
  }

  lemma ListedIsFound(es: seq<Evc>, id: u16)
    requires AscendingEvcs(es)
    ensures DatabaseOps.Rising(DatabaseOps.EvcRefs(es))
    ensures FindEvc(es, id).Some? <==> id in DatabaseOps.EvcRefs(es)
  {
    var refs := DatabaseOps.EvcRefs(es);
    if id in refs {
      var i :| 0 <= i < |refs| && refs[i] == id;
      EvcFound(es, i);
    }
    if FindEvc(es, id).Some? {
      var i :| 0 <= i < |es| && es[i] == FindEvc(es, id).value;
      assert refs[i] == id;
    }
  }

  /** After a delivery the map list is without duplicates exactly if it was before and held no node of a map announced
      again. */
  lemma MapNodesOnce(learnt: Learnt, db: Database, before: Learnt, id: u16)
    requires Ordered(db) && NodesMirror(learnt, db, before)
    ensures multiset(learnt.maps.nodes)[id] <= 1
       <==> multiset(before.maps.nodes)[id] <= (if id in DatabaseOps.MapRefs(db.maps) then 0 else 1)
  {
    CountOnce(DatabaseOps.MapRefs(db.maps), id);
  }

  lemma {:induction false} CountOnce(refs: seq<u16>, id: u16)
    requires DatabaseOps.Rising(refs)
    ensures multiset(refs)[id] == if id in refs then 1 else 0
  {
    if refs != [] {
      assert refs == [refs[0]] + refs[1..];
      CountOnce(refs[1..], id);
    }
  }

  // ---- what delivery means ----

  /** The identifier a C string function reads from the learnt field is the one sent, up to its field width. */
  lemma LearntName(id: bytes, max: nat)
    requires 0 !in id
    ensures CStr(NameOctets(id, max)) == CarriedName(id, max)
  {
    if id == [] {
      assert CStr([0]) == [];
    } else {
      var name := CarriedName(id, max);
      CStrOfString(name, []);
      assert name + [] == name;
    }
  }

  /** A delivered map has exactly the VLANs sent if and only if none learnt earlier for that EVC was withdrawn. */
  lemma VidsExact(learnt: Learnt, db: Database, before: Learnt, i: nat)
    requires Ordered(db) && Mirrors(learnt, db, before) && i < |db.maps|
    ensures var m := db.maps[i];
            m.refId in learnt.maps.recs &&
            (learnt.maps.recs[m.refId].vids == m.vids <==>
             (m.refId in before.maps.recs ==> before.maps.recs[m.refId].vids <= m.vids))
  {
    MapFound(db.maps, i);
    var id := db.maps[i].refId;
    assert Get(learnt.maps.recs, id) == MapAfter(FindMap(db.maps, id), Get(before.maps.recs, id));
  }

  /** Field by field what a record holds of an EVC announced. */
  ghost predicate EvcHeld(r: LearntEvc, e: Evc) {
    && r.status == e.status && r.evcType == e.evcType % 8 && r.active && r.level == 1
    && r.idBuf == (if |e.id| > 100 then e.id[..100] else if e.id == [] then [0] else e.id)
    && r.bw.Some? && Bandwidths(r.bw.value)
    && r.bw.value.profile
       == if e.level == 1 && e.bw.Some? then e.bw.value.(perCos := 0)
          else BwProfile(false, false, 0, 0, 0, 0, 0, 0, 0, 0, 0)
  }

  /** The four values are those of the fields received. */
  predicate Bandwidths(b: LearntBw) {
    && b.cir == Bandwidth.NumberOf(b.profile.cirMul, b.profile.cirMag)
    && b.cbs == Bandwidth.NumberOf(b.profile.cbsMul, b.profile.cbsMag)
    && b.eir == Bandwidth.NumberOf(b.profile.eirMul, b.profile.eirMag)
    && b.ebs == Bandwidth.NumberOf(b.profile.ebsMul, b.profile.ebsMag)
  }

  lemma LearntIsHeld(e: Evc)
    ensures EvcHeld(LearntEvcOf(e), e)
  {
    hide Bandwidth.NumberOf;
  }

  /** The UNI of a delivered database. */
  lemma UniExact(learnt: Learnt, db: Database, before: Learnt)
    requires Ordered(db) && Mirrors(learnt, db, before)
    ensures var u, v := db.uni.value, learnt.uni;
            && v.mapType == u.mapType && v.bw.Some? && Bandwidths(v.bw.value)
            && v.idBuf == (if |u.id| > 64 then u.id[..64] else if u.id == [] then [0] else u.id)
            && v.bw.value.profile
               == if db.level == 1 && u.bw.Some? then u.bw.value.(perCos := 0)
                  else BwProfile(false, false, 0, 0, 0, 0, 0, 0, 0, 0, 0)
  {
    hide Bandwidth.NumberOf;
  }

  /** The flags of a delivered map; maps not announced are as they were. */
  lemma MapsExact(learnt: Learnt, db: Database, before: Learnt, id: u16)
    requires Ordered(db) && Mirrors(learnt, db, before)
    ensures forall i | 0 <= i < |db.maps| && db.maps[i].refId == id ::
              id in learnt.maps.recs && learnt.maps.recs[id].untagged == db.maps[i].untagged
              && learnt.maps.recs[id].defaultEvc == db.maps[i].defaultEvc
    ensures (forall i | 0 <= i < |db.maps| :: db.maps[i].refId != id) ==>
              Get(learnt.maps.recs, id) == Get(before.maps.recs, id)
  {
    assert Get(learnt.maps.recs, id) == MapAfter(FindMap(db.maps, id), Get(before.maps.recs, id));
    forall i | 0 <= i < |db.maps| && db.maps[i].refId == id
      ensures FindMap(db.maps, id) == Some(db.maps[i])
    {
      MapFound(db.maps, i);
    }
  }

  /** The EVCs of a delivered database are those of the provider, and each has the fields that were sent. */
  lemma EvcsExact(learnt: Learnt, db: Database, before: Learnt)
    requires Ordered(db) && Mirrors(learnt, db, before)
    ensures learnt.evcs.recs.Keys == (set e | e in db.evcs :: e.refId)
    ensures forall i | 0 <= i < |db.evcs| :: EvcHeld(learnt.evcs.recs[db.evcs[i].refId], db.evcs[i])
  {
    hide EvcHeld, LearntEvcOf, LearntUniOf, LearntMapOf;
    forall i | 0 <= i < |db.evcs|
      ensures Get(learnt.evcs.recs, db.evcs[i].refId) == Some(LearntEvcOf(db.evcs[i]))
      ensures EvcHeld(LearntEvcOf(db.evcs[i]), db.evcs[i])
    {
      EvcFound(db.evcs, i);
      LearntIsHeld(db.evcs[i]);
    }
    KeysExact(learnt, db, before);
  }

  lemma KeysExact(learnt: Learnt, db: Database, before: Learnt)
    requires Ordered(db) && Mirrors(learnt, db, before)
    ensures learnt.evcs.recs.Keys == (set e | e in db.evcs :: e.refId)
  {
    forall id: u16
      ensures id in learnt.evcs.recs <==> exists e | e in db.evcs :: e.refId == id
    {
      assert Get(learnt.evcs.recs, id) == LearntOf(FindEvc(db.evcs, id));
      ListedIsFound(db.evcs, id);
      if e :| e in db.evcs && e.refId == id {
        var i :| 0 <= i < |db.evcs| && db.evcs[i] == e;
        assert DatabaseOps.EvcRefs(db.evcs)[i] == id;
      }
    }
  }

  // ---- configured bandwidth ----

  /** The profile learnt carries the flags configured and values close to those configured: rates always, burst sizes
      exactly if they are below 2 560 000 000. */
  ghost predicate Matches(b: LearntBw, m: DatabaseOps.BwMsg) {
    && b.profile.cf == m.cf && b.profile.cm == m.cm
    && Bandwidth.Within(b.cir, m.cir, 6553) && Bandwidth.Within(b.eir, m.eir, 6553)
    && (Bandwidth.Within(b.cbs, m.cbs, 25) <==> m.cbs < 2_560_000_000)
    && (Bandwidth.Within(b.ebs, m.ebs, 25) <==> m.ebs < 2_560_000_000)
  }

  lemma ProfileMatches(m: DatabaseOps.BwMsg)
    ensures Matches(Learn(DatabaseOps.ProfileOf(m, 0)), m)
  {
    hide Bandwidth.Within, Bandwidth.Code, Bandwidth.NumberOf;
    Bandwidth.Code16Within(m.cir);
    Bandwidth.Code8Within(m.cbs);
    Bandwidth.Code16Within(m.eir);
    Bandwidth.Code8Within(m.ebs);
  }

  /** What NSM has configured for the UNI is what a customer learns from the UNI Status element. */
  lemma UniBwArrives(db: Database, m: DatabaseOps.BwMsg)
    requires db.uni.Some? && m.flagged
    ensures var uni := LearntUniOf(DatabaseOps.Applied(db, DatabaseOps.UniBwAdd(m)));
            uni.bw.Some? && Matches(uni.bw.value, m)
  {
    hide Learn, NameOctets, DatabaseOps.ProfileOf, Matches;
    ProfileMatches(m);
    assert DatabaseOps.ProfileOf(m, 0).(perCos := 0) == DatabaseOps.ProfileOf(m, 0) by {
      PerCosZero(m);
    }
  }

  lemma PerCosZero(m: DatabaseOps.BwMsg)
    ensures DatabaseOps.ProfileOf(m, 0).perCos == 0
  {
    hide Bandwidth.Code;
  }

  /** The same for an EVC. */
  lemma EvcBwArrives(db: Database, id: u16, m: DatabaseOps.BwMsg)
    requires DatabaseOps.WellKept(db) && id in DatabaseOps.EvcRefs(db.evcs) && m.flagged
    ensures var e := DatabaseOps.EvcAt(DatabaseOps.Applied(db, DatabaseOps.EvcBwAdd(id, m)), id);
            e.Some? && LearntEvcOf(e.value).bw.Some? && Matches(LearntEvcOf(e.value).bw.value, m)
  {
    hide Learn, NameOctets, DatabaseOps.ProfileOf, Matches, DatabaseOps.PutEvc, DatabaseOps.IndexOf,
      DatabaseOps.Rising;
    ProfileMatches(m);
    PerCosZero(m);
    DatabaseOps.OldIsKept(db, id);
    var e := DatabaseOps.OldEvc(db, id).(bw := Some(DatabaseOps.ProfileOf(m, 0)), level := LEVEL_PER_EVC);
    DatabaseOps.PutEvcAt(db.evcs, e, id);
  }
}
