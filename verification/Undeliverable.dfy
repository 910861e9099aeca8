/** Databases UNI-N sends in a form UNI-C cannot take: a condition on lengths alone, and an instance. */
module Undeliverable {
  import opened Octets
  import opened VlanBitmap
  import opened Wire
  import opened UniNSpec
  import opened RoundTrip
  import opened Delivery
  import opened Fragmentation
  import opened Cuts
  import opened Transfer
  import UniCSpec

  /** The simplest case: the EVCs fill the first frame up to the first map. */
  lemma CutInFirstFrame(db: LegalDatabase)
    requires db.maps != []
    requires TotalLength(EvcItems(db.evcs)) <= Room(db, true) < TotalLength(EvcItems(db.evcs)) + MapLength(db.maps[0])
    requires TotalLength(MapItems(db.maps)) > MAX_PACKET - HEADER_LEN
    ensures db.evcs != [] && !Deliverable(db)
  {
    var es, ms := EvcItems(db.evcs), MapItems(db.maps);
    TakeConcat(es, ms, Room(db, true));
    TakeAll(es, Room(db, true));
    assert es[..|es|] == es;
    assert Take(es + ms, Room(db, true)) == |es|;
    assert CutsAt(Sizes(es + ms)[|es|..], MAX_PACKET - HEADER_LEN, MAX_PACKET - HEADER_LEN, 0);
  }

  // ---- an instance ----

  const EXAMPLE_EVCS := 11
  const EXAMPLE_VIDS := 123

  function ExampleEvc(i: nat): Evc
    requires i < EXAMPLE_EVCS
  {
    Evc(i + 1, 1, 0, seq<u8>(EVC_NAME_LEN, _ => 65), LEVEL_PER_UNI, None, [])
  }

  function VidRange(lo: nat, n: nat): (r: set<vid>)
    requires lo + n <= VID_MAX
    ensures forall v | v in r :: lo <= v < lo + n
  {
    if n == 0 then {} else VidRange(lo, n - 1) + {lo + n - 1}
  }

  function ExampleMap(i: nat): CvlanMap
    requires i < EXAMPLE_EVCS
  {
    CvlanMap(i + 1, false, false, VidRange(EXAMPLE_VIDS * i + 1, EXAMPLE_VIDS))
  }

  /** Eleven EVCs with names of 100 octets, each with its own 123 VLANs. */
  const EXAMPLE := Database(Some(UniInfo(BUNDLING, [], None)), LEVEL_PER_EVC,
                            seq(EXAMPLE_EVCS, i requires 0 <= i < EXAMPLE_EVCS => ExampleEvc(i)),
                            seq(EXAMPLE_EVCS, i requires 0 <= i < EXAMPLE_EVCS => ExampleMap(i)))

  lemma {:induction false} RangeSize(lo: nat, n: nat)
    requires lo + n <= VID_MAX
    ensures |VidRange(lo, n)| == n
  {
    if n > 0 {
      RangeSize(lo, n - 1);
    }
  }

  lemma ExampleMapLength(i: nat)
    requires i < EXAMPLE_EVCS
    ensures MapLength(ExampleMap(i)) == 254 && ExampleMap(i).vids != {}
  {
    RangeSize(EXAMPLE_VIDS * i + 1, EXAMPLE_VIDS);
    MembersCount(ExampleMap(i).vids);
  }

  lemma ExampleEvcLength(i: nat)
    requires i < EXAMPLE_EVCS
    ensures EvcLength(ExampleEvc(i)) == 124
  {
  }

  lemma {:induction false} EqualLengths(items: seq<Ie>, n: nat)
    requires forall i | 0 <= i < |items| :: items[i].Length() == n
    ensures TotalLength(items) == |items| * n
  {
    if items != [] {
      var m := |items| - 1;
      assert Sizes(items)[1..] == Sizes(items[1..]);
      EqualLengths(items[1..], n);
      assert (m + 1) * n == m * n + n;
    }
  }

  lemma ExampleLengths()
    ensures TotalLength(EvcItems(EXAMPLE.evcs)) == 1364 && TotalLength(MapItems(EXAMPLE.maps)) == 2794
    ensures forall i | 0 <= i < EXAMPLE_EVCS :: MapLength(EXAMPLE.maps[i]) == 254 && EXAMPLE.maps[i].vids != {}
  {
    forall i | 0 <= i < EXAMPLE_EVCS
      ensures EvcLength(EXAMPLE.evcs[i]) == 124 && MapLength(EXAMPLE.maps[i]) == 254 && EXAMPLE.maps[i].vids != {}
    {
      ExampleEvcLength(i);
      ExampleMapLength(i);
    }
    EqualLengths(EvcItems(EXAMPLE.evcs), 124);
    EqualLengths(MapItems(EXAMPLE.maps), 254);
  }

  lemma ExampleRegular()
    ensures AllRegular(EvcItems(EXAMPLE.evcs)) && AllRegular(MapItems(EXAMPLE.maps))
  {
    ExampleLengths();
  }

  lemma RegularConcat(a: seq<Ie>, b: seq<Ie>)
    requires AllRegular(a) && AllRegular(b)
    ensures AllRegular(a + b)
  {
  }

  lemma ExampleSorted()
    ensures Sorted(EXAMPLE)
  {
  }

  lemma ExampleIsOrderly()
    ensures Orderly(EXAMPLE)
  {
    ExampleSorted();
    ExampleRegular();
    RegularConcat(EvcItems(EXAMPLE.evcs), MapItems(EXAMPLE.maps));
    ExampleLengths();
    TotalConcat(EvcItems(EXAMPLE.evcs), MapItems(EXAMPLE.maps));
  }

  lemma ExampleEvcsLegal(es: seq<Evc>)
    requires |es| == EXAMPLE_EVCS && forall i | 0 <= i < |es| :: es[i] == ExampleEvc(i)
    ensures LegalEvcs(es)
  {
  }

  lemma ExampleMapsLegal(ms: seq<CvlanMap>)
    requires |ms| == EXAMPLE_EVCS && forall i | 0 <= i < |ms| :: ms[i] == ExampleMap(i)
    ensures LegalMaps(ms, BUNDLING)
  {
    forall i | 0 <= i < |ms|
      ensures LegalMap(ms[i], BUNDLING)
    {
      ExampleMapLength(i);
    }
  }

  lemma ExampleIsLegal()
    ensures LegalDb(EXAMPLE)
  {
    ExampleEvcsLegal(EXAMPLE.evcs);
    ExampleMapsLegal(EXAMPLE.maps);
  }

  lemma ExampleIsUndeliverable()
    ensures Orderly(EXAMPLE) && LegalDb(EXAMPLE) && EXAMPLE.evcs != [] && !Deliverable(EXAMPLE)
  {
    ExampleIsOrderly();
    ExampleIsLegal();
    ExampleLengths();
    CutInFirstFrame(EXAMPLE);
  }

  /** A legal database that no exchange ever delivers: whatever the two ends have gone through before, UNI-C ends up
      without anything learnt. */
  lemma ExampleIsNotDelivered(cc: UniCSpec.Config, cn: UniNSpec.Config, c: UniCSpec.State, n: UniNSpec.State,
                              db: LegalDatabase, z: Link)
    requires db == EXAMPLE && n.db == db && n.dataInstance % 256 != 0
    requires z == Rounds(cc, cn, Start(c, n), |Plan(db, 0)|)
    ensures z.pending == None && z.c.learnt == UniCSpec.CLEARED
  {
    hide Rounds, Start, Plan, Deliverable, LegalDb, Orderly, Transferred;
    ExampleIsUndeliverable();
    assert NoSuchRef(db, db, Asleep(c));
    Exchange(cc, cn, c, n, db, z);
  }
}
