/** Where the provider cuts a database into frames, and which answers repeat the UNI Status element. */
module Cuts {
  import opened Octets
  import opened Wire
  import opened UniNSpec
  import opened Fragmentation
  import Greedy

  /** Where the answer after the one that starts at element k starts. */
  function NextIndex(db: Database, k: nat): (k2: nat)
    requires k <= Total(db)
    ensures k <= k2 <= Total(db)
  {
    k + PlannedCount(db, k)
  }

  /** A later answer repeats the UNI Status element. */
  ghost predicate RepeatsUni(xs: seq<Answer>) {
    exists i | 0 <= i < |xs| :: xs[i].payload.hasUni
  }

  lemma RepeatsCons(a: Answer, xs: seq<Answer>)
    ensures RepeatsUni([a] + xs) <==> a.payload.hasUni || RepeatsUni(xs)
  {
    var all := [a] + xs;
    if RepeatsUni(xs) {
      var i :| 0 <= i < |xs| && xs[i].payload.hasUni;
      assert all[i + 1].payload.hasUni;
    }
    if a.payload.hasUni {
      assert all[0].payload.hasUni;
    }
  }

  lemma PlanStep(db: OrderlyDb, k: nat, k2: nat)
    requires k < Total(db) && Planned(db, k).report == REPORT_FULL_STATUS_CONTD && k2 == NextIndex(db, k)
    ensures k < k2 < Total(db) && |Plan(db, k)| == 1 + |Plan(db, k2)|
    ensures RepeatsUni(Plan(db, k)) <==> Planned(db, k).payload.hasUni || RepeatsUni(Plan(db, k2))
  {
    PlanLeavesRest(db, k);
    PlanIs(db, k, k2);
    RepeatsCons(Planned(db, k), Plan(db, k2));
  }

  lemma PlanIs(db: OrderlyDb, k: nat, k2: nat)
    requires k < k2 < Total(db) && Planned(db, k).report == REPORT_FULL_STATUS_CONTD && k2 == NextIndex(db, k)
    ensures Plan(db, k) == [Planned(db, k)] + Plan(db, k2)
  {
  }

  lemma PlanEnds(db: OrderlyDb, k: nat)
    requires 0 < k < Total(db) && Planned(db, k).report == REPORT_FULL_STATUS
    ensures |Plan(db, k)| == 1 && !RepeatsUni(Plan(db, k))
  {
    assert Plan(db, k) == [Planned(db, k)];
  }

  // ---- by lengths alone ----

  /** Elements of these sizes go out in order, as many as fit a first frame of `room` octets and then as many as fit
      each further one: does a frame begin with element t? */
  function CutsAt(sizes: seq<nat>, room: nat, further: nat, t: nat): bool
    decreases t
  {
    var n := Greedy.Fits(sizes, room);
    t == 0 || (1 <= n <= t && CutsAt(sizes[n..], further, further, t - n))
  }

  /** A frame begins with the first map, and the maps need more than that frame. */
  predicate CutBeforeMaps(db: Database) {
    && CutsAt(Sizes(Items(db)), Room(db, true), MAX_PACKET - HEADER_LEN, |db.evcs|)
    && TotalLength(MapItems(db.maps)) > MAX_PACKET - HEADER_LEN
  }

  /** The same from element k, k > 0, on. */
  ghost predicate CutsLater(db: Database, k: nat)
    requires k <= Total(db)
  {
    && k <= |db.evcs| && CutsAt(Sizes(Rest(db, k)), MAX_PACKET - HEADER_LEN, MAX_PACKET - HEADER_LEN, |db.evcs| - k)
    && TotalLength(MapItems(db.maps)) > MAX_PACKET - HEADER_LEN
  }

  /** If everything left fits one frame, nothing is cut any more. */
  lemma NoCutLeft(db: Database, k: nat)
    requires k <= Total(db) && TotalLength(Rest(db, k)) <= MAX_PACKET - HEADER_LEN
    ensures !CutsLater(db, k)
  {
    var room := MAX_PACKET - HEADER_LEN;
    if k == |db.evcs| {
      assert Rest(db, k) == MapItems(db.maps);
    } else if k < |db.evcs| {
      TakeAll(Rest(db, k), room);
      if db.maps == [] {
        assert TotalLength(MapItems(db.maps)) == 0;
      }
    }
  }

  lemma SizesRest(db: Database, k: nat, n: nat)
    requires k + n <= Total(db)
    ensures Sizes(Rest(db, k))[n..] == Sizes(Rest(db, k + n))
  {
  }

  /** The answers from element k on. */
  lemma {:induction false} LaterRepeats(db: OrderlyDb, k: nat)
    requires db.uni.Some? && 0 < k < Total(db)
    ensures RepeatsUni(Plan(db, k)) <==> CutsLater(db, k)
    decreases Total(db) - k
  {
    hide RepeatsUni, Plan, Orderly;
    var room := MAX_PACKET - HEADER_LEN;
    if Planned(db, k).report == REPORT_FULL_STATUS {
      PlanEnds(db, k);
      NoCutLeft(db, k);
    } else {
      var k2 := NextIndex(db, k);
      PlanStep(db, k, k2);
      LaterRepeats(db, k2);
      SizesRest(db, k, k2 - k);
      if k == |db.evcs| {
        assert Rest(db, k) == MapItems(db.maps);
      }
    }
  }

  /** UNI Status is repeated in a later answer exactly when the lengths say so. */
  lemma RepeatsIsCut(db: OrderlyDb)
    requires db.uni.Some? && db.evcs != []
    ensures RepeatsUni(Plan(db, 0)[1..]) <==> CutBeforeMaps(db)
  {
    assert Rest(db, 0) == Items(db);
    if Planned(db, 0).report == REPORT_FULL_STATUS {
      assert Plan(db, 0) == [Planned(db, 0)];
      TakeAll(Items(db), Room(db, true));
      if db.maps == [] {
        assert TotalLength(MapItems(db.maps)) == 0;
      }
    } else {
      var k2 := NextIndex(db, 0);
      PlanStep(db, 0, k2);
      PlanIs(db, 0, k2);
      assert Plan(db, 0)[1..] == Plan(db, k2);
      LaterRepeats(db, k2);
      SizesRest(db, 0, k2);
    }
  }
}
