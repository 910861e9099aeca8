/** What a customer ends up with when the provider's database, or its place in it, moves during an exchange. */
module Interference {
  import opened Octets
  import opened Wire
  import opened UniCSpec
  import opened UniNSpec
  import opened RoundTrip
  import opened Delivery
  import opened Fragmentation
  import opened Cuts
  import opened Serving
  import opened Learning
  import opened Transfer
  import ChangeDetection

  // ---- the database changes between two frames ----

  /** What is announced when the database turns from `o` into `p` after the first k elements: what has been sent of the
      old one, and the elements of the new one with larger reference ids. */
  function Spliced(o: Database, p: Database, k: nat): Database
    requires 0 < k < Total(o)
  {
    var id := CursorAt(o, k).lastEvcId;
    if k < |o.evcs| then Database(o.uni, o.level, o.evcs[..k] + p.evcs[UpTo(EvcItems(p.evcs), id)..], p.maps)
    else Database(o.uni, o.level, o.evcs, o.maps[..k - |o.evcs|] + p.maps[UpTo(MapItems(p.maps), id)..])
  }

  lemma {:induction false} BeyondUpTo(items: seq<Ie>, id: u16)
    requires Ascending(items)
    ensures forall i | UpTo(items, id) <= i < |items| :: RefOf(items[i]) > id
  {
    if items != [] && RefOf(items[0]) <= id {
      BeyondUpTo(items[1..], id);
      assert forall i | 1 <= i < |items| :: items[i] == items[1..][i - 1];
    }
  }

  /** The cursor an exchange leaves is one it can be resumed at. */
  lemma CursorResumes(o: SortedDb, k: nat)
    requires 0 < k < Total(o)
    ensures Resumable(CursorAt(o, k))
    ensures k < |o.evcs| ==> CursorAt(o, k) == Cursor(true, o.evcs[k - 1].refId, LAST_IE_EVC)
    ensures k == |o.evcs| ==> CursorAt(o, k) == Cursor(true, 0, LAST_IE_MAP)
    ensures k > |o.evcs| ==> CursorAt(o, k) == Cursor(true, o.maps[k - |o.evcs| - 1].refId, LAST_IE_MAP)
  {
    if k < |o.evcs| {
      assert RefOf(EvcItems(o.evcs)[k - 1]) >= 1;
    }
  }

  lemma SplicedRest(o: SortedDb, p: SortedDb, k: nat, kp: nat)
    requires 0 < k < Total(o) && kp == ResumesAt(p, CursorAt(o, k))
    ensures k <= Total(Spliced(o, p, k)) && Rest(Spliced(o, p, k), k) == Rest(p, kp)
  {
    hide UpTo, Ascending;
  }

  lemma JoinedEvcs(a: seq<Evc>, b: seq<Evc>)
    requires LegalEvcs(a) && LegalEvcs(b) && (forall x, y | x in a && y in b :: x.refId < y.refId)
    ensures LegalEvcs(a + b)
  {
    hide LegalEvc;
    assert forall i | 0 <= i < |a| :: (a + b)[i] == a[i] && a[i] in a;
    assert forall i | |a| <= i < |a + b| :: (a + b)[i] == b[i - |a|] && b[i - |a|] in b;
  }

  lemma JoinedMaps(a: seq<CvlanMap>, b: seq<CvlanMap>)
    requires AscendingMaps(a) && AscendingMaps(b) && (forall x, y | x in a && y in b :: x.refId < y.refId)
    ensures AscendingMaps(a + b)
  {
    assert forall i | 0 <= i < |a| :: (a + b)[i] == a[i] && a[i] in a;
    assert forall i | |a| <= i < |a + b| :: (a + b)[i] == b[i - |a|] && b[i - |a|] in b;
  }

  lemma EvcsBeyond(es: seq<Evc>, id: u16)
    requires Ascending(EvcItems(es))
    ensures forall y | y in es[UpTo(EvcItems(es), id)..] :: y.refId > id
  {
    hide UpTo, Ascending;
    BeyondUpTo(EvcItems(es), id);
    forall y | y in es[UpTo(EvcItems(es), id)..]
      ensures y.refId > id
    {
      var i :| UpTo(EvcItems(es), id) <= i < |es| && es[i] == y;
      assert EvcItems(es)[i] == EvcItem(y);
    }
  }

  lemma MapsBeyond(ms: seq<CvlanMap>, id: u16)
    requires Ascending(MapItems(ms))
    ensures forall y | y in ms[UpTo(MapItems(ms), id)..] :: y.refId > id
  {
    hide UpTo, Ascending;
    BeyondUpTo(MapItems(ms), id);
    forall y | y in ms[UpTo(MapItems(ms), id)..]
      ensures y.refId > id
    {
      var i :| UpTo(MapItems(ms), id) <= i < |ms| && ms[i] == y;
      assert MapItems(ms)[i] == MapItem(y);
    }
  }

  lemma SplicedEvcs(o: LegalDatabase, p: LegalDatabase, k: nat)
    requires 0 < k < |o.evcs|
    ensures LegalEvcs(o.evcs[..k] + p.evcs[UpTo(EvcItems(p.evcs), o.evcs[k - 1].refId)..])
  {
    hide UpTo, LegalEvc, LegalMaps, Ascending, AllRegular;
    var id := o.evcs[k - 1].refId;
    var j := UpTo(EvcItems(p.evcs), id);
    EvcsBeyond(p.evcs, id);
    EvcSliceLegal(o.evcs, 0, k);
    EvcSliceLegal(p.evcs, j, |p.evcs|);
    assert o.evcs[0..k] == o.evcs[..k] && p.evcs[j..|p.evcs|] == p.evcs[j..];
    assert forall x | x in o.evcs[..k] :: x.refId <= id;
    JoinedEvcs(o.evcs[..k], p.evcs[j..]);
  }

  lemma SplicedMaps(o: LegalDatabase, p: LegalDatabase, j: nat)
    requires 0 < j <= |o.maps|
    ensures AscendingMaps(o.maps[..j] + p.maps[UpTo(MapItems(p.maps), o.maps[j - 1].refId)..])
  {
    hide UpTo, LegalMap, LegalEvcs, OneDefault, Ascending, AllRegular;
    var id := o.maps[j - 1].refId;
    MapsBeyond(p.maps, id);
    assert forall x | x in o.maps[..j] :: x.refId <= id;
    JoinedMaps(o.maps[..j], p.maps[UpTo(MapItems(p.maps), id)..]);
  }

  lemma SplicedIsLegal(o: LegalDatabase, p: LegalDatabase, k: nat)
    requires 0 < k < Total(o) && LegalMaps(p.maps, o.uni.value.mapType)
    ensures LegalFrom(Spliced(o, p, k), k)
  {
    hide UpTo, OneDefault, LegalEvc, LegalMap;
    if k < |o.evcs| {
      CursorResumes(o, k);
      SplicedEvcs(o, p, k);
      assert MapsIn(Spliced(o, p, k), k, Total(Spliced(o, p, k))) == p.maps;
    } else {
      SplicedInMaps(o, p, k, UpTo(MapItems(p.maps), CursorAt(o, k).lastEvcId));
    }
  }

  lemma SplicedInMaps(o: LegalDatabase, p: LegalDatabase, k: nat, j: nat)
    requires |o.evcs| <= k < Total(o) && 0 < k && j == UpTo(MapItems(p.maps), CursorAt(o, k).lastEvcId)
    requires LegalMaps(p.maps, o.uni.value.mapType)
    ensures LegalFrom(Spliced(o, p, k), k)
  {
    hide UpTo, OneDefault, LegalEvc, LegalMap, Orderly, AscendingEvcs, AscendingMaps;
    var s, n := Spliced(o, p, k), |o.evcs|;
    CursorResumes(o, k);
    assert p.maps[j..|p.maps|] == p.maps[j..];
    MapSliceLegal(p.maps, o.uni.value.mapType, j, |p.maps|);
    assert MapsIn(s, k, Total(s)) == p.maps[j..];
    if k > n {
      SplicedMaps(o, p, k - n);
    } else {
      assert s.maps == p.maps[j..];
    }
  }

  lemma SplicedSoFar(o: LegalDatabase, p: LegalDatabase, k: nat, c: UniCSpec.State, before: Learnt)
    requires 0 < k < Total(o) && Awaits(c, o, before, k)
    ensures k <= Total(Spliced(o, p, k)) && Awaits(c, Spliced(o, p, k), before, k)
  {
    hide UpTo, LegalDb, Orderly, LearnEvcs, LearnMaps, EvcsIn, MapsIn, Learn, NameOctets;
    SplicedPrefix(o, p, k);
  }

  lemma SplicedPrefix(o: Database, p: Database, k: nat)
    requires 0 < k < Total(o)
    ensures var s := Spliced(o, p, k);
            k <= Total(s) && EvcsIn(s, 0, k) == EvcsIn(o, 0, k) && MapsIn(s, 0, k) == MapsIn(o, 0, k)
  {
    hide UpTo;
    var s, n := Spliced(o, p, k), |o.evcs|;
    if k < n {
      Joined(o.evcs[..k], s.evcs[k..], s.evcs);
      assert o.evcs[..k] == o.evcs[0..k];
    } else {
      Joined(o.maps[..k - n], s.maps[k - n..], s.maps);
      assert o.maps[..k - n] == o.maps[0..k - n];
    }
  }

  /** The answers that follow, the first of them at the place the cursor finds in the new database. */
  ghost function ResumedPlan(p: OrderlyDb, cur: Cursor): (xs: seq<Answer>)
    requires Resumable(cur)
    ensures |xs| >= 1 && xs[0] == NextAnswer(p, cur).0
  {
    var (a, cur2) := NextAnswer(p, cur);
    ResumedAnswer(p, cur, ResumesAt(p, cur), a, cur2);
    if a.report == REPORT_FULL_STATUS then [a] else [a] + Plan(p, ResumesAt(p, cur) + |a.payload.items|)
  }

  lemma ResumedPlanIs(p: OrderlyDb, cur: Cursor, kp: nat, a: Answer, cur2: Cursor)
    requires Resumable(cur) && kp == ResumesAt(p, cur) && (a, cur2) == NextAnswer(p, cur)
    ensures a.report == REPORT_FULL_STATUS ==>
              |ResumedPlan(p, cur)| == 1 && !RepeatsUni(ResumedPlan(p, cur)) && !a.payload.hasUni
    ensures a.report != REPORT_FULL_STATUS ==>
              var k2 := kp + |a.payload.items|;
              && 0 < k2 < Total(p) && |ResumedPlan(p, cur)| == 1 + |Plan(p, k2)|
              && (RepeatsUni(ResumedPlan(p, cur)) <==> a.payload.hasUni || Repeats(p, k2))
  {
    hide NextAnswer, ResumesAt, Plan, RepeatsUni, Orderly;
    ResumedAnswer(p, cur, kp, a, cur2);
    if a.report == REPORT_FULL_STATUS {
      assert [a] + [] == [a];
      RepeatsCons(a, []);
      NoneRepeats();
    } else {
      RepeatsCons(a, Plan(p, kp + |a.payload.items|));
    }
  }

  lemma NoneRepeats()
    ensures !RepeatsUni([])
  {
  }

  /** The answer carries what comes next in the customer's view. */
  lemma ResumedAnswers(p: OrderlyDb, cur: Cursor, kp: nat, a: Answer, cur2: Cursor, s: Database, k: nat)
    requires Resumable(cur) && kp == ResumesAt(p, cur) && (a, cur2) == NextAnswer(p, cur)
    requires 0 < k <= Total(s) && Rest(s, k) == Rest(p, kp)
    ensures Answers(p, a, s, k, k + |a.payload.items|)
    ensures a.report != REPORT_FULL_STATUS ==>
              var n := |a.payload.items|;
              n >= 1 && kp + n < Total(p) && cur2.(continued := true) == CursorAt(p, kp + n)
  {
    hide NextAnswer, ResumesAt, WellFilled, AllRegular, CursorAt, Sorted, Compose;
    ResumedAnswer(p, cur, kp, a, cur2);
    RestLength(p, kp);
    RestLength(s, k);
    SliceRegular(Items(p), kp, |a.payload.items|);
  }

  /** An exchange is under way: the customer awaits the elements from k on and the provider stands ready. */
  ghost predicate UnderWay(x: Link, db: LegalDatabase, before: Learnt, k: nat) {
    0 < k && LinkAt(x, db, k, db, before, k, x.n.dataInstance) && Dormant(before.evcs)
  }

  /** How an exchange gets there: from the first request on, each continued answer with UNI Status in its place leaves
      the exchange under way. */
  lemma StaysUnderWay(cc: UniCSpec.Config, cn: UniNSpec.Config, x: Link, db: LegalDatabase, before: Learnt, k: nat)
    requires LinkAt(x, db, k, db, before, k, x.n.dataInstance) && Dormant(before.evcs) && x.n.dataInstance % 256 != 0
    requires Planned(db, k).report == REPORT_FULL_STATUS_CONTD && InPlace(Planned(db, k), k)
    ensures UnderWay(Round(cc, cn, x), db, before, NextIndex(db, k))
  {
    hide Orderly, Round, Planned, PlannedCount, MapsKnown, EvcsMapped, Enquiry, Rest, Dormant, LegalEvcs, LegalMaps,
      MapsIn, Awaits, CursorAt, AscendingEvcs, AscendingMaps, Transferred;
    var a, n, y := Planned(db, k), PlannedCount(db, k), Round(cc, cn, x);
    PlanLeavesRest(db, k);
    MatchedIsAcceptable(db, before);
    KnownSplits(db, before, 0, k);
    KnownSplits(db, before, k, k + n);
    var n2 := RoundTakesEffect(cc, cn, x, db, k, db, before, k, x.n.dataInstance, a, k + n, y);
    LinkFurther(y, n2, db, k, db, before, k, n, a, x.n.dataInstance);
  }

  /** The first round after the change. */
  lemma ResumedRound(cc: UniCSpec.Config, cn: UniNSpec.Config, y: Link, p: OrderlyDb, cur: Cursor, kp: nat, a: Answer,
                     cur2: Cursor, s: Database, before: Learnt, k: nat, w: Link)
      returns (n2: UniNSpec.State)
    requires Resumable(cur) && kp == ResumesAt(p, cur) && (a, cur2) == NextAnswer(p, cur)
    requires 0 < k <= Total(s) && Rest(s, k) == Rest(p, kp) && LegalFrom(s, k) && Awaits(y.c, s, before, k)
    requires y.n.db == p && y.n.cur.(continued := true) == cur && y.n.dataInstance % 256 != 0 && Dormant(before.evcs)
    requires y.pending == Some(Enquiry(REPORT_FULL_STATUS_CONTD, y.c.sentSeq, y.c.rcvdSeq, y.c.dataInstance))
    requires a.payload.hasUni ==> NoSuchRef(p, s, before)
    requires w == Round(cc, cn, y)
    ensures k + |a.payload.items| <= Total(s)
    ensures Effect(w, n2, a, s, before, k, k + |a.payload.items|, y.n.dataInstance)
    ensures n2.db == p && n2.dataInstance == y.n.dataInstance && n2.cur == cur2
  {
    hide NextAnswer, ResumesAt, WellFilled, AllRegular, CursorAt, Orderly, Compose, UniNSpec.Handle, UniCSpec.Handle,
      Round, Effect, Received, NoSuchRef, LearntAt, Encoded, ParseEnquiry, Enquiry, Rest, Dormant, Resumable,
      LegalEvcs, LegalMaps, AscendingEvcs, AscendingMaps, MapsIn;
    var e, sent := Enquiry(REPORT_FULL_STATUS_CONTD, y.c.sentSeq, y.c.rcvdSeq, y.c.dataInstance), NextSeq(y.n.sentSeq);
    EnquiryRoundTrip(REPORT_FULL_STATUS_CONTD, y.c.sentSeq, y.c.rcvdSeq, y.c.dataInstance);
    ResumedAnswers(p, cur, kp, a, cur2, s, k);
    n2 := UniNSpec.Handle(cn, y.n, e, OPEN).0;
    ResumedSent(cn, y.n, p, cur, y.c.sentSeq, e);
    RoundReceives(cc, cn, y, e, n2, Encoded(p, a, sent, y.c.sentSeq, y.n.dataInstance));
    AnswerTakesEffect(cc, y.c, n2, p, a, s, before, k, k + |a.payload.items|, sent, y.n.dataInstance, w);
  }

  lemma LinkResumed(w: Link, n2: UniNSpec.State, p: OrderlyDb, kp: nat, s: Database, before: Learnt, k: nat, n: nat,
                    a: Answer, di: u32)
    requires 0 < k && k + n <= Total(s) && LegalFrom(s, k) && kp + n < Total(p) && Rest(s, k) == Rest(p, kp)
    requires n > 0 && n2.db == p && n2.cur.(continued := true) == CursorAt(p, kp + n)
    requires Effect(w, n2, a, s, before, k, k + n, di) && n2.dataInstance == di
    requires a.report == REPORT_FULL_STATUS_CONTD && InPlace(a, k) && MapsKnown(s, before, k, k + n)
    ensures LinkAt(w, p, kp + n, s, before, k + n, di)
  {
    hide LegalEvcs, LegalMaps, MapsIn, Awaits, MapsKnown, Enquiry, AscendingEvcs, AscendingMaps, CursorAt, Orderly;
    RestLength(p, kp);
    RestLength(s, k);
    assert Rest(p, kp + n) == Rest(p, kp)[n..] && Rest(s, k + n) == Rest(s, k)[n..];
    PartsAreLegal(s, k, k + n);
  }

  /** From the first frame after a change to the end of the exchange at z. */
  lemma ResumedExchange(cc: UniCSpec.Config, cn: UniNSpec.Config, y: Link, p: OrderlyDb, cur: Cursor, s: Database,
                        before: Learnt, k: nat, z: Link)
    requires Resumable(cur) && 0 < k <= Total(s) && Rest(s, k) == Rest(p, ResumesAt(p, cur))
    requires LegalFrom(s, k) && Awaits(y.c, s, before, k) && Dormant(before.evcs)
    requires y.n.db == p && y.n.cur.(continued := true) == cur && y.n.dataInstance % 256 != 0
    requires y.pending == Some(Enquiry(REPORT_FULL_STATUS_CONTD, y.c.sentSeq, y.c.rcvdSeq, y.c.dataInstance))
    requires RepeatsUni(ResumedPlan(p, cur)) ==> NoSuchRef(p, s, before)
    requires z == Rounds(cc, cn, y, |ResumedPlan(p, cur)|)
    ensures OutcomeOf(z, s, before, y.n.dataInstance)
         == EndOf(!RepeatsUni(ResumedPlan(p, cur)) && Acceptable(s, before, k))
  {
    hide NextAnswer, ResumesAt, CursorAt, Orderly, Round, Rounds, NoSuchRef, Enquiry, Rest, Dormant, Resumable,
      LegalEvcs, LegalMaps, AscendingEvcs, AscendingMaps, MapsIn, Acceptable, MapsKnown, Awaits, RepeatsUni, Repeats,
      Plan, ResumedPlan, Transferred;
    var kp, w := ResumesAt(p, cur), Round(cc, cn, y);
    var (a, cur2) := NextAnswer(p, cur);
    var n := |a.payload.items|;
    ResumedPlanIs(p, cur, kp, a, cur2);
    var n2 := ResumedRound(cc, cn, y, p, cur, kp, a, cur2, s, before, k, w);
    RoundsNext(cc, cn, y, w, |ResumedPlan(p, cur)|);
    KnownSplits(s, before, k, k + n);
    ResumedReport(p, cur, a);
    if a.report == REPORT_FULL_STATUS_CONTD && InPlace(a, k) && MapsKnown(s, before, k, k + n) {
      ResumedAnswers(p, cur, kp, a, cur2, s, k);
      LinkResumed(w, n2, p, kp, s, before, k, n, a, y.n.dataInstance);
      ExchangeFrom(cc, cn, w, p, kp + n, s, before, k + n, y.n.dataInstance, z);
    }
  }

  lemma ResumedReport(p: Database, cur: Cursor, a: Answer)
    requires a == NextAnswer(p, cur).0
    ensures a.report in {REPORT_FULL_STATUS, REPORT_FULL_STATUS_CONTD}
  {
    hide Compose, Remaining;
  }

  /** The answers that follow when the database has turned from `o` into `p` after the first k elements. */
  ghost function PlanAfter(o: LegalDatabase, p: LegalDatabase, k: nat): (xs: seq<Answer>)
    requires 0 < k < Total(o)
    ensures |xs| >= 1
  {
    CursorResumes(o, k);
    ResumedPlan(p, CursorAt(o, k))
  }

  /** NSM changes the database, in whatever way, while UNI-C awaits the elements from k on. The exchange goes on and,
      unless UNI Status gets repeated, an announced map lacks its EVC or an announced EVC its map, UNI-C ends up with
      the splice of both databases under the data instance of the new one; otherwise it drops everything. */
  lemma ChangedMeanwhile(cc: UniCSpec.Config, cn: UniNSpec.Config, x: Link, o: LegalDatabase, before: Learnt, k: nat,
                         p: LegalDatabase, di: u32, s: Database, z: Link)
    requires UnderWay(x, o, before, k) && s == Spliced(o, p, k) && di % 256 != 0
    requires LegalMaps(p.maps, o.uni.value.mapType)
    requires RepeatsUni(PlanAfter(o, p, k)) ==> NoSuchRef(p, s, before)
    requires z == Rounds(cc, cn, x.(n := x.n.(db := p, dataInstance := di)), |PlanAfter(o, p, k)|)
    ensures k <= Total(s)
    ensures OutcomeOf(z, s, before, di) == EndOf(!RepeatsUni(PlanAfter(o, p, k)) && Acceptable(s, before, k))
  {
    hide Orderly, Rounds, NoSuchRef, Enquiry, Rest, Dormant, Resumable, LegalEvcs, LegalMaps, AscendingEvcs,
      AscendingMaps, MapsIn, Acceptable, Awaits, RepeatsUni, ResumedPlan, Transferred, Spliced, CursorAt, ResumesAt;
    CursorResumes(o, k);
    SplicedRest(o, p, k, ResumesAt(p, CursorAt(o, k)));
    SplicedIsLegal(o, p, k);
    SplicedSoFar(o, p, k, x.c, before);
    ResumedExchange(cc, cn, x.(n := x.n.(db := p, dataInstance := di)), p, CursorAt(o, k), s, before, k, z);
  }

  /** Whether the EVC with this id, if there is one, had its turn among the first k elements. */
  predicate AlreadySent(o: Database, k: nat, id: u16)
    requires 0 < k
  {
    k >= |o.evcs| || id <= o.evcs[k - 1].refId
  }

  lemma {:induction false} FindInBoth(a: seq<Evc>, b: seq<Evc>, id: u16)
    ensures FindEvc(a + b, id) == if FindEvc(a, id).Some? then FindEvc(a, id) else FindEvc(b, id)
  {
    if a == [] {
      assert a + b == b;
    } else {
      assert (a + b)[1..] == a[1..] + b;
      FindInBoth(a[1..], b, id);
    }
  }

  lemma {:induction false} FindNone(es: seq<Evc>, id: u16)
    requires forall e | e in es :: e.refId != id
    ensures FindEvc(es, id) == None
  {
    if es != [] {
      FindNone(es[1..], id);
    }
  }

  lemma {:induction false} EvcsUpTo(es: seq<Evc>, cut: u16)
    ensures forall e | e in es[..UpTo(EvcItems(es), cut)] :: e.refId <= cut
  {
    if es != [] && es[0].refId <= cut {
      var j := UpTo(EvcItems(es[1..]), cut);
      assert EvcItems(es)[1..] == EvcItems(es[1..]);
      EvcsUpTo(es[1..], cut);
      assert es[..j + 1] == [es[0]] + es[1..][..j];
    }
  }

  /** What the kept part of the new list contains. */
  lemma UpToLookup(es: seq<Evc>, cut: u16, id: u16)
    requires Ascending(EvcItems(es))
    ensures FindEvc(es[UpTo(EvcItems(es), cut)..], id) == if id <= cut then None else FindEvc(es, id)
  {
    hide FindEvc, Ascending, UpTo;
    var j := UpTo(EvcItems(es), cut);
    EvcsBeyond(es, cut);
    assert es == es[..j] + es[j..];
    FindInBoth(es[..j], es[j..], id);
    if id <= cut {
      FindNone(es[j..], id);
    } else {
      EvcsUpTo(es, cut);
      FindNone(es[..j], id);
    }
  }

  lemma PrefixLookup(es: seq<Evc>, k: nat, id: u16)
    requires AscendingEvcs(es) && 0 < k <= |es|
    ensures FindEvc(es[..k], id) == if id <= es[k - 1].refId then FindEvc(es, id) else None
  {
    hide FindEvc;
    assert es == es[..k] + es[k..];
    FindInBoth(es[..k], es[k..], id);
    if id <= es[k - 1].refId {
      FindNone(es[k..], id);
    } else {
      FindNone(es[..k], id);
    }
  }

  /** Looking up an EVC in the splice: in the old list if its turn is over, else in the new one. */
  lemma SplicedLookup(o: LegalDatabase, p: LegalDatabase, k: nat, id: u16)
    requires 0 < k < Total(o)
    ensures FindEvc(Spliced(o, p, k).evcs, id) == FindEvc(if AlreadySent(o, k, id) then o.evcs else p.evcs, id)
  {
    hide FindEvc, UpTo, LegalMaps, LegalEvc, AllRegular;
    if k < |o.evcs| {
      var cut := o.evcs[k - 1].refId;
      CursorResumes(o, k);
      FindInBoth(o.evcs[..k], p.evcs[UpTo(EvcItems(p.evcs), cut)..], id);
      UpToLookup(p.evcs, cut, id);
      PrefixLookup(o.evcs, k, id);
    }
  }

  // ---- what a periodic check makes of it ----

  lemma ProviderKeeps(cn: UniNSpec.Config, n: UniNSpec.State, data: bytes)
    ensures var n2 := UniNSpec.Handle(cn, n, data, OPEN).0;
            n2.db == n.db && n2.dataInstance == n.dataInstance
  {
    hide Compose, ParseEnquiry, AnswerToFull, AnswerToContd;
  }

  /** Answering enquiries changes neither the database nor the data instance. */
  lemma {:induction false} RoundsKeep(cc: UniCSpec.Config, cn: UniNSpec.Config, x: Link, r: nat)
    ensures Rounds(cc, cn, x, r).n.db == x.n.db && Rounds(cc, cn, x, r).n.dataInstance == x.n.dataInstance
    decreases r
  {
    hide UniNSpec.Handle, UniCSpec.Handle;
    if r > 0 {
      if x.pending.Some? {
        ProviderKeeps(cn, x.n, x.pending.value);
      }
      RoundsKeep(cc, cn, Round(cc, cn, x), r - 1);
    }
  }

  lemma ChecksUnchanged(cc: UniCSpec.Config, cn: UniNSpec.Config, z: Link, s: Database, before: Learnt, di: u32)
    requires OutcomeOf(z, s, before, di) == Delivered && z.n.dataInstance == di && di % 256 != 0
    ensures ChangeDetection.Check(cc, cn, z.c, z.n) == ChangeDetection.Unchanged
  {
    hide ChangeDetection.Check, Mirrors, NodesMirror;
    ChangeDetection.CheckIs(cc, cn, z.c, z.n);
  }

  /** Changes of EVCs that had been sent already are lost: UNI-C keeps what was sent of them, and its next periodic
      check finds nothing changed. */
  lemma ChangeMissed(cc: UniCSpec.Config, cn: UniNSpec.Config, x: Link, o: LegalDatabase, before: Learnt, k: nat,
                     p: LegalDatabase, di: u32, z: Link)
    requires UnderWay(x, o, before, k) && di % 256 != 0 && LegalMaps(p.maps, o.uni.value.mapType)
    requires !RepeatsUni(PlanAfter(o, p, k))
    requires k <= Total(Spliced(o, p, k)) && Acceptable(Spliced(o, p, k), before, k)
    requires z == Rounds(cc, cn, x.(n := x.n.(db := p, dataInstance := di)), |PlanAfter(o, p, k)|)
    ensures z.pending == None
    ensures forall id: u16 ::
              Get(z.c.learnt.evcs.recs, id) == LearntOf(FindEvc(if AlreadySent(o, k, id) then o.evcs else p.evcs, id))
    ensures ChangeDetection.Check(cc, cn, z.c, z.n) == ChangeDetection.Unchanged
  {
    hide Orderly, Rounds, NoSuchRef, Enquiry, Rest, Dormant, LegalEvcs, LegalMaps, MapsIn, Acceptable, Awaits,
      RepeatsUni, PlanAfter, Spliced, ChangeDetection.Check, NodesMirror, LearntEvcOf, CursorAt, AscendingEvcs,
      AscendingMaps;
    var s := Spliced(o, p, k);
    ChangedMeanwhile(cc, cn, x, o, before, k, p, di, s, z);
    RoundsKeep(cc, cn, x.(n := x.n.(db := p, dataInstance := di)), |PlanAfter(o, p, k)|);
    ChecksUnchanged(cc, cn, z, s, before, di);
    SplicedIsLegal(o, p, k);
    forall id: u16
      ensures Get(z.c.learnt.evcs.recs, id)
           == LearntOf(FindEvc(if AlreadySent(o, k, id) then o.evcs else p.evcs, id))
    {
      SplicedLookup(o, p, k, id);
    }
  }

  // ---- a stale continued enquiry ----

  /** The database without the elements from index k up to k2. */
  function Skipping(db: Database, k: nat, k2: nat): Database
    requires k <= k2 <= Total(db)
  {
    var n := |db.evcs|;
    Database(db.uni, db.level, db.evcs[..Least(k, n)] + db.evcs[Least(k2, n)..],
             db.maps[..k - Least(k, n)] + db.maps[k2 - Least(k2, n)..])
  }

  lemma RestParts(db: Database, k: nat)
    requires k <= Total(db)
    ensures Rest(db, k) == EvcItems(db.evcs[Least(k, |db.evcs|)..]) + MapItems(db.maps[k - Least(k, |db.evcs|)..])
  {
  }

  lemma Gap<T>(xs: seq<T>, i: nat, j: nat, gap: seq<T>)
    requires i <= j <= |xs| && gap == xs[..i] + xs[j..]
    ensures |gap| == |xs| - (j - i) && gap[i..] == xs[j..] && gap[0..i] == xs[0..i]
  {
    Joined(xs[..i], xs[j..], gap);
    assert xs[..i] == xs[0..i];
  }

  lemma Joined<T>(a: seq<T>, b: seq<T>, all: seq<T>)
    requires all == a + b
    ensures |all| == |a| + |b| && all[0..|a|] == a && all[|a|..] == b
  {
    forall j | 0 <= j < |b|
      ensures all[|a|..][j] == b[j]
    {
    }
  }

  lemma SkippingRest(db: Database, k: nat, k2: nat)
    requires 0 < k <= k2 < Total(db)
    ensures k < Total(Skipping(db, k, k2)) && SameRest(db, k2, Skipping(db, k, k2), k)
  {
    hide EvcItems, MapItems, Rest;
    var s, i, j := Skipping(db, k, k2), Least(k, |db.evcs|), Least(k2, |db.evcs|);
    Gap(db.evcs, i, j, s.evcs);
    Gap(db.maps, k - i, k2 - j, s.maps);
    RestParts(db, k2);
    RestParts(s, k);
  }

  lemma EvcGapLegal(es: seq<Evc>, i: nat, j: nat)
    requires LegalEvcs(es) && i <= j <= |es|
    ensures LegalEvcs(es[..i] + es[j..])
  {
    hide LegalEvc;
    assert forall e | e in es[..i] + es[j..] :: e in es;
  }

  lemma MapGapAscends(ms: seq<CvlanMap>, i: nat, j: nat)
    requires AscendingMaps(ms) && i <= j <= |ms|
    ensures AscendingMaps(ms[..i] + ms[j..])
  {
  }

  lemma SkippingIsLegal(db: LegalDatabase, k: nat, k2: nat)
    requires 0 < k <= k2 < Total(db)
    ensures k <= Total(Skipping(db, k, k2)) && LegalFrom(Skipping(db, k, k2), k)
  {
    hide LegalEvc, LegalMap, OneDefault, AscendingMaps, AscendingEvcs, Orderly;
    var s, i, j := Skipping(db, k, k2), k - Least(k, |db.evcs|), k2 - Least(k2, |db.evcs|);
    EvcGapLegal(db.evcs, Least(k, |db.evcs|), Least(k2, |db.evcs|));
    MapGapAscends(db.maps, i, j);
    MapSliceLegal(db.maps, db.uni.value.mapType, j, |db.maps|);
    SkippedMaps(db, k, k2);
  }

  lemma SkippedMaps(db: Database, k: nat, k2: nat)
    requires 0 < k <= k2 < Total(db)
    ensures var s := Skipping(db, k, k2);
            k < Total(s) && MapsIn(s, k, Total(s)) == db.maps[k2 - Least(k2, |db.evcs|)..|db.maps|]
  {
    var s, i, j := Skipping(db, k, k2), Least(k, |db.evcs|), Least(k2, |db.evcs|);
    Gap(db.evcs, i, j, s.evcs);
    Gap(db.maps, k - i, k2 - j, s.maps);
  }

  lemma SkippingSoFar(db: LegalDatabase, k: nat, k2: nat, c: UniCSpec.State, before: Learnt)
    requires 0 < k <= k2 < Total(db) && Awaits(c, db, before, k)
    ensures k <= Total(Skipping(db, k, k2)) && Awaits(c, Skipping(db, k, k2), before, k)
  {
    hide LegalDb, Orderly, LearnEvcs, LearnMaps, EvcsIn, MapsIn, Learn, NameOctets;
    SkippingPrefix(db, k, k2);
  }

  lemma SkippingPrefix(db: Database, k: nat, k2: nat)
    requires 0 < k <= k2 < Total(db)
    ensures var s := Skipping(db, k, k2);
            k <= Total(s) && EvcsIn(s, 0, k) == EvcsIn(db, 0, k) && MapsIn(s, 0, k) == MapsIn(db, 0, k)
  {
    var s, i, j := Skipping(db, k, k2), Least(k, |db.evcs|), Least(k2, |db.evcs|);
    Gap(db.evcs, i, j, s.evcs);
    Gap(db.maps, k - i, k2 - j, s.maps);
  }

  lemma UnderWayBelow(x: Link, db: LegalDatabase, before: Learnt, k: nat)
    requires UnderWay(x, db, before, k)
    ensures 0 < k < Total(db) && NextIndex(db, k) <= Total(db)
    ensures Planned(db, k).report == REPORT_FULL_STATUS_CONTD ==> k < NextIndex(db, k) < Total(db)
  {
    hide LegalFrom, Awaits, Planned, PlannedCount;
    if Planned(db, k).report == REPORT_FULL_STATUS_CONTD {
      PlanLeavesRest(db, k);
    }
  }

  /** While UNI-C awaits the elements from k on, a copy of some continued enquiry reaches UNI-N first and its answer is
      lost. The frame it would have brought is skipped: unless UNI Status gets repeated or maps and EVCs do not fit
      together, UNI-C ends up with the database without the elements of that frame; otherwise it drops everything. */
  lemma StaleEnquiry(cc: UniCSpec.Config, cn: UniNSpec.Config, x: Link, db: LegalDatabase, before: Learnt, k: nat,
                     q: Numbers, k2: nat, s: Database, z: Link)
    requires UnderWay(x, db, before, k) && x.n.dataInstance % 256 != 0 && q.sent != 0
    requires Planned(db, k).report == REPORT_FULL_STATUS_CONTD && k2 == NextIndex(db, k) < Total(db)
    requires s == Skipping(db, k, k2) && (Repeats(db, k2) ==> NoSuchRef(db, s, before))
    requires z == Rounds(cc, cn, Overtaken(cn, x, q), |Plan(db, k2)|)
    ensures k <= Total(s)
    ensures OutcomeOf(z, s, before, x.n.dataInstance) == EndOf(!Repeats(db, k2) && Acceptable(s, before, k))
  {
    hide Orderly, Rounds, NoSuchRef, Enquiry, Rest, Dormant, LegalEvcs, LegalMaps, MapsIn, Acceptable, Awaits,
      Repeats, Plan, Skipping, CursorAt, AscendingEvcs, AscendingMaps, Transferred, UniNSpec.Handle, Planned,
      PlannedCount;
    UnderWayBelow(x, db, before, k);
    SkippingRest(db, k, k2);
    SkippingIsLegal(db, k, k2);
    SkippingSoFar(db, k, k2, x.c, before);
    AnswerSent(cn, x.n, db, k, q.sent, q.rcvd, q.di);
    ExchangeFrom(cc, cn, Overtaken(cn, x, q), db, k2, s, before, k, x.n.dataInstance, z);
  }

  /** UNI-N has answered another continued enquiry before the one on its way; the answer is lost. */
  function Overtaken(cn: UniNSpec.Config, x: Link, q: Numbers): Link {
    x.(n := UniNSpec.Handle(cn, x.n, Enquiry(REPORT_FULL_STATUS_CONTD, q.sent, q.rcvd, q.di), OPEN).0)
  }

  /** A customer that knew every EVC and map before accepts such an exchange: the EVCs of the skipped frame vanish, and
      the next periodic check finds nothing changed. */
  lemma StaleUnnoticed(cc: UniCSpec.Config, cn: UniNSpec.Config, x: Link, db: LegalDatabase, before: Learnt, k: nat,
                       q: Numbers, k2: nat, z: Link)
    requires UnderWay(x, db, before, k) && x.n.dataInstance % 256 != 0 && q.sent != 0
    requires Planned(db, k).report == REPORT_FULL_STATUS_CONTD && k2 == NextIndex(db, k) < Total(db)
    requires forall e | e in db.evcs :: e.refId in before.evcs.recs && e.refId in before.maps.recs
    requires !Repeats(db, k2) && z == Rounds(cc, cn, Overtaken(cn, x, q), |Plan(db, k2)|)
    ensures z.pending == None
    ensures forall i | 0 <= i < |db.evcs| :: db.evcs[i].refId in z.c.learnt.evcs.recs <==> !(k <= i < k2)
    ensures ChangeDetection.Check(cc, cn, z.c, z.n) == ChangeDetection.Unchanged
  {
    hide Orderly, Rounds, NoSuchRef, Enquiry, Rest, Dormant, LegalEvcs, LegalMaps, MapsIn, Acceptable, Awaits,
      Repeats, Plan, Skipping, CursorAt, AscendingEvcs, AscendingMaps, Transferred, UniNSpec.Handle, Planned,
      PlannedCount, ChangeDetection.Check;
    var s, di := Skipping(db, k, k2), x.n.dataInstance;
    UnderWayBelow(x, db, before, k);
    StaleEnquiry(cc, cn, x, db, before, k, q, k2, s, z);
    SkippedAcceptable(db, before, k, k2);
    ProviderKeeps(cn, x.n, Enquiry(REPORT_FULL_STATUS_CONTD, q.sent, q.rcvd, q.di));
    RoundsKeep(cc, cn, Overtaken(cn, x, q), |Plan(db, k2)|);
    ChecksUnchanged(cc, cn, z, s, before, di);
    SkippingIsLegal(db, k, k2);
    SkippedUnlearnt(z.c, db, before, k, k2, di);
  }

  lemma GapMembers<T>(xs: seq<T>, i: nat, j: nat)
    requires i <= j <= |xs|
    ensures forall x | x in xs[..i] + xs[j..] :: x in xs
  {
  }

  lemma KnownBefore(s: Database, before: Learnt, k: nat)
    requires k <= Total(s)
    requires forall e | e in s.evcs :: e.refId in before.maps.recs
    requires forall m | m in s.maps :: m.refId in before.evcs.recs
    ensures Acceptable(s, before, k)
  {
    hide FindEvc, FindMap;
  }

  lemma MapsOfKnown(db: LegalDatabase, before: Learnt)
    requires forall e | e in db.evcs :: e.refId in before.evcs.recs
    ensures forall m | m in db.maps :: m.refId in before.evcs.recs
  {
    hide LegalEvcs, LegalMaps, Orderly;
    forall m | m in db.maps
      ensures m.refId in before.evcs.recs
    {
      var i :| 0 <= i < |db.maps| && db.maps[i] == m;
      assert db.evcs[i] in db.evcs;
    }
  }

  lemma SkippedAcceptable(db: LegalDatabase, before: Learnt, k: nat, k2: nat)
    requires 0 < k <= k2 < Total(db)
    requires forall e | e in db.evcs :: e.refId in before.evcs.recs && e.refId in before.maps.recs
    ensures k <= Total(Skipping(db, k, k2)) && Acceptable(Skipping(db, k, k2), before, k)
  {
    hide LegalDb, Orderly, Acceptable;
    var n := |db.evcs|;
    GapMembers(db.evcs, Least(k, n), Least(k2, n));
    GapMembers(db.maps, k - Least(k, n), k2 - Least(k2, n));
    MapsOfKnown(db, before);
    KnownBefore(Skipping(db, k, k2), before, k);
  }

  lemma SkippedUnlearnt(c: UniCSpec.State, db: LegalDatabase, before: Learnt, k: nat, k2: nat, di: u32)
    requires 0 < k <= k2 < Total(db) && Transferred(c, Skipping(db, k, k2), before, di)
    ensures forall i | 0 <= i < |db.evcs| :: db.evcs[i].refId in c.learnt.evcs.recs <==> !(k <= i < k2)
  {
    hide LegalMaps, LegalEvc, Orderly, NodesMirror, LearntEvcOf, LearntMapOf, FindEvc, FindMap, Skipping;
    var s := Skipping(db, k, k2);
    SkippingIsLegal(db, k, k2);
    forall i | 0 <= i < |db.evcs|
      ensures db.evcs[i].refId in c.learnt.evcs.recs <==> !(k <= i < k2)
    {
      var id := db.evcs[i].refId;
      SkippedLookup(db, k, k2, i);
      assert Get(c.learnt.evcs.recs, id) == LearntOf(FindEvc(s.evcs, id));
    }
  }

  lemma SkippedLookup(db: LegalDatabase, k: nat, k2: nat, i: nat)
    requires 0 < k <= k2 < Total(db) && i < |db.evcs|
    ensures FindEvc(Skipping(db, k, k2).evcs, db.evcs[i].refId).Some? <==> !(k <= i < k2)
  {
    hide LegalMaps, LegalEvc, Orderly, FindEvc, AscendingEvcs;
    GapLookup(db.evcs, Least(k, |db.evcs|), Least(k2, |db.evcs|), i);
  }

  lemma GapLookup(es: seq<Evc>, a: nat, b: nat, i: nat)
    requires AscendingEvcs(es) && a <= b <= |es| && i < |es|
    ensures FindEvc(es[..a] + es[b..], es[i].refId).Some? <==> !(a <= i < b)
  {
    hide FindEvc;
    var gap, id := es[..a] + es[b..], es[i].refId;
    forall j | 0 <= j < |gap|
      ensures gap[j] == es[if j < a then j else b + (j - a)]
    {
    }
    if a <= i < b {
      FindNone(gap, id);
    } else {
      EvcFound(gap, if i < a then i else a + (i - b));
    }
  }
}
