/** A whole Full Status exchange between the two ends: when it delivers the provider's database. */
module Transfer {
  import opened Octets
  import opened Wire
  import opened UniCSpec
  import opened UniNSpec
  import opened RoundTrip
  import opened Delivery
  import opened Fragmentation
  import opened Cuts
  import opened Serving
  import opened Learning

  // ---- databases and positions ----

  /** A database UNI-N announces and a receiver can find nothing wrong with: a map for every EVC. */
  ghost predicate LegalDb(db: Database) {
    && db.uni.Some? && ALL_TO_ONE_BUNDLING <= db.uni.value.mapType <= BUNDLING
    && LegalEvcs(db.evcs) && LegalMaps(db.maps, db.uni.value.mapType)
    && |db.maps| == |db.evcs| && (forall i | 0 <= i < |db.evcs| :: db.maps[i].refId == db.evcs[i].refId)
  }

  type LegalDatabase = db: OrderlyDb | LegalDb(db) witness Database(Some(UniInfo(1, [], None)), 0, [], [])

  function Least(a: nat, b: nat): nat {
    if a < b then a else b
  }

  /** The EVCs and the maps among the elements from index k up to k2. */
  function EvcsIn(db: Database, k: nat, k2: nat): seq<Evc>
    requires k <= k2
  {
    db.evcs[Least(k, |db.evcs|)..Least(k2, |db.evcs|)]
  }

  function MapsIn(db: Database, k: nat, k2: nat): seq<CvlanMap>
    requires k <= k2 <= Total(db)
  {
    db.maps[k - Least(k, |db.evcs|)..k2 - Least(k2, |db.evcs|)]
  }

  lemma ItemsIn(db: Database, k: nat, k2: nat)
    requires k <= k2 <= Total(db)
    ensures Rest(db, k)[..k2 - k] == EvcItems(EvcsIn(db, k, k2)) + MapItems(MapsIn(db, k, k2))
  {
    var i, i2 := Least(k, |db.evcs|), Least(k2, |db.evcs|);
    assert EvcItems(EvcsIn(db, k, k2)) == EvcItems(db.evcs)[i..i2];
    assert MapItems(MapsIn(db, k, k2)) == MapItems(db.maps)[k - i..k2 - i2];
    SliceOfConcat(EvcItems(db.evcs), MapItems(db.maps), k, k2, i, i2);
  }

  lemma SliceOfConcat<T>(a: seq<T>, b: seq<T>, k: nat, k2: nat, i: nat, i2: nat)
    requires k <= k2 <= |a| + |b| && i == Least(k, |a|) && i2 == Least(k2, |a|)
    ensures (a + b)[k..][..k2 - k] == a[i..i2] + b[k - i..k2 - i2]
  {
    var x, y := (a + b)[k..][..k2 - k], a[i..i2] + b[k - i..k2 - i2];
    forall j | 0 <= j < k2 - k
      ensures x[j] == y[j]
    {
      assert x[j] == (a + b)[k + j];
    }
  }

  /** What arrives from element k on is legal, and there is no rest without EVCs and maps. */
  ghost predicate LegalFrom(db: Database, k: nat) {
    && k <= Total(db) && Ordered(db)
    && ALL_TO_ONE_BUNDLING <= db.uni.value.mapType <= BUNDLING
    && LegalEvcs(db.evcs) && LegalMaps(MapsIn(db, k, Total(db)), db.uni.value.mapType)
    && (k < Total(db) ==> db.evcs != [] && db.maps != [])
  }

  lemma EvcSliceLegal(es: seq<Evc>, i: nat, j: nat)
    requires LegalEvcs(es) && i <= j <= |es|
    ensures LegalEvcs(es[i..j])
  {
  }

  lemma MapSliceLegal(ms: seq<CvlanMap>, mapType: u8, i: nat, j: nat)
    requires LegalMaps(ms, mapType) && i <= j <= |ms|
    ensures LegalMaps(ms[i..j], mapType)
  {
  }

  lemma PartsJoin(db: Database, k: nat, k2: nat, k3: nat)
    requires k <= k2 <= k3 <= Total(db)
    ensures EvcsIn(db, k, k2) + EvcsIn(db, k2, k3) == EvcsIn(db, k, k3)
    ensures MapsIn(db, k, k2) + MapsIn(db, k2, k3) == MapsIn(db, k, k3)
  {
    var n := |db.evcs|;
    SliceJoin(db.evcs, Least(k, n), Least(k2, n), Least(k3, n));
    SliceJoin(db.maps, k - Least(k, n), k2 - Least(k2, n), k3 - Least(k3, n));
  }

  lemma SliceJoin<T>(s: seq<T>, h: nat, i: nat, j: nat)
    requires h <= i <= j <= |s|
    ensures s[h..i] + s[i..j] == s[h..j]
  {
  }

  lemma JoinedSlices<T>(a: seq<T>, b: seq<T>, all: seq<T>)
    requires a + b == all
    ensures a == all[0..|a|] && b == all[|a|..|all|]
  {
  }

  lemma PartsAreLegal(db: Database, k: nat, k2: nat)
    requires LegalFrom(db, k) && k <= k2 <= Total(db)
    ensures LegalEvcs(EvcsIn(db, k, k2)) && LegalMaps(MapsIn(db, k, k2), db.uni.value.mapType)
    ensures LegalFrom(db, k2)
  {
    hide LegalEvcs, LegalMaps;
    EvcSliceLegal(db.evcs, Least(k, |db.evcs|), Least(k2, |db.evcs|));
    var all := MapsIn(db, k, Total(db));
    PartsJoin(db, k, k2, Total(db));
    JoinedSlices(MapsIn(db, k, k2), MapsIn(db, k2, Total(db)), all);
    MapSliceLegal(all, db.uni.value.mapType, 0, |MapsIn(db, k, k2)|);
    MapSliceLegal(all, db.uni.value.mapType, |MapsIn(db, k, k2)|, |all|);
  }

  /** What has been learnt when the elements before index k have arrived. */
  function LearntAt(db: Database, before: Learnt, k: nat): Learnt
    requires db.uni.Some? && k <= Total(db)
  {
    Learnt(if k == 0 then before.uni else LearntUniOf(db),
           LearnEvcs(before.evcs, EvcsIn(db, 0, k)), LearnMaps(before.maps, MapsIn(db, 0, k)))
  }

  lemma LearntNext(db: Database, before: Learnt, k: nat, k2: nat)
    requires db.uni.Some? && k <= k2 <= Total(db) && k2 > 0
    ensures LearntAt(db, before, k2)
         == Learnt(LearntUniOf(db), LearnEvcs(LearntAt(db, before, k).evcs, EvcsIn(db, k, k2)),
                   LearnMaps(LearntAt(db, before, k).maps, MapsIn(db, k, k2)))
  {
    hide EvcsIn, MapsIn, LearntUniOf;
    LearnMoreEvcs(before.evcs, EvcsIn(db, 0, k), EvcsIn(db, k, k2));
    LearnMoreMaps(before.maps, MapsIn(db, 0, k), MapsIn(db, k, k2));
    PartsJoin(db, 0, k, k2);
  }

  lemma AllLearnt(db: Database, before: Learnt)
    requires db.uni.Some? && Total(db) > 0
    ensures LearntAll(LearntAt(db, before, Total(db)), db, before)
  {
    hide LearntUniOf;
    assert EvcsIn(db, 0, Total(db)) == db.evcs && MapsIn(db, 0, Total(db)) == db.maps;
  }

  /** The maps among the elements from k up to k2 belong to EVCs announced or known before. */
  ghost predicate MapsKnown(db: Database, before: Learnt, k: nat, k2: nat)
    requires k <= k2 <= Total(db)
  {
    forall m | m in MapsIn(db, k, k2) :: EvcKnown(db, before, m.refId)
  }

  /** Everything announced from k on fits together with what was known before. */
  ghost predicate Acceptable(db: Database, before: Learnt, k: nat)
    requires k <= Total(db)
  {
    MapsKnown(db, before, k, Total(db)) && EvcsMapped(db, before)
  }

  lemma KnownSplits(db: Database, before: Learnt, k: nat, k2: nat)
    requires k <= k2 <= Total(db)
    ensures Acceptable(db, before, k) <==> MapsKnown(db, before, k, k2) && Acceptable(db, before, k2)
  {
    hide MapsIn, EvcKnown, EvcsMapped;
    PartsJoin(db, k, k2, Total(db));
    assert forall m | m in MapsIn(db, k, k2) :: m in MapsIn(db, k, Total(db));
    assert forall m | m in MapsIn(db, k2, Total(db)) :: m in MapsIn(db, k, Total(db));
  }

  /** All EVCs are announced in front of the maps: what is known when a frame's maps are decoded. */
  lemma KnownInFrame(db: Database, before: Learnt, k: nat, k2: nat)
    requires k <= k2 <= Total(db) && Ordered(db)
    ensures AllKnown(MapsIn(db, k, k2), LearntAt(db, before, k2).evcs.recs.Keys) <==> MapsKnown(db, before, k, k2)
  {
    hide LearnEvcs, LearnMaps, LearntUniOf, FindEvc;
    var ms := MapsIn(db, k, k2);
    if ms != [] {
      assert EvcsIn(db, 0, k2) == db.evcs;
      forall i | 0 <= i < |ms|
        ensures ms[i].refId in LearnEvcs(before.evcs, db.evcs).recs <==> EvcKnown(db, before, ms[i].refId)
      {
        LearntEvcRecord(before.evcs, db.evcs, ms[i].refId);
      }
    }
  }

  // ---- the customer's side of a round ----

  /** UNI-C has an open request for the elements from k on and has learnt those before. */
  ghost predicate Awaits(c: UniCSpec.State, db: Database, before: Learnt, k: nat)
    requires db.uni.Some? && k <= Total(db)
  {
    && c.requestSent && c.sentSeq != 0 && c.lastRequest == RequestAt(k)
    && c.learnt == LearntAt(db, before, k)
    && (0 < k < |db.evcs| ==> c.lastEvcId == db.evcs[k - 1].refId)
  }

  /** An answer of provider `p` carries the elements from k up to k2 of what the customer is to learn, `s`. */
  ghost predicate Answers(p: Database, a: Answer, s: Database, k: nat, k2: nat) {
    && k <= k2 <= Total(s) && a.payload.items == Rest(s, k)[..k2 - k] && AllRegular(a.payload.items)
    && WellFilled(p, a) && (a.payload.hasUni ==> p.uni.Some?)
    && (if a.report == REPORT_FULL_STATUS then k2 == Total(s) && InPlace(a, k)
        else a.report == REPORT_FULL_STATUS_CONTD && k < k2 < Total(s) && (k == 0 ==> a.payload.hasUni))
  }

  /** UNI Status belongs into the first answer and only there. */
  predicate InPlace(a: Answer, k: nat) {
    a.payload.hasUni == (k == 0)
  }

  /** While the exchange has not begun, the UNI announced is the UNI to be learnt. */
  predicate SameUni(p: Database, s: Database, k: nat) {
    k == 0 ==> p.uni == s.uni && p.level == s.level
  }

  ghost predicate LaidOut(data: bytes, head: bytes, p: Database, u: bool, es: seq<Evc>, ms: seq<CvlanMap>) {
    && Holds(data, 0, head)
    && (u ==> p.uni.Some? && Holds(data, HEADER_LEN, UniIe(p)))
    && Sections(data, BodyStart(p, u), es, ms)
    && |data| == LengthWithPadding(MapsEnd(EvcsEnd(BodyStart(p, u), es), ms))
  }

  lemma AnswerParts(p: Database, a: Answer, s: Database, k: nat, k2: nat, sent: u8, rcvd: u8, di: u32, data: bytes,
                    es: seq<Evc>, ms: seq<CvlanMap>)
    requires LegalFrom(s, k) && Answers(p, a, s, k, k2) && data == Encoded(p, a, sent, rcvd, di)
    requires es == EvcsIn(s, k, k2) && ms == MapsIn(s, k, k2)
    ensures LaidOut(data, Header(MSG_STATUS, a.report, sent, rcvd, di), p, a.payload.hasUni, es, ms)
  {
    hide LegalEvcs, LegalMaps, Sections, UniIe, EvcsIn, MapsIn, Header;
    var head := Header(MSG_STATUS, a.report, sent, rcvd, di);
    ItemsIn(s, k, k2);
    PartsAreLegal(s, k, k2);
    assert a.payload == Payload(a.payload.hasUni, EvcItems(es) + MapItems(ms));
    assert data == FrameOf(head, p, a.payload.hasUni, es, ms);
    FrameLayout(head, p, a.payload.hasUni, es, ms, data, BodyStart(p, a.payload.hasUni));
    FrameSections(head, p, a.payload.hasUni, es, ms, s.uni.value.mapType, data, BodyStart(p, a.payload.hasUni));
  }

  /** A continued answer is never padded. */
  lemma ContdUnpadded(p: Database, a: Answer, sent: u8, rcvd: u8, di: u32)
    requires AllRegular(a.payload.items) && WellFilled(p, a) && (a.payload.hasUni ==> p.uni.Some?)
    requires a.report == REPORT_FULL_STATUS_CONTD
    ensures |Encoded(p, a, sent, rcvd, di)| > MIN_PACKET
  {
    FrameSize(p, a, Header(MSG_STATUS, a.report, sent, rcvd, di));
  }

  /** The sequence check passes; only the low octet of the data instance arrives. */
  lemma AnswerHeader(c: UniCSpec.State, data: bytes, k: nat, report: u8, sent: u8, di: u32)
    requires c.requestSent && c.sentSeq != 0 && c.lastRequest == RequestAt(k)
    requires report in {REPORT_FULL_STATUS, REPORT_FULL_STATUS_CONTD} && sent != 0
    requires Holds(data, 0, Header(MSG_STATUS, report, sent, c.sentSeq, di))
    ensures Validate(data, c.requestSent, c.lastRequest) == Some((report, 5))
    ensures ParseSeqDi(data, 5, c.sentSeq) == if di % 256 == 0 then None else Some(SeqDi(di % 256, sent, 16))
  {
    hide Validate, ParseSeqDi, Header, Holds;
    HeaderValidates(data, report, sent, c.sentSeq, di, c.requestSent, c.lastRequest);
    SeqDiRoundTrip(data, report, sent, c.sentSeq, di, c.sentSeq);
  }

  lemma HandleAs(cfg: UniCSpec.Config, c: UniCSpec.State, data: bytes, report: u8, r: Parsed)
    requires Validate(data, c.requestSent, c.lastRequest) == Some((report, 5)) && report != REPORT_SINGLE_EVC
    requires Dispatch(data, report, 5, c.(requestSent := false), OPEN) == r
    ensures var (c2, o) := UniCSpec.Handle(cfg, c, data, OPEN);
            c2 == r.state.(health := c2.health) && o.built == r.built && o.sent == r.sent
  {
    hide Validate, Dispatch;
  }

  /** The UNI Status part of an answer that has it in its place. */
  lemma UniPart(p: Database, s: Database, data: bytes, k: nat, es: seq<Evc>, ms: seq<CvlanMap>, c: UniCSpec.State)
    requires s.uni.Some? && ALL_TO_ONE_BUNDLING <= s.uni.value.mapType <= BUNDLING && SameUni(p, s, k)
    requires Sections(data, BodyStart(p, k == 0), es, ms) && (k == 0 ==> Holds(data, HEADER_LEN, UniIe(p)))
    requires |data| >= MIN_PACKET && c.lastRequest == RequestAt(k) && (k > 0 ==> c.learnt.uni == LearntUniOf(s))
    ensures ParseUni(data, HEADER_LEN, c.lastRequest, c.learnt.uni) == Some((LearntUniOf(s), BodyStart(p, k == 0)))
    ensures ContdUni(data, HEADER_LEN, c.lastRequest, c.learnt.uni) == Some((LearntUniOf(s), BodyStart(p, k == 0)))
  {
    if k == 0 {
      UniRoundTrip(data, HEADER_LEN, p, c.lastRequest, c.learnt.uni);
    } else if es != [] {
      assert EvcAt(data, HEADER_LEN, es[0]);
    } else if ms != [] {
      assert MapAt(data, HEADER_LEN, ms[0]);
    }
  }

  /** Reference ids continue where the last frame stopped. */
  lemma IdsContinue(c: UniCSpec.State, s: Database, before: Learnt, k: nat, k2: nat)
    requires k < k2 <= Total(s) && LegalFrom(s, k) && Awaits(c, s, before, k)
    ensures var es, ms := EvcsIn(s, k, k2), MapsIn(s, k, k2);
            && (es == [] ==> ms != [] && c.lastRequest == REPORT_FULL_STATUS_CONTD)
            && (es != [] && c.lastRequest == REPORT_FULL_STATUS_CONTD ==> c.lastEvcId <= es[0].refId)
            && (k2 < |s.evcs| ==> es != [] && es[|es| - 1] == s.evcs[k2 - 1])
            && (k2 == Total(s) ==> ms != [])
  {
    hide LegalMaps, LearntAt;
  }

  // ---- continued answers ----

  /** A continued answer with UNI Status in its place moves the receiver on to the next index, unless it brings a map
      of an unknown EVC; then everything learnt is dropped. */
  lemma ContdRound(cfg: UniCSpec.Config, c: UniCSpec.State, p: Database, a: Answer, s: Database, before: Learnt,
                   k: nat, k2: nat, sent: u8, di: u32)
    requires LegalFrom(s, k) && Awaits(c, s, before, k) && sent != 0 && di % 256 != 0
    requires Answers(p, a, s, k, k2) && SameUni(p, s, k) && a.report == REPORT_FULL_STATUS_CONTD && InPlace(a, k)
    ensures var (c2, o) := UniCSpec.Handle(cfg, c, Encoded(p, a, sent, c.sentSeq, di), OPEN);
            if MapsKnown(s, before, k, k2)
            then Awaits(c2, s, before, k2) && o.sent
                 && o.built == [Enquiry(REPORT_FULL_STATUS_CONTD, c2.sentSeq, c2.rcvdSeq, c2.dataInstance)]
            else c2.learnt == CLEARED && !o.sent
  {
    hide Sections, UniIe, Header, MapsKnown, ParseContd, Validate, LearntAt, WellFilled, LegalFrom, Enquiry, Encoded;
    var data, es, ms := Encoded(p, a, sent, c.sentSeq, di), EvcsIn(s, k, k2), MapsIn(s, k, k2);
    AnswerParts(p, a, s, k, k2, sent, c.sentSeq, di, data, es, ms);
    AnswerHeader(c, data, k, REPORT_FULL_STATUS_CONTD, sent, di);
    ContdUnpadded(p, a, sent, c.sentSeq, di);
    var c1 := c.(requestSent := false);
    ContdParsed(c1, c, p, s, before, k, k2, data, SeqDi(di % 256, sent, 16), es, ms);
    HandleAs(cfg, c, data, REPORT_FULL_STATUS_CONTD, ParseContd(data, 5, c1, OPEN));
  }

  /** A result after which the next enquiry is out and the elements from k on are awaited. */
  ghost predicate MovedOn(r: Parsed, s: Database, before: Learnt, k: nat)
    requires s.uni.Some? && k <= Total(s)
  {
    && Awaits(r.state, s, before, k) && r.sent
    && r.built == [Enquiry(REPORT_FULL_STATUS_CONTD, r.state.sentSeq, r.state.rcvdSeq, r.state.dataInstance)]
  }

  lemma ContdParsed(c1: UniCSpec.State, c: UniCSpec.State, p: Database, s: Database, before: Learnt, k: nat, k2: nat,
                    data: bytes, m: SeqDi, es: seq<Evc>, ms: seq<CvlanMap>)
    requires k < k2 < Total(s) && LegalFrom(s, k) && Awaits(c, s, before, k) && c1 == c.(requestSent := false)
    requires m.pos == 16 && ParseSeqDi(data, 5, c.sentSeq) == Some(m) && SameUni(p, s, k)
    requires es == EvcsIn(s, k, k2) && ms == MapsIn(s, k, k2) && |data| > MIN_PACKET
    requires (k == 0 ==> p.uni.Some? && Holds(data, HEADER_LEN, UniIe(p)))
    requires Sections(data, BodyStart(p, k == 0), es, ms)
    requires |data| == LengthWithPadding(MapsEnd(EvcsEnd(BodyStart(p, k == 0), es), ms))
    ensures var r := ParseContd(data, 5, c1, OPEN);
            if MapsKnown(s, before, k, k2) then MovedOn(r, s, before, k2)
            else r.state.learnt == CLEARED && !r.sent
  {
    hide Sections, UniIe, MapsKnown, ParseContd, ParseSeqDi, Holds, EvcsEnd, BodyStart, LegalEvcs, LegalMaps,
      ContdUni, ParseUni, LearntUniOf, AllKnown, LearntAt, EvcsIn, MapsIn, Enquiry, SentOn;
    IdsContinue(c, s, before, k, k2);
    LearntStart(s, before, k);
    UniPart(p, s, data, k, es, ms, c1);
    PartsAreLegal(s, k, k2);
    LearntNext(s, before, k, k2);
    KnownInFrame(s, before, k, k2);
    NoMapsEnd(data, EvcsEnd(BodyStart(p, k == 0), es), ms);
    ContdTaken(data, c1, OPEN, m, LearntUniOf(s), BodyStart(p, k == 0), es, ms);
    SentOnAwaits(AfterContd(c1, m, LearntUniOf(s), es, ms), s, before, k2);
  }

  lemma LearntStart(s: Database, before: Learnt, k: nat)
    requires s.uni.Some? && k <= Total(s)
    ensures k > 0 ==> LearntAt(s, before, k).uni == LearntUniOf(s)
    ensures LearntUniOf(s).mapType == s.uni.value.mapType
  {
    hide LearnEvcs, LearnMaps;
  }

  lemma NoMapsEnd(data: bytes, r: nat, ms: seq<CvlanMap>)
    requires |data| == LengthWithPadding(MapsEnd(r, ms)) && |data| > MIN_PACKET
    ensures ms == [] ==> |data| == r
  {
  }

  lemma SentOnAwaits(c: UniCSpec.State, s: Database, before: Learnt, k: nat)
    requires s.uni.Some? && 0 < k <= Total(s) && c.learnt == LearntAt(s, before, k)
    requires k < |s.evcs| ==> c.lastEvcId == s.evcs[k - 1].refId
    ensures MovedOn(SentOn(c, OPEN), s, before, k)
  {
    hide LearntAt, Enquiry, Deactivated;
  }

  // ---- the closing answer ----

  /** The exchange has ended and the receiver knows the database. */
  ghost predicate Transferred(c: UniCSpec.State, db: Database, before: Learnt, di: u32) {
    && db.uni.Some?
    && Mirrors(c.learnt, db, before) && NodesMirror(c.learnt, db, before)
    && c.rcvdResponse && c.dataInstance == di % 256
  }

  /** The sweep completes the exchange exactly if every EVC has a map. */
  lemma SweepEnds(c: UniCSpec.State, m: SeqDi, db: Database, before: Learnt, learnt: Learnt, di: u32)
    requires Dormant(before.evcs) && Ordered(db) && m.di == di % 256 && LearntAll(learnt, db, before)
    ensures var r := Sweep(c, m, learnt);
            !r.sent && r.built == []
            && if EvcsMapped(db, before) then Transferred(r.state, db, before, di) else r.state.learnt == CLEARED
  {
    hide LearntAll, EvcsMapped, Mirrors, NodesMirror, IsActive, Filter;
    SweepRefuses(db, before, learnt);
    SweepMirrors(db, before, learnt);
    SweepNodes(db, before, learnt);
  }

  /** How a closing answer ends an exchange. */
  ghost predicate Ended(c: UniCSpec.State, sent: bool, db: Database, before: Learnt, di: u32, well: bool) {
    !sent && if well then Transferred(c, db, before, di) else c.learnt == CLEARED
  }

  /** A closing answer ends the exchange with the database transferred, unless a map comes without its EVC or an EVC
      without its map; then everything learnt is dropped. */
  lemma ClosingRound(cfg: UniCSpec.Config, c: UniCSpec.State, p: Database, a: Answer, s: Database, before: Learnt,
                     k: nat, sent: u8, di: u32)
    requires LegalFrom(s, k) && Awaits(c, s, before, k) && sent != 0 && di % 256 != 0 && Dormant(before.evcs)
    requires Answers(p, a, s, k, Total(s)) && SameUni(p, s, k) && a.report == REPORT_FULL_STATUS && Total(s) > 0
    ensures var (c2, o) := UniCSpec.Handle(cfg, c, Encoded(p, a, sent, c.sentSeq, di), OPEN);
            Ended(c2, o.sent, s, before, di, Acceptable(s, before, k))
  {
    hide Sections, UniIe, Header, Acceptable, ParseFull, Validate, LearntAt, WellFilled, LegalFrom, Encoded, Ended;
    var data, es, ms := Encoded(p, a, sent, c.sentSeq, di), EvcsIn(s, k, Total(s)), MapsIn(s, k, Total(s));
    AnswerParts(p, a, s, k, Total(s), sent, c.sentSeq, di, data, es, ms);
    AnswerHeader(c, data, k, REPORT_FULL_STATUS, sent, di);
    var c1, m := c.(requestSent := false), SeqDi(di % 256, sent, 16);
    if k < Total(s) {
      ClosingParsed(c1, c, p, s, before, k, data, m, es, ms, di);
    } else {
      NothingLeft(c1, c, p, s, before, data, m, di);
    }
    ClosedBy(cfg, c, data, ParseFull(data, 5, c1), s, before, di, Acceptable(s, before, k));
  }

  lemma ClosedBy(cfg: UniCSpec.Config, c: UniCSpec.State, data: bytes, r: Parsed, db: Database, before: Learnt, di: u32,
                 well: bool)
    requires Validate(data, c.requestSent, c.lastRequest) == Some((REPORT_FULL_STATUS, 5))
    requires ParseFull(data, 5, c.(requestSent := false)) == r && Ended(r.state, r.sent, db, before, di, well)
    ensures var (c2, o) := UniCSpec.Handle(cfg, c, data, OPEN);
            Ended(c2, o.sent, db, before, di, well)
  {
    hide Validate, ParseFull, Mirrors, NodesMirror, UniCSpec.Handle;
    HandleAs(cfg, c, data, REPORT_FULL_STATUS, r);
  }

  lemma ClosingParsed(c1: UniCSpec.State, c: UniCSpec.State, p: Database, s: Database, before: Learnt, k: nat,
                      data: bytes, m: SeqDi, es: seq<Evc>, ms: seq<CvlanMap>, di: u32)
    requires k < Total(s) && LegalFrom(s, k) && Awaits(c, s, before, k) && c1 == c.(requestSent := false)
    requires m.pos == 16 && m.di == di % 256 && ParseSeqDi(data, 5, c.sentSeq) == Some(m) && SameUni(p, s, k)
    requires es == EvcsIn(s, k, Total(s)) && ms == MapsIn(s, k, Total(s)) && |data| >= MIN_PACKET
    requires (k == 0 ==> p.uni.Some? && Holds(data, HEADER_LEN, UniIe(p))) && Dormant(before.evcs)
    requires Sections(data, BodyStart(p, k == 0), es, ms)
    ensures var r := ParseFull(data, 5, c1);
            Ended(r.state, r.sent, s, before, di, Acceptable(s, before, k))
  {
    hide Sections, UniIe, MapsKnown, ParseFull, ParseSeqDi, Holds, BodyStart, LegalEvcs, LegalMaps, Sweep, ParseUni,
      ContdUni, LearntUniOf, AllKnown, LearntAt, EvcsIn, MapsIn, LearntAll, EvcsMapped, Transferred, AscendingEvcs,
      AscendingMaps;
    IdsContinue(c, s, before, k, Total(s));
    LearntStart(s, before, k);
    UniPart(p, s, data, k, es, ms, c1);
    PartsAreLegal(s, k, Total(s));
    LearntNext(s, before, k, Total(s));
    KnownInFrame(s, before, k, Total(s));
    FullTaken(data, c1, m, LearntUniOf(s), BodyStart(p, k == 0), es, ms);
    AllLearnt(s, before);
    SweepEnds(WithLast(c1, es, REPORT_FULL_STATUS), m, s, before, LearntAt(s, before, Total(s)), di);
  }

  /** Nothing is left to be sent when the closing answer is due. */
  lemma NothingLeft(c1: UniCSpec.State, c: UniCSpec.State, p: Database, s: Database, before: Learnt, data: bytes,
                    m: SeqDi, di: u32)
    requires Total(s) > 0 && LegalFrom(s, Total(s)) && Awaits(c, s, before, Total(s)) && c1 == c.(requestSent := false)
    requires m.pos == 16 && m.di == di % 256 && ParseSeqDi(data, 5, c.sentSeq) == Some(m) && Dormant(before.evcs)
    requires |data| >= MIN_PACKET && Sections(data, HEADER_LEN, [], [])
    ensures var r := ParseFull(data, 5, c1);
            Ended(r.state, r.sent, s, before, di, Acceptable(s, before, Total(s)))
  {
    hide Sections, ParseFull, ParseSeqDi, LegalEvcs, LegalMaps, Sweep, ParseUni, ContdUni, LearntUniOf, LearntAt,
      LearntAll, EvcsMapped, Transferred, AscendingEvcs, AscendingMaps, UniIe;
    LearntStart(s, before, Total(s));
    UniPart(p, s, data, Total(s), [], [], c1);
    EmptyTaken(data, c1, m, LearntUniOf(s), HEADER_LEN);
    AllLearnt(s, before);
    assert MapsIn(s, Total(s), Total(s)) == [];
    SweepEnds(c1, m, s, before, LearntAt(s, before, Total(s)), di);
  }

  // ---- answers out of place ----

  /** No EVC, learnt before or announced now, has the reference id the map decoder reads out of a UNI Status element
      with a name of 17 octets. */
  ghost predicate NoSuchRef(p: Database, s: Database, before: Learnt) {
    p.uni.Some? && NameLen(p.uni.value.id, UNI_NAME_LEN) == 17 ==>
      UNI_ID_AS_REF !in before.evcs.recs && forall e | e in s.evcs :: e.refId != UNI_ID_AS_REF
  }

  /** A continued answer that repeats the UNI Status element ends the exchange with nothing learnt. */
  lemma RepeatRound(cfg: UniCSpec.Config, c: UniCSpec.State, p: Database, a: Answer, s: Database, before: Learnt,
                    k: nat, k2: nat, sent: u8, di: u32)
    requires LegalFrom(s, k) && Awaits(c, s, before, k) && sent != 0 && di % 256 != 0
    requires Answers(p, a, s, k, k2) && a.report == REPORT_FULL_STATUS_CONTD && !InPlace(a, k)
    requires NoSuchRef(p, s, before)
    ensures var (c2, o) := UniCSpec.Handle(cfg, c, Encoded(p, a, sent, c.sentSeq, di), OPEN);
            c2.learnt == CLEARED && !o.sent
  {
    hide Sections, UniIe, Header, ParseContd, ParseSeqDi, Validate, LearntAt, WellFilled, Encoded, NoSuchRef, Holds,
      UniHead, EvcsIn, MapsIn, LegalFrom;
    var data, m := Encoded(p, a, sent, c.sentSeq, di), SeqDi(di % 256, sent, 16);
    var c1 := c.(requestSent := false);
    AnswerParts(p, a, s, k, k2, sent, c.sentSeq, di, data, EvcsIn(s, k, k2), MapsIn(s, k, k2));
    AnswerHeader(c, data, k, REPORT_FULL_STATUS_CONTD, sent, di);
    UniOctets(data, 16, p);
    NotALearntRef(p, s, before, k);
    RepeatCleared(data, c1, OPEN, m, p.uni.value);
    HandleAs(cfg, c, data, REPORT_FULL_STATUS_CONTD, ClearAndReject(c1.(lastEvcId := 0)));
  }

  lemma NotALearntRef(p: Database, s: Database, before: Learnt, k: nat)
    requires p.uni.Some? && LegalFrom(s, k) && NoSuchRef(p, s, before)
    ensures NameLen(p.uni.value.id, UNI_NAME_LEN) == 17 ==> UNI_ID_AS_REF !in LearntAt(s, before, k).evcs.recs
  {
    var es := EvcsIn(s, 0, k);
    EvcSliceLegal(s.evcs, 0, Least(k, |s.evcs|));
    LearntEvcRecord(before.evcs, es, UNI_ID_AS_REF);
    assert forall e | e in es :: e in s.evcs;
  }

  /** The answer for an empty database. */
  lemma EmptyRound(cfg: UniCSpec.Config, c: UniCSpec.State, db: Database, a: Answer, before: Learnt, sent: u8, di: u32)
    requires Total(db) == 0 && LegalFrom(db, 0) && Awaits(c, db, before, 0) && sent != 0 && di % 256 != 0
    requires Dormant(before.evcs) && Answers(db, a, db, 0, 0) && a.report == REPORT_FULL_STATUS
    ensures var (c2, o) := UniCSpec.Handle(cfg, c, Encoded(db, a, sent, c.sentSeq, di), OPEN);
            Ended(c2, o.sent, db, before, di, NameLen(db.uni.value.id, UNI_NAME_LEN) <= 9)
  {
    hide Sections, UniIe, Header, ParseFull, Validate, WellFilled, LegalFrom, Encoded, Ended, EvcsIn, MapsIn;
    var data, m := Encoded(db, a, sent, c.sentSeq, di), SeqDi(di % 256, sent, 16);
    assert EvcsIn(db, 0, 0) == [] && MapsIn(db, 0, 0) == [] by {
      EmptyParts(db);
    }
    AnswerParts(db, a, db, 0, 0, sent, c.sentSeq, di, data, [], []);
    AnswerHeader(c, data, 0, REPORT_FULL_STATUS, sent, di);
    var c1 := c.(requestSent := false);
    EmptyParsed(c1, c, db, before, data, m, di);
    ClosedBy(cfg, c, data, ParseFull(data, 5, c1), db, before, di, NameLen(db.uni.value.id, UNI_NAME_LEN) <= 9);
  }

  lemma EmptyParts(db: Database)
    ensures EvcsIn(db, 0, 0) == [] && MapsIn(db, 0, 0) == []
  {
  }

  lemma EmptyParsed(c1: UniCSpec.State, c: UniCSpec.State, db: Database, before: Learnt, data: bytes, m: SeqDi, di: u32)
    requires Total(db) == 0 && LegalFrom(db, 0) && Awaits(c, db, before, 0) && c1 == c.(requestSent := false)
    requires m.pos == 16 && m.di == di % 256 && ParseSeqDi(data, 5, c.sentSeq) == Some(m) && Dormant(before.evcs)
    requires Holds(data, HEADER_LEN, UniIe(db)) && Sections(data, BodyStart(db, true), [], [])
    requires |data| == LengthWithPadding(BodyStart(db, true))
    ensures var r := ParseFull(data, 5, c1);
            Ended(r.state, r.sent, db, before, di, NameLen(db.uni.value.id, UNI_NAME_LEN) <= 9)
  {
    hide Sections, ParseFull, ParseSeqDi, Sweep, ParseUni, ContdUni, LearntUniOf, Transferred, UniIe, Holds;
    UniPart(db, db, data, 0, [], [], c1);
    EmptyTaken(data, c1, m, LearntUniOf(db), BodyStart(db, true));
    var learnt := LearntAt(db, before, 0).(uni := LearntUniOf(db));
    assert learnt == Learnt(LearntUniOf(db), LearnEvcs(before.evcs, db.evcs), LearnMaps(before.maps, db.maps));
    SweepEnds(c1, m, db, before, learnt, di);
  }

  // ---- whole exchanges ----

  /** Both ends and the enquiry on its way to UNI-N, if any. */
  datatype Link = Link(c: UniCSpec.State, n: UniNSpec.State, pending: Option<bytes>)

  function Received(cc: UniCSpec.Config, c: UniCSpec.State, n: UniNSpec.State, frame: bytes): Link {
    var (c2, oc) := UniCSpec.Handle(cc, c, frame, OPEN);
    Link(c2, n, if oc.sent && oc.built != [] then Some(oc.built[0]) else None)
  }

  /** UNI-N answers the enquiry and UNI-C handles the answer; no frame is lost and no timer expires. */
  function Round(cc: UniCSpec.Config, cn: UniNSpec.Config, x: Link): Link {
    if x.pending.None? then x
    else
      var (n2, o) := UniNSpec.Handle(cn, x.n, x.pending.value, OPEN);
      if o.frames == [] then Link(x.c, n2, None) else Received(cc, x.c, n2, o.frames[0])
  }

  function Rounds(cc: UniCSpec.Config, cn: UniNSpec.Config, x: Link, r: nat): Link
    decreases r
  {
    if r == 0 then x else Rounds(cc, cn, Round(cc, cn, x), r - 1)
  }

  /** UNI-C, in whatever state, sends a FULL_STATUS enquiry. */
  function Start(c: UniCSpec.State, n: UniNSpec.State): Link {
    var (c2, built, sent) := UniCSpec.Transmit(c, REPORT_FULL_STATUS, OPEN);
    Link(c2, n, if built != [] then Some(built[0]) else None)
  }

  /** The databases an exchange can deliver, by the lengths of their elements: without EVCs the UNI name must be short;
      otherwise the elements must not be cut right before the first map while the maps are too long for one frame. */
  ghost predicate Deliverable(db: LegalDatabase) {
    if db.evcs == [] then NameLen(db.uni.value.id, UNI_NAME_LEN) <= 9 else !CutBeforeMaps(db)
  }

  /** How an exchange stands: the receiver has the database, or has dropped everything, or neither. */
  datatype Outcome = Delivered | Dropped | Unfinished

  ghost function OutcomeOf(x: Link, db: Database, before: Learnt, di: u32): Outcome {
    if x.pending.Some? then Unfinished
    else if Transferred(x.c, db, before, di) then Delivered
    else if x.c.learnt == CLEARED then Dropped
    else Unfinished
  }

  ghost function EndOf(well: bool): Outcome {
    if well then Delivered else Dropped
  }

  lemma OutcomeIs(x: Link, db: Database, before: Learnt, di: u32, well: bool)
    requires x.pending == None && Ended(x.c, false, db, before, di, well)
    requires db.uni.Some? && db.uni.value.mapType >= ALL_TO_ONE_BUNDLING
    ensures OutcomeOf(x, db, before, di) == EndOf(well)
  {
    hide NodesMirror;
    assert CLEARED.uni.mapType != LearntUniOf(db).mapType;
  }

  /** Provider `p` at element kp stands where the customer's view `s` has element k: the rest is the same. */
  ghost predicate SameRest(p: Database, kp: nat, s: Database, k: nat) {
    && kp <= Total(p) && k <= Total(s) && Rest(p, kp) == Rest(s, k)
    && (kp == 0 <==> k == 0) && (k < Total(s) || k == 0) && SameUni(p, s, k)
  }

  ghost predicate LinkAt(x: Link, p: Database, kp: nat, s: Database, before: Learnt, k: nat, di: u32) {
    && SameRest(p, kp, s, k) && LegalFrom(s, k)
    && Awaits(x.c, s, before, k)
    && ServesFrom(x.n, p, kp) && x.n.dataInstance == di
    && x.pending == Some(Enquiry(RequestAt(k), x.c.sentSeq, x.c.rcvdSeq, x.c.dataInstance))
  }

  /** The planned answer of the provider carries what the customer is to learn next. */
  lemma PlannedAnswers(p: OrderlyDb, kp: nat, s: Database, k: nat)
    requires SameRest(p, kp, s, k) && s.uni.Some?
    ensures Answers(p, Planned(p, kp), s, k, k + PlannedCount(p, kp))
  {
    hide WellFilled, AllRegular, Orderly, Take;
    assert |Rest(p, kp)| == Total(p) - kp && |Rest(s, k)| == Total(s) - k;
    PlannedWellFilled(p, kp);
    PlannedRegular(p, kp);
    if Planned(p, kp).report == REPORT_FULL_STATUS_CONTD {
      PlanLeavesRest(p, kp);
    }
  }

  lemma RoundReceives(cc: UniCSpec.Config, cn: UniNSpec.Config, x: Link, e: bytes, n2: UniNSpec.State, frame: bytes)
    requires x.pending == Some(e)
    requires UniNSpec.Handle(cn, x.n, e, OPEN).0 == n2 && UniNSpec.Handle(cn, x.n, e, OPEN).1.frames == [frame]
    ensures Round(cc, cn, x) == Received(cc, x.c, n2, frame)
  {
    hide UniNSpec.Handle, Received;
  }

  lemma RoundAnswered(cc: UniCSpec.Config, cn: UniNSpec.Config, x: Link, p: OrderlyDb, k: nat,
                      sent: u8, rcvd: u8, di: u32) returns (n2: UniNSpec.State, frame: bytes)
    requires x.pending == Some(Enquiry(RequestAt(k), sent, rcvd, di)) && sent != 0 && k <= Total(p)
    requires ServesFrom(x.n, p, k)
    ensures Round(cc, cn, x) == Received(cc, x.c, n2, frame)
    ensures frame == AnswerFrame(p, k, NextSeq(x.n.sentSeq), sent, x.n.dataInstance)
    ensures n2.dataInstance == x.n.dataInstance
    ensures Planned(p, k).report == REPORT_FULL_STATUS_CONTD ==> ServesFrom(n2, p, NextIndex(p, k))
  {
    hide UniNSpec.Handle, Received, Enquiry, ServesFrom, AnswerFrame, Planned, PlannedCount;
    var e := Enquiry(RequestAt(k), sent, rcvd, di);
    frame := AnswerFrame(p, k, NextSeq(x.n.sentSeq), sent, x.n.dataInstance);
    n2 := UniNSpec.Handle(cn, x.n, e, OPEN).0;
    AnswerSent(cn, x.n, p, k, sent, rcvd, di);
    RoundReceives(cc, cn, x, e, n2, frame);
  }

  /** What one answer does: it moves the customer on to element k2, or it ends the exchange. */
  ghost predicate Effect(y: Link, n2: UniNSpec.State, a: Answer, s: Database, before: Learnt, k: nat, k2: nat, di: u32)
    requires s.uni.Some? && k <= k2 <= Total(s)
  {
    if a.report == REPORT_FULL_STATUS_CONTD && InPlace(a, k) && MapsKnown(s, before, k, k2) then
      y.n == n2 && Awaits(y.c, s, before, k2)
      && y.pending == Some(Enquiry(REPORT_FULL_STATUS_CONTD, y.c.sentSeq, y.c.rcvdSeq, y.c.dataInstance))
    else
      y.pending == None
      && OutcomeOf(y, s, before, di) == EndOf(a.report == REPORT_FULL_STATUS && Acceptable(s, before, k))
  }

  lemma AnswerTakesEffect(cc: UniCSpec.Config, c: UniCSpec.State, n2: UniNSpec.State, p: Database, a: Answer,
                          s: Database, before: Learnt, k: nat, k2: nat, sent: u8, di: u32, y: Link)
    requires LegalFrom(s, k) && Awaits(c, s, before, k) && sent != 0 && di % 256 != 0 && Dormant(before.evcs)
    requires Answers(p, a, s, k, k2) && SameUni(p, s, k) && Total(s) > 0
    requires InPlace(a, k) || NoSuchRef(p, s, before)
    requires y == Received(cc, c, n2, Encoded(p, a, sent, c.sentSeq, di))
    ensures Effect(y, n2, a, s, before, k, k2, di)
  {
    hide UniCSpec.Handle, Encoded, Awaits, WellFilled, AllRegular, MapsKnown, Acceptable, Transferred, NoSuchRef,
      Enquiry, LegalEvcs, LegalMaps, MapsIn, AscendingEvcs, AscendingMaps, Rest;
    if a.report == REPORT_FULL_STATUS {
      ClosingRound(cc, c, p, a, s, before, k, sent, di);
      OutcomeIs(y, s, before, di, Acceptable(s, before, k));
    } else if InPlace(a, k) {
      ContdRound(cc, c, p, a, s, before, k, k2, sent, di);
      if !MapsKnown(s, before, k, k2) {
        OutcomeIs(y, s, before, di, false);
      }
    } else {
      RepeatRound(cc, c, p, a, s, before, k, k2, sent, di);
      OutcomeIs(y, s, before, di, false);
    }
  }

  lemma {:induction false} NothingPending(cc: UniCSpec.Config, cn: UniNSpec.Config, x: Link, r: nat)
    requires x.pending == None
    ensures Rounds(cc, cn, x, r) == x
    decreases r
  {
    if r > 0 {
      NothingPending(cc, cn, x, r - 1);
    }
  }

  lemma RoundsNext(cc: UniCSpec.Config, cn: UniNSpec.Config, x: Link, y: Link, r: nat)
    requires r > 0 && y == Round(cc, cn, x)
    ensures Rounds(cc, cn, x, r) == Rounds(cc, cn, y, r - 1)
    ensures y.pending == None ==> Rounds(cc, cn, x, r) == y
  {
    hide Round;
    if y.pending == None {
      NothingPending(cc, cn, y, r - 1);
    }
  }

  /** An answer from the one that starts at element k on repeats the UNI Status element out of its place. */
  ghost predicate Repeats(p: OrderlyDb, k: nat)
    requires k < Total(p) || k == 0
  {
    RepeatsUni(if k == 0 then Plan(p, 0)[1..] else Plan(p, k))
  }

  lemma RepeatsStep(p: OrderlyDb, k: nat)
    requires (k < Total(p) || k == 0) && (k == 0 ==> p.uni.Some?)
    ensures Planned(p, k).report in {REPORT_FULL_STATUS, REPORT_FULL_STATUS_CONTD}
    ensures Planned(p, k).report == REPORT_FULL_STATUS ==>
              |Plan(p, k)| == 1 && !Repeats(p, k) && InPlace(Planned(p, k), k)
    ensures Planned(p, k).report == REPORT_FULL_STATUS_CONTD ==>
              var k2 := NextIndex(p, k);
              && k < k2 < Total(p) && |Plan(p, k)| == 1 + |Plan(p, k2)|
              && (Repeats(p, k) <==> !InPlace(Planned(p, k), k) || Repeats(p, k2))
  {
    if Planned(p, k).report == REPORT_FULL_STATUS {
      assert Plan(p, k) == [Planned(p, k)];
    } else {
      var k2 := NextIndex(p, k);
      PlanStep(p, k, k2);
      PlanIs(p, k, k2);
      assert Plan(p, k)[1..] == Plan(p, k2);
    }
  }

  /** One round of an exchange under way. */
  lemma RoundTakesEffect(cc: UniCSpec.Config, cn: UniNSpec.Config, x: Link, p: OrderlyDb, kp: nat, s: Database,
                         before: Learnt, k: nat, di: u32, a: Answer, k2: nat, y: Link)
      returns (n2: UniNSpec.State)
    requires LinkAt(x, p, kp, s, before, k, di) && di % 256 != 0 && Dormant(before.evcs) && Total(s) > 0
    requires a == Planned(p, kp) && k2 == k + PlannedCount(p, kp) && y == Round(cc, cn, x)
    requires InPlace(a, k) || NoSuchRef(p, s, before)
    ensures k <= k2 <= Total(s) && Effect(y, n2, a, s, before, k, k2, di)
    ensures n2.dataInstance == di
    ensures a.report == REPORT_FULL_STATUS_CONTD ==> ServesFrom(n2, p, NextIndex(p, kp))
  {
    hide Orderly, Effect, Received, Round, Planned, PlannedCount, Acceptable, Answers, NoSuchRef, Dormant, LegalEvcs,
      LegalMaps, AscendingEvcs, AscendingMaps, ServesFrom, Enquiry, MapsIn, Rest, LearntAt;
    PlannedAnswers(p, kp, s, k);
    var frame;
    n2, frame := RoundAnswered(cc, cn, x, p, kp, x.c.sentSeq, x.c.rcvdSeq, x.c.dataInstance);
    AnswersBounds(p, a, s, k, k2);
    AnswerTakesEffect(cc, x.c, n2, p, a, s, before, k, k2, NextSeq(x.n.sentSeq), di, y);
  }

  lemma AnswersBounds(p: Database, a: Answer, s: Database, k: nat, k2: nat)
    requires Answers(p, a, s, k, k2)
    ensures k <= k2 <= Total(s)
  {
  }

  lemma RestFurther(p: Database, kp: nat, s: Database, k: nat, n: nat)
    requires kp + n < Total(p) && SameRest(p, kp, s, k) && n > 0
    ensures k + n < Total(s) && SameRest(p, kp + n, s, k + n)
  {
    assert |Rest(p, kp)| == Total(p) - kp && |Rest(s, k)| == Total(s) - k;
    assert Rest(p, kp + n) == Rest(p, kp)[n..] && Rest(s, k + n) == Rest(s, k)[n..];
  }

  lemma LinkFurther(y: Link, n2: UniNSpec.State, p: Database, kp: nat, s: Database, before: Learnt, k: nat, n: nat,
                    a: Answer, di: u32)
    requires SameRest(p, kp, s, k) && LegalFrom(s, k) && kp + n < Total(p) && n > 0 && k + n <= Total(s)
    requires Effect(y, n2, a, s, before, k, k + n, di) && n2.dataInstance == di && ServesFrom(n2, p, kp + n)
    requires a.report == REPORT_FULL_STATUS_CONTD && InPlace(a, k) && MapsKnown(s, before, k, k + n)
    ensures LinkAt(y, p, kp + n, s, before, k + n, di)
  {
    hide LegalEvcs, LegalMaps, MapsIn, Awaits, MapsKnown, Enquiry, Rest, ServesFrom, Ordered;
    RestFurther(p, kp, s, k, n);
    PartsAreLegal(s, k, k + n);
  }

  /** From the answer that starts at element k of the customer's view to the end of the exchange at z. */
  lemma {:induction false} ExchangeFrom(cc: UniCSpec.Config, cn: UniNSpec.Config, x: Link, p: OrderlyDb, kp: nat,
                                        s: Database, before: Learnt, k: nat, di: u32, z: Link)
    requires LinkAt(x, p, kp, s, before, k, di) && di % 256 != 0 && Dormant(before.evcs) && Total(s) > 0
    requires Repeats(p, kp) ==> NoSuchRef(p, s, before)
    requires z == Rounds(cc, cn, x, |Plan(p, kp)|)
    ensures OutcomeOf(z, s, before, di) == EndOf(!Repeats(p, kp) && Acceptable(s, before, k))
    decreases Total(p) - kp
  {
    hide Orderly, Round, Rounds, Planned, PlannedCount, Acceptable, NoSuchRef, Dormant, LegalEvcs, Transferred,
      LegalMaps, AscendingEvcs, AscendingMaps, CursorAt, Enquiry, MapsIn, Rest, LearntAt, Plan, Repeats, MapsKnown,
      Awaits;
    var a, n, y := Planned(p, kp), PlannedCount(p, kp), Round(cc, cn, x);
    RepeatsStep(p, kp);
    var n2 := RoundTakesEffect(cc, cn, x, p, kp, s, before, k, di, a, k + n, y);
    RoundsNext(cc, cn, x, y, |Plan(p, kp)|);
    KnownSplits(s, before, k, k + n);
    if a.report == REPORT_FULL_STATUS_CONTD && InPlace(a, k) && MapsKnown(s, before, k, k + n) {
      LinkFurther(y, n2, p, kp, s, before, k, n, a, di);
      ExchangeFrom(cc, cn, y, p, kp + n, s, before, k + n, di, z);
    }
  }

  // ---- exchanges from the start ----

  /** Opening an exchange puts the learnt EVCs to sleep. */
  function Asleep(c: UniCSpec.State): Learnt {
    c.learnt.(evcs := Deactivated(c.learnt.evcs))
  }

  lemma AllMaps(db: Database)
    ensures MapsIn(db, 0, Total(db)) == db.maps
  {
  }

  lemma WholeIsLegal(db: LegalDatabase)
    ensures LegalFrom(db, 0) && SameRest(db, 0, db, 0)
  {
    AllMaps(db);
  }

  /** With a map for every EVC, everything fits together whatever was known before. */
  lemma MatchedIsAcceptable(db: LegalDatabase, before: Learnt)
    ensures Acceptable(db, before, 0)
  {
    hide LegalEvc, LegalMap, OneDefault, FindEvc, FindMap, Orderly, MapsIn;
    AllMaps(db);
    forall m | m in MapsIn(db, 0, Total(db))
      ensures EvcKnown(db, before, m.refId)
    {
      var i :| 0 <= i < |db.maps| && db.maps[i] == m;
      assert db.evcs[i].refId == m.refId;
      EvcFound(db.evcs, i);
    }
    forall e | e in db.evcs
      ensures MapKnown(db, before, e.refId)
    {
      var i :| 0 <= i < |db.evcs| && db.evcs[i] == e;
      assert db.maps[i].refId == e.refId;
      MapFound(db.maps, i);
    }
  }

  lemma StartIs(c: UniCSpec.State, n: UniNSpec.State, db: LegalDatabase)
    requires n.db == db
    ensures LinkAt(Start(c, n), db, 0, db, Asleep(c), 0, n.dataInstance) && Dormant(Asleep(c).evcs)
    ensures !Start(c, n).c.rcvdResponse
  {
    hide LegalFrom, SameRest, Enquiry, LearntUniOf;
    WholeIsLegal(db);
    EmptyParts(db);
  }

  /** An answer with a data instance that is a multiple of 256 is dropped, and with it the open request. */
  lemma UnreadableRound(cc: UniCSpec.Config, cn: UniNSpec.Config, x: Link, db: OrderlyDb, before: Learnt, di: u32)
    requires LinkAt(x, db, 0, db, before, 0, di) && di % 256 == 0 && !x.c.rcvdResponse
    ensures Round(cc, cn, x).pending == None && Round(cc, cn, x).c.learnt == before
    ensures !Round(cc, cn, x).c.rcvdResponse
  {
    hide Round, UniCSpec.Handle, Encoded, Answers, Enquiry, Rest, Planned, PlannedCount, LearntAt, Validate, Dispatch,
      LegalEvcs, LegalMaps, MapsIn, AscendingEvcs, AscendingMaps;
    PlannedAnswers(db, 0, db, 0);
    var n2, frame := RoundAnswered(cc, cn, x, db, 0, x.c.sentSeq, x.c.rcvdSeq, x.c.dataInstance);
    UnreadableFrame(x.c, db, Planned(db, 0), PlannedCount(db, 0), NextSeq(x.n.sentSeq), di, frame);
    HandleAs(cc, x.c, frame, Planned(db, 0).report, Reject(x.c.(requestSent := false)));
    NothingLearntYet(db, before);
  }

  lemma UnreadableFrame(c: UniCSpec.State, db: Database, a: Answer, k2: nat, sent: u8, di: u32, frame: bytes)
    requires LegalFrom(db, 0) && Answers(db, a, db, 0, k2) && di % 256 == 0 && sent != 0
    requires c.requestSent && c.sentSeq != 0 && c.lastRequest == REPORT_FULL_STATUS
    requires frame == Encoded(db, a, sent, c.sentSeq, di)
    ensures Validate(frame, c.requestSent, c.lastRequest) == Some((a.report, 5))
    ensures a.report != REPORT_SINGLE_EVC
    ensures Dispatch(frame, a.report, 5, c.(requestSent := false), OPEN) == Reject(c.(requestSent := false))
  {
    hide Encoded, WellFilled, AllRegular, LegalFrom, MapsIn, EvcsIn, Rest, Sections, Holds, Header, ParseSeqDi, UniIe,
      Validate;
    AnswerParts(db, a, db, 0, k2, sent, c.sentSeq, di, frame, EvcsIn(db, 0, k2), MapsIn(db, 0, k2));
    AnswerHeader(c, frame, 0, a.report, sent, di);
  }

  lemma NothingLearntYet(db: Database, before: Learnt)
    requires db.uni.Some?
    ensures LearntAt(db, before, 0) == before
  {
    hide LearntUniOf;
    EmptyParts(db);
  }

  lemma PlanOfEmpty(db: LegalDatabase)
    requires db.evcs == []
    ensures Total(db) == 0 && |Plan(db, 0)| == 1 && Planned(db, 0).report == REPORT_FULL_STATUS
  {
    assert Rest(db, 0) == [] && TotalLength([]) == 0;
  }

  lemma EmptyExchange(cc: UniCSpec.Config, cn: UniNSpec.Config, x: Link, db: LegalDatabase, before: Learnt, di: u32)
    requires db.evcs == [] && LinkAt(x, db, 0, db, before, 0, di) && di % 256 != 0 && Dormant(before.evcs)
    ensures Round(cc, cn, x).pending == None
    ensures OutcomeOf(Round(cc, cn, x), db, before, di) == EndOf(Deliverable(db))
  {
    hide Round, UniCSpec.Handle, Encoded, WellFilled, AllRegular, Enquiry, LegalEvcs, LegalMaps, MapsIn,
      AscendingEvcs, AscendingMaps, Rest, Transferred, LearntAt, Answers, Planned, PlannedCount, ServesFrom, Ordered,
      Orderly, LearntUniOf;
    PlanOfEmpty(db);
    PlannedAnswers(db, 0, db, 0);
    var n2, frame := RoundAnswered(cc, cn, x, db, 0, x.c.sentSeq, x.c.rcvdSeq, x.c.dataInstance);
    EmptyRound(cc, x.c, db, Planned(db, 0), before, NextSeq(x.n.sentSeq), di);
    OutcomeIs(Round(cc, cn, x), db, before, di, Deliverable(db));
  }

  /** Whatever the two ends have gone through before: without loss, the exchange UNI-C opens ends after as many rounds
      as there are answers planned, and the provider's database is then learnt exactly when the database is
      deliverable and the data instance is not a multiple of 256. An undeliverable database leaves nothing learnt; an
      unreadable data instance leaves everything as it was, the EVCs asleep. */
  lemma Exchange(cc: UniCSpec.Config, cn: UniNSpec.Config, c: UniCSpec.State, n: UniNSpec.State, db: LegalDatabase,
                 z: Link)
    requires n.db == db
    requires Deliverable(db) || db.evcs == [] || NoSuchRef(db, db, Asleep(c))
    requires z == Rounds(cc, cn, Start(c, n), |Plan(db, 0)|)
    ensures OutcomeOf(z, db, Asleep(c), n.dataInstance) == Delivered <==> Deliverable(db) && n.dataInstance % 256 != 0
    ensures n.dataInstance % 256 != 0 && !Deliverable(db) ==>
              OutcomeOf(z, db, Asleep(c), n.dataInstance) == Dropped
    ensures n.dataInstance % 256 == 0 ==> z.pending == None && z.c.learnt == Asleep(c) && !z.c.rcvdResponse
  {
    hide Round, Rounds, Start, LinkAt, Mirrors, NodesMirror, NoSuchRef, Plan, Repeats, CutBeforeMaps, Acceptable,
      Dormant;
    var x, di := Start(c, n), n.dataInstance;
    StartIs(c, n, db);
    RoundsNext(cc, cn, x, Round(cc, cn, x), |Plan(db, 0)|);
    if di % 256 == 0 {
      UnreadableRound(cc, cn, x, db, Asleep(c), di);
    } else if db.evcs == [] {
      EmptyExchange(cc, cn, x, db, Asleep(c), di);
    } else {
      RepeatsAtStart(db);
      MatchedIsAcceptable(db, Asleep(c));
      ExchangeFrom(cc, cn, x, db, 0, db, Asleep(c), 0, di, z);
    }
  }

  lemma RepeatsAtStart(db: OrderlyDb)
    requires db.uni.Some? && db.evcs != []
    ensures Repeats(db, 0) <==> CutBeforeMaps(db)
  {
    hide CutBeforeMaps;
    RepeatsIsCut(db);
  }

  /** A provider port just enabled is readable: what it announces is learnt exactly if it is deliverable. */
  lemma EnabledDelivers(cc: UniCSpec.Config, cn: UniNSpec.Config, c: UniCSpec.State, db: LegalDatabase, z: Link)
    requires Deliverable(db) || db.evcs == [] || NoSuchRef(db, db, Asleep(c))
    requires z == Rounds(cc, cn, Start(c, UniNSpec.Enabled(db)), |Plan(db, 0)|)
    ensures OutcomeOf(z, db, Asleep(c), 1) == EndOf(Deliverable(db))
    ensures Deliverable(db) ==> z.c.dataInstance == 1
  {
    hide Rounds, Start, Mirrors, NodesMirror, NoSuchRef, Plan, CutBeforeMaps;
    Exchange(cc, cn, c, UniNSpec.Enabled(db), db, z);
  }
}
