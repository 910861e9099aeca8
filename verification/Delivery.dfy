/** What one Full Status or Full Status Continued answer does to the receiver's state. */
module Delivery {
  import opened Octets
  import opened Wire
  import opened UniCSpec
  import opened RoundTrip
  import opened UniNSpec

  /** EVC Status elements from q on, then map elements, then a zero octet (or the end of the frame). */
  ghost predicate Sections(data: bytes, q: nat, es: seq<Evc>, ms: seq<CvlanMap>) {
    && EvcsAt(data, q, es)
    && MapsAt(data, EvcsEnd(q, es), ms)
    && MapsEnd(EvcsEnd(q, es), ms) <= |data|
    && At(data, MapsEnd(EvcsEnd(q, es), ms)) == 0
  }

  ghost predicate LegalEvcs(es: seq<Evc>) {
    AscendingEvcs(es) && forall e | e in es :: LegalEvc(e)
  }

  ghost predicate LegalMaps(ms: seq<CvlanMap>, mapType: u8) {
    AscendingMaps(ms) && OneDefault(ms) && forall m | m in ms :: LegalMap(m, mapType)
  }

  lemma AfterEvcs(data: bytes, q: nat, es: seq<Evc>, ms: seq<CvlanMap>)
    requires Sections(data, q, es, ms)
    ensures At(data, EvcsEnd(q, es)) == if ms == [] then 0 else CEVLAN_EVC_MAP_IE
    ensures At(data, MapsEnd(EvcsEnd(q, es), ms)) == 0
  {
  }

  /** What a section of EVC Status elements leaves in port->last_evc_id. */
  function LastAfter(es: seq<Evc>, report: u8, lastEvcId: u16): u16 {
    if es == [] then lastEvcId else if report == REPORT_FULL_STATUS_CONTD then es[|es| - 1].refId else 0
  }

  lemma EvcSection(data: bytes, q: nat, es: seq<Evc>, ms: seq<CvlanMap>, lastRequest: u8, report: u8, lastEvcId: u16,
                   evcs: Records<LearntEvc>)
    requires LegalEvcs(es) && Sections(data, q, es, ms)
    requires es == [] ==> ms != [] && lastRequest == REPORT_FULL_STATUS_CONTD
    requires es != [] && lastRequest == REPORT_FULL_STATUS_CONTD ==> lastEvcId <= es[0].refId
    ensures ParseEvcs(data, q, lastRequest, report, lastEvcId, evcs)
         == Good(LearnEvcs(evcs, es), LastAfter(es, report, lastEvcId), EvcsEnd(q, es))
  {
    AfterEvcs(data, q, es, ms);
    if es != [] {
      assert EvcAt(data, q, es[0]);
      EvcsRoundTrip(data, q, es, 0, 0, lastRequest, lastEvcId, evcs,
                    EvcLoop(data, q + 1, 0, 0, lastRequest, lastEvcId, evcs));
    } else {
      assert MapAt(data, q, ms[0]);
    }
  }

  lemma MapSection(data: bytes, r: nat, ms: seq<CvlanMap>, evcIds: set<u16>, mapType: u8, maps: Records<LearntMap>)
    requires ms != [] && LegalMaps(ms, mapType) && MapsAt(data, r, ms) && At(data, MapsEnd(r, ms)) == 0
    ensures ParseMaps(data, r, evcIds, mapType, maps)
         == if AllKnown(ms, evcIds) then Some((LearnMaps(maps, ms), MapsEnd(r, ms) + 1)) else None
    ensures Left(data, r) > 0
  {
    assert MapAt(data, r, ms[0]);
    assert forall i | 0 <= i < |ms| :: ms[i] in ms;
    LegalDecodable(ms, 0, false, mapType);
    MapsRoundTrip(data, r, ms, MapScan(0, false, None), evcIds, mapType, maps,
                  MapLoop(data, r + 1, MapScan(0, false, None), evcIds, mapType, maps));
  }

  // ---- the layout of an answer ----

  function FrameOf(head: bytes, db: Database, hasUni: bool, es: seq<Evc>, ms: seq<CvlanMap>): bytes
    requires hasUni ==> db.uni.Some?
  {
    Pad(head + PayloadOctets(db, Payload(hasUni, EvcItems(es) + MapItems(ms))))
  }

  function BodyStart(db: Database, hasUni: bool): nat {
    HEADER_LEN + (if hasUni then UniLength(db) else 0)
  }

  /** Reading the parts of a padded frame back from where they were put. */
  lemma FourParts(head: bytes, u: bytes, e: bytes, m: bytes)
    ensures var data := Pad(head + (u + (e + m)));
            && Holds(data, 0, head)
            && Holds(data, |head|, u)
            && Holds(data, |head| + |u|, e)
            && Holds(data, |head| + |u| + |e|, m)
  {
    var x := head + (u + (e + m));
    assert Holds(x, 0, x);
    HoldsSplit(x, 0, head, u + (e + m));
    HoldsSplit(x, |head|, u, e + m);
    HoldsSplit(x, |head| + |u|, e, m);
    PaddedHolds(x, 0, head);
    PaddedHolds(x, |head|, u);
    PaddedHolds(x, |head| + |u|, e);
    PaddedHolds(x, |head| + |u| + |e|, m);
  }

  lemma PaddedHolds(x: bytes, p: nat, part: bytes)
    requires Holds(x, p, part)
    ensures Holds(Pad(x), p, part)
  {
    assert Pad(x)[p..p + |part|] == x[p..p + |part|];
  }

  lemma FrameLayout(head: bytes, db: Database, hasUni: bool, es: seq<Evc>, ms: seq<CvlanMap>, data: bytes, q: nat)
    requires |head| == HEADER_LEN && (hasUni ==> db.uni.Some?)
    requires data == FrameOf(head, db, hasUni, es, ms) && q == BodyStart(db, hasUni)
    ensures Holds(data, 0, head)
    ensures hasUni ==> Holds(data, HEADER_LEN, UniIe(db))
    ensures Holds(data, q, Flatten(EvcItems(es)))
    ensures Holds(data, q + |Flatten(EvcItems(es))|, Flatten(MapItems(ms)))
  {
    hide Flatten, UniIe, Pad;
    var u := if hasUni then UniIe(db) else [];
    FlattenAppend(EvcItems(es), MapItems(ms));
    FourParts(head, u, Flatten(EvcItems(es)), Flatten(MapItems(ms)));
  }

  lemma PaddedEnd(x: bytes)
    ensures At(Pad(x), |x|) == 0
  {
    if |x| < MIN_PACKET {
      assert Pad(x)[|x|] == Zeros(MIN_PACKET - |x|)[0];
    }
  }

  function LengthWithPadding(end: nat): nat {
    if end < MIN_PACKET then MIN_PACKET else end
  }

  lemma FrameEnd(head: bytes, db: Database, hasUni: bool, es: seq<Evc>, ms: seq<CvlanMap>, data: bytes, end: nat)
    requires |head| == HEADER_LEN && (hasUni ==> db.uni.Some?)
    requires data == FrameOf(head, db, hasUni, es, ms)
    requires end == BodyStart(db, hasUni) + |Flatten(EvcItems(es))| + |Flatten(MapItems(ms))|
    ensures |data| == LengthWithPadding(end) && At(data, end) == 0
  {
    FlattenAppend(EvcItems(es), MapItems(ms));
    var x := head + PayloadOctets(db, Payload(hasUni, EvcItems(es) + MapItems(ms)));
    assert |x| == end;
    PaddedEnd(x);
  }

  /** A frame with legal elements is laid out in sections. */
  lemma FrameSections(head: bytes, db: Database, hasUni: bool, es: seq<Evc>, ms: seq<CvlanMap>, mapType: u8,
                      data: bytes, q: nat)
    requires |head| == HEADER_LEN && (hasUni ==> db.uni.Some?)
    requires data == FrameOf(head, db, hasUni, es, ms) && q == BodyStart(db, hasUni)
    requires LegalEvcs(es) && LegalMaps(ms, mapType)
    ensures Sections(data, q, es, ms)
    ensures |data| == LengthWithPadding(MapsEnd(EvcsEnd(q, es), ms))
  {
    LegalMapsFit(ms, mapType);
    FittingSections(head, db, hasUni, es, ms, data, q);
  }

  lemma FittingSections(head: bytes, db: Database, hasUni: bool, es: seq<Evc>, ms: seq<CvlanMap>, data: bytes, q: nat)
    requires |head| == HEADER_LEN && (hasUni ==> db.uni.Some?)
    requires data == FrameOf(head, db, hasUni, es, ms) && q == BodyStart(db, hasUni)
    requires forall e | e in es :: LegalEvc(e)
    requires forall m | m in ms :: m.vids != {} && MapLength(m) <= MAX_IE_LEN
    ensures Sections(data, q, es, ms)
    ensures |data| == LengthWithPadding(MapsEnd(EvcsEnd(q, es), ms))
  {
    hide FrameOf, Sections, Flatten, UniIe, LengthWithPadding, MapsEnd, EvcsEnd, LegalEvc;
    var r := q + |Flatten(EvcItems(es))|;
    FrameLayout(head, db, hasUni, es, ms, data, q);
    FrameEnd(head, db, hasUni, es, ms, data, r + |Flatten(MapItems(ms))|);
    SectionsSize(data, q, es, ms, r, r + |Flatten(MapItems(ms))|);
  }

  lemma SectionsSize(data: bytes, q: nat, es: seq<Evc>, ms: seq<CvlanMap>, r: nat, end: nat)
    requires forall e | e in es :: LegalEvc(e)
    requires forall m | m in ms :: m.vids != {} && MapLength(m) <= MAX_IE_LEN
    requires Holds(data, q, Flatten(EvcItems(es))) && r == q + |Flatten(EvcItems(es))|
    requires Holds(data, r, Flatten(MapItems(ms))) && end == r + |Flatten(MapItems(ms))|
    requires At(data, end) == 0 && |data| == LengthWithPadding(end)
    ensures Sections(data, q, es, ms) && |data| == LengthWithPadding(MapsEnd(EvcsEnd(q, es), ms))
  {
    SectionsHold(data, q, es, ms, r, end);
  }

  lemma SectionsHold(data: bytes, q: nat, es: seq<Evc>, ms: seq<CvlanMap>, r: nat, end: nat)
    requires forall e | e in es :: LegalEvc(e)
    requires forall m | m in ms :: m.vids != {} && MapLength(m) <= MAX_IE_LEN
    requires Holds(data, q, Flatten(EvcItems(es))) && r == q + |Flatten(EvcItems(es))|
    requires Holds(data, r, Flatten(MapItems(ms))) && end == r + |Flatten(MapItems(ms))|
    requires At(data, end) == 0
    ensures Sections(data, q, es, ms) && MapsEnd(EvcsEnd(q, es), ms) == end
  {
    EvcsAreAt(data, q, es);
    MapsAreAt(data, r, ms);
    SectionsFrom(data, q, es, ms, r, end);
  }

  lemma SectionsFrom(data: bytes, q: nat, es: seq<Evc>, ms: seq<CvlanMap>, r: nat, end: nat)
    requires EvcsAt(data, q, es) && EvcsEnd(q, es) == r && MapsAt(data, r, ms) && MapsEnd(r, ms) == end
    requires end <= |data| && At(data, end) == 0
    ensures Sections(data, q, es, ms) && MapsEnd(EvcsEnd(q, es), ms) == end
  {
  }

  lemma LegalMapsFit(ms: seq<CvlanMap>, mapType: u8)
    requires LegalMaps(ms, mapType)
    ensures forall m | m in ms :: m.vids != {} && MapLength(m) <= MAX_IE_LEN
  {
    forall m | m in ms
      ensures m.vids != {} && MapLength(m) <= MAX_IE_LEN
    {
      assert LegalMap(m, mapType);
    }
  }

  // ---- continued answers ----

  /** The state after a continued answer, just before the next enquiry goes out. */
  function AfterContd(s: UniCSpec.State, m: SeqDi, uni: LearntUni, es: seq<Evc>, ms: seq<CvlanMap>): UniCSpec.State {
    s.(learnt := Learnt(uni, LearnEvcs(s.learnt.evcs, es), LearnMaps(s.learnt.maps, ms)),
       lastEvcId := LastAfter(es, REPORT_FULL_STATUS_CONTD, s.lastEvcId),
       rcvdSeq := m.seqNum, lastRequest := REPORT_FULL_STATUS_CONTD)
  }

  /** The answer is accepted and the next continued enquiry goes out. */
  function SentOn(s: UniCSpec.State, ch: Channel): Parsed {
    var (s2, built, sent) := UniCSpec.Transmit(s, REPORT_FULL_STATUS_CONTD, ch);
    Parsed(s2, true, built, sent)
  }

  function WithLast(s: UniCSpec.State, es: seq<Evc>, report: u8): UniCSpec.State {
    s.(lastEvcId := LastAfter(es, report, s.lastEvcId))
  }

  /** A continued answer is learnt and followed by the next enquiry, unless it holds a map of an unknown EVC. */
  lemma ContdTaken(data: bytes, s: UniCSpec.State, ch: Channel, m: SeqDi, uni: LearntUni, q: nat,
                   es: seq<Evc>, ms: seq<CvlanMap>)
    requires ParseSeqDi(data, 5, s.sentSeq) == Some(m)
    requires ContdUni(data, m.pos, s.lastRequest, s.learnt.uni) == Some((uni, q))
    requires LegalEvcs(es) && LegalMaps(ms, uni.mapType) && Sections(data, q, es, ms)
    requires es == [] ==> ms != [] && s.lastRequest == REPORT_FULL_STATUS_CONTD
    requires es != [] && s.lastRequest == REPORT_FULL_STATUS_CONTD ==> s.lastEvcId <= es[0].refId
    requires ms == [] ==> |data| == EvcsEnd(q, es)
    ensures ParseContd(data, 5, s, ch)
         == if AllKnown(ms, LearnEvcs(s.learnt.evcs, es).recs.Keys) then SentOn(AfterContd(s, m, uni, es, ms), ch)
            else ClearAndReject(WithLast(s, es, REPORT_FULL_STATUS_CONTD))
  {
    EvcSection(data, q, es, ms, s.lastRequest, REPORT_FULL_STATUS_CONTD, s.lastEvcId, s.learnt.evcs);
    var evcs, r := LearnEvcs(s.learnt.evcs, es), EvcsEnd(q, es);
    AfterEvcs(data, q, es, ms);
    if ms != [] {
      MapSection(data, r, ms, evcs.recs.Keys, uni.mapType, s.learnt.maps);
    }
    ContdBy(data, s, ch, m, uni, q, es, ms, r, MapsIfAny(data, r, evcs.recs.Keys, uni.mapType, s.learnt.maps));
  }

  lemma ContdBy(data: bytes, s: UniCSpec.State, ch: Channel, m: SeqDi, uni: LearntUni, q: nat,
                es: seq<Evc>, ms: seq<CvlanMap>, r: nat, got: Option<(Records<LearntMap>, nat)>)
    requires ParseSeqDi(data, 5, s.sentSeq) == Some(m)
    requires ContdUni(data, m.pos, s.lastRequest, s.learnt.uni) == Some((uni, q))
    requires ParseEvcs(data, q, s.lastRequest, REPORT_FULL_STATUS_CONTD, s.lastEvcId, s.learnt.evcs)
          == Good(LearnEvcs(s.learnt.evcs, es), LastAfter(es, REPORT_FULL_STATUS_CONTD, s.lastEvcId), r)
    requires got == MapsIfAny(data, r, LearnEvcs(s.learnt.evcs, es).recs.Keys, uni.mapType, s.learnt.maps)
    requires got.Some? ==> got.value.0 == LearnMaps(s.learnt.maps, ms)
    ensures ParseContd(data, 5, s, ch)
         == if got.Some? then SentOn(AfterContd(s, m, uni, es, ms), ch)
            else ClearAndReject(WithLast(s, es, REPORT_FULL_STATUS_CONTD))
  {
  }

  /** Read as an EVC reference id, what follows the map type in a UNI Status element with 17 name octets. */
  const UNI_ID_AS_REF: u16 := 0x5111

  /** A continued answer that repeats the UNI Status element where map elements are expected makes the
      receiver drop everything it has learnt. */
  lemma RepeatCleared(data: bytes, s: UniCSpec.State, ch: Channel, m: SeqDi, u: UniInfo)
    requires ParseSeqDi(data, 5, s.sentSeq) == Some(m)
    requires s.lastRequest == REPORT_FULL_STATUS_CONTD && Holds(data, m.pos, UniHead(u))
    requires NameLen(u.id, UNI_NAME_LEN) == 17 ==> UNI_ID_AS_REF !in s.learnt.evcs.recs
    ensures ParseContd(data, 5, s, ch) == ClearAndReject(s.(lastEvcId := 0))
  {
    UniHeadOctets(data, m.pos, u);
    NotAMap(data, m.pos + 1, NameLen(u.id, UNI_NAME_LEN), s.learnt.evcs.recs.Keys, s.learnt.uni.mapType, s.learnt.maps);
  }

  lemma NotAMap(data: bytes, p: nat, n: nat, evcIds: set<u16>, mapType: u8, maps: Records<LearntMap>)
    requires 1 <= n <= UNI_NAME_LEN && At(data, p) == 17 + n && At(data, p + 2) == UNI_ID_IE && At(data, p + 3) == n
    requires n == 17 ==> UNI_ID_AS_REF !in evcIds
    ensures ParseMaps(data, p, evcIds, mapType, maps) == None
  {
    if n == 17 {
      assert WordAt(data, p + 2) == UNI_ID_AS_REF;
      assert ParseMap(data, p + 1, MapScan(0, false, None), evcIds, mapType, maps) == None;
    }
  }

  // ---- closing answers ----

  /** A closing answer is learnt and the EVCs are swept, unless it holds a map of an unknown EVC. */
  lemma FullTaken(data: bytes, s: UniCSpec.State, m: SeqDi, uni: LearntUni, q: nat, es: seq<Evc>, ms: seq<CvlanMap>)
    requires ParseSeqDi(data, 5, s.sentSeq) == Some(m)
    requires ParseUni(data, m.pos, s.lastRequest, s.learnt.uni) == Some((uni, q))
    requires LegalEvcs(es) && LegalMaps(ms, uni.mapType) && Sections(data, q, es, ms) && ms != []
    requires es == [] ==> s.lastRequest == REPORT_FULL_STATUS_CONTD
    requires es != [] && s.lastRequest == REPORT_FULL_STATUS_CONTD ==> s.lastEvcId <= es[0].refId
    ensures ParseFull(data, 5, s)
         == if AllKnown(ms, LearnEvcs(s.learnt.evcs, es).recs.Keys)
            then Sweep(WithLast(s, es, REPORT_FULL_STATUS), m,
                       Learnt(uni, LearnEvcs(s.learnt.evcs, es), LearnMaps(s.learnt.maps, ms)))
            else ClearAndReject(WithLast(s, es, REPORT_FULL_STATUS))
  {
    EvcSection(data, q, es, ms, s.lastRequest, REPORT_FULL_STATUS, s.lastEvcId, s.learnt.evcs);
    AfterEvcs(data, q, es, ms);
    MapSection(data, EvcsEnd(q, es), ms, LearnEvcs(s.learnt.evcs, es).recs.Keys, uni.mapType, s.learnt.maps);
  }

  /** An answer without any element is accepted only if two octets of padding follow the UNI Status. */
  lemma EmptyTaken(data: bytes, s: UniCSpec.State, m: SeqDi, uni: LearntUni, q: nat)
    requires ParseSeqDi(data, 5, s.sentSeq) == Some(m)
    requires ParseUni(data, m.pos, s.lastRequest, s.learnt.uni) == Some((uni, q))
    requires Sections(data, q, [], [])
    ensures ParseFull(data, 5, s)
         == if |data| - q < 2 then ClearAndReject(s) else Sweep(s, m, s.learnt.(uni := uni))
  {
  }

  // ---- asynchronous status ----

  /** A message of one EVC's status, without sequence numbers. */
  ghost predicate StatusMessage(data: bytes, id: u16, status: u8) {
    && At(data, 0) == 1 && At(data, 1) == MSG_STATUS
    && At(data, 2) == REPORT_TYPE_IE && At(data, 3) == 1 && At(data, 4) == REPORT_SINGLE_EVC
    && At(data, 5) == EVC_STATUS_IE && At(data, 6) != 0 && WordAt(data, 7) == id && At(data, 9) == status
  }

  /** At any time, whether or not a request is open, it sets the status of the EVC it names and touches neither other
      EVCs, nor their nodes, nor anything else but the counters; for an unknown EVC it changes nothing at all. */
  lemma AsyncTaken(cfg: UniCSpec.Config, s: UniCSpec.State, data: bytes, ch: Channel, id: u16, status: u8)
    requires StatusMessage(data, id, status)
    ensures var (s2, o) := UniCSpec.Handle(cfg, s, data, ch);
            var was, now := s.learnt.evcs.recs, s2.learnt.evcs.recs;
            && o.built == [] && !o.sent && !o.validated
            && if id in was then
                 && o.accepted == Some(REPORT_SINGLE_EVC) && now.Keys == was.Keys
                 && now[id] == was[id].(status := status) && (forall x | x in was && x != id :: now[x] == was[x])
                 && s2.learnt.evcs.nodes == s.learnt.evcs.nodes
                 && s2.learnt.uni == s.learnt.uni && s2.learnt.maps == s.learnt.maps
                 && s2 == s.(learnt := s2.learnt, health := s2.health)
               else o.accepted == None && o.obs == [] && o.notes == [] && s2 == s
  {
    hide Validate;
    PlainResponse(data, s.requestSent, s.lastRequest);
  }

  // ---- refused elements ----

  lemma FirstEvcRefused(data: bytes, q: nat, e: Evc, lastRequest: u8, report: u8, lastEvcId: u16,
                        evcs: Records<LearntEvc>)
    requires EvcAt(data, q, e)
    requires e.refId < 1 || (lastRequest == REPORT_FULL_STATUS_CONTD && lastEvcId > e.refId)
    ensures ParseEvcs(data, q, lastRequest, report, lastEvcId, evcs) == Bad(evcs, lastEvcId)
  {
  }

  /** An EVC Status element whose reference id is zero, or goes back behind the last one of the frame before: a
      continued answer that begins with it is dropped and leaves what has been learnt of EVCs and maps; a closing one
      clears everything. Neither is followed by an enquiry. */
  lemma RefusedAtOnce(data: bytes, s: UniCSpec.State, ch: Channel, m: SeqDi, e: Evc)
    requires ParseSeqDi(data, 5, s.sentSeq) == Some(m) && s.lastRequest == REPORT_FULL_STATUS_CONTD
    requires EvcAt(data, m.pos, e) && (e.refId < 1 || s.lastEvcId > e.refId)
    ensures var r := ParseContd(data, 5, s, ch);
            !r.ok && r.built == [] && !r.sent && r.state.learnt == s.learnt && r.state.rcvdSeq == s.rcvdSeq
    ensures var r := ParseFull(data, 5, s);
            !r.ok && r.built == [] && !r.sent && r.state.learnt == CLEARED && r.state.dataInstance == s.dataInstance
  {
    hide ParseEvcs, ParseSeqDi;
    FirstEvcRefused(data, m.pos, e, s.lastRequest, REPORT_FULL_STATUS_CONTD, s.lastEvcId, s.learnt.evcs);
    FirstEvcRefused(data, m.pos, e, s.lastRequest, REPORT_FULL_STATUS, s.lastEvcId, s.learnt.evcs);
  }
}
