/** Decoding at UNI-C undoes encoding at UNI-N, element by element. */
module RoundTrip {
  import opened Octets
  import opened VlanBitmap
  import opened Wire
  import opened UniCSpec
  import opened Hysteresis
  import UniNSpec

  lemma HoldsAll(data: bytes, p: nat, part: bytes)
    requires Holds(data, p, part)
    ensures p + |part| <= |data|
    ensures forall i | 0 <= i < |part| :: At(data, p + i) == part[i]
  {
    forall i | 0 <= i < |part|
      ensures At(data, p + i) == part[i]
    {
      HoldsAt(data, p, part, i);
    }
  }

  // ---- header ----

  lemma LongInHeader(data: bytes, msg: u8, report: u8, sent: u8, rcvd: u8, di: u32)
    requires Holds(data, 0, Header(msg, report, sent, rcvd, di))
    ensures LongAt(data, 12) == di
  {
    var head := [PROTO_VERSION, msg, REPORT_TYPE_IE, 1, report, SEQUENCE_NUM_IE, 2, sent, rcvd,
                 DATA_INSTANCE_IE, DATA_INSTANCE_LEN, 0];
    HoldsSplit(data, 0, head, L(di));
    HoldsLong(data, 12, di);
  }

  lemma HeaderOctets(data: bytes, msg: u8, report: u8, sent: u8, rcvd: u8, di: u32)
    requires Holds(data, 0, Header(msg, report, sent, rcvd, di))
    ensures |data| >= 16
    ensures At(data, 0) == PROTO_VERSION && At(data, 1) == msg && At(data, 2) == REPORT_TYPE_IE && At(data, 3) == 1
    ensures At(data, 4) == report && At(data, 5) == SEQUENCE_NUM_IE && At(data, 6) == 2 && At(data, 7) == sent
    ensures At(data, 8) == rcvd && At(data, 9) == DATA_INSTANCE_IE && At(data, 10) == DATA_INSTANCE_LEN
  {
  }

  /** A response of this type is taken when the last request was `last` and still open. */
  predicate Expected(report: u8, requestSent: bool, last: u8) {
    && (requestSent || report == REPORT_SINGLE_EVC)
    && (report == REPORT_ECHECK ==> last !in {REPORT_FULL_STATUS, REPORT_FULL_STATUS_CONTD, REPORT_INVALID})
    && (report in {REPORT_FULL_STATUS, REPORT_FULL_STATUS_CONTD} ==> last !in {REPORT_ECHECK, REPORT_INVALID})
  }

  lemma HeaderValidates(data: bytes, report: u8, sent: u8, rcvd: u8, di: u32, requestSent: bool, last: u8)
    requires Holds(data, 0, Header(MSG_STATUS, report, sent, rcvd, di))
    ensures Validate(data, requestSent, last) == if Expected(report, requestSent, last) then Some((report, 5)) else None
  {
    HeaderOctets(data, MSG_STATUS, report, sent, rcvd, di);
  }

  /** A response is accepted exactly when it answers the latest enquiry and its data instance is not
      a multiple of 256; of the data instance only the low octet arrives. */
  lemma SeqDiRoundTrip(data: bytes, report: u8, sent: u8, rcvd: u8, di: u32, sentSeq: u8)
    requires Holds(data, 0, Header(MSG_STATUS, report, sent, rcvd, di))
    ensures ParseSeqDi(data, 5, sentSeq)
         == if sent != 0 && rcvd != 0 && rcvd == sentSeq && di % 256 != 0 then Some(SeqDi(di % 256, sent, 16)) else None
  {
    HeaderOctets(data, MSG_STATUS, report, sent, rcvd, di);
    LongInHeader(data, MSG_STATUS, report, sent, rcvd, di);
  }

  /** UNI-N reads from an enquiry what UNI-C put into it. */
  lemma EnquiryRoundTrip(report: u8, sent: u8, rcvd: u8, di: u32)
    ensures UniNSpec.ParseEnquiry(Enquiry(report, sent, rcvd, di))
         == if report == REPORT_INVALID || sent == 0 then None else Some((report, sent))
  {
    var data := Enquiry(report, sent, rcvd, di);
    assert data[0..16] == Header(MSG_STATUS_ENQUIRY, report, sent, rcvd, di);
    HeaderOctets(data, MSG_STATUS_ENQUIRY, report, sent, rcvd, di);
    LongInHeader(data, MSG_STATUS_ENQUIRY, report, sent, rcvd, di);
    assert At(data, 11) == 0;
  }

  // ---- which enquiries are acceptable, and repeated elements ----

  /** An enquiry without repeated elements: exactly when it is acceptable, and what is read from it. */
  lemma PlainEnquiry(data: bytes)
    requires At(data, 1) == MSG_STATUS_ENQUIRY && At(data, 2) == REPORT_TYPE_IE && At(data, 9) != SEQUENCE_NUM_IE
    ensures UniNSpec.ParseEnquiry(data)
         == if At(data, 0) == 1 && At(data, 3) == 1 && At(data, 4) != REPORT_INVALID
               && At(data, 5) == SEQUENCE_NUM_IE && At(data, 6) == 2 && At(data, 7) != 0
               && At(data, 9) == DATA_INSTANCE_IE && At(data, 10) == 5
            then Some((At(data, 4), At(data, 7))) else None
  {
  }

  /** Reading on in two frames that are the same from p on in one and from q on in the other. */
  lemma AtBehind(a: bytes, p: nat, b: bytes, q: nat, i: nat)
    requires p <= |a| && q <= |b| && a[p..] == b[q..]
    ensures At(a, p + i) == At(b, q + i)
  {
    if p + i < |a| {
      assert a[p..][i] == b[q..][i];
    }
  }

  lemma ReportValueBehind(a: bytes, p: nat, b: bytes, q: nat)
    requires p <= |a| && q <= |b| && a[p..] == b[q..]
    ensures UniNSpec.ParseReportValue(a, p) == UniNSpec.ParseReportValue(b, q)
  {
    AtBehind(a, p, b, q, 0);
    AtBehind(a, p, b, q, 1);
    AtBehind(a, p, b, q, 2);
    AtBehind(a, p, b, q, 3);
    AtBehind(a, p, b, q, 4);
    AtBehind(a, p, b, q, 6);
    AtBehind(a, p, b, q, 7);
    var n := if At(b, q + 6) == SEQUENCE_NUM_IE then 8 + At(b, q + 7) else 6;
    AtBehind(a, p, b, q, n);
    AtBehind(a, p, b, q, n + 1);
  }

  /** A repeated version octet or message type in front of its successor is skipped. */
  lemma EnquiryRepeats(x: bytes)
    requires |x| >= 3 && x[0] == 1 && x[1] == MSG_STATUS_ENQUIRY && x[2] == REPORT_TYPE_IE
    ensures UniNSpec.ParseEnquiry([1] + x) == UniNSpec.ParseEnquiry(x)
    ensures UniNSpec.ParseEnquiry(x[..2] + [MSG_STATUS_ENQUIRY] + x[2..]) == UniNSpec.ParseEnquiry(x)
  {
    hide UniNSpec.ParseReportValue;
    var y, z := [1] + x, x[..2] + [MSG_STATUS_ENQUIRY] + x[2..];
    assert y[4..] == x[3..] && z[4..] == x[3..];
    ReportValueBehind(y, 4, x, 3);
    ReportValueBehind(z, 4, x, 3);
  }

  /** So is a sequence number element, of whatever length, behind the one that is read. */
  lemma SequenceRepeats(x: bytes, again: bytes)
    requires |x| >= 10 && x[0] == 1 && x[1] == MSG_STATUS_ENQUIRY && x[2] == REPORT_TYPE_IE
    requires x[9] == DATA_INSTANCE_IE && |again| < 256
    ensures UniNSpec.ParseEnquiry(x[..9] + ([SEQUENCE_NUM_IE, |again|] + again + x[9..])) == UniNSpec.ParseEnquiry(x)
  {
    var tail := [SEQUENCE_NUM_IE, |again|] + again + x[9..];
    var z := x[..9] + tail;
    assert forall i | 0 <= i < 9 :: At(z, i) == At(x, i);
    assert At(z, 9) == tail[0] && At(z, 10) == tail[1];
    assert tail[2 + |again|..] == x[9..];
    assert z[11 + |again|..] == x[9..];
    AtBehind(z, 11 + |again|, x, 9, 0);
    AtBehind(z, 11 + |again|, x, 9, 1);
  }

  // ---- the same for responses ----

  /** A response without repeated elements: exactly when it passes validation. */
  lemma PlainResponse(data: bytes, requestSent: bool, last: u8)
    requires At(data, 1) == MSG_STATUS && At(data, 2) == REPORT_TYPE_IE
    ensures Validate(data, requestSent, last)
         == if At(data, 0) == 1 && At(data, 3) == 1 && Expected(At(data, 4), requestSent, last)
            then Some((At(data, 4), 5)) else None
  {
  }

  /** A repeated version octet or message type only moves what follows. */
  lemma ResponseRepeats(x: bytes, requestSent: bool, last: u8)
    requires |x| >= 3 && x[0] == 1 && x[1] == MSG_STATUS && x[2] == REPORT_TYPE_IE
    ensures var v := Validate(x, requestSent, last);
            var w := if v.Some? then Some((v.value.0, v.value.1 + 1)) else None;
            && Validate([1] + x, requestSent, last) == w
            && Validate(x[..2] + [MSG_STATUS] + x[2..], requestSent, last) == w
  {
    var y, z := [1] + x, x[..2] + [MSG_STATUS] + x[2..];
    assert y[4..] == x[3..] && z[4..] == x[3..];
    AtBehind(y, 4, x, 3, 0);
    AtBehind(y, 4, x, 3, 1);
    AtBehind(z, 4, x, 3, 0);
    AtBehind(z, 4, x, 3, 1);
  }

  /** Number and data instance without repeated elements: exactly when they are acceptable. */
  lemma PlainSeqDi(data: bytes, sentSeq: u8)
    requires |data| >= 7 && At(data, 5) == SEQUENCE_NUM_IE && At(data, 9) == DATA_INSTANCE_IE
    ensures ParseSeqDi(data, 5, sentSeq)
         == if At(data, 6) != 0 && At(data, 7) != 0 && At(data, 8) != 0 && At(data, 8) == sentSeq
               && At(data, 10) == 5 && LongAt(data, 12) % 256 != 0
            then Some(SeqDi(LongAt(data, 12) % 256, At(data, 7), 16)) else None
  {
  }

  /** A report type element, of whatever length, repeated in front of the sequence number is skipped. */
  lemma ReportTypeRepeats(x: bytes, again: bytes)
    requires |x| >= 6 && x[5] == SEQUENCE_NUM_IE && |again| < 256
    ensures var z := x[..5] + ([REPORT_TYPE_IE, |again|] + again + x[5..]);
            Expect(z, 5, SEQUENCE_NUM_IE, REPORT_TYPE_IE) == Some(8 + |again|) && z[8 + |again|..] == x[6..]
  {
    var tail := [REPORT_TYPE_IE, |again|] + again + x[5..];
    var z := x[..5] + tail;
    assert At(z, 5) == tail[0] && At(z, 6) == tail[1];
    assert tail[2 + |again|..] == x[5..];
    assert z[7 + |again|..] == x[5..];
    AtBehind(z, 7 + |again|, x, 5, 0);
  }

  // ---- bandwidth profiles ----

  lemma BwOctets(data: bytes, p: nat, b: BwProfile)
    requires Holds(data, p, BwIe(b))
    ensures |data| >= p + 14
    ensures At(data, p) == BW_PROFILE_IE && At(data, p + 1) == BW_PROFILE_LEN
    ensures At(data, p + 2) == 2 * Flag(b.cf) + 4 * Flag(b.cm) && At(data, p + 3) == b.cirMag
    ensures WordAt(data, p + 4) == b.cirMul && At(data, p + 6) == b.cbsMag && At(data, p + 7) == b.cbsMul
    ensures At(data, p + 8) == b.eirMag && WordAt(data, p + 9) == b.eirMul
    ensures At(data, p + 11) == b.ebsMag && At(data, p + 12) == b.ebsMul
  {
    HoldsAll(data, p, BwIe(b));
    var ie := BwIe(b);
    assert At(data, p) == ie[0] && At(data, p + 1) == ie[1] && At(data, p + 2) == ie[2] && At(data, p + 3) == ie[3]
        && At(data, p + 4) == ie[4] && At(data, p + 5) == ie[5] && At(data, p + 6) == ie[6] && At(data, p + 7) == ie[7]
        && At(data, p + 8) == ie[8] && At(data, p + 9) == ie[9] && At(data, p + 10) == ie[10]
        && At(data, p + 11) == ie[11] && At(data, p + 12) == ie[12];
    var values := BwValues(b);
    assert forall i | 0 <= i < 10 :: ie[3 + i] == values[i];
    assert values[1] == W(b.cirMul)[0] && values[2] == W(b.cirMul)[1];
    assert values[6] == W(b.eirMul)[0] && values[7] == W(b.eirMul)[1];
  }

  lemma BwRoundTrip(data: bytes, p: nat, b: BwProfile)
    requires Holds(data, p, BwIe(b))
    ensures BwAt(data, p + 2) == Learn(b.(perCos := 0)) && At(data, p + 2) % 2 == 0
  {
    BwOctets(data, p, b);
  }

  lemma EvcBwRoundTrip(data: bytes, p: nat, b: BwProfile, evc: LearntEvc)
    requires Holds(data, p, BwIe(b))
    ensures ParseEvcBw(data, p, evc)
         == Some((evc.(level := LEVEL_PER_EVC, bw := Some(Learn(b.(perCos := 0)))), p + 14))
  {
    BwOctets(data, p, b);
    BwRoundTrip(data, p, b);
  }

  lemma UniBwRoundTrip(data: bytes, p: nat, b: BwProfile)
    requires Holds(data, p, BwIe(b))
    ensures ParseUniBw(data, p) == Some((Learn(b.(perCos := 0)), p + 14))
  {
    BwOctets(data, p, b);
    BwRoundTrip(data, p, b);
  }

  // ---- UNI Status ----

  function LearntUniOf(db: Database): LearntUni
    requires db.uni.Some?
  {
    LearntUni(db.uni.value.mapType, NameOctets(db.uni.value.id, UNI_NAME_LEN), Some(Learn(CarriedUniBw(db))))
  }

  lemma UniOctets(data: bytes, p: nat, db: Database)
    requires db.uni.Some? && Holds(data, p, UniIe(db))
    ensures Holds(data, p, UniHead(db.uni.value))
    ensures Holds(data, p + 5, NameOctets(db.uni.value.id, UNI_NAME_LEN))
    ensures Holds(data, p + 5 + NameLen(db.uni.value.id, UNI_NAME_LEN), BwIe(CarriedUniBw(db)))
  {
    var u := db.uni.value;
    EmptyBwIeIsZero();
    assert UniBwIe(db) == BwIe(CarriedUniBw(db));
    HoldsSplit(data, p, UniHead(u) + NameOctets(u.id, UNI_NAME_LEN), UniBwIe(db));
    HoldsSplit(data, p, UniHead(u), NameOctets(u.id, UNI_NAME_LEN));
  }

  lemma UniHeadOctets(data: bytes, p: nat, u: UniInfo)
    requires Holds(data, p, UniHead(u))
    ensures |data| >= p + 5
    ensures At(data, p) == UNI_STATUS_IE && At(data, p + 1) == 17 + NameLen(u.id, UNI_NAME_LEN)
    ensures At(data, p + 2) == u.mapType && At(data, p + 3) == UNI_ID_IE
    ensures At(data, p + 4) == NameLen(u.id, UNI_NAME_LEN)
  {
    HoldsAll(data, p, UniHead(u));
    var h := UniHead(u);
    assert At(data, p) == h[0] && At(data, p + 1) == h[1] && At(data, p + 2) == h[2] && At(data, p + 3) == h[3]
        && At(data, p + 4) == h[4];
  }

  /** The body of a UNI Status element whose length octet is at p. */
  lemma UniBodyParses(data: bytes, p: nat, mapType: u8, name: bytes, b: BwProfile, learnt: LearntUni)
    requires 1 <= |name| <= UNI_NAME_LEN
    requires At(data, p) == 17 + |name| && At(data, p + 1) == mapType && At(data, p + 2) == UNI_ID_IE
    requires At(data, p + 3) == |name| && Holds(data, p + 4, name) && Holds(data, p + 4 + |name|, BwIe(b))
    ensures ParseUniBody(data, p, 0, learnt)
         == if ALL_TO_ONE_BUNDLING <= mapType <= BUNDLING
            then Some((LearntUni(mapType, name, Some(Learn(b.(perCos := 0)))), p + 18 + |name|)) else None
  {
    hide ParseUniBw, BwIe, Learn;
    HoldsChunk(data, p + 4, name);
    UniBwRoundTrip(data, p + 4 + |name|, b);
    UniLengths(|name|);
  }

  /** The UNI Status element is accepted exactly when its map type is one of the three defined. */
  lemma UniRoundTrip(data: bytes, p: nat, db: Database, lastRequest: u8, learnt: LearntUni)
    requires db.uni.Some? && Holds(data, p, UniIe(db))
    ensures ParseUni(data, p, lastRequest, learnt)
         == if ALL_TO_ONE_BUNDLING <= db.uni.value.mapType <= BUNDLING then Some((LearntUniOf(db), p + UniLength(db)))
            else None
  {
    hide ParseUni, UniIe, UniHead, BwIe, Learn;
    var u := db.uni.value;
    UniOctets(data, p, db);
    UniHeadOctets(data, p, u);
    UniFound(data, p, u.mapType, NameOctets(u.id, UNI_NAME_LEN), CarriedUniBw(db), lastRequest, learnt);
  }

  lemma UniFound(data: bytes, p: nat, mapType: u8, name: bytes, b: BwProfile, lastRequest: u8, learnt: LearntUni)
    requires 1 <= |name| <= UNI_NAME_LEN && At(data, p) == UNI_STATUS_IE && |data| >= p + 5
    requires At(data, p + 1) == 17 + |name| && At(data, p + 2) == mapType && At(data, p + 3) == UNI_ID_IE
    requires At(data, p + 4) == |name| && Holds(data, p + 5, name) && Holds(data, p + 5 + |name|, BwIe(b))
    ensures ParseUni(data, p, lastRequest, learnt)
         == if ALL_TO_ONE_BUNDLING <= mapType <= BUNDLING
            then Some((LearntUni(mapType, name, Some(Learn(b.(perCos := 0)))), p + 19 + |name|)) else None
  {
    UniBodyParses(data, p + 1, mapType, name, b, learnt);
  }

  lemma UniLengths(n: nat)
    requires 1 <= n <= UNI_NAME_LEN
    ensures S8(UNI_FIXED_LEN - 2 + n) == 17 + n && S8(16 + n) == 16 + n && S8(16 + n - (n + 2)) == 14
  {
  }

  // ---- EVC Status ----

  /** What an EVC looks like that this UNI-N announces: its New bit is set and a receiver finds it legal. */
  predicate LegalEvc(e: Evc) {
    && e.refId >= 1
    && e.status in {1, 3, 5}
    && e.evcType % 8 <= 1
    && !(e.evcType % 8 == 0 && e.status == 5)
    && e.level != LEVEL_PER_COS
    && |e.cos| <= 8
  }

  function LearntEvcOf(e: Evc): LearntEvc {
    LearntEvc(e.status, e.evcType % 8, NameOctets(e.id, EVC_NAME_LEN), true, LEVEL_PER_EVC, Some(Learn(CarriedBw(e))))
  }

  /** A new EVC replaces a record with the same id. */
  function LearnEvc(evcs: Records<LearntEvc>, e: Evc): Records<LearntEvc> {
    var nodes := if e.refId in evcs.recs then Delete(evcs.nodes, e.refId) else evcs.nodes;
    Records(Insert(nodes, e.refId), evcs.recs[e.refId := LearntEvcOf(e)])
  }

  /** What a reader finds of an EVC Status element at p. */
  ghost predicate EvcAt(data: bytes, p: nat, e: Evc) {
    && |data| >= p + 10
    && At(data, p) == EVC_STATUS_IE && At(data, p + 1) != 0 && WordAt(data, p + 2) == e.refId
    && At(data, p + 4) == e.status && At(data, p + 5) == EVC_PARAMS_IE && At(data, p + 6) == 1
    && At(data, p + 7) == e.evcType % 8 && At(data, p + 8) == EVC_ID_IE
    && At(data, p + 9) == NameLen(e.id, EVC_NAME_LEN)
    && Holds(data, p + 10, NameOctets(e.id, EVC_NAME_LEN))
    && Holds(data, p + 10 + NameLen(e.id, EVC_NAME_LEN), BwIe(CarriedBw(e)))
  }

  function EvcEnd(p: nat, e: Evc): nat {
    p + 24 + NameLen(e.id, EVC_NAME_LEN)
  }

  lemma EvcParts(data: bytes, p: nat, e: Evc)
    requires LegalEvc(e) && Holds(data, p, EvcIe(e))
    ensures Holds(data, p, EvcHead(e)) && Holds(data, p + 10, NameOctets(e.id, EVC_NAME_LEN))
    ensures Holds(data, p + 10 + NameLen(e.id, EVC_NAME_LEN), BwIe(CarriedBw(e)))
    ensures p + |EvcIe(e)| == EvcEnd(p, e)
  {
    EmptyBwIeIsZero();
    assert EvcBwIes(e) == BwIe(CarriedBw(e));
    HoldsSplit(data, p, EvcHead(e) + NameOctets(e.id, EVC_NAME_LEN), EvcBwIes(e));
    HoldsSplit(data, p, EvcHead(e), NameOctets(e.id, EVC_NAME_LEN));
  }

  lemma EvcIsAt(data: bytes, p: nat, e: Evc)
    requires LegalEvc(e) && Holds(data, p, EvcIe(e))
    ensures EvcAt(data, p, e) && p + |EvcIe(e)| == EvcEnd(p, e)
  {
    EvcParts(data, p, e);
    EvcHeadOctets(data, p, e);
  }

  lemma EvcHeadOctets(data: bytes, p: nat, e: Evc)
    requires LegalEvc(e) && Holds(data, p, EvcHead(e))
    ensures |data| >= p + 10
    ensures At(data, p) == EVC_STATUS_IE && At(data, p + 1) != 0 && WordAt(data, p + 2) == e.refId
    ensures At(data, p + 4) == e.status && At(data, p + 5) == EVC_PARAMS_IE && At(data, p + 6) == 1
    ensures At(data, p + 7) == e.evcType % 8 && At(data, p + 8) == EVC_ID_IE
    ensures At(data, p + 9) == NameLen(e.id, EVC_NAME_LEN)
  {
    HoldsAll(data, p, EvcHead(e));
    var h := EvcHead(e);
    EvcLengthExact(e);
    assert At(data, p) == h[0] && At(data, p + 1) == h[1] && At(data, p + 2) == h[2] && At(data, p + 3) == h[3]
        && At(data, p + 4) == h[4] && At(data, p + 5) == h[5] && At(data, p + 6) == h[6] && At(data, p + 7) == h[7]
        && At(data, p + 8) == h[8] && At(data, p + 9) == h[9];
  }

  /** The part of an EVC Status element after its status, the length octet being at p. */
  lemma EvcBodyParses(data: bytes, p: nat, status: u8, evcType: u8, name: bytes, b: BwProfile)
    requires evcType <= 1 && !(evcType == 0 && status in {4, 5})
    requires At(data, p + 4) == EVC_PARAMS_IE && At(data, p + 5) == 1 && At(data, p + 6) == evcType
    requires At(data, p + 7) == EVC_ID_IE && At(data, p + 8) == |name|
    requires Holds(data, p + 9, name) && Holds(data, p + 9 + |name|, BwIe(b))
    ensures ParseEvcBody(data, p, NEW_EVC.(status := status, active := true))
         == Some((LearntEvc(status, evcType, name, true, LEVEL_PER_EVC, Some(Learn(b.(perCos := 0)))), p + 23 + |name|))
  {
    var evc := LearntEvc(status, evcType, [], true, 0, None);
    assert NEW_EVC.(status := status, active := true).(evcType := evcType) == evc;
    assert Expect(data, p + 7, EVC_ID_IE, EVC_PARAMS_IE) == Some(p + 8);
    EvcNameParses(data, p + 8, name, b, evc);
  }

  lemma EvcNameParses(data: bytes, p: nat, name: bytes, b: BwProfile, evc: LearntEvc)
    requires At(data, p) == |name| && Holds(data, p + 1, name) && Holds(data, p + 1 + |name|, BwIe(b))
    requires evc.idBuf == []
    ensures ParseEvcName(data, p, evc)
         == Some((evc.(idBuf := name, level := LEVEL_PER_EVC, bw := Some(Learn(b.(perCos := 0)))), p + 15 + |name|))
  {
    hide ParseEvcBw, BwIe, Learn;
    HoldsChunk(data, p + 1, name);
    EvcBwRoundTrip(data, p + 1 + |name|, b, evc.(idBuf := name));
  }

  /** One EVC Status element is decoded into a record of exactly what was encoded. */
  lemma EvcRoundTrip(data: bytes, p: nat, e: Evc, evcs: Records<LearntEvc>)
    requires LegalEvc(e) && EvcAt(data, p, e)
    ensures ParseEvc(data, p + 1, e.refId, evcs) == Accepted(LearnEvc(evcs, e), EvcEnd(p, e))
  {
    hide ParseEvcBody, ParseEvc, LearntEvcOf, CarriedBw, BwIe;
    EvcBodyRoundTrip(data, p, e);
    assert At(data, p + 1 + 3) == e.status;
    NewEvcReplaces(data, p + 1, e.refId, evcs, e.status, LearntEvcOf(e), EvcEnd(p, e));
  }

  lemma EvcBodyRoundTrip(data: bytes, p: nat, e: Evc)
    requires LegalEvc(e) && EvcAt(data, p, e)
    ensures ParseEvcBody(data, p + 1, NEW_EVC.(status := e.status, active := true))
         == Some((LearntEvcOf(e), EvcEnd(p, e)))
  {
    hide ParseEvcBody, LearntEvcOf, CarriedBw, BwIe, Learn;
    EvcBodyParses(data, p + 1, e.status, e.evcType % 8, NameOctets(e.id, EVC_NAME_LEN), CarriedBw(e));
    LearntFields(e);
  }

  lemma LearntFields(e: Evc)
    ensures LearntEvcOf(e) == LearntEvc(e.status, e.evcType % 8, NameOctets(e.id, EVC_NAME_LEN), true, LEVEL_PER_EVC,
                                        Some(Learn(CarriedBw(e).(perCos := 0))))
  {
  }

  /** With the New bit set, an EVC is learnt from scratch whatever was known under its id. */
  lemma NewEvcReplaces(data: bytes, p: nat, refId: u16, evcs: Records<LearntEvc>, status: u8, evc: LearntEvc, q: nat)
    requires At(data, p + 3) == status && status % 2 == 1
    requires ParseEvcBody(data, p, NEW_EVC.(status := status, active := true)) == Some((evc, q))
    ensures ParseEvc(data, p, refId, evcs)
         == Accepted(Records(Insert(if refId in evcs.recs then Delete(evcs.nodes, refId) else evcs.nodes, refId),
                             evcs.recs[refId := evc]), q)
  {
    var recs := evcs.recs - {refId};
    assert recs[refId := evc] == evcs.recs[refId := evc];
  }

  function LearnEvcs(evcs: Records<LearntEvc>, es: seq<Evc>): Records<LearntEvc>
    decreases |es|
  {
    if es == [] then evcs else LearnEvcs(LearnEvc(evcs, es[0]), es[1..])
  }

  ghost predicate AscendingEvcs(es: seq<Evc>) {
    forall i, j | 0 <= i < j < |es| :: es[i].refId < es[j].refId
  }

  /** One EVC Status element after the other. */
  ghost predicate EvcsAt(data: bytes, p: nat, es: seq<Evc>)
    decreases |es|
  {
    es == [] || (EvcAt(data, p, es[0]) && EvcsAt(data, EvcEnd(p, es[0]), es[1..]))
  }

  function EvcsEnd(p: nat, es: seq<Evc>): nat
    decreases |es|
  {
    if es == [] then p else EvcsEnd(EvcEnd(p, es[0]), es[1..])
  }

  lemma {:induction false} EvcsAreAt(data: bytes, p: nat, es: seq<Evc>)
    requires forall e | e in es :: LegalEvc(e)
    requires Holds(data, p, Flatten(EvcItems(es)))
    ensures EvcsAt(data, p, es) && EvcsEnd(p, es) == p + |Flatten(EvcItems(es))|
    decreases |es|
  {
    if es != [] {
      assert EvcItems(es)[1..] == EvcItems(es[1..]);
      HoldsSplit(data, p, EvcIe(es[0]), Flatten(EvcItems(es[1..])));
      EvcIsAt(data, p, es[0]);
      EvcsAreAt(data, EvcEnd(p, es[0]), es[1..]);
    }
  }

  /** The id remembered across frames is checked only against the first element of a frame. */
  function AfterFirst(lastRequest: u8, lastEvcId: u16): u16 {
    if lastRequest == REPORT_FULL_STATUS_CONTD then 0 else lastEvcId
  }

  lemma EvcLoopStep(data: bytes, p: nat, e: Evc, prev: u16, last: u16, lastRequest: u8, lastEvcId: u16,
                    evcs: Records<LearntEvc>)
    requires LegalEvc(e) && EvcAt(data, p, e)
    requires prev <= e.refId && (lastRequest == REPORT_FULL_STATUS_CONTD ==> lastEvcId <= e.refId)
    ensures EvcLoop(data, p + 1, prev, last, lastRequest, lastEvcId, evcs)
         == if At(data, EvcEnd(p, e)) != EVC_STATUS_IE then Good(LearnEvc(evcs, e), e.refId, EvcEnd(p, e))
            else EvcLoop(data, EvcEnd(p, e) + 1, e.refId, e.refId, lastRequest, AfterFirst(lastRequest, lastEvcId),
                         LearnEvc(evcs, e))
  {
    EvcTurnRoundTrip(data, p, e, prev, lastRequest, lastEvcId, evcs);
  }

  lemma EvcTurnRoundTrip(data: bytes, p: nat, e: Evc, prev: u16, lastRequest: u8, lastEvcId: u16,
                         evcs: Records<LearntEvc>)
    requires LegalEvc(e) && EvcAt(data, p, e)
    requires prev <= e.refId && (lastRequest == REPORT_FULL_STATUS_CONTD ==> lastEvcId <= e.refId)
    ensures EvcTurn(data, p + 1, prev, lastRequest, lastEvcId, evcs)
         == if At(data, EvcEnd(p, e)) != EVC_STATUS_IE then Ends(LearnEvc(evcs, e), e.refId, EvcEnd(p, e))
            else Continues(LearnEvc(evcs, e), e.refId, AfterFirst(lastRequest, lastEvcId), EvcEnd(p, e) + 1)
  {
    EvcRoundTrip(data, p, e, evcs);
  }

  lemma EvcsUnfold(p: nat, es: seq<Evc>, evcs: Records<LearntEvc>)
    requires es != []
    ensures LearnEvcs(evcs, es) == LearnEvcs(LearnEvc(evcs, es[0]), es[1..])
    ensures EvcsEnd(p, es) == EvcsEnd(EvcEnd(p, es[0]), es[1..])
    ensures |es| == 1 ==> LearnEvcs(evcs, es) == LearnEvc(evcs, es[0]) && EvcsEnd(p, es) == EvcEnd(p, es[0])
    ensures |es| > 1 ==> es[1..][|es| - 2] == es[|es| - 1]
  {
  }

  lemma FirstEvcAt(data: bytes, q: nat, es: seq<Evc>)
    requires es != [] && EvcsAt(data, q, es)
    ensures At(data, q) == EVC_STATUS_IE
  {
  }

  /** Which EVC Status elements are refused, whoever sent them: reference id zero or descending, status or type out of
      range, or partially active on a point-to-point EVC. */
  lemma EvcTurnRefuses(data: bytes, p: nat, e: Evc, prev: u16, lastRequest: u8, lastEvcId: u16,
                       evcs: Records<LearntEvc>)
    requires EvcAt(data, p, e)
    ensures EvcTurn(data, p + 1, prev, lastRequest, lastEvcId, evcs).Fails?
       <==> e.refId < 1 || prev > e.refId || (lastRequest == REPORT_FULL_STATUS_CONTD && lastEvcId > e.refId)
            || e.status > 5 || e.evcType % 8 > 1 || (e.evcType % 8 == 0 && e.status in {4, 5})
  {
    hide ParseEvcBody, BwIe, CarriedBw, NameOctets;
    assert At(data, p + 1 + 3) == e.status && WordAt(data, p + 1 + 1) == e.refId;
    var evcs1 := if e.status % 2 == 1 && e.refId in evcs.recs
                 then Records(Delete(evcs.nodes, e.refId), evcs.recs - {e.refId}) else evcs;
    var start := if e.refId in evcs1.recs then evcs1.recs[e.refId] else NEW_EVC;
    EvcBodyRefuses(data, p, e, start.(status := e.status, active := true));
  }

  lemma EvcBodyRefuses(data: bytes, p: nat, e: Evc, evc: LearntEvc)
    requires EvcAt(data, p, e) && evc.status == e.status
    ensures ParseEvcBody(data, p + 1, evc).None? <==>
              e.evcType % 8 > 1 || (e.evcType % 8 == 0 && e.status in {4, 5})
  {
    hide BwIe, CarriedBw, ParseEvcBw, Overlaid;
    var name := NameOctets(e.id, EVC_NAME_LEN);
    HoldsChunk(data, p + 10, name);
    assert Expect(data, p + 8, EVC_ID_IE, EVC_PARAMS_IE) == Some(p + 9);
    EvcBwRoundTrip(data, p + 10 + |name|, CarriedBw(e),
                   evc.(evcType := e.evcType % 8, idBuf := Overlaid(name, evc.idBuf)));
  }

  /** A run of EVC Status elements is learnt element by element; the id of the last is remembered. */
  lemma {:induction false} EvcsRoundTrip(data: bytes, p: nat, es: seq<Evc>, prev: u16, last: u16, lastRequest: u8,
                                         lastEvcId: u16, evcs: Records<LearntEvc>, z: EvcResult)
    requires es != [] && AscendingEvcs(es) && (forall e | e in es :: LegalEvc(e))
    requires EvcsAt(data, p, es) && At(data, EvcsEnd(p, es)) != EVC_STATUS_IE
    requires prev <= es[0].refId && (lastRequest == REPORT_FULL_STATUS_CONTD ==> lastEvcId <= es[0].refId)
    requires z == EvcLoop(data, p + 1, prev, last, lastRequest, lastEvcId, evcs)
    ensures z == Good(LearnEvcs(evcs, es), es[|es| - 1].refId, EvcsEnd(p, es))
    decreases |es|
  {
    hide EvcTurn, EvcAt, LearnEvc;
    var e, rest := es[0], es[1..];
    EvcsUnfold(p, es, evcs);
    EvcLoopStep(data, p, e, prev, last, lastRequest, lastEvcId, evcs);
    if rest != [] {
      FirstEvcAt(data, EvcEnd(p, e), rest);
      EvcsRoundTrip(data, EvcEnd(p, e), rest, e.refId, e.refId, lastRequest, AfterFirst(lastRequest, lastEvcId),
                    LearnEvc(evcs, e), z);
    }
  }

  // ---- CE-VLAN ID/EVC Map ----

  /** The map elements a receiver with this UNI map type accepts. */
  predicate LegalMap(m: CvlanMap, mapType: u8) {
    && m.refId >= 1
    && m.vids != {}
    && MapLength(m) <= MAX_IE_LEN
    && (m.defaultEvc ==> mapType == BUNDLING)
    && (m.untagged ==> mapType != ALL_TO_ONE_BUNDLING)
  }

  lemma {:induction false} VidsRoundTrip(data: bytes, p: nat, vids: seq<vid>)
    requires Holds(data, p, VidOctets(vids))
    ensures VidsAt(data, p, |vids|) == (set v | v in vids)
  {
    if vids != [] {
      var init, last := vids[..|vids| - 1], vids[|vids| - 1];
      HoldsSplit(data, p, VidOctets(init), W(last));
      HoldsWord(data, p + 2 * |init|, last);
      VidsRoundTrip(data, p, init);
      assert vids == init + [last];
      assert (set v | v in vids) == (set v | v in init) + {last};
    }
  }

  /** What a reader finds of a CE-VLAN map element at p. */
  ghost predicate MapAt(data: bytes, p: nat, m: CvlanMap) {
    && |data| >= p + 8
    && At(data, p) == CEVLAN_EVC_MAP_IE && At(data, p + 1) != 0 && WordAt(data, p + 2) == m.refId
    && At(data, p + 4) == 0x41 && At(data, p + 5) == 2 * Flag(m.untagged) + Flag(m.defaultEvc)
    && At(data, p + 7) == 2 * |Members(m.vids)| && |Members(m.vids)| >= 1
    && VidsAt(data, p + 8, |Members(m.vids)|) == m.vids
  }

  function MapEnd(p: nat, m: CvlanMap): nat {
    p + MapLength(m)
  }

  lemma MapHeadOctets(data: bytes, p: nat, m: CvlanMap)
    requires Holds(data, p, MapHead(m)) && MapLength(m) <= MAX_IE_LEN
    ensures |data| >= p + 8
    ensures At(data, p) == CEVLAN_EVC_MAP_IE && At(data, p + 1) != 0 && WordAt(data, p + 2) == m.refId
    ensures At(data, p + 4) == 0x41 && At(data, p + 5) == 2 * Flag(m.untagged) + Flag(m.defaultEvc)
    ensures At(data, p + 7) == 2 * |Members(m.vids)|
  {
    HoldsAll(data, p, MapHead(m));
    var h := MapHead(m);
    assert At(data, p) == h[0] && At(data, p + 1) == h[1] && At(data, p + 2) == h[2] && At(data, p + 3) == h[3]
        && At(data, p + 4) == h[4] && At(data, p + 5) == h[5] && At(data, p + 7) == h[7];
  }

  lemma MapIsAt(data: bytes, p: nat, m: CvlanMap)
    requires m.vids != {} && MapLength(m) <= MAX_IE_LEN && Holds(data, p, MapIe(m))
    ensures MapAt(data, p, m) && p + |MapIe(m)| == MapEnd(p, m)
  {
    HoldsSplit(data, p, MapHead(m), VidOctets(Members(m.vids)));
    MapHeadOctets(data, p, m);
    VidsRoundTrip(data, p + 8, Members(m.vids));
    MembersCount(m.vids);
    assert (set v | v in Members(m.vids)) == m.vids;
  }

  /** VLANs accumulate: those learnt before stay members. */
  function LearnMap(maps: Records<LearntMap>, m: CvlanMap): Records<LearntMap> {
    var before := if m.refId in maps.recs then maps.recs[m.refId].vids else {};
    Records(Insert(maps.nodes, m.refId),
            maps.recs[m.refId := LearntMap(true, 1, m.untagged, m.defaultEvc, before + m.vids)])
  }

  /** One map element that is the first in this frame to claim the default: learnt if its EVC is known, else refused. */
  lemma MapRoundTrip(data: bytes, p: nat, m: CvlanMap, scan: MapScan, evcIds: set<u16>, mapType: u8,
                     maps: Records<LearntMap>)
    requires LegalMap(m, mapType) && MapAt(data, p, m)
    requires scan.pre == None && scan.prev < m.refId && !(m.defaultEvc && scan.defaultSeen)
    ensures ParseMap(data, p + 1, scan, evcIds, mapType, maps)
         == if m.refId !in evcIds then None
            else Some((LearnMap(maps, m), MapScan(m.refId, scan.defaultSeen || m.defaultEvc, None), MapEnd(p, m)))
  {
    var f := At(data, p + 5);
    assert f / 2 % 2 == Flag(m.untagged) && f % 2 == Flag(m.defaultEvc);
  }

  /** Which map elements are refused, whoever sent them: unknown EVC, descending reference ids, a second default EVC or
      one where the map type allows none, untagged frames with all-to-one bundling. */
  lemma MapRefuses(data: bytes, p: nat, m: CvlanMap, scan: MapScan, evcIds: set<u16>, mapType: u8,
                   maps: Records<LearntMap>)
    requires MapAt(data, p, m) && scan.pre == None && scan.prev != m.refId
    ensures ParseMap(data, p + 1, scan, evcIds, mapType, maps) == None
       <==> m.refId !in evcIds || m.refId < scan.prev || (m.defaultEvc && (scan.defaultSeen || mapType != BUNDLING))
            || (m.untagged && mapType == ALL_TO_ONE_BUNDLING)
  {
    var f := At(data, p + 5);
    assert f / 2 % 2 == Flag(m.untagged) && f % 2 == Flag(m.defaultEvc);
  }

  function LearnMaps(maps: Records<LearntMap>, ms: seq<CvlanMap>): Records<LearntMap>
    decreases |ms|
  {
    if ms == [] then maps else LearnMaps(LearnMap(maps, ms[0]), ms[1..])
  }

  ghost predicate AscendingMaps(ms: seq<CvlanMap>) {
    forall i, j | 0 <= i < j < |ms| :: ms[i].refId < ms[j].refId
  }

  ghost predicate OneDefault(ms: seq<CvlanMap>) {
    forall i, j | 0 <= i < j < |ms| :: !(ms[i].defaultEvc && ms[j].defaultEvc)
  }

  ghost predicate MapsAt(data: bytes, p: nat, ms: seq<CvlanMap>)
    decreases |ms|
  {
    ms == [] || (MapAt(data, p, ms[0]) && MapsAt(data, MapEnd(p, ms[0]), ms[1..]))
  }

  function MapsEnd(p: nat, ms: seq<CvlanMap>): nat
    decreases |ms|
  {
    if ms == [] then p else MapsEnd(MapEnd(p, ms[0]), ms[1..])
  }

  lemma {:induction false} MapsAreAt(data: bytes, p: nat, ms: seq<CvlanMap>)
    requires forall m | m in ms :: m.vids != {} && MapLength(m) <= MAX_IE_LEN
    requires Holds(data, p, Flatten(MapItems(ms)))
    ensures MapsAt(data, p, ms) && MapsEnd(p, ms) == p + |Flatten(MapItems(ms))|
    decreases |ms|
  {
    if ms != [] {
      assert MapItems(ms)[1..] == MapItems(ms[1..]);
      HoldsSplit(data, p, MapIe(ms[0]), Flatten(MapItems(ms[1..])));
      MapIsAt(data, p, ms[0]);
      assert forall x | x in ms[1..] :: x in ms;
      MapsAreAt(data, MapEnd(p, ms[0]), ms[1..]);
    }
  }

  lemma MapLoopStep(data: bytes, p: nat, m: CvlanMap, scan: MapScan, evcIds: set<u16>, mapType: u8,
                    maps: Records<LearntMap>)
    requires LegalMap(m, mapType) && MapAt(data, p, m)
    requires scan.pre == None && scan.prev < m.refId && !(m.defaultEvc && scan.defaultSeen)
    ensures MapLoop(data, p + 1, scan, evcIds, mapType, maps)
         == if m.refId !in evcIds then None
            else if At(data, MapEnd(p, m)) != CEVLAN_EVC_MAP_IE then Some((LearnMap(maps, m), MapEnd(p, m) + 1))
            else MapLoop(data, MapEnd(p, m) + 1, MapScan(m.refId, scan.defaultSeen || m.defaultEvc, None), evcIds,
                         mapType, LearnMap(maps, m))
  {
    MapRoundTrip(data, p, m, scan, evcIds, mapType, maps);
  }

  /** Elements that can be decoded one after the other from this point of the scan on, if their EVCs are known. */
  ghost predicate Decodable(ms: seq<CvlanMap>, prev: u16, defaultSeen: bool, mapType: u8)
    decreases |ms|
  {
    ms == [] || (LegalMap(ms[0], mapType) && prev < ms[0].refId && !(ms[0].defaultEvc && defaultSeen)
                 && Decodable(ms[1..], ms[0].refId, defaultSeen || ms[0].defaultEvc, mapType))
  }

  lemma {:induction false} LegalDecodable(ms: seq<CvlanMap>, prev: u16, defaultSeen: bool, mapType: u8)
    requires AscendingMaps(ms) && OneDefault(ms)
    requires forall i | 0 <= i < |ms| :: LegalMap(ms[i], mapType) && prev < ms[i].refId
    requires forall i | 0 <= i < |ms| :: !(ms[i].defaultEvc && defaultSeen)
    ensures Decodable(ms, prev, defaultSeen, mapType)
    decreases |ms|
  {
    if ms != [] {
      LegalDecodable(ms[1..], ms[0].refId, defaultSeen || ms[0].defaultEvc, mapType);
    }
  }

  /** The EVC of every map is known. */
  ghost predicate AllKnown(ms: seq<CvlanMap>, evcIds: set<u16>) {
    forall i | 0 <= i < |ms| :: ms[i].refId in evcIds
  }

  lemma AllKnownFirst(ms: seq<CvlanMap>, evcIds: set<u16>)
    requires ms != []
    ensures AllKnown(ms, evcIds) <==> ms[0].refId in evcIds && AllKnown(ms[1..], evcIds)
  {
    if ms[0].refId in evcIds && AllKnown(ms[1..], evcIds) {
      assert forall i | 0 < i < |ms| :: ms[i] == ms[1..][i - 1];
    }
  }

  lemma MapsUnfold(p: nat, ms: seq<CvlanMap>, maps: Records<LearntMap>)
    requires ms != []
    ensures LearnMaps(maps, ms) == LearnMaps(LearnMap(maps, ms[0]), ms[1..])
    ensures MapsEnd(p, ms) == MapsEnd(MapEnd(p, ms[0]), ms[1..])
    ensures |ms| == 1 ==> LearnMaps(maps, ms) == LearnMap(maps, ms[0]) && MapsEnd(p, ms) == MapEnd(p, ms[0])
  {
  }

  lemma FirstMapAt(data: bytes, q: nat, ms: seq<CvlanMap>)
    requires ms != [] && MapsAt(data, q, ms)
    ensures At(data, q) == CEVLAN_EVC_MAP_IE
  {
  }

  /** A run of map elements is learnt element by element, or refused if the EVC of one of them is unknown. */
  lemma {:induction false} MapsRoundTrip(data: bytes, p: nat, ms: seq<CvlanMap>, scan: MapScan, evcIds: set<u16>,
                                         mapType: u8, maps: Records<LearntMap>,
                                         z: Option<(Records<LearntMap>, nat)>)
    requires ms != [] && Decodable(ms, scan.prev, scan.defaultSeen, mapType) && scan.pre == None
    requires MapsAt(data, p, ms) && At(data, MapsEnd(p, ms)) != CEVLAN_EVC_MAP_IE
    requires z == MapLoop(data, p + 1, scan, evcIds, mapType, maps)
    ensures z == if AllKnown(ms, evcIds) then Some((LearnMaps(maps, ms), MapsEnd(p, ms) + 1)) else None
    decreases |ms|
  {
    hide ParseMap, MapAt, LearnMap, LegalMap;
    var m, rest := ms[0], ms[1..];
    var q, maps2 := MapEnd(p, m), LearnMap(maps, m);
    MapsUnfold(p, ms, maps);
    AllKnownFirst(ms, evcIds);
    MapLoopStep(data, p, m, scan, evcIds, mapType, maps);
    if rest != [] && m.refId in evcIds {
      FirstMapAt(data, q, rest);
      MapsRoundTrip(data, q, rest, MapScan(m.refId, scan.defaultSeen || m.defaultEvc, None), evcIds, mapType, maps2, z);
    }
  }
}
