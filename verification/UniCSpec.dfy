/** What the customer side (elmi_uni_c.c, elmi_timer.c) computes: parsing, learning and polling. */
module UniCSpec {
  import opened Octets
  import opened VlanBitmap
  import opened Wire
  import opened Hysteresis
  import opened Bandwidth

  // ---- what has been learnt ----

  /** The fields of a received profile and the bandwidth values computed from them. */
  datatype LearntBw = LearntBw(profile: BwProfile, cir: u32, cbs: u32, eir: u32, ebs: u32)

  /** `idBuf` is the identifier field as far as it has been written; the rest of the field is zero. */
  datatype LearntEvc = LearntEvc(status: u8, evcType: u8, idBuf: bytes, active: bool, level: u8, bw: Option<LearntBw>)

  const NEW_EVC := LearntEvc(0, 0, [], false, 0, None)

  datatype LearntMap = LearntMap(lastIe: bool, seqNum: u8, untagged: bool, defaultEvc: bool, vids: set<vid>)

  const NEW_MAP := LearntMap(false, 0, false, false, {})

  datatype LearntUni = LearntUni(mapType: u8, idBuf: bytes, bw: Option<LearntBw>)

  /** A list of records: the nodes in list order, each naming its record by reference id. */
  datatype Records<T> = Records(nodes: seq<u16>, recs: map<u16, T>)

  datatype Learnt = Learnt(uni: LearntUni, evcs: Records<LearntEvc>, maps: Records<LearntMap>)

  /** elmi_unic_clear_learnt_database. */
  const CLEARED := Learnt(LearntUni(0, [], None), Records([], map[]), Records([], map[]))

  /** listnode_add_sort: in front of the first node with a larger id. */
  function Insert(nodes: seq<u16>, id: u16): seq<u16> {
    if nodes == [] then [id] else if id < nodes[0] then [id] + nodes else [nodes[0]] + Insert(nodes[1..], id)
  }

  /** listnode_delete: the first node with that record. */
  function Delete(nodes: seq<u16>, id: u16): seq<u16> {
    if nodes == [] then [] else if nodes[0] == id then nodes[1..] else [nodes[0]] + Delete(nodes[1..], id)
  }

  function Deactivated(evcs: Records<LearntEvc>): Records<LearntEvc> {
    evcs.(recs := map id | id in evcs.recs :: evcs.recs[id].(active := false))
  }

  // ---- cursor helpers ----

  function Left(data: bytes, p: nat): int {
    |data| - p
  }

  /** Position behind an element type that must be `want`; one repeated `again` element before it is skipped. */
  function Expect(data: bytes, p: nat, want: u8, again: u8): Option<nat> {
    if At(data, p) == want then Some(p + 1)
    else if At(data, p) == again && At(data, p + 2 + At(data, p + 1)) == want then Some(p + 3 + At(data, p + 1))
    else None
  }

  // ---- sequence numbers and data instance ----

  datatype SeqDi = SeqDi(di: u8, seqNum: u8, pos: nat)

  /** elmi_decode_seq_and_data_instance; the data instance is kept in 8 bits. */
  function ParseSeqDi(data: bytes, p: nat, sentSeq: u8): Option<SeqDi> {
    if Left(data, p) < 2 then None else
    match Expect(data, p, SEQUENCE_NUM_IE, REPORT_TYPE_IE)
    case None => None
    case Some(q) =>
      if At(data, q) == 0 || At(data, q + 1) == 0 || At(data, q + 2) == 0 || At(data, q + 2) != sentSeq then None else
      match Expect(data, q + 3, DATA_INSTANCE_IE, SEQUENCE_NUM_IE)
      case None => None
      case Some(r) =>
        var di := LongAt(data, r + 2) % 256;
        if At(data, r) != DATA_INSTANCE_LEN || di == 0 then None
        else Some(SeqDi(di, At(data, q + 1), r + 6))
  }

  // ---- bandwidth profiles ----

  /** The profile whose flag octet is at `p`; the magnitude travels in front of its multiplier. */
  function BwAt(data: bytes, p: nat): LearntBw {
    var b := BwProfile(At(data, p) / 2 % 2 == 1, At(data, p) / 4 % 2 == 1, 0,
                       At(data, p + 1), WordAt(data, p + 2), At(data, p + 4), At(data, p + 5),
                       At(data, p + 6), WordAt(data, p + 7), At(data, p + 9), At(data, p + 10));
    Learn(b)
  }

  function Learn(b: BwProfile): LearntBw {
    LearntBw(b, NumberOf(b.cirMul, b.cirMag), NumberOf(b.cbsMul, b.cbsMag),
             NumberOf(b.eirMul, b.eirMag), NumberOf(b.ebsMul, b.ebsMag))
  }

  function ParseUniBw(data: bytes, p: nat): Option<(LearntBw, nat)> {
    if Left(data, p) < 2 then None else
    match Expect(data, p, BW_PROFILE_IE, UNI_ID_IE)
    case None => None
    case Some(q) =>
      if S8(At(data, q)) < BW_PROFILE_LEN || At(data, q + 1) % 2 == 1 then None
      else Some((BwAt(data, q + 1), q + 13))
  }

  /** Position behind a run of per-class profiles, from the octet after the first flag octet. */
  function SkipCos(data: bytes, p: nat): (r: Option<nat>)
    ensures r.Some? ==> r.value >= p
    decreases |data| - p
  {
    if Left(data, p) == 0 then Some(p)
    else if At(data, p + 11) != BW_PROFILE_IE then Some(p + 11)
    else if At(data, p + 12) < BW_PROFILE_LEN then None
    else SkipCos(data, p + 14)
  }

  /** elmi_decode_evc_bw_profile: the record with its profile, and the position behind it. Per-class
      profiles only set the level, they are never attached to the record. */
  function ParseEvcBw(data: bytes, p: nat, evc: LearntEvc): (r: Option<(LearntEvc, nat)>)
    ensures r.Some? ==> r.value.1 > p
  {
    if Left(data, p) < 2 then None else
    match Expect(data, p, BW_PROFILE_IE, EVC_ID_IE)
    case None => None
    case Some(q) =>
      if At(data, q) < BW_PROFILE_LEN then None
      else if At(data, q + 1) % 2 == 0 then
        Some((evc.(level := LEVEL_PER_EVC, bw := Some(BwAt(data, q + 1))), q + 13))
      else
        match SkipCos(data, q + 2)
        case None => None
        case Some(r) => Some((if Left(data, q + 2) == 0 then evc else evc.(level := LEVEL_PER_COS), r))
  }

  // ---- UNI Status ----

  /** elmi_decode_uni_status, in signed 8-bit length arithmetic; lengths that would turn a copy or a
      skip backwards are refused. */
  function ParseUni(data: bytes, p: nat, lastRequest: u8, uni: LearntUni): Option<(LearntUni, nat)> {
    if Left(data, p) < 2 then None
    else if At(data, p) == UNI_STATUS_IE then ParseUniBody(data, p + 1, 0, uni)
    else if lastRequest == REPORT_FULL_STATUS_CONTD then Some((uni, p))
    else if At(data, p) == DATA_INSTANCE_IE && At(data, p + 1) < 128
            && At(data, p + 2 + At(data, p + 1)) == UNI_STATUS_IE then
      ParseUniBody(data, p + 3 + At(data, p + 1), At(data, p + 1), uni)
    else None
  }

  /** The part behind the type octet; `skipped` is the length of a repeated element skipped before it, which the length
      arithmetic falls back on when there is no identifier. The 8-bit difference wraps: an element of length 0x81
      passes as one without identifier. */
  function ParseUniBody(data: bytes, p: nat, skipped: u8, uni: LearntUni): Option<(LearntUni, nat)> {
    var mapType := At(data, p + 1);
    var left := S8(S8(At(data, p)) - 1);
    if At(data, p) == 0 || mapType < ALL_TO_ONE_BUNDLING || mapType > BUNDLING then None
    else if left > 0 && Left(data, p + 2) != 0 then
      var idLen := At(data, p + 3);
      if At(data, p + 2) != UNI_ID_IE || idLen >= 128 then None
      else ParseUniEnd(data, p + 4 + idLen, S8(left - (idLen + 2)), mapType, Chunk(data, p + 4, idLen))
    else
      ParseUniEnd(data, p + 2, S8(left - (skipped + 2)), mapType, uni.idBuf)
  }

  /** The profile is mandatory. */
  function ParseUniEnd(data: bytes, p: nat, left: int, mapType: u8, idBuf: bytes): Option<(LearntUni, nat)> {
    if left <= 0 then None else
    match ParseUniBw(data, p)
    case None => None
    case Some((bw, q)) => Some((LearntUni(mapType, idBuf, Some(bw)), q))
  }

  // ---- EVC Status ----

  /** Bad and Good are the negative and zero results, Absent the result ELMI_OK. */
  datatype EvcResult =
    | Bad(evcs: Records<LearntEvc>, lastEvcId: u16)
    | Absent(lastEvcId: u16, pos: nat)
    | Good(evcs: Records<LearntEvc>, lastEvcId: u16, pos: nat)

  /** elmi_decode_evc_status */
  function ParseEvcs(data: bytes, p: nat, lastRequest: u8, report: u8, lastEvcId: u16,
                     evcs: Records<LearntEvc>): EvcResult {
    if Left(data, p) < 2 then Bad(evcs, lastEvcId)
    else if At(data, p) == EVC_STATUS_IE then
      match EvcLoop(data, p + 1, 0, 0, lastRequest, lastEvcId, evcs)
      case Good(evcs', last, q) => Good(evcs', if report == REPORT_FULL_STATUS_CONTD then last else 0, q)
      case bad => bad
    else if At(data, p) == UNI_STATUS_IE then Good(evcs, 0, p + 1)
    else if At(data, p) == CEVLAN_EVC_MAP_IE then
      if lastRequest == REPORT_FULL_STATUS then Bad(evcs, lastEvcId) else Good(evcs, lastEvcId, p)
    else Absent(lastEvcId, p + 1)
  }

  /** One EVC Status element after the other; `prev` is the id decoded before. In a Good result
      `lastEvcId` is the id decoded last. */
  function EvcLoop(data: bytes, p: nat, prev: u16, last: u16, lastRequest: u8, lastEvcId: u16,
                   evcs: Records<LearntEvc>): (r: EvcResult)
    ensures !r.Absent?
    decreases |data| - p
  {
    if Left(data, p) == 0 then Good(evcs, last, p) else
    match EvcTurn(data, p, prev, lastRequest, lastEvcId, evcs)
    case Fails(evcs', lastEvcId') => Bad(evcs', lastEvcId')
    case Ends(evcs', refId, q) => Good(evcs', refId, q)
    case Continues(evcs', refId, lastEvcId', q) => EvcLoop(data, q, refId, refId, lastRequest, lastEvcId', evcs')
  }

  /** One turn of the loop: the element whose length octet is at p, and the type octet behind it. */
  datatype Turn =
    | Fails(evcs: Records<LearntEvc>, lastEvcId: u16)
    | Ends(evcs: Records<LearntEvc>, refId: u16, pos: nat)
    | Continues(evcs: Records<LearntEvc>, refId: u16, lastEvcId: u16, pos: nat)

  function EvcTurn(data: bytes, p: nat, prev: u16, lastRequest: u8, lastEvcId: u16, evcs: Records<LearntEvc>): (r: Turn)
    ensures r.Continues? ==> r.pos > p
  {
    var refId := WordAt(data, p + 1);
    var contd := lastRequest == REPORT_FULL_STATUS_CONTD;
    if At(data, p) == 0 || refId < 1 || prev > refId || (contd && lastEvcId != 0 && lastEvcId > refId) then
      Fails(evcs, lastEvcId)
    else
      EvcRest(data, p, refId, if contd then 0 else lastEvcId, evcs)
  }

  function EvcRest(data: bytes, p: nat, refId: u16, lastEvcId: u16, evcs: Records<LearntEvc>): (r: Turn)
    ensures r.Continues? ==> r.pos > p
  {
    if At(data, p + 3) > 5 then Fails(evcs, lastEvcId) else
    match ParseEvc(data, p, refId, evcs)
    case Refused(evcs') => Fails(evcs', lastEvcId)
    case Accepted(evcs', q) =>
      if At(data, q) != EVC_STATUS_IE then Ends(evcs', refId, q) else Continues(evcs', refId, lastEvcId, q + 1)
  }

  datatype OneEvc = Refused(evcs: Records<LearntEvc>) | Accepted(evcs: Records<LearntEvc>, pos: nat)

  /** The record and list work for one element with status at p + 3. */
  function ParseEvc(data: bytes, p: nat, refId: u16, evcs: Records<LearntEvc>): (r: OneEvc)
    ensures r.Accepted? ==> r.pos > p
  {
    var status := At(data, p + 3);
    var evcs1 := if status % 2 == 1 && refId in evcs.recs
                 then Records(Delete(evcs.nodes, refId), evcs.recs - {refId}) else evcs;
    var start := if refId in evcs1.recs then evcs1.recs[refId] else NEW_EVC;
    match ParseEvcBody(data, p, start.(status := status, active := true))
    case None => Refused(evcs1.(recs := evcs1.recs - {refId}))
    case Some((evc, q)) => Accepted(Records(Insert(evcs1.nodes, refId), evcs1.recs[refId := evc]), q)
  }

  /** Parameters, identifier and bandwidth profile; the identifier is copied over what the field held. */
  function ParseEvcBody(data: bytes, p: nat, evc: LearntEvc): (r: Option<(LearntEvc, nat)>)
    ensures r.Some? ==> r.value.1 > p
  {
    var evcType := At(data, p + 6);
    if At(data, p + 4) != EVC_PARAMS_IE || At(data, p + 5) == 0 || evcType > 1
       || (evcType == 0 && evc.status in {4, 5}) then None else
    match Expect(data, p + 7, EVC_ID_IE, EVC_PARAMS_IE)
    case None => None
    case Some(q) => ParseEvcName(data, q, evc.(evcType := evcType))
  }

  /** The identifier whose length octet is at p, and the profile behind it. */
  function ParseEvcName(data: bytes, p: nat, evc: LearntEvc): (r: Option<(LearntEvc, nat)>)
    ensures r.Some? ==> r.value.1 > p
  {
    var id := Chunk(data, p + 1, At(data, p));
    ParseEvcBw(data, p + 1 + |id|, evc.(idBuf := Overlaid(id, evc.idBuf)))
  }

  /** A copy without terminator leaves the rest of a longer one in place. */
  function Overlaid(id: bytes, held: bytes): bytes {
    if |held| > |id| then id + held[|id|..] else id
  }

  // ---- CE-VLAN ID/EVC Map ----

  /** Running values of elmi_unic_decode_cevlan_evc_map: the id decoded before, whether a default EVC has
      been seen, and the record `pre_cevlan_evc_map` points to. */
  datatype MapScan = MapScan(prev: u16, defaultSeen: bool, pre: Option<u16>)

  function ParseMaps(data: bytes, p: nat, evcIds: set<u16>, mapType: u8,
                     maps: Records<LearntMap>): Option<(Records<LearntMap>, nat)> {
    if At(data, p) != CEVLAN_EVC_MAP_IE then None
    else MapLoop(data, p + 1, MapScan(0, false, None), evcIds, mapType, maps)
  }

  function MapLoop(data: bytes, p: nat, scan: MapScan, evcIds: set<u16>, mapType: u8,
                   maps: Records<LearntMap>): Option<(Records<LearntMap>, nat)>
    decreases |data| - p
  {
    match ParseMap(data, p, scan, evcIds, mapType, maps)
    case None => None
    case Some((maps', scan', q)) =>
      if At(data, q) == CEVLAN_EVC_MAP_IE then MapLoop(data, q + 1, scan', evcIds, mapType, maps')
      else Some((maps', q + 1))
  }

  function VidsAt(data: bytes, p: nat, n: nat): set<vid> {
    if n == 0 then {}
    else VidsAt(data, p, n - 1) + (var v := WordAt(data, p + 2 * (n - 1)); if v < VID_MAX then {v} else {})
  }

  function ParseMap(data: bytes, p: nat, scan: MapScan, evcIds: set<u16>, mapType: u8,
                    maps: Records<LearntMap>): (r: Option<(Records<LearntMap>, MapScan, nat)>)
    ensures r.Some? ==> r.value.2 > p
  {
    var refId := WordAt(data, p + 1);
    var again := scan.prev != 0 && scan.prev == refId;
    var pre := if again && refId in maps.recs then Some(refId) else scan.pre;
    var seqNum, lastIe := At(data, p + 3) % 64, At(data, p + 3) / 64 % 2 == 1;
    var untagged, defaultEvc := At(data, p + 4) / 2 % 2 == 1, At(data, p + 4) % 2 == 1;
    var n := At(data, p + 6) / 2;
    if At(data, p) == 0 || (scan.prev != 0 && refId < scan.prev) || refId !in evcIds
       || !PreAllows(pre, scan.prev, refId, seqNum, maps)
       || (defaultEvc && ((scan.defaultSeen && scan.prev != refId) || mapType != BUNDLING))
       || (untagged && mapType == ALL_TO_ONE_BUNDLING)
       || At(data, p + 6) == 0 then None
    else
      var start := if refId in maps.recs then maps.recs[refId] else NEW_MAP;
      var vids := start.vids + VidsAt(data, p + 7, n);
      if pre.Some? && scan.prev != refId && pre.value in maps.recs && maps.recs[pre.value].vids * vids != {} then None
      else
        Some((Records(Insert(maps.nodes, refId),
                      maps.recs[refId := LearntMap(lastIe, seqNum, untagged, defaultEvc, vids)]),
              MapScan(refId, scan.defaultSeen || defaultEvc, pre),
              p + 7 + 2 * n))
  }

  /** The checks against the map that was repeated last. */
  predicate PreAllows(pre: Option<u16>, prev: u16, refId: u16, seqNum: u8, maps: Records<LearntMap>) {
    if pre.None? || pre.value !in maps.recs then true
    else
      var m := maps.recs[pre.value];
      if prev == refId then !m.lastIe && m.seqNum < seqNum else m.lastIe
  }

  // ---- state ----

  datatype Config = Config(n391: u16, n393: nat)

  datatype State = State(
    learnt: Learnt, dataInstance: u32, lastEvcId: u16,
    sentSeq: u8, rcvdSeq: u8, rcvdResponse: bool, requestSent: bool, lastRequest: u8,
    pollCounter: u16, health: Health)

  /** What a step shows outside: an enquiry built (at most one) and whether it was sent, states told to
      NSM, what the counters were told, whether a solicited response passed validation, and the report
      type of a message that was accepted. */
  datatype Output = Output(built: seq<bytes>, sent: bool, notes: seq<bool>, obs: seq<Obs>, validated: bool,
                           accepted: Option<u8>)

  const SILENT := Output([], false, [], [], false, None)

  /** elmi_uni_c_tx: the new state, the enquiry if one was built, and whether it was sent. */
  function Transmit(s: State, report: u8, ch: Channel): (State, seq<bytes>, bool) {
    if !ch.linkUp then (s, [], false)
    else
      var s1 := s.(rcvdResponse := false, sentSeq := NextSeq(s.sentSeq));
      var frame := Enquiry(report, s1.sentSeq, s.rcvdSeq, s.dataInstance);
      if !ch.sendOk then (s1, [frame], false)
      else
        var s2 := s1.(lastRequest := report, requestSent := true);
        (if report == REPORT_FULL_STATUS then s2.(learnt := s.learnt.(evcs := Deactivated(s.learnt.evcs))) else s2,
         [frame], true)
  }

  /** elmi_api_enable_port on a UNI-C port. */
  function Enable(cfg: Config, learnt: Learnt, ch: Channel): (State, Output) {
    var s := State(learnt, 0, 0, 0, 0, false, false, REPORT_INVALID, cfg.n391, INITIAL);
    var (s1, built, sent) := Transmit(s, REPORT_FULL_STATUS, ch);
    (s1, Output(built, sent, [true], [], false, None))
  }

  /** elmi_polling_timer_handler */
  function PollExpiry(cfg: Config, s: State, ch: Channel): (State, Output) {
    var counter: u16 := if s.pollCounter != 0 then s.pollCounter - 1 else 0;
    var (h, notes) := if s.rcvdResponse then (s.health, []) else OnMiss(UniC, s.health, cfg.n393);
    var resend := !s.rcvdResponse && s.lastRequest in {REPORT_FULL_STATUS, REPORT_FULL_STATUS_CONTD};
    var report := if resend || counter == 0 then REPORT_FULL_STATUS else REPORT_ECHECK;
    var s1 := s.(pollCounter := if counter == 0 then cfg.n391 else counter, health := h);
    var (s2, built, sent) := Transmit(s1, report, ch);
    (s2, Output(built, sent, notes, if s.rcvdResponse then [] else [Miss], false, None))
  }

  // ---- received frames ----

  /** elmi_unic_validate_rcvd_pdu: report type of an acceptable response and the position behind it. */
  function Validate(data: bytes, requestSent: bool, lastRequest: u8): Option<(u8, nat)> {
    var p := if At(data, 1) == MSG_STATUS then 2 else 3;
    var q := if At(data, p) == REPORT_TYPE_IE then p + 1 else p + 2;
    var report := At(data, q + 1);
    if At(data, 0) != PROTO_VERSION
       || (p == 3 && (At(data, 1) != PROTO_VERSION || At(data, 2) != MSG_STATUS))
       || (q == p + 2 && (At(data, p) != MSG_STATUS || At(data, p + 1) != REPORT_TYPE_IE))
       || At(data, q) != 1 then None
    else if !requestSent && report != REPORT_SINGLE_EVC then None
    else if report == REPORT_ECHECK
            && lastRequest in {REPORT_FULL_STATUS, REPORT_FULL_STATUS_CONTD, REPORT_INVALID} then None
    else if report in {REPORT_FULL_STATUS, REPORT_FULL_STATUS_CONTD}
            && lastRequest in {REPORT_ECHECK, REPORT_INVALID} then None
    else Some((report, q + 2))
  }

  /** A parser's verdict: the new state, whether the message counts as accepted, and an enquiry sent on. */
  datatype Parsed = Parsed(state: State, ok: bool, built: seq<bytes>, sent: bool)

  function Reject(s: State): Parsed {
    Parsed(s, false, [], false)
  }

  function ClearAndReject(s: State): Parsed {
    Reject(s.(learnt := CLEARED))
  }

  /** elmi_unic_parse_status_pdu */
  function ParseStatus(data: bytes, p: nat, s: State, ch: Channel): Parsed {
    match ParseSeqDi(data, p, s.sentSeq)
    case None => Reject(s)
    case Some(m) =>
      var s1 := s.(rcvdSeq := m.seqNum, rcvdResponse := true);
      if s.dataInstance == m.di then Parsed(s1, true, [], false)
      else
        var (s2, built, sent) := Transmit(s1, REPORT_FULL_STATUS, ch);
        Parsed(s2, true, built, sent)
  }

  /** elmi_unic_parse_full_status_pdu */
  function ParseFull(data: bytes, p: nat, s: State): Parsed {
    match ParseSeqDi(data, p, s.sentSeq)
    case None => Reject(s)
    case Some(m) =>
      match ParseUni(data, m.pos, s.lastRequest, s.learnt.uni)
      case None => ClearAndReject(s)
      case Some((uni, q)) =>
        FullBody(data, q, s, m, uni)
  }

  /** The part of a Full Status message behind the UNI Status element. */
  function FullBody(data: bytes, q: nat, s: State, m: SeqDi, uni: LearntUni): Parsed {
    match ParseEvcs(data, q, s.lastRequest, REPORT_FULL_STATUS, s.lastEvcId, s.learnt.evcs)
    case Bad(_, last) => ClearAndReject(s.(lastEvcId := last))
    case Absent(last, _) => Sweep(s.(lastEvcId := last), m, s.learnt.(uni := uni))
    case Good(evcs, last, r) =>
      var s1 := s.(lastEvcId := last);
      if Left(data, r) <= 0 then ClearAndReject(s1) else
      match ParseMaps(data, r, evcs.recs.Keys, uni.mapType, s.learnt.maps)
      case None => ClearAndReject(s1)
      case Some((maps, _)) => Sweep(s1, m, Learnt(uni, evcs, maps))
  }

  /** Remove the EVCs not seen in this exchange; every other one must have a map. */
  function Sweep(s: State, m: SeqDi, learnt: Learnt): Parsed {
    var evcs := learnt.evcs;
    if exists id :: id in evcs.nodes && IsActive(evcs, id) && id !in learnt.maps.recs then ClearAndReject(s)
    else
      var evcs' := Records(Filter(evcs.nodes, evcs), map id | id in evcs.recs && IsActive(evcs, id) :: evcs.recs[id]);
      Parsed(s.(learnt := learnt.(evcs := evcs'), rcvdResponse := true, rcvdSeq := m.seqNum, dataInstance := m.di),
             true, [], false)
  }

  predicate IsActive(evcs: Records<LearntEvc>, id: u16) {
    id in evcs.recs && evcs.recs[id].active
  }

  function Filter(nodes: seq<u16>, evcs: Records<LearntEvc>): seq<u16> {
    if nodes == [] then []
    else (if IsActive(evcs, nodes[0]) then [nodes[0]] else []) + Filter(nodes[1..], evcs)
  }

  /** Only the first frame of a continued exchange is expected to carry a UNI Status element. */
  function ContdUni(data: bytes, p: nat, lastRequest: u8, uni: LearntUni): Option<(LearntUni, nat)> {
    if lastRequest == REPORT_FULL_STATUS_CONTD then Some((uni, p)) else ParseUni(data, p, lastRequest, uni)
  }

  /** elmi_unic_parse_full_status_contd_pdu */
  function ParseContd(data: bytes, p: nat, s: State, ch: Channel): Parsed {
    match ParseSeqDi(data, p, s.sentSeq)
    case None => Reject(s)
    case Some(m) =>
      match ContdUni(data, m.pos, s.lastRequest, s.learnt.uni)
      case None => ClearAndReject(s)
      case Some((uni, q)) =>
        match ParseEvcs(data, q, s.lastRequest, REPORT_FULL_STATUS_CONTD, s.lastEvcId, s.learnt.evcs)
        case Bad(evcs, last) => Reject(s.(lastEvcId := last, learnt := s.learnt.(uni := uni, evcs := evcs)))
        case Absent(last, r) => ContdMaps(data, r, s.(lastEvcId := last), m, uni, s.learnt.evcs, ch)
        case Good(evcs, last, r) => ContdMaps(data, r, s.(lastEvcId := last), m, uni, evcs, ch)
  }

  function MapsIfAny(data: bytes, r: nat, evcIds: set<u16>, mapType: u8,
                     maps: Records<LearntMap>): Option<(Records<LearntMap>, nat)> {
    if Left(data, r) == 0 then Some((maps, r)) else ParseMaps(data, r, evcIds, mapType, maps)
  }

  function ContdMaps(data: bytes, r: nat, s: State, m: SeqDi, uni: LearntUni, evcs: Records<LearntEvc>,
                     ch: Channel): Parsed {
    match MapsIfAny(data, r, evcs.recs.Keys, uni.mapType, s.learnt.maps)
    case None => ClearAndReject(s)
    case Some((maps, _)) =>
      var s1 := s.(learnt := Learnt(uni, evcs, maps), rcvdSeq := m.seqNum, lastRequest := REPORT_FULL_STATUS_CONTD);
      var (s2, built, sent) := Transmit(s1, REPORT_FULL_STATUS_CONTD, ch);
      Parsed(s2, true, built, sent)
  }

  /** elmi_unic_parse_async_evc_pdu */
  function ParseAsync(data: bytes, p: nat, s: State): Parsed {
    var refId := WordAt(data, p + 2);
    var evcs := s.learnt.evcs;
    if At(data, p) != EVC_STATUS_IE || At(data, p + 1) == 0 || refId !in evcs.recs then Reject(s)
    else
      var evc := evcs.recs[refId].(status := At(data, p + 4));
      Parsed(s.(learnt := s.learnt.(evcs := evcs.(recs := evcs.recs[refId := evc]))), true, [], false)
  }

  function Dispatch(data: bytes, report: u8, p: nat, s: State, ch: Channel): Parsed {
    if report == REPORT_FULL_STATUS then ParseFull(data, p, s)
    else if report == REPORT_ECHECK then ParseStatus(data, p, s, ch)
    else if report == REPORT_SINGLE_EVC then ParseAsync(data, p, s)
    else if report == REPORT_FULL_STATUS_CONTD then ParseContd(data, p, s, ch)
    else Parsed(s, true, [], false)
  }

  /** elmi_unic_handle_frame */
  function Handle(cfg: Config, s: State, data: bytes, ch: Channel): (State, Output) {
    match Validate(data, s.requestSent, s.lastRequest)
    case None => (s, SILENT)
    case Some((report, p)) =>
      var solicited := report != REPORT_SINGLE_EVC;
      var r := Dispatch(data, report, p, if solicited then s.(requestSent := false) else s, ch);
      if !r.ok then (r.state, Output(r.built, r.sent, [], [], solicited, None))
      else
        var (h, notes) := OnAccept(r.state.health, cfg.n393);
        (r.state.(health := h), Output(r.built, r.sent, notes, [Accept], solicited, Some(report)))
  }
}
