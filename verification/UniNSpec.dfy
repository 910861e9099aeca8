/** What the provider side (elmi_uni_n.c) computes: the contents of each answer and the next state. */
module UniNSpec {
  import opened Octets
  import opened Wire
  import opened Hysteresis
  import Greedy

  const LAST_IE_EVC: u8 := 1
  const LAST_IE_MAP: u8 := 2

  /** Where a Full Status exchange stands: continued_msg, last_evc_id and last_ie_type. */
  datatype Cursor = Cursor(continued: bool, lastEvcId: u16, lastIe: u8)

  const START := Cursor(false, 0, 0)

  function RefOf(ie: Ie): u16 {
    if ie.EvcItem? then ie.evc.refId else ie.cmap.refId
  }

  /** The elements whose reference id exceeds `id`, in list order. */
  function Beyond(items: seq<Ie>, id: u16): seq<Ie> {
    if items == [] then [] else (if RefOf(items[0]) <= id then [] else [items[0]]) + Beyond(items[1..], id)
  }

  /** How many of the leading elements fit into `room` octets. */
  function Take(items: seq<Ie>, room: nat): (n: nat)
    ensures n <= |items| && TotalLength(items[..n]) <= room
  {
    var n := Greedy.Fits(Sizes(items), room);
    Greedy.FitsIsGreedy(Sizes(items), room);
    SizesSlice(items, 0, n);
    n
  }

  function EvcsPending(db: Database, cur: Cursor): seq<Ie> {
    if cur.continued && cur.lastIe != LAST_IE_EVC then []
    else if cur.continued && cur.lastEvcId != 0 then Beyond(EvcItems(db.evcs), cur.lastEvcId)
    else EvcItems(db.evcs)
  }

  function MapsPending(db: Database, cur: Cursor): seq<Ie> {
    if cur.lastEvcId != 0 && cur.lastIe == LAST_IE_MAP then Beyond(MapItems(db.maps), cur.lastEvcId)
    else MapItems(db.maps)
  }

  /** The cursor after `n` of the pending elements went out: moved only when something was left behind. */
  function CutAfter(cur: Cursor, pending: seq<Ie>, n: nat, ie: u8): Cursor
    requires n <= |pending|
  {
    if n == |pending| then cur
    else Cursor(cur.continued, if n == 0 then 0 else RefOf(pending[n - 1]), ie)
  }

  datatype Payload = Payload(hasUni: bool, items: seq<Ie>)

  function Room(db: Database, hasUni: bool): nat {
    MAX_PACKET - HEADER_LEN - (if hasUni then UniLength(db) else 0)
  }

  function HasUni(db: Database, cur: Cursor, report: u8): bool {
    db.uni.Some? && (if report == REPORT_FULL_STATUS then !cur.continued else cur.lastEvcId == 0)
  }

  /** elmi_unin_send_fullstatus_msg and elmi_unin_send_fullstatus_contd_msg. */
  function Compose(db: Database, cur: Cursor, report: u8): (Payload, Cursor) {
    var hasUni := HasUni(db, cur, report);
    var es := EvcsPending(db, cur);
    var n := Take(es, Room(db, hasUni));
    var cur1 := CutAfter(cur, es, n, LAST_IE_EVC);
    if report == REPORT_FULL_STATUS_CONTD && n < |es| then (Payload(hasUni, es[..n]), cur1)
    else ComposeMaps(db, cur1, report, hasUni, es[..n])
  }

  function ComposeMaps(db: Database, cur: Cursor, report: u8, hasUni: bool, sent: seq<Ie>): (Payload, Cursor)
    requires TotalLength(sent) <= Room(db, hasUni)
  {
    var ms := MapsPending(db, cur);
    var m := Take(ms, Room(db, hasUni) - TotalLength(sent));
    (Payload(hasUni, sent + ms[..m]),
     if report == REPORT_FULL_STATUS then START else CutAfter(cur, ms, m, LAST_IE_MAP))
  }

  function PayloadOctets(db: Database, p: Payload): bytes
    requires p.hasUni ==> db.uni.Some?
  {
    (if p.hasUni then UniIe(db) else []) + Flatten(p.items)
  }

  // ---- state ----

  datatype Config = Config(pvtEnabled: bool, n393: nat)

  datatype State = State(
    db: Database, dataInstance: u32, cur: Cursor,
    sentSeq: u8, rcvdSeq: u8, rcvdResponse: bool, lastRequest: u8, health: Health)

  /** elmi_api_enable_port. */
  function Enabled(db: Database): State {
    State(db, 1, START, 0, 0, false, REPORT_INVALID, INITIAL)
  }

  /** What a step shows outside: a frame sent, states told to NSM, and what the counters were told. */
  datatype Output = Output(frames: seq<bytes>, notes: seq<bool>, obs: seq<Obs>)

  const SILENT := Output([], [], [])

  /** The frame elmi_uni_n_tx builds and the state once it is built. */
  function Build(s: State, report: u8): (bytes, State) {
    var s1 := s.(sentSeq := NextSeq(s.sentSeq));
    var head := Header(MSG_STATUS, report, s1.sentSeq, s.rcvdSeq, s.dataInstance);
    if report == REPORT_ECHECK then
      (Pad(head), s1.(cur := s.cur.(lastEvcId := 0)))
    else
      var (p, cur) := Compose(s.db, s.cur, report);
      (Pad(head + PayloadOctets(s.db, p)), s1.(cur := cur))
  }

  function Transmit(cfg: Config, s: State, report: u8, ch: Channel): (State, Output) {
    if !ch.linkUp then (s, SILENT)
    else
      var (frame, s1) := Build(s, report);
      if !ch.sendOk then (s1, SILENT) else Sent(cfg, s1, report, frame)
  }

  /** The bookkeeping once the socket has taken the frame. */
  function Sent(cfg: Config, s: State, report: u8, frame: bytes): (State, Output) {
    var s2 := s.(lastRequest := report, rcvdResponse := false);
    if cfg.pvtEnabled then
      var (h, notes) := OnAccept(s.health, cfg.n393);
      (s2.(health := h), Output([frame], notes, [Accept]))
    else
      (s2, Output([frame], [], []))
  }

  // ---- received enquiries ----

  /** elmi_unin_validate_rcvd_pdu: report type and sequence number of an acceptable enquiry. */
  function ParseEnquiry(data: bytes): Option<(u8, u8)> {
    if At(data, 0) != PROTO_VERSION then None
    else if At(data, 1) == MSG_STATUS_ENQUIRY then ParseReport(data, 2)
    else if At(data, 1) == PROTO_VERSION && At(data, 2) == MSG_STATUS_ENQUIRY then ParseReport(data, 3)
    else None
  }

  function ParseReport(data: bytes, p: nat): Option<(u8, u8)> {
    if At(data, p) == REPORT_TYPE_IE then ParseReportValue(data, p + 1)
    else if At(data, p) == MSG_STATUS_ENQUIRY && At(data, p + 1) == REPORT_TYPE_IE then ParseReportValue(data, p + 2)
    else None
  }

  /** A repeated report type is never skipped here: the type octet is read into the wrong variable. */
  function ParseReportValue(data: bytes, p: nat): Option<(u8, u8)> {
    if At(data, p) != 1 || At(data, p + 1) == REPORT_INVALID || At(data, p + 2) != SEQUENCE_NUM_IE
       || At(data, p + 3) != 2 || At(data, p + 4) == 0 then None
    else
      var dup := At(data, p + 6) == SEQUENCE_NUM_IE;
      var q := if dup then p + 8 + At(data, p + 7) else p + 6;
      if At(data, q) != DATA_INSTANCE_IE || At(data, q + 1) != DATA_INSTANCE_LEN then None
      else Some((At(data, p + 1), At(data, p + 4)))
  }

  function FullLength(db: Database): nat {
    HEADER_LEN + UniLength(db) + TotalLength(Items(db))
  }

  /** Octets elmi_unin_process_fullstatus_contd_msg counts as still to be sent. */
  function Remaining(db: Database, cur: Cursor): nat {
    TotalLength(if cur.lastIe == LAST_IE_EVC then Beyond(EvcItems(db.evcs), cur.lastEvcId) else [])
    + TotalLength(if cur.lastIe == LAST_IE_EVC then MapItems(db.maps) else Beyond(MapItems(db.maps), cur.lastEvcId))
  }

  /** The report type of the answer; the sums are held in 16 bits. */
  function AnswerToFull(db: Database): u8 {
    if FullLength(db) % 0x1_0000 > MAX_PACKET then REPORT_FULL_STATUS_CONTD else REPORT_FULL_STATUS
  }

  function AnswerToContd(db: Database, cur: Cursor): u8 {
    if Remaining(db, cur) % 0x1_0000 > MAX_PACKET - HEADER_LEN then REPORT_FULL_STATUS_CONTD
    else REPORT_FULL_STATUS
  }

  /** elmi_unin_handle_frame. */
  function Handle(cfg: Config, s: State, data: bytes, ch: Channel): (State, Output) {
    match ParseEnquiry(data)
    case None => (s, SILENT)
    case Some((report, seqNum)) =>
      var s1 := s.(rcvdSeq := seqNum, rcvdResponse := true);
      if report == REPORT_FULL_STATUS then
        Transmit(cfg, s1.(cur := START), AnswerToFull(s.db), ch)
      else if report == REPORT_ECHECK then
        Transmit(cfg, s1, REPORT_ECHECK, ch)
      else if report == REPORT_FULL_STATUS_CONTD then
        Transmit(cfg, s1.(cur := s.cur.(continued := true)), AnswerToContd(s.db, s.cur), ch)
      else
        (s, SILENT)
  }

  /** An enquiry is either dropped or answered by one transmission. */
  lemma HandleTransmits(cfg: Config, n: State, frame: bytes, ch: Channel)
      returns (n1: State, report: u8)
    ensures var e := ParseEnquiry(frame);
            || Handle(cfg, n, frame, ch) == (n, SILENT)
            || (e.Some? && n1.rcvdSeq == e.value.1 && n1.health == n.health
                && Handle(cfg, n, frame, ch) == Transmit(cfg, n1, report, ch))
  {
    n1, report := n, REPORT_ECHECK;
    var e := ParseEnquiry(frame);
    if e.Some? {
      n1 := n.(rcvdSeq := e.value.1, rcvdResponse := true);
      if e.value.0 == REPORT_FULL_STATUS {
        n1, report := n1.(cur := START), AnswerToFull(n.db);
      } else if e.value.0 == REPORT_FULL_STATUS_CONTD {
        n1, report := n1.(cur := n.cur.(continued := true)), AnswerToContd(n.db, n.cur);
      }
    }
  }

  /** elmi_polling_verification_timer_handler. */
  function PvtExpiry(cfg: Config, s: State): (State, Output) {
    if s.rcvdResponse then (s, SILENT)
    else
      var (h, notes) := OnMiss(UniN, s.health, cfg.n393);
      (s.(health := h), Output([], notes, [Miss]))
  }
}
