/** Both ends joined by a channel that may lose, duplicate, delay and reorder frames. */
module ClosedLoop {
  import opened Octets
  import opened Wire
  import opened UniCSpec
  import opened Polling
  import Hysteresis
  import UniNSpec

  /** An answer UNI-N has sent, and the enquiry it answers, counted from 0. */
  datatype Reply = Reply(frame: bytes, to: nat)

  /** Both ends and every frame either of them has produced; any of these may arrive at any time, any
      number of times or never. */
  datatype Net = Net(c: UniCSpec.State, n: UniNSpec.State, enquiries: seq<bytes>, replies: seq<Reply>)

  datatype NetEvent =
    | Poll(ch: Channel)
    | Verify
    | ToProvider(k: nat, ch: Channel)
    | ToCustomer(k: nat, ch: Channel)
    | Provision(db: Database, dataInstance: u32)

  function RepliesTo(frames: seq<bytes>, k: nat): (r: seq<Reply>)
    ensures |r| == |frames| && forall i | 0 <= i < |r| :: r[i] == Reply(frames[i], k)
  {
    seq(|frames|, i requires 0 <= i < |frames| => Reply(frames[i], k))
  }

  function NetStep(cc: UniCSpec.Config, cn: UniNSpec.Config, x: Net, e: NetEvent): Net {
    match e
    case Poll(ch) =>
      var (c, o) := PollExpiry(cc, x.c, ch);
      x.(c := c, enquiries := x.enquiries + o.built)
    case Verify =>
      x.(n := UniNSpec.PvtExpiry(cn, x.n).0)
    case ToProvider(k, ch) =>
      if k >= |x.enquiries| then x
      else
        var (n, o) := UniNSpec.Handle(cn, x.n, x.enquiries[k], ch);
        x.(n := n, replies := x.replies + RepliesTo(o.frames, k))
    case ToCustomer(k, ch) =>
      if k >= |x.replies| then x
      else
        var (c, o) := UniCSpec.Handle(cc, x.c, x.replies[k].frame, ch);
        x.(c := c, enquiries := x.enquiries + o.built)
    case Provision(db, di) =>
      x.(n := x.n.(db := db, dataInstance := di))
  }

  function NetStart(cc: UniCSpec.Config, learnt: Learnt, ch: Channel, db: Database): Net {
    var (c, o) := Enable(cc, learnt, ch);
    Net(c, UniNSpec.Enabled(db), o.built, [])
  }

  function NetAfter(cc: UniCSpec.Config, cn: UniNSpec.Config, x: Net, es: seq<NetEvent>): Net {
    if es == [] then x else NetStep(cc, cn, NetAfter(cc, cn, x, es[..|es| - 1]), es[|es| - 1])
  }

  // ---- what the frames carry ----

  /** The enquiry number k, counted from 0. */
  predicate EnquiryFrame(frame: bytes, k: nat) {
    At(frame, 1) == MSG_STATUS_ENQUIRY && At(frame, 2) == REPORT_TYPE_IE && At(frame, 7) == SeqOf(k + 1)
  }

  /** An answer that quotes this sequence number. */
  predicate Quotes(frame: bytes, rcvd: u8) {
    && At(frame, 1) == MSG_STATUS && At(frame, 2) == REPORT_TYPE_IE && At(frame, 5) == SEQUENCE_NUM_IE
    && At(frame, 8) == rcvd
  }

  ghost predicate NetInv(x: Net) {
    && x.c.sentSeq == SeqOf(|x.enquiries|)
    && (forall k | 0 <= k < |x.enquiries| :: EnquiryFrame(x.enquiries[k], k))
    && (forall i | 0 <= i < |x.replies| ::
          x.replies[i].to < |x.enquiries| && Quotes(x.replies[i].frame, SeqOf(x.replies[i].to + 1)))
  }

  lemma ParsedNumber(frame: bytes)
    requires At(frame, 1) == MSG_STATUS_ENQUIRY && At(frame, 2) == REPORT_TYPE_IE
    ensures UniNSpec.ParseEnquiry(frame).Some? ==> UniNSpec.ParseEnquiry(frame).value.1 == At(frame, 7)
  {
  }

  lemma PadKeeps(x: bytes, i: nat)
    requires i < |x|
    ensures At(Pad(x), i) == x[i]
  {
  }

  lemma HeaderQuotes(head: bytes, rest: bytes, report: u8, sent: u8, rcvd: u8, di: u32)
    requires head == Header(MSG_STATUS, report, sent, rcvd, di)
    ensures Quotes(Pad(head + rest), rcvd)
  {
    var x := head + rest;
    PadKeeps(x, 1);
    PadKeeps(x, 2);
    PadKeeps(x, 5);
    PadKeeps(x, 8);
  }

  lemma TransmitQuotes(cfg: UniNSpec.Config, n: UniNSpec.State, report: u8, ch: Channel)
    ensures var frames := UniNSpec.Transmit(cfg, n, report, ch).1.frames;
            frames == [] || (|frames| == 1 && Quotes(frames[0], n.rcvdSeq))
  {
    var sent := NextSeq(n.sentSeq);
    var head := Header(MSG_STATUS, report, sent, n.rcvdSeq, n.dataInstance);
    assert head + [] == head;
    HeaderQuotes(head, [], report, sent, n.rcvdSeq, n.dataInstance);
    var p := UniNSpec.Compose(n.db, n.cur, report).0;
    HeaderQuotes(head, UniNSpec.PayloadOctets(n.db, p), report, sent, n.rcvdSeq, n.dataInstance);
  }

  /** UNI-N quotes the number of the enquiry it answers. */
  lemma AnswerQuotes(cfg: UniNSpec.Config, n: UniNSpec.State, frame: bytes, k: nat, ch: Channel)
    requires EnquiryFrame(frame, k)
    ensures var frames := UniNSpec.Handle(cfg, n, frame, ch).1.frames;
            frames == [] || (|frames| == 1 && Quotes(frames[0], SeqOf(k + 1)))
  {
    ParsedNumber(frame);
    var n1, report := UniNSpec.HandleTransmits(cfg, n, frame, ch);
    TransmitQuotes(cfg, n1, report, ch);
  }

  // ---- the invariant ----

  lemma BuiltEnquiry(cfg: UniCSpec.Config, c: Core, a: Act, c2: Core, o: Output)
    requires Moves(cfg, c, a, c2, o)
    ensures c2.sentSeq == if o.built == [] then c.sentSeq else NextSeq(c.sentSeq)
    ensures |o.built| <= 1 && (o.built == [] || EnquiryOctets(o.built[0], At(o.built[0], 4), c2.sentSeq))
  {
  }

  lemma CustomerMoves(cc: UniCSpec.Config, c: Core, a: Act, c2: Core, o: Output, enquiries: seq<bytes>)
    requires c.sentSeq == SeqOf(|enquiries|) && Moves(cc, c, a, c2, o)
    ensures c2.sentSeq == SeqOf(|enquiries + o.built|)
    ensures forall k | |enquiries| <= k < |enquiries + o.built| :: EnquiryFrame((enquiries + o.built)[k], k)
  {
    BuiltEnquiry(cc, c, a, c2, o);
    NextSeqOf(|enquiries|);
  }

  lemma MoreEnquiries(x: Net, c2: UniCSpec.State, built: seq<bytes>)
    requires NetInv(x) && c2.sentSeq == SeqOf(|x.enquiries + built|)
    requires forall k | |x.enquiries| <= k < |x.enquiries + built| :: EnquiryFrame((x.enquiries + built)[k], k)
    ensures NetInv(x.(c := c2, enquiries := x.enquiries + built))
  {
  }

  lemma NetStepKeeps(cc: UniCSpec.Config, cn: UniNSpec.Config, x: Net, e: NetEvent)
    requires NetInv(x)
    ensures NetInv(NetStep(cc, cn, x, e))
  {
    hide UniCSpec.Handle, UniCSpec.PollExpiry;
    match e {
      case Poll(ch) =>
        var (c, o) := PollExpiry(cc, x.c, ch);
        var a := StepIsCoreStep(cc, x.c, Expiry(ch));
        CustomerMoves(cc, CoreOf(x.c), a, CoreOf(c), o, x.enquiries);
        MoreEnquiries(x, c, o.built);
      case Verify =>
      case ToProvider(k, ch) =>
        if k < |x.enquiries| {
          AnswerQuotes(cn, x.n, x.enquiries[k], k, ch);
        }
      case ToCustomer(k, ch) =>
        if k < |x.replies| {
          var (c, o) := UniCSpec.Handle(cc, x.c, x.replies[k].frame, ch);
          var a := StepIsCoreStep(cc, x.c, Arrival(x.replies[k].frame, ch));
          CustomerMoves(cc, CoreOf(x.c), a, CoreOf(c), o, x.enquiries);
          MoreEnquiries(x, c, o.built);
        }
      case Provision(db, di) =>
    }
  }

  lemma NetStartHolds(cc: UniCSpec.Config, learnt: Learnt, ch: Channel, db: Database)
    ensures NetInv(NetStart(cc, learnt, ch, db))
  {
    var s := UniCSpec.State(learnt, 0, 0, 0, 0, false, false, REPORT_INVALID, cc.n391, Hysteresis.INITIAL);
    TransmitIsAsk(s, REPORT_FULL_STATUS, ch);
  }

  lemma {:induction false} NetInvAfter(cc: UniCSpec.Config, cn: UniNSpec.Config, x: Net, es: seq<NetEvent>)
    requires NetInv(x)
    ensures NetInv(NetAfter(cc, cn, x, es))
  {
    if es != [] {
      NetInvAfter(cc, cn, x, es[..|es| - 1]);
      NetStepKeeps(cc, cn, NetAfter(cc, cn, x, es[..|es| - 1]), es[|es| - 1]);
    }
  }

  // ---- acceptance ----

  /** Responses that carry sequence numbers. */
  predicate Numbered(report: u8) {
    report in {REPORT_FULL_STATUS, REPORT_ECHECK, REPORT_FULL_STATUS_CONTD}
  }

  /** UNI-C accepts a numbered response only if it quotes the number of the latest enquiry. */
  lemma AcceptedQuotes(cc: UniCSpec.Config, c: UniCSpec.State, frame: bytes, rcvd: u8, ch: Channel)
    requires Quotes(frame, rcvd)
    ensures var o := UniCSpec.Handle(cc, c, frame, ch).1;
            o.accepted.Some? && Numbered(o.accepted.value) ==> rcvd == c.sentSeq
  {
    var v := Validate(frame, c.requestSent, c.lastRequest);
    if v.Some? && Numbered(v.value.0) && rcvd != c.sentSeq {
      assert v.value.1 == 5;
      assert ParseSeqDi(frame, 5, c.sentSeq) == None;
    }
  }

  lemma SameNumber(a: nat, b: nat)
    requires SeqOf(a + 1) == SeqOf(b + 1)
    ensures a % 255 == b % 255
    ensures a <= b < a + 255 ==> a == b
  {
  }

  /** If a numbered response was accepted, the enquiry it answers is congruent to the latest one modulo 255,
      hence the latest itself unless it lies 255 or more enquiries back. */
  predicate AnswersLatest(accepted: Option<u8>, to: nat, latest: int) {
    accepted.Some? && Numbered(accepted.value) ==>
      to <= latest && to % 255 == latest % 255 && (latest - to < 255 ==> to == latest)
  }

  lemma AcceptedIsLatest(cc: UniCSpec.Config, x: Net, k: nat, ch: Channel)
    requires NetInv(x) && k < |x.replies|
    ensures AnswersLatest(UniCSpec.Handle(cc, x.c, x.replies[k].frame, ch).1.accepted,
                          x.replies[k].to, |x.enquiries| - 1)
  {
    hide UniCSpec.Handle, SeqOf;
    var o := UniCSpec.Handle(cc, x.c, x.replies[k].frame, ch).1;
    AcceptedQuotes(cc, x.c, x.replies[k].frame, SeqOf(x.replies[k].to + 1), ch);
    if o.accepted.Some? && Numbered(o.accepted.value) {
      SameNumber(x.replies[k].to, |x.enquiries| - 1);
    }
  }

  /** Sequence safety, over any channel and any history. */
  lemma SequenceSafety(cc: UniCSpec.Config, cn: UniNSpec.Config, learnt: Learnt, up: Channel, db: Database,
                       es: seq<NetEvent>, x: Net, k: nat, ch: Channel)
    requires x == NetAfter(cc, cn, NetStart(cc, learnt, up, db), es) && k < |x.replies|
    ensures AnswersLatest(UniCSpec.Handle(cc, x.c, x.replies[k].frame, ch).1.accepted,
                          x.replies[k].to, |x.enquiries| - 1)
  {
    NetStartHolds(cc, learnt, up, db);
    NetInvAfter(cc, cn, NetStart(cc, learnt, up, db), es);
    AcceptedIsLatest(cc, x, k, ch);
  }
}
