/** The provider through a whole exchange: what the frames it sends carry, for every orderly database. */
module Serving {
  import opened Octets
  import opened Wire
  import opened UniNSpec
  import opened RoundTrip
  import opened Fragmentation
  import opened Cuts

  // ---- one answer ----

  const OPEN := Channel(true, true)

  function RequestAt(k: nat): u8 {
    if k == 0 then REPORT_FULL_STATUS else REPORT_FULL_STATUS_CONTD
  }

  /** UNI-N stands ready to answer the request for the elements from k on. */
  ghost predicate ServesFrom(n: UniNSpec.State, db: Database, k: nat) {
    n.db == db && (k > 0 ==> k < Total(db) && n.cur.(continued := true) == CursorAt(db, k))
  }

  /** The frame carrying an answer. */
  function Encoded(db: Database, a: Answer, sent: u8, rcvd: u8, di: u32): bytes
    requires a.payload.hasUni ==> db.uni.Some?
  {
    Pad(Header(MSG_STATUS, a.report, sent, rcvd, di) + PayloadOctets(db, a.payload))
  }

  /** The frame carrying the planned answer. */
  function AnswerFrame(db: Database, k: nat, sent: u8, rcvd: u8, di: u32): bytes
    requires k <= Total(db)
  {
    Encoded(db, Planned(db, k), sent, rcvd, di)
  }

  lemma AnswerTransmitted(cfg: UniNSpec.Config, n: UniNSpec.State, db: Database, report: u8, p: Payload, cur: Cursor)
    requires n.db == db && report != REPORT_ECHECK && Compose(db, n.cur, report) == (p, cur)
    requires p.hasUni ==> db.uni.Some?
    ensures var (n2, o) := UniNSpec.Transmit(cfg, n, report, OPEN);
            && o.frames == [Pad(Header(MSG_STATUS, report, NextSeq(n.sentSeq), n.rcvdSeq, n.dataInstance)
                                + PayloadOctets(db, p))]
            && n2.db == db && n2.dataInstance == n.dataInstance && n2.sentSeq == NextSeq(n.sentSeq) && n2.cur == cur
  {
    assert Build(n, report).1 == n.(sentSeq := NextSeq(n.sentSeq), cur := cur);
  }

  lemma FirstSent(cfg: UniNSpec.Config, n: UniNSpec.State, db: OrderlyDb, seqNum: u8, data: bytes)
    requires n.db == db && ParseEnquiry(data) == Some((REPORT_FULL_STATUS, seqNum))
    ensures var (n2, o) := UniNSpec.Handle(cfg, n, data, OPEN);
            && o.frames == [AnswerFrame(db, 0, NextSeq(n.sentSeq), seqNum, n.dataInstance)]
            && n2.db == db && n2.dataInstance == n.dataInstance && n2.sentSeq == NextSeq(n.sentSeq)
            && n2.cur == FirstAnswer(db).1
  {
    FirstFollowsPlan(db);
    var n1 := n.(rcvdSeq := seqNum, rcvdResponse := true, cur := START);
    AnswerTransmitted(cfg, n1, db, AnswerToFull(db), Planned(db, 0).payload, FirstAnswer(db).1);
  }

  lemma ContdDispatched(cfg: UniNSpec.Config, n: UniNSpec.State, seqNum: u8, data: bytes)
    requires ParseEnquiry(data) == Some((REPORT_FULL_STATUS_CONTD, seqNum))
    ensures UniNSpec.Handle(cfg, n, data, OPEN)
         == UniNSpec.Transmit(cfg, n.(rcvdSeq := seqNum, rcvdResponse := true, cur := n.cur.(continued := true)),
                              AnswerToContd(n.db, n.cur), OPEN)
  {
  }

  lemma NextSent(cfg: UniNSpec.Config, n: UniNSpec.State, db: OrderlyDb, k: nat, seqNum: u8, data: bytes)
    requires n.db == db && ParseEnquiry(data) == Some((REPORT_FULL_STATUS_CONTD, seqNum))
    requires 0 < k < Total(db) && n.cur.(continued := true) == CursorAt(db, k)
    ensures var (n2, o) := UniNSpec.Handle(cfg, n, data, OPEN);
            && o.frames == [AnswerFrame(db, k, NextSeq(n.sentSeq), seqNum, n.dataInstance)]
            && n2.db == db && n2.dataInstance == n.dataInstance && n2.sentSeq == NextSeq(n.sentSeq)
            && n2.cur == NextAnswer(db, n.cur).1
  {
    NextFollowsPlan(db, n.cur, k);
    ContdDispatched(cfg, n, seqNum, data);
    var n1 := n.(rcvdSeq := seqNum, rcvdResponse := true, cur := n.cur.(continued := true));
    AnswerTransmitted(cfg, n1, db, AnswerToContd(db, n.cur), Planned(db, k).payload, NextAnswer(db, n.cur).1);
  }

  /** UNI-N continues an exchange with what the cursor makes of its present database. */
  lemma ResumedSent(cfg: UniNSpec.Config, n: UniNSpec.State, db: OrderlyDb, cur: Cursor, seqNum: u8, data: bytes)
    requires n.db == db && ParseEnquiry(data) == Some((REPORT_FULL_STATUS_CONTD, seqNum))
    requires cur == n.cur.(continued := true) && NextAnswer(db, cur).0.report != REPORT_ECHECK
    requires NextAnswer(db, cur).0.payload.hasUni ==> db.uni.Some?
    ensures var (n2, o) := UniNSpec.Handle(cfg, n, data, OPEN);
            && o.frames == [Encoded(db, NextAnswer(db, cur).0, NextSeq(n.sentSeq), seqNum, n.dataInstance)]
            && n2.db == db && n2.dataInstance == n.dataInstance && n2.cur == NextAnswer(db, cur).1
  {
    hide UniNSpec.Handle, Compose, Remaining, UniNSpec.Transmit, ParseEnquiry;
    ContdDispatched(cfg, n, seqNum, data);
    assert Remaining(db, n.cur) == Remaining(db, cur) by {
      RemainingSame(db, n.cur);
    }
    var n1, a := n.(rcvdSeq := seqNum, rcvdResponse := true, cur := cur), NextAnswer(db, cur);
    AnswerTransmitted(cfg, n1, db, a.0.report, a.0.payload, a.1);
  }

  lemma RemainingSame(db: Database, cur: Cursor)
    ensures Remaining(db, cur) == Remaining(db, cur.(continued := true))
  {
  }

  /** UNI-N sends the planned answer and is then ready for what follows it. */
  lemma AnswerSent(cfg: UniNSpec.Config, n: UniNSpec.State, db: OrderlyDb, k: nat, sent: u8, rcvd: u8, di: u32)
    requires ServesFrom(n, db, k) && sent != 0
    ensures var (n2, o) := UniNSpec.Handle(cfg, n, Enquiry(RequestAt(k), sent, rcvd, di), OPEN);
            && o.frames == [AnswerFrame(db, k, NextSeq(n.sentSeq), sent, n.dataInstance)]
            && n2.db == db && n2.dataInstance == n.dataInstance && n2.sentSeq == NextSeq(n.sentSeq)
            && (Planned(db, k).report == REPORT_FULL_STATUS_CONTD ==> ServesFrom(n2, db, k + PlannedCount(db, k)))
  {
    var data := Enquiry(RequestAt(k), sent, rcvd, di);
    EnquiryRoundTrip(RequestAt(k), sent, rcvd, di);
    if k == 0 {
      FirstFollowsPlan(db);
      FirstSent(cfg, n, db, sent, data);
    } else {
      NextFollowsPlan(db, n.cur, k);
      NextSent(cfg, n, db, k, sent, data);
    }
  }

  // ---- all answers ----

  /** What an enquiry carries besides its report type. */
  datatype Numbers = Numbers(sent: u8, rcvd: u8, di: u32)

  /** UNI-N handles the enquiries from number i on: a FULL_STATUS enquiry first, then FULL_STATUS_CONTD enquiries. */
  function Served(cfg: UniNSpec.Config, n: UniNSpec.State, qs: seq<Numbers>, i: nat): seq<bytes>
    requires i <= |qs|
    decreases |qs| - i
  {
    if i == |qs| then []
    else
      var (n2, o) := UniNSpec.Handle(cfg, n, Enquiry(RequestAt(i), qs[i].sent, qs[i].rcvd, qs[i].di), OPEN);
      o.frames + Served(cfg, n2, qs, i + 1)
  }

  ghost predicate UniKnown(db: Database, xs: seq<Answer>) {
    forall i | 0 <= i < |xs| :: xs[i].payload.hasUni ==> db.uni.Some?
  }

  ghost predicate AllNumbered(qs: seq<Numbers>) {
    forall i | 0 <= i < |qs| :: qs[i].sent != 0
  }

  /** UNI-N's own number on the (j+1)-th frame after the one numbered `last`. */
  function NumberAfter(last: u8, j: nat): u8 {
    NextSeq(if j == 0 then last else NumberAfter(last, j - 1))
  }

  /** Answers as frames: consecutive numbers of UNI-N's own, each quoting its enquiry's. */
  ghost function AllEncoded(db: Database, xs: seq<Answer>, last: u8, qs: seq<Numbers>, di: u32): (fs: seq<bytes>)
    requires |xs| == |qs| && UniKnown(db, xs)
    ensures |fs| == |xs|
    ensures forall i | 0 <= i < |fs| :: fs[i] == Encoded(db, xs[i], NumberAfter(last, i), qs[i].sent, di)
  {
    seq(|xs|, i requires 0 <= i < |xs| => Encoded(db, xs[i], NumberAfter(last, i), qs[i].sent, di))
  }

  lemma {:induction false} PlanHasUni(db: OrderlyDb, k: nat)
    requires k < Total(db) || k == 0
    ensures UniKnown(db, Plan(db, k))
    decreases Total(db) - k
  {
    if Planned(db, k).report != REPORT_FULL_STATUS {
      PlanLeavesRest(db, k);
      PlanHasUni(db, k + PlannedCount(db, k));
    }
  }

  lemma PlanFrom(db: OrderlyDb, k: nat, xs: seq<Answer>, i: nat) returns (k2: nat)
    requires (k < Total(db) || k == 0) && i < |xs| && xs[i..] == Plan(db, k)
    ensures xs[i] == Planned(db, k)
    ensures if xs[i].report == REPORT_FULL_STATUS then |xs| == i + 1
            else xs[i].report == REPORT_FULL_STATUS_CONTD && k2 == k + PlannedCount(db, k) && k < k2 < Total(db)
                 && i + 1 < |xs| && xs[i + 1..] == Plan(db, k2)
  {
    k2 := NextIndex(db, k);
    if Planned(db, k).report != REPORT_FULL_STATUS {
      PlanLeavesRest(db, k);
      PlanIs(db, k, k2);
      assert xs[i..][1..] == xs[i + 1..];
    }
  }

  /** Where an exchange stands when its first i answers, those of the elements before k, have gone out. */
  ghost predicate Underway(n: UniNSpec.State, db: OrderlyDb, k: nat, xs: seq<Answer>, i: nat) {
    && (i == 0 <==> k == 0) && ServesFrom(n, db, k) && (k < Total(db) || k == 0)
    && i < |xs| && xs[i..] == Plan(db, k)
  }

  lemma ServedFirst(cfg: UniNSpec.Config, n: UniNSpec.State, qs: seq<Numbers>, i: nat, n2: UniNSpec.State, frame: bytes)
    requires i < |qs|
    requires UniNSpec.Handle(cfg, n, Enquiry(RequestAt(i), qs[i].sent, qs[i].rcvd, qs[i].di), OPEN).0 == n2
    requires UniNSpec.Handle(cfg, n, Enquiry(RequestAt(i), qs[i].sent, qs[i].rcvd, qs[i].di), OPEN).1.frames == [frame]
    ensures Served(cfg, n, qs, i) == [frame] + Served(cfg, n2, qs, i + 1)
  {
  }

  /** One enquiry of an exchange served. */
  lemma ServedStep(cfg: UniNSpec.Config, n: UniNSpec.State, db: OrderlyDb, k: nat, xs: seq<Answer>, i: nat,
                   qs: seq<Numbers>)
      returns (n2: UniNSpec.State, k2: nat)
    requires Underway(n, db, k, xs, i) && |qs| == |xs| && qs[i].sent != 0 && UniKnown(db, xs)
    ensures n2.sentSeq == NextSeq(n.sentSeq) && n2.dataInstance == n.dataInstance
    ensures Served(cfg, n, qs, i)
         == [Encoded(db, xs[i], NextSeq(n.sentSeq), qs[i].sent, n.dataInstance)] + Served(cfg, n2, qs, i + 1)
    ensures i + 1 == |xs| || (k2 > k && Underway(n2, db, k2, xs, i + 1))
  {
    k2 := PlanFrom(db, k, xs, i);
    AnswerSent(cfg, n, db, k, qs[i].sent, qs[i].rcvd, qs[i].di);
    n2 := UniNSpec.Handle(cfg, n, Enquiry(RequestAt(i), qs[i].sent, qs[i].rcvd, qs[i].di), OPEN).0;
    ServedFirst(cfg, n, qs, i, n2, AnswerFrame(db, k, NextSeq(n.sentSeq), qs[i].sent, n.dataInstance));
  }

  lemma Unslice<T>(all: seq<T>, i: nat, x: T, tail: seq<T>)
    requires i < |all| && x == all[i] && tail == all[i + 1..]
    ensures [x] + tail == all[i..]
  {
  }

  /** From the answer that starts at element k to the end, `all` being the answers as frames. */
  lemma {:induction false} ServedFrom(cfg: UniNSpec.Config, n: UniNSpec.State, db: OrderlyDb, k: nat, xs: seq<Answer>,
                                      i: nat, qs: seq<Numbers>, last: u8, all: seq<bytes>, z: seq<bytes>)
    requires Underway(n, db, k, xs, i) && |qs| == |xs| && AllNumbered(qs) && UniKnown(db, xs)
    requires NextSeq(n.sentSeq) == NumberAfter(last, i) && all == AllEncoded(db, xs, last, qs, n.dataInstance)
    requires z == Served(cfg, n, qs, i)
    ensures z == all[i..]
    decreases |xs| - i
  {
    var n2, k2 := ServedStep(cfg, n, db, k, xs, i, qs);
    var frame, tail := Encoded(db, xs[i], NextSeq(n.sentSeq), qs[i].sent, n.dataInstance), Served(cfg, n2, qs, i + 1);
    if i + 1 < |xs| {
      ServedFrom(cfg, n2, db, k2, xs, i + 1, qs, last, all, tail);
    }
    Unslice(all, i, frame, tail);
  }

  lemma {:induction false} PlanRegular(db: OrderlyDb, k: nat)
    requires k < Total(db) || k == 0
    ensures forall i | 0 <= i < |Plan(db, k)| :: AllRegular(Plan(db, k)[i].payload.items)
    decreases Total(db) - k
  {
    PlannedRegular(db, k);
    if Planned(db, k).report != REPORT_FULL_STATUS {
      PlanLeavesRest(db, k);
      PlanRegular(db, k + PlannedCount(db, k));
    }
  }

  lemma PlannedRegular(db: OrderlyDb, k: nat)
    requires k <= Total(db)
    ensures AllRegular(Planned(db, k).payload.items)
  {
    SliceRegular(Items(db), k, PlannedCount(db, k));
  }

  lemma SliceRegular(items: seq<Ie>, k: nat, n: nat)
    requires AllRegular(items) && k + n <= |items|
    ensures AllRegular(items[k..][..n])
  {
  }

  lemma EncodedSize(db: Database, a: Answer, sent: u8, rcvd: u8, di: u32)
    requires (a.payload.hasUni ==> db.uni.Some?) && AllRegular(a.payload.items) && WellFilled(db, a)
    ensures MIN_PACKET <= |Encoded(db, a, sent, rcvd, di)| <= MAX_PACKET
    ensures At(Encoded(db, a, sent, rcvd, di), 4) == a.report
  {
    var head := Header(MSG_STATUS, a.report, sent, rcvd, di);
    var x := head + PayloadOctets(db, a.payload);
    FrameSize(db, a, head);
    assert head[4] == a.report && x[4] == head[4] && Pad(x)[4] == x[4];
  }

  /** Frame i of an exchange of `count` frames. */
  predicate WireFormat(frames: seq<bytes>, i: nat, count: nat) {
    && |frames| == count && i < count && MIN_PACKET <= |frames[i]| <= MAX_PACKET
    && At(frames[i], 4) == if i == count - 1 then REPORT_FULL_STATUS else REPORT_FULL_STATUS_CONTD
  }

  /** The planned answers are such that their frames have the sizes and report types of an exchange. */
  lemma PlanShape(db: OrderlyDb, xs: seq<Answer>, i: nat)
    requires xs == Plan(db, 0) && i < |xs|
    ensures AllRegular(xs[i].payload.items) && WellFilled(db, xs[i])
    ensures xs[i].report == if i == |xs| - 1 then REPORT_FULL_STATUS else REPORT_FULL_STATUS_CONTD
  {
    PlanCloses(db, 0);
    PlanRegular(db, 0);
    PlanWellFilled(db, 0);
  }

  /** On the wire, for every orderly database and any enquiry numbers: UNI-N answers a FULL_STATUS enquiry and the
      continued enquiries after it with frames of 46 to 1500 octets, all but the last of type FULL_STATUS_CONTD, that
      carry every EVC once and then every map once, in ascending order of reference id. */
  lemma ExchangeOnTheWire(cfg: UniNSpec.Config, n: UniNSpec.State, db: OrderlyDb, qs: seq<Numbers>, xs: seq<Answer>)
    requires n.db == db && xs == Plan(db, 0) && |qs| == |xs| && AllNumbered(qs)
    ensures UniKnown(db, xs) && Served(cfg, n, qs, 0) == AllEncoded(db, xs, n.sentSeq, qs, n.dataInstance)
    ensures Carried(xs) == EvcItems(db.evcs) + MapItems(db.maps)
    ensures forall i | 0 <= i < |xs| :: WireFormat(Served(cfg, n, qs, 0), i, |xs|)
  {
    PlanHasUni(db, 0);
    assert xs[0..] == xs;
    var all, z := AllEncoded(db, xs, n.sentSeq, qs, n.dataInstance), Served(cfg, n, qs, 0);
    ServedFrom(cfg, n, db, 0, xs, 0, qs, n.sentSeq, all, z);
    assert all[0..] == all;
    ExactlyOnce(db);
    forall i | 0 <= i < |xs|
      ensures WireFormat(z, i, |xs|)
    {
      PlanShape(db, xs, i);
      EncodedSize(db, xs[i], NumberAfter(n.sentSeq, i), qs[i].sent, n.dataInstance);
    }
  }

  // ---- a periodic check in between ----

  /** A check is answered by a bare header, at any point of an exchange. The database and the kind of the last element
      are kept; only the last reference id sent is forgotten. */
  lemma CheckForgets(cfg: UniNSpec.Config, n: UniNSpec.State, seqNum: u8, data: bytes)
    requires ParseEnquiry(data) == Some((REPORT_ECHECK, seqNum))
    ensures var (n2, o) := UniNSpec.Handle(cfg, n, data, OPEN);
            && |o.frames| == 1 && |o.frames[0]| == 46 && At(o.frames[0], 4) == 1
            && (forall i | 16 <= i < 46 :: o.frames[0][i] == 0)
            && n2.db == n.db && n2.dataInstance == n.dataInstance && n2.cur == n.cur.(lastEvcId := 0)
            && n2.rcvdSeq == seqNum
  {
  }

  /** So a continued enquiry behind it starts over: with the UNI Status element in every frame that leaves a rest, and
      with the EVCs from the first one on if the exchange had not come to the maps, else with the maps from the first
      one on and no EVC at all. */
  lemma CheckRestarts(db: Database, cur: Cursor)
    requires cur.continued && cur.lastEvcId == 0
    ensures var all := if cur.lastIe == 1 then Items(db) else MapItems(db.maps);
            && Compose(db, cur, REPORT_FULL_STATUS_CONTD).0.items <= all
            && Compose(db, cur, REPORT_FULL_STATUS_CONTD).0.hasUni == db.uni.Some?
            && !Compose(db, cur, REPORT_FULL_STATUS).0.hasUni
  {
    hide Take, Items, Beyond;
    var es := EvcsPending(db, cur);
    var room := Room(db, db.uni.Some?);
    var n := Take(es, room);
    var all := if cur.lastIe == 1 then Items(db) else MapItems(db.maps);
    assert Compose(db, cur, REPORT_FULL_STATUS_CONTD).0.items <= all by {
      if n < |es| {
        assert es == EvcItems(db.evcs);
        EvcsFirst(db, n);
      } else {
        var ms := MapItems(db.maps);
        assert MapsPending(db, cur) == ms;
        var m := Take(ms, room - TotalLength(es[..n]));
        assert Compose(db, cur, REPORT_FULL_STATUS_CONTD).0.items == es[..n] + ms[..m];
        if cur.lastIe == 1 {
          MapsNext(db, m);
        } else {
          assert es[..n] + ms[..m] == ms[..m];
        }
      }
    }
  }

  lemma EvcsFirst(db: Database, n: nat)
    requires n <= |db.evcs|
    ensures EvcItems(db.evcs)[..n] <= Items(db)
  {
  }

  lemma MapsNext(db: Database, m: nat)
    requires m <= |db.maps|
    ensures EvcItems(db.evcs)[..|db.evcs|] + MapItems(db.maps)[..m] <= Items(db)
  {
    assert EvcItems(db.evcs)[..|db.evcs|] == EvcItems(db.evcs);
  }
}
