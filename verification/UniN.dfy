/** The provider side as the port object elmi_uni_n.c, elmi_timer.c and elmi_port.c work on. */
module UniN {
  import opened Octets
  import opened Tlv
  import opened VlanBitmap
  import opened Wire
  import opened Hysteresis
  import opened UniNSpec
  import opened Encoders
  import opened DatabaseOps
  import Bandwidth
  import Greedy

  // ---- the filter and the room check, one list element at a time ----

  /** The elements still to be sent when the cursor stands at `start`; 0 stands for the beginning. */
  function Unsent(items: seq<Ie>, start: u16): seq<Ie> {
    if start == 0 then items else Beyond(items, start)
  }

  lemma UnsentStep(items: seq<Ie>, i: nat, start: u16)
    requires i < |items|
    ensures Unsent(items[i..], start) == if start != 0 && RefOf(items[i]) <= start then Unsent(items[i + 1..], start)
                                         else [items[i]] + Unsent(items[i + 1..], start)
  {
    assert items[i..][0] == items[i] && items[i..][1..] == items[i + 1..];
    assert items[i..] == [items[i]] + items[i + 1..];
    assert [] + Unsent(items[i + 1..], start) == Unsent(items[i + 1..], start);
  }

  lemma TakeStep(x: Ie, rest: seq<Ie>, room: nat)
    ensures Take([x] + rest, room) == if x.Length() > room then 0 else 1 + Take(rest, room - x.Length())
  {
    assert Sizes([x] + rest)[1..] == Sizes(rest);
  }

  lemma FlattenSnoc(sent: seq<Ie>, x: Ie)
    ensures Flatten(sent + [x]) == Flatten(sent) + x.Octets()
  {
    FlattenAppend(sent, [x]);
    assert [x][1..] == [];
    assert Flatten([x]) == x.Octets();
  }

  /** How far an encoding loop has come: `sent` has been written, `rest` is still in the list. */
  ghost predicate Progress(all: seq<Ie>, sent: seq<Ie>, rest: seq<Ie>, room: nat, left: nat, last: u16) {
    && all == sent + rest
    && Take(all, room) == |sent| + Take(rest, left)
    && last == (if sent == [] then 0 else RefOf(sent[|sent| - 1]))
  }

  lemma Written(all: seq<Ie>, sent: seq<Ie>, rest: seq<Ie>, room: nat, left: nat, last: u16,
                x: Ie, rest2: seq<Ie>, left2: nat, last2: u16)
    requires Progress(all, sent, rest, room, left, last) && rest == [x] + rest2
    requires left2 == left - x.Length() && last2 == RefOf(x)
    ensures Progress(all, sent + [x], rest2, room, left2, last2)
  {
    TakeStep(x, rest2, left);
    Reassociate(sent, x, rest2);
  }

  lemma Reassociate(sent: seq<Ie>, x: Ie, rest: seq<Ie>)
    ensures sent + ([x] + rest) == sent + [x] + rest && (sent + [x])[|sent + [x]| - 1] == x
  {
  }

  lemma Stopped(all: seq<Ie>, sent: seq<Ie>, rest: seq<Ie>, room: nat, left: nat, last: u16)
    requires Progress(all, sent, rest, room, left, last)
    requires rest == [] || rest[0].Length() > left
    ensures Take(all, room) == |sent| && all[..|sent|] == sent
  {
    if rest != [] {
      assert rest == [rest[0]] + rest[1..];
      TakeStep(rest[0], rest[1..], left);
    }
  }

  // ---- the cursor's filters in terms of Unsent ----

  /** What a list encoder leaves in the cursor is where the answer was cut. */
  lemma CutIs(cur: Cursor, all: seq<Ie>, n: nat, ie: u8, full: bool, last: u16)
    requires n <= |all| && full == (n < |all|) && last == (if n == 0 then 0 else RefOf(all[n - 1]))
    ensures CutAfter(cur, all, n, ie) == if full then cur.(lastIe := ie, lastEvcId := last) else cur
  {
  }

  lemma PendingIsUnsent(db: Database, cur: Cursor)
    ensures EvcsPending(db, cur)
         == if cur.continued && cur.lastIe != LAST_IE_EVC then []
            else Unsent(EvcItems(db.evcs), if cur.continued && cur.lastIe == LAST_IE_EVC then cur.lastEvcId else 0)
    ensures MapsPending(db, cur) == Unsent(MapItems(db.maps), if cur.lastIe == LAST_IE_MAP then cur.lastEvcId else 0)
  {
  }

  /** The four parts of an answer. */
  lemma Assembled(head: bytes, u: bytes, a: seq<Ie>, b: seq<Ie>)
    ensures head + u + Flatten(a) + Flatten(b) == head + (u + Flatten(a + b))
  {
    FlattenAppend(a, b);
    Concat3(head, u, Flatten(a), Flatten(b));
    Concat2(u, Flatten(a), Flatten(b));
  }

  lemma {:induction false} BeyondRegular(items: seq<Ie>, id: u16)
    requires AllRegular(items)
    ensures AllRegular(Beyond(items, id))
  {
    if items != [] {
      BeyondRegular(items[1..], id);
    }
  }

  lemma PendingRegular(db: Database, cur: Cursor)
    requires AllRegular(EvcItems(db.evcs))
    ensures AllRegular(EvcsPending(db, cur))
  {
    BeyondRegular(EvcItems(db.evcs), cur.lastEvcId);
  }

  lemma TakenLength(items: seq<Ie>, n: nat)
    requires AllRegular(items) && n <= |items|
    ensures |Flatten(items[..n])| == TotalLength(items[..n])
  {
    FlattenLength(items[..n]);
  }

  function UniPart(db: Database, hasUni: bool): bytes {
    if hasUni && db.uni.Some? then UniIe(db) else []
  }

  lemma EvcsComposed(db: Database, cur: Cursor, report: u8, hasUni: bool, es: seq<Ie>, n: nat, cur1: Cursor)
    requires hasUni == HasUni(db, cur, report) && es == EvcsPending(db, cur) && n == Take(es, Room(db, hasUni))
    requires cur1 == CutAfter(cur, es, n, LAST_IE_EVC)
    ensures Compose(db, cur, report)
         == if report == REPORT_FULL_STATUS_CONTD && n < |es| then (Payload(hasUni, es[..n]), cur1)
                                        else ComposeMaps(db, cur1, report, hasUni, es[..n])
  {
  }

  lemma MapsComposed(db: Database, cur1: Cursor, report: u8, hasUni: bool, sent: seq<Ie>, ms: seq<Ie>, m: nat)
    requires TotalLength(sent) <= Room(db, hasUni) && ms == MapsPending(db, cur1)
    requires m == Take(ms, Room(db, hasUni) - TotalLength(sent))
    ensures ComposeMaps(db, cur1, report, hasUni, sent)
         == (Payload(hasUni, sent + ms[..m]),
             if report == REPORT_FULL_STATUS then START else CutAfter(cur1, ms, m, LAST_IE_MAP))
  {
  }

  /** The intermediate values of composing an answer: what is pending of each kind and how much of it fits. */
  datatype Composed = Composed(hasUni: bool, es: seq<Ie>, n: nat, cur1: Cursor, ms: seq<Ie>, m: nat)

  ghost function Composing(db: Database, cur: Cursor, report: u8): Composed {
    var hasUni, es := HasUni(db, cur, report), EvcsPending(db, cur);
    var n := Take(es, Room(db, hasUni));
    var cur1 := CutAfter(cur, es, n, LAST_IE_EVC);
    var ms := MapsPending(db, cur1);
    Composed(hasUni, es, n, cur1, ms, Take(ms, Room(db, hasUni) - TotalLength(es[..n])))
  }

  ghost predicate IsComposed(x: Composed, db: Database, cur: Cursor, report: u8) {
    && x.hasUni == HasUni(db, cur, report)
    && x.es == EvcsPending(db, cur) && x.n == Take(x.es, Room(db, x.hasUni))
    && x.cur1 == CutAfter(cur, x.es, x.n, LAST_IE_EVC)
    && x.ms == MapsPending(db, x.cur1) && x.m == Take(x.ms, Room(db, x.hasUni) - TotalLength(x.es[..x.n]))
  }

  lemma ComposedFull(x: Composed, db: Database, cur: Cursor, head: bytes)
    requires x == Composing(db, cur, REPORT_FULL_STATUS)
    ensures IsComposed(x, db, cur, REPORT_FULL_STATUS)
    ensures Compose(db, cur, REPORT_FULL_STATUS).1 == START
    ensures head + UniPart(db, x.hasUni) + Flatten(x.es[..x.n]) + Flatten(x.ms[..x.m])
         == head + PayloadOctets(db, Compose(db, cur, REPORT_FULL_STATUS).0)
  {
    FullIs(x, db, cur);
    PayloadParts(db, x.hasUni, x.es[..x.n], x.ms[..x.m], head);
  }

  lemma FullIs(x: Composed, db: Database, cur: Cursor)
    requires IsComposed(x, db, cur, REPORT_FULL_STATUS)
    ensures Compose(db, cur, REPORT_FULL_STATUS) == (Payload(x.hasUni, x.es[..x.n] + x.ms[..x.m]), START)
  {
    EvcsComposed(db, cur, REPORT_FULL_STATUS, x.hasUni, x.es, x.n, x.cur1);
    MapsComposed(db, x.cur1, REPORT_FULL_STATUS, x.hasUni, x.es[..x.n], x.ms, x.m);
  }

  lemma ContdIs(x: Composed, db: Database, cur: Cursor)
    requires IsComposed(x, db, cur, REPORT_FULL_STATUS_CONTD)
    ensures Compose(db, cur, REPORT_FULL_STATUS_CONTD)
         == if x.n < |x.es| then (Payload(x.hasUni, x.es[..x.n]), x.cur1)
            else (Payload(x.hasUni, x.es[..x.n] + x.ms[..x.m]), CutAfter(x.cur1, x.ms, x.m, LAST_IE_MAP))
  {
    EvcsComposed(db, cur, REPORT_FULL_STATUS_CONTD, x.hasUni, x.es, x.n, x.cur1);
    if x.n == |x.es| {
      MapsComposed(db, x.cur1, REPORT_FULL_STATUS_CONTD, x.hasUni, x.es[..x.n], x.ms, x.m);
    }
  }

  lemma ComposedContd(x: Composed, db: Database, cur: Cursor, head: bytes)
    requires x == Composing(db, cur, REPORT_FULL_STATUS_CONTD)
    ensures IsComposed(x, db, cur, REPORT_FULL_STATUS_CONTD)
    ensures Compose(db, cur, REPORT_FULL_STATUS_CONTD).1
         == if x.n < |x.es| then x.cur1 else CutAfter(x.cur1, x.ms, x.m, LAST_IE_MAP)
    ensures head + UniPart(db, x.hasUni) + Flatten(x.es[..x.n]) + (if x.n < |x.es| then [] else Flatten(x.ms[..x.m]))
         == head + PayloadOctets(db, Compose(db, cur, REPORT_FULL_STATUS_CONTD).0)
  {
    ContdIs(x, db, cur);
    if x.n < |x.es| {
      PayloadParts(db, x.hasUni, x.es[..x.n], [], head);
      assert x.es[..x.n] + [] == x.es[..x.n] && Flatten([]) == [];
    } else {
      PayloadParts(db, x.hasUni, x.es[..x.n], x.ms[..x.m], head);
    }
  }

  /** The frame and state of a Full Status answer from what has been written. */
  lemma BuiltIs(s: State, report: u8, contents: bytes, s2: State)
    requires report != REPORT_ECHECK
    requires contents == Header(MSG_STATUS, report, s2.sentSeq, s.rcvdSeq, s.dataInstance)
                         + PayloadOctets(s.db, Compose(s.db, s.cur, report).0)
    requires s2 == s.(sentSeq := NextSeq(s.sentSeq), cur := Compose(s.db, s.cur, report).1)
    ensures Build(s, report) == (Pad(contents), s2)
  {
  }

  lemma PayloadParts(db: Database, hasUni: bool, es: seq<Ie>, ms: seq<Ie>, head: bytes)
    requires hasUni ==> db.uni.Some?
    ensures head + UniPart(db, hasUni) + Flatten(es) + Flatten(ms) == head + PayloadOctets(db, Payload(hasUni, es + ms))
  {
    Assembled(head, UniPart(db, hasUni), es, ms);
  }

  lemma NothingTaken(room: nat)
    ensures Take([], room) == 0 && Flatten([]) == [] && TotalLength([]) == 0
  {
  }

  class Port {
    const cfg: Config
    var uni: Option<UniInfo>
    var level: u8
    var evcs: seq<Evc>
    var maps: seq<CvlanMap>
    var dataInstance: u32
    var continuedMsg: bool
    var lastEvcId: u16
    var lastIeType: u8
    var sentSeqNum: u8
    var recvdSendSeqNum: u8
    var rcvdResponse: bool
    var lastRequestType: u8
    var operational: bool
    var currentStatusCounter: int
    var rcntSuccess: u8

    function Db(): Database
      reads this
    {
      Database(uni, level, evcs, maps)
    }

    function Cur(): Cursor
      reads this
    {
      Cursor(continuedMsg, lastEvcId, lastIeType)
    }

    function HealthNow(): Health
      reads this
    {
      Health(operational, currentStatusCounter, rcntSuccess)
    }

    /** The port as a value. */
    function Abs(): State
      reads this
    {
      State(Db(), dataInstance, Cur(), sentSeqNum, recvdSendSeqNum, rcvdResponse, lastRequestType, HealthNow())
    }

    /** Every list element has an exact length code and fits one information element. */
    ghost predicate Regular()
      reads this
    {
      AllRegular(EvcItems(evcs)) && AllRegular(MapItems(maps))
    }

    /** elmi_api_enable_port on a UNI-N port. */
    constructor (config: Config, db: Database)
      ensures cfg == config && Abs() == Enabled(db)
    {
      cfg := config;
      uni, level, evcs, maps := db.uni, db.level, db.evcs, db.maps;
      dataInstance := 1;
      continuedMsg, lastEvcId, lastIeType := false, 0, 0;
      sentSeqNum, recvdSendSeqNum, rcvdResponse := 0, 0, false;
      lastRequestType := REPORT_INVALID;
      operational, currentStatusCounter, rcntSuccess := true, 0, 0;
    }

    /** elmi_encode_evc_status_tlv; `full` is the result ELMI_OK. The first n of the pending elements fit. */
    method EncodeEvcs(w: Writer, ghost es: seq<Ie>, ghost n: nat) returns (full: bool)
      requires w.Valid() && AllRegular(EvcItems(evcs))
      requires !continuedMsg || lastIeType == LAST_IE_EVC
      requires es == EvcsPending(Db(), Cur()) && n == Take(es, w.Size())
      modifies this`lastEvcId, this`lastIeType, w`pos, w.buf
      ensures w.Valid() && w.Contents() == old(w.Contents()) + Flatten(es[..n])
      ensures Cur() == CutAfter(old(Cur()), es, n, LAST_IE_EVC) && full == (n < |es|)
    {
      PendingIsUnsent(Db(), Cur());
      var last: u16;
      full, last := EncodeEvcList(w, evcs, if continuedMsg && lastIeType == LAST_IE_EVC then lastEvcId else 0, es, n);
      CutIs(Cur(), es, n, LAST_IE_EVC, full, last);
      if full {
        lastIeType, lastEvcId := LAST_IE_EVC, last;
      }
    }

    /** elmi_encode_cevlan_evc_map_tlv, for maps that fit one element each. */
    method EncodeMaps(w: Writer, ghost ms: seq<Ie>, ghost n: nat)
      requires w.Valid() && AllRegular(MapItems(maps))
      requires ms == MapsPending(Db(), Cur()) && n == Take(ms, w.Size())
      modifies this`lastEvcId, this`lastIeType, w`pos, w.buf
      ensures w.Valid() && w.Contents() == old(w.Contents()) + Flatten(ms[..n])
      ensures Cur() == CutAfter(old(Cur()), ms, n, LAST_IE_MAP)
    {
      PendingIsUnsent(Db(), Cur());
      var full, last := EncodeMapList(w, maps, if lastIeType == LAST_IE_MAP then lastEvcId else 0, ms, n);
      CutIs(Cur(), ms, n, LAST_IE_MAP, full, last);
      if full {
        lastIeType, lastEvcId := LAST_IE_MAP, last;
      }
    }

    /** Header, sequence numbers and data instance. */
    method EncodeCommon(w: Writer, report: u8)
      requires w.Valid() && w.Contents() == [] && w.Size() >= HEADER_LEN
      modifies this`sentSeqNum, w`pos, w.buf
      ensures w.Valid() && sentSeqNum == NextSeq(old(sentSeqNum))
      ensures w.Contents() == Header(MSG_STATUS, report, sentSeqNum, recvdSendSeqNum, dataInstance)
    {
      EncodeHeader(w, report);
      if sentSeqNum >= 255 {
        sentSeqNum := 0;
      }
      sentSeqNum := sentSeqNum + 1;
      EncodeSeqNumAndDi(w, sentSeqNum, recvdSendSeqNum, dataInstance);
    }

    method EncodeUni(w: Writer, wanted: bool)
      requires w.Valid() && w.Size() >= UniLength(Db())
      modifies w`pos, w.buf
      ensures w.Valid()
      ensures w.Contents() == old(w.Contents()) + UniPart(Db(), wanted && uni.Some?)
    {
      if wanted {
        EncodeUniStatus(w, Db());
      }
    }

    /** The part of the two Full Status messages between UNI Status and maps. */
    method EncodePendingEvcs(w: Writer, ghost es: seq<Ie>, ghost n: nat) returns (full: bool)
      requires w.Valid() && AllRegular(EvcItems(evcs))
      requires es == EvcsPending(Db(), Cur()) && n == Take(es, w.Size())
      modifies this`lastEvcId, this`lastIeType, w`pos, w.buf
      ensures w.Valid() && w.Contents() == old(w.Contents()) + Flatten(es[..n])
      ensures w.Size() == old(w.Size()) - TotalLength(es[..n])
      ensures Cur() == CutAfter(old(Cur()), es, n, LAST_IE_EVC) && full == (n < |es|)
    {
      PendingRegular(Db(), Cur());
      TakenLength(es, n);
      full := false;
      if !continuedMsg || lastIeType == LAST_IE_EVC {
        full := EncodeEvcs(w, es, n);
      } else {
        NothingTaken(w.Size());
        assert w.Contents() + [] == w.Contents();
      }
    }

    /** UNI Status in a FULL_STATUS message: only if no continued message went before. */
    method EncodeFirstUni(w: Writer, ghost hasUni: bool)
      requires w.Valid() && w.Size() == MAX_PACKET - HEADER_LEN && hasUni == HasUni(Db(), Cur(), REPORT_FULL_STATUS)
      modifies w`pos, w.buf
      ensures w.Valid() && w.Contents() == old(w.Contents()) + UniPart(Db(), hasUni)
      ensures w.Size() == Room(Db(), hasUni)
    {
      EncodeUni(w, !continuedMsg);
    }

    /** What elmi_unin_send_fullstatus_msg puts behind the header. */
    method FillFullStatus(w: Writer, ghost x: Composed)
      requires w.Valid() && w.Size() == MAX_PACKET - HEADER_LEN && Regular()
      requires IsComposed(x, Db(), Cur(), REPORT_FULL_STATUS)
      modifies this`lastEvcId, this`lastIeType, this`continuedMsg, w`pos, w.buf
      ensures w.Valid() && Cur() == START
      ensures w.Contents() == old(w.Contents()) + UniPart(Db(), x.hasUni) + Flatten(x.es[..x.n]) + Flatten(x.ms[..x.m])
    {
      hide EvcsPending, MapsPending, AllRegular, Take, CutAfter, Flatten, HasUni;
      EncodeFirstUni(w, x.hasUni);
      EncodeBoth(w, x);
      lastEvcId, lastIeType, continuedMsg := 0, 0, false;
    }

    /** EVCs, then maps whether or not all EVCs fitted. */
    method EncodeBoth(w: Writer, ghost x: Composed)
      requires w.Valid() && w.Size() == Room(Db(), x.hasUni) && Regular()
      requires IsComposed(x, Db(), Cur(), REPORT_FULL_STATUS)
      modifies this`lastEvcId, this`lastIeType, w`pos, w.buf
      ensures w.Valid() && w.Contents() == old(w.Contents()) + Flatten(x.es[..x.n]) + Flatten(x.ms[..x.m])
    {
      hide EvcsPending, MapsPending, AllRegular, Take, CutAfter, Flatten;
      var full := EncodePendingEvcs(w, x.es, x.n);
      EncodeMaps(w, x.ms, x.m);
    }

    /** What elmi_unin_send_fullstatus_contd_msg puts behind the header. */
    method FillFullStatusContd(w: Writer, ghost x: Composed)
      requires w.Valid() && w.Size() == MAX_PACKET - HEADER_LEN && Regular()
      requires IsComposed(x, Db(), Cur(), REPORT_FULL_STATUS_CONTD)
      modifies this`lastEvcId, this`lastIeType, w`pos, w.buf
      ensures w.Valid()
      ensures Cur() == if x.n < |x.es| then x.cur1 else CutAfter(x.cur1, x.ms, x.m, LAST_IE_MAP)
      ensures w.Contents() == old(w.Contents()) + UniPart(Db(), x.hasUni) + Flatten(x.es[..x.n])
                              + (if x.n < |x.es| then [] else Flatten(x.ms[..x.m]))
    {
      EncodeUni(w, lastEvcId == 0);
      EncodeInTurn(w, x, Room(Db(), x.hasUni));
    }

    /** EVCs, then maps if all EVCs fitted. */
    method EncodeInTurn(w: Writer, ghost x: Composed, ghost room: nat)
      requires w.Valid() && w.Size() == room && Regular()
      requires x.es == EvcsPending(Db(), Cur()) && x.n == Take(x.es, room)
      requires x.cur1 == CutAfter(Cur(), x.es, x.n, LAST_IE_EVC)
      requires x.ms == MapsPending(Db(), x.cur1) && x.m == Take(x.ms, room - TotalLength(x.es[..x.n]))
      modifies this`lastEvcId, this`lastIeType, w`pos, w.buf
      ensures w.Valid()
      ensures w.Contents()
           == old(w.Contents()) + Flatten(x.es[..x.n]) + (if x.n < |x.es| then [] else Flatten(x.ms[..x.m]))
      ensures Cur() == if x.n < |x.es| then x.cur1 else CutAfter(x.cur1, x.ms, x.m, LAST_IE_MAP)
    {
      var full := EncodePendingEvcs(w, x.es, x.n);
      EncodeMapsUnless(full, w, x.ms, x.m);
    }

    /** Maps follow only when all EVCs have been written. */
    method EncodeMapsUnless(full: bool, w: Writer, ghost ms: seq<Ie>, ghost n: nat)
      requires w.Valid() && AllRegular(MapItems(maps))
      requires ms == MapsPending(Db(), Cur()) && n == Take(ms, w.Size())
      modifies this`lastEvcId, this`lastIeType, w`pos, w.buf
      ensures w.Valid() && w.Contents() == old(w.Contents()) + (if full then [] else Flatten(ms[..n]))
      ensures Cur() == if full then old(Cur()) else CutAfter(old(Cur()), ms, n, LAST_IE_MAP)
    {
      if full {
        assert w.Contents() + [] == w.Contents();
      } else {
        EncodeMaps(w, ms, n);
      }
    }

    /** elmi_unin_send_fullstatus_msg */
    method SendFullStatus(w: Writer)
      requires w.Valid() && w.Contents() == [] && w.buf.Length == MAX_PACKET && Regular()
      modifies this`sentSeqNum, this`lastEvcId, this`lastIeType, this`continuedMsg, w`pos, w.buf
      ensures w.Valid() && sentSeqNum == NextSeq(old(sentSeqNum))
      ensures w.Contents() == Header(MSG_STATUS, REPORT_FULL_STATUS, sentSeqNum, recvdSendSeqNum, dataInstance)
                              + PayloadOctets(Db(), Compose(Db(), old(Cur()), REPORT_FULL_STATUS).0)
      ensures Cur() == Compose(Db(), old(Cur()), REPORT_FULL_STATUS).1
    {
      ghost var x := Composing(Db(), Cur(), REPORT_FULL_STATUS);
      EncodeCommon(w, REPORT_FULL_STATUS);
      ComposedFull(x, Db(), Cur(), w.Contents());
      FillFullStatus(w, x);
    }

    /** elmi_unin_send_fullstatus_contd_msg */
    method SendFullStatusContd(w: Writer)
      requires w.Valid() && w.Contents() == [] && w.buf.Length == MAX_PACKET && Regular()
      modifies this`sentSeqNum, this`lastEvcId, this`lastIeType, w`pos, w.buf
      ensures w.Valid() && sentSeqNum == NextSeq(old(sentSeqNum))
      ensures w.Contents() == Header(MSG_STATUS, REPORT_FULL_STATUS_CONTD, sentSeqNum, recvdSendSeqNum, dataInstance)
                              + PayloadOctets(Db(), Compose(Db(), old(Cur()), REPORT_FULL_STATUS_CONTD).0)
      ensures Cur() == Compose(Db(), old(Cur()), REPORT_FULL_STATUS_CONTD).1
    {
      ghost var x := Composing(Db(), Cur(), REPORT_FULL_STATUS_CONTD);
      EncodeCommon(w, REPORT_FULL_STATUS_CONTD);
      ComposedContd(x, Db(), Cur(), w.Contents());
      FillFullStatusContd(w, x);
    }

    /** elmi_unin_send_echeck_msg */
    method SendEcheck(w: Writer)
      requires w.Valid() && w.Contents() == [] && w.buf.Length == MAX_PACKET
      modifies this`sentSeqNum, this`lastEvcId, w`pos, w.buf
      ensures w.Valid() && sentSeqNum == NextSeq(old(sentSeqNum)) && lastEvcId == 0
      ensures w.Contents() == Header(MSG_STATUS, REPORT_ECHECK, sentSeqNum, recvdSendSeqNum, dataInstance)
    {
      EncodeCommon(w, REPORT_ECHECK);
      lastEvcId := 0;
    }

    // ---- transmission ----

    /** The octets of an answer, padded. */
    method BuildFrame(report: u8) returns (frame: bytes)
      requires report in {REPORT_FULL_STATUS, REPORT_ECHECK, REPORT_FULL_STATUS_CONTD}
      requires report == REPORT_ECHECK || Regular()
      modifies this`sentSeqNum, this`lastEvcId, this`lastIeType, this`continuedMsg
      ensures (frame, Abs()) == Build(old(Abs()), report)
    {
      var w := new Writer(MAX_PACKET);
      if report == REPORT_FULL_STATUS {
        frame := BuildFullStatus(w);
      } else if report == REPORT_ECHECK {
        frame := BuildEcheck(w);
      } else {
        frame := BuildFullStatusContd(w);
      }
    }

    method BuildFullStatus(w: Writer) returns (frame: bytes)
      requires w.Valid() && w.Contents() == [] && w.buf.Length == MAX_PACKET && Regular()
      modifies this`sentSeqNum, this`lastEvcId, this`lastIeType, this`continuedMsg, w`pos, w.buf
      ensures (frame, Abs()) == Build(old(Abs()), REPORT_FULL_STATUS)
    {
      ghost var s := Abs();
      SendFullStatus(w);
      BuiltIs(s, REPORT_FULL_STATUS, w.Contents(), Abs());
      EncodePadding(w);
      frame := w.buf[..w.pos];
    }

    method BuildFullStatusContd(w: Writer) returns (frame: bytes)
      requires w.Valid() && w.Contents() == [] && w.buf.Length == MAX_PACKET && Regular()
      modifies this`sentSeqNum, this`lastEvcId, this`lastIeType, w`pos, w.buf
      ensures (frame, Abs()) == Build(old(Abs()), REPORT_FULL_STATUS_CONTD)
    {
      ghost var s := Abs();
      SendFullStatusContd(w);
      BuiltIs(s, REPORT_FULL_STATUS_CONTD, w.Contents(), Abs());
      EncodePadding(w);
      frame := w.buf[..w.pos];
    }

    method BuildEcheck(w: Writer) returns (frame: bytes)
      requires w.Valid() && w.Contents() == [] && w.buf.Length == MAX_PACKET
      modifies this`sentSeqNum, this`lastEvcId, w`pos, w.buf
      ensures (frame, Abs()) == Build(old(Abs()), REPORT_ECHECK)
    {
      SendEcheck(w);
      EncodePadding(w);
      frame := w.buf[..w.pos];
    }

    /** An answer has gone out while the verification timer is enabled. */
    method CountAnswer() returns (notes: seq<bool>)
      modifies this`rcntSuccess, this`currentStatusCounter, this`operational
      ensures (HealthNow(), notes) == OnAccept(old(HealthNow()), cfg.n393)
    {
      notes := [];
      rcntSuccess := (rcntSuccess + 1) % 256;
      currentStatusCounter := 0;
      if rcntSuccess == cfg.n393 {
        if !operational {
          operational := true;
          notes := [true];
        }
      }
    }

    method NoteSent(report: u8, frame: bytes) returns (out: Output)
      modifies this`rcntSuccess, this`currentStatusCounter, this`operational, this`lastRequestType, this`rcvdResponse
      ensures (Abs(), out) == Sent(cfg, old(Abs()), report, frame)
    {
      out := Output([frame], [], []);
      if cfg.pvtEnabled {
        var notes := CountAnswer();
        out := Output([frame], notes, [Accept]);
      }
      lastRequestType, rcvdResponse := report, false;
    }

    /** elmi_uni_n_tx */
    method Tx(report: u8, ch: Channel) returns (out: Output)
      requires report in {REPORT_FULL_STATUS, REPORT_ECHECK, REPORT_FULL_STATUS_CONTD}
      requires report == REPORT_ECHECK || Regular()
      modifies this
      ensures (Abs(), out) == Transmit(cfg, old(Abs()), report, ch)
      ensures evcs == old(evcs) && maps == old(maps)
    {
      if !ch.linkUp {
        return SILENT;
      }
      var frame := BuildFrame(report);
      if !ch.sendOk {
        return SILENT;
      }
      out := NoteSent(report, frame);
    }

    // ---- received enquiries ----

    /** elmi_unin_compute_total_len, in 16 bits. */
    method ComputeTotalLen() returns (total: u16)
      ensures total == FullLength(Db()) % 0x1_0000
    {
      total := (HEADER_LEN + UniLength(Db())) % 0x1_0000;
      var e := EvcsLen(evcs, false, 0);
      var m := MapsLen(maps, false, 0);
      AllAreBeyondNone(EvcItems(evcs), MapItems(maps));
      total := (total + e + m) % 0x1_0000;
      Mod16(HEADER_LEN + UniLength(Db()), TotalLength(EvcItems(evcs)), TotalLength(MapItems(maps)));
    }

    /** elmi_unin_process_fullstatus_msg */
    method ProcessFullStatus(seqNum: u8, ch: Channel) returns (out: Output)
      requires Regular()
      modifies this
      ensures (Abs(), out) == Transmit(cfg, old(Abs()).(rcvdSeq := seqNum, rcvdResponse := true, cur := START),
                                       AnswerToFull(old(Db())), ch)
    {
      hide UniNSpec.Transmit, FullLength, AllRegular;
      recvdSendSeqNum, rcvdResponse := seqNum, true;
      lastEvcId, lastIeType, continuedMsg := 0, 0, false;
      var total := ComputeTotalLen();
      if total > MAX_PACKET {
        out := Tx(REPORT_FULL_STATUS_CONTD, ch);
      } else {
        out := Tx(REPORT_FULL_STATUS, ch);
      }
    }

    method RemainingLen() returns (total: u16)
      ensures total == Remaining(Db(), Cur()) % 0x1_0000
    {
      var e, m: u16;
      if lastIeType == LAST_IE_EVC {
        e := EvcsLen(evcs, true, lastEvcId);
        m := MapsLen(maps, false, 0);
      } else {
        e := 0;
        m := MapsLen(maps, true, lastEvcId);
        assert TotalLength([]) == 0;
      }
      total := (e + m) % 0x1_0000;
      Mod16(TotalLength(if lastIeType == LAST_IE_EVC then Beyond(EvcItems(evcs), lastEvcId) else []),
            TotalLength(if lastIeType == LAST_IE_EVC then MapItems(maps) else Beyond(MapItems(maps), lastEvcId)), 0);
    }

    /** elmi_unin_process_fullstatus_contd_msg */
    method ProcessFullStatusContd(seqNum: u8, ch: Channel) returns (out: Output)
      requires Regular()
      modifies this
      ensures (Abs(), out) == Transmit(cfg, old(Abs()).(rcvdSeq := seqNum, rcvdResponse := true,
                                                        cur := old(Cur()).(continued := true)),
                                       AnswerToContd(old(Db()), old(Cur())), ch)
    {
      var total := RemainingLen();
      assert total == Remaining(Db(), Cur()) % 0x1_0000;
      recvdSendSeqNum, rcvdResponse, continuedMsg := seqNum, true, true;
      if total > MAX_PACKET - HEADER_LEN {
        out := Tx(REPORT_FULL_STATUS_CONTD, ch);
      } else {
        out := Tx(REPORT_FULL_STATUS, ch);
      }
    }

    /** elmi_unin_process_elmi_check_msg */
    method ProcessEcheck(seqNum: u8, ch: Channel) returns (out: Output)
      modifies this
      ensures (Abs(), out) == Transmit(cfg, old(Abs()).(rcvdSeq := seqNum, rcvdResponse := true), REPORT_ECHECK, ch)
    {
      recvdSendSeqNum, rcvdResponse := seqNum, true;
      out := Tx(REPORT_ECHECK, ch);
    }

    /** elmi_unin_handle_frame */
    method HandleFrame(frame: bytes, ch: Channel) returns (out: Output)
      requires Regular() || ParseEnquiry(frame).None? || ParseEnquiry(frame).value.0 == REPORT_ECHECK
      modifies this
      ensures (Abs(), out) == UniNSpec.Handle(cfg, old(Abs()), frame, ch)
    {
      var e := ValidateRcvdPdu(frame);
      if e.None? {
        return SILENT;
      }
      var (report, seqNum) := e.value;
      if report == REPORT_FULL_STATUS {
        out := ProcessFullStatus(seqNum, ch);
      } else if report == REPORT_ECHECK {
        out := ProcessEcheck(seqNum, ch);
      } else if report == REPORT_FULL_STATUS_CONTD {
        out := ProcessFullStatusContd(seqNum, ch);
      } else {
        out := SILENT;
      }
    }

    /** elmi_polling_verification_timer_handler */
    method VerificationTimer() returns (out: Output)
      modifies this
      ensures (Abs(), out) == PvtExpiry(cfg, old(Abs()))
    {
      out := SILENT;
      if !rcvdResponse {
        currentStatusCounter := S8(currentStatusCounter + 1);
        rcntSuccess := 0;
        out := Output([], [], [Miss]);
        if currentStatusCounter >= cfg.n393 {
          if operational {
            operational := false;
            out := Output([], [false], [Miss]);
          }
        }
      }
    }

    // ---- the lists under NSM and ONM messages ----

    /** elmi_evc_look_up, as a position: the length of the list if there is no such EVC. */
    method EvcLookUp(id: u16) returns (i: nat)
      ensures i == IndexOf(EvcRefs(evcs), id)
    {
      i := 0;
      while i < |evcs| && evcs[i].refId != id
        invariant i <= |evcs| && forall k | 0 <= k < i :: evcs[k].refId != id
      {
        i := i + 1;
      }
      IndexIs(EvcRefs(evcs), id, i);
    }

    /** elmi_lookup_cevlan_evc_map */
    method MapLookUp(id: u16) returns (i: nat)
      ensures i == IndexOf(MapRefs(maps), id)
    {
      i := 0;
      while i < |maps| && maps[i].refId != id
        invariant i <= |maps| && forall k | 0 <= k < i :: maps[k].refId != id
      {
        i := i + 1;
      }
      IndexIs(MapRefs(maps), id, i);
    }

    /** Update the EVC at a position found by EvcLookUp, or insert it in sorting order. */
    method StoreEvc(e: Evc, i: nat)
      requires i == IndexOf(EvcRefs(evcs), e.refId)
      modifies this`evcs
      ensures evcs == PutEvc(old(evcs), e)
    {
      if i < |evcs| {
        evcs := evcs[i := e];
        return;
      }
      var k := 0;
      while k < |evcs| && evcs[k].refId <= e.refId
        invariant k <= |evcs| && forall j | 0 <= j < k :: evcs[j].refId <= e.refId
      {
        k := k + 1;
      }
      SlotIs(EvcRefs(evcs), e.refId, k);
      evcs := evcs[..k] + [e] + evcs[k..];
    }

    method StoreMap(m: CvlanMap, i: nat)
      requires i == IndexOf(MapRefs(maps), m.refId)
      modifies this`maps
      ensures maps == PutMap(old(maps), m)
    {
      if i < |maps| {
        maps := maps[i := m];
        return;
      }
      var k := 0;
      while k < |maps| && maps[k].refId <= m.refId
        invariant k <= |maps| && forall j | 0 <= j < k :: maps[j].refId <= m.refId
      {
        k := k + 1;
      }
      SlotIs(MapRefs(maps), m.refId, k);
      maps := maps[..k] + [m] + maps[k..];
    }

    method AddMap(msg: EvcMsg)
      modifies this`maps
      ensures maps == PutMap(old(maps), AddedMap(OldMap(old(Db()), msg.refId), msg))
    {
      var j := MapLookUp(msg.refId);
      var m := if j < |maps| then maps[j] else CvlanMap(msg.refId, false, false, {});
      var vids := AddVids(m.vids, msg.vids);
      StoreMap(m.(untagged := msg.untagged, defaultEvc := msg.defaultEvc, vids := vids), j);
    }

    /** elmi_nsm_evc_add on an enabled port of a provider bridge. */
    method EvcAdd(msg: EvcMsg)
      modifies this`evcs, this`maps, this`dataInstance
      ensures (Db(), dataInstance) == Apply(old(Db()), old(dataInstance), Add(msg))
    {
      var i := EvcLookUp(msg.refId);
      var e := if i < |evcs| then evcs[i] else Evc(msg.refId, 0, 0, [], 0, None, []);
      StoreEvc(e.(evcType := msg.evcType, level := 0, id := CarriedName(msg.id, EVC_NAME_LEN),
                  status := NEW_AND_NOT_ACTIVE), i);
      AddMap(msg);
      dataInstance := NextInstance(dataInstance);
    }

    method UpdateRecord(msg: EvcChange) returns (found: bool)
      modifies this`evcs
      ensures found == (msg.refId in EvcRefs(old(evcs)))
      ensures evcs == if !found then old(evcs)
                      else PutEvc(old(evcs), ChangedEvc(OldEvc(old(Db()), msg.refId), msg))
    {
      var i := EvcLookUp(msg.refId);
      found := i < |evcs|;
      if found {
        var e := evcs[i];
        StoreEvc(e.(evcType := Or(msg.evcType, e.evcType),
                    id := if msg.id.Some? then CarriedName(msg.id.value, EVC_NAME_LEN) else e.id), i);
      }
    }

    method UpdateMap(msg: EvcChange)
      modifies this`maps
      ensures maps == if msg.refId !in MapRefs(old(maps)) then old(maps)
                      else PutMap(old(maps), ChangedMap(OldMap(old(Db()), msg.refId), msg))
    {
      var j := MapLookUp(msg.refId);
      if j < |maps| {
        var m := maps[j];
        var vids := AddVids(m.vids, Or(msg.vids, []));
        StoreMap(m.(untagged := Or(msg.untagged, m.untagged), defaultEvc := Or(msg.defaultEvc, m.defaultEvc),
                    vids := vids), j);
      }
    }

    /** elmi_nsm_evc_update; false is RESULT_ERROR. */
    method EvcUpdate(msg: EvcChange) returns (ok: bool)
      modifies this`evcs, this`maps, this`dataInstance
      ensures (Db(), dataInstance) == Apply(old(Db()), old(dataInstance), Change(msg))
      ensures ok == (msg.refId in old(EvcRefs(evcs)))
    {
      ok := UpdateRecord(msg);
      if ok {
        UpdateMap(msg);
        dataInstance := NextInstance(dataInstance);
      }
    }

    /** elmi_update_evc_status_type; the data instance does not move. */
    method UpdateEvcStatus(id: u16, cfm: CfmStatus)
      modifies this`evcs
      ensures Db() == SetStatus(old(Db()), id, cfm)
    {
      var i := EvcLookUp(id);
      if i < |evcs| {
        var e := evcs[i];
        StoreEvc(e.(status := LocalStatus(cfm) + e.status % 2), i);
      }
    }

    /** elmi_nsm_evc_delete with an empty notification queue. */
    method EvcDelete(id: u16, linkUp: bool)
      modifies this`evcs, this`maps, this`dataInstance
      ensures (Db(), dataInstance) == Apply(old(Db()), old(dataInstance), Drop(id, linkUp))
    {
      var i := EvcLookUp(id);
      if i < |evcs| {
        if linkUp {
          var j := MapLookUp(id);
          maps := Without(maps, j);
          evcs := Without(evcs, i);
        }
        dataInstance := NextInstance(dataInstance);
      }
    }

    // ---- the UNI and bandwidth profiles ----

    /** elmi_nsm_uni_add */
    method AddUni(attr: ServiceAttr, id: bytes)
      modifies this`uni, this`dataInstance
      ensures (Db(), dataInstance) == Apply(old(Db()), old(dataInstance), UniAdd(attr, id))
    {
      if uni.None? {
        uni := Some(UniInfo(0, [], None));
      }
      uni := Some(uni.value.(mapType := MapTypeOf(attr), id := CarriedName(id, UNI_NAME_LEN)));
      dataInstance := NextInstance(dataInstance);
    }

    /** elmi_nsm_uni_delete; the data instance does not move. */
    method DeleteUni() returns (ok: bool)
      modifies this`uni
      ensures (Db(), dataInstance) == Apply(old(Db()), old(dataInstance), UniDrop)
      ensures ok == old(uni.Some?)
    {
      ok := uni.Some?;
      uni := None;
    }

    /** elmi_nsm_uni_update */
    method UpdateUni(attr: Option<ServiceAttr>, id: Option<bytes>) returns (ok: bool)
      modifies this`uni, this`dataInstance
      ensures (Db(), dataInstance) == Apply(old(Db()), old(dataInstance), UniChange(attr, id))
      ensures ok == old(uni.Some?)
    {
      ok := uni.Some?;
      if ok {
        if id.Some? {
          uni := Some(uni.value.(id := CarriedName(id.value, UNI_NAME_LEN)));
        }
        if attr.Some? {
          uni := Some(uni.value.(mapType := MapTypeOf(attr.value)));
        }
        dataInstance := NextInstance(dataInstance);
      }
    }

    /** elmi_nsm_uni_bw_add */
    method UniBwAdd(m: BwMsg) returns (ok: bool)
      modifies this`uni, this`level, this`dataInstance
      ensures (Db(), dataInstance) == Apply(old(Db()), old(dataInstance), DatabaseOps.UniBwAdd(m))
      ensures ok == (m.flagged && old(uni.Some?))
    {
      ok := m.flagged && uni.Some?;
      if ok {
        var b := CodeProfile(m, 0);
        uni := Some(uni.value.(bw := Some(b)));
        level := LEVEL_PER_UNI;
        dataInstance := NextInstance(dataInstance);
      }
    }

    /** elmi_nsm_uni_bw_del */
    method UniBwDel(flagged: bool) returns (ok: bool)
      modifies this`uni, this`level, this`dataInstance
      ensures (Db(), dataInstance) == Apply(old(Db()), old(dataInstance), UniBwDrop(flagged))
      ensures ok == (flagged && old(uni.Some? && uni.value.bw.Some?))
    {
      ok := flagged && uni.Some? && uni.value.bw.Some?;
      if ok {
        uni := Some(uni.value.(bw := None));
        level := NO_LEVEL;
        dataInstance := NextInstance(dataInstance);
      }
    }

    /** elmi_nsm_evc_bw_add */
    method EvcBwAdd(id: u16, m: BwMsg) returns (ok: bool)
      modifies this`evcs, this`level, this`dataInstance
      ensures (Db(), dataInstance) == Apply(old(Db()), old(dataInstance), DatabaseOps.EvcBwAdd(id, m))
      ensures ok == (m.flagged && id in old(EvcRefs(evcs)))
    {
      var i := EvcLookUp(id);
      ok := m.flagged && i < |evcs|;
      if ok {
        var b := CodeProfile(m, 0);
        StoreEvc(evcs[i].(bw := Some(b), level := LEVEL_PER_EVC), i);
        level := PORT_PER_EVC;
        dataInstance := NextInstance(dataInstance);
      }
    }

    /** elmi_nsm_evc_bw_del */
    method EvcBwDel(id: u16, flagged: bool) returns (ok: bool)
      modifies this`evcs, this`level, this`dataInstance
      ensures (Db(), dataInstance) == Apply(old(Db()), old(dataInstance), EvcBwDrop(id, flagged))
      ensures ok == (flagged && id in old(EvcRefs(evcs)))
    {
      var i := EvcLookUp(id);
      ok := flagged && i < |evcs|;
      if ok {
        StoreEvc(evcs[i].(bw := None), i);
        level := NO_LEVEL;
        dataInstance := NextInstance(dataInstance);
      }
    }

    /** elmi_nsm_evc_cos_bw_add */
    method CosBwAdd(id: u16, c: CosId, perCos: u8, m: BwMsg) returns (ok: bool)
      modifies this`evcs, this`level, this`dataInstance
      ensures (Db(), dataInstance) == Apply(old(Db()), old(dataInstance), DatabaseOps.CosBwAdd(id, c, perCos, m))
      ensures ok == (m.flagged && id in old(EvcRefs(evcs)) && c != 0)
    {
      var i := EvcLookUp(id);
      ok := m.flagged && i < |evcs| && c != 0;
      if ok {
        var b := CodeProfile(m, perCos);
        StoreEvc(evcs[i].(cos := SetSlot(evcs[i].cos, c, Some(b)), level := LEVEL_PER_COS), i);
        level := PORT_PER_EVC;
        dataInstance := NextInstance(dataInstance);
      }
    }

    /** elmi_nsm_evc_cos_bw_del */
    method CosBwDel(id: u16, c: CosId, flagged: bool) returns (ok: bool)
      modifies this`evcs, this`level, this`dataInstance
      ensures (Db(), dataInstance) == Apply(old(Db()), old(dataInstance), CosBwDrop(id, c, flagged))
      ensures ok == (flagged && id in old(EvcRefs(evcs)))
    {
      var i := EvcLookUp(id);
      ok := flagged && i < |evcs|;
      if ok {
        StoreEvc(evcs[i].(cos := SetSlot(evcs[i].cos, c, None), bw := None), i);
        level := NO_LEVEL;
        dataInstance := NextInstance(dataInstance);
      }
    }
  }

  /** Magnitude and multiplier of each value. */
  method CodeProfile(m: BwMsg, perCos: u8) returns (b: BwProfile)
    ensures b == ProfileOf(m, perCos)
  {
    var cirMul, cirMag := Bandwidth.MantissaExponent16(m.cir);
    var cbsMul, cbsMag := Bandwidth.MantissaExponent8(m.cbs);
    var eirMul, eirMag := Bandwidth.MantissaExponent16(m.eir);
    var ebsMul, ebsMag := Bandwidth.MantissaExponent8(m.ebs);
    b := BwProfile(m.cf, m.cm, perCos, cirMag, cirMul, cbsMag, cbsMul, eirMag, eirMul, ebsMag, ebsMul);
  }

  lemma {:induction false} IndexIs(refs: seq<u16>, id: u16, i: nat)
    requires i <= |refs| && (forall k | 0 <= k < i :: refs[k] != id) && (i < |refs| ==> refs[i] == id)
    ensures i == IndexOf(refs, id)
  {
    if i > 0 {
      IndexIs(refs[1..], id, i - 1);
    }
  }

  lemma {:induction false} SlotIs(refs: seq<u16>, id: u16, k: nat)
    requires k <= |refs| && (forall j | 0 <= j < k :: refs[j] <= id) && (k < |refs| ==> id < refs[k])
    ensures k == SlotOf(refs, id)
  {
    if k > 0 {
      SlotIs(refs[1..], id, k - 1);
    }
  }

  /** The bitmap is only ever added to. */
  method AddVids(vids: set<vid>, more: seq<u16>) returns (r: set<vid>)
    ensures r == vids + MaskedVids(more)
  {
    r := vids;
    for i := 0 to |more|
      invariant r == vids + MaskedVids(more[..i])
    {
      assert more[..i + 1][..i] == more[..i];
      r := r + {more[i] % 4096};
    }
    assert more[..|more|] == more;
  }

  /** An encoding loop under way: all pending elements, the octets before it, what was sent and what is left. */
  datatype Scan = Scan(all: seq<Ie>, room: nat, before: bytes, sent: seq<Ie>, rest: seq<Ie>)

  lemma ScanStarts(all: seq<Ie>, room: nat, contents: bytes)
    ensures Scanned(Scan(all, room, contents, [], all), room, 0, contents)
  {
    assert contents + [] == contents;
  }

  lemma UnsentEnds(items: seq<Ie>, start: u16)
    ensures items[0..] == items && Unsent(items[|items|..], start) == []
  {
  }

  /** At the end of the loop the greedy prefix has been written. */
  lemma Finished(s: Scan, left: nat, last: u16, contents: bytes, n: nat)
    requires Scanned(s, left, last, contents) && n == Take(s.all, s.room)
    requires s.rest == [] || s.rest[0].Length() > left
    ensures contents == s.before + Flatten(s.all[..n])
    ensures (s.rest != []) == (n < |s.all|) && last == (if n == 0 then 0 else RefOf(s.all[n - 1]))
  {
    Stopped(s.all, s.sent, s.rest, s.room, left, last);
  }

  ghost predicate Scanned(s: Scan, left: nat, last: u16, contents: bytes) {
    Progress(s.all, s.sent, s.rest, s.room, left, last) && contents == s.before + Flatten(s.sent)
  }

  /** One turn of the list loop: skip, stop, or write. */
  method NextEvc(w: Writer, e: Evc, start: u16, last: u16, ghost scan: Scan, ghost rest: seq<Ie>)
      returns (full: bool, last2: u16, ghost scan2: Scan)
    requires w.Valid() && EvcItem(e).Regular() && Scanned(scan, w.Size(), last, w.Contents())
    requires scan.rest == if start != 0 && e.refId <= start then rest else [EvcItem(e)] + rest
    modifies w`pos, w.buf
    ensures w.Valid() && Scanned(scan2, w.Size(), last2, w.Contents())
    ensures scan2.all == scan.all && scan2.room == scan.room
    ensures scan2.before == scan.before
    ensures if full then scan2.rest != [] && scan2.rest[0].Length() > w.Size() else scan2.rest == rest
  {
    if start != 0 && e.refId <= start {
      return false, last, scan;
    }
    if EvcLength(e) > w.Size() {
      return true, last, scan;
    }
    ghost var x, left := EvcItem(e), w.Size();
    RegularLength(x);
    EncodeEvcStatus(w, e);
    Written(scan.all, scan.sent, scan.rest, scan.room, left, last, x, rest, w.Size(), e.refId);
    FlattenSnoc(scan.sent, x);
    Concat2(scan.before, Flatten(scan.sent), EvcIe(e));
    return false, e.refId, scan.(sent := scan.sent + [x], rest := rest);
  }

  method EncodeEvcList(w: Writer, evcs: seq<Evc>, start: u16, ghost all: seq<Ie>, ghost n: nat)
      returns (full: bool, last: u16)
    requires w.Valid() && AllRegular(EvcItems(evcs))
    requires all == Unsent(EvcItems(evcs), start) && n == Take(all, w.Size())
    modifies w`pos, w.buf
    ensures w.Valid() && w.Contents() == old(w.Contents()) + Flatten(all[..n])
    ensures full == (n < |all|) && last == (if n == 0 then 0 else RefOf(all[n - 1]))
  {
    hide Scanned, Unsent, Take, Flatten;
    full, last := false, 0;
    ghost var items, room := EvcItems(evcs), w.Size();
    ghost var scan := Scan(all, room, w.Contents(), [], all);
    ScanStarts(all, room, w.Contents());
    UnsentEnds(items, start);
    for i := 0 to |evcs|
      invariant w.Valid() && Scanned(scan, w.Size(), last, w.Contents())
      invariant scan.all == all && scan.room == room && scan.before == old(w.Contents())
      invariant scan.rest == Unsent(items[i..], start) && !full
    {
      UnsentStep(items, i, start);
      assert items[i].Regular();
      full, last, scan := NextEvc(w, evcs[i], start, last, scan, Unsent(items[i + 1..], start));
      if full {
        break;
      }
    }
    Finished(scan, w.Size(), last, w.Contents(), n);
    assert w.Contents() == scan.before + Flatten(all[..n]);
  }

  /** One turn of the list loop: skip, stop, or write. */
  method NextMap(w: Writer, m: CvlanMap, start: u16, last: u16, ghost scan: Scan, ghost rest: seq<Ie>)
      returns (full: bool, last2: u16, ghost scan2: Scan)
    requires w.Valid() && MapItem(m).Regular() && Scanned(scan, w.Size(), last, w.Contents())
    requires scan.rest == if start != 0 && m.refId <= start then rest else [MapItem(m)] + rest
    modifies w`pos, w.buf
    ensures w.Valid() && Scanned(scan2, w.Size(), last2, w.Contents())
    ensures scan2.all == scan.all && scan2.room == scan.room
    ensures scan2.before == scan.before
    ensures if full then scan2.rest != [] && scan2.rest[0].Length() > w.Size() else scan2.rest == rest
  {
    if start != 0 && m.refId <= start {
      return false, last, scan;
    }
    var count := CountVids(m.vids);
    if MAP_FIXED_LEN + 2 * count > w.Size() {
      return true, last, scan;
    }
    ghost var x, left := MapItem(m), w.Size();
    RegularLength(x);
    EncodeMap(w, m);
    Written(scan.all, scan.sent, scan.rest, scan.room, left, last, x, rest, w.Size(), m.refId);
    FlattenSnoc(scan.sent, x);
    Concat2(scan.before, Flatten(scan.sent), MapIe(m));
    return false, m.refId, scan.(sent := scan.sent + [x], rest := rest);
  }

  method EncodeMapList(w: Writer, maps: seq<CvlanMap>, start: u16, ghost all: seq<Ie>, ghost n: nat)
      returns (full: bool, last: u16)
    requires w.Valid() && AllRegular(MapItems(maps))
    requires all == Unsent(MapItems(maps), start) && n == Take(all, w.Size())
    modifies w`pos, w.buf
    ensures w.Valid() && w.Contents() == old(w.Contents()) + Flatten(all[..n])
    ensures full == (n < |all|) && last == (if n == 0 then 0 else RefOf(all[n - 1]))
  {
    hide Scanned, Unsent, Take, Flatten;
    full, last := false, 0;
    ghost var items, room := MapItems(maps), w.Size();
    ghost var scan := Scan(all, room, w.Contents(), [], all);
    ScanStarts(all, room, w.Contents());
    UnsentEnds(items, start);
    for i := 0 to |maps|
      invariant w.Valid() && Scanned(scan, w.Size(), last, w.Contents())
      invariant scan.all == all && scan.room == room && scan.before == old(w.Contents())
      invariant scan.rest == Unsent(items[i..], start) && !full
    {
      UnsentStep(items, i, start);
      assert items[i].Regular();
      full, last, scan := NextMap(w, maps[i], start, last, scan, Unsent(items[i + 1..], start));
      if full {
        break;
      }
    }
    Finished(scan, w.Size(), last, w.Contents(), n);
    assert w.Contents() == scan.before + Flatten(all[..n]);
  }

  // ---- lengths in 16 bits ----

  lemma AllAreBeyondNone(es: seq<Ie>, ms: seq<Ie>)
    ensures TotalLength(es + ms) == TotalLength(es) + TotalLength(ms)
  {
    SizesConcat(es, ms);
    Greedy.SumAppend(Sizes(es), Sizes(ms));
  }

  lemma ModAdd(a: nat, b: nat)
    ensures (a % 0x1_0000 + b) % 0x1_0000 == (a + b) % 0x1_0000
  {
  }

  lemma Mod16(a: nat, b: nat, c: nat)
    ensures (a % 0x1_0000 + b % 0x1_0000 + c % 0x1_0000) % 0x1_0000 == (a + b + c) % 0x1_0000
    ensures (a % 0x1_0000 + b % 0x1_0000) % 0x1_0000 == (a + b) % 0x1_0000
  {
    ModAdd(a, b % 0x1_0000 + c % 0x1_0000);
    ModAdd(b, a + c % 0x1_0000);
    ModAdd(c, a + b);
    ModAdd(a, b % 0x1_0000);
    ModAdd(b, a);
  }

  lemma TotalSnoc(items: seq<Ie>, x: Ie)
    ensures TotalLength(items + [x]) == TotalLength(items) + x.Length()
  {
    SizesConcat(items, [x]);
    Greedy.SumAppend(Sizes(items), Sizes([x]));
    assert Sizes([x])[1..] == [];
  }

  lemma {:induction false} BeyondSnoc(items: seq<Ie>, x: Ie, id: u16)
    ensures Beyond(items + [x], id) == Beyond(items, id) + (if RefOf(x) <= id then [] else [x])
  {
    if items == [] {
      assert items + [x] == [x] && [x][1..] == [];
    } else {
      assert (items + [x])[1..] == items[1..] + [x];
      BeyondSnoc(items[1..], x, id);
    }
  }

  function Filtered(items: seq<Ie>, skip: bool, id: u16): seq<Ie> {
    if skip then Beyond(items, id) else items
  }

  lemma FilteredSnoc(items: seq<Ie>, x: Ie, skip: bool, id: u16)
    ensures TotalLength(Filtered(items + [x], skip, id))
         == TotalLength(Filtered(items, skip, id)) + (if skip && RefOf(x) <= id then 0 else x.Length())
  {
    BeyondSnoc(items, x, id);
    TotalSnoc(Filtered(items, skip, id), x);
    assert Beyond(items, id) + [] == Beyond(items, id);
  }

  /** A 16-bit sum takes in one more length. */
  method Add16(total: u16, len: nat, ghost sum: nat) returns (t: u16)
    requires total == sum % 0x1_0000
    ensures t == (sum + len) % 0x1_0000
  {
    t := (total + len) % 0x1_0000;
    ModAdd(sum, len);
  }

  method EvcsLen(evcs: seq<Evc>, skip: bool, id: u16) returns (total: u16)
    ensures total == TotalLength(Filtered(EvcItems(evcs), skip, id)) % 0x1_0000
  {
    total := 0;
    ghost var sum := 0;
    assert EvcItems(evcs[..0]) == [] && TotalLength([]) == 0;
    for i := 0 to |evcs|
      invariant sum == TotalLength(Filtered(EvcItems(evcs[..i]), skip, id))
      invariant total == sum % 0x1_0000
    {
      var e := evcs[i];
      assert EvcItems(evcs[..i + 1]) == EvcItems(evcs[..i]) + [EvcItem(e)];
      FilteredSnoc(EvcItems(evcs[..i]), EvcItem(e), skip, id);
      if !skip || e.refId > id {
        total := Add16(total, EvcLength(e), sum);
        sum := sum + EvcLength(e);
      }
    }
    assert evcs[..|evcs|] == evcs;
  }

  method MapsLen(maps: seq<CvlanMap>, skip: bool, id: u16) returns (total: u16)
    ensures total == TotalLength(Filtered(MapItems(maps), skip, id)) % 0x1_0000
  {
    hide Members;
    total := 0;
    ghost var sum := 0;
    assert MapItems(maps[..0]) == [] && TotalLength([]) == 0;
    for i := 0 to |maps|
      invariant sum == TotalLength(Filtered(MapItems(maps[..i]), skip, id))
      invariant total == sum % 0x1_0000
    {
      var m := maps[i];
      assert MapItems(maps[..i + 1]) == MapItems(maps[..i]) + [MapItem(m)];
      FilteredSnoc(MapItems(maps[..i]), MapItem(m), skip, id);
      if !skip || m.refId > id {
        var count := CountVids(m.vids);
        total := Add16(total, 2 * count + MAP_FIXED_LEN, sum);
        sum := sum + 2 * count + MAP_FIXED_LEN;
      }
    }
    assert maps[..|maps|] == maps;
  }

  // ---- enquiries ----

  /** elmi_unin_validate_rcvd_pdu */
  method ValidateRcvdPdu(frame: bytes) returns (e: Option<(u8, u8)>)
    ensures e == ParseEnquiry(frame)
  {
    var r := new Reader(frame);
    var v := r.GetC();
    if v != PROTO_VERSION {
      return None;
    }
    v := r.GetC();
    if v != MSG_STATUS_ENQUIRY {
      if v != PROTO_VERSION {
        return None;
      }
      v := r.GetC();
      if v != MSG_STATUS_ENQUIRY {
        return None;
      }
    }
    e := ReadReport(r);
  }

  method ReadReport(r: Reader) returns (e: Option<(u8, u8)>)
    modifies r
    ensures e == ParseReport(r.data, old(r.pos))
  {
    var v := r.GetC();
    if v != REPORT_TYPE_IE {
      if v != MSG_STATUS_ENQUIRY {
        return None;
      }
      v := r.GetC();
      if v != REPORT_TYPE_IE {
        return None;
      }
    }
    e := ReadReportValue(r);
  }

  method ReadReportValue(r: Reader) returns (e: Option<(u8, u8)>)
    modifies r
    ensures e == ParseReportValue(r.data, old(r.pos))
  {
    var len := r.GetC();
    var report := r.GetC();
    var v := r.GetC();
    if len != 1 || report == REPORT_INVALID || v != SEQUENCE_NUM_IE {
      return None;
    }
    len := r.GetC();
    var seqNum := r.GetC();
    if len != 2 || seqNum == 0 {
      return None;
    }
    v := r.GetC();
    v := r.GetC();
    if v == SEQUENCE_NUM_IE {
      len := r.GetC();
      r.Skip(len);
      v := r.GetC();
    }
    len := r.GetC();
    if v != DATA_INSTANCE_IE || len != DATA_INSTANCE_LEN {
      return None;
    }
    return Some((report, seqNum));
  }
}
