/** Whole runs of UNI-N: received frames, verification timer expiries and database changes in any order. */
module PollVerification {
  import opened Octets
  import opened Wire
  import opened Hysteresis
  import opened UniNSpec

  datatype Event = Arrival(frame: bytes, ch: Channel) | Expiry | Provision(db: Database, dataInstance: u32)

  function Step(cfg: Config, s: State, e: Event): (State, Output) {
    match e
    case Arrival(frame, ch) => UniNSpec.Handle(cfg, s, frame, ch)
    case Expiry => PvtExpiry(cfg, s)
    case Provision(db, di) => (s.(db := db, dataInstance := di), SILENT)
  }

  function StateAfter(cfg: Config, db: Database, es: seq<Event>): State {
    if es == [] then Enabled(db)
    else Step(cfg, StateAfter(cfg, db, es[..|es| - 1]), es[|es| - 1]).0
  }

  /** What the counters have been told, and what NSM has been told, since the port was enabled. */
  function History(cfg: Config, db: Database, es: seq<Event>): seq<Obs> {
    if es == [] then []
    else History(cfg, db, es[..|es| - 1]) + Step(cfg, StateAfter(cfg, db, es[..|es| - 1]), es[|es| - 1]).1.obs
  }

  function Told(cfg: Config, db: Database, es: seq<Event>): seq<bool> {
    if es == [] then [true]
    else Told(cfg, db, es[..|es| - 1]) + Step(cfg, StateAfter(cfg, db, es[..|es| - 1]), es[|es| - 1]).1.notes
  }

  /** A step tells the counters at most one thing, and state and notifications follow it. */
  ghost predicate Follows(n393: nat, before: Health, after: Health, o: Output) {
    if o.obs == [] then after == before && o.notes == []
    else |o.obs| == 1 && (after, o.notes) == Hysteresis.Step(UniN, before, n393, o.obs[0])
  }

  lemma BuildKeepsHealth(s: State, report: u8)
    ensures Build(s, report).1.health == s.health
  {
  }

  lemma TransmitFollows(cfg: Config, s: State, report: u8, ch: Channel)
    ensures var (s2, o) := Transmit(cfg, s, report, ch);
            Follows(cfg.n393, s.health, s2.health, o)
  {
    BuildKeepsHealth(s, report);
  }

  lemma HandleFollows(cfg: Config, s: State, frame: bytes, ch: Channel)
    ensures var (s2, o) := UniNSpec.Handle(cfg, s, frame, ch);
            Follows(cfg.n393, s.health, s2.health, o)
  {
    var s1, report := HandleTransmits(cfg, s, frame, ch);
    TransmitFollows(cfg, s1, report, ch);
  }

  lemma StepFollows(cfg: Config, s: State, e: Event)
    ensures var (s2, o) := Step(cfg, s, e);
            Follows(cfg.n393, s.health, s2.health, o)
  {
    if e.Arrival? {
      HandleFollows(cfg, s, e.frame, e.ch);
    }
  }

  lemma HistoryGrows(n393: nat, h: seq<Obs>, o: Output, after: Health)
    requires Follows(n393, After(UniN, n393, h), after, o)
    ensures After(UniN, n393, h + o.obs) == after
    ensures Notes(UniN, n393, h + o.obs) == Notes(UniN, n393, h) + o.notes
  {
    if o.obs == [] {
      assert h + o.obs == h;
    } else {
      assert Init(h + o.obs) == h && Last(h + o.obs) == o.obs[0];
    }
  }

  lemma {:induction false} HealthOfHistory(cfg: Config, db: Database, es: seq<Event>)
    ensures StateAfter(cfg, db, es).health == After(UniN, cfg.n393, History(cfg, db, es))
    ensures Told(cfg, db, es) == Notes(UniN, cfg.n393, History(cfg, db, es))
  {
    if es != [] {
      var init, e := es[..|es| - 1], es[|es| - 1];
      HealthOfHistory(cfg, db, init);
      StepFollows(cfg, StateAfter(cfg, db, init), e);
      HistoryGrows(cfg.n393, History(cfg, db, init), Step(cfg, StateAfter(cfg, db, init), e).1,
                   StateAfter(cfg, db, es).health);
    }
  }

  // ---- when a miss and when an accept is due, from the events alone ----

  /** An enquiry the provider answers. */
  predicate Asks(frame: bytes) {
    var e := ParseEnquiry(frame);
    e.Some? && e.value.0 in {REPORT_FULL_STATUS, REPORT_ECHECK, REPORT_FULL_STATUS_CONTD}
  }

  /** The event makes a frame go out. */
  predicate Answers(e: Event) {
    e.Arrival? && Asks(e.frame) && e.ch.linkUp && e.ch.sendOk
  }

  /** An enquiry has arrived since the last frame went out. */
  predicate Heard(es: seq<Event>) {
    if es == [] then false
    else
      var e := es[|es| - 1];
      if e.Arrival? && Asks(e.frame) then !Answers(e) else Heard(es[..|es| - 1])
  }

  /** Every expiry without an enquiry heard is a miss; every frame that goes out while the verification timer is enabled
      is an accept. */
  function Due(cfg: Config, es: seq<Event>): seq<Obs> {
    if es == [] then []
    else
      var init, e := es[..|es| - 1], es[|es| - 1];
      Due(cfg, init) + (if e.Expiry? && !Heard(init) then [Miss] else if Answers(e) && cfg.pvtEnabled then [Accept]
                        else [])
  }

  /** A frame that is no enquiry changes nothing; an answer goes out exactly if link and socket let it. */
  lemma ArrivalTakesEffect(cfg: Config, s: State, frame: bytes, ch: Channel)
    ensures var (s2, o) := UniNSpec.Handle(cfg, s, frame, ch);
            if !Asks(frame) then s2 == s && o == SILENT
            else if ch.linkUp && ch.sendOk
            then |o.frames| == 1 && o.obs == (if cfg.pvtEnabled then [Accept] else []) && !s2.rcvdResponse
            else o.frames == [] && o.obs == [] && s2.rcvdResponse
  {
    hide Compose, AnswerToFull, AnswerToContd, OnAccept, ParseEnquiry, Header, Pad;
  }

  lemma {:induction false} HistoryIsDue(cfg: Config, db: Database, es: seq<Event>)
    ensures StateAfter(cfg, db, es).rcvdResponse == Heard(es)
    ensures History(cfg, db, es) == Due(cfg, es)
  {
    hide Asks, UniNSpec.Handle, OnMiss;
    if es != [] {
      var init, e := es[..|es| - 1], es[|es| - 1];
      HistoryIsDue(cfg, db, init);
      if e.Arrival? {
        ArrivalTakesEffect(cfg, StateAfter(cfg, db, init), e.frame, e.ch);
      }
    }
  }

  /** In every run of UNI-N the state is DOWN exactly from the N393-th expiry in a row before which no enquiry was heard
      until the N393-th answer in a row; NSM hears alternating states, UP first, and always knows the current one. */
  lemma OperationalState(cfg: Config, db: Database, es: seq<Event>)
    requires 1 <= cfg.n393 <= 127
    ensures StateAfter(cfg, db, es).health.up <==> !Down(Due(cfg, es), cfg.n393)
    ensures var notes := Told(cfg, db, es);
            && notes != [] && Last(notes) == StateAfter(cfg, db, es).health.up
            && forall i | 0 <= i < |notes| :: notes[i] == (i % 2 == 0)
  {
    HistoryIsDue(cfg, db, es);
    HealthOfHistory(cfg, db, es);
    RefinesHistory(UniN, cfg.n393, Due(cfg, es));
    NotesAlternate(UniN, cfg.n393, Due(cfg, es));
  }

  lemma {:induction false} SilenceIsMissed(cfg: Config, es: seq<Event>)
    requires forall e | e in es :: e.Expiry?
    ensures !Heard(es) && |Due(cfg, es)| == |es| && forall i | 0 <= i < |es| :: Due(cfg, es)[i] == Miss
  {
    if es != [] {
      assert es[|es| - 1] in es;
      SilenceIsMissed(cfg, es[..|es| - 1]);
    }
  }

  /** A customer that is never heard from: DOWN from the N393-th expiry on, and NSM is told once. */
  lemma SilenceGoesDown(cfg: Config, db: Database, es: seq<Event>)
    requires 1 <= cfg.n393 <= 127 && forall e | e in es :: e.Expiry?
    ensures StateAfter(cfg, db, es).health.up <==> |es| < cfg.n393
    ensures Told(cfg, db, es) == if |es| < cfg.n393 then [true] else [true, false]
  {
    var h := Due(cfg, es);
    SilenceIsMissed(cfg, es);
    OperationalState(cfg, db, es);
    if |es| >= cfg.n393 {
      assert RunOf(h, Miss, 0, cfg.n393);
      forall j: nat | cfg.n393 <= j
        ensures !RunOf(h, Accept, j, cfg.n393)
      {
        if j < |h| {
          assert h[j] == Miss;
        }
      }
    }
    SilenceTold(cfg, db, es);
  }

  lemma {:induction false} SilenceTold(cfg: Config, db: Database, es: seq<Event>)
    requires forall e | e in es :: e.Expiry?
    ensures |Told(cfg, db, es)| == if StateAfter(cfg, db, es).health.up then 1 else 2
  {
    hide UniNSpec.Handle, S8;
    if es != [] {
      assert es[|es| - 1] in es;
      SilenceTold(cfg, db, es[..|es| - 1]);
    }
  }

  // ---- the provider's own numbers ----

  /** How many frames the provider has built: one for each enquiry that came while the link was up. */
  function Builds(es: seq<Event>): nat {
    if es == [] then 0
    else
      var e := es[|es| - 1];
      Builds(es[..|es| - 1]) + if e.Arrival? && Asks(e.frame) && e.ch.linkUp then 1 else 0
  }

  /** The number of the k-th frame, k > 0. */
  function Number(k: nat): u8 {
    if k == 0 then 0 else (k - 1) % 255 + 1
  }

  lemma NumberNext(k: nat)
    ensures NextSeq(Number(k)) == Number(k + 1)
  {
  }

  /** The octets in front of the elements. */
  ghost predicate Heads(frame: bytes, report: u8, sent: u8, rcvd: u8, di: u32) {
    && |frame| >= 46 && At(frame, 0) == 1 && At(frame, 1) == 0x7D && At(frame, 2) == 1 && At(frame, 3) == 1
    && At(frame, 4) == report && At(frame, 5) == 2 && At(frame, 6) == 2 && At(frame, 7) == sent && At(frame, 8) == rcvd
    && At(frame, 9) == 3 && At(frame, 10) == 5 && At(frame, 11) == 0 && LongAt(frame, 12) == di
  }

  lemma PaddedHeads(report: u8, sent: u8, rcvd: u8, di: u32, body: bytes)
    ensures Heads(Pad(Header(MSG_STATUS, report, sent, rcvd, di) + body), report, sent, rcvd, di)
  {
    var head := Header(MSG_STATUS, report, sent, rcvd, di);
    var frame := Pad(head + body);
    assert forall i | 0 <= i < 16 :: At(frame, i) == head[i];
    assert Holds(frame, 12, L(di)) by {
      assert frame[12..16] == L(di);
    }
    HoldsLong(frame, 12, di);
  }

  lemma UniIsThere(db: Database, cur: Cursor, report: u8)
    ensures Compose(db, cur, report).0.hasUni ==> db.uni.Some?
  {
    hide Take, EvcsPending, MapsPending, CutAfter;
  }

  lemma BuildHeads(s: State, report: u8)
    ensures var (frame, s2) := Build(s, report);
            Heads(frame, report, NextSeq(s.sentSeq), s.rcvdSeq, s.dataInstance) && s2.sentSeq == NextSeq(s.sentSeq)
  {
    hide Compose, PayloadOctets, Header, Pad, Heads;
    var sent := NextSeq(s.sentSeq);
    if report == REPORT_ECHECK {
      PaddedHeads(report, sent, s.rcvdSeq, s.dataInstance, []);
      assert Header(MSG_STATUS, report, sent, s.rcvdSeq, s.dataInstance) + []
          == Header(MSG_STATUS, report, sent, s.rcvdSeq, s.dataInstance);
    } else {
      UniIsThere(s.db, s.cur, report);
      PaddedHeads(report, sent, s.rcvdSeq, s.dataInstance, PayloadOctets(s.db, Compose(s.db, s.cur, report).0));
    }
  }

  /** An answer carries the next number of the provider's own, the number of the enquiry, and the data instance; a frame
      built but not sent uses up a number too. */
  lemma ArrivalNumbers(cfg: Config, s: State, frame: bytes, ch: Channel)
    ensures var (s2, o) := UniNSpec.Handle(cfg, s, frame, ch);
            && s2.sentSeq == (if Asks(frame) && ch.linkUp then NextSeq(s.sentSeq) else s.sentSeq)
            && s2.db == s.db && s2.dataInstance == s.dataInstance
            && (o.frames != [] ==>
                  |o.frames| == 1 && Asks(frame)
                  && exists report :: Heads(o.frames[0], report, s2.sentSeq, ParseEnquiry(frame).value.1,
                                            s.dataInstance))
  {
    hide Compose, AnswerToFull, AnswerToContd, OnAccept, ParseEnquiry, Header, Pad, Heads;
    var o := UniNSpec.Handle(cfg, s, frame, ch).1;
    if Asks(frame) {
      var (kind, number) := ParseEnquiry(frame).value;
      var s1 := s.(rcvdSeq := number, rcvdResponse := true);
      var report := REPORT_ECHECK;
      if kind == REPORT_FULL_STATUS {
        s1, report := s1.(cur := START), AnswerToFull(s.db);
      } else if kind == REPORT_FULL_STATUS_CONTD {
        s1, report := s1.(cur := s.cur.(continued := true)), AnswerToContd(s.db, s.cur);
      }
      BuildHeads(s1, report);
      if o.frames != [] {
        assert Heads(o.frames[0], report, NextSeq(s.sentSeq), number, s.dataInstance);
      }
    }
  }

  /** In every run the k-th frame the provider builds has number ((k-1) mod 255) + 1, whatever the report types. */
  lemma {:induction false} ProviderNumbers(cfg: Config, db: Database, es: seq<Event>)
    ensures StateAfter(cfg, db, es).sentSeq == Number(Builds(es))
    ensures es != [] ==>
              var e, init := es[|es| - 1], es[..|es| - 1];
              var o := Step(cfg, StateAfter(cfg, db, init), e).1;
              o.frames != [] ==>
                |o.frames| == 1 && Answers(e)
                && exists report :: Heads(o.frames[0], report, Number(Builds(es)), ParseEnquiry(e.frame).value.1,
                                          StateAfter(cfg, db, init).dataInstance)
  {
    hide Asks, UniNSpec.Handle, OnMiss, Heads;
    if es != [] {
      var init, e := es[..|es| - 1], es[|es| - 1];
      ProviderNumbers(cfg, db, init);
      NumberNext(Builds(init));
      if e.Arrival? {
        ArrivalNumbers(cfg, StateAfter(cfg, db, init), e.frame, e.ch);
        ArrivalTakesEffect(cfg, StateAfter(cfg, db, init), e.frame, e.ch);
      }
    }
  }
}
