/** What UNI-C still knows after a step: which messages add to what it has learnt, which clear it, and which leave it
    alone. */
module Aftermath {
  import opened Octets
  import opened VlanBitmap
  import opened Wire
  import opened Hysteresis
  import opened UniCSpec

  /** The same records in the same nodes, but for the mark of having been seen in the exchange. */
  ghost predicate AllUnseen(was: Records<LearntEvc>, now: Records<LearntEvc>) {
    && now.nodes == was.nodes && now.recs.Keys == was.recs.Keys
    && forall id | id in was.recs :: now.recs[id] == was.recs[id].(active := false)
  }

  /** Of what has been learnt, an enquiry touches at most the marks of the EVCs: it takes them back when it asks for
      everything and goes out. The link being down, it is not even built and changes nothing. */
  ghost predicate EnquiryOnly(s: State, s2: State, report: u8, ch: Channel, built: seq<bytes>, sent: bool) {
    && s2.learnt.uni == s.learnt.uni && s2.learnt.maps == s.learnt.maps
    && (if sent && report == 0 then AllUnseen(s.learnt.evcs, s2.learnt.evcs) else s2.learnt.evcs == s.learnt.evcs)
    && s2.dataInstance == s.dataInstance && s2.lastEvcId == s.lastEvcId && s2.rcvdSeq == s.rcvdSeq
    && (sent <==> ch.linkUp && ch.sendOk) && |built| == (if ch.linkUp then 1 else 0)
    && (sent ==> s2.requestSent && s2.lastRequest == report)
    && (!sent ==> s2.requestSent == s.requestSent && s2.lastRequest == s.lastRequest)
    && (ch.linkUp ==> !s2.rcvdResponse && At(built[0], 4) == report && At(built[0], 8) == s.rcvdSeq
                      && LongAt(built[0], 12) == s.dataInstance)
    && (!ch.linkUp ==> s2.rcvdResponse == s.rcvdResponse && s2.sentSeq == s.sentSeq)
  }

  lemma EnquiryLeaves(s: State, report: u8, ch: Channel)
    ensures var (s2, built, sent) := Transmit(s, report, ch);
            EnquiryOnly(s, s2, report, ch, built, sent)
            && s2.pollCounter == s.pollCounter && s2.health == s.health
  {
    var head := Header(MSG_STATUS_ENQUIRY, report, NextSeq(s.sentSeq), s.rcvdSeq, s.dataInstance);
    var data := Pad(head);
    assert data[..HEADER_LEN] == head;
    assert Holds(data, 12, L(s.dataInstance)) by {
      assert data[12..16] == L(s.dataInstance);
    }
    HoldsLong(data, 12, s.dataInstance);
  }

  /** A port just enabled asks for everything with number 1, quoting neither number nor data instance; what was learnt
      before stays, but no EVC counts as seen once the enquiry is out. */
  lemma EnabledAsks(cfg: Config, learnt: Learnt, ch: Channel)
    ensures var (s, o) := Enable(cfg, learnt, ch);
            && o.notes == [true] && s.dataInstance == 0 && s.lastEvcId == 0 && s.rcvdSeq == 0
            && s.pollCounter == cfg.n391 && s.learnt.uni == learnt.uni && s.learnt.maps == learnt.maps
            && (if ch.linkUp && ch.sendOk then AllUnseen(learnt.evcs, s.learnt.evcs) else s.learnt.evcs == learnt.evcs)
            && (if ch.linkUp
                then |o.built| == 1 && At(o.built[0], 4) == 0 && At(o.built[0], 7) == 1 && At(o.built[0], 8) == 0
                     && LongAt(o.built[0], 12) == 0
                else o.built == [])
  {
    EnquiryLeaves(State(learnt, 0, 0, 0, 0, false, false, REPORT_INVALID, cfg.n391, INITIAL), 0, ch);
  }

  /** A timer expiry does no more than its enquiry to what has been learnt. */
  lemma ExpiryLeaves(cfg: Config, s: State, ch: Channel)
    ensures var (s2, o) := PollExpiry(cfg, s, ch);
            exists report :: report in {0, 1} && EnquiryOnly(s, s2, report, ch, o.built, o.sent)
  {
    hide OnMiss;
    var (s2, o) := PollExpiry(cfg, s, ch);
    var counter: u16 := if s.pollCounter != 0 then s.pollCounter - 1 else 0;
    var h := if s.rcvdResponse then s.health else OnMiss(UniC, s.health, cfg.n393).0;
    var s1 := s.(pollCounter := if counter == 0 then cfg.n391 else counter, health := h);
    EnquiryLeaves(s1, 0, ch);
    EnquiryLeaves(s1, 1, ch);
    assert EnquiryOnly(s, s2, 0, ch, o.built, o.sent) || EnquiryOnly(s, s2, 1, ch, o.built, o.sent);
  }

  /** The periodic check. Turned down, its answer changes nothing; accepted, it is quoted from then on, and leaves what
      has been learnt and the data instance, or asks for everything if the data instance differs from the one held. */
  lemma CheckLeaves(data: bytes, p: nat, s: State, ch: Channel)
    ensures var r, m := ParseStatus(data, p, s, ch), ParseSeqDi(data, p, s.sentSeq);
            if m.None? then r == Parsed(s, false, [], false)
            else
              && r.ok
              && if m.value.di == s.dataInstance
                 then r.built == [] && !r.sent && r.state == s.(rcvdSeq := m.value.seqNum, rcvdResponse := true)
                 else EnquiryOnly(s.(rcvdSeq := m.value.seqNum, rcvdResponse := true), r.state, 0, ch, r.built, r.sent)
  {
    hide Transmit;
    var m := ParseSeqDi(data, p, s.sentSeq);
    if m.Some? {
      EnquiryLeaves(s.(rcvdSeq := m.value.seqNum, rcvdResponse := true), 0, ch);
    }
  }

  /** Nothing learnt. */
  ghost predicate Nothing(x: Learnt) {
    x.uni == LearntUni(0, [], None) && x.evcs.nodes == [] && x.evcs.recs == map[] && x.maps.nodes == []
    && x.maps.recs == map[]
  }

  /** A closing answer is all or nothing, whatever its octets. With a wrong number or data instance it changes nothing.
      Turned down for anything else, it leaves nothing learnt and the customer still waiting. Accepted, all known EVCs
      were seen in the exchange, every one on the list has a map, and number and data instance are taken over. */
  lemma FullAllOrNothing(data: bytes, p: nat, s: State)
    ensures var r, m := ParseFull(data, p, s), ParseSeqDi(data, p, s.sentSeq);
            && r.built == [] && !r.sent
            && if m.None? then !r.ok && r.state == s
               else if !r.ok
               then Nothing(r.state.learnt) && r.state == s.(learnt := r.state.learnt, lastEvcId := r.state.lastEvcId)
               else
                 && r.state == s.(learnt := r.state.learnt, lastEvcId := r.state.lastEvcId, rcvdResponse := true,
                                  rcvdSeq := m.value.seqNum, dataInstance := m.value.di)
                 && (forall id | id in r.state.learnt.evcs.recs :: r.state.learnt.evcs.recs[id].active)
                 && forall id | id in r.state.learnt.evcs.nodes ::
                      id in r.state.learnt.evcs.recs && id in r.state.learnt.maps.recs
  {
    hide ParseSeqDi, ParseUni, ParseEvcs, ParseMaps;
    var m := ParseSeqDi(data, p, s.sentSeq);
    if m.Some? {
      var u := ParseUni(data, m.value.pos, s.lastRequest, s.learnt.uni);
      if u.Some? {
        match ParseEvcs(data, u.value.1, s.lastRequest, REPORT_FULL_STATUS, s.lastEvcId, s.learnt.evcs) {
          case Bad(_, _) =>
          case Absent(last, _) => SweepLeaves(s.(lastEvcId := last), m.value, s.learnt.(uni := u.value.0));
          case Good(evcs, last, r) =>
            var maps := ParseMaps(data, r, evcs.recs.Keys, u.value.0.mapType, s.learnt.maps);
            if Left(data, r) > 0 && maps.Some? {
              SweepLeaves(s.(lastEvcId := last), m.value, Learnt(u.value.0, evcs, maps.value.0));
            }
        }
      }
    }
  }

  lemma {:induction false} FilteredHas(nodes: seq<u16>, evcs: Records<LearntEvc>, id: u16)
    ensures id in Filter(nodes, evcs) <==> id in nodes && id in evcs.recs && evcs.recs[id].active
  {
    if nodes != [] {
      FilteredHas(nodes[1..], evcs, id);
    }
  }

  /** The closing sweep keeps exactly the EVCs seen in the exchange. */
  lemma SweepLeaves(s: State, m: SeqDi, learnt: Learnt)
    ensures var r := Sweep(s, m, learnt);
            var was, now := learnt.evcs, r.state.learnt.evcs;
            && r.built == [] && !r.sent
            && (r.ok <==> forall id | id in was.nodes && id in was.recs && was.recs[id].active ::
                            id in learnt.maps.recs)
            && if !r.ok then Nothing(r.state.learnt) && r.state == s.(learnt := r.state.learnt)
               else
                 && r.state == s.(learnt := r.state.learnt, rcvdResponse := true, rcvdSeq := m.seqNum,
                                  dataInstance := m.di)
                 && r.state.learnt.uni == learnt.uni && r.state.learnt.maps == learnt.maps
                 && (forall id :: id in now.recs <==> id in was.recs && was.recs[id].active)
                 && (forall id | id in now.recs :: now.recs[id] == was.recs[id])
                 && forall id :: id in now.nodes <==> id in was.nodes && id in was.recs && was.recs[id].active
  {
    var r := Sweep(s, m, learnt);
    if r.ok {
      forall id
        ensures id in r.state.learnt.evcs.nodes <==>
                id in learnt.evcs.nodes && id in learnt.evcs.recs && learnt.evcs.recs[id].active
      {
        FilteredHas(learnt.evcs.nodes, learnt.evcs, id);
      }
    }
  }

  /** A continued answer, whatever its octets. With a wrong number or data instance it changes nothing. Turned down, it
      leaves nothing learnt, or at most adds to the EVCs known. Accepted, its number is taken over, the data instance is
      not, and the next continued enquiry follows. */
  lemma ContdLeaves(data: bytes, p: nat, s: State, ch: Channel)
    ensures var r, m := ParseContd(data, p, s, ch), ParseSeqDi(data, p, s.sentSeq);
            if m.None? then r == Parsed(s, false, [], false)
            else if !r.ok
            then r.built == [] && !r.sent
                 && (Nothing(r.state.learnt) || r.state.learnt.maps == s.learnt.maps)
                 && r.state == s.(learnt := r.state.learnt, lastEvcId := r.state.lastEvcId)
            else
              EnquiryOnly(s.(learnt := r.state.learnt, lastEvcId := r.state.lastEvcId, rcvdSeq := m.value.seqNum,
                             lastRequest := 3),
                          r.state, 3, ch, r.built, r.sent)
  {
    hide ParseSeqDi, ParseUni, ParseEvcs, MapsIfAny, Transmit;
    var m := ParseSeqDi(data, p, s.sentSeq);
    if m.Some? {
      var u := ContdUni(data, m.value.pos, s.lastRequest, s.learnt.uni);
      if u.Some? {
        match ParseEvcs(data, u.value.1, s.lastRequest, REPORT_FULL_STATUS_CONTD, s.lastEvcId, s.learnt.evcs) {
          case Bad(_, _) =>
          case Absent(last, r) =>
            ContdMapsLeave(data, r, s.(lastEvcId := last), m.value, u.value.0, s.learnt.evcs, ch);
          case Good(evcs, last, r) =>
            ContdMapsLeave(data, r, s.(lastEvcId := last), m.value, u.value.0, evcs, ch);
        }
      }
    }
  }

  lemma ContdMapsLeave(data: bytes, r: nat, s: State, m: SeqDi, uni: LearntUni, evcs: Records<LearntEvc>, ch: Channel)
    ensures var t := ContdMaps(data, r, s, m, uni, evcs, ch);
            if !t.ok
            then t.built == [] && !t.sent && Nothing(t.state.learnt) && t.state == s.(learnt := t.state.learnt)
            else
              EnquiryOnly(s.(learnt := Learnt(uni, evcs, t.state.learnt.maps), rcvdSeq := m.seqNum, lastRequest := 3),
                          t.state, 3, ch, t.built, t.sent)
  {
    hide MapsIfAny, Transmit;
    var maps := MapsIfAny(data, r, evcs.recs.Keys, uni.mapType, s.learnt.maps);
    if maps.Some? {
      EnquiryLeaves(s.(learnt := Learnt(uni, evcs, maps.value.0), rcvdSeq := m.seqNum,
                       lastRequest := REPORT_FULL_STATUS_CONTD), REPORT_FULL_STATUS_CONTD, ch);
    }
  }

  /** A valid message of a report type that is none of the four counts as heard, closes the request, and does nothing
      else. */
  lemma OtherReports(cfg: Config, s: State, data: bytes, ch: Channel)
    requires Validate(data, s.requestSent, s.lastRequest).Some?
    requires Validate(data, s.requestSent, s.lastRequest).value.0 !in {0, 1, 2, 3}
    ensures var (s2, o) := Handle(cfg, s, data, ch);
            && o.built == [] && !o.sent && o.validated && o.obs == [Accept]
            && s2 == s.(requestSent := false, health := s2.health)
  {
  }

  // ---- parts of a message ----

  /** The VLANs of a map element: the words below 4096 among its entries. */
  lemma {:induction false} VidsExactly(data: bytes, p: nat, n: nat, v: vid)
    ensures v in VidsAt(data, p, n) <==> exists i :: 0 <= i < n && WordAt(data, p + 2 * i) == v
    decreases n
  {
    if n > 0 {
      VidsExactly(data, p, n - 1, v);
      assert WordAt(data, p + 2 * (n - 1)) == v ==> exists i :: 0 <= i < n && WordAt(data, p + 2 * i) == v;
    }
  }

  /** A run of n + 1 per-class profiles in the standard's layout, fourteen octets each from p on, is skipped as a
      whole. */
  lemma {:induction false} ClassesSkipped(data: bytes, p: nat, n: nat)
    requires |data| >= p + 14 * n + 14 && At(data, p + 14 * n + 14) != 0x71
    requires forall j :: 0 < j <= n ==> At(data, p + 14 * j) == 0x71 && At(data, p + 14 * j + 1) >= 12
    ensures SkipCos(data, p + 3) == Some(p + 14 * n + 14)
    decreases n
  {
    if n > 0 {
      assert At(data, p + 14 * 1) == 0x71;
      forall j | 0 < j <= n - 1
        ensures At(data, p + 14 + 14 * j) == 0x71 && At(data, p + 14 + 14 * j + 1) >= 12
      {
        assert At(data, p + 14 * (j + 1)) == 0x71 && At(data, p + 14 * (j + 1) + 1) >= 12;
        assert p + 14 * (j + 1) == p + 14 + 14 * j;
      }
      ClassesSkipped(data, p + 14, n - 1);
    }
  }

  /** They only set the level of the record: no profile is learnt from them. */
  lemma ClassesLearnt(data: bytes, p: nat, n: nat, evc: LearntEvc)
    requires At(data, p) == 0x71 && At(data, p + 1) >= 12 && At(data, p + 2) % 2 == 1
    requires |data| >= p + 14 * n + 14 && At(data, p + 14 * n + 14) != 0x71
    requires forall j :: 0 < j <= n ==> At(data, p + 14 * j) == 0x71 && At(data, p + 14 * j + 1) >= 12
    ensures ParseEvcBw(data, p, evc) == Some((evc.(level := 2), p + 14 * n + 14))
  {
    hide SkipCos;
    ClassesSkipped(data, p, n);
  }

  /** A message whose EVC section does not begin with an EVC Status element: a UNI Status element is taken for the
      end of the section and only its type is read, a map ends the section unless the enquiry was a first one, and any
      other octet is passed over. No EVC is learnt in any of the cases. */
  lemma NoEvcSection(data: bytes, p: nat, lastRequest: u8, report: u8, last: u16, evcs: Records<LearntEvc>)
    requires At(data, p) != 0x21
    ensures ParseEvcs(data, p, lastRequest, report, last, evcs)
         == if p + 2 > |data| then Bad(evcs, last)
            else if At(data, p) == 0x11 then Good(evcs, 0, p + 1)
            else if At(data, p) == 0x22 then if lastRequest == 0 then Bad(evcs, last) else Good(evcs, last, p)
            else Absent(last, p + 1)
  {
  }
}
