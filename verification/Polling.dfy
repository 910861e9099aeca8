/** Whole runs of UNI-C: any sequence of timer expiries and received frames after the port is enabled. */
module Polling {
  import opened Octets
  import opened Wire
  import opened Hysteresis
  import opened UniCSpec

  /** A polling timer expiry, or the arrival of arbitrary octets. */
  datatype Event = Expiry(ch: Channel) | Arrival(frame: bytes, ch: Channel)

  function Step(cfg: Config, s: State, e: Event): (State, Output) {
    match e
    case Expiry(ch) => PollExpiry(cfg, s, ch)
    case Arrival(frame, ch) => UniCSpec.Handle(cfg, s, frame, ch)
  }

  datatype Start = Start(cfg: Config, learnt: Learnt, ch: Channel)

  function StateAfter(st: Start, es: seq<Event>): State {
    if es == [] then Enable(st.cfg, st.learnt, st.ch).0
    else Step(st.cfg, StateAfter(st, es[..|es| - 1]), es[|es| - 1]).0
  }

  /** One output for enabling the port and one for each event. */
  function Outputs(st: Start, es: seq<Event>): (os: seq<Output>)
    ensures |os| == |es| + 1
  {
    if es == [] then [Enable(st.cfg, st.learnt, st.ch).1]
    else Outputs(st, es[..|es| - 1]) + [Step(st.cfg, StateAfter(st, es[..|es| - 1]), es[|es| - 1]).1]
  }

  // ---- the protocol fields alone ----

  /** The fields the polling protocol turns on, without what has been learnt. */
  datatype Core = Core(sentSeq: u8, rcvdResponse: bool, requestSent: bool, lastRequest: u8, pollCounter: u16,
                       health: Health)

  function CoreOf(s: State): Core {
    Core(s.sentSeq, s.rcvdResponse, s.requestSent, s.lastRequest, s.pollCounter, s.health)
  }

  /** The enquiry of a step as far as the protocol fields show it: its report type and whether it went out. */
  datatype Asked = Nothing | Asked(report: u8, sent: bool)

  function Ask(c: Core, report: u8, ch: Channel): (Core, Asked) {
    if !ch.linkUp then (c, Nothing)
    else
      var c1 := c.(rcvdResponse := false, sentSeq := NextSeq(c.sentSeq));
      (if ch.sendOk then c1.(lastRequest := report, requestSent := true) else c1, Asked(report, ch.sendOk))
  }

  /** What a message of this report type does when its parser has finished with it. */
  datatype Effect = TurnedDown | Passive | Complete | Confirmed | Outdated | Continued

  function EffectOn(c: Core, effect: Effect, ch: Channel): (Core, Asked) {
    match effect
    case TurnedDown => (c, Nothing)
    case Passive => (c, Nothing)
    case Complete => (c.(rcvdResponse := true), Nothing)
    case Confirmed => (c.(rcvdResponse := true), Nothing)
    case Outdated => Ask(c.(rcvdResponse := true), REPORT_FULL_STATUS, ch)
    case Continued => Ask(c.(lastRequest := REPORT_FULL_STATUS_CONTD), REPORT_FULL_STATUS_CONTD, ch)
  }

  /** Which effects a report type can have. */
  predicate Possible(effect: Effect, report: u8) {
    match effect
    case TurnedDown => true
    case Passive => report !in {REPORT_FULL_STATUS, REPORT_ECHECK, REPORT_FULL_STATUS_CONTD}
    case Complete => report == REPORT_FULL_STATUS
    case Confirmed => report == REPORT_ECHECK
    case Outdated => report == REPORT_ECHECK
    case Continued => report == REPORT_FULL_STATUS_CONTD
  }

  /** What can happen to the protocol fields in one step. */
  datatype Act = Ignored | Timeout(ch: Channel) | Message(report: u8, effect: Effect, ch: Channel)

  ghost predicate Enabled(c: Core, a: Act) {
    a.Message? ==>
      && (a.report == REPORT_SINGLE_EVC || c.requestSent)
      && (a.report == REPORT_ECHECK ==>
            c.lastRequest !in {REPORT_FULL_STATUS, REPORT_FULL_STATUS_CONTD, REPORT_INVALID})
      && (a.report in {REPORT_FULL_STATUS, REPORT_FULL_STATUS_CONTD} ==>
            c.lastRequest !in {REPORT_ECHECK, REPORT_INVALID})
      && Possible(a.effect, a.report)
  }

  function TimeoutReport(c: Core): u8 {
    if (!c.rcvdResponse && c.lastRequest in {REPORT_FULL_STATUS, REPORT_FULL_STATUS_CONTD}) || c.pollCounter <= 1
    then REPORT_FULL_STATUS else REPORT_ECHECK
  }

  function CoreStep(cfg: Config, c: Core, a: Act): (Core, Asked) {
    match a
    case Ignored => (c, Nothing)
    case Timeout(ch) =>
      var c1 := c.(pollCounter := if c.pollCounter <= 1 then cfg.n391 else c.pollCounter - 1,
                   health := if c.rcvdResponse then c.health else OnMiss(UniC, c.health, cfg.n393).0);
      Ask(c1, TimeoutReport(c), ch)
    case Message(report, effect, ch) =>
      var (c1, asked) := EffectOn(if report != REPORT_SINGLE_EVC then c.(requestSent := false) else c, effect, ch);
      (if effect == TurnedDown then c1 else c1.(health := OnAccept(c1.health, cfg.n393).0), asked)
  }

  /** What an enquiry starts with: message type, report type and sequence number. */
  predicate EnquiryOctets(frame: bytes, report: u8, sent: u8) {
    && At(frame, 1) == MSG_STATUS_ENQUIRY && At(frame, 2) == REPORT_TYPE_IE
    && At(frame, 4) == report && At(frame, 7) == sent
  }

  /** The enquiry of a step. */
  ghost predicate Carries(built: seq<bytes>, sent: bool, asked: Asked, sentSeq: u8) {
    && sent == (asked.Asked? && asked.sent)
    && if asked.Asked? then |built| == 1 && EnquiryOctets(built[0], asked.report, sentSeq) else built == []
  }

  /** The output belonging to an abstract step. */
  ghost predicate Shows(o: Output, n393: nat, c: Core, a: Act, c2: Core, asked: Asked) {
    && Carries(o.built, o.sent, asked, c2.sentSeq)
    && o.validated == (a.Message? && a.report != REPORT_SINGLE_EVC)
    && o.accepted == (if a.Message? && a.effect != TurnedDown then Some(a.report) else None)
    && o.obs == (if o.accepted.Some? then [Accept] else if a.Timeout? && !c.rcvdResponse then [Miss] else [])
    && o.notes == (if o.obs == [] then [] else Hysteresis.Step(UniC, c.health, n393, o.obs[0]).1)
  }

  lemma EnquiryHasOctets(report: u8, sent: u8, rcvd: u8, di: u32)
    ensures EnquiryOctets(Enquiry(report, sent, rcvd, di), report, sent)
  {
  }

  lemma TransmitIsAsk(s: State, report: u8, ch: Channel)
    ensures var (s2, built, sent) := Transmit(s, report, ch);
            var (c2, asked) := Ask(CoreOf(s), report, ch);
            CoreOf(s2) == c2 && Carries(built, sent, asked, c2.sentSeq)
  {
    EnquiryHasOctets(report, NextSeq(s.sentSeq), s.rcvdSeq, s.dataInstance);
  }

  /** Every parser has one of the effects on the protocol fields. */
  ghost predicate Does(r: Parsed, s: State, effect: Effect, ch: Channel) {
    var (c2, asked) := EffectOn(CoreOf(s), effect, ch);
    && CoreOf(r.state) == c2 && r.ok == (effect != TurnedDown) && Carries(r.built, r.sent, asked, c2.sentSeq)
  }

  lemma SweepDoes(s: State, m: SeqDi, learnt: Learnt, ch: Channel) returns (effect: Effect)
    ensures effect in {TurnedDown, Complete} && Does(Sweep(s, m, learnt), s, effect, ch)
  {
    effect := if Sweep(s, m, learnt).ok then Complete else TurnedDown;
  }

  lemma FullDoes(data: bytes, p: nat, s: State, ch: Channel) returns (effect: Effect)
    ensures effect in {TurnedDown, Complete} && Does(ParseFull(data, p, s), s, effect, ch)
  {
    effect := TurnedDown;
    var m := ParseSeqDi(data, p, s.sentSeq);
    if m.Some? {
      var u := ParseUni(data, m.value.pos, s.lastRequest, s.learnt.uni);
      if u.Some? {
        match ParseEvcs(data, u.value.1, s.lastRequest, REPORT_FULL_STATUS, s.lastEvcId, s.learnt.evcs) {
          case Bad(_, _) =>
          case Absent(last, _) =>
            effect := SweepDoes(s.(lastEvcId := last), m.value, s.learnt.(uni := u.value.0), ch);
          case Good(evcs, last, r) =>
            var maps := ParseMaps(data, r, evcs.recs.Keys, u.value.0.mapType, s.learnt.maps);
            if Left(data, r) > 0 && maps.Some? {
              effect := SweepDoes(s.(lastEvcId := last), m.value, Learnt(u.value.0, evcs, maps.value.0), ch);
            }
        }
      }
    }
  }

  lemma StatusDoes(data: bytes, p: nat, s: State, ch: Channel) returns (effect: Effect)
    ensures effect in {TurnedDown, Confirmed, Outdated} && Does(ParseStatus(data, p, s, ch), s, effect, ch)
  {
    var m := ParseSeqDi(data, p, s.sentSeq);
    effect := if m.None? then TurnedDown else if s.dataInstance == m.value.di then Confirmed else Outdated;
    if m.Some? {
      TransmitIsAsk(s.(rcvdSeq := m.value.seqNum, rcvdResponse := true), REPORT_FULL_STATUS, ch);
    }
  }

  lemma MapsDo(data: bytes, r: nat, s: State, m: SeqDi, uni: LearntUni, evcs: Records<LearntEvc>, ch: Channel)
      returns (effect: Effect)
    ensures effect in {TurnedDown, Continued} && Does(ContdMaps(data, r, s, m, uni, evcs, ch), s, effect, ch)
  {
    var maps := MapsIfAny(data, r, evcs.recs.Keys, uni.mapType, s.learnt.maps);
    effect := if maps.None? then TurnedDown else Continued;
    if maps.Some? {
      TransmitIsAsk(s.(learnt := Learnt(uni, evcs, maps.value.0), rcvdSeq := m.seqNum,
                       lastRequest := REPORT_FULL_STATUS_CONTD), REPORT_FULL_STATUS_CONTD, ch);
    }
  }

  lemma ContdDoes(data: bytes, p: nat, s: State, ch: Channel) returns (effect: Effect)
    ensures effect in {TurnedDown, Continued} && Does(ParseContd(data, p, s, ch), s, effect, ch)
  {
    effect := TurnedDown;
    var m := ParseSeqDi(data, p, s.sentSeq);
    if m.Some? {
      var u := ContdUni(data, m.value.pos, s.lastRequest, s.learnt.uni);
      if u.Some? {
        match ParseEvcs(data, u.value.1, s.lastRequest, REPORT_FULL_STATUS_CONTD, s.lastEvcId, s.learnt.evcs) {
          case Bad(_, _) =>
          case Absent(last, r) =>
            effect := MapsDo(data, r, s.(lastEvcId := last), m.value, u.value.0, s.learnt.evcs, ch);
          case Good(evcs, last, r) =>
            effect := MapsDo(data, r, s.(lastEvcId := last), m.value, u.value.0, evcs, ch);
        }
      }
    }
  }

  lemma DispatchDoes(data: bytes, report: u8, p: nat, s: State, ch: Channel) returns (effect: Effect)
    ensures Possible(effect, report) && Does(Dispatch(data, report, p, s, ch), s, effect, ch)
  {
    if report == REPORT_FULL_STATUS {
      effect := FullDoes(data, p, s, ch);
    } else if report == REPORT_ECHECK {
      effect := StatusDoes(data, p, s, ch);
    } else if report == REPORT_FULL_STATUS_CONTD {
      effect := ContdDoes(data, p, s, ch);
    } else if report == REPORT_SINGLE_EVC {
      effect := if ParseAsync(data, p, s).ok then Passive else TurnedDown;
    } else {
      effect := Passive;
    }
  }

  /** Every step of UNI-C, whatever octets arrive, is a step on the protocol fields. */
  lemma StepIsCoreStep(cfg: Config, s: State, e: Event) returns (a: Act)
    ensures var (s2, o) := Step(cfg, s, e);
            var (c2, asked) := CoreStep(cfg, CoreOf(s), a);
            Enabled(CoreOf(s), a) && CoreOf(s2) == c2 && Shows(o, cfg.n393, CoreOf(s), a, c2, asked)
    ensures if e.Expiry? then a == Timeout(e.ch) else !a.Timeout?
  {
    match e {
      case Expiry(ch) =>
        a := Timeout(ch);
        ExpiryIsTimeout(cfg, s, ch);
      case Arrival(frame, ch) =>
        a := Ignored;
        var v := Validate(frame, s.requestSent, s.lastRequest);
        if v.Some? {
          a := ArrivalIsMessage(cfg, s, frame, ch, v.value.0, v.value.1);
        }
    }
  }

  lemma ArrivalIsMessage(cfg: Config, s: State, frame: bytes, ch: Channel, report: u8, p: nat) returns (a: Act)
    requires Validate(frame, s.requestSent, s.lastRequest) == Some((report, p))
    ensures var (s2, o) := UniCSpec.Handle(cfg, s, frame, ch);
            var (c2, asked) := CoreStep(cfg, CoreOf(s), a);
            Enabled(CoreOf(s), a) && CoreOf(s2) == c2 && Shows(o, cfg.n393, CoreOf(s), a, c2, asked)
    ensures a.Message?
  {
    var s1 := if report != REPORT_SINGLE_EVC then s.(requestSent := false) else s;
    var effect := DispatchDoes(frame, report, p, s1, ch);
    a := Message(report, effect, ch);
  }

  lemma ExpiryIsTimeout(cfg: Config, s: State, ch: Channel)
    ensures var (s2, o) := PollExpiry(cfg, s, ch);
            var (c2, asked) := CoreStep(cfg, CoreOf(s), Timeout(ch));
            CoreOf(s2) == c2 && Shows(o, cfg.n393, CoreOf(s), Timeout(ch), c2, asked)
  {
    var counter: u16 := if s.pollCounter != 0 then s.pollCounter - 1 else 0;
    var h := if s.rcvdResponse then s.health else OnMiss(UniC, s.health, cfg.n393).0;
    TransmitIsAsk(s.(pollCounter := if counter == 0 then cfg.n391 else counter, health := h), TimeoutReport(CoreOf(s)),
                  ch);
  }

  // ---- runs ----

  function CoreStart(n391: u16): Core {
    Core(0, false, false, REPORT_INVALID, n391, INITIAL)
  }

  ghost predicate Starts(st: Start, c: Core, o: Output) {
    var (c2, asked) := Ask(CoreStart(st.cfg.n391), REPORT_FULL_STATUS, st.ch);
    && c == c2 && Carries(o.built, o.sent, asked, c2.sentSeq)
    && !o.validated && o.accepted == None && o.obs == [] && o.notes == [true]
  }

  ghost predicate Moves(cfg: Config, c: Core, a: Act, c2: Core, o: Output) {
    Enabled(c, a) && c2 == CoreStep(cfg, c, a).0 && Shows(o, cfg.n393, c, a, c2, CoreStep(cfg, c, a).1)
  }

  /** A run seen on the protocol fields: the fields after each step, what happened, and what was shown. */
  ghost predicate CoreRun(st: Start, cs: seq<Core>, acts: seq<Act>, os: seq<Output>) {
    && |cs| == |os| == |acts| + 1
    && Starts(st, cs[0], os[0])
    && forall i | 0 <= i < |acts| :: Moves(st.cfg, cs[i], acts[i], cs[i + 1], os[i + 1])
  }

  ghost predicate Acts(es: seq<Event>, acts: seq<Act>) {
    && |acts| == |es|
    && forall i | 0 <= i < |es| :: if es[i].Expiry? then acts[i] == Timeout(es[i].ch) else !acts[i].Timeout?
  }

  /** Every run of UNI-C is a run on the protocol fields. */
  lemma {:induction false} RunIsCoreRun(st: Start, es: seq<Event>) returns (cs: seq<Core>, acts: seq<Act>)
    ensures CoreRun(st, cs, acts, Outputs(st, es)) && cs[|cs| - 1] == CoreOf(StateAfter(st, es)) && Acts(es, acts)
  {
    hide Moves, Shows, CoreStep, Carries, UniCSpec.Handle, UniCSpec.PollExpiry, UniCSpec.Transmit, Ask;
    if es == [] {
      cs, acts := [CoreOf(StateAfter(st, es))], [];
      TransmitIsAsk(UniCSpec.State(st.learnt, 0, 0, 0, 0, false, false, REPORT_INVALID, st.cfg.n391, INITIAL),
                    REPORT_FULL_STATUS, st.ch);
    } else {
      var init, e := es[..|es| - 1], es[|es| - 1];
      cs, acts := RunIsCoreRun(st, init);
      var a := StepIsCoreStep(st.cfg, StateAfter(st, init), e);
      var c, o := CoreOf(StateAfter(st, es)), Step(st.cfg, StateAfter(st, init), e).1;
      RunGrows(st, cs, acts, Outputs(st, init), a, c, o);
      assert Outputs(st, es) == Outputs(st, init) + [o];
      cs, acts := cs + [c], acts + [a];
    }
  }

  lemma RunGrows(st: Start, cs: seq<Core>, acts: seq<Act>, os: seq<Output>, a: Act, c: Core, o: Output)
    requires CoreRun(st, cs, acts, os) && Moves(st.cfg, cs[|cs| - 1], a, c, o)
    ensures CoreRun(st, cs + [c], acts + [a], os + [o])
  {
    forall i | 0 <= i < |acts| + 1
      ensures Moves(st.cfg, (cs + [c])[i], (acts + [a])[i], (cs + [c])[i + 1], (os + [o])[i + 1])
    {
    }
  }

  lemma RunShrinks(st: Start, cs: seq<Core>, acts: seq<Act>, os: seq<Output>, n: nat)
    requires CoreRun(st, cs, acts, os) && 1 <= n <= |cs|
    ensures CoreRun(st, cs[..n], acts[..n - 1], os[..n])
  {
  }

  // ---- conservation ----

  function SentCount(os: seq<Output>): nat {
    if os == [] then 0 else SentCount(os[..|os| - 1]) + (if os[|os| - 1].sent then 1 else 0)
  }

  function ValidatedCount(os: seq<Output>): nat {
    if os == [] then 0 else ValidatedCount(os[..|os| - 1]) + (if os[|os| - 1].validated then 1 else 0)
  }

  lemma {:induction false} Conserved(st: Start, cs: seq<Core>, acts: seq<Act>, os: seq<Output>)
    requires CoreRun(st, cs, acts, os)
    ensures ValidatedCount(os) + (if cs[|cs| - 1].requestSent then 1 else 0) <= SentCount(os)
    decreases |cs|
  {
    var n := |cs| - 1;
    if n == 0 {
      assert os[..0] == [];
    } else {
      RunShrinks(st, cs, acts, os, n);
      Conserved(st, cs[..n], acts[..n - 1], os[..n]);
      assert Moves(st.cfg, cs[n - 1], acts[n - 1], cs[n], os[n]);
    }
  }

  /** Responses that pass validation never outnumber the enquiries sent, and there is one to spare while
      a request is open. */
  lemma Conservation(st: Start, es: seq<Event>)
    ensures ValidatedCount(Outputs(st, es)) + (if StateAfter(st, es).requestSent then 1 else 0)
         <= SentCount(Outputs(st, es))
  {
    var cs, acts := RunIsCoreRun(st, es);
    Conserved(st, cs, acts, Outputs(st, es));
  }

  // ---- retry ----

  predicate SentAs(o: Output, report: u8) {
    o.sent && |o.built| == 1 && At(o.built[0], 4) == report
  }

  predicate Opens(o: Output) {
    SentAs(o, REPORT_FULL_STATUS) || SentAs(o, REPORT_FULL_STATUS_CONTD)
  }

  /** A Full Status exchange has been opened and is not complete. */
  predicate Waits(c: Core) {
    c.lastRequest in {REPORT_FULL_STATUS, REPORT_FULL_STATUS_CONTD} && !c.rcvdResponse
  }

  lemma WaitMoves(cfg: Config, c: Core, a: Act, c2: Core, o: Output)
    requires Moves(cfg, c, a, c2, o)
    ensures Opens(o) ==> Waits(c2)
    ensures Waits(c) && o.accepted != Some(REPORT_FULL_STATUS) ==> Waits(c2)
    ensures Waits(c) ==> !SentAs(o, REPORT_ECHECK)
  {
  }

  lemma {:induction false} StaysWaiting(st: Start, cs: seq<Core>, acts: seq<Act>, os: seq<Output>, i: nat, n: nat)
    requires CoreRun(st, cs, acts, os) && i <= n < |cs| && Opens(os[i])
    requires forall k | i < k <= n :: os[k].accepted != Some(REPORT_FULL_STATUS)
    ensures Waits(cs[n])
    decreases n
  {
    if n > 0 {
      if n > i {
        StaysWaiting(st, cs, acts, os, i, n - 1);
      }
      assert Moves(st.cfg, cs[n - 1], acts[n - 1], cs[n], os[n]);
      WaitMoves(st.cfg, cs[n - 1], acts[n - 1], cs[n], os[n]);
    }
  }

  /** Once a FULL_STATUS or CONTD enquiry has been sent, no ECHECK is sent before a Full Status response
      has been accepted. */
  lemma RetryUntilComplete(st: Start, es: seq<Event>, i: nat, j: nat)
    requires i < j <= |es|
    requires Opens(Outputs(st, es)[i]) && SentAs(Outputs(st, es)[j], REPORT_ECHECK)
    ensures exists k :: i < k < j && Outputs(st, es)[k].accepted == Some(REPORT_FULL_STATUS)
  {
    hide Moves, StateAfter, Outputs, Starts, CoreOf;
    var os := Outputs(st, es);
    var cs, acts := RunIsCoreRun(st, es);
    if forall k | i < k < j :: os[k].accepted != Some(REPORT_FULL_STATUS) {
      StaysWaiting(st, cs, acts, os, i, j - 1);
      assert Moves(st.cfg, cs[j - 1], acts[j - 1], cs[j], os[j]);
      WaitMoves(st.cfg, cs[j - 1], acts[j - 1], cs[j], os[j]);
    }
  }

  // ---- N391 ----

  function Expiries(es: seq<Event>): nat {
    if es == [] then 0 else Expiries(es[..|es| - 1]) + (if es[|es| - 1].Expiry? then 1 else 0)
  }

  lemma NextModulo(m: nat, n: nat)
    requires n >= 1
    ensures (m + 1) % n == if m % n + 1 == n then 0 else m % n + 1
  {
    var q, r := m / n, m % n;
    assert m == q * n + r;
    if r + 1 == n {
      assert m + 1 == (q + 1) * n;
      ModuloOf(q + 1, 0, n);
    } else {
      ModuloOf(q, r + 1, n);
    }
  }

  lemma ModuloOf(q: nat, r: nat, n: nat)
    requires r < n
    ensures (q * n + r) % n == r
  {
    var x := q * n + r;
    var q2, r2 := x / n, x % n;
    assert x == q2 * n + r2;
    if q2 < q {
      AtLeast(q, q2, n);
    } else if q < q2 {
      AtLeast(q2, q, n);
    }
  }

  lemma {:induction false} AtLeast(k: nat, j: nat, n: nat)
    requires j < k
    ensures k * n >= j * n + n
    decreases k
  {
    assert k * n == (k - 1) * n + n;
    if j < k - 1 {
      AtLeast(k - 1, j, n);
    }
  }

  /** One expiry: the counter starts over when it has come down to nothing. */
  function Ticked(counter: u16, n: u16): u16 {
    if counter <= 1 then n else counter - 1
  }

  lemma CounterMoves(cfg: Config, c: Core, a: Act, c2: Core, o: Output)
    requires Moves(cfg, c, a, c2, o)
    ensures c2.pollCounter == if a.Timeout? then Ticked(c.pollCounter, cfg.n391) else c.pollCounter
  {
  }

  lemma {:induction false} CounterOf(st: Start, cs: seq<Core>, acts: seq<Act>, os: seq<Output>, es: seq<Event>)
    requires CoreRun(st, cs, acts, os) && Acts(es, acts) && st.cfg.n391 >= 1
    ensures cs[|cs| - 1].pollCounter == CounterAfter(Expiries(es), st.cfg.n391)
    decreases |cs|
  {
    var n := |cs| - 1;
    if n > 0 {
      RunShrinks(st, cs, acts, os, n);
      CounterOf(st, cs[..n], acts[..n - 1], os[..n], es[..n - 1]);
      CounterMoves(st.cfg, cs[n - 1], acts[n - 1], cs[n], os[n]);
    }
  }

  /** The polling counter after m expiries. */
  function CounterAfter(m: nat, n: u16): u16 {
    if m == 0 then n else Ticked(CounterAfter(m - 1, n), n)
  }

  lemma {:induction false} CounterAfterIs(m: nat, n: u16)
    requires n >= 1
    ensures CounterAfter(m, n) == n - m % n
  {
    if m == 0 {
      ModuloOf(0, 0, n);
    } else {
      CounterAfterIs(m - 1, n);
      NextModulo(m - 1, n);
    }
  }

  /** Between expiries the polling counter is in 1..N391, counting down from each multiple of N391. */
  lemma PollCounter(st: Start, es: seq<Event>)
    requires st.cfg.n391 >= 1
    ensures StateAfter(st, es).pollCounter == st.cfg.n391 - Expiries(es) % st.cfg.n391
    ensures 1 <= StateAfter(st, es).pollCounter <= st.cfg.n391
  {
    var cs, acts := RunIsCoreRun(st, es);
    CounterOf(st, cs, acts, Outputs(st, es), es);
    CounterAfterIs(Expiries(es), st.cfg.n391);
  }

  lemma TimeoutAtOne(cfg: Config, s: State, ch: Channel)
    requires s.pollCounter == 1 && ch.linkUp
    ensures var o := PollExpiry(cfg, s, ch).1;
            |o.built| == 1 && At(o.built[0], 4) == REPORT_FULL_STATUS
  {
    ExpiryIsTimeout(cfg, s, ch);
  }

  /** In every run the timer asks for FULL_STATUS at every N391-th expiry. */
  lemma FullAtEveryN391(st: Start, es: seq<Event>, ch: Channel)
    requires st.cfg.n391 >= 1 && (Expiries(es) + 1) % st.cfg.n391 == 0 && ch.linkUp
    ensures var o := PollExpiry(st.cfg, StateAfter(st, es), ch).1;
            |o.built| == 1 && At(o.built[0], 4) == REPORT_FULL_STATUS
  {
    PollCounter(st, es);
    NextModulo(Expiries(es), st.cfg.n391);
    TimeoutAtOne(st.cfg, StateAfter(st, es), ch);
  }

  // ---- sequence numbers ----

  /** All enquiries built in a run, in order. */
  function Enquiries(os: seq<Output>): seq<bytes> {
    if os == [] then [] else Enquiries(os[..|os| - 1]) + os[|os| - 1].built
  }

  /** The number carried by the k-th enquiry, k > 0. */
  function SeqOf(k: nat): u8 {
    if k == 0 then 0 else (k - 1) % 255 + 1
  }

  lemma NextSeqOf(k: nat)
    ensures NextSeq(SeqOf(k)) == SeqOf(k + 1) != 0
  {
  }

  lemma {:induction false} NumbersOf(st: Start, cs: seq<Core>, acts: seq<Act>, os: seq<Output>)
    requires CoreRun(st, cs, acts, os)
    ensures cs[|cs| - 1].sentSeq == SeqOf(|Enquiries(os)|)
    ensures Numbered(Enquiries(os))
    decreases |cs|
  {
    var n := |cs| - 1;
    if n == 0 {
      assert os[..0] == [];
    } else {
      RunShrinks(st, cs, acts, os, n);
      NumbersOf(st, cs[..n], acts[..n - 1], os[..n]);
      EnquiryMoves(st.cfg, cs[n - 1], acts[n - 1], cs[n], os[n], Enquiries(os[..n]));
    }
  }

  ghost predicate Numbered(es: seq<bytes>) {
    forall k | 0 <= k < |es| :: At(es[k], 7) == SeqOf(k + 1)
  }

  lemma EnquiryMoves(cfg: Config, c: Core, a: Act, c2: Core, o: Output, before: seq<bytes>)
    requires Moves(cfg, c, a, c2, o) && c.sentSeq == SeqOf(|before|) && Numbered(before)
    ensures c2.sentSeq == SeqOf(|before + o.built|) && Numbered(before + o.built)
  {
    NextSeqOf(|before|);
  }

  /** The k-th enquiry of a run carries ((k-1) mod 255) + 1, which is never zero. */
  lemma SequenceNumbers(st: Start, es: seq<Event>)
    ensures StateAfter(st, es).sentSeq == SeqOf(|Enquiries(Outputs(st, es))|)
    ensures forall k | 0 <= k < |Enquiries(Outputs(st, es))| :: At(Enquiries(Outputs(st, es))[k], 7) == k % 255 + 1
  {
    var cs, acts := RunIsCoreRun(st, es);
    NumbersOf(st, cs, acts, Outputs(st, es));
  }

  // ---- operational state ----

  function History(os: seq<Output>): seq<Obs> {
    if os == [] then [] else History(os[..|os| - 1]) + os[|os| - 1].obs
  }

  /** Everything told to NSM since the port was enabled. */
  function Told(os: seq<Output>): seq<bool> {
    if os == [] then [] else Told(os[..|os| - 1]) + os[|os| - 1].notes
  }

  lemma HistoryGrows(n393: nat, h: seq<Obs>, o: seq<Obs>)
    requires |o| <= 1
    ensures var x := After(UniC, n393, h);
            var next := if o == [] then (x, []) else Hysteresis.Step(UniC, x, n393, o[0]);
            After(UniC, n393, h + o) == next.0 && Notes(UniC, n393, h + o) == Notes(UniC, n393, h) + next.1
  {
    if o == [] {
      assert h + o == h;
    } else {
      assert Init(h + o) == h && Last(h + o) == o[0];
    }
  }

  lemma HealthMoves(cfg: Config, c: Core, a: Act, c2: Core, o: Output)
    requires Moves(cfg, c, a, c2, o)
    ensures |o.obs| <= 1
    ensures (c2.health, o.notes)
         == if o.obs == [] then (c.health, []) else Hysteresis.Step(UniC, c.health, cfg.n393, o.obs[0])
  {
  }

  lemma {:induction false} HealthOf(st: Start, cs: seq<Core>, acts: seq<Act>, os: seq<Output>)
    requires CoreRun(st, cs, acts, os)
    ensures cs[|cs| - 1].health == After(UniC, st.cfg.n393, History(os))
    ensures Told(os) == Notes(UniC, st.cfg.n393, History(os))
    decreases |cs|
  {
    hide Moves, Hysteresis.Step, Carries;
    var n := |cs| - 1;
    if n == 0 {
      assert os[..0] == [];
    } else {
      RunShrinks(st, cs, acts, os, n);
      HealthOf(st, cs[..n], acts[..n - 1], os[..n]);
      HealthMoves(st.cfg, cs[n - 1], acts[n - 1], cs[n], os[n]);
      HistoryGrows(st.cfg.n393, History(os[..n]), os[n].obs);
    }
  }

  /** The latest enquiry has been answered: a Full Status or ECHECK response has been accepted since it was built. */
  predicate Answered(os: seq<Output>) {
    if os == [] then false
    else
      var o := os[|os| - 1];
      if o.built != [] then false
      else o.accepted in {Some(REPORT_FULL_STATUS), Some(REPORT_ECHECK)} || Answered(os[..|os| - 1])
  }

  /** From the events, the enquiries and the messages accepted: every accepted message is an accept, every expiry whose
      enquiry has not been answered is a miss. */
  function Due(es: seq<Event>, os: seq<Output>): seq<Obs>
    requires |os| == |es| + 1
  {
    if es == [] then []
    else
      var n := |es|;
      Due(es[..n - 1], os[..n])
      + (if os[n].accepted.Some? then [Accept] else if es[n - 1].Expiry? && !Answered(os[..n]) then [Miss] else [])
  }

  lemma AnsweredNext(os: seq<Output>, n: nat, c: Core, a: Act, c2: Core, cfg: Config)
    requires n < |os| && Moves(cfg, c, a, c2, os[n]) && c.rcvdResponse == Answered(os[..n])
    ensures c2.rcvdResponse == Answered(os[..n + 1])
    ensures os[n].obs == if os[n].accepted.Some? then [Accept]
                         else if a.Timeout? && !Answered(os[..n]) then [Miss] else []
  {
    assert os[..n + 1][..n] == os[..n];
  }

  lemma {:induction false} RunIsDue(st: Start, cs: seq<Core>, acts: seq<Act>, os: seq<Output>, es: seq<Event>)
    requires CoreRun(st, cs, acts, os) && Acts(es, acts)
    ensures cs[|cs| - 1].rcvdResponse == Answered(os) && History(os) == Due(es, os)
    decreases |cs|
  {
    hide Moves;
    var n := |cs| - 1;
    assert os[..n + 1] == os;
    if n == 0 {
      StartUnanswered(st, cs[0], os[0]);
      assert os == [os[0]] && os[..0] == [];
    } else {
      RunShrinks(st, cs, acts, os, n);
      RunIsDue(st, cs[..n], acts[..n - 1], os[..n], es[..n - 1]);
      AnsweredNext(os, n, cs[n - 1], acts[n - 1], cs[n], st.cfg);
    }
  }

  lemma StartUnanswered(st: Start, c: Core, o: Output)
    requires Starts(st, c, o)
    ensures !c.rcvdResponse && !Answered([o]) && o.obs == []
  {
    assert [o][..0] == [];
  }

  /** In every run of UNI-C the state is DOWN exactly from the N393-th miss in a row until the N393-th accept in a row,
      a miss being an expiry whose enquiry was not answered; NSM hears UP first, then alternating states, and always
      knows the current one. */
  lemma OperationalState(st: Start, es: seq<Event>)
    requires 1 <= st.cfg.n393 <= 127
    ensures StateAfter(st, es).health.up <==> !Down(Due(es, Outputs(st, es)), st.cfg.n393)
    ensures var notes := Told(Outputs(st, es));
            && notes != [] && Last(notes) == StateAfter(st, es).health.up
            && forall i | 0 <= i < |notes| :: notes[i] == (i % 2 == 0)
  {
    var os := Outputs(st, es);
    var cs, acts := RunIsCoreRun(st, es);
    RunIsDue(st, cs, acts, os, es);
    HealthOf(st, cs, acts, os);
    RefinesHistory(UniC, st.cfg.n393, History(os));
    NotesAlternate(UniC, st.cfg.n393, History(os));
  }

  // ---- what an enquiry quotes ----

  /** The provider's number in a response: in the octet behind the length of the sequence number element, which may be
      preceded by repeated elements. */
  function NumberIn(frame: bytes): u8 {
    var p := if At(frame, 1) == MSG_STATUS then 2 else 3;
    var q := if At(frame, p) == REPORT_TYPE_IE then p + 3 else p + 4;
    At(frame, if At(frame, q) == SEQUENCE_NUM_IE then q + 2 else q + 4 + At(frame, q + 1))
  }

  /** The number in the last of the numbered responses accepted, or zero. */
  function LastNumber(es: seq<Event>, os: seq<Output>): u8
    requires |os| == |es| + 1
  {
    if es == [] then 0
    else
      var n := |es|;
      if es[n - 1].Arrival? && os[n].accepted in {Some(REPORT_FULL_STATUS), Some(REPORT_ECHECK),
                                                  Some(REPORT_FULL_STATUS_CONTD)}
      then NumberIn(es[n - 1].frame) else LastNumber(es[..n - 1], os[..n])
  }

  lemma TransmitQuotes(s: State, report: u8, ch: Channel)
    ensures var (s2, built, sent) := Transmit(s, report, ch);
            s2.rcvdSeq == s.rcvdSeq && (built != [] ==> At(built[0], 8) == s.rcvdSeq)
  {
  }

  lemma NumberRead(data: bytes, requestSent: bool, last: u8, sentSeq: u8)
    ensures var v := Validate(data, requestSent, last);
            v.Some? ==> var m := ParseSeqDi(data, v.value.1, sentSeq); m.Some? ==> m.value.seqNum == NumberIn(data)
  {
  }

  lemma ParsedNumber(data: bytes, report: u8, p: nat, s: State, ch: Channel)
    requires report in {REPORT_FULL_STATUS, REPORT_ECHECK, REPORT_FULL_STATUS_CONTD}
    ensures var r, m := Dispatch(data, report, p, s, ch), ParseSeqDi(data, p, s.sentSeq);
            && r.state.rcvdSeq == (if r.ok && m.Some? then m.value.seqNum else s.rcvdSeq)
            && (r.ok ==> m.Some?) && (r.built != [] ==> At(r.built[0], 8) == r.state.rcvdSeq)
  {
    hide ParseSeqDi, ParseUni, ContdUni, ParseEvcs, ParseMaps, MapsIfAny, Transmit, IsActive, Filter;
    var m := ParseSeqDi(data, p, s.sentSeq);
    if m.Some? && report == REPORT_ECHECK {
      TransmitQuotes(s.(rcvdSeq := m.value.seqNum, rcvdResponse := true), REPORT_FULL_STATUS, ch);
    } else if m.Some? && report == REPORT_FULL_STATUS_CONTD {
      ContdQuotes(data, p, s, m.value, ch);
    }
  }

  lemma ContdQuotes(data: bytes, p: nat, s: State, m: SeqDi, ch: Channel)
    requires ParseSeqDi(data, p, s.sentSeq) == Some(m)
    ensures var r := ParseContd(data, p, s, ch);
            && r.state.rcvdSeq == (if r.ok then m.seqNum else s.rcvdSeq)
            && (r.built != [] ==> r.ok && At(r.built[0], 8) == r.state.rcvdSeq)
  {
    hide ParseSeqDi, ParseUni, ContdUni, ParseEvcs, ParseMaps, Transmit, MapsIfAny;
    var u := ContdUni(data, m.pos, s.lastRequest, s.learnt.uni);
    if u.Some? {
      match ParseEvcs(data, u.value.1, s.lastRequest, REPORT_FULL_STATUS_CONTD, s.lastEvcId, s.learnt.evcs) {
        case Bad(_, _) =>
        case Absent(last, r) => MapsQuote(data, r, s.(lastEvcId := last), m, u.value.0, s.learnt.evcs, ch);
        case Good(evcs, last, r) => MapsQuote(data, r, s.(lastEvcId := last), m, u.value.0, evcs, ch);
      }
    }
  }

  lemma MapsQuote(data: bytes, r: nat, s: State, m: SeqDi, uni: LearntUni, evcs: Records<LearntEvc>, ch: Channel)
    ensures var x := ContdMaps(data, r, s, m, uni, evcs, ch);
            && x.state.rcvdSeq == (if x.ok then m.seqNum else s.rcvdSeq)
            && (x.built != [] ==> x.ok && At(x.built[0], 8) == x.state.rcvdSeq)
  {
    hide ParseMaps, MapsIfAny, Transmit;
    var maps := MapsIfAny(data, r, evcs.recs.Keys, uni.mapType, s.learnt.maps);
    if maps.Some? {
      TransmitQuotes(s.(learnt := Learnt(uni, evcs, maps.value.0), rcvdSeq := m.seqNum,
                        lastRequest := REPORT_FULL_STATUS_CONTD), REPORT_FULL_STATUS_CONTD, ch);
    }
  }

  /** One step: the number kept changes with an accepted numbered response only, and an enquiry quotes it. */
  lemma StepQuotes(cfg: Config, s: State, e: Event)
    ensures var (s2, o) := Step(cfg, s, e);
            && s2.rcvdSeq == (if e.Arrival? && o.accepted in {Some(REPORT_FULL_STATUS), Some(REPORT_ECHECK),
                                                              Some(REPORT_FULL_STATUS_CONTD)}
                              then NumberIn(e.frame) else s.rcvdSeq)
            && (o.built != [] ==> At(o.built[0], 8) == s2.rcvdSeq)
  {
    hide Validate, Dispatch, Transmit, ParseSeqDi, NumberIn, OnAccept, OnMiss;
    match e {
      case Expiry(ch) =>
        ExpiryQuotes(cfg, s, ch);
      case Arrival(frame, ch) =>
        var v := Validate(frame, s.requestSent, s.lastRequest);
        if v.Some? {
          var (report, p) := v.value;
          var s1 := if report != REPORT_SINGLE_EVC then s.(requestSent := false) else s;
          NumberRead(frame, s.requestSent, s.lastRequest, s1.sentSeq);
          if report in {REPORT_FULL_STATUS, REPORT_ECHECK, REPORT_FULL_STATUS_CONTD} {
            ParsedNumber(frame, report, p, s1, ch);
          } else {
            OtherQuotes(frame, report, p, s1, ch);
          }
        }
    }
  }

  lemma ExpiryQuotes(cfg: Config, s: State, ch: Channel)
    ensures var (s2, o) := PollExpiry(cfg, s, ch);
            s2.rcvdSeq == s.rcvdSeq && o.accepted == None && (o.built != [] ==> At(o.built[0], 8) == s.rcvdSeq)
  {
    hide OnMiss;
  }

  lemma OtherQuotes(data: bytes, report: u8, p: nat, s: State, ch: Channel)
    requires report !in {REPORT_FULL_STATUS, REPORT_ECHECK, REPORT_FULL_STATUS_CONTD}
    ensures Dispatch(data, report, p, s, ch).state.rcvdSeq == s.rcvdSeq && Dispatch(data, report, p, s, ch).built == []
  {
  }

  lemma {:induction false} NumbersHeard(st: Start, es: seq<Event>, os: seq<Output>)
    requires os == Outputs(st, es)
    ensures StateAfter(st, es).rcvdSeq == LastNumber(es, os)
    ensures os[|es|].built != [] ==> At(os[|es|].built[0], 8) == LastNumber(es, os)
  {
    hide Step, Enable, NumberIn;
    if es == [] {
      EnableQuotes(st);
    } else {
      var n := |es| - 1;
      NumbersHeard(st, es[..n], Outputs(st, es[..n]));
      StepQuotes(st.cfg, StateAfter(st, es[..n]), es[n]);
      assert os[..n + 1] == Outputs(st, es[..n]);
    }
  }

  lemma EnableQuotes(st: Start)
    ensures var (s, o) := Enable(st.cfg, st.learnt, st.ch);
            s.rcvdSeq == 0 && (o.built != [] ==> At(o.built[0], 8) == 0)
  {
  }

  lemma {:induction false} OutputsPrefix(st: Start, es: seq<Event>, n: nat)
    requires n <= |es|
    ensures Outputs(st, es)[..n + 1] == Outputs(st, es[..n])
    decreases |es|
  {
    hide Step, Enable;
    if n < |es| {
      var m := |es| - 1;
      OutputsPrefix(st, es[..m], n);
      assert es[..m][..n] == es[..n];
      assert Outputs(st, es)[..n + 1] == Outputs(st, es[..m])[..n + 1];
    } else {
      assert es[..n] == es && Outputs(st, es)[..n + 1] == Outputs(st, es);
    }
  }

  /** In every run every enquiry quotes the provider's number from the last numbered response accepted by then, and zero
      before there is one. */
  lemma QuotedNumbers(st: Start, es: seq<Event>, i: nat)
    requires i <= |es| && Outputs(st, es)[i].built != []
    ensures At(Outputs(st, es)[i].built[0], 8) == LastNumber(es[..i], Outputs(st, es)[..i + 1])
  {
    hide LastNumber, Outputs;
    OutputsPrefix(st, es, i);
    NumbersHeard(st, es[..i], Outputs(st, es[..i]));
    assert Outputs(st, es)[..i + 1][i] == Outputs(st, es)[i];
  }

  /** A response as the provider sends it carries its number in octet 7. */
  lemma PlainNumber(frame: bytes)
    requires At(frame, 1) == MSG_STATUS && At(frame, 2) == REPORT_TYPE_IE && At(frame, 5) == SEQUENCE_NUM_IE
    ensures NumberIn(frame) == At(frame, 7)
  {
  }
}
