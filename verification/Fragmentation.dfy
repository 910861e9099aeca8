/** Splitting a database over Full Status Continued frames: every element once, in order, in bounded frames. */
module Fragmentation {
  import opened Octets
  import opened Wire
  import opened UniNSpec
  import Greedy

  ghost predicate Ascending(items: seq<Ie>) {
    && (forall i | 0 <= i < |items| :: RefOf(items[i]) >= 1)
    && (forall i, j | 0 <= i < j < |items| :: RefOf(items[i]) < RefOf(items[j]))
  }

  /** What list insertion by reference id guarantees. */
  ghost predicate Sorted(db: Database) {
    Ascending(EvcItems(db.evcs)) && Ascending(MapItems(db.maps))
  }

  /** Sorted, every element in its single-IE form with an exact length, and sums that fit 16 bits. */
  ghost predicate Orderly(db: Database) {
    && Sorted(db)
    && AllRegular(Items(db))
    && FullLength(db) < 0x1_0000
  }

  type SortedDb = db: Database | Sorted(db) witness Database(None, 0, [], [])
  type OrderlyDb = db: SortedDb | Orderly(db) witness Database(None, 0, [], [])

  // ---- elements left by the reference-id filter ----

  lemma {:induction false} BeyondLow(items: seq<Ie>, id: u16)
    requires forall i | 0 <= i < |items| :: RefOf(items[i]) > id
    ensures Beyond(items, id) == items
  {
    if items != [] {
      BeyondLow(items[1..], id);
    }
  }

  /** In a strictly ascending list, filtering by the last id sent leaves exactly what was not sent. */
  lemma {:induction false} BeyondSent(items: seq<Ie>, k: nat)
    requires Ascending(items) && 1 <= k <= |items|
    ensures Beyond(items, RefOf(items[k - 1])) == items[k..]
  {
    if k == 1 {
      BeyondLow(items[1..], RefOf(items[0]));
    } else {
      assert items[1..][k - 2] == items[k - 1];
      assert items[1..][k - 1..] == items[k..];
      BeyondSent(items[1..], k - 1);
    }
  }

  // ---- the simple form: an index into Items ----

  function Total(db: Database): nat {
    |db.evcs| + |db.maps|
  }

  /** The cursor of an exchange in which the first k elements have gone out. */
  function CursorAt(db: Database, k: nat): Cursor
    requires 1 <= k < Total(db)
  {
    if k < |db.evcs| then Cursor(true, db.evcs[k - 1].refId, LAST_IE_EVC)
    else if k == |db.evcs| then Cursor(true, 0, LAST_IE_MAP)
    else Cursor(true, db.maps[k - |db.evcs| - 1].refId, LAST_IE_MAP)
  }

  /** The cursor with which the answer starting at element k is composed. */
  ghost predicate Position(db: Database, cur: Cursor, k: nat) {
    if k == 0 then cur == START else k < Total(db) && cur == CursorAt(db, k)
  }

  /** `es` and `ms` are the EVCs and the maps among the elements from index k on. */
  ghost predicate RestAt(db: Database, k: nat, es: seq<Ie>, ms: seq<Ie>) {
    || (k < |db.evcs| && es == EvcItems(db.evcs)[k..] && ms == MapItems(db.maps))
    || (|db.evcs| <= k <= Total(db) && es == [] && ms == MapItems(db.maps)[k - |db.evcs|..])
  }

  lemma RestIsSlice(db: Database, k: nat, es: seq<Ie>, ms: seq<Ie>)
    requires RestAt(db, k, es, ms)
    ensures k <= Total(db) == |Items(db)| && es + ms == Items(db)[k..]
  {
  }

  /** What the reference-id filters leave pending is what was not sent. */
  lemma PendingAt(db: SortedDb, cur: Cursor, k: nat)
    requires Position(db, cur, k)
    ensures RestAt(db, k, EvcsPending(db, cur), MapsPending(db, cur))
  {
    if k == 0 {
      assert EvcItems(db.evcs)[0..] == EvcItems(db.evcs) && MapItems(db.maps)[0..] == MapItems(db.maps);
    } else if k < |db.evcs| {
      BeyondSent(EvcItems(db.evcs), k);
    } else if k > |db.evcs| {
      BeyondSent(MapItems(db.maps), k - |db.evcs|);
    } else {
      assert MapItems(db.maps)[0..] == MapItems(db.maps);
    }
  }

  lemma TotalConcat(a: seq<Ie>, b: seq<Ie>)
    ensures TotalLength(a + b) == TotalLength(a) + TotalLength(b)
  {
    SizesConcat(a, b);
    Greedy.SumAppend(Sizes(a), Sizes(b));
  }

  /** The continued branch counts exactly the octets of the elements from k on. */
  lemma RemainingAt(db: SortedDb, k: nat)
    requires 1 <= k < Total(db)
    ensures Remaining(db, CursorAt(db, k)) == TotalLength(Items(db)[k..])
  {
    if k < |db.evcs| {
      RemainingAtEvc(db, k);
      RestIsSlice(db, k, EvcItems(db.evcs)[k..], MapItems(db.maps));
    } else {
      RemainingAtMap(db, k - |db.evcs|);
      RestIsSlice(db, k, [], MapItems(db.maps)[k - |db.evcs|..]);
    }
  }

  lemma RemainingAtEvc(db: SortedDb, k: nat)
    requires 1 <= k < |db.evcs|
    ensures Remaining(db, CursorAt(db, k)) == TotalLength(EvcItems(db.evcs)[k..] + MapItems(db.maps))
  {
    BeyondSent(EvcItems(db.evcs), k);
    TotalConcat(EvcItems(db.evcs)[k..], MapItems(db.maps));
  }

  lemma RemainingAtMap(db: SortedDb, j: nat)
    requires j < |db.maps| && |db.evcs| + j >= 1
    ensures Remaining(db, CursorAt(db, |db.evcs| + j)) == TotalLength([] + MapItems(db.maps)[j..])
  {
    MapsLeft(db, j);
    TotalConcat([], MapItems(db.maps)[j..]);
  }

  lemma MapsLeft(db: SortedDb, j: nat)
    requires j < |db.maps|
    ensures Beyond(MapItems(db.maps), if j == 0 then 0 else db.maps[j - 1].refId) == MapItems(db.maps)[j..]
  {
    if j == 0 {
      BeyondLow(MapItems(db.maps), 0);
    } else {
      BeyondSent(MapItems(db.maps), j);
    }
  }

  // ---- greedy filling ----

  lemma TakeConcat(a: seq<Ie>, b: seq<Ie>, room: nat)
    ensures var n := Take(a, room);
            Take(a + b, room) == if n < |a| then n else |a| + Take(b, room - TotalLength(a[..n]))
  {
    var n := Take(a, room);
    SizesConcat(a, b);
    SizesSlice(a, 0, n);
    Greedy.FitsConcat(Sizes(a), Sizes(b), room);
  }

  lemma TakeAll(items: seq<Ie>, room: nat)
    ensures Take(items, room) == |items| <==> TotalLength(items) <= room
  {
    Greedy.FitsAll(Sizes(items), room);
  }

  /** The elements picked by the two encoding loops of a continued answer, and the cursor they leave. */
  function Filled(es: seq<Ie>, ms: seq<Ie>, room: nat): seq<Ie> {
    var n := Take(es, room);
    if n < |es| then es[..n] else es[..n] + ms[..Take(ms, room - TotalLength(es[..n]))]
  }

  function FilledCursor(cur: Cursor, es: seq<Ie>, ms: seq<Ie>, room: nat): Cursor {
    var n := Take(es, room);
    if n < |es| then CutAfter(cur, es, n, LAST_IE_EVC)
    else CutAfter(cur, ms, Take(ms, room - TotalLength(es[..n])), LAST_IE_MAP)
  }

  lemma ComposeContd(db: Database, cur: Cursor, es: seq<Ie>, ms: seq<Ie>, hasUni: bool, room: nat)
    requires es == EvcsPending(db, cur) && ms == MapsPending(db, cur)
    requires hasUni == HasUni(db, cur, REPORT_FULL_STATUS_CONTD) && room == Room(db, hasUni)
    ensures Compose(db, cur, REPORT_FULL_STATUS_CONTD)
         == (Payload(hasUni, Filled(es, ms, room)), FilledCursor(cur, es, ms, room))
  {
    var n := Take(es, room);
    if n == |es| {
      assert Compose(db, cur, REPORT_FULL_STATUS_CONTD)
          == ComposeMaps(db, cur, REPORT_FULL_STATUS_CONTD, hasUni, es[..n]);
    }
  }

  /** Filling from both lists is one greedy prefix of everything pending. */
  lemma FilledIsPrefix(es: seq<Ie>, ms: seq<Ie>, room: nat)
    ensures Filled(es, ms, room) == (es + ms)[..Take(es + ms, room)]
  {
    TakeConcat(es, ms, room);
    if Take(es, room) == |es| {
      assert es[..|es|] == es;
    }
  }

  /** The cursor left behind when filling starts among the EVCs ... */
  lemma CursorFromEvcs(db: Database, cur: Cursor, es: seq<Ie>, ms: seq<Ie>, k: nat, room: nat)
    requires k < |db.evcs| && es == EvcItems(db.evcs)[k..] && ms == MapItems(db.maps)
    requires 1 <= Take(es + ms, room) < |es| + |ms|
    ensures FilledCursor(cur, es, ms, room).(continued := true) == CursorAt(db, k + Take(es + ms, room))
  {
    TakeConcat(es, ms, room);
    var n := Take(es, room);
    if n < |es| {
      assert es[n - 1] == EvcItem(db.evcs[k + n - 1]);
    } else {
      var m := Take(ms, room - TotalLength(es[..n]));
      if m > 0 {
        assert ms[m - 1] == MapItem(db.maps[m - 1]);
      }
    }
  }

  /** ... and when it starts among the maps. */
  lemma CursorFromMaps(db: Database, cur: Cursor, es: seq<Ie>, ms: seq<Ie>, j: nat, room: nat)
    requires j <= |db.maps| && es == [] && ms == MapItems(db.maps)[j..]
    requires 1 <= Take(es + ms, room) < |es| + |ms|
    ensures FilledCursor(cur, es, ms, room).(continued := true) == CursorAt(db, |db.evcs| + j + Take(es + ms, room))
  {
    TakeConcat(es, ms, room);
    assert Take([], room) == 0 && TotalLength([]) == 0;
    var m := Take(ms, room);
    assert ms[m - 1] == MapItem(db.maps[j + m - 1]);
  }

  /** If something is left behind, the cursor points behind the last element sent. */
  lemma FilledCursorAt(db: Database, cur: Cursor, k: nat, es: seq<Ie>, ms: seq<Ie>, room: nat)
    requires RestAt(db, k, es, ms)
    requires 1 <= Take(es + ms, room) < |es| + |ms|
    ensures FilledCursor(cur, es, ms, room).(continued := true) == CursorAt(db, k + Take(es + ms, room))
  {
    if k < |db.evcs| {
      CursorFromEvcs(db, cur, es, ms, k, room);
    } else {
      CursorFromMaps(db, cur, es, ms, k - |db.evcs|, room);
    }
  }

  /** Whatever the frame, the next element fits: each frame makes progress. */
  lemma RoomForOne(db: Database, hasUni: bool, items: seq<Ie>)
    requires AllRegular(items) && items != []
    ensures 1401 <= Room(db, hasUni) <= 1484
    ensures Take(items, Room(db, hasUni)) >= 1
  {
    RegularLength(items[0]);
  }

  // ---- the answers, planned by index ----

  datatype Answer = Answer(report: u8, payload: Payload)

  function Rest(db: Database, k: nat): seq<Ie>
    requires k <= Total(db)
  {
    Items(db)[k..]
  }

  /** UNI Status goes into the first answer, and again into a continued answer that starts at the first map. */
  function PlannedUni(db: Database, k: nat, report: u8): bool {
    db.uni.Some? && (k == 0 || (k == |db.evcs| && report == REPORT_FULL_STATUS_CONTD))
  }

  function PlannedReport(db: Database, k: nat): u8
    requires k <= Total(db)
  {
    if TotalLength(Rest(db, k)) <= Room(db, k == 0) then REPORT_FULL_STATUS else REPORT_FULL_STATUS_CONTD
  }

  function PlannedCount(db: Database, k: nat): (n: nat)
    requires k <= Total(db)
    ensures n <= Total(db) - k
  {
    var report := PlannedReport(db, k);
    if report == REPORT_FULL_STATUS then Total(db) - k
    else Take(Rest(db, k), Room(db, PlannedUni(db, k, report)))
  }

  /** The answer that starts at element k. */
  function Planned(db: Database, k: nat): Answer
    requires k <= Total(db)
  {
    var report := PlannedReport(db, k);
    Answer(report, Payload(PlannedUni(db, k, report), Rest(db, k)[..PlannedCount(db, k)]))
  }

  /** UNI-N's answer to a FULL_STATUS request, and to a CONTD request that finds the cursor at `cur`. */
  function FirstAnswer(db: Database): (Answer, Cursor) {
    var (p, cur) := Compose(db, START, AnswerToFull(db));
    (Answer(AnswerToFull(db), p), cur)
  }

  function NextAnswer(db: Database, cur: Cursor): (Answer, Cursor) {
    var (p, cur') := Compose(db, cur.(continued := true), AnswerToContd(db, cur));
    (Answer(AnswerToContd(db, cur), p), cur')
  }

  /** One continued answer in terms of what is pending ... */
  lemma ContdFrom(db: OrderlyDb, cur: Cursor, k: nat, es: seq<Ie>, ms: seq<Ie>, room: nat)
    requires RestAt(db, k, es, ms) && k < Total(db) && 1401 <= room
    ensures var n := Take(es + ms, room);
            && Filled(es, ms, room) == (es + ms)[..n]
            && n >= 1
            && (k + n < Total(db) ==> FilledCursor(cur, es, ms, room).(continued := true) == CursorAt(db, k + n))
  {
    FilledIsPrefix(es, ms, room);
    RestIsSlice(db, k, es, ms);
    assert (es + ms)[0] == Items(db)[k];
    RegularLength(Items(db)[k]);
    if k + Take(es + ms, room) < Total(db) {
      FilledCursorAt(db, cur, k, es, ms, room);
    }
  }

  /** ... and in terms of the index. */
  lemma ContdPayload(db: OrderlyDb, cur: Cursor, k: nat, hasUni: bool)
    requires RestAt(db, k, EvcsPending(db, cur), MapsPending(db, cur)) && k < Total(db)
    requires hasUni == HasUni(db, cur, REPORT_FULL_STATUS_CONTD)
    ensures var n := Take(Rest(db, k), Room(db, hasUni));
            var (p, cur') := Compose(db, cur, REPORT_FULL_STATUS_CONTD);
            && p == Payload(hasUni, Rest(db, k)[..n])
            && n >= 1
            && (k + n < Total(db) ==> cur'.(continued := true) == CursorAt(db, k + n))
  {
    hide EvcsPending, MapsPending, HasUni, Compose, Orderly, CursorAt;
    var es, ms, room := EvcsPending(db, cur), MapsPending(db, cur), Room(db, hasUni);
    RestIsSlice(db, k, es, ms);
    assert es + ms == Rest(db, k) && room >= 1401;
    ComposeContd(db, cur, es, ms, hasUni, room);
    ContdFrom(db, cur, k, es, ms, room);
  }

  /** A closing answer whose remaining elements fit carries all of them and resets the cursor. */
  lemma FullPayload(db: SortedDb, cur: Cursor, k: nat)
    requires k <= Total(db) && RestAt(db, k, EvcsPending(db, cur), MapsPending(db, cur))
    requires TotalLength(Rest(db, k)) <= Room(db, HasUni(db, cur, REPORT_FULL_STATUS))
    ensures Compose(db, cur, REPORT_FULL_STATUS)
         == (Payload(HasUni(db, cur, REPORT_FULL_STATUS), Rest(db, k)), START)
  {
    hide EvcsPending, MapsPending, HasUni, Compose;
    var es, ms := EvcsPending(db, cur), MapsPending(db, cur);
    RestIsSlice(db, k, es, ms);
    ComposeFull(db, cur, es, ms, HasUni(db, cur, REPORT_FULL_STATUS));
  }

  lemma ComposeFull(db: Database, cur: Cursor, es: seq<Ie>, ms: seq<Ie>, hasUni: bool)
    requires es == EvcsPending(db, cur) && ms == MapsPending(db, cur)
    requires hasUni == HasUni(db, cur, REPORT_FULL_STATUS)
    requires TotalLength(es + ms) <= Room(db, hasUni)
    ensures Compose(db, cur, REPORT_FULL_STATUS) == (Payload(hasUni, es + ms), START)
  {
    TotalConcat(es, ms);
    TakeAll(es, Room(db, hasUni));
    TakeAll(ms, Room(db, hasUni) - TotalLength(es));
    assert es[..|es|] == es && ms[..|ms|] == ms;
    assert Compose(db, cur, REPORT_FULL_STATUS) == ComposeMaps(db, cur, REPORT_FULL_STATUS, hasUni, es);
  }

  lemma TotalSplit(items: seq<Ie>, i: nat)
    requires i <= |items|
    ensures TotalLength(items) == TotalLength(items[..i]) + TotalLength(items[i..])
  {
    assert items == items[..i] + items[i..];
    TotalConcat(items[..i], items[i..]);
  }

  /** The 16-bit sums decide as planned. */
  lemma FirstDecision(db: OrderlyDb)
    ensures AnswerToFull(db) == PlannedReport(db, 0)
  {
    assert Rest(db, 0) == Items(db);
  }

  lemma NextDecision(db: OrderlyDb, k: nat)
    requires 0 < k < Total(db)
    ensures AnswerToContd(db, CursorAt(db, k)) == PlannedReport(db, k)
  {
    hide TotalLength, CursorAt, Orderly, Sorted, AllRegular, Remaining;
    RemainingAt(db, k);
    RestIsShort(db, k);
    FitsWord(Remaining(db, CursorAt(db, k)));
  }

  lemma UniAsPlanned(db: SortedDb, cur: Cursor, k: nat, report: u8)
    requires Position(db, cur, k) && report in {REPORT_FULL_STATUS, REPORT_FULL_STATUS_CONTD}
    ensures HasUni(db, cur, report) == PlannedUni(db, k, report)
  {
    if 0 < k < |db.evcs| {
      assert RefOf(EvcItems(db.evcs)[k - 1]) >= 1;
    } else if k > |db.evcs| {
      assert RefOf(MapItems(db.maps)[k - |db.evcs| - 1]) >= 1;
    }
  }

  lemma PlanAdvances(db: OrderlyDb, k: nat)
    requires k < Total(db)
    ensures PlannedCount(db, k) >= 1
  {
    RoomForOne(db, PlannedUni(db, k, REPORT_FULL_STATUS_CONTD), Rest(db, k));
  }

  lemma PlanLeavesRest(db: OrderlyDb, k: nat)
    requires k < Total(db) || k == 0
    requires Planned(db, k).report == REPORT_FULL_STATUS_CONTD
    ensures 1 <= PlannedCount(db, k) < Total(db) - k
  {
    assert TotalLength([]) == 0;
    PlanAdvances(db, k);
    TakeAll(Rest(db, k), Room(db, PlannedUni(db, k, REPORT_FULL_STATUS_CONTD)));
  }

  /** Composing with the planned report type at position k gives the planned answer and the next cursor. */
  lemma ComposedAsPlanned(db: OrderlyDb, cur: Cursor, k: nat)
    requires Position(db, cur, k)
    ensures var (p, cur') := Compose(db, cur, PlannedReport(db, k));
            && p == Planned(db, k).payload
            && var k' := k + PlannedCount(db, k);
               if Planned(db, k).report == REPORT_FULL_STATUS then k' == Total(db) && cur' == START
               else k < k' < Total(db) && cur'.(continued := true) == CursorAt(db, k')
  {
    if PlannedReport(db, k) == REPORT_FULL_STATUS {
      ClosingAsPlanned(db, cur, k);
    } else {
      ContdAsPlanned(db, cur, k);
    }
  }

  lemma ClosingAsPlanned(db: OrderlyDb, cur: Cursor, k: nat)
    requires Position(db, cur, k) && PlannedReport(db, k) == REPORT_FULL_STATUS
    ensures Compose(db, cur, REPORT_FULL_STATUS) == (Planned(db, k).payload, START)
  {
    UniAsPlanned(db, cur, k, REPORT_FULL_STATUS);
    PendingAt(db, cur, k);
    PlannedClosing(db, k);
    FullPayload(db, cur, k);
  }

  lemma PlannedClosing(db: Database, k: nat)
    requires k <= Total(db) && PlannedReport(db, k) == REPORT_FULL_STATUS
    ensures Planned(db, k).payload == Payload(PlannedUni(db, k, REPORT_FULL_STATUS), Rest(db, k))
    ensures PlannedUni(db, k, REPORT_FULL_STATUS) == (db.uni.Some? && k == 0)
    ensures TotalLength(Rest(db, k)) <= Room(db, k == 0)
  {
    assert Rest(db, k)[..Total(db) - k] == Rest(db, k);
  }

  lemma ContdAsPlanned(db: OrderlyDb, cur: Cursor, k: nat)
    requires Position(db, cur, k) && PlannedReport(db, k) == REPORT_FULL_STATUS_CONTD
    ensures var (p, cur') := Compose(db, cur, REPORT_FULL_STATUS_CONTD);
            && p == Planned(db, k).payload
            && var k' := k + PlannedCount(db, k);
               k < k' < Total(db) && cur'.(continued := true) == CursorAt(db, k')
  {
    hide Compose, Orderly, Sorted, AllRegular, TotalLength, Take, EvcsPending, MapsPending, RestAt, Rest, CursorAt;
    UniAsPlanned(db, cur, k, REPORT_FULL_STATUS_CONTD);
    PlanLeavesRest(db, k);
    PendingAt(db, cur, k);
    ContdPayload(db, cur, k, PlannedUni(db, k, REPORT_FULL_STATUS_CONTD));
  }

  /** The cursor-driven replies of UNI-N follow the plan, whatever happened to the cursor before. */
  lemma FirstFollowsPlan(db: OrderlyDb)
    ensures FirstAnswer(db).0 == Planned(db, 0)
    ensures var k' := PlannedCount(db, 0);
            if Planned(db, 0).report == REPORT_FULL_STATUS then k' == Total(db) && FirstAnswer(db).1 == START
            else 0 < k' < Total(db) && FirstAnswer(db).1.(continued := true) == CursorAt(db, k')
  {
    FirstDecision(db);
    ComposedAsPlanned(db, START, 0);
  }

  lemma NextFollowsPlan(db: OrderlyDb, cur: Cursor, k: nat)
    requires 0 < k < Total(db) && cur.(continued := true) == CursorAt(db, k)
    ensures NextAnswer(db, cur).0 == Planned(db, k)
    ensures var k' := k + PlannedCount(db, k);
            if Planned(db, k).report == REPORT_FULL_STATUS then k' == Total(db) && NextAnswer(db, cur).1 == START
            else k < k' < Total(db) && NextAnswer(db, cur).1.(continued := true) == CursorAt(db, k')
  {
    NextDecision(db, k);
    assert AnswerToContd(db, cur) == AnswerToContd(db, CursorAt(db, k));
    ComposedAsPlanned(db, CursorAt(db, k), k);
  }

  // ---- whole exchanges ----

  /** All answers from the one that starts at element k to the closing FULL_STATUS. */
  ghost function Plan(db: OrderlyDb, k: nat): (xs: seq<Answer>)
    requires k < Total(db) || k == 0
    ensures |xs| >= 1
    decreases Total(db) - k
  {
    if Planned(db, k).report == REPORT_FULL_STATUS then [Planned(db, k)]
    else
      PlanLeavesRest(db, k);
      [Planned(db, k)] + Plan(db, k + PlannedCount(db, k))
  }

  function Carried(xs: seq<Answer>): seq<Ie> {
    if xs == [] then [] else xs[0].payload.items + Carried(xs[1..])
  }

  /** Only the last answer is a FULL_STATUS. */
  ghost predicate ClosedByFull(xs: seq<Answer>) {
    && |xs| >= 1
    && xs[|xs| - 1].report == REPORT_FULL_STATUS
    && forall i | 0 <= i < |xs| - 1 :: xs[i].report == REPORT_FULL_STATUS_CONTD
  }

  /** Octets of an answer before padding. */
  function AnswerLength(db: Database, a: Answer): nat {
    HEADER_LEN + (if a.payload.hasUni then UniLength(db) else 0) + TotalLength(a.payload.items)
  }

  /** A continued answer is nearly full, a closing one fits. */
  ghost predicate WellFilled(db: Database, a: Answer) {
    && AnswerLength(db, a) <= MAX_PACKET
    && (a.report == REPORT_FULL_STATUS_CONTD ==> AnswerLength(db, a) > MAX_PACKET - 254)
  }

  lemma PlannedWellFilled(db: OrderlyDb, k: nat)
    requires k < Total(db) || k == 0
    ensures WellFilled(db, Planned(db, k))
  {
    var rest, n := Rest(db, k), PlannedCount(db, k);
    if Planned(db, k).report == REPORT_FULL_STATUS {
      assert rest[..n] == rest;
    } else {
      PlanLeavesRest(db, k);
      TakenWellFilled(db, k, PlannedUni(db, k, REPORT_FULL_STATUS_CONTD), n);
    }
  }

  /** Taking as many of the elements from k on as fit, but not all, fills a frame. */
  lemma TakenWellFilled(db: OrderlyDb, k: nat, hasUni: bool, n: nat)
    requires k <= Total(db) && n == Take(Rest(db, k), Room(db, hasUni)) < Total(db) - k
    ensures WellFilled(db, Answer(REPORT_FULL_STATUS_CONTD, Payload(hasUni, Rest(db, k)[..n])))
  {
    var rest := Rest(db, k);
    Greedy.FitsIsGreedy(Sizes(rest), Room(db, hasUni));
    SizesSlice(rest, 0, n);
    RegularLength(rest[n]);
    assert Items(db)[k + n] == rest[n];
  }

  lemma RestSplits(db: Database, k: nat, n: nat)
    requires k + n <= Total(db)
    ensures Rest(db, k) == Rest(db, k)[..n] + Rest(db, k + n)
    ensures Rest(db, k)[..Total(db) - k] == Rest(db, k)
  {
  }

  lemma {:induction false} PlanCarriesRest(db: OrderlyDb, k: nat)
    requires k < Total(db) || k == 0
    ensures Carried(Plan(db, k)) == Rest(db, k)
    decreases Total(db) - k
  {
    hide Orderly, TotalLength, Take, Room, PlannedUni, Rest;
    var n := PlannedCount(db, k);
    RestSplits(db, k, n);
    if Planned(db, k).report == REPORT_FULL_STATUS {
      CarriedFirst([Planned(db, k)]);
    } else {
      PlanLeavesRest(db, k);
      PlanCarriesRest(db, k + n);
      CarriedFirst(Plan(db, k));
    }
  }

  lemma CarriedFirst(xs: seq<Answer>)
    requires xs != []
    ensures Carried(xs) == xs[0].payload.items + Carried(xs[1..])
    ensures |xs| == 1 ==> Carried(xs) == xs[0].payload.items
  {
  }

  lemma {:induction false} PlanCloses(db: OrderlyDb, k: nat)
    requires k < Total(db) || k == 0
    ensures ClosedByFull(Plan(db, k))
    decreases Total(db) - k
  {
    if Planned(db, k).report != REPORT_FULL_STATUS {
      PlanLeavesRest(db, k);
      PlanCloses(db, k + PlannedCount(db, k));
    }
  }

  /** Every EVC once and then every map once, each in ascending order of reference id; only the last
      answer is FULL_STATUS. */
  lemma ExactlyOnce(db: OrderlyDb)
    ensures Carried(Plan(db, 0)) == EvcItems(db.evcs) + MapItems(db.maps)
    ensures ClosedByFull(Plan(db, 0))
  {
    PlanCarriesRest(db, 0);
    PlanCloses(db, 0);
  }

  /** Every answer fits its frame, and only the last leaves 254 octets or more unused. */
  lemma {:induction false} PlanWellFilled(db: OrderlyDb, k: nat)
    requires k < Total(db) || k == 0
    ensures forall i | 0 <= i < |Plan(db, k)| :: WellFilled(db, Plan(db, k)[i])
    decreases Total(db) - k
  {
    PlannedWellFilled(db, k);
    if Planned(db, k).report != REPORT_FULL_STATUS {
      PlanLeavesRest(db, k);
      PlanWellFilled(db, k + PlannedCount(db, k));
    }
  }

  /** A FULL_STATUS request is answered by FULL_STATUS exactly when the whole database fits one frame. */
  lemma FullStatusWhenItFits(db: OrderlyDb)
    ensures |Plan(db, 0)| == 1 <==> FullLength(db) <= MAX_PACKET
    ensures AnswerToFull(db) == REPORT_FULL_STATUS <==> FullLength(db) <= MAX_PACKET
    ensures Plan(db, 0)[0].payload.hasUni == db.uni.Some?
  {
    FirstDecision(db);
  }

  lemma {:induction false} CarriedLength(db: Database, xs: seq<Answer>)
    requires ClosedByFull(xs) && forall i | 0 <= i < |xs| :: WellFilled(db, xs[i])
    ensures 1147 * (|xs| - 1) <= TotalLength(Carried(xs))
  {
    TotalConcat(xs[0].payload.items, Carried(xs[1..]));
    if |xs| > 1 {
      CarriedLength(db, xs[1..]);
    }
  }

  /** Every continued answer carries at least 1147 octets not sent before: the database bounds the exchange. */
  lemma FrameBound(db: OrderlyDb)
    ensures 1147 * (|Plan(db, 0)| - 1) <= TotalLength(Items(db))
  {
    ExactlyOnce(db);
    PlanWellFilled(db, 0);
    CarriedLength(db, Plan(db, 0));
  }

  /** The octets of a frame: between 46 and 1500, and as many as the length code says. */
  lemma FrameSize(db: Database, a: Answer, head: bytes)
    requires AllRegular(a.payload.items) && WellFilled(db, a) && |head| == HEADER_LEN
    requires a.payload.hasUni ==> db.uni.Some?
    ensures var frame := head + PayloadOctets(db, a.payload);
            |frame| == AnswerLength(db, a) && MIN_PACKET <= |Pad(frame)| <= MAX_PACKET
  {
    FlattenLength(a.payload.items);
  }

  // ---- an exchange that goes on after the database has changed ----

  /** How many elements the reference-id filter skips. */
  function UpTo(items: seq<Ie>, id: u16): (n: nat)
    ensures n <= |items|
  {
    if items == [] || RefOf(items[0]) > id then 0 else 1 + UpTo(items[1..], id)
  }

  /** In an ascending list, what the filter leaves is a suffix, whether or not the id is in the list. */
  lemma {:induction false} BeyondIsSuffix(items: seq<Ie>, id: u16)
    requires Ascending(items)
    ensures Beyond(items, id) == items[UpTo(items, id)..]
    ensures id == 0 ==> UpTo(items, id) == 0
  {
    if items != [] {
      if RefOf(items[0]) > id {
        BeyondLow(items, id);
      } else {
        assert RefOf(items[0]) >= 1;
        BeyondIsSuffix(items[1..], id);
      }
    }
  }

  /** The cursor of an exchange under way. */
  predicate Resumable(cur: Cursor) {
    cur.continued && (cur.lastIe == LAST_IE_MAP || (cur.lastIe == LAST_IE_EVC && cur.lastEvcId >= 1))
  }

  /** The element a cursor left by any earlier frame makes the next one start with. */
  function ResumesAt(db: Database, cur: Cursor): (k: nat)
    ensures k <= Total(db)
  {
    if cur.lastIe == LAST_IE_EVC then UpTo(EvcItems(db.evcs), cur.lastEvcId)
    else |db.evcs| + UpTo(MapItems(db.maps), cur.lastEvcId)
  }

  /** A cursor set for another database leaves pending, and counts as remaining, the elements from there on. */
  lemma ResumedPending(db: SortedDb, cur: Cursor, k: nat)
    requires Resumable(cur) && k == ResumesAt(db, cur)
    ensures RestAt(db, k, EvcsPending(db, cur), MapsPending(db, cur))
    ensures Remaining(db, cur) == TotalLength(Rest(db, k))
  {
    hide TotalLength, Beyond, UpTo, Ascending;
    var evcs, maps := EvcItems(db.evcs), MapItems(db.maps);
    if cur.lastIe == LAST_IE_EVC {
      BeyondIsSuffix(evcs, cur.lastEvcId);
      TotalConcat(evcs[k..], maps);
      RestIsSlice(db, k, evcs[k..], maps);
    } else {
      BeyondIsSuffix(maps, cur.lastEvcId);
      TotalConcat([], maps[k - |db.evcs|..]);
      RestIsSlice(db, k, [], maps[k - |db.evcs|..]);
    }
  }

  lemma ResumedDecision(db: OrderlyDb, cur: Cursor, k: nat)
    requires Resumable(cur) && k == ResumesAt(db, cur)
    ensures AnswerToContd(db, cur)
         == if TotalLength(Rest(db, k)) > MAX_PACKET - HEADER_LEN then REPORT_FULL_STATUS_CONTD else REPORT_FULL_STATUS
  {
    hide TotalLength, Rest, ResumesAt, Orderly, Sorted, AllRegular, Remaining;
    ResumedPending(db, cur, k);
    RestIsShort(db, k);
    FitsWord(Remaining(db, cur));
  }

  lemma RestIsShort(db: OrderlyDb, k: nat)
    requires k <= Total(db)
    ensures TotalLength(Rest(db, k)) < 0x1_0000
  {
    hide TotalLength, Sorted, AllRegular;
    TotalSplit(Items(db), k);
  }

  lemma FitsWord(x: nat)
    requires x < 0x1_0000
    ensures x % 0x1_0000 == x
  {
  }

  /** Whatever the database has become since the cursor was set, the next answer carries the elements beyond it, as many
      as fit; UNI Status goes into a continued answer exactly if the last frame ended right before the first map. */
  lemma ResumedAnswer(db: OrderlyDb, cur: Cursor, k: nat, a: Answer, cur2: Cursor)
    requires Resumable(cur) && k == ResumesAt(db, cur) && (a, cur2) == NextAnswer(db, cur)
    ensures var n := |a.payload.items|;
            && k + n <= Total(db) && a.payload.items == Rest(db, k)[..n] && WellFilled(db, a)
            && if a.report == REPORT_FULL_STATUS then k + n == Total(db) && !a.payload.hasUni
               else a.report == REPORT_FULL_STATUS_CONTD && n >= 1 && k + n < Total(db)
                    && a.payload.hasUni == (db.uni.Some? && cur.lastEvcId == 0)
                    && cur2.(continued := true) == CursorAt(db, k + n)
  {
    hide ResumesAt, Compose, Take, TotalLength, CursorAt, Orderly, EvcsPending, MapsPending, RestAt, Rest,
      AnswerToContd;
    ResumedPending(db, cur, k);
    ResumedDecision(db, cur, k);
    assert cur.(continued := true) == cur;
    if a.report == REPORT_FULL_STATUS {
      FullPayload(db, cur, k);
      RestLength(db, k);
    } else {
      var hasUni := HasUni(db, cur, REPORT_FULL_STATUS_CONTD);
      NotAllFits(db, k, hasUni);
      ContdPayload(db, cur, k, hasUni);
      TakenWellFilled(db, k, hasUni, |a.payload.items|);
    }
  }

  lemma RestLength(db: Database, k: nat)
    requires k <= Total(db)
    ensures |Rest(db, k)| == Total(db) - k && Rest(db, k)[..Total(db) - k] == Rest(db, k)
  {
  }

  lemma NotAllFits(db: OrderlyDb, k: nat, hasUni: bool)
    requires k <= Total(db) && TotalLength(Rest(db, k)) > MAX_PACKET - HEADER_LEN
    ensures k < Total(db) && Take(Rest(db, k), Room(db, hasUni)) < Total(db) - k
  {
    hide Orderly, Take;
    assert TotalLength([]) == 0;
    TakeAll(Rest(db, k), Room(db, hasUni));
  }
}
