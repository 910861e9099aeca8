/** What each NSM and ONM message makes of the entry it names, field by field, and of the data instance. */
module Provisioning {
  import opened Octets
  import opened VlanBitmap
  import opened Wire
  import opened Bandwidth
  import opened DatabaseOps

  // ---- the data instance ----

  /** One more, in 32 bits. */
  predicate Moved(di: u32, di2: u32) {
    di2 == (di + 1) % 0x1_0000_0000
  }

  /** Nothing but the lists has changed. */
  predicate SameUni(db: Database, db2: Database) {
    db2.uni == db.uni && db2.level == db.level
  }

  predicate SameLists(db: Database, db2: Database) {
    db2.evcs == db.evcs && db2.maps == db.maps
  }

  // ---- VLANs of a message ----

  /** A VLAN is named by the message: some VID of it has these twelve low bits. */
  predicate Named(vids: seq<u16>, v: vid) {
    exists k :: 0 <= k < |vids| && vids[k] % 0x1000 == v
  }

  lemma {:induction false} MaskedAre(vids: seq<u16>, v: vid)
    ensures v in MaskedVids(vids) <==> Named(vids, v)
  {
    if vids != [] {
      var n := |vids| - 1;
      MaskedAre(vids[..n], v);
      if Named(vids[..n], v) {
        var k :| 0 <= k < n && vids[..n][k] % 0x1000 == v;
        assert vids[k] % 0x1000 == v;
      }
      if Named(vids, v) && vids[n] % 0x1000 != v {
        var k :| 0 <= k < |vids| && vids[k] % 0x1000 == v;
        assert vids[..n][k] % 0x1000 == v;
      }
    }
  }

  /** The VLANs of a map after a message: those it had and those named. */
  ghost predicate Extended(before: set<vid>, vids: seq<u16>, after: set<vid>) {
    forall v: vid :: v in after <==> v in before || Named(vids, v)
  }

  lemma ExtendedBy(before: set<vid>, vids: seq<u16>)
    ensures Extended(before, vids, before + MaskedVids(vids))
  {
    forall v: vid
      ensures v in before + MaskedVids(vids) <==> v in before || Named(vids, v)
    {
      MaskedAre(vids, v);
    }
  }

  // ---- entries ----

  lemma PutEntry(db: Database, e: Evc, level: u8, maps: seq<CvlanMap>)
    requires WellKept(db)
    ensures EvcAt(db.(evcs := PutEvc(db.evcs, e), level := level, maps := maps), e.refId) == Some(e)
  {
    hide PutEvc, IndexOf, Rising;
    PutEvcAt(db.evcs, e, e.refId);
  }

  lemma PutMapEntry(db: Database, m: CvlanMap, evcs: seq<Evc>)
    requires WellKept(db)
    ensures MapAt(db.(maps := PutMap(db.maps, m), evcs := evcs), m.refId) == Some(m)
  {
    hide PutMap, IndexOf, Rising;
    PutMapAt(db.maps, m, m.refId);
  }

  /** Known EVCs have both entries, unknown ones neither. */
  lemma EntriesMatch(db: Database, id: u16)
    requires WellKept(db)
    ensures EvcAt(db, id).Some? <==> id in EvcRefs(db.evcs)
    ensures MapAt(db, id).Some? <==> EvcAt(db, id).Some?
    ensures EvcAt(db, id).Some? ==>
              OldEvc(db, id) == EvcAt(db, id).value && OldMap(db, id) == MapAt(db, id).value
    ensures EvcAt(db, id).None? ==>
              OldEvc(db, id) == Evc(id, 0, 0, [], 0, None, []) && OldMap(db, id) == CvlanMap(id, false, false, {})
    ensures OldEvc(db, id).refId == id && OldMap(db, id).refId == id
  {
  }

  /** The identifier as far as its field holds it. */
  predicate Cut(id: bytes, max: nat, field: bytes) {
    field == if |id| <= max then id else id[..max]
  }

  // ---- EVCs ----

  /** Adding: type and name of the message, status "new and not active", no bandwidth level; profiles of an EVC that
      was there stay, as do the VLANs of its map, which gains those of the message and takes its two flags. */
  lemma Added(db: Database, di: u32, m: EvcMsg)
    requires WellKept(db)
    ensures var (db2, di2) := Apply(db, di, Add(m));
            var was, had := EvcAt(db, m.refId), MapAt(db, m.refId);
            var e, c := EvcAt(db2, m.refId), MapAt(db2, m.refId);
            && Moved(di, di2) && SameUni(db, db2) && e.Some? && c.Some?
            && e.value.refId == m.refId && e.value.status == 1 && e.value.evcType == m.evcType && e.value.level == 0
            && Cut(m.id, 100, e.value.id)
            && (if was.Some? then e.value.bw == was.value.bw && e.value.cos == was.value.cos
                else e.value.bw == None && e.value.cos == [])
            && c.value.refId == m.refId && c.value.untagged == m.untagged && c.value.defaultEvc == m.defaultEvc
            && Extended(if had.Some? then had.value.vids else {}, m.vids, c.value.vids)
  {
    hide PutEvc, PutMap, MaskedVids, Extended, IndexOf, Rising;
    EntriesMatch(db, m.refId);
    var e, c := AddedEvc(OldEvc(db, m.refId), m), AddedMap(OldMap(db, m.refId), m);
    PutEntry(db, e, db.level, PutMap(db.maps, c));
    PutMapEntry(db, c, PutEvc(db.evcs, e));
    ExtendedBy(OldMap(db, m.refId).vids, m.vids);
  }

  /** Changing: fields the message does not carry stay, and an unknown EVC changes nothing. */
  lemma Changed(db: Database, di: u32, m: EvcChange)
    requires WellKept(db)
    ensures var (db2, di2) := Apply(db, di, Change(m));
            var was, had := EvcAt(db, m.refId), MapAt(db, m.refId);
            var e, c := EvcAt(db2, m.refId), MapAt(db2, m.refId);
            if was.None? then db2 == db && di2 == di
            else
              && Moved(di, di2) && SameUni(db, db2) && e.Some? && c.Some? && had.Some?
              && e.value == was.value.(evcType := e.value.evcType, id := e.value.id)
              && e.value.evcType == (if m.evcType.Some? then m.evcType.value else was.value.evcType)
              && (if m.id.Some? then Cut(m.id.value, 100, e.value.id) else e.value.id == was.value.id)
              && c.value.refId == m.refId
              && c.value.untagged == (if m.untagged.Some? then m.untagged.value else had.value.untagged)
              && c.value.defaultEvc == (if m.defaultEvc.Some? then m.defaultEvc.value else had.value.defaultEvc)
              && Extended(had.value.vids, if m.vids.Some? then m.vids.value else [], c.value.vids)
  {
    hide PutEvc, PutMap, MaskedVids, Extended, IndexOf, Rising;
    EntriesMatch(db, m.refId);
    if m.refId in EvcRefs(db.evcs) {
      var e, c := ChangedEvc(OldEvc(db, m.refId), m), ChangedMap(OldMap(db, m.refId), m);
      PutEntry(db, e, db.level, PutMap(db.maps, c));
      PutMapEntry(db, c, PutEvc(db.evcs, e));
      ExtendedBy(OldMap(db, m.refId).vids, if m.vids.Some? then m.vids.value else []);
    }
  }

  /** A status report: 2 for active, 4 for partially active, 0 otherwise, and the New bit as it was. */
  lemma Reported(db: Database, di: u32, id: u16, c: CfmStatus)
    requires WellKept(db)
    ensures var (db2, di2) := Apply(db, di, Status(id, c));
            var was, e := EvcAt(db, id), EvcAt(db2, id);
            && di2 == di && SameUni(db, db2) && db2.maps == db.maps
            && if was.None? then db2 == db
               else e.Some? && e.value == was.value.(status := e.value.status)
                    && e.value.status == (if c == CfmActive then 2 else if c == CfmPartiallyActive then 4 else 0)
                                         + was.value.status % 2
  {
    hide PutEvc, IndexOf, Rising;
    EntriesMatch(db, id);
    if id in EvcRefs(db.evcs) {
      PutEntry(db, OldEvc(db, id).(status := LocalStatus(c) + OldEvc(db, id).status % 2), db.level, db.maps);
    }
  }

  /** Deleting with the link up removes both entries; with the link down only the data instance moves. */
  lemma Dropped(db: Database, di: u32, id: u16, linkUp: bool)
    requires WellKept(db)
    ensures var (db2, di2) := Apply(db, di, Drop(id, linkUp));
            if EvcAt(db, id).None? then db2 == db && di2 == di
            else
              && Moved(di, di2) && SameUni(db, db2)
              && if linkUp then EvcAt(db2, id) == None && MapAt(db2, id) == None else db2 == db
  {
    hide IndexOf, Rising, Without;
    EntriesMatch(db, id);
    DropRemoves(db, id);
  }

  // ---- bandwidth profiles ----

  /** A profile with the flags of the message and its four values coded. */
  ghost predicate Coded(b: Option<BwProfile>, m: BwMsg) {
    && b.Some? && b.value.cf == m.cf && b.value.cm == m.cm
    && (b.value.cirMul, b.value.cirMag) == Code(m.cir, 65535) && (b.value.eirMul, b.value.eirMag) == Code(m.eir, 65535)
    && (b.value.cbsMul, b.value.cbsMag) == Code(m.cbs, 255) && (b.value.ebsMul, b.value.ebsMag) == Code(m.ebs, 255)
  }

  lemma ProfileCoded(m: BwMsg, perCos: u8)
    ensures Coded(Some(ProfileOf(m, perCos)), m) && ProfileOf(m, perCos).perCos == perCos
  {
    hide Code;
  }

  /** The profile of an EVC, and the levels of EVC and port. */
  lemma EvcProfileSet(db: Database, di: u32, id: u16, m: BwMsg)
    requires WellKept(db)
    ensures var (db2, di2) := Apply(db, di, EvcBwAdd(id, m));
            var was, e := EvcAt(db, id), EvcAt(db2, id);
            if !m.flagged || was.None? then db2 == db && di2 == di
            else
              && Moved(di, di2) && db2.uni == db.uni && db2.level == 2 && db2.maps == db.maps && e.Some?
              && e.value == was.value.(bw := e.value.bw, level := 1) && Coded(e.value.bw, m)
  {
    hide PutEvc, IndexOf, Rising, ProfileOf, Coded;
    EntriesMatch(db, id);
    if Result(db, EvcBwAdd(id, m)).Some? {
      ProfileCoded(m, 0);
      PutEntry(db, OldEvc(db, id).(bw := Some(ProfileOf(m, 0)), level := 1), 2, db.maps);
    }
  }

  lemma EvcProfileCleared(db: Database, di: u32, id: u16, flagged: bool)
    requires WellKept(db)
    ensures var (db2, di2) := Apply(db, di, EvcBwDrop(id, flagged));
            var was := EvcAt(db, id);
            if !flagged || was.None? then db2 == db && di2 == di
            else
              && Moved(di, di2) && db2.uni == db.uni && db2.level == 0 && db2.maps == db.maps
              && EvcAt(db2, id) == Some(was.value.(bw := None))
  {
    hide PutEvc, IndexOf, Rising;
    EntriesMatch(db, id);
    if Result(db, EvcBwDrop(id, flagged)).Some? {
      PutEntry(db, OldEvc(db, id).(bw := None), 0, db.maps);
    }
  }

  /** What a slot of the class profiles holds; slots beyond the list are empty. */
  function Slot(cos: seq<Option<BwProfile>>, c: nat): Option<BwProfile> {
    if c < |cos| then cos[c] else None
  }

  /** Only one slot differs. */
  ghost predicate OtherSlots(a: seq<Option<BwProfile>>, b: seq<Option<BwProfile>>, c: nat) {
    forall i: nat | i != c :: Slot(a, i) == Slot(b, i)
  }

  lemma SlotSet(cos: seq<Option<BwProfile>>, c: CosId, b: Option<BwProfile>)
    ensures Slot(SetSlot(cos, c, b), c) == b && OtherSlots(cos, SetSlot(cos, c, b), c)
  {
  }

  /** The profile of one class; class 0 is refused. */
  lemma ClassProfileSet(db: Database, di: u32, id: u16, c: CosId, perCos: u8, m: BwMsg)
    requires WellKept(db)
    ensures var (db2, di2) := Apply(db, di, CosBwAdd(id, c, perCos, m));
            var was, e := EvcAt(db, id), EvcAt(db2, id);
            if !m.flagged || was.None? || c == 0 then db2 == db && di2 == di
            else
              && Moved(di, di2) && db2.uni == db.uni && db2.level == 2 && db2.maps == db.maps && e.Some?
              && e.value == was.value.(cos := e.value.cos, level := 2)
              && OtherSlots(was.value.cos, e.value.cos, c) && Coded(Slot(e.value.cos, c), m)
              && Slot(e.value.cos, c).value.perCos == perCos
  {
    hide PutEvc, IndexOf, Rising, ProfileOf, SetSlot, Coded, OtherSlots;
    EntriesMatch(db, id);
    if Result(db, CosBwAdd(id, c, perCos, m)).Some? {
      var held := OldEvc(db, id);
      ProfileCoded(m, perCos);
      SlotSet(held.cos, c, Some(ProfileOf(m, perCos)));
      PutEntry(db, held.(cos := SetSlot(held.cos, c, Some(ProfileOf(m, perCos))), level := 2), 2, db.maps);
    }
  }

  lemma ClassProfileCleared(db: Database, di: u32, id: u16, c: CosId, flagged: bool)
    requires WellKept(db)
    ensures var (db2, di2) := Apply(db, di, CosBwDrop(id, c, flagged));
            var was, e := EvcAt(db, id), EvcAt(db2, id);
            if !flagged || was.None? then db2 == db && di2 == di
            else
              && Moved(di, di2) && db2.uni == db.uni && db2.level == 0 && db2.maps == db.maps && e.Some?
              && e.value == was.value.(cos := e.value.cos, bw := None)
              && OtherSlots(was.value.cos, e.value.cos, c) && Slot(e.value.cos, c) == None
  {
    hide PutEvc, IndexOf, Rising, SetSlot, OtherSlots;
    EntriesMatch(db, id);
    if Result(db, CosBwDrop(id, c, flagged)).Some? {
      var held := OldEvc(db, id);
      SlotSet(held.cos, c, None);
      PutEntry(db, held.(cos := SetSlot(held.cos, c, None), bw := None), 0, db.maps);
    }
  }

  // ---- the UNI ----

  /** Map types: 3 for bundling, 1 for all-to-one bundling, 2 for multiplexing, 0 for anything else. */
  predicate TypeFor(a: ServiceAttr, mapType: u8) {
    mapType == if a == Bundled then 3 else if a == AllToOne then 1 else if a == Multiplexing then 2 else 0
  }

  lemma UniAdded(db: Database, di: u32, attr: ServiceAttr, id: bytes)
    ensures var (db2, di2) := Apply(db, di, UniAdd(attr, id));
            && Moved(di, di2) && SameLists(db, db2) && db2.level == db.level && db2.uni.Some?
            && TypeFor(attr, db2.uni.value.mapType) && Cut(id, 64, db2.uni.value.id)
            && db2.uni.value.bw == if db.uni.Some? then db.uni.value.bw else None
  {
  }

  lemma UniChanged(db: Database, di: u32, attr: Option<ServiceAttr>, id: Option<bytes>)
    ensures var (db2, di2) := Apply(db, di, UniChange(attr, id));
            if db.uni.None? then db2 == db && di2 == di
            else
              && Moved(di, di2) && SameLists(db, db2) && db2.level == db.level && db2.uni.Some?
              && (if attr.Some? then TypeFor(attr.value, db2.uni.value.mapType)
                  else db2.uni.value.mapType == db.uni.value.mapType)
              && (if id.Some? then Cut(id.value, 64, db2.uni.value.id) else db2.uni.value.id == db.uni.value.id)
              && db2.uni.value.bw == db.uni.value.bw
  {
  }

  /** Deleting the UNI leaves the data instance alone. */
  lemma UniDropped(db: Database, di: u32)
    ensures Apply(db, di, UniDrop) == (db.(uni := None), di)
  {
  }

  lemma UniProfileSet(db: Database, di: u32, m: BwMsg)
    ensures var (db2, di2) := Apply(db, di, UniBwAdd(m));
            if !m.flagged || db.uni.None? then db2 == db && di2 == di
            else
              && Moved(di, di2) && SameLists(db, db2) && db2.level == 1 && db2.uni.Some?
              && db2.uni.value == db.uni.value.(bw := db2.uni.value.bw) && Coded(db2.uni.value.bw, m)
  {
    hide ProfileOf, Coded;
    ProfileCoded(m, 0);
  }

  lemma UniProfileCleared(db: Database, di: u32, flagged: bool)
    ensures var (db2, di2) := Apply(db, di, UniBwDrop(flagged));
            if !flagged || db.uni.None? || db.uni.value.bw.None? then db2 == db && di2 == di
            else Moved(di, di2) && SameLists(db, db2) && db2.level == 0
                 && db2.uni == Some(db.uni.value.(bw := None))
  {
  }
}
