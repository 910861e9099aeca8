/** The provider's lists of EVCs and maps under NSM and ONM messages (elmi_port.c). */
module DatabaseOps {
  import opened Octets
  import opened VlanBitmap
  import opened Wire
  import opened Fragmentation
  import opened Bandwidth
  import UniNSpec

  const NEW_AND_NOT_ACTIVE: u8 := 1

  /** elmi_nsm_evc_add's message; VLAN ids are masked to 12 bits. */
  datatype EvcMsg = EvcMsg(refId: u16, evcType: u8, id: bytes, vids: seq<u16>, defaultEvc: bool, untagged: bool)

  /** elmi_nsm_evc_update's message: only the fields whose flag is set. */
  datatype EvcChange = EvcChange(refId: u16, evcType: Option<u8>, id: Option<bytes>, vids: Option<seq<u16>>,
                                 defaultEvc: Option<bool>, untagged: Option<bool>)

  function MaskedVids(vids: seq<u16>): set<vid> {
    if vids == [] then {} else MaskedVids(vids[..|vids| - 1]) + {vids[|vids| - 1] % 4096}
  }

  // ---- reference ids in list order ----

  function EvcRefs(es: seq<Evc>): (r: seq<u16>)
    ensures |r| == |es| && forall i | 0 <= i < |es| :: r[i] == es[i].refId
  {
    seq(|es|, i requires 0 <= i < |es| => es[i].refId)
  }

  function MapRefs(ms: seq<CvlanMap>): (r: seq<u16>)
    ensures |r| == |ms| && forall i | 0 <= i < |ms| :: r[i] == ms[i].refId
  {
    seq(|ms|, i requires 0 <= i < |ms| => ms[i].refId)
  }

  /** Index of the first equal element, or the length. */
  function IndexOf(refs: seq<u16>, id: u16): (i: nat)
    ensures i <= |refs| && id !in refs[..i]
    ensures i < |refs| ==> refs[i] == id
    ensures i == |refs| <==> id !in refs
  {
    if refs == [] then 0
    else if refs[0] == id then 0
    else
      var i := IndexOf(refs[1..], id);
      assert refs[..i + 1] == [refs[0]] + refs[1..][..i];
      assert refs == [refs[0]] + refs[1..];
      i + 1
  }

  /** Where listnode_add_sort puts a new element: in front of the first larger one. */
  function SlotOf(refs: seq<u16>, id: u16): (i: nat)
    ensures i <= |refs|
    ensures forall k | 0 <= k < i :: refs[k] <= id
    ensures i < |refs| ==> id < refs[i]
  {
    if refs == [] || id < refs[0] then 0 else 1 + SlotOf(refs[1..], id)
  }

  ghost predicate Rising(refs: seq<u16>) {
    forall i, j | 0 <= i < j < |refs| :: refs[i] < refs[j]
  }

  /** The ids after an element with this id has been updated in place or added. */
  function WithRef(refs: seq<u16>, id: u16): seq<u16> {
    if IndexOf(refs, id) < |refs| then refs else refs[..SlotOf(refs, id)] + [id] + refs[SlotOf(refs, id)..]
  }

  lemma WithRefRises(refs: seq<u16>, id: u16)
    requires Rising(refs)
    ensures Rising(WithRef(refs, id))
    ensures forall x :: x in WithRef(refs, id) <==> x in refs || x == id
  {
    var k := SlotOf(refs, id);
    if IndexOf(refs, id) == |refs| {
      assert forall i | k <= i < |refs| :: refs[k] <= refs[i];
      InsertedRises(refs, k, id);
      assert refs == refs[..k] + refs[k..];
    }
  }

  lemma InsertedRises(refs: seq<u16>, k: nat, id: u16)
    requires Rising(refs) && k <= |refs|
    requires (forall i | 0 <= i < k :: refs[i] < id) && (forall i | k <= i < |refs| :: id < refs[i])
    ensures Rising(refs[..k] + [id] + refs[k..])
  {
    var r := refs[..k] + [id] + refs[k..];
    assert forall i | 0 <= i < k :: r[i] == refs[i];
    assert forall i | k < i < |r| :: r[i] == refs[i - 1];
  }

  // ---- operations ----

  function PutEvc(es: seq<Evc>, e: Evc): seq<Evc> {
    var refs := EvcRefs(es);
    var i, k := IndexOf(refs, e.refId), SlotOf(refs, e.refId);
    if i < |es| then es[i := e] else es[..k] + [e] + es[k..]
  }

  function PutMap(ms: seq<CvlanMap>, m: CvlanMap): seq<CvlanMap> {
    var refs := MapRefs(ms);
    var i, k := IndexOf(refs, m.refId), SlotOf(refs, m.refId);
    if i < |ms| then ms[i := m] else ms[..k] + [m] + ms[k..]
  }

  function OldEvc(db: Database, id: u16): Evc {
    var i := IndexOf(EvcRefs(db.evcs), id);
    if i < |db.evcs| then db.evcs[i] else Evc(id, 0, 0, [], 0, None, [])
  }

  function OldMap(db: Database, id: u16): CvlanMap {
    var i := IndexOf(MapRefs(db.maps), id);
    if i < |db.maps| then db.maps[i] else CvlanMap(id, false, false, {})
  }

  function AddedEvc(was: Evc, m: EvcMsg): Evc {
    was.(evcType := m.evcType, level := 0, id := CarriedName(m.id, EVC_NAME_LEN), status := NEW_AND_NOT_ACTIVE)
  }

  function AddedMap(was: CvlanMap, m: EvcMsg): CvlanMap {
    was.(untagged := m.untagged, defaultEvc := m.defaultEvc, vids := was.vids + MaskedVids(m.vids))
  }

  /** elmi_nsm_evc_add: the status sent is replaced by "new and not active", VLANs are added to those mapped before. */
  function AddEvc(db: Database, m: EvcMsg): Database {
    db.(evcs := PutEvc(db.evcs, AddedEvc(OldEvc(db, m.refId), m)),
        maps := PutMap(db.maps, AddedMap(OldMap(db, m.refId), m)))
  }

  function Or<T>(x: Option<T>, otherwise: T): T {
    if x.Some? then x.value else otherwise
  }

  function ChangedEvc(was: Evc, m: EvcChange): Evc {
    was.(evcType := Or(m.evcType, was.evcType),
         id := if m.id.Some? then CarriedName(m.id.value, EVC_NAME_LEN) else was.id)
  }

  function ChangedMap(was: CvlanMap, m: EvcChange): CvlanMap {
    was.(untagged := Or(m.untagged, was.untagged), defaultEvc := Or(m.defaultEvc, was.defaultEvc),
         vids := was.vids + MaskedVids(Or(m.vids, [])))
  }

  /** elmi_nsm_evc_update; an unknown EVC is an error. */
  function ChangeEvc(db: Database, m: EvcChange): Option<Database> {
    if m.refId !in EvcRefs(db.evcs) then None
    else
      var evcs := PutEvc(db.evcs, ChangedEvc(OldEvc(db, m.refId), m));
      if m.refId !in MapRefs(db.maps) then Some(db.(evcs := evcs))
      else Some(db.(evcs := evcs, maps := PutMap(db.maps, ChangedMap(OldMap(db, m.refId), m))))
  }

  /** Connectivity as ONM reports it. */
  datatype CfmStatus = CfmActive | CfmPartiallyActive | CfmOther

  /** elmi_get_local_evc_status */
  function LocalStatus(c: CfmStatus): u8 {
    match c
    case CfmActive => 2
    case CfmPartiallyActive => 4
    case CfmOther => 0
  }

  /** elmi_update_evc_status_type: the New bit already set is kept. */
  function SetStatus(db: Database, id: u16, c: CfmStatus): Database {
    if id !in EvcRefs(db.evcs) then db
    else
      var e := OldEvc(db, id);
      db.(evcs := PutEvc(db.evcs, e.(status := LocalStatus(c) + e.status % 2)))
  }

  function Without<T>(xs: seq<T>, i: nat): seq<T> {
    if i < |xs| then xs[..i] + xs[i + 1..] else xs
  }

  /** elmi_nsm_evc_delete while no notification is queued: the EVC and its map go with the notification, which is sent
      at once, but only if the link is up. */
  function DropEvc(db: Database, id: u16, linkUp: bool): Database {
    if id !in EvcRefs(db.evcs) || !linkUp then db
    else db.(evcs := Without(db.evcs, IndexOf(EvcRefs(db.evcs), id)),
             maps := Without(db.maps, IndexOf(MapRefs(db.maps), id)))
  }

  // ---- the UNI and bandwidth profiles ----

  /** NSM's service attributes of a UNI. */
  datatype ServiceAttr = MuxAndBundling | Multiplexing | Bundled | AllToOne | Unknown

  /** elmi_get_map_type; 0 is the invalid type, 2 service multiplexing. */
  function MapTypeOf(a: ServiceAttr): u8 {
    match a
    case Bundled => BUNDLING
    case AllToOne => ALL_TO_ONE_BUNDLING
    case Multiplexing => 2
    case _ => 0
  }

  /** elmi_nsm_uni_add: a UNI that exists keeps its profile. */
  function AddUni(db: Database, attr: ServiceAttr, id: bytes): Database {
    db.(uni := Some(UniInfo(MapTypeOf(attr), CarriedName(id, UNI_NAME_LEN),
                            if db.uni.Some? then db.uni.value.bw else None)))
  }

  /** elmi_nsm_uni_update: only the fields sent. */
  function ChangeUni(db: Database, attr: Option<ServiceAttr>, id: Option<bytes>): Option<Database> {
    if db.uni.None? then None
    else
      var u := db.uni.value;
      Some(db.(uni := Some(u.(mapType := if attr.Some? then MapTypeOf(attr.value) else u.mapType,
                              id := if id.Some? then CarriedName(id.value, UNI_NAME_LEN) else u.id))))
  }

  /** A bandwidth message; `flagged` tells whether it has the type flag the operation asks for. */
  datatype BwMsg = BwMsg(flagged: bool, cf: bool, cm: bool, cir: u32, cbs: u32, eir: u32, ebs: u32)

  /** The profile with its values coded. */
  function ProfileOf(m: BwMsg, perCos: u8): BwProfile {
    var (cir, cbs, eir, ebs) := (Coded16(m.cir), Coded8(m.cbs), Coded16(m.eir), Coded8(m.ebs));
    BwProfile(m.cf, m.cm, perCos, cir.1, cir.0, cbs.1, cbs.0, eir.1, eir.0, ebs.1, ebs.0)
  }

  /** ELMI_BW_PROFILE_PER_EVC and ELMI_BW_PROFILE_INVALID, levels of a port. */
  const PORT_PER_EVC: u8 := 2
  const NO_LEVEL: u8 := 0

  /** elmi_nsm_uni_bw_add */
  function SetUniBw(db: Database, m: BwMsg): Option<Database> {
    if !m.flagged || db.uni.None? then None
    else Some(db.(uni := Some(db.uni.value.(bw := Some(ProfileOf(m, 0)))), level := LEVEL_PER_UNI))
  }

  /** elmi_nsm_uni_bw_del */
  function ClearUniBw(db: Database, flagged: bool): Option<Database> {
    if !flagged || db.uni.None? || db.uni.value.bw.None? then None
    else Some(db.(uni := Some(db.uni.value.(bw := None)), level := NO_LEVEL))
  }

  /** A profile operation of an EVC that exists: its new record and the port's new level. */
  function EvcWith(db: Database, e: Evc, level: u8): Database {
    db.(evcs := PutEvc(db.evcs, e), level := level)
  }

  /** elmi_nsm_evc_bw_add */
  function SetEvcBw(db: Database, id: u16, m: BwMsg): Option<Database> {
    if !m.flagged || id !in EvcRefs(db.evcs) then None
    else Some(EvcWith(db, OldEvc(db, id).(bw := Some(ProfileOf(m, 0)), level := LEVEL_PER_EVC), PORT_PER_EVC))
  }

  /** elmi_nsm_evc_bw_del: the EVC keeps its own level. */
  function ClearEvcBw(db: Database, id: u16, flagged: bool): Option<Database> {
    if !flagged || id !in EvcRefs(db.evcs) then None
    else Some(EvcWith(db, OldEvc(db, id).(bw := None), NO_LEVEL))
  }

  /** The slots of evc_cos_bw in use. */
  type CosId = c: u8 | c < 8

  function SetSlot(cos: seq<Option<BwProfile>>, c: CosId, b: Option<BwProfile>): (r: seq<Option<BwProfile>>)
    ensures |r| == if c < |cos| then |cos| else c + 1
    ensures r[c] == b && forall i | 0 <= i < |cos| && i != c :: r[i] == cos[i]
  {
    if c < |cos| then cos[c := b] else cos + seq(c - |cos|, _ => None) + [b]
  }

  /** elmi_nsm_evc_cos_bw_add: class 0 is refused. */
  function SetCosBw(db: Database, id: u16, c: CosId, perCos: u8, m: BwMsg): Option<Database> {
    if !m.flagged || id !in EvcRefs(db.evcs) || c == 0 then None
    else
      var e := OldEvc(db, id);
      Some(EvcWith(db, e.(cos := SetSlot(e.cos, c, Some(ProfileOf(m, perCos))), level := LEVEL_PER_COS), PORT_PER_EVC))
  }

  /** elmi_nsm_evc_cos_bw_del: the profile of the whole EVC goes as well. */
  function ClearCosBw(db: Database, id: u16, c: CosId, flagged: bool): Option<Database> {
    if !flagged || id !in EvcRefs(db.evcs) then None
    else
      var e := OldEvc(db, id);
      Some(EvcWith(db, e.(cos := SetSlot(e.cos, c, None), bw := None), NO_LEVEL))
  }

  // ---- what every operation keeps ----

  /** Strictly ascending lists with a map for every EVC and the New bit set on every EVC. */
  ghost predicate WellKept(db: Database) {
    && Rising(EvcRefs(db.evcs))
    && EvcRefs(db.evcs) == MapRefs(db.maps)
    && forall e | e in db.evcs :: e.status in {1, 3, 5}
  }

  lemma PutEvcRefs(es: seq<Evc>, e: Evc)
    ensures EvcRefs(PutEvc(es, e)) == WithRef(EvcRefs(es), e.refId)
  {
  }

  lemma PutEvcElements(es: seq<Evc>, e: Evc)
    ensures forall x | x in PutEvc(es, e) :: x == e || x in es
  {
  }

  lemma PutMapRefs(ms: seq<CvlanMap>, m: CvlanMap)
    ensures MapRefs(PutMap(ms, m)) == WithRef(MapRefs(ms), m.refId)
  {
  }

  /** Updating or adding an element in both lists keeps them matched and ascending. */
  lemma PutKeeps(db: Database, e: Evc, m: CvlanMap)
    requires WellKept(db) && e.refId == m.refId && e.status in {1, 3, 5}
    ensures WellKept(db.(evcs := PutEvc(db.evcs, e), maps := PutMap(db.maps, m)))
    ensures EvcRefs(PutEvc(db.evcs, e)) == WithRef(EvcRefs(db.evcs), e.refId)
  {
    PutEvcRefs(db.evcs, e);
    PutEvcElements(db.evcs, e);
    PutMapRefs(db.maps, m);
    WithRefRises(EvcRefs(db.evcs), e.refId);
  }

  lemma AddKeeps(db: Database, m: EvcMsg)
    requires WellKept(db)
    ensures WellKept(AddEvc(db, m)) && EvcRefs(AddEvc(db, m).evcs) == WithRef(EvcRefs(db.evcs), m.refId)
  {
    PutKeeps(db, AddedEvc(OldEvc(db, m.refId), m), AddedMap(OldMap(db, m.refId), m));
  }

  lemma OldIsKept(db: Database, id: u16)
    requires WellKept(db) && id in EvcRefs(db.evcs)
    ensures OldEvc(db, id) in db.evcs && OldEvc(db, id).refId == id && OldMap(db, id).refId == id
    ensures id in MapRefs(db.maps) && WithRef(EvcRefs(db.evcs), id) == EvcRefs(db.evcs)
  {
    assert OldEvc(db, id) == db.evcs[IndexOf(EvcRefs(db.evcs), id)];
  }

  lemma ChangeKeeps(db: Database, m: EvcChange)
    requires WellKept(db)
    ensures ChangeEvc(db, m).Some? <==> m.refId in EvcRefs(db.evcs)
    ensures ChangeEvc(db, m).Some? ==>
              WellKept(ChangeEvc(db, m).value) && EvcRefs(ChangeEvc(db, m).value.evcs) == EvcRefs(db.evcs)
  {
    if m.refId in EvcRefs(db.evcs) {
      OldIsKept(db, m.refId);
      PutKeeps(db, ChangedEvc(OldEvc(db, m.refId), m), ChangedMap(OldMap(db, m.refId), m));
    }
  }

  /** Replacing the record of an EVC by one with a legal status keeps the lists and the ids. */
  lemma ReplaceKeeps(db: Database, e: Evc, level: u8)
    requires WellKept(db) && e.refId in EvcRefs(db.evcs) && e.status in {1, 3, 5}
    ensures WellKept(EvcWith(db, e, level)) && EvcRefs(EvcWith(db, e, level).evcs) == EvcRefs(db.evcs)
  {
    hide PutEvc, WithRef, Rising;
    PutEvcRefs(db.evcs, e);
    PutEvcElements(db.evcs, e);
    WithRefSame(EvcRefs(db.evcs), e.refId);
  }

  lemma WithRefSame(refs: seq<u16>, id: u16)
    requires id in refs
    ensures WithRef(refs, id) == refs
  {
  }

  lemma StatusKeeps(db: Database, id: u16, c: CfmStatus)
    requires WellKept(db)
    ensures WellKept(SetStatus(db, id, c)) && EvcRefs(SetStatus(db, id, c).evcs) == EvcRefs(db.evcs)
  {
    hide PutEvc, Rising, WithRef;
    if id in EvcRefs(db.evcs) {
      OldIsKept(db, id);
      ReplaceKeeps(db, OldEvc(db, id).(status := LocalStatus(c) + OldEvc(db, id).status % 2), db.level);
    }
  }

  lemma EvcWithout(es: seq<Evc>, i: nat)
    requires i < |es|
    ensures EvcRefs(Without(es, i)) == Without(EvcRefs(es), i)
  {
  }

  lemma MapWithout(ms: seq<CvlanMap>, i: nat)
    requires i < |ms|
    ensures MapRefs(Without(ms, i)) == Without(MapRefs(ms), i)
  {
  }

  lemma DropKeeps(db: Database, id: u16, linkUp: bool)
    requires WellKept(db)
    ensures WellKept(DropEvc(db, id, linkUp))
    ensures forall x :: x in EvcRefs(DropEvc(db, id, linkUp).evcs) <==> x in EvcRefs(db.evcs) && !(x == id && linkUp)
  {
    var refs := EvcRefs(db.evcs);
    var i := IndexOf(refs, id);
    if i < |refs| && linkUp {
      var r := DropEvc(db, id, linkUp);
      WithoutRef(refs, i);
      EvcWithout(db.evcs, i);
      MapWithout(db.maps, i);
      assert forall e | e in r.evcs :: e in db.evcs;
    }
  }

  lemma WithoutRef(refs: seq<u16>, i: nat)
    requires Rising(refs) && i < |refs|
    ensures Rising(Without(refs, i))
    ensures forall x :: x in Without(refs, i) <==> x in refs && x != refs[i]
  {
    assert refs == refs[..i] + [refs[i]] + refs[i + 1..];
  }

  // ---- any sequence of operations ----

  datatype Op =
    | Add(msg: EvcMsg)
    | Change(change: EvcChange)
    | Status(id: u16, cfm: CfmStatus)
    | Drop(id: u16, linkUp: bool)
    | UniAdd(attr: ServiceAttr, uniId: bytes)
    | UniChange(newAttr: Option<ServiceAttr>, newId: Option<bytes>)
    | UniDrop
    | UniBwAdd(bw: BwMsg)
    | UniBwDrop(flagged: bool)
    | EvcBwAdd(id: u16, bw: BwMsg)
    | EvcBwDrop(id: u16, flagged: bool)
    | CosBwAdd(id: u16, cos: CosId, perCos: u8, bw: BwMsg)
    | CosBwDrop(id: u16, cos: CosId, flagged: bool)

  /** What an operation makes of the database; None is an error, and nothing changes. */
  function Result(db: Database, op: Op): Option<Database> {
    match op
    case Add(m) => Some(AddEvc(db, m))
    case Change(m) => ChangeEvc(db, m)
    case Status(id, c) => Some(SetStatus(db, id, c))
    case Drop(id, linkUp) => if id in EvcRefs(db.evcs) then Some(DropEvc(db, id, linkUp)) else None
    case UniAdd(attr, id) => Some(AddUni(db, attr, id))
    case UniChange(attr, id) => ChangeUni(db, attr, id)
    case UniDrop => if db.uni.Some? then Some(db.(uni := None)) else None
    case UniBwAdd(m) => SetUniBw(db, m)
    case UniBwDrop(flagged) => ClearUniBw(db, flagged)
    case EvcBwAdd(id, m) => SetEvcBw(db, id, m)
    case EvcBwDrop(id, flagged) => ClearEvcBw(db, id, flagged)
    case CosBwAdd(id, c, perCos, m) => SetCosBw(db, id, c, perCos, m)
    case CosBwDrop(id, c, flagged) => ClearCosBw(db, id, c, flagged)
  }

  function Applied(db: Database, op: Op): Database {
    Or(Result(db, op), db)
  }

  /** Whether an operation counts as a change: every successful one does, except a status change and the deletion of the
      UNI. */
  predicate Counts(db: Database, op: Op) {
    Result(db, op).Some? && !op.Status? && !op.UniDrop?
  }

  /** The data instance is a 32-bit counter. */
  function NextInstance(di: u32): u32 {
    if di == 0xFFFF_FFFF then 0 else di + 1
  }

  /** Database and data instance. */
  function Apply(db: Database, di: u32, op: Op): (Database, u32) {
    (Applied(db, op), if Counts(db, op) then NextInstance(di) else di)
  }

  function ApplyAll(db: Database, di: u32, ops: seq<Op>): (Database, u32) {
    if ops == [] then (db, di)
    else var (db1, di1) := ApplyAll(db, di, ops[..|ops| - 1]); Apply(db1, di1, ops[|ops| - 1])
  }

  /** Operations on the UNI leave the lists, profile operations replace one record. */
  lemma ProfilesKeep(db: Database, op: Op)
    requires WellKept(db) && !op.Add? && !op.Change? && !op.Status? && !op.Drop?
    ensures WellKept(Applied(db, op)) && EvcRefs(Applied(db, op).evcs) == EvcRefs(db.evcs)
  {
    hide PutEvc, Rising, ProfileOf, SetSlot, WithRef;
    if Result(db, op).Some? {
      match op {
        case EvcBwAdd(id, m) =>
          OldIsKept(db, id);
          ReplaceKeeps(db, OldEvc(db, id).(bw := Some(ProfileOf(m, 0)), level := LEVEL_PER_EVC), PORT_PER_EVC);
        case EvcBwDrop(id, _) =>
          OldIsKept(db, id);
          ReplaceKeeps(db, OldEvc(db, id).(bw := None), NO_LEVEL);
        case CosBwAdd(id, c, perCos, m) =>
          OldIsKept(db, id);
          var e := OldEvc(db, id);
          ReplaceKeeps(db, e.(cos := SetSlot(e.cos, c, Some(ProfileOf(m, perCos))), level := LEVEL_PER_COS),
                       PORT_PER_EVC);
        case CosBwDrop(id, c, _) =>
          OldIsKept(db, id);
          var e := OldEvc(db, id);
          ReplaceKeeps(db, e.(cos := SetSlot(e.cos, c, None), bw := None), NO_LEVEL);
        case _ =>
      }
    }
  }

  lemma ApplyKeeps(db: Database, di: u32, op: Op)
    requires WellKept(db)
    ensures WellKept(Apply(db, di, op).0)
  {
    hide WellKept, AddEvc, ChangeEvc, SetStatus, DropEvc;
    match op {
      case Add(m) => AddKeeps(db, m);
      case Change(m) => ChangeKeeps(db, m);
      case Status(id, c) => StatusKeeps(db, id, c);
      case Drop(id, linkUp) => DropKeeps(db, id, linkUp);
      case _ => ProfilesKeep(db, op);
    }
  }

  /** Whatever NSM and ONM send, the lists stay strictly ascending and matched, and every EVC keeps its New bit. */
  lemma {:induction false} AlwaysWellKept(uni: Option<UniInfo>, level: u8, di: u32, ops: seq<Op>)
    ensures WellKept(ApplyAll(Database(uni, level, [], []), di, ops).0)
  {
    if ops != [] {
      AlwaysWellKept(uni, level, di, ops[..|ops| - 1]);
      var (db, di1) := ApplyAll(Database(uni, level, [], []), di, ops[..|ops| - 1]);
      ApplyKeeps(db, di1, ops[|ops| - 1]);
    }
  }

  /** What the exactly-once theorem asks of the lists holds as long as no reference id is zero. */
  lemma WellKeptIsSorted(db: Database)
    requires WellKept(db)
    ensures Sorted(db) <==> 0 !in EvcRefs(db.evcs)
  {
    if 0 !in EvcRefs(db.evcs) {
      forall i | 0 <= i < |db.evcs|
        ensures db.evcs[i].refId >= 1 && db.maps[i].refId >= 1
      {
        assert EvcRefs(db.evcs)[i] == MapRefs(db.maps)[i];
      }
      assert forall i | 0 <= i < |db.maps| :: MapRefs(db.maps)[i] == db.maps[i].refId;
    } else {
      var i :| 0 <= i < |db.evcs| && EvcRefs(db.evcs)[i] == 0;
      assert UniNSpec.RefOf(EvcItems(db.evcs)[i]) == 0;
    }
  }

  // ---- what an operation does to single entries ----

  function EvcAt(db: Database, id: u16): Option<Evc> {
    var i := IndexOf(EvcRefs(db.evcs), id);
    if i < |db.evcs| then Some(db.evcs[i]) else None
  }

  function MapAt(db: Database, id: u16): Option<CvlanMap> {
    var i := IndexOf(MapRefs(db.maps), id);
    if i < |db.maps| then Some(db.maps[i]) else None
  }

  /** Whether an operation names the EVC with this id. */
  predicate Names(op: Op, x: u16) {
    match op
    case Add(m) => m.refId == x
    case Change(m) => m.refId == x
    case Status(id, _) => id == x
    case Drop(id, _) => id == x
    case EvcBwAdd(id, _) => id == x
    case EvcBwDrop(id, _) => id == x
    case CosBwAdd(id, _, _, _) => id == x
    case CosBwDrop(id, _, _) => id == x
    case _ => false
  }

  lemma {:induction false} IndexOfRising(refs: seq<u16>, i: nat)
    requires Rising(refs) && i < |refs|
    ensures IndexOf(refs, refs[i]) == i
  {
    if i > 0 {
      IndexOfRising(refs[1..], i - 1);
    }
  }

  /** An id keeps its entry when another element is put or inserted, and a put element is found. */
  lemma PutEvcAt(es: seq<Evc>, e: Evc, id: u16)
    requires Rising(EvcRefs(es))
    ensures var refs, refs2 := EvcRefs(es), EvcRefs(PutEvc(es, e));
            var i, i2 := IndexOf(refs, id), IndexOf(refs2, id);
            if id == e.refId then i2 < |refs2| && PutEvc(es, e)[i2] == e
            else (i2 < |refs2| <==> i < |refs|) && (i < |refs| ==> PutEvc(es, e)[i2] == es[i])
  {
    hide IndexOf, SlotOf;
    var refs, r := EvcRefs(es), PutEvc(es, e);
    var refs2 := EvcRefs(r);
    PutEvcRefs(es, e);
    WithRefRises(refs, e.refId);
    var i2 := IndexOf(refs2, id);
    if i2 < |refs2| && id != e.refId {
      assert r[i2] in es;
      var k :| 0 <= k < |es| && es[k] == r[i2];
      IndexOfRising(refs, k);
    }
  }

  /** Putting the entry of another id leaves what is found under an id. */
  lemma PutElsewhere(db: Database, e: Evc, m: CvlanMap, x: u16)
    requires WellKept(db) && e.refId != x && m.refId != x
    ensures EvcAt(db.(evcs := PutEvc(db.evcs, e)), x) == EvcAt(db, x)
    ensures MapAt(db.(maps := PutMap(db.maps, m)), x) == MapAt(db, x)
  {
    PutEvcAt(db.evcs, e, x);
    PutMapAt(db.maps, m, x);
  }

  lemma PutMapAt(ms: seq<CvlanMap>, m: CvlanMap, id: u16)
    requires Rising(MapRefs(ms))
    ensures var refs, refs2 := MapRefs(ms), MapRefs(PutMap(ms, m));
            var i, i2 := IndexOf(refs, id), IndexOf(refs2, id);
            if id == m.refId then i2 < |refs2| && PutMap(ms, m)[i2] == m
            else (i2 < |refs2| <==> i < |refs|) && (i < |refs| ==> PutMap(ms, m)[i2] == ms[i])
  {
    hide IndexOf, SlotOf;
    var refs, r := MapRefs(ms), PutMap(ms, m);
    var refs2 := MapRefs(r);
    PutMapRefs(ms, m);
    WithRefRises(refs, m.refId);
    var i2 := IndexOf(refs2, id);
    if i2 < |refs2| && id != m.refId {
      assert r[i2] in ms;
      var k :| 0 <= k < |ms| && ms[k] == r[i2];
      IndexOfRising(refs, k);
    }
  }

  lemma {:induction false} WithoutIndex(refs: seq<u16>, i: nat, id: u16)
    requires Rising(refs) && i < |refs| && id != refs[i]
    ensures var j := IndexOf(refs, id);
            IndexOf(Without(refs, i), id) == if j < i then j else j - 1
  {
    var rest := Without(refs, i);
    WithoutRef(refs, i);
    var j := IndexOf(refs, id);
    if j < |refs| {
      var k := if j < i then j else j - 1;
      assert rest[k] == id;
      IndexOfRising(rest, k);
    }
  }

  /** Dropping an EVC removes it and its map ... */
  lemma DropRemoves(db: Database, id: u16)
    requires WellKept(db)
    ensures EvcAt(DropEvc(db, id, true), id) == None && MapAt(DropEvc(db, id, true), id) == None
  {
    DropKeeps(db, id, true);
    assert id !in EvcRefs(DropEvc(db, id, true).evcs);
  }

  lemma WithoutKeeps<T>(xs: seq<T>, i: nat, j: nat)
    requires i < |xs| && j < |xs| && j != i
    ensures Without(xs, i)[if j < i then j else j - 1] == xs[j]
  {
  }

  /** ... and only those. */
  lemma DropLeaves(db: Database, id: u16, x: u16)
    requires WellKept(db) && x != id
    ensures EvcAt(DropEvc(db, id, true), x) == EvcAt(db, x) && MapAt(DropEvc(db, id, true), x) == MapAt(db, x)
  {
    var refs := EvcRefs(db.evcs);
    var i := IndexOf(refs, id);
    if i < |refs| {
      EvcWithout(db.evcs, i);
      MapWithout(db.maps, i);
      EntryStays(refs, db.evcs, i, x);
      EntryStays(refs, db.maps, i, x);
    }
  }

  function Entry<T>(refs: seq<u16>, xs: seq<T>, x: u16): Option<T> {
    if IndexOf(refs, x) < |xs| then Some(xs[IndexOf(refs, x)]) else None
  }

  lemma EntryStays<T>(refs: seq<u16>, xs: seq<T>, i: nat, x: u16)
    requires Rising(refs) && i < |refs| == |xs| && x != refs[i]
    ensures Entry(Without(refs, i), Without(xs, i), x) == Entry(refs, xs, x)
  {
    var j := IndexOf(refs, x);
    WithoutIndex(refs, i, x);
    if j < |refs| {
      WithoutKeeps(xs, i, j);
    }
  }

  lemma ReplacedElsewhere(db: Database, e: Evc, level: u8, x: u16)
    requires WellKept(db) && e.refId != x
    ensures EvcAt(EvcWith(db, e, level), x) == EvcAt(db, x) && MapAt(EvcWith(db, e, level), x) == MapAt(db, x)
  {
    hide PutEvc, Rising;
    PutEvcAt(db.evcs, e, x);
  }

  lemma ProfilesElsewhere(db: Database, op: Op, x: u16)
    requires WellKept(db) && !Names(op, x) && !op.Add? && !op.Change? && !op.Status? && !op.Drop?
    ensures EvcAt(Applied(db, op), x) == EvcAt(db, x) && MapAt(Applied(db, op), x) == MapAt(db, x)
  {
    hide PutEvc, WellKept, ProfileOf, SetSlot;
    if Result(db, op).Some? {
      match op {
        case EvcBwAdd(id, m) =>
          OldIsKept(db, id);
          ReplacedElsewhere(db, OldEvc(db, id).(bw := Some(ProfileOf(m, 0)), level := LEVEL_PER_EVC), PORT_PER_EVC, x);
        case EvcBwDrop(id, _) =>
          OldIsKept(db, id);
          ReplacedElsewhere(db, OldEvc(db, id).(bw := None), NO_LEVEL, x);
        case CosBwAdd(id, c, perCos, m) =>
          OldIsKept(db, id);
          var e := OldEvc(db, id);
          ReplacedElsewhere(db, e.(cos := SetSlot(e.cos, c, Some(ProfileOf(m, perCos))), level := LEVEL_PER_COS),
                            PORT_PER_EVC, x);
        case CosBwDrop(id, c, _) =>
          OldIsKept(db, id);
          var e := OldEvc(db, id);
          ReplacedElsewhere(db, e.(cos := SetSlot(e.cos, c, None), bw := None), NO_LEVEL, x);
        case _ =>
      }
    }
  }

  lemma DropElsewhere(db: Database, id: u16, linkUp: bool, x: u16)
    requires WellKept(db) && x != id
    ensures EvcAt(DropEvc(db, id, linkUp), x) == EvcAt(db, x) && MapAt(DropEvc(db, id, linkUp), x) == MapAt(db, x)
  {
    hide WellKept, EvcAt, MapAt;
    if linkUp {
      DropLeaves(db, id, x);
    }
  }

  /** No operation touches an EVC or a map other than the one it names. */
  lemma OthersUntouched(db: Database, di: u32, op: Op, x: u16)
    requires WellKept(db) && !Names(op, x)
    ensures EvcAt(Apply(db, di, op).0, x) == EvcAt(db, x) && MapAt(Apply(db, di, op).0, x) == MapAt(db, x)
  {
    hide PutEvc, PutMap, MaskedVids, DropEvc, IndexOf, Rising;
    match op {
      case Add(m) =>
        PutElsewhere(db, AddedEvc(OldEvc(db, m.refId), m), AddedMap(OldMap(db, m.refId), m), x);
      case Change(m) =>
        if m.refId in EvcRefs(db.evcs) {
          PutElsewhere(db, ChangedEvc(OldEvc(db, m.refId), m), ChangedMap(OldMap(db, m.refId), m), x);
        }
      case Status(id, c) =>
        if id in EvcRefs(db.evcs) {
          PutEvcAt(db.evcs, OldEvc(db, id).(status := LocalStatus(c) + OldEvc(db, id).status % 2), x);
        }
      case Drop(id, linkUp) => DropElsewhere(db, id, linkUp, x);
      case _ => ProfilesElsewhere(db, op, x);
    }
  }
}
