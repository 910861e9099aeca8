/** The provider's database and the octets of each E-LMI information element (MEF 16). */
module Wire {
  import opened Octets
  import opened VlanBitmap
  import Greedy

  const PROTO_VERSION: u8 := 1
  const MSG_STATUS: u8 := 0x7D
  const MSG_STATUS_ENQUIRY: u8 := 0x75

  const REPORT_FULL_STATUS: u8 := 0
  const REPORT_ECHECK: u8 := 1
  const REPORT_SINGLE_EVC: u8 := 2
  const REPORT_FULL_STATUS_CONTD: u8 := 3
  const REPORT_INVALID: u8 := 10

  const REPORT_TYPE_IE: u8 := 1
  const SEQUENCE_NUM_IE: u8 := 2
  const DATA_INSTANCE_IE: u8 := 3
  const DATA_INSTANCE_LEN: u8 := 5
  const UNI_STATUS_IE: u8 := 0x11
  const EVC_STATUS_IE: u8 := 0x21
  const CEVLAN_EVC_MAP_IE: u8 := 0x22
  const UNI_ID_IE: u8 := 0x51
  const EVC_PARAMS_IE: u8 := 0x61
  const EVC_ID_IE: u8 := 0x62
  const EVC_MAP_ENTRY_IE: u8 := 0x63
  const BW_PROFILE_IE: u8 := 0x71
  const BW_PROFILE_LEN: u8 := 12

  const MIN_PACKET := 46
  const MAX_PACKET := 1500
  const HEADER_LEN := 16
  const UNI_FIXED_LEN := 19
  const EVC_FIXED_LEN := 10
  const MAP_FIXED_LEN := 8
  const MAX_IE_LEN := 255
  const UNI_NAME_LEN := 64
  const EVC_NAME_LEN := 100

  const LEVEL_PER_UNI: u8 := 1
  const LEVEL_PER_EVC: u8 := 1
  const LEVEL_PER_COS: u8 := 2

  const ALL_TO_ONE_BUNDLING: u8 := 1
  const BUNDLING: u8 := 3

  /** The fields of a bandwidth profile that travel; the flags are single bits. */
  datatype BwProfile = BwProfile(
    cf: bool, cm: bool, perCos: u8,
    cirMag: u8, cirMul: u16, cbsMag: u8, cbsMul: u8,
    eirMag: u8, eirMul: u16, ebsMag: u8, ebsMul: u8)

  const ZERO_PROFILE := BwProfile(false, false, 0, 0, 0, 0, 0, 0, 0, 0, 0)

  /** `id` is the string before the first NUL of the identifier field. */
  datatype Evc = Evc(refId: u16, status: u8, evcType: u8, id: bytes,
                     level: u8, bw: Option<BwProfile>, cos: seq<Option<BwProfile>>)

  datatype CvlanMap = CvlanMap(refId: u16, untagged: bool, defaultEvc: bool, vids: set<vid>)

  datatype UniInfo = UniInfo(mapType: u8, id: bytes, bw: Option<BwProfile>)

  /** What UNI-N advertises: `level` is the port's bandwidth level, the lists are in list order. */
  datatype Database = Database(uni: Option<UniInfo>, level: u8, evcs: seq<Evc>, maps: seq<CvlanMap>)

  function Flag(b: bool): u8 {
    if b then 1 else 0
  }

  /** Octets used by an identifier: an empty one travels as a single zero octet. */
  function NameLen(id: bytes, max: nat): nat {
    if |id| > max then max else if |id| == 0 then 1 else |id|
  }

  function NameOctets(id: bytes, max: nat): (b: bytes)
    ensures |b| == NameLen(id, max)
  {
    if |id| > max then id[..max] else if |id| == 0 then [0] else id
  }

  function BwValues(p: BwProfile): (b: bytes)
    ensures |b| == 10
  {
    [p.cirMag] + W(p.cirMul) + [p.cbsMag, p.cbsMul, p.eirMag] + W(p.eirMul) + [p.ebsMag, p.ebsMul]
  }

  function BwIe(p: BwProfile): (b: bytes)
    ensures |b| == 14
  {
    [BW_PROFILE_IE, BW_PROFILE_LEN, 2 * Flag(p.cf) + 4 * Flag(p.cm)] + BwValues(p) + [0]
  }

  /** The per-class encoder writes four-octet multipliers (elmi_uni_n.c:240-253). */
  function CosIe(p: BwProfile): (b: bytes)
    ensures |b| == 21
  {
    [BW_PROFILE_IE, BW_PROFILE_LEN, 1 + 2 * Flag(p.cf) + 4 * Flag(p.cm), p.cirMag] + L(p.cirMul)
    + [p.cbsMag, p.cbsMul, p.eirMag] + L(p.eirMul) + [p.ebsMag] + L(p.ebsMul) + [p.perCos]
  }

  function CosIes(cos: seq<Option<BwProfile>>): bytes {
    if cos == [] then []
    else CosIes(cos[..|cos| - 1]) + (if cos[|cos| - 1].Some? then CosIe(cos[|cos| - 1].value) else [])
  }

  function EmptyBwIe(): (b: bytes)
    ensures |b| == 14
  {
    [BW_PROFILE_IE, BW_PROFILE_LEN] + Zeros(12)
  }

  function EvcBwIes(e: Evc): bytes {
    if e.level == LEVEL_PER_EVC then
      if e.bw.Some? then BwIe(e.bw.value) else EmptyBwIe()
    else if e.level == LEVEL_PER_COS then CosIes(e.cos)
    else EmptyBwIe()
  }

  function EvcHead(e: Evc): (b: bytes)
    ensures |b| == EVC_FIXED_LEN
  {
    [EVC_STATUS_IE, (EvcLength(e) - 2) % 256] + W(e.refId)
    + [e.status, EVC_PARAMS_IE, 1, e.evcType % 8, EVC_ID_IE, NameLen(e.id, EVC_NAME_LEN) % 256]
  }

  function EvcIe(e: Evc): (b: bytes)
    ensures |b| == EVC_FIXED_LEN + NameLen(e.id, EVC_NAME_LEN) + |EvcBwIes(e)|
  {
    EvcHead(e) + NameOctets(e.id, EVC_NAME_LEN) + EvcBwIes(e)
  }

  function UniBwIe(db: Database): (b: bytes)
    requires db.uni.Some?
    ensures |b| == 14
  {
    if db.uni.value.bw.Some? && db.level == LEVEL_PER_UNI then BwIe(db.uni.value.bw.value)
    else [BW_PROFILE_IE, BW_PROFILE_LEN, 0] + Zeros(11)
  }

  function UniHead(u: UniInfo): (b: bytes)
    ensures |b| == 5
  {
    var n := NameLen(u.id, UNI_NAME_LEN);
    [UNI_STATUS_IE, UNI_FIXED_LEN - 2 + n, u.mapType, UNI_ID_IE, n]
  }

  function UniIe(db: Database): (b: bytes)
    requires db.uni.Some?
    ensures |b| == UniLength(db)
  {
    var u := db.uni.value;
    UniHead(u) + NameOctets(u.id, UNI_NAME_LEN) + UniBwIe(db)
  }

  function VidOctets(vids: seq<vid>): (b: bytes)
    ensures |b| == 2 * |vids|
  {
    if vids == [] then [] else VidOctets(vids[..|vids| - 1]) + W(vids[|vids| - 1])
  }

  /** The single-IE form: last-IE bit set, map sequence number 1. */
  function MapIe(m: CvlanMap): (b: bytes)
    ensures |b| == MapLength(m)
  {
    MapHead(m) + VidOctets(Members(m.vids))
  }

  function MapHead(m: CvlanMap): (b: bytes)
    ensures |b| == MAP_FIXED_LEN
  {
    var n := |Members(m.vids)|;
    [CEVLAN_EVC_MAP_IE, (MAP_FIXED_LEN - 2 + 2 * n) % 256] + W(m.refId)
    + [0x41, 2 * Flag(m.untagged) + Flag(m.defaultEvc), EVC_MAP_ENTRY_IE, 2 * n % 256]
  }

  // ---- the length code ----

  function CosCount(cos: seq<Option<BwProfile>>): nat {
    if cos == [] then 0 else CosCount(cos[..|cos| - 1]) + (if cos[|cos| - 1].Some? then 1 else 0)
  }

  /** elmi_get_evc_length: u8 arithmetic throughout. */
  function EvcLength(e: Evc): u8 {
    var bw := if e.level == LEVEL_PER_COS then CosCount(e.cos) * 14 % 256 else 14;
    ((NameLen(e.id, EVC_NAME_LEN) + EVC_FIXED_LEN) % 256 + bw) % 256
  }

  function UniLength(db: Database): nat {
    if db.uni.Some? then UNI_FIXED_LEN + NameLen(db.uni.value.id, UNI_NAME_LEN) else 0
  }

  function MapLength(m: CvlanMap): nat {
    2 * |Members(m.vids)| + MAP_FIXED_LEN
  }

  lemma {:induction false} CosSizes(cos: seq<Option<BwProfile>>)
    ensures CosCount(cos) <= |cos|
    ensures |CosIes(cos)| == 21 * CosCount(cos)
  {
    if cos != [] {
      CosSizes(cos[..|cos| - 1]);
    }
  }

  lemma EvcBwSize(e: Evc)
    ensures |EvcBwIes(e)| == if e.level == LEVEL_PER_COS then 21 * CosCount(e.cos) else 14
    ensures CosCount(e.cos) <= |e.cos|
  {
    CosSizes(e.cos);
  }

  /** No u8 sum in the length code wraps. */
  lemma EvcLengthValue(e: Evc)
    requires CosCount(e.cos) <= 8
    ensures EvcLength(e) == NameLen(e.id, EVC_NAME_LEN) + EVC_FIXED_LEN
                            + (if e.level == LEVEL_PER_COS then 14 * CosCount(e.cos) else 14)
  {
    var n, c := NameLen(e.id, EVC_NAME_LEN), CosCount(e.cos);
    FitsOctet(n + EVC_FIXED_LEN);
    FitsOctet(c * 14);
    FitsOctet(n + EVC_FIXED_LEN + (if e.level == LEVEL_PER_COS then c * 14 else 14));
  }

  lemma FitsOctet(x: nat)
    requires x < 256
    ensures x % 256 == x
  {
  }

  /** A per-class profile makes the length code wrong; without one it is the number of octets emitted. */
  lemma EvcLengthExact(e: Evc)
    requires |e.cos| <= 8
    ensures |EvcIe(e)| == EvcLength(e) <==> !(e.level == LEVEL_PER_COS && CosCount(e.cos) > 0)
    ensures 10 <= EvcLength(e) <= 222
    ensures e.level != LEVEL_PER_COS ==> 25 <= EvcLength(e) <= 124
  {
    EvcBwSize(e);
    EvcLengthValue(e);
  }

  /** The length octet of an IE counts what follows it. */
  lemma EvcLengthOctet(e: Evc)
    requires |e.cos| <= 8 && e.level != LEVEL_PER_COS
    ensures EvcIe(e)[1] == |EvcIe(e)| - 2
  {
    EvcLengthExact(e);
    assert EvcIe(e)[1] == EvcHead(e)[1] == (EvcLength(e) - 2) % 256;
  }

  /** For a map that fits one IE, both its length octets count what follows them. */
  lemma MapLengthOctets(m: CvlanMap)
    requires MapLength(m) <= MAX_IE_LEN
    ensures |MapIe(m)| == MapLength(m) && MapIe(m)[1] == |MapIe(m)| - 2 && MapIe(m)[7] == |MapIe(m)| - 8
  {
    assert MapIe(m)[1] == MapHead(m)[1] && MapIe(m)[7] == MapHead(m)[7];
  }

  /** Where the values of a per-class profile stand. Its length octet says 12, but 19 octets follow: a receiver that
      goes by it looks for the next element in the middle of this one. */
  lemma CosOctets(p: BwProfile)
    ensures var b := CosIe(p);
            && b[0] == 0x71 && b[1] == 12 && |b| == 2 + 19
            && b[2] == 1 + (if p.cf then 2 else 0) + (if p.cm then 4 else 0)
            && b[3] == p.cirMag && LongAt(b, 4) == p.cirMul && b[8] == p.cbsMag && b[9] == p.cbsMul
            && b[10] == p.eirMag && LongAt(b, 11) == p.eirMul && b[15] == p.ebsMag && LongAt(b, 16) == p.ebsMul
            && b[20] == p.perCos
  {
    var b := CosIe(p);
    assert b[4..8] == L(p.cirMul) && b[11..15] == L(p.eirMul) && b[16..20] == L(p.ebsMul);
    HoldsLong(b, 4, p.cirMul);
    HoldsLong(b, 11, p.eirMul);
    HoldsLong(b, 16, p.ebsMul);
  }

  /** Every absent bandwidth profile travels as the all-zero profile. */
  lemma EmptyBwIeIsZero()
    ensures EmptyBwIe() == BwIe(ZERO_PROFILE)
    ensures [BW_PROFILE_IE, BW_PROFILE_LEN, 0] + Zeros(11) == BwIe(ZERO_PROFILE)
  {
  }

  /** The profile an EVC Status IE carries; the class field does not travel. */
  function CarriedBw(e: Evc): BwProfile {
    if e.level == LEVEL_PER_EVC && e.bw.Some? then e.bw.value.(perCos := 0) else ZERO_PROFILE
  }

  function CarriedUniBw(db: Database): BwProfile
    requires db.uni.Some?
  {
    if db.level == LEVEL_PER_UNI && db.uni.value.bw.Some? then db.uni.value.bw.value.(perCos := 0) else ZERO_PROFILE
  }

  /** The identifier a receiver can recover: at most `max` octets of it. */
  function CarriedName(id: bytes, max: nat): bytes {
    if |id| > max then id[..max] else id
  }

  // ---- frames as lists of elements ----

  datatype Ie = EvcItem(evc: Evc) | MapItem(cmap: CvlanMap) {
    function Octets(): bytes {
      if EvcItem? then EvcIe(evc) else MapIe(cmap)
    }

    function Length(): nat {
      if EvcItem? then EvcLength(evc) else MapLength(cmap)
    }

    /** Elements whose length code is exact and whose map fits one IE. */
    predicate Regular() {
      if EvcItem? then |evc.cos| <= 8 && evc.level != LEVEL_PER_COS else Length() <= MAX_IE_LEN
    }
  }

  function Flatten(items: seq<Ie>): bytes {
    if items == [] then [] else items[0].Octets() + Flatten(items[1..])
  }

  function Sizes(items: seq<Ie>): (s: seq<nat>)
    ensures |s| == |items|
    ensures forall i | 0 <= i < |items| :: s[i] == items[i].Length()
  {
    seq(|items|, i requires 0 <= i < |items| => items[i].Length())
  }

  function TotalLength(items: seq<Ie>): nat {
    Greedy.Sum(Sizes(items))
  }

  lemma SizesConcat(a: seq<Ie>, b: seq<Ie>)
    ensures Sizes(a + b) == Sizes(a) + Sizes(b)
  {
  }

  lemma SizesSlice(items: seq<Ie>, i: nat, j: nat)
    requires i <= j <= |items|
    ensures Sizes(items[i..j]) == Sizes(items)[i..j]
  {
  }

  predicate AllRegular(items: seq<Ie>) {
    forall i | 0 <= i < |items| :: items[i].Regular()
  }

  lemma RegularLength(ie: Ie)
    requires ie.Regular()
    ensures |ie.Octets()| == ie.Length() && 8 <= ie.Length() < 255
    ensures ie.EvcItem? ==> 25 <= ie.Length() <= 124
  {
    match ie {
      case EvcItem(e) =>
        EvcLengthExact(e);
      case MapItem(m) =>
        assert |MapIe(m)| == MapLength(m);
    }
  }

  lemma {:induction false} FlattenAppend(a: seq<Ie>, b: seq<Ie>)
    ensures Flatten(a + b) == Flatten(a) + Flatten(b)
  {
    if a == [] {
      assert a + b == b;
    } else {
      assert (a + b)[1..] == a[1..] + b;
      FlattenAppend(a[1..], b);
    }
  }

  lemma {:induction false} FlattenLength(items: seq<Ie>)
    requires AllRegular(items)
    ensures |Flatten(items)| == TotalLength(items)
  {
    if items != [] {
      RegularLength(items[0]);
      assert Sizes(items)[1..] == Sizes(items[1..]);
      FlattenLength(items[1..]);
    }
  }

  function EvcItems(evcs: seq<Evc>): (r: seq<Ie>)
    ensures |r| == |evcs| && forall i | 0 <= i < |evcs| :: r[i] == EvcItem(evcs[i])
  {
    seq(|evcs|, i requires 0 <= i < |evcs| => EvcItem(evcs[i]))
  }

  function MapItems(maps: seq<CvlanMap>): (r: seq<Ie>)
    ensures |r| == |maps| && forall i | 0 <= i < |maps| :: r[i] == MapItem(maps[i])
  {
    seq(|maps|, i requires 0 <= i < |maps| => MapItem(maps[i]))
  }

  /** Everything a complete Full Status exchange has to deliver, in order. */
  function Items(db: Database): seq<Ie> {
    EvcItems(db.evcs) + MapItems(db.maps)
  }

  function Header(msg: u8, report: u8, sent: u8, rcvd: u8, di: u32): (b: bytes)
    ensures |b| == HEADER_LEN
  {
    [PROTO_VERSION, msg, REPORT_TYPE_IE, 1, report, SEQUENCE_NUM_IE, 2, sent, rcvd,
     DATA_INSTANCE_IE, DATA_INSTANCE_LEN, 0] + L(di)
  }

  /** Frames shorter than 46 octets are filled up with zeros. */
  function Pad(frame: bytes): (b: bytes)
    ensures |b| == if |frame| < MIN_PACKET then MIN_PACKET else |frame|
    ensures frame <= b
  {
    if |frame| < MIN_PACKET then frame + Zeros(MIN_PACKET - |frame|) else frame
  }

  // ---- sending ----

  /** Link state and whether the socket accepts the frame. */
  datatype Channel = Channel(linkUp: bool, sendOk: bool)

  /** Sequence numbers run from 1 to 255. */
  function NextSeq(s: u8): u8 {
    if s >= 255 then 1 else s + 1
  }

  /** The status enquiry UNI-C sends. */
  function Enquiry(report: u8, sent: u8, rcvd: u8, di: u32): (b: bytes)
    ensures |b| == MIN_PACKET
  {
    Pad(Header(MSG_STATUS_ENQUIRY, report, sent, rcvd, di))
  }
}
