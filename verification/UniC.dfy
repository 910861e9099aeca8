/** The customer side as the port object elmi_uni_c.c and elmi_timer.c work on. */
module UniC {
  import opened Octets
  import opened Tlv
  import opened Bandwidth
  import opened VlanBitmap
  import opened Wire
  import opened Hysteresis
  import opened UniCSpec

  // ---- decoders that only read ----

  /** An element type, one repetition of the element before it being skipped. */
  method DecodeExpected(r: Reader, want: u8, again: u8) returns (ok: bool)
    modifies r
    ensures match Expect(r.data, old(r.pos), want, again)
            case None => !ok
            case Some(q) => ok && r.pos == q
  {
    var v := r.GetC();
    if v != want {
      if v != again {
        return false;
      }
      var len := r.GetC();
      r.Skip(len);
      v := r.GetC();
      if v != want {
        return false;
      }
    }
    return true;
  }

  /** elmi_decode_seq_and_data_instance */
  method DecodeSeqAndDataInstance(r: Reader, sentSeqNum: u8) returns (m: Option<SeqDi>)
    modifies r
    ensures m == ParseSeqDi(r.data, old(r.pos), sentSeqNum)
    ensures m.Some? ==> r.pos == m.value.pos
  {
    if r.Size() < 2 {
      return None;
    }
    var ok := DecodeExpected(r, SEQUENCE_NUM_IE, REPORT_TYPE_IE);
    if !ok {
      return None;
    }
    var len := r.GetC();
    var seqNum := r.GetC();
    var rcvd := r.GetC();
    if len == 0 || seqNum == 0 || rcvd == 0 || rcvd != sentSeqNum {
      return None;
    }
    ok := DecodeExpected(r, DATA_INSTANCE_IE, SEQUENCE_NUM_IE);
    if !ok {
      return None;
    }
    len := r.GetC();
    r.Skip(1);
    var di := r.GetL();
    if len != DATA_INSTANCE_LEN || di % 256 == 0 {
      return None;
    }
    return Some(SeqDi(di % 256, seqNum, r.pos));
  }

  /** The fields of a profile from its flag octet on, and the four values computed from them. */
  method DecodeProfile(r: Reader) returns (bw: LearntBw)
    modifies r
    ensures bw == BwAt(r.data, old(r.pos)) && r.pos == old(r.pos) + 12
  {
    var flags := r.GetC();
    var cirMag := r.GetC();
    var cirMul := r.GetW();
    var cbsMag := r.GetC();
    var cbsMul := r.GetC();
    var eirMag := r.GetC();
    var eirMul := r.GetW();
    var ebsMag := r.GetC();
    var ebsMul := r.GetC();
    r.Skip(1);
    var cir := NumberFromExponent(cirMul, cirMag);
    var cbs := NumberFromExponent(cbsMul, cbsMag);
    var eir := NumberFromExponent(eirMul, eirMag);
    var ebs := NumberFromExponent(ebsMul, ebsMag);
    return LearntBw(BwProfile(flags / 2 % 2 == 1, flags / 4 % 2 == 1, 0, cirMag, cirMul, cbsMag, cbsMul, eirMag, eirMul,
                              ebsMag, ebsMul), cir, cbs, eir, ebs);
  }

  /** elmi_decode_uni_bw_profile */
  method DecodeUniBwProfile(r: Reader) returns (bw: Option<LearntBw>)
    modifies r
    ensures match ParseUniBw(r.data, old(r.pos))
            case None => bw == None
            case Some((b, q)) => bw == Some(b) && r.pos == q
  {
    if r.Size() < 2 {
      return None;
    }
    var ok := DecodeExpected(r, BW_PROFILE_IE, UNI_ID_IE);
    if !ok {
      return None;
    }
    var len := r.GetC();
    if S8(len) < BW_PROFILE_LEN {
      return None;
    }
    var flags := r.GetC();
    if flags % 2 == 1 {
      return None;
    }
    r.Rewind(1);
    var b := DecodeProfile(r);
    return Some(b);
  }

  /** The loop over per-class profiles, from behind the first flag octet. */
  method DecodeCosProfiles(r: Reader) returns (ok: bool)
    modifies r
    ensures match SkipCos(r.data, old(r.pos))
            case None => !ok
            case Some(q) => ok && r.pos == q
  {
    while r.Size() != 0
      invariant SkipCos(r.data, r.pos) == SkipCos(r.data, old(r.pos))
      decreases |r.data| - r.pos
    {
      r.Skip(11);
      var v := r.GetC();
      if v != BW_PROFILE_IE {
        r.Rewind(1);
        return true;
      }
      var len := r.GetC();
      if len < BW_PROFILE_LEN {
        return false;
      }
      r.Skip(1);
    }
    return true;
  }

  /** elmi_decode_evc_bw_profile */
  method DecodeEvcBwProfile(r: Reader, evc: LearntEvc) returns (e: Option<LearntEvc>)
    modifies r
    ensures match ParseEvcBw(r.data, old(r.pos), evc)
            case None => e == None
            case Some((x, q)) => e == Some(x) && r.pos == q
  {
    if r.Size() < 2 {
      return None;
    }
    var ok := DecodeExpected(r, BW_PROFILE_IE, EVC_ID_IE);
    if !ok {
      return None;
    }
    var len := r.GetC();
    if len < BW_PROFILE_LEN {
      return None;
    }
    var flags := r.GetC();
    if flags % 2 == 0 {
      r.Rewind(1);
      var bw := DecodeProfile(r);
      return Some(evc.(level := LEVEL_PER_EVC, bw := Some(bw)));
    }
    var any := r.Size() != 0;
    ok := DecodeCosProfiles(r);
    if !ok {
      return None;
    }
    return Some(if any then evc.(level := LEVEL_PER_COS) else evc);
  }

  /** The EVC Status element behind its status octet. */
  method DecodeEvcBody(r: Reader, evc: LearntEvc, ghost p: nat) returns (e: Option<LearntEvc>)
    requires r.pos == p + 4
    modifies r
    ensures match ParseEvcBody(r.data, p, evc)
            case None => e == None
            case Some((x, q)) => e == Some(x) && r.pos == q
  {
    var v := r.GetC();
    var len := r.GetC();
    var evcType := r.GetC();
    if v != EVC_PARAMS_IE || len == 0 || evcType > 1 || (evcType == 0 && evc.status in {4, 5}) {
      return None;
    }
    var ok := DecodeExpected(r, EVC_ID_IE, EVC_PARAMS_IE);
    if !ok {
      return None;
    }
    e := DecodeEvcName(r, evc.(evcType := evcType));
  }

  method DecodeEvcName(r: Reader, evc: LearntEvc) returns (e: Option<LearntEvc>)
    modifies r
    ensures match ParseEvcName(r.data, old(r.pos), evc)
            case None => e == None
            case Some((x, q)) => e == Some(x) && r.pos == q
  {
    var id := DecodeName(r, evc.idBuf);
    e := DecodeEvcBwProfile(r, evc.(idBuf := id));
  }

  /** The identifier is copied over what the field held. */
  method DecodeName(r: Reader, held: bytes) returns (id: bytes)
    modifies r
    ensures var n := At(r.data, old(r.pos));
            id == Overlaid(Chunk(r.data, old(r.pos) + 1, n), held) && r.pos == old(r.pos) + 1 + n
  {
    var len := r.GetC();
    id := r.Get(len);
    if |held| > |id| {
      id := id + held[|id|..];
    }
  }

  /** VLAN ids into the map's bitmap; ids beyond it are ignored. */
  method DecodeVids(r: Reader, n: nat, vids: set<vid>) returns (more: set<vid>)
    modifies r
    ensures more == vids + VidsAt(r.data, old(r.pos), n) && r.pos == old(r.pos) + 2 * n
  {
    more := vids;
    for i := 0 to n
      invariant more == vids + VidsAt(r.data, old(r.pos), i) && r.pos == old(r.pos) + 2 * i
    {
      var v := r.GetW();
      if v < VID_MAX {
        more := more + {v};
      }
    }
  }

  // ---- one element of each list ----

  /** listnode_add_sort on the node list. */
  method AddSort(nodes: seq<u16>, id: u16) returns (r: seq<u16>)
    ensures r == Insert(nodes, id)
  {
    var k := 0;
    while k < |nodes| && nodes[k] <= id
      invariant k <= |nodes| && forall j | 0 <= j < k :: nodes[j] <= id
    {
      k := k + 1;
    }
    InsertIs(nodes, id, k);
    r := nodes[..k] + [id] + nodes[k..];
  }

  lemma {:induction false} InsertIs(nodes: seq<u16>, id: u16, k: nat)
    requires k <= |nodes| && (forall j | 0 <= j < k :: nodes[j] <= id) && (k < |nodes| ==> id < nodes[k])
    ensures Insert(nodes, id) == nodes[..k] + [id] + nodes[k..]
  {
    if k > 0 {
      InsertIs(nodes[1..], id, k - 1);
      assert nodes[..k] == [nodes[0]] + nodes[1..][..k - 1];
    }
  }

  lemma {:induction false} DeleteIs(nodes: seq<u16>, id: u16, k: nat)
    requires k <= |nodes| && (forall j | 0 <= j < k :: nodes[j] != id) && (k < |nodes| ==> id == nodes[k])
    ensures Delete(nodes, id) == if k < |nodes| then nodes[..k] + nodes[k + 1..] else nodes
  {
    if k > 0 {
      DeleteIs(nodes[1..], id, k - 1);
      assert nodes[..k] == [nodes[0]] + nodes[1..][..k - 1];
    }
  }

  /** listnode_delete: the first node with that record. */
  method DeleteNode(nodes: seq<u16>, id: u16) returns (r: seq<u16>)
    ensures r == Delete(nodes, id)
  {
    var k := 0;
    while k < |nodes| && nodes[k] != id
      invariant k <= |nodes| && forall j | 0 <= j < k :: nodes[j] != id
    {
      k := k + 1;
    }
    DeleteIs(nodes, id, k);
    r := if k < |nodes| then nodes[..k] + nodes[k + 1..] else nodes;
  }

  /** The record and list work for one EVC Status element whose length octet is at p. */
  method DecodeOneEvc(r: Reader, refId: u16, status: u8, evcs: Records<LearntEvc>, ghost p: nat) returns (one: OneEvc)
    requires r.pos == p + 4 && refId == WordAt(r.data, p + 1) && status == At(r.data, p + 3)
    modifies r
    ensures one == ParseEvc(r.data, p, refId, evcs) && (one.Accepted? ==> r.pos == one.pos)
  {
    var evcs1 := evcs;
    if status % 2 == 1 && refId in evcs.recs {
      var nodes := DeleteNode(evcs.nodes, refId);
      evcs1 := Records(nodes, evcs.recs - {refId});
    }
    var start := if refId in evcs1.recs then evcs1.recs[refId] else NEW_EVC;
    var e := DecodeEvcBody(r, start.(status := status, active := true), p);
    if e.None? {
      return UniCSpec.Refused(evcs1.(recs := evcs1.recs - {refId}));
    }
    var nodes := AddSort(evcs1.nodes, refId);
    return Accepted(Records(nodes, evcs1.recs[refId := e.value]), r.pos);
  }

  /** One CE-VLAN map element whose length octet is at r.pos. */
  method DecodeOneMap(r: Reader, scan: MapScan, evcIds: set<u16>, mapType: u8, maps: Records<LearntMap>)
      returns (result: Option<(Records<LearntMap>, MapScan)>)
    modifies r
    ensures match ParseMap(r.data, old(r.pos), scan, evcIds, mapType, maps)
            case None => result == None
            case Some((maps2, scan2, q)) => result == Some((maps2, scan2)) && r.pos == q
  {
    var len := r.GetC();
    var refId := r.GetW();
    var bits := r.GetC();
    var flags := r.GetC();
    r.Skip(1);
    var vidLen := r.GetC();
    var pre := if scan.prev != 0 && scan.prev == refId && refId in maps.recs then Some(refId) else scan.pre;
    var untagged, defaultEvc := flags / 2 % 2 == 1, flags % 2 == 1;
    if len == 0 || (scan.prev != 0 && refId < scan.prev) || refId !in evcIds
       || !PreAllows(pre, scan.prev, refId, bits % 64, maps)
       || (defaultEvc && ((scan.defaultSeen && scan.prev != refId) || mapType != BUNDLING))
       || (untagged && mapType == ALL_TO_ONE_BUNDLING) || vidLen == 0 {
      return None;
    }
    var start := if refId in maps.recs then maps.recs[refId] else NEW_MAP;
    var vids := DecodeVids(r, vidLen / 2, start.vids);
    if pre.Some? && scan.prev != refId && pre.value in maps.recs && maps.recs[pre.value].vids * vids != {} {
      return None;
    }
    var nodes := AddSort(maps.nodes, refId);
    var learnt := LearntMap(bits / 64 % 2 == 1, bits % 64, untagged, defaultEvc, vids);
    return Some((Records(nodes, maps.recs[refId := learnt]),
                 MapScan(refId, scan.defaultSeen || defaultEvc, pre)));
  }

  class Port {
    const cfg: Config
    var uni: LearntUni
    var evcs: Records<LearntEvc>
    var maps: Records<LearntMap>
    var dataInstance: u32
    var lastEvcId: u16
    var sentSeqNum: u8
    var recvdSendSeqNum: u8
    var rcvdResponse: bool
    var requestSent: bool
    var lastRequestType: u8
    var currentPollingCounter: u16
    var operational: bool
    var currentStatusCounter: int
    var rcntSuccess: u8

    function HealthNow(): Health
      reads this
    {
      Health(operational, currentStatusCounter, rcntSuccess)
    }

    /** The port as a value. */
    function Abs(): State
      reads this
    {
      State(Learnt(uni, evcs, maps), dataInstance, lastEvcId, sentSeqNum, recvdSendSeqNum, rcvdResponse, requestSent,
            lastRequestType, currentPollingCounter, HealthNow())
    }

    // ---- decoders that learn ----

    /** elmi_decode_uni_status; on an error the caller clears what was learnt. */
    method DecodeUniStatus(r: Reader) returns (ok: bool)
      modifies r, this`uni
      ensures match ParseUni(r.data, old(r.pos), lastRequestType, old(uni))
              case None => !ok
              case Some((u, q)) => ok && uni == u && r.pos == q
    {
      if r.Size() < 2 {
        return false;
      }
      var v := r.GetC();
      var skipped: u8 := 0;
      if v != UNI_STATUS_IE {
        if lastRequestType == REPORT_FULL_STATUS_CONTD {
          r.Rewind(1);
          return true;
        }
        if v != DATA_INSTANCE_IE {
          return false;
        }
        skipped := r.GetC();
        if skipped >= 128 {
          return false;
        }
        r.Skip(skipped);
        v := r.GetC();
        if v != UNI_STATUS_IE {
          return false;
        }
      }
      ok := DecodeUniBody(r, skipped);
    }

    method DecodeUniBody(r: Reader, skipped: u8) returns (ok: bool)
      modifies r, this`uni
      ensures match ParseUniBody(r.data, old(r.pos), skipped, old(uni))
              case None => !ok
              case Some((u, q)) => ok && uni == u && r.pos == q
    {
      hide ParseUniBw, S8;
      var len := r.GetC();
      if len == 0 {
        return false;
      }
      var mapType := r.GetC();
      if mapType < ALL_TO_ONE_BUNDLING || mapType > BUNDLING {
        return false;
      }
      var left := S8(S8(len) - 1);
      var id, idLen: nat := uni.idBuf, skipped;
      if left > 0 && r.Size() != 0 {
        var v := r.GetC();
        if v != UNI_ID_IE {
          return false;
        }
        idLen := r.GetC();
        if idLen >= 128 {
          return false;
        }
        id := r.Get(idLen);
      }
      if S8(left - (idLen + 2)) <= 0 {
        return false;
      }
      var bw := DecodeUniBwProfile(r);
      if bw.None? {
        return false;
      }
      uni := LearntUni(mapType, id, bw);
      return true;
    }

    /** One turn of the loop over EVC Status elements; prev is the id decoded before. */
    method DecodeEvcTurn(r: Reader, prev: u16) returns (turn: Turn)
      modifies r, this`evcs, this`lastEvcId
      ensures turn == EvcTurn(r.data, old(r.pos), prev, lastRequestType, old(lastEvcId), old(evcs))
      ensures evcs == turn.evcs && (!turn.Ends? ==> lastEvcId == turn.lastEvcId) && (!turn.Fails? ==> r.pos == turn.pos)
    {
      ghost var p := r.pos;
      var len := r.GetC();
      var refId := r.GetW();
      if len == 0 || refId < 1 || prev > refId {
        return Fails(evcs, lastEvcId);
      }
      if lastRequestType == REPORT_FULL_STATUS_CONTD {
        if lastEvcId != 0 && lastEvcId > refId {
          return Fails(evcs, lastEvcId);
        }
        lastEvcId := 0;
      }
      turn := DecodeEvcRest(r, refId, p);
    }

    method DecodeEvcRest(r: Reader, refId: u16, ghost p: nat) returns (turn: Turn)
      requires r.pos == p + 3 && refId == WordAt(r.data, p + 1)
      modifies r, this`evcs
      ensures turn == EvcRest(r.data, p, refId, lastEvcId, old(evcs))
      ensures evcs == turn.evcs && (!turn.Ends? ==> lastEvcId == turn.lastEvcId) && (!turn.Fails? ==> r.pos == turn.pos)
    {
      var status := r.GetC();
      if status > 5 {
        return Fails(evcs, lastEvcId);
      }
      var one := DecodeOneEvc(r, refId, status, evcs, p);
      evcs := one.evcs;
      if one.Refused? {
        return Fails(evcs, lastEvcId);
      }
      var v := r.GetC();
      if v != EVC_STATUS_IE {
        r.Rewind(1);
        return Ends(evcs, refId, r.pos);
      }
      return Continues(evcs, refId, lastEvcId, r.pos);
    }

    /** The loop of elmi_decode_evc_status, from behind the first element type. */
    method DecodeEvcLoop(r: Reader) returns (ok: bool, last: u16)
      modifies r, this`evcs, this`lastEvcId
      ensures EvcLoop(r.data, old(r.pos), 0, 0, lastRequestType, old(lastEvcId), old(evcs))
           == if ok then Good(evcs, last, r.pos) else Bad(evcs, lastEvcId)
    {
      last := 0;
      while r.Size() != 0
        invariant EvcLoop(r.data, old(r.pos), 0, 0, lastRequestType, old(lastEvcId), old(evcs))
               == EvcLoop(r.data, r.pos, last, last, lastRequestType, lastEvcId, evcs)
        decreases |r.data| - r.pos
      {
        var turn := DecodeEvcTurn(r, last);
        if turn.Fails? {
          return false, last;
        }
        last := turn.refId;
        if turn.Ends? {
          return true, last;
        }
      }
      return true, last;
    }

    /** elmi_decode_evc_status: its results are negative, ELMI_OK and zero. */
    method DecodeEvcSection(r: Reader, report: u8) returns (found: Found)
      modifies r, this`evcs, this`lastEvcId
      ensures match EvcLoop(r.data, old(r.pos), 0, 0, lastRequestType, old(lastEvcId), old(evcs))
              case Good(e, last, q) =>
                found == Present && evcs == e && r.pos == q
                && lastEvcId == (if report == REPORT_FULL_STATUS_CONTD then last else 0)
              case Bad(e, last) => found == Invalid && evcs == e && lastEvcId == last
              case Absent(_, _) => found == Missing
    {
      var ok, last := DecodeEvcLoop(r);
      if !ok {
        return Invalid;
      }
      lastEvcId := if report == REPORT_FULL_STATUS_CONTD then last else 0;
      return Present;
    }

    method DecodeEvcStatus(r: Reader, report: u8) returns (found: Found)
      modifies r, this`evcs, this`lastEvcId
      ensures match ParseEvcs(r.data, old(r.pos), lastRequestType, report, old(lastEvcId), old(evcs))
              case Bad(e, last) => found == Invalid && evcs == e && lastEvcId == last
              case Absent(last, q) => found == Missing && evcs == old(evcs) && lastEvcId == last && r.pos == q
              case Good(e, last, q) => found == Present && evcs == e && lastEvcId == last && r.pos == q
    {
      if r.Size() < 2 {
        return Invalid;
      }
      var v := r.GetC();
      if v == EVC_STATUS_IE {
        found := DecodeEvcSection(r, report);
        return;
      }
      if v == UNI_STATUS_IE {
        lastEvcId := 0;
        return Present;
      }
      if v == CEVLAN_EVC_MAP_IE {
        if lastRequestType == REPORT_FULL_STATUS {
          return Invalid;
        }
        r.Rewind(1);
        return Present;
      }
      return Missing;
    }

    /** elmi_unic_decode_cevlan_evc_map; on an error the caller clears what was learnt. */
    method DecodeMaps(r: Reader) returns (ok: bool)
      modifies r, this`maps
      ensures match ParseMaps(r.data, old(r.pos), evcs.recs.Keys, uni.mapType, old(maps))
              case None => !ok && maps == old(maps)
              case Some((m, q)) => ok && maps == m && r.pos == q
    {
      var v := r.GetC();
      if v != CEVLAN_EVC_MAP_IE {
        return false;
      }
      var result := DecodeMapLoop(r, evcs.recs.Keys, uni.mapType, maps);
      if result.None? {
        return false;
      }
      maps := result.value;
      return true;
    }

    // ---- transmission ----

    /** elmi_uni_c_tx */
    method Tx(report: u8, ch: Channel) returns (built: seq<bytes>, sent: bool)
      modifies this`rcvdResponse, this`sentSeqNum, this`evcs, this`lastRequestType, this`requestSent
      ensures (Abs(), built, sent) == Transmit(old(Abs()), report, ch)
    {
      hide Enquiry;
      if !ch.linkUp {
        return [], false;
      }
      rcvdResponse := false;
      if sentSeqNum >= 255 {
        sentSeqNum := 0;
      }
      sentSeqNum := sentSeqNum + 1;
      var frame := BuildEnquiry(report, sentSeqNum, recvdSendSeqNum, dataInstance);
      if !ch.sendOk {
        return [frame], false;
      }
      if report == REPORT_FULL_STATUS {
        evcs := Deactivated(evcs);
      }
      lastRequestType, requestSent := report, true;
      return [frame], true;
    }

    // ---- parsers ----

    /** elmi_unic_clear_learnt_database */
    method ClearLearnt()
      modifies this`uni, this`evcs, this`maps
      ensures Learnt(uni, evcs, maps) == CLEARED
    {
      uni, evcs, maps := LearntUni(0, [], None), Records([], map[]), Records([], map[]);
    }

    /** elmi_unic_parse_status_pdu */
    method ParseStatusPdu(r: Reader, ch: Channel) returns (ok: bool, built: seq<bytes>, sent: bool)
      modifies r, this
      ensures Parsed(Abs(), ok, built, sent) == ParseStatus(r.data, old(r.pos), old(Abs()), ch)
    {
      built, sent := [], false;
      var m := DecodeSeqAndDataInstance(r, sentSeqNum);
      if m.None? {
        return false, [], false;
      }
      recvdSendSeqNum, rcvdResponse := m.value.seqNum, true;
      if dataInstance != m.value.di {
        built, sent := Tx(REPORT_FULL_STATUS, ch);
      }
      return true, built, sent;
    }

    /** The last part of elmi_unic_parse_full_status_pdu. */
    method RemoveInactive(m: SeqDi) returns (ok: bool)
      modifies this
      ensures Parsed(Abs(), ok, [], false) == Sweep(old(Abs()), m, Learnt(old(uni), old(evcs), old(maps)))
    {
      var kept, missing := SweepNodes(evcs, maps);
      if missing {
        ClearLearnt();
        return false;
      }
      evcs := Records(kept, map id | id in evcs.recs && IsActive(evcs, id) :: evcs.recs[id]);
      rcvdResponse, recvdSendSeqNum, dataInstance := true, m.seqNum, m.di;
      return true;
    }

    /** elmi_unic_parse_full_status_pdu */
    method ParseFullStatusPdu(r: Reader) returns (ok: bool)
      modifies r, this
      ensures Parsed(Abs(), ok, [], false) == ParseFull(r.data, old(r.pos), old(Abs()))
    {
      hide ParseUni, ParseSeqDi, ParseEvcs, ParseMaps, IsActive, Filter;
      var m := DecodeSeqAndDataInstance(r, sentSeqNum);
      if m.None? {
        return false;
      }
      ok := DecodeUniStatus(r);
      if !ok {
        ClearLearnt();
        return false;
      }
      ok := ParseFullBody(r, m.value);
    }

    method ParseFullBody(r: Reader, m: SeqDi) returns (ok: bool)
      modifies r, this
      ensures Parsed(Abs(), ok, [], false) == FullBody(r.data, old(r.pos), old(Abs()), m, old(uni))
    {
      var found := DecodeEvcStatus(r, REPORT_FULL_STATUS);
      if found == Invalid {
        ClearLearnt();
        return false;
      }
      if found == Present {
        if r.Size() <= 0 {
          ClearLearnt();
          return false;
        }
        ok := DecodeMaps(r);
        if !ok {
          ClearLearnt();
          return false;
        }
      }
      ok := RemoveInactive(m);
    }

    /** elmi_unic_parse_full_status_contd_pdu */
    method ParseFullStatusContdPdu(r: Reader, ch: Channel) returns (ok: bool, built: seq<bytes>, sent: bool)
      modifies r, this
      ensures Parsed(Abs(), ok, built, sent) == ParseContd(r.data, old(r.pos), old(Abs()), ch)
    {
      hide ParseUni, ParseSeqDi, ParseEvcs, ParseMaps, UniCSpec.Transmit;
      built, sent := [], false;
      var m := DecodeSeqAndDataInstance(r, sentSeqNum);
      if m.None? {
        return false, [], false;
      }
      if lastRequestType != REPORT_FULL_STATUS_CONTD {
        ok := DecodeUniStatus(r);
        if !ok {
          ClearLearnt();
          return false, [], false;
        }
      }
      var found := DecodeEvcStatus(r, REPORT_FULL_STATUS_CONTD);
      if found == Invalid {
        return false, [], false;
      }
      ok, built, sent := ParseContdMaps(r, m.value, ch);
    }

    method ParseContdMaps(r: Reader, m: SeqDi, ch: Channel) returns (ok: bool, built: seq<bytes>, sent: bool)
      modifies r, this
      ensures Parsed(Abs(), ok, built, sent) == ContdMaps(r.data, old(r.pos), old(Abs()), m, old(uni), old(evcs), ch)
    {
      hide ParseMaps, UniCSpec.Transmit;
      if r.Size() != 0 {
        ok := DecodeMaps(r);
        if !ok {
          ClearLearnt();
          return false, [], false;
        }
      }
      recvdSendSeqNum, lastRequestType := m.seqNum, REPORT_FULL_STATUS_CONTD;
      built, sent := Tx(REPORT_FULL_STATUS_CONTD, ch);
      return true, built, sent;
    }

    /** elmi_unic_parse_async_evc_pdu */
    method ParseAsyncEvcPdu(r: Reader) returns (ok: bool)
      modifies r, this`evcs
      ensures Parsed(Abs(), ok, [], false) == ParseAsync(r.data, old(r.pos), old(Abs()))
    {
      var v := r.GetC();
      var len := r.GetC();
      var refId := r.GetW();
      var status := r.GetC();
      if v != EVC_STATUS_IE || len == 0 || refId !in evcs.recs {
        return false;
      }
      evcs := evcs.(recs := evcs.recs[refId := evcs.recs[refId].(status := status)]);
      return true;
    }

    method DispatchPdu(r: Reader, report: u8, ch: Channel) returns (ok: bool, built: seq<bytes>, sent: bool)
      modifies r, this
      ensures Parsed(Abs(), ok, built, sent) == Dispatch(r.data, report, old(r.pos), old(Abs()), ch)
    {
      ok, built, sent := true, [], false;
      if report == REPORT_FULL_STATUS {
        ok := ParseFullStatusPdu(r);
      } else if report == REPORT_ECHECK {
        ok, built, sent := ParseStatusPdu(r, ch);
      } else if report == REPORT_SINGLE_EVC {
        ok := ParseAsyncEvcPdu(r);
      } else if report == REPORT_FULL_STATUS_CONTD {
        ok, built, sent := ParseFullStatusContdPdu(r, ch);
      }
    }

    /** An accepted message. */
    method CountAccept() returns (notes: seq<bool>)
      modifies this`rcntSuccess, this`currentStatusCounter, this`operational
      ensures (HealthNow(), notes) == OnAccept(old(HealthNow()), cfg.n393)
    {
      notes := [];
      rcntSuccess := (rcntSuccess + 1) % 256;
      currentStatusCounter := 0;
      if rcntSuccess == cfg.n393 {
        if !operational {
          operational := true;
          notes := [true];
        }
      }
    }

    /** elmi_unic_handle_frame */
    method HandleFrame(frame: bytes, ch: Channel) returns (out: Output)
      modifies this
      ensures (Abs(), out) == UniCSpec.Handle(cfg, old(Abs()), frame, ch)
    {
      var r := new Reader(frame);
      var report := ValidateRcvdPdu(r, requestSent, lastRequestType);
      if report.None? {
        return SILENT;
      }
      var solicited := report.value != REPORT_SINGLE_EVC;
      if solicited {
        requestSent := false;
      }
      var ok, built, sent := DispatchPdu(r, report.value, ch);
      if !ok {
        return Output(built, sent, [], [], solicited, None);
      }
      var notes := CountAccept();
      return Output(built, sent, notes, [Accept], solicited, report);
    }

    // ---- the polling timer ----

    /** An expiry without an answer. */
    method CountMiss() returns (notes: seq<bool>)
      modifies this`rcntSuccess, this`currentStatusCounter, this`operational
      ensures (HealthNow(), notes) == OnMiss(UniC, old(HealthNow()), cfg.n393)
    {
      notes := [];
      currentStatusCounter := S8(currentStatusCounter + 1);
      rcntSuccess := 0;
      if currentStatusCounter >= cfg.n393 {
        currentStatusCounter := 0;
        if operational {
          operational := false;
          notes := [false];
        }
      }
    }

    /** elmi_polling_timer_handler */
    method PollingTimer(ch: Channel) returns (out: Output)
      modifies this
      ensures (Abs(), out) == PollExpiry(cfg, old(Abs()), ch)
    {
      hide UniCSpec.Transmit, OnMiss;
      if currentPollingCounter != 0 {
        currentPollingCounter := currentPollingCounter - 1;
      }
      var notes, missed := [], !rcvdResponse;
      if missed {
        notes := CountMiss();
      }
      var report := REPORT_ECHECK;
      if (missed && lastRequestType in {REPORT_FULL_STATUS, REPORT_FULL_STATUS_CONTD}) || currentPollingCounter == 0 {
        if currentPollingCounter == 0 {
          currentPollingCounter := cfg.n391;
        }
        report := REPORT_FULL_STATUS;
      }
      var built, sent := Tx(report, ch);
      return Output(built, sent, notes, if missed then [Miss] else [], false, None);
    }

    /** The rest of elmi_api_enable_port on a port just made: NSM is told UP and a FULL_STATUS enquiry goes out. */
    method Enable(ch: Channel) returns (out: Output)
      requires Abs() == State(Abs().learnt, 0, 0, 0, 0, false, false, REPORT_INVALID, cfg.n391, INITIAL)
      modifies this
      ensures (Abs(), out) == UniCSpec.Enable(cfg, old(Abs()).learnt, ch)
    {
      hide UniCSpec.Transmit;
      var built, sent := Tx(REPORT_FULL_STATUS, ch);
      return Output(built, sent, [true], [], false, None);
    }

    /** elmi_api_enable_port on a UNI-C port, up to the enquiry it sends. */
    constructor (config: Config, learnt: Learnt)
      ensures cfg == config
      ensures Abs() == State(learnt, 0, 0, 0, 0, false, false, REPORT_INVALID, config.n391, INITIAL)
    {
      cfg := config;
      uni, evcs, maps := learnt.uni, learnt.evcs, learnt.maps;
      dataInstance, lastEvcId := 0, 0;
      sentSeqNum, recvdSendSeqNum, rcvdResponse, requestSent := 0, 0, false, false;
      lastRequestType, currentPollingCounter := REPORT_INVALID, config.n391;
      operational, currentStatusCounter, rcntSuccess := true, 0, 0;
    }
  }

  /** The enquiry elmi_uni_c_tx puts together. */
  method BuildEnquiry(report: u8, sent: u8, rcvd: u8, di: u32) returns (frame: bytes)
    ensures frame == Enquiry(report, sent, rcvd, di)
  {
    var w := new Writer(MAX_PACKET);
    w.PutRow([PROTO_VERSION, MSG_STATUS_ENQUIRY, REPORT_TYPE_IE, 1, report, SEQUENCE_NUM_IE, 2, sent, rcvd,
              DATA_INSTANCE_IE, DATA_INSTANCE_LEN, 0]);
    w.PutL(di);
    w.PutEmpty(MIN_PACKET - w.pos);
    frame := w.buf[..w.pos];
  }

  /** The loop over the node list at the end of an exchange: nodes of active EVCs are kept, and each must have a map. */
  lemma FilterStep(nodes: seq<u16>, i: nat, evcs: Records<LearntEvc>)
    requires i < |nodes|
    ensures Filter(nodes[i..], evcs)
         == (if IsActive(evcs, nodes[i]) then [nodes[i]] else []) + Filter(nodes[i + 1..], evcs)
  {
    assert nodes[i..][1..] == nodes[i + 1..];
  }

  lemma FilterEnds(nodes: seq<u16>, evcs: Records<LearntEvc>)
    ensures nodes[0..] == nodes && Filter(nodes[|nodes|..], evcs) == []
  {
  }

  method SweepNodes(evcs: Records<LearntEvc>, maps: Records<LearntMap>) returns (kept: seq<u16>, missing: bool)
    ensures missing <==> exists id :: id in evcs.nodes && IsActive(evcs, id) && id !in maps.recs
    ensures !missing ==> kept == Filter(evcs.nodes, evcs)
  {
    hide Filter, IsActive;
    kept := [];
    var i := 0;
    FilterEnds(evcs.nodes, evcs);
    while i < |evcs.nodes|
      invariant i <= |evcs.nodes|
      invariant forall k | 0 <= k < i :: IsActive(evcs, evcs.nodes[k]) ==> evcs.nodes[k] in maps.recs
      invariant kept + Filter(evcs.nodes[i..], evcs) == Filter(evcs.nodes, evcs)
    {
      var id := evcs.nodes[i];
      FilterStep(evcs.nodes, i, evcs);
      if IsActive(evcs, id) {
        if id !in maps.recs {
          return kept, true;
        }
        kept := kept + [id];
      }
      i := i + 1;
    }
    return kept, false;
  }

  /** elmi_unic_validate_rcvd_pdu: the report type of an acceptable response. */
  method ValidateRcvdPdu(r: Reader, requestSent: bool, last: u8) returns (report: Option<u8>)
    requires r.pos == 0
    modifies r
    ensures match Validate(r.data, requestSent, last)
            case None => report == None
            case Some((v, p)) => report == Some(v) && r.pos == p
  {
    var v := r.GetC();
    if v != PROTO_VERSION {
      return None;
    }
    v := r.GetC();
    if v != MSG_STATUS {
      if v != PROTO_VERSION {
        return None;
      }
      v := r.GetC();
      if v != MSG_STATUS {
        return None;
      }
    }
    v := r.GetC();
    if v != REPORT_TYPE_IE {
      if v != MSG_STATUS {
        return None;
      }
      v := r.GetC();
      if v != REPORT_TYPE_IE {
        return None;
      }
    }
    v := r.GetC();
    if v != 1 {
      return None;
    }
    v := r.GetC();
    if !requestSent && v != REPORT_SINGLE_EVC {
      return None;
    }
    if v == REPORT_ECHECK && last in {REPORT_FULL_STATUS, REPORT_FULL_STATUS_CONTD, REPORT_INVALID} {
      return None;
    }
    if v in {REPORT_FULL_STATUS, REPORT_FULL_STATUS_CONTD} && last in {REPORT_ECHECK, REPORT_INVALID} {
      return None;
    }
    return Some(v);
  }

  datatype Found = Invalid | Missing | Present

  /** The loop over CE-VLAN map elements, from behind the first element type. */
  method DecodeMapLoop(r: Reader, evcIds: set<u16>, mapType: u8, maps: Records<LearntMap>)
      returns (result: Option<Records<LearntMap>>)
    modifies r
    ensures match MapLoop(r.data, old(r.pos), MapScan(0, false, None), evcIds, mapType, maps)
            case None => result == None
            case Some((m, q)) => result == Some(m) && r.pos == q
  {
    var scan, current := MapScan(0, false, None), maps;
    while true
      invariant MapLoop(r.data, old(r.pos), MapScan(0, false, None), evcIds, mapType, maps)
             == MapLoop(r.data, r.pos, scan, evcIds, mapType, current)
      decreases |r.data| - r.pos
    {
      var one := DecodeOneMap(r, scan, evcIds, mapType, current);
      if one.None? {
        return None;
      }
      current, scan := one.value.0, one.value.1;
      var v := r.GetC();
      if v != CEVLAN_EVC_MAP_IE {
        return Some(current);
      }
    }
  }
}
