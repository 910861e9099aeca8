/** The element encoders of elmi_uni_n.c, writing through the output cursor. */
module Encoders {
  import opened Octets
  import opened Tlv
  import opened VlanBitmap
  import opened Wire

  method EncodeBwValues(w: Writer, p: BwProfile)
    requires w.Valid() && w.Size() >= 10
    modifies w`pos, w.buf
    ensures w.Valid() && w.Contents() == old(w.Contents()) + BwValues(p)
  {
    ghost var c := w.Contents();
    w.PutC(p.cirMag);
    w.PutW(p.cirMul);
    w.PutRow([p.cbsMag, p.cbsMul, p.eirMag]);
    w.PutW(p.eirMul);
    w.PutRow([p.ebsMag, p.ebsMul]);
    Concat5(c, [p.cirMag], W(p.cirMul), [p.cbsMag, p.cbsMul, p.eirMag], W(p.eirMul), [p.ebsMag, p.ebsMul]);
  }

  method EncodeBwProfile(w: Writer, p: BwProfile)
    requires w.Valid() && w.Size() >= 14
    modifies w`pos, w.buf
    ensures w.Valid() && w.Contents() == old(w.Contents()) + BwIe(p)
  {
    ghost var c := w.Contents();
    w.PutRow([BW_PROFILE_IE, BW_PROFILE_LEN, 2 * Flag(p.cf) + 4 * Flag(p.cm)]);
    EncodeBwValues(w, p);
    w.PutC(0);
    Concat3(c, [BW_PROFILE_IE, BW_PROFILE_LEN, 2 * Flag(p.cf) + 4 * Flag(p.cm)], BwValues(p), [0]);
  }

  method EncodeUniBwProfile(w: Writer, db: Database)
    requires w.Valid() && w.Size() >= 14 && db.uni.Some?
    modifies w`pos, w.buf
    ensures w.Valid() && w.Contents() == old(w.Contents()) + UniBwIe(db)
  {
    if db.uni.value.bw.Some? && db.level == LEVEL_PER_UNI {
      EncodeBwProfile(w, db.uni.value.bw.value);
    } else {
      ghost var c := w.Contents();
      w.PutRow([BW_PROFILE_IE, BW_PROFILE_LEN, 0]);
      w.PutEmpty(BW_PROFILE_LEN - 1);
      Concat2(c, [BW_PROFILE_IE, BW_PROFILE_LEN, 0], Zeros(11));
    }
  }

  /** The two halves of a per-class profile. */
  function CosRates(p: BwProfile): (b: bytes)
    ensures |b| == 11
  {
    [BW_PROFILE_IE, BW_PROFILE_LEN, 1 + 2 * Flag(p.cf) + 4 * Flag(p.cm), p.cirMag] + L(p.cirMul)
    + [p.cbsMag, p.cbsMul, p.eirMag]
  }

  function CosBursts(p: BwProfile): (b: bytes)
    ensures |b| == 10
  {
    L(p.eirMul) + [p.ebsMag] + L(p.ebsMul) + [p.perCos]
  }

  method EncodeCosRates(w: Writer, p: BwProfile)
    requires w.Valid() && w.Size() >= 11
    modifies w`pos, w.buf
    ensures w.Valid() && w.Contents() == old(w.Contents()) + CosRates(p)
  {
    ghost var c := w.Contents();
    w.PutRow([BW_PROFILE_IE, BW_PROFILE_LEN, 1 + 2 * Flag(p.cf) + 4 * Flag(p.cm), p.cirMag]);
    w.PutL(p.cirMul);
    w.PutRow([p.cbsMag, p.cbsMul, p.eirMag]);
    Concat3(c, [BW_PROFILE_IE, BW_PROFILE_LEN, 1 + 2 * Flag(p.cf) + 4 * Flag(p.cm), p.cirMag], L(p.cirMul),
            [p.cbsMag, p.cbsMul, p.eirMag]);
  }

  method EncodeCosBursts(w: Writer, p: BwProfile)
    requires w.Valid() && w.Size() >= 10
    modifies w`pos, w.buf
    ensures w.Valid() && w.Contents() == old(w.Contents()) + CosBursts(p)
  {
    ghost var c := w.Contents();
    w.PutL(p.eirMul);
    w.PutC(p.ebsMag);
    w.PutL(p.ebsMul);
    w.PutC(p.perCos);
    Concat4(c, L(p.eirMul), [p.ebsMag], L(p.ebsMul), [p.perCos]);
  }

  lemma CosHalves(p: BwProfile)
    ensures CosRates(p) + CosBursts(p) == CosIe(p)
  {
  }

  method EncodeCosProfile(w: Writer, p: BwProfile)
    requires w.Valid() && w.Size() >= 21
    modifies w`pos, w.buf
    ensures w.Valid() && w.Contents() == old(w.Contents()) + CosIe(p)
  {
    ghost var c := w.Contents();
    EncodeCosRates(w, p);
    EncodeCosBursts(w, p);
    Concat2(c, CosRates(p), CosBursts(p));
    CosHalves(p);
  }

  method EncodeCosProfiles(w: Writer, cos: seq<Option<BwProfile>>)
    requires w.Valid() && w.Size() >= 21 * |cos|
    modifies w`pos, w.buf
    ensures w.Valid() && w.Contents() == old(w.Contents()) + CosIes(cos)
  {
    hide CosIe;
    assert cos[..0] == [];
    for i := 0 to |cos|
      invariant w.Valid() && w.Size() >= 21 * (|cos| - i)
      invariant w.Contents() == old(w.Contents()) + CosIes(cos[..i])
    {
      assert cos[..i + 1][..i] == cos[..i];
      if cos[i].Some? {
        EncodeCosProfile(w, cos[i].value);
      }
    }
    assert cos[..|cos|] == cos;
  }

  method EncodeEvcBwProfile(w: Writer, e: Evc)
    requires w.Valid() && w.Size() >= (if e.level == LEVEL_PER_COS then 21 * |e.cos| else 14)
    modifies w`pos, w.buf
    ensures w.Valid() && w.Contents() == old(w.Contents()) + EvcBwIes(e)
  {
    if e.level == LEVEL_PER_EVC && e.bw.Some? {
      EncodeBwProfile(w, e.bw.value);
    } else if e.level == LEVEL_PER_COS {
      EncodeCosProfiles(w, e.cos);
    } else {
      ghost var c := w.Contents();
      w.PutRow([BW_PROFILE_IE, BW_PROFILE_LEN]);
      w.PutEmpty(BW_PROFILE_LEN);
      Concat2(c, [BW_PROFILE_IE, BW_PROFILE_LEN], Zeros(12));
    }
  }

  /** An identifier with its length octet in front. */
  method EncodeName(w: Writer, id: bytes, max: nat)
    requires w.Valid() && w.Size() >= 1 + NameLen(id, max) && max < 256
    modifies w`pos, w.buf
    ensures w.Valid() && w.Contents() == old(w.Contents()) + [NameLen(id, max)] + NameOctets(id, max)
  {
    if |id| == 0 {
      w.PutC(1);
      w.PutC(0);
    } else if |id| > max {
      w.PutC(max);
      w.Put(id[..max]);
    } else {
      w.PutC(|id|);
      w.Put(id);
    }
  }

  method EncodeUniStatus(w: Writer, db: Database)
    requires w.Valid() && w.Size() >= UniLength(db)
    modifies w`pos, w.buf
    ensures w.Valid() && w.Contents() == old(w.Contents()) + (if db.uni.Some? then UniIe(db) else [])
  {
    if db.uni.None? {
      return;
    }
    var u := db.uni.value;
    var n := NameLen(u.id, UNI_NAME_LEN);
    ghost var c := w.Contents();
    w.PutRow([UNI_STATUS_IE, UNI_FIXED_LEN - 2 + n, u.mapType, UNI_ID_IE]);
    EncodeName(w, u.id, UNI_NAME_LEN);
    EncodeUniBwProfile(w, db);
    assert UniHead(u) == [UNI_STATUS_IE, UNI_FIXED_LEN - 2 + n, u.mapType, UNI_ID_IE] + [n];
    NamedElement(c, [UNI_STATUS_IE, UNI_FIXED_LEN - 2 + n, u.mapType, UNI_ID_IE], [n], NameOctets(u.id, UNI_NAME_LEN),
                 UniBwIe(db));
  }

  lemma NamedElement(c: bytes, head: bytes, len: bytes, name: bytes, bw: bytes)
    ensures c + head + len + name + bw == c + (head + len + name + bw)
  {
    Concat4(c, head, len, name, bw);
  }

  method EncodeEvcStatus(w: Writer, e: Evc)
    requires e.level != LEVEL_PER_COS && |e.cos| <= 8
    requires w.Valid() && w.Size() >= EvcLength(e)
    modifies w`pos, w.buf
    ensures w.Valid() && w.Contents() == old(w.Contents()) + EvcIe(e)
  {
    EvcLengthExact(e);
    EvcBwSize(e);
    ghost var c := w.Contents();
    EncodeEvcHead(w, e);
    EncodeName(w, e.id, EVC_NAME_LEN);
    EncodeEvcBwProfile(w, e);
    NamedElement(c, EvcStart(e), [NameLen(e.id, EVC_NAME_LEN)], NameOctets(e.id, EVC_NAME_LEN), EvcBwIes(e));
    assert EvcHead(e) == EvcStart(e) + [NameLen(e.id, EVC_NAME_LEN)];
  }

  /** An EVC Status element up to the type octet of its identifier. */
  function EvcStart(e: Evc): (b: bytes)
    ensures |b| == 9
  {
    [EVC_STATUS_IE, (EvcLength(e) - 2) % 256] + W(e.refId) + [e.status, EVC_PARAMS_IE, 1, e.evcType % 8, EVC_ID_IE]
  }

  method EncodeEvcHead(w: Writer, e: Evc)
    requires w.Valid() && w.Size() >= 9
    modifies w`pos, w.buf
    ensures w.Valid() && w.Contents() == old(w.Contents()) + EvcStart(e)
  {
    ghost var c := w.Contents();
    w.PutRow([EVC_STATUS_IE, (EvcLength(e) - 2) % 256]);
    w.PutW(e.refId);
    w.PutRow([e.status, EVC_PARAMS_IE, 1, e.evcType % 8, EVC_ID_IE]);
    Concat3(c, [EVC_STATUS_IE, (EvcLength(e) - 2) % 256], W(e.refId),
            [e.status, EVC_PARAMS_IE, 1, e.evcType % 8, EVC_ID_IE]);
  }

  /** The bitmap iteration that counts VLANs. */
  method CountVids(vids: set<vid>) returns (count: nat)
    ensures count == |Members(vids)|
  {
    count := 0;
    for v := 0 to VID_MAX
      invariant count == |Ascending(vids, 0, v)|
    {
      if v in vids {
        count := count + 1;
      }
    }
  }

  lemma VidOctetsAppend(vids: seq<vid>, v: vid)
    ensures VidOctets(vids + [v]) == VidOctets(vids) + W(v)
  {
    assert (vids + [v])[..|vids|] == vids;
  }

  /** How many of the VLANs lie below v. */
  lemma BelowIsPrefix(vids: set<vid>, v: nat)
    requires v <= VID_MAX
    ensures |Ascending(vids, 0, v)| <= |Members(vids)|
    ensures v < VID_MAX && v in vids ==> |Ascending(vids, 0, v)| < |Members(vids)|
    decreases VID_MAX - v
  {
    if v < VID_MAX {
      BelowIsPrefix(vids, v + 1);
    }
  }

  /** The bitmap iteration that writes VLANs. */
  method EncodeVids(w: Writer, vids: set<vid>)
    requires w.Valid() && w.Size() >= 2 * |Members(vids)|
    modifies w`pos, w.buf
    ensures w.Valid() && w.Contents() == old(w.Contents()) + VidOctets(Members(vids))
  {
    hide VidOctets, W;
    ghost var c := w.Contents();
    ghost var done: seq<vid> := [];
    for v := 0 to VID_MAX
      invariant done == Ascending(vids, 0, v)
      invariant w.Valid() && w.Size() >= 2 * (|Members(vids)| - |done|)
      invariant w.Contents() == c + VidOctets(done)
    {
      BelowIsPrefix(vids, v);
      if v in vids {
        w.PutW(v);
        VidOctetsAppend(done, v);
        Concat2(c, VidOctets(done), W(v));
        done := done + [v];
      }
    }
  }

  method EncodeMap(w: Writer, m: CvlanMap)
    requires MapLength(m) <= MAX_IE_LEN
    requires w.Valid() && w.Size() >= MapLength(m)
    modifies w`pos, w.buf
    ensures w.Valid() && w.Contents() == old(w.Contents()) + MapIe(m)
  {
    var count := CountVids(m.vids);
    ghost var c := w.Contents();
    EncodeMapHead(w, m, count);
    EncodeVids(w, m.vids);
    Concat2(c, MapHead(m), VidOctets(Members(m.vids)));
  }

  method EncodeMapHead(w: Writer, m: CvlanMap, count: nat)
    requires count == |Members(m.vids)| && MapLength(m) <= MAX_IE_LEN && w.Valid() && w.Size() >= 8
    modifies w`pos, w.buf
    ensures w.Valid() && w.Contents() == old(w.Contents()) + MapHead(m)
  {
    ghost var c := w.Contents();
    w.PutRow([CEVLAN_EVC_MAP_IE, MAP_FIXED_LEN - 2 + 2 * count]);
    w.PutW(m.refId);
    w.PutRow([0x41, 2 * Flag(m.untagged) + Flag(m.defaultEvc), EVC_MAP_ENTRY_IE, 2 * count]);
    Concat3(c, [CEVLAN_EVC_MAP_IE, MAP_FIXED_LEN - 2 + 2 * count], W(m.refId),
            [0x41, 2 * Flag(m.untagged) + Flag(m.defaultEvc), EVC_MAP_ENTRY_IE, 2 * count]);
  }

  method EncodeHeader(w: Writer, report: u8)
    requires w.Valid() && w.Size() >= 5
    modifies w`pos, w.buf
    ensures w.Valid() && w.Contents() == old(w.Contents()) + [PROTO_VERSION, MSG_STATUS, REPORT_TYPE_IE, 1, report]
  {
    w.PutRow([PROTO_VERSION, MSG_STATUS, REPORT_TYPE_IE, 1, report]);
  }

  method EncodeSeqNumAndDi(w: Writer, sent: u8, rcvd: u8, di: u32)
    requires w.Valid() && w.Size() >= 11
    modifies w`pos, w.buf
    ensures w.Valid()
    ensures w.Contents()
         == old(w.Contents()) + [SEQUENCE_NUM_IE, 2, sent, rcvd, DATA_INSTANCE_IE, DATA_INSTANCE_LEN, 0] + L(di)
  {
    w.PutRow([SEQUENCE_NUM_IE, 2, sent, rcvd, DATA_INSTANCE_IE, DATA_INSTANCE_LEN, 0]);
    w.PutL(di);
  }

  method EncodePadding(w: Writer)
    requires w.Valid() && w.buf.Length >= MIN_PACKET
    modifies w`pos, w.buf
    ensures w.Valid() && w.Contents() == Pad(old(w.Contents()))
  {
    if w.pos < MIN_PACKET {
      w.PutEmpty(MIN_PACKET - w.pos);
    }
  }
}
