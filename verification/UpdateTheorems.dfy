/** UPDATE messages written record by record: what the parser recovers, and that it undoes the appending of a TSIG. */
module UpdateTheorems {
  import opened Bytes
  import opened NameReader
  import opened UpdateNames
  import opened Message
  import opened MessageTheorems
  import opened Update

  /** An entry of the zone section. */
  datatype ZoneEntry = ZoneEntry(labels: seq<Bytes>, ztype: nat, zclass: nat)

  function EncodeZone(z: ZoneEntry): (b: Bytes) {
    NameWire(z.labels) + (U16(z.ztype) + U16(z.zclass))
  }

  function EncodeZones(zs: seq<ZoneEntry>): (b: Bytes) {
    if zs == [] then [] else EncodeZones(zs[..|zs| - 1]) + EncodeZone(zs[|zs| - 1])
  }

  /** A message of arbitrarily many records, none of them compressed. */
  function UpdateFrame(id: nat, flags: nat, zones: seq<ZoneEntry>, pre: seq<WireRR>, upd: seq<WireRR>, add: seq<WireRR>): (b: Bytes) {
    Glue(Header(id, flags, |zones|, |pre|, |upd|, |add|), EncodeZones(zones), EncodeAll(pre), EncodeAll(upd), EncodeAll(add))
  }

  function SeeZone(z: ZoneEntry): (r: UpdateRR) {
    UpdateRR(Dotted(z.labels), z.ztype % 65536, z.zclass % 65536, 0, [])
  }

  function SeeZones(zs: seq<ZoneEntry>): (r: seq<UpdateRR>)
    ensures |r| == |zs|
  {
    seq(|zs|, i requires 0 <= i < |zs| => SeeZone(zs[i]))
  }

  function See(w: WireRR): (r: UpdateRR) {
    UpdateRR(Dotted(w.labels), w.rtype % 65536, w.rclass % 65536, w.ttl % 0x1_0000_0000, w.rdata)
  }

  function SeeAll(ws: seq<WireRR>): (r: seq<UpdateRR>)
    ensures |r| == |ws|
  {
    seq(|ws|, i requires 0 <= i < |ws| => See(ws[i]))
  }

  predicate ZonesFit(zs: seq<ZoneEntry>) {
    forall i :: 0 <= i < |zs| ==> WireLabels(zs[i].labels)
  }

  // ----- sections

  lemma ZoneWritten(data: Bytes, off: nat, z: ZoneEntry)
    requires At(data, off, EncodeZone(z)) && WireLabels(z.labels)
    ensures ReadZone(data, off) == Some((SeeZone(z), off + |EncodeZone(z)|))
  {
    hide At, UpdateName, NameWire, Dotted, U16, GetU16, WireLabels;
    var o := off + |NameWire(z.labels)|;
    AtConcat(data, off, NameWire(z.labels), U16(z.ztype) + U16(z.zclass));
    NameWritten(data, off, z.labels);
    AtConcat(data, o, U16(z.ztype), U16(z.zclass));
    AtU16(data, o, z.ztype);
    AtU16(data, o + 2, z.zclass);
  }

  lemma {:induction false} ZonesWritten(data: Bytes, off: nat, zs: seq<ZoneEntry>)
    requires At(data, off, EncodeZones(zs)) && ZonesFit(zs)
    ensures ReadZones(data, off, |zs|) == Some((SeeZones(zs), off + |EncodeZones(zs)|))
    decreases |zs|
  {
    hide At, EncodeZone, ReadZone, SeeZone, WireLabels;
    if zs != [] {
      var init, last := zs[..|zs| - 1], zs[|zs| - 1];
      AtConcat(data, off, EncodeZones(init), EncodeZone(last));
      ZonesWritten(data, off, init);
      ZoneWritten(data, off + |EncodeZones(init)|, last);
      assert SeeZones(zs) == SeeZones(init) + [SeeZone(last)];
    } else {
      assert SeeZones(zs) == [];
    }
  }

  lemma UpdateRRWritten(data: Bytes, off: nat, w: WireRR)
    requires At(data, off, EncodeRR(w)) && Fits(w)
    ensures ReadUpdateRR(data, off) == Some((See(w), off + |EncodeRR(w)|))
  {
    hide At, UpdateName, NameWire, Dotted, EncodeFields, GetU16, GetU32;
    AtConcat(data, off, NameWire(w.labels), EncodeFields(w) + w.rdata);
    NameWritten(data, off, w.labels);
    FieldsWritten(data, off + |NameWire(w.labels)|, w);
  }

  lemma {:induction false} RRsWritten(data: Bytes, off: nat, ws: seq<WireRR>)
    requires At(data, off, EncodeAll(ws)) && AllFit(ws)
    ensures ReadRRs(data, off, |ws|) == Some((SeeAll(ws), off + |EncodeAll(ws)|))
    decreases |ws|
  {
    hide At, EncodeRR, ReadUpdateRR, See, Fits, EncodeAll, ReadRRs;
    RRsStart(data, off);
    if ws != [] {
      var init, last := ws[..|ws| - 1], ws[|ws| - 1];
      assert ws == init + [last];
      EncodeAppend(init, last);
      AtConcat(data, off, EncodeAll(init), EncodeRR(last));
      RRsWritten(data, off, init);
      UpdateRRWritten(data, off + |EncodeAll(init)|, last);
      RRsNext(data, off, |init|, SeeAll(init), off + |EncodeAll(init)|);
      assert SeeAll(ws) == SeeAll(init) + [See(last)];
    } else {
      EncodeNone();
      assert SeeAll(ws) == [];
    }
  }

  lemma EncodeNone()
    ensures EncodeAll([]) == []
  {
  }

  // ----- messages

  /** Every record can be read back, and every count fits its field. */
  ghost predicate Fitting(zones: seq<ZoneEntry>, pre: seq<WireRR>, upd: seq<WireRR>, add: seq<WireRR>) {
    && ZonesFit(zones) && AllFit(pre) && AllFit(upd) && AllFit(add)
    && |zones| < 65536 && |pre| < 65536 && |upd| < 65536 && |add| < 65536
  }

  lemma UpdateShape(data: Bytes, id: nat, flags: nat, zones: seq<ZoneEntry>, pre: seq<WireRR>, upd: seq<WireRR>, add: seq<WireRR>)
    requires data == UpdateFrame(id, flags, zones, pre, upd, add)
    ensures Stand(data, Header(id, flags, |zones|, |pre|, |upd|, |add|), EncodeZones(zones),
                  EncodeAll(pre), EncodeAll(upd), EncodeAll(add))
  {
    hide Stand, EncodeZones, EncodeAll, Header, Glue;
    PartsAt(Header(id, flags, |zones|, |pre|, |upd|, |add|), EncodeZones(zones), EncodeAll(pre), EncodeAll(upd), EncodeAll(add));
  }

  function FirstZone(zones: seq<ZoneEntry>): (z: Option<UpdateRR>) {
    if zones == [] then None else Some(SeeZone(zones[0]))
  }

  /** Where the additional section starts, and what was read before it. */
  lemma BeforeAdditional(data: Bytes, id: nat, flags: nat, zones: seq<ZoneEntry>, pre: seq<WireRR>, upd: seq<WireRR>, add: seq<WireRR>)
    returns (o3: nat)
    requires data == UpdateFrame(id, flags, zones, pre, upd, add) && Fitting(zones, pre, upd, add)
    ensures 12 <= o3 && |data| >= 12 && At(data, o3, EncodeAll(add)) && GetU16(data, 10) == |add|
    ensures |data| == o3 + |EncodeAll(add)|
    ensures ReadUpdate(data) == SetApart(data, o3, |add|,
      UpdateMsg(id % 65536, flags % 65536, FirstZone(zones), SeeAll(pre), SeeAll(upd), [], None, data))
  {
    hide At, EncodeZones, EncodeAll, Header, UpdateFrame, ReadUpdate, SetApart, GetU16, SeeAll, ZonesFit, AllFit,
         FirstZone;
    UpdateShape(data, id, flags, zones, pre, upd, add);
    HeaderRead(data, id, flags, |zones|, |pre|, |upd|, |add|);
    var o1 := 12 + |EncodeZones(zones)|;
    var o2 := o1 + |EncodeAll(pre)|;
    o3 := o2 + |EncodeAll(upd)|;
    SectionsRead(data, zones, pre, upd, o1, o2);
  }

  lemma SectionsRead(data: Bytes, zones: seq<ZoneEntry>, pre: seq<WireRR>, upd: seq<WireRR>, o1: nat, o2: nat)
    requires |data| >= 12 && ZonesFit(zones) && AllFit(pre) && AllFit(upd)
    requires GetU16(data, 4) == |zones| && GetU16(data, 6) == |pre| && GetU16(data, 8) == |upd|
    requires At(data, 12, EncodeZones(zones)) && At(data, o1, EncodeAll(pre)) && At(data, o2, EncodeAll(upd))
    requires o1 == 12 + |EncodeZones(zones)| && o2 == o1 + |EncodeAll(pre)|
    ensures ReadUpdate(data) == SetApart(data, o2 + |EncodeAll(upd)|, GetU16(data, 10),
      UpdateMsg(GetU16(data, 0), GetU16(data, 2), FirstZone(zones), SeeAll(pre), SeeAll(upd), [], None, data))
  {
    hide At, EncodeZones, EncodeAll, ReadUpdate, ReadZones, ReadRRs, SetApart, GetU16, SeeAll, SeeZones, ZonesFit,
         AllFit, FirstZone;
    ZonesWritten(data, 12, zones);
    RRsWritten(data, o1, pre);
    RRsWritten(data, o2, upd);
    InOrder(data, SeeZones(zones), o1, SeeAll(pre), o2, SeeAll(upd), o2 + |EncodeAll(upd)|);
    FirstSeen(zones);
  }

  lemma InOrder(data: Bytes, zs: seq<UpdateRR>, o1: nat, ps: seq<UpdateRR>, o2: nat, us: seq<UpdateRR>, o3: nat)
    requires |data| >= 12 && o3 >= 12
    requires ReadZones(data, 12, GetU16(data, 4)) == Some((zs, o1)) && ReadRRs(data, o1, GetU16(data, 6)) == Some((ps, o2))
    requires ReadRRs(data, o2, GetU16(data, 8)) == Some((us, o3))
    ensures ReadUpdate(data) == SetApart(data, o3, GetU16(data, 10),
      UpdateMsg(GetU16(data, 0), GetU16(data, 2), if zs == [] then None else Some(zs[0]), ps, us, [], None, data))
  {
    hide ReadZones, ReadRRs, SetApart, GetU16;
  }

  lemma FirstSeen(zones: seq<ZoneEntry>)
    ensures FirstZone(zones) == if SeeZones(zones) == [] then None else Some(SeeZones(zones)[0])
  {
    hide SeeZone;
  }

  /** A message whose last additional record is no TSIG comes through whole. */
  lemma PlainUpdateRead(id: nat, flags: nat, zones: seq<ZoneEntry>, pre: seq<WireRR>, upd: seq<WireRR>, add: seq<WireRR>)
    requires Fitting(zones, pre, upd, add) && (add != [] ==> add[|add| - 1].rtype % 65536 != TSIG)
    ensures var data := UpdateFrame(id, flags, zones, pre, upd, add);
      ReadUpdate(data) ==
      Some(UpdateMsg(id % 65536, flags % 65536, FirstZone(zones), SeeAll(pre), SeeAll(upd), SeeAll(add), None, data))
  {
    var data := UpdateFrame(id, flags, zones, pre, upd, add);
    hide UpdateFrame, ReadUpdate, At, EncodeAll, GetU16, AllFit, ZonesFit, ReadRRs, Dotted;
    var o3 := BeforeAdditional(data, id, flags, zones, pre, upd, add);
    RRsWritten(data, o3, add);
  }

  /** A TSIG record appended, and ARCOUNT raised by one. */
  function AppendTsig(body: Bytes, tsig: WireRR): (signed: Bytes)
    requires |body| >= 12
  {
    body[..10] + U16(GetU16(body, 10) + 1) + body[12..] + EncodeRR(tsig)
  }

  lemma TsigOnFrame(id: nat, flags: nat, zones: seq<ZoneEntry>, pre: seq<WireRR>, upd: seq<WireRR>, add: seq<WireRR>, t: WireRR)
    ensures var body := UpdateFrame(id, flags, zones, pre, upd, add);
      && |body| >= 12
      && AppendTsig(body, t) == UpdateFrame(id, flags, zones, pre, upd, add + [t])
      && body == body[..10] + U16(|add|) + body[12..]
  {
    var rest := EncodeZones(zones) + (EncodeAll(pre) + (EncodeAll(upd) + EncodeAll(add)));
    var ten := U16(id) + (U16(flags) + (U16(|zones|) + (U16(|pre|) + U16(|upd|))));
    hide U16, EncodeAll, EncodeRR, EncodeZones;
    assert Header(id, flags, |zones|, |pre|, |upd|, |add|) == ten + U16(|add|);
    assert Header(id, flags, |zones|, |pre|, |upd|, |add + [t]|) == ten + U16(|add| + 1);
    assert |ten| == 10;
    hide Header;
    CountUp(ten, |add|, rest);
    EncodeAppend(add, t);
    TailPart(EncodeZones(zones), EncodeAll(pre), EncodeAll(upd), EncodeAll(add), EncodeRR(t));
    Assoc(ten + U16(|add| + 1), rest, EncodeRR(t));
    SameParts(ten, U16(|add|), rest);
  }

  lemma SameParts(ten: Bytes, count: Bytes, rest: Bytes)
    requires |ten| == 10 && |count| == 2
    ensures var body := ten + count + rest;
      body[..10] == ten && body[12..] == rest && body == body[..10] + count + body[12..]
  {
  }

  /** Appending a TSIG to a body and stripping it give the body back. */
  lemma StripUndoesAppend(body: Bytes, count: nat, t: WireRR)
    requires |body| >= 12 && count < 65535 && body == body[..10] + U16(count) + body[12..]
    ensures Stripped(AppendTsig(body, t), |body|) == body
  {
    hide EncodeRR, GetU16, U16;
    ReadU16(body[..10], count, body[12..]);
    StripParts(body[..10], count, body[12..], EncodeRR(t));
  }

  lemma StripParts(ten: Bytes, count: nat, rest: Bytes, rr: Bytes)
    requires |ten| == 10 && count < 65535
    ensures var signed := ten + U16(count + 1) + rest + rr;
      Stripped(signed, 12 + |rest|) == ten + U16(count) + rest
  {
    hide GetU16, U16;
    var signed := ten + U16(count + 1) + rest + rr;
    Assoc(ten + U16(count + 1), rest, rr);
    ReadU16(ten, count + 1, rest + rr);
    assert signed[..10] == ten && signed[12..12 + |rest|] == rest;
  }

  /**
   For every message of arbitrarily many uncompressed records: once a TSIG has been appended, the parser recovers all
   sections, the TSIG, and as `raw` the unsigned message byte for byte.
   */
  lemma SignedUpdateRead(id: nat, flags: nat, zones: seq<ZoneEntry>, pre: seq<WireRR>, upd: seq<WireRR>, add: seq<WireRR>, t: WireRR)
    requires Fitting(zones, pre, upd, add) && |add| + 1 < 65536 && Fits(t) && t.rtype == TSIG
    ensures var body := UpdateFrame(id, flags, zones, pre, upd, add);
      && |body| >= 12
      && ReadUpdate(AppendTsig(body, t)) ==
         Some(UpdateMsg(id % 65536, flags % 65536, FirstZone(zones), SeeAll(pre), SeeAll(upd), SeeAll(add), Some(See(t)), body))
  {
    var body, all := UpdateFrame(id, flags, zones, pre, upd, add), add + [t];
    TsigOnFrame(id, flags, zones, pre, upd, add, t);
    var data := AppendTsig(body, t);
    OneFits(t);
    hide UpdateFrame, ReadUpdate, At, EncodeAll, GetU16, AllFit, ZonesFit, ReadRRs, Dotted, AppendTsig, Stripped, U16,
         EncodeRR, Fits;
    AllFitConcat(add, [t]);
    var o3 := BeforeAdditional(data, id, flags, zones, pre, upd, all);
    LastApart(data, o3, add, t);
    BodyLength(id, flags, zones, pre, upd, add, t, o3);
    StripUndoesAppend(body, |add|, t);
  }

  lemma OneFits(t: WireRR)
    requires Fits(t)
    ensures AllFit([t])
  {
  }

  lemma BodyLength(id: nat, flags: nat, zones: seq<ZoneEntry>, pre: seq<WireRR>, upd: seq<WireRR>, add: seq<WireRR>, t: WireRR, o3: nat)
    requires |UpdateFrame(id, flags, zones, pre, upd, add + [t])| == o3 + |EncodeAll(add + [t])|
    ensures |UpdateFrame(id, flags, zones, pre, upd, add)| == o3 + |EncodeAll(add)|
  {
    hide EncodeAll, EncodeZones, EncodeRR, Header;
    EncodeAppend(add, t);
  }

  /** The additional section, its last record a TSIG. */
  lemma LastApart(data: Bytes, o3: nat, add: seq<WireRR>, t: WireRR)
    requires At(data, o3, EncodeAll(add + [t])) && AllFit(add + [t]) && t.rtype == TSIG
    ensures ReadRRs(data, o3, |add| + 1) == Some((SeeAll(add) + [See(t)], o3 + |EncodeAll(add + [t])|))
    ensures ReadRRs(data, o3, |add|) == Some((SeeAll(add), o3 + |EncodeAll(add)|))
    ensures See(t).rtype == TSIG
  {
    hide EncodeAll, EncodeRR, At, Fits, See, ReadUpdateRR;
    EncodeAppend(add, t);
    RRsWritten(data, o3, add + [t]);
    AtConcat(data, o3, EncodeAll(add), EncodeRR(t));
    assert AllFit(add) by {
      assert forall i :: 0 <= i < |add| ==> (add + [t])[i] == add[i];
    }
    RRsWritten(data, o3, add);
    assert SeeAll(add + [t]) == SeeAll(add) + [See(t)];
    TsigSeen(t);
  }

  lemma TsigSeen(t: WireRR)
    requires t.rtype == TSIG
    ensures See(t).rtype == TSIG
  {
  }
}
