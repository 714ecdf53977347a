/** UPDATE messages (RFC 2136): the parser, and the message without its TSIG record. */
module Update {
  import opened Bytes
  import opened NameReader
  import opened UpdateNames

  const TSIG: nat := 250
  const CLASS_ANY: nat := 255

  datatype UpdateRR = UpdateRR(name: Bytes, rtype: nat, rclass: nat, ttl: nat, rdata: Bytes)

  /** `raw` is the message without the TSIG record. */
  datatype UpdateMsg = UpdateMsg(id: nat, flags: nat, zone: Option<UpdateRR>, prerequisites: seq<UpdateRR>, updates: seq<UpdateRR>,
                                 additional: seq<UpdateRR>, tsig: Option<UpdateRR>, raw: Bytes)

  // ----- reading

  function ReadZone(data: Bytes, off: nat): (r: Option<(UpdateRR, nat)>)
    ensures r.Some? ==> off < r.value.1 <= |data|
  {
    match UpdateName(data, off)
    case None => None
    case Some((labels, n)) =>
      if off + n + 4 > |data| then None
      else Some((UpdateRR(Dotted(labels), GetU16(data, off + n), GetU16(data, off + n + 2), 0, []), off + n + 4))
  }

  function ReadUpdateRR(data: Bytes, off: nat): (r: Option<(UpdateRR, nat)>)
    ensures r.Some? ==> off < r.value.1 <= |data|
  {
    match UpdateName(data, off)
    case None => None
    case Some((labels, n)) =>
      var o := off + n;
      if o + 10 > |data| || o + 10 + GetU16(data, o + 8) > |data| then None
      else
        var end := o + 10 + GetU16(data, o + 8);
        Some((UpdateRR(Dotted(labels), GetU16(data, o), GetU16(data, o + 2), GetU32(data, o + 4), data[o + 10..end]), end))
  }

  /** `count` zone entries from `off` on. */
  function ReadZones(data: Bytes, off: nat, count: nat): (r: Option<(seq<UpdateRR>, nat)>)
    ensures r.Some? ==> |r.value.0| == count && off <= r.value.1
  {
    if count == 0 then Some(([], off))
    else match ReadZones(data, off, count - 1)
      case None => None
      case Some((zs, o)) =>
        match ReadZone(data, o)
        case None => None
        case Some((z, next)) => Some((zs + [z], next))
  }

  function ReadRRs(data: Bytes, off: nat, count: nat): (r: Option<(seq<UpdateRR>, nat)>)
    ensures r.Some? ==> |r.value.0| == count && off <= r.value.1
    ensures r.Some? && count > 0 ==> ReadRRs(data, off, count - 1).Some? && ReadRRs(data, off, count - 1).value.1 < |data|
  {
    if count == 0 then Some(([], off))
    else match ReadRRs(data, off, count - 1)
      case None => None
      case Some((rrs, o)) =>
        match ReadUpdateRR(data, o)
        case None => None
        case Some((rr, next)) => Some((rrs + [rr], next))
  }

  /** The message up to `end`, with one record less in ARCOUNT. */
  function Stripped(data: Bytes, end: nat): (raw: Bytes)
    requires 12 <= end <= |data|
  {
    data[..10] + U16(GetU16(data, 10) - 1) + data[12..end]
  }

  /** The last additional record is set apart when it is a TSIG. */
  function SetApart(data: Bytes, off: nat, count: nat, partial: UpdateMsg): (r: Option<UpdateMsg>)
    requires 12 <= |data| && off >= 12
  {
    match ReadRRs(data, off, count)
    case None => None
    case Some((rrs, _)) =>
      if count > 0 && rrs[count - 1].rtype == TSIG then
        var before := ReadRRs(data, off, count - 1).value.1;
        Some(partial.(additional := rrs[..count - 1], tsig := Some(rrs[count - 1]), raw := Stripped(data, before)))
      else Some(partial.(additional := rrs))
  }

  function ReadUpdate(data: Bytes): (r: Option<UpdateMsg>) {
    if |data| < 12 then None
    else match ReadZones(data, 12, GetU16(data, 4))
      case None => None
      case Some((zones, o1)) =>
        match ReadRRs(data, o1, GetU16(data, 6))
        case None => None
        case Some((prerequisites, o2)) =>
          match ReadRRs(data, o2, GetU16(data, 8))
          case None => None
          case Some((updates, o3)) =>
            var zone := if zones == [] then None else Some(zones[0]);
            SetApart(data, o3, GetU16(data, 10),
                     UpdateMsg(GetU16(data, 0), GetU16(data, 2), zone, prerequisites, updates, [], None, data))
  }

  // ----- the parser

  /** `parseQuestion`. */
  method ParseZone(data: Bytes, off: nat) returns (r: Option<(UpdateRR, nat)>)
    ensures r == ReadZone(data, off)
  {
    hide UpdateName, Dotted, GetU16;
    var name := ParseUpdateName(data, off);
    if name.None? {
      return None;
    }
    var o := off + name.value.1;
    if o + 4 > |data| {
      return None;
    }
    r := Some((UpdateRR(name.value.0, GetU16(data, o), GetU16(data, o + 2), 0, []), o + 4));
  }

  /** `parseRR`. */
  method ParseUpdateRR(data: Bytes, off: nat) returns (r: Option<(UpdateRR, nat)>)
    ensures r == ReadUpdateRR(data, off)
  {
    hide UpdateName, Dotted, GetU16, GetU32;
    var name := ParseUpdateName(data, off);
    if name.None? {
      return None;
    }
    var o := off + name.value.1;
    if o + 10 > |data| {
      return None;
    }
    var rtype, rclass, ttl, rdlength := GetU16(data, o), GetU16(data, o + 2), GetU32(data, o + 4), GetU16(data, o + 8);
    o := o + 10;
    if o + rdlength > |data| {
      return None;
    }
    var rdata := data[o..o + rdlength];
    o := o + rdlength;
    r := Some((UpdateRR(name.value.0, rtype, rclass, ttl, rdata), o));
  }

  lemma {:induction false} ZonesFail(data: Bytes, off: nat, i: nat, count: nat)
    requires i <= count && ReadZones(data, off, i) == None
    ensures ReadZones(data, off, count) == None
    decreases count - i
  {
    if i < count {
      ZonesFail(data, off, i + 1, count);
    }
  }

  lemma {:induction false} RRsFail(data: Bytes, off: nat, i: nat, count: nat)
    requires i <= count && ReadRRs(data, off, i) == None
    ensures ReadRRs(data, off, count) == None
    decreases count - i
  {
    if i < count {
      RRsFail(data, off, i + 1, count);
    }
  }

  lemma RRsNext(data: Bytes, off: nat, i: nat, rrs: seq<UpdateRR>, o: nat)
    requires ReadRRs(data, off, i) == Some((rrs, o))
    ensures ReadRRs(data, off, i + 1) ==
      if ReadUpdateRR(data, o).None? then None else Some((rrs + [ReadUpdateRR(data, o).value.0], ReadUpdateRR(data, o).value.1))
  {
    hide ReadUpdateRR;
  }

  lemma RRsStart(data: Bytes, off: nat)
    ensures ReadRRs(data, off, 0) == Some(([], off))
  {
  }

  method ParseZones(data: Bytes, count: nat) returns (r: Option<(Option<UpdateRR>, nat)>)
    ensures var zones := ReadZones(data, 12, count);
      r == if zones.None? then None else Some((if zones.value.0 == [] then None else Some(zones.value.0[0]), zones.value.1))
  {
    hide ReadZone;
    var zone, off: nat := None, 12;
    ghost var zones: seq<UpdateRR> := [];
    var i := 0;
    while i < count
      invariant 0 <= i <= count && ReadZones(data, 12, i) == Some((zones, off))
      invariant zone == if zones == [] then None else Some(zones[0])
    {
      var z := ParseZone(data, off);
      if z.None? {
        ZonesFail(data, 12, i + 1, count);
        return None;
      }
      off := z.value.1;
      if i == 0 {
        zone := Some(z.value.0);
      }
      zones := zones + [z.value.0];
      i := i + 1;
    }
    r := Some((zone, off));
  }

  method ParseRRs(data: Bytes, start: nat, count: nat) returns (r: Option<(seq<UpdateRR>, nat)>)
    ensures r == ReadRRs(data, start, count)
  {
    hide ReadUpdateRR;
    var rrs: seq<UpdateRR>, off: nat := [], start;
    var i := 0;
    while i < count
      invariant 0 <= i <= count && ReadRRs(data, start, i) == Some((rrs, off))
    {
      var rr := ParseUpdateRR(data, off);
      if rr.None? {
        RRsFail(data, start, i + 1, count);
        return None;
      }
      off := rr.value.1;
      rrs := rrs + [rr.value.0];
      i := i + 1;
    }
    r := Some((rrs, off));
  }

  /** What the loop over the additional section has after `rrs` of `count` records. */
  ghost predicate SortedOut(data: Bytes, start: nat, count: nat, rrs: seq<UpdateRR>, additional: seq<UpdateRR>,
                            tsig: Option<UpdateRR>, raw: Bytes)
    requires |data| >= 12 && start >= 12 && |rrs| <= count
  {
    if |rrs| == count && count > 0 && rrs[count - 1].rtype == TSIG then
      && additional == rrs[..count - 1] && tsig == Some(rrs[count - 1])
      && (var before := ReadRRs(data, start, count - 1);
          before.Some? && before.value.1 <= |data| && raw == Stripped(data, before.value.1))
    else additional == rrs && tsig == None && raw == data
  }

  lemma SortedOutStep(data: Bytes, start: nat, count: nat, rrs: seq<UpdateRR>, off: nat, additional: seq<UpdateRR>, rr: UpdateRR)
    requires |data| >= 12 && start >= 12 && |rrs| < count && ReadRRs(data, start, |rrs|) == Some((rrs, off)) && off <= |data|
    requires additional == rrs
    ensures off >= 12
    ensures rr.rtype == TSIG && |rrs| == count - 1 ==>
      SortedOut(data, start, count, rrs + [rr], additional, Some(rr), Stripped(data, off))
    ensures !(rr.rtype == TSIG && |rrs| == count - 1) ==> SortedOut(data, start, count, rrs + [rr], additional + [rr], None, data)
  {
    hide ReadRRs, Stripped;
    assert (rrs + [rr])[..|rrs|] == rrs && (rrs + [rr])[|rrs|] == rr;
  }

  lemma StripCopy(data: Bytes, off: nat)
    requires 12 <= off <= |data|
    ensures var bytes := data[..off];
      bytes[..10] + U16(GetU16(data, 10) - 1) + bytes[12..] == Stripped(data, off)
  {
    hide U16, GetU16;
    assert data[..off][..10] == data[..10] && data[..off][12..] == data[12..off];
  }

  lemma SortedOutDone(data: Bytes, start: nat, count: nat, rrs: seq<UpdateRR>, off: nat, additional: seq<UpdateRR>,
                      tsig: Option<UpdateRR>, raw: Bytes, partial: UpdateMsg)
    requires |data| >= 12 && start >= 12 && |rrs| == count && ReadRRs(data, start, count) == Some((rrs, off))
    requires SortedOut(data, start, count, rrs, additional, tsig, raw)
    requires partial.raw == data && partial.tsig.None? && partial.additional == []
    ensures SetApart(data, start, count, partial) == Some(partial.(additional := additional, tsig := tsig, raw := raw))
  {
    hide Stripped;
  }

  /** The loop over the additional section. */
  method ParseAdditional(data: Bytes, start: nat, count: nat, partial: UpdateMsg) returns (r: Option<UpdateMsg>)
    requires 12 <= |data| && start >= 12 && partial.raw == data && partial.tsig.None? && partial.additional == []
    requires count == GetU16(data, 10)
    ensures r == SetApart(data, start, count, partial)
  {
    var additional: seq<UpdateRR>, tsig, raw, off: nat := [], None, data, start;
    ghost var rrs: seq<UpdateRR> := [];
    var i := 0;
    RRsStart(data, start);
    hide ReadUpdateRR, GetU16, U16, ReadRRs, Stripped;
    while i < count
      invariant 0 <= i <= count && |rrs| == i && ReadRRs(data, start, i) == Some((rrs, off))
      invariant SortedOut(data, start, count, rrs, additional, tsig, raw)
    {
      RRsNext(data, start, i, rrs, off);
      var rr := ParseUpdateRR(data, off);
      if rr.None? {
        RRsFail(data, start, i + 1, count);
        return None;
      }
      SortedOutStep(data, start, count, rrs, off, additional, rr.value.0);
      rrs := rrs + [rr.value.0];
      if rr.value.0.rtype == TSIG && i == count - 1 {
        tsig := Some(rr.value.0);
        var bytes := data[..off];
        var arcount := GetU16(data, 10);
        StripCopy(data, off);
        if arcount > 0 {
          raw := bytes[..10] + U16(arcount - 1) + bytes[12..];
        }
      } else {
        additional := additional + [rr.value.0];
      }
      off := rr.value.1;
      i := i + 1;
    }
    SortedOutDone(data, start, count, rrs, off, additional, tsig, raw, partial);
    r := Some(partial.(additional := additional, tsig := tsig, raw := raw));
  }

  /** `ParseMessage`. */
  method ParseUpdate(data: Bytes) returns (r: Option<UpdateMsg>)
    ensures r == ReadUpdate(data)
  {
    hide ReadZones, ReadRRs, SetApart, GetU16;
    if |data| < 12 {
      return None;
    }
    var zones := ParseZones(data, GetU16(data, 4));
    if zones.None? {
      return None;
    }
    var prerequisites := ParseRRs(data, zones.value.1, GetU16(data, 6));
    if prerequisites.None? {
      return None;
    }
    var updates := ParseRRs(data, prerequisites.value.1, GetU16(data, 8));
    if updates.None? {
      return None;
    }
    r := ParseAdditional(data, updates.value.1, GetU16(data, 10),
                         UpdateMsg(GetU16(data, 0), GetU16(data, 2), zones.value.0, prerequisites.value.0,
                                   updates.value.0, [], None, data));
  }
}
