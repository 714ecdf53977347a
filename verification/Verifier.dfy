/** The client's side of a signature: the RRSIG fields and the signed bytes, rebuilt from what came over the wire. */
module Verifier {
  import opened Bytes
  import opened Names
  import opened Records
  import opened Sorting
  import opened NameReader
  import opened Message
  import opened MessageTheorems
  import opened SigningBytes
  import opened Signing
  import opened Resolver

  datatype ParsedSig = ParsedSig(typeCovered: nat, algorithm: byte, labels: byte, origTTL: nat, expiration: nat, inception: nat,
                                 keyTag: nat, signerName: Bytes, headerRdata: Bytes, signature: Bytes)

  // ----- reading

  /** The labels of an uncompressed name, and the offset behind it; running off the end closes the name. */
  function ReadPlain(data: Bytes, off: nat): (r: Option<(seq<Bytes>, nat)>)
    ensures r.Some? && off <= |data| ==> off <= r.value.1 <= |data|
    decreases |data| - off
  {
    if off >= |data| then Some(([], off))
    else if data[off] == 0 then Some(([], off + 1))
    else if data[off] >= 192 || off + 1 + data[off] as int > |data| then None
    else match ReadPlain(data, off + 1 + data[off] as int)
      case None => None
      case Some((labels, end)) => Some(([data[off + 1..off + 1 + data[off] as int]] + labels, end))
  }

  function Prefixed(labels: seq<Bytes>, rest: Option<(seq<Bytes>, nat)>): (r: Option<(seq<Bytes>, nat)>) {
    match rest
    case None => None
    case Some((more, end)) => Some((labels + more, end))
  }

  lemma PrefixedStep(labels: seq<Bytes>, l: Bytes, rest: Option<(seq<Bytes>, nat)>)
    ensures Prefixed(labels + [l], rest) == Prefixed(labels, Prefixed([l], rest))
    ensures Prefixed([], rest) == rest
    ensures forall end: nat :: Prefixed(labels, Some(([], end))) == Some((labels, end))
  {
    assert labels + [] == labels;
    if rest.Some? {
      Assoc(labels, [l], rest.value.0);
      assert [] + rest.value.0 == rest.value.0;
    }
  }

  /** `parseUncompressedDomain`. */
  method ParsePlain(data: Bytes, start: nat) returns (r: Option<(Bytes, nat)>)
    requires start <= |data|
    ensures var name := ReadPlain(data, start);
      r == if name.None? then None else Some((Dotted(name.value.0), name.value.1))
  {
    var labels: seq<Bytes> := [];
    var off: nat := start;
    PrefixedStep([], [], ReadPlain(data, start));
    hide Prefixed, Dotted;
    while off < |data|
      invariant start <= off <= |data|
      invariant Prefixed(labels, ReadPlain(data, off)) == ReadPlain(data, start)
    {
      PrefixedStep(labels, [], None);
      var b := data[off] as int;
      if b == 0 {
        off := off + 1;
        return Some((Dotted(labels), off));
      }
      PlainStep(data, off);
      if b >= 192 {
        return None;
      }
      if off + 1 + b > |data| {
        return None;
      }
      PrefixedStep(labels, data[off + 1..off + 1 + b], ReadPlain(data, off + 1 + b));
      labels := labels + [data[off + 1..off + 1 + b]];
      off := off + 1 + b;
    }
    PrefixedStep(labels, [], None);
    r := Some((Dotted(labels), off));
  }

  lemma PlainStep(data: Bytes, off: nat)
    requires off < |data| && data[off] > 0
    ensures data[off] >= 192 || off + 1 + data[off] as int > |data| ==> ReadPlain(data, off) == None
    ensures forall labels :: Prefixed(labels, None) == None
    ensures data[off] < 192 && off + 1 + data[off] as int <= |data| ==>
      ReadPlain(data, off) == Prefixed([data[off + 1..off + 1 + data[off] as int]], ReadPlain(data, off + 1 + data[off] as int))
  {
  }

  function ReadSig(rdata: Bytes): (r: Option<ParsedSig>) {
    if |rdata| < 18 then None
    else match ReadPlain(rdata, 18)
      case None => None
      case Some((labels, end)) =>
        Some(ParsedSig(GetU16(rdata, 0), rdata[2], rdata[3], GetU32(rdata, 4), GetU32(rdata, 8), GetU32(rdata, 12),
                       GetU16(rdata, 16), Dotted(labels), rdata[..end], rdata[end..]))
  }

  /** `parseRRSIGRdata`. */
  method ParseRRSIG(rdata: Bytes) returns (r: Option<ParsedSig>)
    ensures r == ReadSig(rdata)
  {
    hide ReadPlain, Dotted, GetU16, GetU32;
    if |rdata| < 18 {
      return None;
    }
    var name := ParsePlain(rdata, 18);
    if name.None? {
      return None;
    }
    var end := name.value.1;
    r := Some(ParsedSig(GetU16(rdata, 0), rdata[2], rdata[3], GetU32(rdata, 4), GetU32(rdata, 8), GetU32(rdata, 12),
                        GetU16(rdata, 16), name.value.0, rdata[..end], rdata[end..]));
  }

  // ----- rebuilding the signed bytes

  function RdataKey(p: Parsed): (key: Bytes) { p.rdata }

  /** The records in the given order, each under its own owner. */
  function InputLines(wireType: nat, ttl: nat, ps: seq<Parsed>): (b: Bytes) {
    if ps == [] then []
    else
      var last := ps[|ps| - 1];
      InputLines(wireType, ttl, ps[..|ps| - 1]) + Line(LabelWire(DomainLabels(ToLower(last.name))) + [0], wireType, ttl, last.rdata)
  }

  /** `buildSigningInput`: sort a copy by RDATA, write it behind the header. */
  method BuildSigningInput(sig: ParsedSig, rrset: seq<Parsed>) returns (buf: Bytes, ghost sorted: seq<Parsed>)
    ensures SortedBy(RdataKey, sorted) && multiset(sorted) == multiset(rrset)
    ensures buf == sig.headerRdata + InputLines(sig.typeCovered, sig.origTTL, sorted)
  {
    var copy := SortBy(RdataKey, rrset);
    sorted := copy;
    hide SortedBy, DomainLabels, ToLower, LabelWire;
    buf := sig.headerRdata;
    var i := 0;
    while i < |copy|
      invariant 0 <= i <= |copy|
      invariant buf == sig.headerRdata + InputLines(sig.typeCovered, sig.origTTL, copy[..i])
    {
      var rr := copy[i];
      var owner := WriteDomain(ToLower(rr.name));
      var line := owner + U16(sig.typeCovered) + U16(1) + U32(sig.origTTL) + U16(|rr.rdata|) + rr.rdata;
      assert copy[..i + 1][..i] == copy[..i];
      Assoc(sig.headerRdata, InputLines(sig.typeCovered, sig.origTTL, copy[..i]), line);
      buf := buf + line;
      i := i + 1;
    }
    assert copy[..i] == copy;
  }

  /** `buf` is an input the verifier may build; ties of the sort are the only freedom. */
  ghost predicate IsInput(buf: Bytes, sig: ParsedSig, rrset: seq<Parsed>) {
    exists sorted ::
      && SortedBy(RdataKey, sorted) && multiset(sorted) == multiset(rrset)
      && buf == sig.headerRdata + InputLines(sig.typeCovered, sig.origTTL, sorted)
  }

  // ----- one owner

  lemma {:induction false} LowerText(n: Name)
    ensures ToLower(Text(n)) == Text(n)
  {
    forall i | 0 <= i < |Text(n)|
      ensures !(65 <= Text(n)[i] <= 90)
    {
      TextIsLower(n, i);
    }
  }

  lemma {:induction false} TextIsLower(n: Name, i: nat)
    requires i < |Text(n)|
    ensures !(65 <= Text(n)[i] <= 90)
  {
    CutAtFirstDot(n);
    if i < |n[0]| {
      assert ValidLabel(n[0]);
    } else if i > |n[0]| {
      assert Text(n)[i] == Text(n)[|n[0]| + 1..][i - |n[0]| - 1];
      TextIsLower(n[1..], i - |n[0]| - 1);
    }
  }

  lemma OwnerWire(q: Name)
    ensures LabelWire(DomainLabels(ToLower(Text(q)))) + [0] == Wire(q)
  {
    LowerText(q);
    SplitText(q);
    assert DomainLabels(Text(q)) == q;
  }

  lemma {:induction false} InputOneOwner(q: Name, wireType: nat, ttl: nat, ps: seq<Parsed>)
    requires forall p :: p in ps ==> p.name == Text(q)
    ensures InputLines(wireType, ttl, ps) == Lines(Wire(q), wireType, ttl, KeysOf(RdataKey, ps))
    decreases |ps|
  {
    hide Line, Wire, Text, LabelWire, DomainLabels, ToLower;
    if ps != [] {
      var init, last := ps[..|ps| - 1], ps[|ps| - 1];
      assert last in ps && forall p :: p in init ==> p in ps;
      InputOneOwner(q, wireType, ttl, init);
      OwnerWire(q);
      assert KeysOf(RdataKey, ps)[..|ps| - 1] == KeysOf(RdataKey, init) && KeysOf(RdataKey, ps)[|ps| - 1] == RdataKey(last);
    }
  }

  /** The input for an RRset of one owner, spelled out. */
  lemma InputIs(buf: Bytes, sig: ParsedSig, rrset: seq<Parsed>, q: Name)
    requires IsInput(buf, sig, rrset) && forall p :: p in rrset ==> p.name == Text(q)
    ensures buf == sig.headerRdata + Lines(Wire(q), sig.typeCovered, sig.origTTL, SortBytes(KeysOf(RdataKey, rrset)))
  {
    hide InputLines, Lines, SortBytes, Wire, KeysOf;
    var sorted: seq<Parsed> :| SortedBy(RdataKey, sorted) && multiset(sorted) == multiset(rrset) &&
      buf == sig.headerRdata + InputLines(sig.typeCovered, sig.origTTL, sorted);
    forall p | p in sorted
      ensures p.name == Text(q)
    {
      MultisetMember(sorted, rrset, p);
    }
    InputOneOwner(q, sig.typeCovered, sig.origTTL, sorted);
    SortedKeys(RdataKey, rrset, sorted);
  }

  // ----- the RRSIG payload

  lemma {:induction false} PlainWritten(data: Bytes, off: nat, n: Name)
    requires At(data, off, NameWire(n))
    ensures ReadPlain(data, off) == Some((n, off + |NameWire(n)|))
    decreases |n|
  {
    NameLabels(n);
    if n == [] {
      AtByte(data, off, 0);
    } else {
      WrittenFirst(data, off, n);
      hide At, NameWire;
      PlainWritten(data, off + 1 + |n[0]|, n[1..]);
      assert n == [n[0]] + n[1..];
    }
  }

  /** Nested from the right, as the reader goes. */
  lemma HeaderNested(o: Opts)
    requires o.OptsRRSIG?
    ensures SigHeader(o) == U16(o.typeCovered) + ([o.algorithm] + ([o.labels] + (U32(o.origTTL) + (U32(o.expiration) +
      (U32(o.inception) + (U16(o.keyTag) + NameWire(o.signerName)))))))
  {
    hide U16, U32, NameWire;
    assert Wire(o.signerName) == NameWire(o.signerName) by { NameLabels(o.signerName); }
    hide Wire;
    assert [o.algorithm, o.labels] == [o.algorithm] + [o.labels];
  }

  lemma SigFieldsRead(rdata: Bytes, o: Opts)
    requires o.OptsRRSIG? && At(rdata, 0, SigHeader(o))
    ensures |rdata| >= 18 && GetU16(rdata, 0) == o.typeCovered % 65536 && rdata[2] == o.algorithm && rdata[3] == o.labels
    ensures GetU32(rdata, 4) == o.origTTL % 0x1_0000_0000 && GetU32(rdata, 8) == o.expiration % 0x1_0000_0000
    ensures GetU32(rdata, 12) == o.inception % 0x1_0000_0000 && GetU16(rdata, 16) == o.keyTag % 65536
    ensures At(rdata, 18, NameWire(o.signerName)) && |SigHeader(o)| == 18 + |NameWire(o.signerName)|
  {
    HeaderNested(o);
    hide At, U16, U32, GetU16, GetU32, NameWire, SigHeader;
    var name := NameWire(o.signerName);
    var f6 := U16(o.keyTag) + name;
    var f5 := U32(o.inception) + f6;
    var f4 := U32(o.expiration) + f5;
    var f3 := U32(o.origTTL) + f4;
    AtConcat(rdata, 0, U16(o.typeCovered), [o.algorithm] + ([o.labels] + f3));
    AtU16(rdata, 0, o.typeCovered);
    AtConcat(rdata, 2, [o.algorithm], [o.labels] + f3);
    AtByte(rdata, 2, o.algorithm);
    AtConcat(rdata, 3, [o.labels], f3);
    AtByte(rdata, 3, o.labels);
    AtConcat(rdata, 4, U32(o.origTTL), f4);
    AtU32(rdata, 4, o.origTTL);
    AtConcat(rdata, 8, U32(o.expiration), f5);
    AtU32(rdata, 8, o.expiration);
    AtConcat(rdata, 12, U32(o.inception), f6);
    AtU32(rdata, 12, o.inception);
    AtConcat(rdata, 16, U16(o.keyTag), name);
    AtU16(rdata, 16, o.keyTag);
  }

  /** The client recovers every field of an RRSIG payload, and cuts it where the signature starts. */
  lemma SigRoundTrip(o: Opts)
    requires o.OptsRRSIG? && o.signerName != []
    ensures ReadSig(Payload(o)) ==
      Some(ParsedSig(o.typeCovered % 65536, o.algorithm, o.labels, o.origTTL % 0x1_0000_0000, o.expiration % 0x1_0000_0000,
                     o.inception % 0x1_0000_0000, o.keyTag % 65536, Text(o.signerName), SigHeader(o), o.signature))
  {
    var rdata, header := Payload(o), SigHeader(o);
    assert rdata == header + o.signature;
    assert At(rdata, 0, header) && rdata[|header|..] == o.signature && rdata[..|header|] == header by {
      CutAt(header, o.signature);
    }
    hide At, SigHeader, Payload, ReadPlain, NameWire, GetU16, GetU32, DotEach, Text;
    SigFieldsRead(rdata, o);
    PlainWritten(rdata, 18, o.signerName);
    DotEachText(o.signerName);
  }

  lemma CutAt(a: Bytes, b: Bytes)
    ensures At(a + b, 0, a) && (a + b)[|a|..] == b && (a + b)[..|a|] == a
  {
  }

  // ----- the two sides agree

  lemma {:induction false} LinesFirst(owner: Bytes, wireType: nat, ttl: nat, ps: seq<Bytes>)
    requires ps != []
    ensures Lines(owner, wireType, ttl, ps) == Line(owner, wireType, ttl, ps[0]) + Lines(owner, wireType, ttl, ps[1..])
    decreases |ps|
  {
    hide Line;
    if |ps| == 1 {
      assert ps[..0] == [] && ps[1..] == [];
      assert Lines(owner, wireType, ttl, []) == [];
    } else {
      var init := ps[..|ps| - 1];
      LinesFirst(owner, wireType, ttl, init);
      assert ps[1..][..|ps| - 2] == init[1..];
      Assoc(Line(owner, wireType, ttl, ps[0]), Lines(owner, wireType, ttl, init[1..]), Line(owner, wireType, ttl, ps[|ps| - 1]));
    }
  }

  lemma LineStart(owner: Bytes, wireType: nat, ttl: nat, payload: Bytes, rest: Bytes) returns (tail: Bytes)
    ensures Line(owner, wireType, ttl, payload) + rest == owner + tail
  {
    hide U16, U32;
    tail := U16(wireType) + U16(1) + U32(ttl) + U16(|payload|) + payload + rest;
    assert Line(owner, wireType, ttl, payload) + rest == owner + tail;
  }

  /** The owner can be read off the signed bytes. */
  lemma LinesOwner(a: Name, b: Name, wireType: nat, ttl: nat, ps: seq<Bytes>)
    requires ps != [] && Lines(Wire(a), wireType, ttl, ps) == Lines(Wire(b), wireType, ttl, ps)
    ensures a == b
  {
    hide Lines, Line, Wire;
    LinesFirst(Wire(a), wireType, ttl, ps);
    LinesFirst(Wire(b), wireType, ttl, ps);
    var x := LineStart(Wire(a), wireType, ttl, ps[0], Lines(Wire(a), wireType, ttl, ps[1..]));
    var y := LineStart(Wire(b), wireType, ttl, ps[0], Lines(Wire(b), wireType, ttl, ps[1..]));
    WirePrefixFree(a, b, x, y);
  }

  /** What reaches the client of an RRset answered under the name `q`. */
  ghost function Answered(rrset: seq<RR>, q: Name): (ps: seq<Parsed>) {
    Seen(Synthesise(rrset, q))
  }

  lemma AnsweredRdata(rrset: seq<RR>, q: Name)
    requires q != []
    ensures KeysOf(RdataKey, Answered(rrset, q)) == Payloads(rrset)
    ensures forall p :: p in Answered(rrset, q) ==> p.name == Text(q)
  {
    hide Payload, WireType, Text;
    var ks, ps := KeysOf(RdataKey, Answered(rrset, q)), Payloads(rrset);
    forall i | 0 <= i < |rrset|
      ensures ks[i] == ps[i]
    {
      assert ks[i] == RdataKey(Answered(rrset, q)[i]) && ps[i] == PayloadKey(rrset[i]);
    }
  }

  lemma SameTTL(owner: Bytes, wireType: nat, ttl: nat, payload: Bytes)
    ensures Line(owner, wireType, ttl % 0x1_0000_0000, payload) == Line(owner, wireType, ttl, payload)
  {
    LowU32(ttl);
    hide U32;
  }

  lemma LowU32(n: nat)
    ensures U32(n % 0x1_0000_0000) == U32(n)
  {
    var high := n / 0x1_0000_0000;
    var low := n % 0x1_0000_0000;
    assert n == high * 0x1_0000_0000 + low;
    DivUnique(n, 65536, high * 65536 + low / 65536, low % 65536);
    LowU16(low / 65536, high);
    LowU16(low, high * 65536);
  }

  lemma LowU16(low: nat, high: nat)
    ensures U16(high * 65536 + low) == U16(low)
  {
    DivUnique(high * 65536 + low, 256, high * 256 + low / 256, low % 256);
    SameByte(low / 256, high);
    SameByte(low, high * 256);
  }

  lemma SameByte(low: nat, high: nat)
    ensures Byte(high * 256 + low) == Byte(low)
  {
  }

  lemma {:induction false} LinesTTL(owner: Bytes, wireType: nat, ttl: nat, ps: seq<Bytes>)
    ensures Lines(owner, wireType, ttl % 0x1_0000_0000, ps) == Lines(owner, wireType, ttl, ps)
    decreases |ps|
  {
    hide Line;
    if ps != [] {
      LinesTTL(owner, wireType, ttl, ps[..|ps| - 1]);
      SameTTL(owner, wireType, ttl, ps[|ps| - 1]);
    }
  }

  /**
   Sign an RRset, send set and signature, and let the client rebuild what was signed: it gets the signer's bytes if and
   only if the set was answered under its own owner. A wildcard answer, renamed to the queried name, gets other bytes.
   */
  lemma VerifierRebuildsSigned(env: Env, times: Times, zone: Name, rrset: seq<RR>, key: SigningKey, id: nat, q: Name, buf: Bytes)
    requires rrset != [] && zone != [] && q != []
    requires var sig := ReadSig(Payload(SigRR(env, times, zone, rrset, key, id).opts));
      sig.Some? && IsInput(buf, sig.value, Answered(rrset, q))
    ensures buf == SignedBytes(SigHeader(SigFields(zone, key, times, rrset[0], [])), rrset) <==> q == rrset[0].name
  {
    hide *;
    var o := SigRR(env, times, zone, rrset, key, id).opts;
    SigOpts(env, times, zone, rrset, key, id);
    SigRoundTrip(o);
    RebuiltFrom(o, ReadSig(Payload(o)).value, rrset, q, buf);
  }

  lemma RebuiltFrom(o: Opts, sig: ParsedSig, rrset: seq<RR>, q: Name, buf: Bytes)
    requires rrset != [] && q != [] && o.OptsRRSIG? && o.typeCovered == WireType(rrset[0].rtype) && o.origTTL == rrset[0].ttl
    requires sig.typeCovered == o.typeCovered % 65536 && sig.origTTL == o.origTTL % 0x1_0000_0000 && sig.headerRdata == SigHeader(o)
    requires IsInput(buf, sig, Answered(rrset, q))
    ensures buf == SignedBytes(SigHeader(o), rrset) <==> q == rrset[0].name
  {
    hide SigHeader, Payload, IsInput, Answered, Lines, Wire, WireType, SortBytes, KeysOf, Payloads;
    AnsweredRdata(rrset, q);
    InputIs(buf, sig, Answered(rrset, q), q);
    SignedAgree(SigHeader(o), q, rrset[0].name, WireType(rrset[0].rtype), rrset[0].ttl, SortBytes(Payloads(rrset)), buf);
    SortBytesSpec(Payloads(rrset));
    MultisetLength(SortBytes(Payloads(rrset)), Payloads(rrset));
  }

  lemma SigOpts(env: Env, times: Times, zone: Name, rrset: seq<RR>, key: SigningKey, id: nat)
    requires rrset != []
    ensures var o := SigRR(env, times, zone, rrset, key, id).opts;
      && o.OptsRRSIG? && o.typeCovered == WireType(rrset[0].rtype) && o.origTTL == rrset[0].ttl && o.signerName == zone
      && SigHeader(o) == SigHeader(SigFields(zone, key, times, rrset[0], []))
  {
    hide U16, U32, Wire, Signature, WireType;
  }

  lemma SignedAgree(header: Bytes, q: Name, owner: Name, wireType: nat, ttl: nat, ps: seq<Bytes>, buf: Bytes)
    requires buf == header + Lines(Wire(q), wireType, ttl % 0x1_0000_0000, ps)
    ensures ps != [] ==> (buf == header + Lines(Wire(owner), wireType, ttl, ps) <==> q == owner)
  {
    hide Lines, Wire;
    LinesTTL(Wire(q), wireType, ttl, ps);
    if ps != [] && buf == header + Lines(Wire(owner), wireType, ttl, ps) {
      assert buf[|header|..] == Lines(Wire(q), wireType, ttl, ps) && buf[|header|..] == Lines(Wire(owner), wireType, ttl, ps);
      LinesOwner(q, owner, wireType, ttl, ps);
    }
  }

  // ----- the signed octets, spelled out

  /** What enters the signature for one record is the record's own wire form, uncompressed. */
  lemma LineIsRecord(n: Name, wireType: nat, ttl: nat, payload: Bytes)
    ensures Line(Wire(n), wireType, ttl, payload) == EncodeRR(WireRR(n, wireType, 1, ttl, payload))
  {
    NameLabels(n);
    hide U16, U32, Wire, NameWire;
    assert EncodeRR(WireRR(n, wireType, 1, ttl, payload)) ==
           NameWire(n) + (U16(wireType) + (U16(1) + (U32(ttl) + U16(|payload|))) + payload);
  }

  /** The records of the set on the wire, in the order of these payloads. */
  function InOrder(n: Name, wireType: nat, ttl: nat, payloads: seq<Bytes>): (ws: seq<WireRR>)
    ensures |ws| == |payloads|
  {
    seq(|payloads|, i requires 0 <= i < |payloads| => WireRR(n, wireType, 1, ttl, payloads[i]))
  }

  lemma {:induction false} LinesAreRecords(n: Name, wireType: nat, ttl: nat, payloads: seq<Bytes>)
    ensures Lines(Wire(n), wireType, ttl, payloads) == EncodeAll(InOrder(n, wireType, ttl, payloads))
    decreases |payloads|
  {
    hide Line, EncodeRR, EncodeAll, Wire;
    if payloads == [] {
      assert EncodeAll([]) == [] by { NoRecords(); }
    } else {
      var init, last := payloads[..|payloads| - 1], payloads[|payloads| - 1];
      LinesAreRecords(n, wireType, ttl, init);
      LineIsRecord(n, wireType, ttl, last);
      assert InOrder(n, wireType, ttl, payloads) == InOrder(n, wireType, ttl, init) + [WireRR(n, wireType, 1, ttl, last)];
      EncodeAppend(InOrder(n, wireType, ttl, init), WireRR(n, wireType, 1, ttl, last));
    }
  }

  lemma NoRecords()
    ensures EncodeAll([]) == []
  {
  }

  /**
   Section 3.1.8.1 of RFC 4034: what is signed is the RRSIG RDATA up to the signer and then the records of the set, class IN,
   in wire form, sorted by RDATA.
   */
  lemma SignedBytesAre(header: Bytes, rrset: seq<RR>) returns (ws: seq<WireRR>)
    requires rrset != []
    ensures SignedBytes(header, rrset) == header + EncodeAll(ws) && |ws| == |rrset|
    ensures forall i :: 0 <= i < |ws| ==>
      ws[i] == WireRR(rrset[0].name, WireType(rrset[0].rtype), 1, rrset[0].ttl, ws[i].rdata)
    ensures forall i, j :: 0 <= i < j < |ws| ==> Compare(ws[i].rdata, ws[j].rdata) <= 0
    ensures multiset(seq(|ws|, i requires 0 <= i < |ws| => ws[i].rdata)) == multiset(Payloads(rrset))
  {
    var ps := SortBytes(Payloads(rrset));
    SortBytesSpec(Payloads(rrset));
    MultisetLength(ps, Payloads(rrset));
    hide SortBytes, Wire, WireType, EncodeAll, Lines, Payloads, Compare;
    LinesAreRecords(rrset[0].name, WireType(rrset[0].rtype), rrset[0].ttl, ps);
    ws := InOrder(rrset[0].name, WireType(rrset[0].rtype), rrset[0].ttl, ps);
    assert seq(|ws|, i requires 0 <= i < |ws| => ws[i].rdata) == ps;
  }
}
