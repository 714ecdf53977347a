/** RDATA as its reader takes it: field by field at fixed offsets, names label by label, whatever wrote it. */
module Rdata {
  import opened Bytes
  import opened Names
  import opened Records
  import opened Database
  import opened NameReader
  import opened Message
  import opened MessageTheorems
  import opened Verifier
  import TypeBitmap
  import Nsec3Chain

  type Labels = seq<Bytes>

  /** What RDATA says, in the terms of the RFCs that define the types. */
  datatype Rdata =
    | Address(octets: Bytes)
    | Pointer(target: Labels)
    | Start(mname: Labels, rname: Labels, serial: nat, refresh: nat, retry: nat, expire: nat, minimum: nat)
    | Exchange(preference: nat, exchange: Labels)
    | Strings(text: Bytes)
    | Service(priority: nat, weight: nat, port: nat, host: Labels)
    | Issuer(issuerFlags: byte, tag: Bytes, value: Bytes)
    | Delegation(keyTag: nat, dsAlgorithm: byte, digestType: byte, digest: Bytes)
    | Signed(typeCovered: nat, sigAlgorithm: byte, labels: byte, origTTL: nat, expiration: nat, inception: nat, signerTag: nat,
             signer: Labels, signature: Bytes)
    | PublicKey(keyFlags: nat, protocol: byte, keyAlgorithm: byte, key: Bytes)
    | Hashed(hashAlgorithm: byte, flags: byte, iterations: nat, salt: Bytes, nextHash: Bytes, types: set<int>)
    | HashParams(paramAlgorithm: byte, paramFlags: byte, paramIterations: nat, paramSalt: Bytes)

  // ----- reading

  /** The name at the offset, if it ends where the data does. */
  function LastName(b: Bytes, off: nat): (r: Option<Labels>) {
    match ReadPlain(b, off)
    case None => None
    case Some((labels, end)) => if end == |b| then Some(labels) else None
  }

  /** A string behind its length octet, and the offset behind it. */
  function ReadCounted(b: Bytes, off: nat): (r: Option<(Bytes, nat)>)
    ensures r.Some? ==> r.value.1 <= |b|
  {
    if off >= |b| || off + 1 + b[off] as int > |b| then None
    else Some((b[off + 1..off + 1 + b[off] as int], off + 1 + b[off] as int))
  }

  function Announced(bitmap: Bytes): (types: set<int>) {
    set t | 0 <= t < 65536 && TypeBitmap.Announces(bitmap, t)
  }

  function ReadPointer(b: Bytes): (r: Option<Rdata>) {
    match LastName(b, 0) case None => None case Some(n) => Some(Pointer(n))
  }

  /** Section 3.3.13 of RFC 1035. */
  function ReadStart(b: Bytes): (r: Option<Rdata>) {
    match ReadPlain(b, 0)
    case None => None
    case Some((mname, mid)) =>
      match ReadPlain(b, mid)
      case None => None
      case Some((rname, end)) =>
        if end + 20 != |b| then None
        else Some(Start(mname, rname, GetU32(b, end), GetU32(b, end + 4), GetU32(b, end + 8), GetU32(b, end + 12), GetU32(b, end + 16)))
  }

  /** Section 3.3.9 of RFC 1035. */
  function ReadExchange(b: Bytes): (r: Option<Rdata>) {
    if |b| < 2 then None
    else match LastName(b, 2) case None => None case Some(n) => Some(Exchange(GetU16(b, 0), n))
  }

  /** RFC 2782. */
  function ReadService(b: Bytes): (r: Option<Rdata>) {
    if |b| < 6 then None
    else match LastName(b, 6) case None => None case Some(n) => Some(Service(GetU16(b, 0), GetU16(b, 2), GetU16(b, 4), n))
  }

  /** Section 4 of RFC 8659. */
  function ReadIssuer(b: Bytes): (r: Option<Rdata>) {
    match ReadCounted(b, 1)
    case None => None
    case Some((tag, end)) => Some(Issuer(b[0], tag, b[end..]))
  }

  /** Section 5.1 of RFC 4034. */
  function ReadDelegation(b: Bytes): (r: Option<Rdata>) {
    if |b| < 4 then None else Some(Delegation(GetU16(b, 0), b[2], b[3], b[4..]))
  }

  /** Section 3.1 of RFC 4034. */
  function ReadSigned(b: Bytes): (r: Option<Rdata>) {
    if |b| < 18 then None
    else
      match ReadPlain(b, 18)
      case None => None
      case Some((signer, end)) =>
        Some(Signed(GetU16(b, 0), b[2], b[3], GetU32(b, 4), GetU32(b, 8), GetU32(b, 12), GetU16(b, 16), signer, b[end..]))
  }

  /** Section 2.1 of RFC 4034. */
  function ReadKey(b: Bytes): (r: Option<Rdata>) {
    if |b| < 4 then None else Some(PublicKey(GetU16(b, 0), b[2], b[3], b[4..]))
  }

  /** Section 3.2 of RFC 5155. */
  function ReadHashed(b: Bytes): (r: Option<Rdata>) {
    match ReadCounted(b, 4)
    case None => None
    case Some((salt, mid)) =>
      match ReadCounted(b, mid)
      case None => None
      case Some((next, end)) => Some(Hashed(b[0], b[1], GetU16(b, 2), salt, next, Announced(b[end..])))
  }

  /** Section 4.2 of RFC 5155. */
  function ReadParams(b: Bytes): (r: Option<Rdata>) {
    match ReadCounted(b, 4)
    case None => None
    case Some((salt, end)) => if end == |b| then Some(HashParams(b[0], b[1], GetU16(b, 2), salt)) else None
  }

  function ReadRdata(t: RRType, b: Bytes): (r: Option<Rdata>) {
    match t
    case A => if |b| == 4 then Some(Address(b)) else None
    case AAAA => if |b| == 16 then Some(Address(b)) else None
    case NS => ReadPointer(b)
    case CNAME => ReadPointer(b)
    case PTR => ReadPointer(b)
    case SOA => ReadStart(b)
    case MX => ReadExchange(b)
    case TXT => Some(Strings(JoinChunks(b)))
    case SRV => ReadService(b)
    case CAA => ReadIssuer(b)
    case DS => ReadDelegation(b)
    case RRSIG => ReadSigned(b)
    case DNSKEY => ReadKey(b)
    case NSEC3 => ReadHashed(b)
    case NSEC3PARAM => ReadParams(b)
  }

  // ----- what a record means

  /** The fields of the record, each up to the width the wire has for it. */
  function Meaning(o: Opts): (c: Rdata) {
    match o
    case OptsA(address) => Address(address)
    case OptsAAAA(address) => Address(address)
    case OptsNS(n) => Pointer(n)
    case OptsCNAME(n) => Pointer(n)
    case OptsPTR(n) => Pointer(n)
    case OptsSOA(mname, rname, serial, refresh, retry, expire, minimum) =>
      Start(mname, rname, Low32(serial), Low32(refresh), Low32(retry), Low32(expire), Low32(minimum))
    case OptsMX(preference, mx) => Exchange(preference % 65536, mx)
    case OptsTXT(txt) => Strings(txt)
    case OptsSRV(priority, weight, port, target) => Service(priority % 65536, weight % 65536, port % 65536, target)
    case OptsCAA(flags, tag, value) => Issuer(flags, tag, value)
    case OptsDS(keyTag, algorithm, digestType, digest) => Delegation(keyTag % 65536, algorithm, digestType, digest)
    case OptsRRSIG(typeCovered, algorithm, labels, origTTL, expiration, inception, keyTag, signer, signature) =>
      Signed(typeCovered % 65536, algorithm, labels, Low32(origTTL), Low32(expiration), Low32(inception), keyTag % 65536,
             signer, signature)
    case OptsNSEC3(algorithm, flags, iterations, salt, nextHash, types) =>
      Hashed(algorithm, flags, iterations % 65536, salt, nextHash, Elems(types))
    case OptsNSEC3PARAM(algorithm, flags, iterations, salt) => HashParams(algorithm, flags, iterations % 65536, salt)
    case OptsDNSKEY(flags, protocol, algorithm, publicKey) => PublicKey(flags % 65536, protocol, algorithm, publicKey)
  }

  function Low32(n: nat): (r: nat) { n % 0x1_0000_0000 }

  /** Addresses have their length, strings behind a length octet fit one, type numbers are 16 bits wide. */
  predicate Fits(o: Opts) {
    match o
    case OptsA(address) => |address| == 4
    case OptsAAAA(address) => |address| == 16
    case OptsCAA(_, tag, _) => |tag| < 256
    case OptsNSEC3(_, _, _, salt, nextHash, types) => |salt| < 256 && |nextHash| < 256 && TypeNumbers(types)
    case OptsNSEC3PARAM(_, _, _, salt) => |salt| < 256
    case _ => true
  }

  // ----- names

  lemma WroteName(b: Bytes, off: nat, n: Name)
    requires At(b, off, Wire(n))
    ensures ReadPlain(b, off) == Some((n, off + |Wire(n)|))
    ensures off + |Wire(n)| == |b| ==> LastName(b, off) == Some(n)
  {
    NameLabels(n);
    hide At, Wire, NameWire, ReadPlain;
    PlainWritten(b, off, n);
  }

  lemma Whole(b: Bytes)
    ensures At(b, 0, b)
  {
    assert b[0..|b|] == b;
  }

  lemma PointerRead(n: Name)
    ensures ReadPointer(Wire(n)) == Some(Pointer(n))
  {
    Whole(Wire(n));
    hide At, Wire, LastName;
    WroteName(Wire(n), 0, n);
  }

  lemma ExchangeRead(preference: nat, n: Name)
    ensures ReadExchange(U16(preference) + Wire(n)) == Some(Exchange(preference % 65536, n))
  {
    hide *;
    hide ReadExchange;
    var b := U16(preference) + Wire(n);
    Whole(b);
    AtConcat(b, 0, U16(preference), Wire(n));
    AtU16(b, 0, preference);
    WroteName(b, 2, n);
    ExchangeIs(b, preference % 65536, n);
  }

  lemma ExchangeIs(b: Bytes, preference: nat, n: Name)
    requires |b| >= 2 && GetU16(b, 0) == preference && LastName(b, 2) == Some(n)
    ensures ReadExchange(b) == Some(Exchange(preference, n))
  {
    hide GetU16, LastName;
  }

  lemma ServiceRead(priority: nat, weight: nat, port: nat, n: Name)
    ensures ReadService(U16(priority) + U16(weight) + U16(port) + Wire(n)) ==
            Some(Service(priority % 65536, weight % 65536, port % 65536, n))
  {
    hide U16, GetU16, Wire, At, LastName;
    var b := U16(priority) + U16(weight) + U16(port) + Wire(n);
    Whole(b);
    AtConcat(b, 0, U16(priority) + U16(weight) + U16(port), Wire(n));
    AtConcat(b, 0, U16(priority) + U16(weight), U16(port));
    AtConcat(b, 0, U16(priority), U16(weight));
    AtU16(b, 0, priority);
    AtU16(b, 2, weight);
    AtU16(b, 4, port);
    WroteName(b, 6, n);
  }

  lemma StartRead(mname: Name, rname: Name, serial: nat, refresh: nat, retry: nat, expire: nat, minimum: nat)
    ensures ReadStart(Wire(mname) + Wire(rname) + U32(serial) + U32(refresh) + U32(retry) + U32(expire) + U32(minimum)) ==
            Some(Start(mname, rname, Low32(serial), Low32(refresh), Low32(retry), Low32(expire), Low32(minimum)))
  {
    hide U32, GetU32, Wire, At, ReadPlain;
    var names := Wire(mname) + Wire(rname);
    var b := names + U32(serial) + U32(refresh) + U32(retry) + U32(expire) + U32(minimum);
    Whole(b);
    AtConcat(b, 0, names + U32(serial) + U32(refresh) + U32(retry) + U32(expire), U32(minimum));
    AtConcat(b, 0, names + U32(serial) + U32(refresh) + U32(retry), U32(expire));
    AtConcat(b, 0, names + U32(serial) + U32(refresh), U32(retry));
    AtConcat(b, 0, names + U32(serial), U32(refresh));
    AtConcat(b, 0, names, U32(serial));
    AtConcat(b, 0, Wire(mname), Wire(rname));
    WroteName(b, 0, mname);
    WroteName(b, |Wire(mname)|, rname);
    AtU32(b, |names|, serial);
    AtU32(b, |names| + 4, refresh);
    AtU32(b, |names| + 8, retry);
    AtU32(b, |names| + 12, expire);
    AtU32(b, |names| + 16, minimum);
  }

  // ----- counted strings

  /** A string behind its length modulo 256 is read back if and only if the length fits an octet. */
  lemma CountedRead(pre: Bytes, s: Bytes, rest: Bytes)
    ensures var b := pre + [Byte(|s|)] + s + rest;
      && (|s| < 256 ==> ReadCounted(b, |pre|) == Some((s, |pre| + 1 + |s|)) && b[|pre| + 1 + |s|..] == rest)
      && (|s| >= 256 ==> ReadCounted(b, |pre|).Some? && |ReadCounted(b, |pre|).value.0| < |s|)
  {
    var b := pre + [Byte(|s|)] + s + rest;
    assert b[|pre|] == Byte(|s|);
    if |s| < 256 {
      assert b[|pre| + 1..|pre| + 1 + |s|] == s;
    }
  }

  lemma IssuerRead(flags: byte, tag: Bytes, value: Bytes)
    ensures ReadIssuer([flags, Byte(|tag|)] + tag + value) == Some(Issuer(flags, tag, value)) <==> |tag| < 256
  {
    var b := [flags, Byte(|tag|)] + tag + value;
    assert [flags] + [Byte(|tag|)] == [flags, Byte(|tag|)];
    CountedRead([flags], tag, value);
    assert b[0] == flags;
    hide ReadCounted;
  }

  lemma ParamsRead(algorithm: byte, flags: byte, iterations: nat, salt: Bytes)
    ensures var b := [algorithm, flags] + U16(iterations) + [Byte(|salt|)] + salt;
      ReadParams(b) == Some(HashParams(algorithm, flags, iterations % 65536, salt)) <==> |salt| < 256
  {
    hide U16, GetU16, ReadCounted;
    var pre := [algorithm, flags] + U16(iterations);
    var b := pre + [Byte(|salt|)] + salt;
    CountedRead(pre, salt, []);
    assert pre + [Byte(|salt|)] + salt + [] == b;
    HeadRead(algorithm, flags, iterations, [Byte(|salt|)] + salt);
    Assoc(pre, [Byte(|salt|)], salt);
  }

  /** The four octets in front of the salt. */
  lemma HeadRead(algorithm: byte, flags: byte, iterations: nat, rest: Bytes)
    ensures var b := [algorithm, flags] + U16(iterations) + rest;
      |b| >= 4 && b[0] == algorithm && b[1] == flags && GetU16(b, 2) == iterations % 65536
  {
    ReadU16([algorithm, flags], iterations, rest);
    hide GetU16, U16;
    var b := [algorithm, flags] + U16(iterations) + rest;
    assert b[0] == algorithm && b[1] == flags;
  }

  lemma HashedRead(algorithm: byte, flags: byte, iterations: nat, salt: Bytes, next: Bytes, types: seq<int>)
    ensures var b := [algorithm, flags] + U16(iterations) + [Byte(|salt|)] + salt + [Byte(|next|)] + next + BitmapOf(types);
      ReadHashed(b) == Some(Hashed(algorithm, flags, iterations % 65536, salt, next, Elems(types))) <==>
      |salt| < 256 && |next| < 256 && TypeNumbers(types)
  {
    hide *;
    var bitmap, x, y := BitmapOf(types), [Byte(|salt|)], [Byte(|next|)];
    var pre := [algorithm, flags] + U16(iterations);
    var b := pre + x + salt + y + next + bitmap;
    SixParts(pre, x, salt, y, next, bitmap);
    CountedRead(pre, salt, y + next + bitmap);
    CountedRead(pre + x + salt, next, bitmap);
    HeadRead(algorithm, flags, iterations, x + salt + y + next + bitmap);
    BitmapRead(types);
    HashedIs(b, algorithm, flags, iterations % 65536, salt, next, types);
  }

  lemma SixParts(pre: Bytes, x: Bytes, salt: Bytes, y: Bytes, next: Bytes, bitmap: Bytes)
    ensures pre + x + salt + y + next + bitmap == pre + x + salt + (y + next + bitmap)
    ensures pre + x + salt + y + next + bitmap == pre + (x + salt + y + next + bitmap)
    ensures |pre + x + salt| == |pre| + |x| + |salt|
  {
  }

  /** The cases of the two counted strings. */
  lemma HashedIs(b: Bytes, algorithm: byte, flags: byte, iterations: nat, salt: Bytes, next: Bytes, types: seq<int>)
    requires |b| >= 4 && b[0] == algorithm && b[1] == flags && GetU16(b, 2) == iterations
    requires |salt| < 256 ==> ReadCounted(b, 4) == Some((salt, 5 + |salt|))
    requires |salt| >= 256 ==> ReadCounted(b, 4).Some? && |ReadCounted(b, 4).value.0| < |salt|
    requires |next| < 256 ==> ReadCounted(b, 5 + |salt|) == Some((next, 6 + |salt| + |next|)) && b[6 + |salt| + |next|..] == BitmapOf(types)
    requires |next| >= 256 ==> ReadCounted(b, 5 + |salt|).Some? && |ReadCounted(b, 5 + |salt|).value.0| < |next|
    requires Announced(BitmapOf(types)) == Elems(types) <==> TypeNumbers(types)
    ensures ReadHashed(b) == Some(Hashed(algorithm, flags, iterations, salt, next, Elems(types))) <==>
            |salt| < 256 && |next| < 256 && TypeNumbers(types)
  {
    hide GetU16, ReadCounted, BitmapOf, Announced, Elems, TypeNumbers;
  }

  /** The bitmap announces the listed types if and only if all of them are 16-bit numbers. */
  lemma BitmapRead(types: seq<int>)
    ensures Announced(BitmapOf(types)) == Elems(types) <==> TypeNumbers(types)
  {
    if TypeNumbers(types) {
      hide BitmapOf;
      forall t | 0 <= t < 65536
        ensures TypeBitmap.Announces(BitmapOf(types), t) <==> t in types
      {
        Nsec3Chain.BitmapExact(types, t);
      }
    } else {
      var i :| 0 <= i < |types| && !(0 <= types[i] < 65536);
      SortPermutes(types);
      MultisetMember(SortTypes(types), types, types[i]);
      assert types[i] in Elems(types);
    }
  }

  // ----- every type

  lemma SignedRead(o: Opts)
    requires o.OptsRRSIG?
    ensures ReadSigned(Payload(o)) == Some(Meaning(o))
  {
    var rdata, header := Payload(o), SigHeader(o);
    assert rdata == header + o.signature;
    CutAt(header, o.signature);
    hide At, SigHeader, Payload, ReadPlain, NameWire, GetU16, GetU32;
    SigFieldsRead(rdata, o);
    PlainWritten(rdata, 18, o.signerName);
  }

  lemma FixedRead(a: nat, x: byte, y: byte, rest: Bytes)
    ensures var b := U16(a) + [x, y] + rest;
      |b| >= 4 && GetU16(b, 0) == a % 65536 && b[2] == x && b[3] == y && b[4..] == rest
  {
    ReadU16([], a, [x, y] + rest);
    hide U16, GetU16;
    assert [] + U16(a) + ([x, y] + rest) == U16(a) + [x, y] + rest;
  }

  /** Reading the RDATA of a record gives back each of its fields, if and only if what has to fit an octet does. */
  lemma ReadPayload(o: Opts)
    ensures ReadRdata(o.RRType(), Payload(o)) == Some(Meaning(o)) <==> Fits(o)
  {
    hide ReadPointer, ReadStart, ReadExchange, ReadService, ReadIssuer, ReadSigned, ReadHashed, ReadParams, U16, U32, GetU16,
         GetU32, Wire, BitmapOf, JoinChunks, TxtChunks, Elems, TypeNumbers;
    match o
    case OptsA(address) =>
    case OptsAAAA(address) =>
    case OptsNS(n) => PointerRead(n);
    case OptsCNAME(n) => PointerRead(n);
    case OptsPTR(n) => PointerRead(n);
    case OptsSOA(mname, rname, serial, refresh, retry, expire, minimum) =>
      StartRead(mname, rname, serial, refresh, retry, expire, minimum);
    case OptsMX(preference, mx) => ExchangeRead(preference, mx);
    case OptsTXT(txt) => TxtRoundTrip(txt);
    case OptsSRV(priority, weight, port, target) => ServiceRead(priority, weight, port, target);
    case OptsCAA(flags, tag, value) => IssuerRead(flags, tag, value);
    case OptsDS(keyTag, algorithm, digestType, digest) => FixedRead(keyTag, algorithm, digestType, digest);
    case OptsRRSIG(_, _, _, _, _, _, _, _, _) => SignedRead(o);
    case OptsNSEC3(algorithm, flags, iterations, salt, nextHash, types) =>
      HashedRead(algorithm, flags, iterations, salt, nextHash, types);
    case OptsNSEC3PARAM(algorithm, flags, iterations, salt) => ParamsRead(algorithm, flags, iterations, salt);
    case OptsDNSKEY(flags, protocol, algorithm, publicKey) => FixedRead(flags, protocol, algorithm, publicKey);
  }

  // ----- additional records

  /** The host that the content of a record names, PTR aside. */
  function HostIn(t: RRType, c: Option<Rdata>): (n: Option<Labels>) {
    match c
    case Some(Pointer(target)) => if t == PTR then None else Some(target)
    case Some(Exchange(_, exchange)) => Some(exchange)
    case Some(Service(_, _, _, host)) => Some(host)
    case _ => None
  }

  /** The name for which a reply brings addresses is the host the client reads in an NS, CNAME, MX or SRV record. */
  lemma TargetRead(o: Opts)
    ensures var host := HostIn(o.RRType(), ReadRdata(o.RRType(), Payload(o)));
      if Target(o).None? then host == None else host == Some(Target(o).value)
  {
    ReadPayload(o);
    hide Payload, JoinChunks, LastName, ReadCounted, ReadPlain, Announced, GetU16, GetU32;
  }

  // ----- in a reply

  /** The number of a type on the wire, read back; a number may belong to no type the server knows. */
  function TypeOf(w: nat): (t: Option<RRType>) {
    match w
    case 1 => Some(A)
    case 2 => Some(NS)
    case 5 => Some(CNAME)
    case 6 => Some(SOA)
    case 12 => Some(PTR)
    case 15 => Some(MX)
    case 16 => Some(TXT)
    case 28 => Some(AAAA)
    case 33 => Some(SRV)
    case 43 => Some(DS)
    case 46 => Some(RRSIG)
    case 48 => Some(DNSKEY)
    case 50 => Some(NSEC3)
    case 51 => Some(NSEC3PARAM)
    case 257 => Some(CAA)
    case _ => None
  }

  datatype Fact = Fact(owner: Bytes, t: RRType, ttl: nat, content: Rdata)

  /** What one record of a message tells the client. */
  function Told(p: Parsed): (f: Option<Fact>) {
    match TypeOf(p.rtype)
    case None => None
    case Some(t) =>
      match ReadRdata(t, p.rdata)
      case None => None
      case Some(content) => Some(Fact(p.name, t, p.ttl, content))
  }

  function Known(ps: seq<Parsed>): (fs: seq<Option<Fact>>)
    ensures |fs| == |ps|
  {
    seq(|ps|, i requires 0 <= i < |ps| => Told(ps[i]))
  }

  /** What the records of the zone say. */
  function Facts(rs: seq<RR>): (fs: seq<Option<Fact>>)
    ensures |fs| == |rs|
  {
    seq(|rs|, i requires 0 <= i < |rs| =>
      Some(Fact(Fqdn(rs[i].name), rs[i].rtype, rs[i].ttl % 0x1_0000_0000, Meaning(rs[i].opts))))
  }

  lemma TypeRead(t: RRType)
    ensures TypeOf(WireType(t)) == Some(t)
  {
  }

  lemma ToldExactly(r: RR)
    requires r.rtype == r.opts.RRType()
    ensures var p := Parsed(Fqdn(r.name), WireType(r.rtype), r.ttl % 0x1_0000_0000, Payload(r.opts));
      Told(p) == Some(Fact(p.name, r.rtype, p.ttl, Meaning(r.opts))) <==> Fits(r.opts)
  {
    TypeRead(r.rtype);
    ReadPayload(r.opts);
    hide ReadRdata, Payload, Meaning, Fits, WireType, TypeOf, Fqdn;
  }

  /** The client knows what the records say if and only if every one of them fits. */
  lemma KnownExactly(rs: seq<RR>)
    requires Typed(rs)
    ensures Known(Seen(rs)) == Facts(rs) <==> AllFitting(rs)
  {
    hide Told, Payload, Meaning, Fits, WireType, TypeOf, Fqdn, Typed;
    forall i | 0 <= i < |rs|
      ensures Known(Seen(rs))[i] == Facts(rs)[i] <==> Fits(rs[i].opts)
    {
      TypedMember(rs, rs[i]);
      ToldExactly(rs[i]);
    }
    if Known(Seen(rs)) == Facts(rs) {
      forall i | 0 <= i < |rs|
        ensures Fits(rs[i].opts)
      {
        assert Known(Seen(rs))[i] == Facts(rs)[i];
      }
    }
  }

  ghost predicate AllFitting(rs: seq<RR>) {
    forall i :: 0 <= i < |rs| ==> Fits(rs[i].opts)
  }

  /** From the octets of the reply the client learns owner, type, TTL and every field of every record, section by section. */
  lemma ClientLearnsReply(txid: nat, queryFlags: nat, question: Option<Bytes>, answers: seq<RR>, additional: seq<RR>,
                          authority: seq<RR>, rcode: nat, opt: Option<(bool, byte)>) returns (m: DnsMessage)
    requires IsQuestion(question) && HasRoom(answers, additional, authority, opt)
    requires Typed(answers) && Typed(authority) && Typed(additional)
    ensures ReadMessage(ReplyBytes(txid, queryFlags, question, answers, additional, authority, rcode, opt)) == Ok(m)
    ensures m.rcode == rcode % 16
    ensures Known(m.answers) == Facts(answers) <==> AllFitting(answers)
    ensures Known(m.authority) == Facts(authority) <==> AllFitting(authority)
    ensures Known(m.additional) == Facts(additional) <==> AllFitting(additional)
  {
    hide *;
    ClientReadsReply(txid, queryFlags, question, answers, additional, authority, rcode, opt);
    m := Recovered(txid, queryFlags, answers, additional, authority, rcode, opt);
    RecoveredIs(txid, queryFlags, answers, additional, authority, rcode, opt);
    KnownExactly(answers);
    KnownExactly(authority);
    KnownExactly(additional);
  }

  lemma RecoveredIs(txid: nat, queryFlags: nat, answers: seq<RR>, additional: seq<RR>, authority: seq<RR>, rcode: nat,
                    opt: Option<(bool, byte)>)
    ensures var m := Recovered(txid, queryFlags, answers, additional, authority, rcode, opt);
      m.rcode == rcode % 16 && m.answers == Seen(answers) && m.authority == Seen(authority) && m.additional == Seen(additional)
  {
  }
}
