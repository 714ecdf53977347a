/** Resource records: type, payload and the wire form of the payload. */
module Records {
  import opened Bytes
  import opened Names
  import TypeBitmap

  /** `rec.DefaultTTL`. */
  const DEFAULT_TTL: nat := 300

  datatype RRType =
    | A | AAAA | NS | CNAME | SOA | PTR | MX | TXT | SRV | CAA | DS
    | RRSIG | NSEC3 | NSEC3PARAM | DNSKEY

  datatype Opts =
    | OptsA(address: Bytes)
    | OptsAAAA(address6: Bytes)
    | OptsNS(ns: Name)
    | OptsCNAME(cname: Name)
    | OptsSOA(mname: Name, rname: Name, serial: nat, refresh: nat, retry: nat, expire: nat, minimum: nat)
    | OptsPTR(ptr: Name)
    | OptsMX(preference: nat, mx: Name)
    | OptsTXT(txt: Bytes)
    | OptsSRV(priority: nat, weight: nat, port: nat, target: Name)
    | OptsCAA(caaFlags: byte, tag: Bytes, value: Bytes)
    | OptsDS(dsKeyTag: nat, dsAlgorithm: byte, digestType: byte, digest: Bytes)
    | OptsRRSIG(typeCovered: nat, algorithm: byte, labels: byte, origTTL: nat, expiration: nat,
                inception: nat, keyTag: nat, signerName: Name, signature: Bytes)
    | OptsNSEC3(hashAlgorithm: byte, flags: byte, iterations: nat, salt: Bytes, nextHash: Bytes, types: seq<int>)
    | OptsNSEC3PARAM(paramAlgorithm: byte, paramFlags: byte, paramIterations: nat, paramSalt: Bytes)
    | OptsDNSKEY(keyFlags: nat, protocol: byte, keyAlgorithm: byte, publicKey: Bytes)
  {
    /** `Opts.RRtype()`. */
    function RRType(): (t: RRType) {
      match this
      case OptsA(_) => A
      case OptsAAAA(_) => AAAA
      case OptsNS(_) => NS
      case OptsCNAME(_) => CNAME
      case OptsSOA(_, _, _, _, _, _, _) => SOA
      case OptsPTR(_) => PTR
      case OptsMX(_, _) => MX
      case OptsTXT(_) => TXT
      case OptsSRV(_, _, _, _) => SRV
      case OptsCAA(_, _, _) => CAA
      case OptsDS(_, _, _, _) => DS
      case OptsRRSIG(_, _, _, _, _, _, _, _, _) => RRSIG
      case OptsNSEC3(_, _, _, _, _, _) => NSEC3
      case OptsNSEC3PARAM(_, _, _, _) => NSEC3PARAM
      case OptsDNSKEY(_, _, _, _) => DNSKEY
    }
  }

  /** `id` stands for the address of the source's `*RR`: two records of equal content stay distinct. */
  datatype RR = RR(id: nat, name: Name, rtype: RRType, ttl: nat, opts: Opts)

  /** Every constructor and decoder of the source keeps the type field in step with the payload. */
  ghost predicate Typed(rs: seq<RR>) {
    rs == [] || (Typed(rs[..|rs| - 1]) && rs[|rs| - 1].rtype == rs[|rs| - 1].opts.RRType())
  }

  lemma {:induction false} TypedMember(rs: seq<RR>, r: RR)
    requires Typed(rs) && r in rs
    ensures r.rtype == r.opts.RRType()
    decreases |rs|
  {
    if r != rs[|rs| - 1] {
      assert rs == rs[..|rs| - 1] + [rs[|rs| - 1]];
      TypedMember(rs[..|rs| - 1], r);
    }
  }

  lemma {:induction false} TypedAll(rs: seq<RR>)
    requires forall r :: r in rs ==> r.rtype == r.opts.RRType()
    ensures Typed(rs)
    decreases |rs|
  {
    if rs != [] {
      assert rs == rs[..|rs| - 1] + [rs[|rs| - 1]];
      TypedAll(rs[..|rs| - 1]);
    }
  }

  /** `RRtypeToWire`. */
  function WireType(t: RRType): (w: nat)
    ensures w < 65536
  {
    match t
    case A => 1
    case AAAA => 28
    case NS => 2
    case CNAME => 5
    case SOA => 6
    case PTR => 12
    case MX => 15
    case TXT => 16
    case SRV => 33
    case CAA => 257
    case DS => 43
    case RRSIG => 46
    case DNSKEY => 48
    case NSEC3 => 50
    case NSEC3PARAM => 51
  }

  lemma WireTypeInjective(s: RRType, t: RRType)
    requires WireType(s) == WireType(t)
    ensures s == t
  {
  }

  /** TXT data as a run of character-strings of at most 255 octets. */
  function TxtChunks(s: Bytes): (b: Bytes) {
    if s == [] then []
    else
      var n := if |s| > 255 then 255 else |s|;
      [Byte(n)] + s[..n] + TxtChunks(s[n..])
  }

  /** The text a reader of character-strings puts together again. */
  function JoinChunks(b: Bytes): (s: Bytes) {
    if b == [] || |b| < 1 + b[0] as int then []
    else b[1..1 + b[0] as int] + JoinChunks(b[1 + b[0] as int..])
  }

  lemma JoinStep(b: Bytes)
    requires b != [] && |b| >= 1 + b[0] as int
    ensures JoinChunks(b) == b[1..1 + b[0] as int] + JoinChunks(b[1 + b[0] as int..])
  {
  }

  lemma ChunkParts(chunk: Bytes, rest: Bytes)
    requires 0 < |chunk| <= 255
    ensures var b := [Byte(|chunk|)] + chunk + rest;
      |b| >= 1 + |chunk| && b[0] == |chunk| && b[1..1 + |chunk|] == chunk && b[1 + |chunk|..] == rest
  {
  }

  lemma JoinFirst(chunk: Bytes, rest: Bytes)
    requires 0 < |chunk| <= 255
    ensures JoinChunks([Byte(|chunk|)] + chunk + rest) == chunk + JoinChunks(rest)
  {
    hide JoinChunks;
    ChunkParts(chunk, rest);
    JoinStep([Byte(|chunk|)] + chunk + rest);
  }

  lemma {:induction false} TxtRoundTrip(s: Bytes)
    ensures JoinChunks(TxtChunks(s)) == s
  {
    if s != [] {
      var n := if |s| > 255 then 255 else |s|;
      JoinFirst(s[..n], TxtChunks(s[n..]));
      TxtRoundTrip(s[n..]);
      assert s == s[..n] + s[n..];
    }
  }

  lemma TxtStep(buf: Bytes, s: Bytes, n: nat)
    requires s != [] && n == if |s| > 255 then 255 else |s|
    ensures buf + TxtChunks(s) == (buf + [Byte(n)] + s[..n]) + TxtChunks(s[n..])
  {
    var head, rest := [Byte(n)] + s[..n], TxtChunks(s[n..]);
    assert TxtChunks(s) == head + rest;
    Assoc(buf, head, rest);
    Assoc(buf, [Byte(n)], s[..n]);
  }

  /** `RRoptsTXT.Payload`: cut off 255 octets at a time. */
  method TxtPayload(txt: Bytes) returns (buf: Bytes)
    ensures buf == TxtChunks(txt) && JoinChunks(buf) == txt
  {
    buf := [];
    var s := txt;
    while |s| > 0
      invariant buf + TxtChunks(s) == TxtChunks(txt)
      decreases |s|
    {
      var chunk := s[..|s|];
      if |chunk| > 255 {
        chunk := s[..255];
      }
      TxtStep(buf, s, |chunk|);
      buf := buf + [Byte(|chunk|)];
      buf := buf + chunk;
      s := s[|chunk|..];
    }
    TxtRoundTrip(txt);
  }

  predicate Ordered(s: seq<int>) {
    forall i :: 0 < i < |s| ==> s[i - 1] <= s[i]
  }

  function Insert(x: int, s: seq<int>): (r: seq<int>) {
    if s == [] || x <= s[0] then [x] + s else [s[0]] + Insert(x, s[1..])
  }

  lemma {:induction false} InsertOrdered(x: int, s: seq<int>)
    requires Ordered(s)
    ensures Ordered(Insert(x, s))
    ensures Insert(x, s) != [] && (Insert(x, s)[0] == x || (s != [] && Insert(x, s)[0] == s[0]))
  {
    if s != [] && x > s[0] {
      InsertOrdered(x, s[1..]);
    }
  }

  /** `slices.Sort` on type numbers. */
  function SortTypes(s: seq<int>): (r: seq<int>)
    ensures Ordered(r)
  {
    if s == [] then []
    else
      var rest := SortTypes(s[1..]);
      InsertOrdered(s[0], rest);
      Insert(s[0], rest)
  }

  lemma {:induction false} InsertMembers(x: int, s: seq<int>)
    ensures multiset(Insert(x, s)) == multiset(s) + multiset{x}
  {
    if s != [] && x > s[0] {
      InsertMembers(x, s[1..]);
      assert s == [s[0]] + s[1..];
    }
  }

  lemma {:induction false} SortPermutes(s: seq<int>)
    ensures multiset(SortTypes(s)) == multiset(s)
  {
    if s != [] {
      SortPermutes(s[1..]);
      InsertMembers(s[0], SortTypes(s[1..]));
      assert s == [s[0]] + s[1..];
    }
  }

  lemma {:induction false} OrderedPair(s: seq<int>, i: nat, j: nat)
    requires Ordered(s) && i < j < |s|
    ensures s[i] <= s[j]
    decreases j
  {
    if i + 1 < j {
      OrderedPair(s, i, j - 1);
    }
  }

  /** `uint16` type numbers. */
  predicate TypeNumbers(types: seq<int>) {
    forall i :: 0 <= i < |types| ==> 0 <= types[i] < 65536
  }

  function BitmapOf(types: seq<int>): (b: Bytes) {
    var sorted := SortTypes(types);
    if !TypeNumbers(sorted) then []
    else
      assert TypeBitmap.Ascending(sorted) by {
        forall i, j | 0 <= i < j < |sorted|
          ensures sorted[i] <= sorted[j]
        {
          OrderedPair(sorted, i, j);
        }
      }
      TypeBitmap.EncodeWindows(sorted)
  }

  /** `Payload()` of each record type. */
  function Payload(o: Opts): (b: Bytes) {
    match o
    case OptsA(address) => address
    case OptsAAAA(address) => address
    case OptsNS(ns) => Wire(ns)
    case OptsCNAME(cname) => Wire(cname)
    case OptsSOA(mname, rname, serial, refresh, retry, expire, minimum) =>
      Wire(mname) + Wire(rname) + U32(serial) + U32(refresh) + U32(retry) + U32(expire) + U32(minimum)
    case OptsPTR(ptr) => Wire(ptr)
    case OptsMX(preference, mx) => U16(preference) + Wire(mx)
    case OptsTXT(txt) => TxtChunks(txt)
    case OptsSRV(priority, weight, port, target) => U16(priority) + U16(weight) + U16(port) + Wire(target)
    case OptsCAA(flags, tag, value) => [flags, Byte(|tag|)] + tag + value
    case OptsDS(keyTag, algorithm, digestType, digest) => U16(keyTag) + [algorithm, digestType] + digest
    case OptsRRSIG(_, _, _, _, _, _, _, _, signature) => SigHeader(o) + signature
    case OptsNSEC3(algorithm, flags, iterations, salt, nextHash, types) =>
      [algorithm, flags] + U16(iterations) + [Byte(|salt|)] + salt + [Byte(|nextHash|)] + nextHash + BitmapOf(types)
    case OptsNSEC3PARAM(algorithm, flags, iterations, salt) =>
      [algorithm, flags] + U16(iterations) + [Byte(|salt|)] + salt
    case OptsDNSKEY(flags, protocol, algorithm, publicKey) =>
      U16(flags) + [protocol, algorithm] + publicKey
  }

  /** The RRSIG payload up to and including the signer name. */
  function SigHeader(o: Opts): (b: Bytes)
    requires o.OptsRRSIG?
  {
    U16(o.typeCovered) + [o.algorithm, o.labels] + U32(o.origTTL) + U32(o.expiration) + U32(o.inception) +
    U16(o.keyTag) + Wire(o.signerName)
  }
}
