/** Response messages: what the server writes and what the client reads (sections 4.1 of RFC 1035, 6.1.2 of RFC 6891). */
module Message {
  import opened Bytes
  import opened Names
  import opened Records
  import opened NameReader

  const OPT: nat := 41
  const UDP_SIZE: nat := 4096
  const DO_BIT: nat := 0x8000

  /** A record as it stands in a message. */
  datatype WireRR = WireRR(labels: seq<Bytes>, rtype: nat, rclass: nat, ttl: nat, rdata: Bytes)

  /** A record as the client sees it. */
  datatype Parsed = Parsed(name: Bytes, rtype: nat, ttl: nat, rdata: Bytes)

  datatype DnsMessage = DnsMessage(id: nat, flags: nat, rcode: nat, answers: seq<Parsed>, authority: seq<Parsed>,
                             additional: seq<Parsed>, hasOPT: bool, doBit: bool)

  // ----- writing

  function EncodeFields(w: WireRR): (b: Bytes)
    ensures |b| == 10
  {
    U16(w.rtype) + (U16(w.rclass) + (U32(w.ttl) + U16(|w.rdata|)))
  }

  function EncodeRR(w: WireRR): (b: Bytes) {
    NameWire(w.labels) + (EncodeFields(w) + w.rdata)
  }

  function EncodeAll(ws: seq<WireRR>): (b: Bytes) {
    if ws == [] then [] else EncodeRR(ws[0]) + EncodeAll(ws[1..])
  }

  /** A name as the source spells it; the root, whose `Text` is empty here, is ".". */
  function Fqdn(n: Name): (s: Bytes) {
    if n == [] then [DOT] else Text(n)
  }

  /** What `domainLabels` gives for the spelling: the root yields one empty label. */
  function SpelledLabels(n: Name): (labels: seq<Bytes>) {
    if n == [] then [[]] else n
  }

  lemma Spelled(n: Name)
    ensures DomainLabels(Fqdn(n)) == SpelledLabels(n)
  {
    if n == [] {
      SplitCut([], []);
      assert [] + [DOT] + [] == [DOT];
      assert Split([DOT]) == [[], []];
    } else {
      SplitText(n);
    }
  }

  /** The record of the zone on the wire: class IN, always. */
  function OnWire(r: RR): (w: WireRR) {
    WireRR(SpelledLabels(r.name), WireType(r.rtype), 1, r.ttl, Payload(r.opts))
  }

  function AllOnWire(rs: seq<RR>): (ws: seq<WireRR>)
    ensures |ws| == |rs|
  {
    seq(|rs|, i requires 0 <= i < |rs| => OnWire(rs[i]))
  }

  function OptRR(doBit: bool, extRcode: byte): (w: WireRR) {
    WireRR([], OPT, UDP_SIZE, extRcode as int * 0x100_0000 + (if doBit then DO_BIT else 0), [])
  }

  function Header(id: nat, flags: nat, qd: nat, an: nat, ns: nat, ar: nat): (b: Bytes)
    ensures |b| == 12
  {
    U16(id) + (U16(flags) + (U16(qd) + (U16(an) + (U16(ns) + U16(ar)))))
  }

  function QuestionCount(question: Option<Bytes>): (n: nat) {
    if question.Some? then 1 else 0
  }

  function QuestionBytes(question: Option<Bytes>): (b: Bytes) {
    if question.Some? then question.value else []
  }

  /** Header, question and the three record sections, one behind the other. */
  function Glue(header: Bytes, q: Bytes, a: Bytes, n: Bytes, r: Bytes): (b: Bytes) {
    header + (q + (a + (n + r)))
  }

  /** A message with at most one question. */
  function Frame(id: nat, flags: nat, question: Option<Bytes>, an: seq<WireRR>, ns: seq<WireRR>, ar: seq<WireRR>): (b: Bytes) {
    Glue(Header(id, flags, QuestionCount(question), |an|, |ns|, |ar|), QuestionBytes(question),
         EncodeAll(an), EncodeAll(ns), EncodeAll(ar))
  }

  /** `FlagQR | FlagAA | (queryFlags & FlagRD) | (rcode & 0xf)`: the four bit groups are disjoint. */
  function ResponseFlags(queryFlags: nat, rcode: nat): (f: nat)
    ensures f < 65536 && f % 16 == rcode % 16 && f / 256 % 2 == queryFlags / 256 % 2
    ensures f / 32768 == 1 && f / 2048 % 16 == 0 && f / 1024 % 2 == 1 && f / 512 % 2 == 0 && f / 16 % 16 == 0
  {
    32768 + 1024 + queryFlags / 256 % 2 * 256 + rcode % 16
  }

  lemma {:induction false} EncodeAppend(ws: seq<WireRR>, w: WireRR)
    ensures EncodeAll(ws + [w]) == EncodeAll(ws) + EncodeRR(w)
  {
    hide EncodeRR;
    if ws == [] {
      assert ([w])[1..] == [] && ws + [w] == [w];
      assert EncodeAll([w]) == EncodeRR(w) + [];
    } else {
      assert (ws + [w])[1..] == ws[1..] + [w];
      EncodeAppend(ws[1..], w);
      Assoc(EncodeRR(ws[0]), EncodeAll(ws[1..]), EncodeRR(w));
    }
  }

  /** `RR.BinaryWrite`: the fields in order. */
  method BinaryWrite(buf: Bytes, r: RR) returns (b: Bytes)
    ensures b == buf + EncodeRR(OnWire(r))
  {
    var name := WriteDomain(Fqdn(r.name));
    Spelled(r.name);
    assert name == NameWire(SpelledLabels(r.name));
    var payload := Payload(r.opts);
    ghost var w := OnWire(r);
    hide NameWire, Payload, WireType, U16, U32, Fqdn, SpelledLabels;
    b := buf + name;
    b := b + U16(WireType(r.rtype));
    b := b + U16(1);
    b := b + U32(r.ttl);
    b := b + U16(|payload|);
    b := b + payload;
    assert b == buf + (name + (EncodeFields(w) + payload));
  }

  method WriteSection(buf: Bytes, rrs: seq<RR>) returns (b: Bytes)
    ensures b == buf + EncodeAll(AllOnWire(rrs))
  {
    hide EncodeRR, OnWire;
    b := buf;
    var i := 0;
    while i < |rrs|
      invariant 0 <= i <= |rrs|
      invariant b == buf + EncodeAll(AllOnWire(rrs[..i]))
    {
      b := BinaryWrite(b, rrs[i]);
      assert AllOnWire(rrs[..i + 1]) == AllOnWire(rrs[..i]) + [OnWire(rrs[i])];
      EncodeAppend(AllOnWire(rrs[..i]), OnWire(rrs[i]));
      Assoc(buf, EncodeAll(AllOnWire(rrs[..i])), EncodeRR(OnWire(rrs[i])));
      i := i + 1;
    }
    assert rrs[..i] == rrs;
  }

  /** `BuildResponse`. */
  method BuildResponse(txid: nat, queryFlags: nat, question: Option<Bytes>, answers: seq<RR>, additional: seq<RR>,
                       authority: seq<RR>, rcode: nat) returns (buf: Bytes)
    ensures buf == Frame(txid, ResponseFlags(queryFlags, rcode), question,
                         AllOnWire(answers), AllOnWire(authority), AllOnWire(additional))
  {
    hide U16, ResponseFlags, EncodeAll, AllOnWire;
    var qd := if question.Some? then 1 else 0;
    ghost var flags := ResponseFlags(queryFlags, rcode);
    ghost var header := Header(txid, flags, qd, |answers|, |authority|, |additional|);
    buf := U16(txid);
    buf := buf + U16(ResponseFlags(queryFlags, rcode));
    buf := buf + U16(qd);
    buf := buf + U16(|answers|);
    buf := buf + U16(|authority|);
    buf := buf + U16(|additional|);
    assert buf == header;
    hide Header;
    var q := if question.Some? then question.value else [];
    buf := buf + q;
    buf := WriteSection(buf, answers);
    buf := WriteSection(buf, authority);
    buf := WriteSection(buf, additional);
    FiveParts(header, q, EncodeAll(AllOnWire(answers)), EncodeAll(AllOnWire(authority)), EncodeAll(AllOnWire(additional)));
  }

  lemma FiveParts(h: Bytes, q: Bytes, an: Bytes, ns: Bytes, ar: Bytes)
    ensures h + q + an + ns + ar == h + (q + (an + (ns + ar)))
  {
    Assoc(h, q, an + (ns + ar));
    Assoc(h + q, an, ns + ar);
    Assoc(h + q + an, ns, ar);
  }

  /** `AppendOPT`: ARCOUNT goes up by one, in 16 bits, and the OPT record follows. */
  method AppendOPT(msg: Bytes, doBit: bool, extRcode: byte) returns (r: Bytes)
    ensures r == if |msg| < 12 then msg
                 else msg[..10] + U16(GetU16(msg, 10) + 1) + msg[12..] + EncodeRR(OptRR(doBit, extRcode))
  {
    if |msg| < 12 {
      return msg;
    }
    var arCount := GetU16(msg, 10);
    r := msg[..10] + U16(arCount + 1) + msg[12..];
    r := WriteOPT(r, doBit, extRcode);
  }

  /** The eleven octets of the OPT record. */
  method WriteOPT(msg: Bytes, doBit: bool, extRcode: byte) returns (r: Bytes)
    ensures r == msg + EncodeRR(OptRR(doBit, extRcode))
  {
    var flags := if doBit then DO_BIT else 0;
    OptFields(doBit, extRcode);
    r := msg + [0];
    r := r + U16(OPT);
    r := r + U16(UDP_SIZE);
    r := r + [extRcode, 0];
    r := r + U16(flags);
    r := r + U16(0);
    hide U16, OptRR, EncodeRR;
    assert r == msg + ([0] + (U16(OPT) + (U16(UDP_SIZE) + ([extRcode, 0] + U16(flags) + U16(0)))));
  }

  lemma OptFields(doBit: bool, extRcode: byte)
    ensures EncodeRR(OptRR(doBit, extRcode)) ==
      [0] + (U16(OPT) + (U16(UDP_SIZE) + ([extRcode, 0] + U16(if doBit then DO_BIT else 0) + U16(0))))
  {
    var flags := if doBit then DO_BIT else 0;
    var ttl := extRcode as int * 0x100_0000 + flags;
    OptTTL(extRcode, flags);
    hide U32, U16;
    assert NameWire([]) == [0];
    assert EncodeFields(OptRR(doBit, extRcode)) + [] == U16(OPT) + (U16(UDP_SIZE) + (U32(ttl) + U16(0)));
  }

  lemma OptTTL(extRcode: byte, flags: nat)
    requires flags < 65536
    ensures U32(extRcode as int * 0x100_0000 + flags) == [extRcode, 0] + U16(flags)
  {
    var e := extRcode as int;
    var ttl := e * 0x100_0000 + flags;
    DivUnique(ttl, 65536, e * 256, flags);
    DivUnique(e * 256, 256, e, 0);
    assert U16(e * 256) == [extRcode, Byte(0)];
    DivUnique(ttl, 256, e * 65536 + flags / 256, flags % 256);
    LowPart(flags / 256, e * 256);
    LowPart(flags % 256, e * 65536 + flags / 256);
    assert U16(ttl) == U16(flags);
  }

  lemma LowPart(low: nat, k: nat)
    requires low < 256
    ensures (k * 256 + low) % 256 == low
  {
  }

  /** On a frame, `AppendOPT` adds one record to the additional section. */
  lemma OptOnFrame(id: nat, flags: nat, question: Option<Bytes>, an: seq<WireRR>, ns: seq<WireRR>, ar: seq<WireRR>, opt: WireRR)
    ensures var msg := Frame(id, flags, question, an, ns, ar);
      && |msg| >= 12
      && msg[..10] + U16(GetU16(msg, 10) + 1) + msg[12..] + EncodeRR(opt) == Frame(id, flags, question, an, ns, ar + [opt])
  {
    var msg := Frame(id, flags, question, an, ns, ar);
    var qd, q := QuestionCount(question), QuestionBytes(question);
    var body := q + (EncodeAll(an) + (EncodeAll(ns) + EncodeAll(ar)));
    var ten := U16(id) + (U16(flags) + (U16(qd) + (U16(|an|) + U16(|ns|))));
    hide U16, EncodeAll, EncodeRR;
    assert Header(id, flags, qd, |an|, |ns|, |ar|) == ten + U16(|ar|);
    assert Header(id, flags, qd, |an|, |ns|, |ar + [opt]|) == ten + U16(|ar| + 1);
    assert |ten| == 10;
    hide Header;
    CountUp(ten, |ar|, body);
    EncodeAppend(ar, opt);
    TailPart(q, EncodeAll(an), EncodeAll(ns), EncodeAll(ar), EncodeRR(opt));
    Assoc(ten + U16(|ar| + 1), body, EncodeRR(opt));
  }

  lemma CountUp(ten: Bytes, count: nat, body: Bytes)
    requires |ten| == 10
    ensures var msg := ten + U16(count) + body;
      msg[..10] + U16(GetU16(msg, 10) + 1) + msg[12..] == ten + U16(count + 1) + body
  {
    ReadU16(ten, count, body);
    var msg := ten + U16(count) + body;
    assert msg[..10] == ten && msg[12..] == body;
    assert U16(count % 65536 + 1) == U16(count + 1) by { SameLow(count); }
  }

  lemma SameLow(count: nat)
    ensures U16(count % 65536 + 1) == U16(count + 1)
  {
    var k := count / 65536;
    assert count == k * 65536 + count % 65536;
    assert (count + 1) / 256 == k * 256 + (count % 65536 + 1) / 256;
  }

  lemma TailPart(q: Bytes, an: Bytes, ns: Bytes, ar: Bytes, opt: Bytes)
    ensures q + (an + (ns + ar)) + opt == q + (an + (ns + (ar + opt)))
  {
    Assoc(q, an + (ns + ar), opt);
    Assoc(an, ns + ar, opt);
    Assoc(ns, ar, opt);
  }

  // ----- reading

  function ReadFields(msg: Bytes, name: Bytes, off: nat): (r: Result<(Parsed, nat), WireError>)
    ensures r.Ok? ==> |r.value.0.rdata| < 65536 && off < r.value.1 <= |msg|
  {
    if off + 10 > |msg| || off + 10 + GetU16(msg, off + 8) > |msg| then Err(TooShort)
    else
      var end := off + 10 + GetU16(msg, off + 8);
      Ok((Parsed(name, GetU16(msg, off), GetU32(msg, off + 4), msg[off + 10..end]), end))
  }

  function ReadRR(msg: Bytes, off: nat): (r: Result<(Parsed, nat), WireError>)
    ensures r.Ok? ==> |r.value.0.rdata| < 65536 && off < r.value.1 <= |msg|
  {
    match ReadName(msg, off, MAX_JUMPS)
    case None => Err(BadName)
    case Some((labels, next)) => ReadFields(msg, Dotted(labels), next)
  }

  function ReadSection(msg: Bytes, off: nat, count: nat): (r: Result<(seq<Parsed>, nat), WireError>)
    ensures r.Ok? ==> |r.value.0| == count && off <= r.value.1
    ensures r.Ok? ==> forall p :: p in r.value.0 ==> |p.rdata| < 65536
    decreases count
  {
    if count == 0 then Ok(([], off))
    else match ReadRR(msg, off)
      case Err(e) => Err(e)
      case Ok((rr, next)) =>
        match ReadSection(msg, next, count - 1)
        case Err(e) => Err(e)
        case Ok((rrs, end)) => Ok(([rr] + rrs, end))
  }

  function SkipQuestions(msg: Bytes, off: nat, count: nat): (r: Result<nat, WireError>)
    decreases count
  {
    if count == 0 then Ok(off)
    else match ReadName(msg, off, MAX_JUMPS)
      case None => Err(BadName)
      case Some((_, next)) => if next + 4 > |msg| then Err(TooShort) else SkipQuestions(msg, next + 4, count - 1)
  }

  function Others(ps: seq<Parsed>): (r: seq<Parsed>) {
    if ps == [] then []
    else Others(ps[..|ps| - 1]) + if ps[|ps| - 1].rtype == OPT then [] else [ps[|ps| - 1]]
  }

  predicate HasOpt(ps: seq<Parsed>) {
    exists i :: 0 <= i < |ps| && ps[i].rtype == OPT
  }

  predicate HasDo(ps: seq<Parsed>) {
    exists i :: 0 <= i < |ps| && ps[i].rtype == OPT && ps[i].ttl / DO_BIT % 2 == 1
  }

  function ReadSections(msg: Bytes, off: nat): (r: Result<DnsMessage, WireError>)
    requires |msg| >= 12
  {
    match ReadSection(msg, off, GetU16(msg, 6))
    case Err(e) => Err(e)
    case Ok((answers, off1)) =>
      match ReadSection(msg, off1, GetU16(msg, 8))
      case Err(e) => Err(e)
      case Ok((authority, off2)) =>
        match ReadSection(msg, off2, GetU16(msg, 10))
        case Err(e) => Err(e)
        case Ok((ar, _)) =>
          var flags := GetU16(msg, 2);
          Ok(DnsMessage(GetU16(msg, 0), flags, flags % 16, answers, authority, Others(ar), HasOpt(ar), HasDo(ar)))
  }

  function ReadMessage(msg: Bytes): (r: Result<DnsMessage, WireError>) {
    if |msg| < 12 then Err(TooShort)
    else match SkipQuestions(msg, 12, GetU16(msg, 4))
      case Err(e) => Err(e)
      case Ok(off) => ReadSections(msg, off)
  }

  function Behind(rrs: seq<Parsed>, rest: Result<(seq<Parsed>, nat), WireError>): (r: Result<(seq<Parsed>, nat), WireError>) {
    match rest
    case Err(e) => Err(e)
    case Ok((more, end)) => Ok((rrs + more, end))
  }

  lemma BehindStep(rrs: seq<Parsed>, msg: Bytes, off: nat, count: nat)
    ensures count == 0 ==> Behind(rrs, ReadSection(msg, off, count)) == Ok((rrs, off))
    ensures count > 0 && ReadRR(msg, off).Err? ==>
      Behind(rrs, ReadSection(msg, off, count)) == Err(ReadRR(msg, off).error)
    ensures count > 0 && ReadRR(msg, off).Ok? ==>
      var (rr, next) := ReadRR(msg, off).value;
      Behind(rrs, ReadSection(msg, off, count)) == Behind(rrs + [rr], ReadSection(msg, next, count - 1))
    ensures Behind([], ReadSection(msg, off, count)) == ReadSection(msg, off, count)
  {
    hide ReadRR;
    assert rrs + [] == rrs;
    if count > 0 && ReadRR(msg, off).Ok? {
      var (rr, next) := ReadRR(msg, off).value;
      var rest := ReadSection(msg, next, count - 1);
      if rest.Ok? {
        Assoc(rrs, [rr], rest.value.0);
      }
    }
    var all := ReadSection(msg, off, count);
    if all.Ok? {
      assert [] + all.value.0 == all.value.0;
    }
  }

  /** The closure `parseSection`. */
  method ParseSection(msg: Bytes, count: nat, startOff: nat) returns (r: Result<(seq<Parsed>, nat), WireError>)
    ensures r == ReadSection(msg, startOff, count)
  {
    var off: nat := startOff;
    var rrs: seq<Parsed> := [];
    BehindStep([], msg, off, count);
    hide ReadSection, Behind, ReadName;
    var i := 0;
    while i < count
      invariant 0 <= i <= count
      invariant Behind(rrs, ReadSection(msg, off, count - i)) == ReadSection(msg, startOff, count)
    {
      BehindStep(rrs, msg, off, count - i);
      var name := ParseName(msg, off);
      if name.Err? {
        return Err(name.error);
      }
      off := name.value.1;
      if off + 10 > |msg| {
        return Err(TooShort);
      }
      var rtype, ttl, rdlen := GetU16(msg, off), GetU32(msg, off + 4), GetU16(msg, off + 8);
      off := off + 10;
      if off + rdlen > |msg| {
        return Err(TooShort);
      }
      var rdata := msg[off..off + rdlen];
      off := off + rdlen;
      rrs := rrs + [Parsed(name.value.0, rtype, ttl, rdata)];
      i := i + 1;
    }
    BehindStep(rrs, msg, off, 0);
    r := Ok((rrs, off));
  }

  method ParseQuestions(msg: Bytes, count: nat) returns (r: Result<nat, WireError>)
    ensures r == SkipQuestions(msg, 12, count)
  {
    hide ReadName;
    var off: nat := 12;
    var i := 0;
    while i < count
      invariant 0 <= i <= count
      invariant SkipQuestions(msg, off, count - i) == SkipQuestions(msg, 12, count)
    {
      var name := ParseName(msg, off);
      if name.Err? {
        return Err(name.error);
      }
      off := name.value.1 + 4;
      if off > |msg| {
        return Err(TooShort);
      }
      i := i + 1;
    }
    r := Ok(off);
  }

  method SortOutOPT(ar: seq<Parsed>) returns (additional: seq<Parsed>, hasOPT: bool, doBit: bool)
    ensures additional == Others(ar) && hasOPT == HasOpt(ar) && doBit == HasDo(ar)
  {
    additional, hasOPT, doBit := [], false, false;
    var i := 0;
    while i < |ar|
      invariant 0 <= i <= |ar|
      invariant additional == Others(ar[..i])
      invariant hasOPT <==> exists k :: 0 <= k < i && ar[k].rtype == OPT
      invariant doBit <==> exists k :: 0 <= k < i && ar[k].rtype == OPT && ar[k].ttl / DO_BIT % 2 == 1
    {
      assert ar[..i + 1][..i] == ar[..i];
      if ar[i].rtype == OPT {
        hasOPT := true;
        if ar[i].ttl / DO_BIT % 2 != 0 {
          doBit := true;
        }
      } else {
        additional := additional + [ar[i]];
      }
      i := i + 1;
    }
    assert ar[..i] == ar;
  }

  /** `parseResponse`: no message makes it read out of bounds or run on. */
  method ParseResponse(msg: Bytes) returns (r: Result<DnsMessage, WireError>)
    ensures r == ReadMessage(msg)
  {
    hide ReadSection, SkipQuestions, Others, HasOpt, HasDo;
    if |msg| < 12 {
      return Err(TooShort);
    }
    var flags := GetU16(msg, 2);
    var qd, an, ns, ar := GetU16(msg, 4), GetU16(msg, 6), GetU16(msg, 8), GetU16(msg, 10);
    var off := ParseQuestions(msg, qd);
    if off.Err? {
      return Err(off.error);
    }
    var answers := ParseSection(msg, an, off.value);
    if answers.Err? {
      return Err(answers.error);
    }
    var authority := ParseSection(msg, ns, answers.value.1);
    if authority.Err? {
      return Err(authority.error);
    }
    var rest := ParseSection(msg, ar, authority.value.1);
    if rest.Err? {
      return Err(rest.error);
    }
    var additional, hasOPT, doBit := SortOutOPT(rest.value.0);
    r := Ok(DnsMessage(GetU16(msg, 0), flags, flags % 16, answers.value.0, authority.value.0, additional, hasOPT, doBit));
  }
}
