/** The server reads back what the client asked, and the client what the server replied to it. */
module QueryTheorems {
  import opened Bytes
  import opened Names
  import opened Records
  import opened NameReader
  import opened Message
  import opened MessageTheorems
  import opened Query

  // ----- the queried name

  lemma {:induction false} SplitLast(s: Bytes)
    ensures Split(s + [DOT]) == Split(s) + [[]]
  {
    if s == [] {
      SplitCut([], []);
      assert [] + [DOT] + [] == s + [DOT];
    } else {
      assert (s + [DOT])[1..] == s[1..] + [DOT];
      SplitLast(s[1..]);
    }
  }

  lemma {:induction false} TextEndsInDot(n: Name)
    requires n != []
    ensures Text(n) != [] && Text(n)[|Text(n)| - 1] == DOT
  {
    if |n| > 1 {
      TextEndsInDot(n[1..]);
    }
  }

  /** The labels the client writes for a name; the root yields one empty label. */
  lemma QueriedLabels(n: Name)
    ensures Split(TrimDot(Fqdn(n))) == SpelledLabels(n)
  {
    if n == [] {
      assert TrimDot([DOT]) == [];
    } else {
      var t := Text(n);
      TextEndsInDot(n);
      SplitText(n);
      SplitLast(t[..|t| - 1]);
      assert t == t[..|t| - 1] + [DOT];
      var a, b: seq<Bytes> := Split(t[..|t| - 1]), n;
      assert a == (a + [[]])[..|a|] && b == (b + [[]])[..|b|];
      assert |a + [[]]| == |b + [[]]|;
    }
  }

  /** The name is read back, or refused exactly when it takes more than 255 octets. */
  lemma {:induction false} QNameWritten(msg: Bytes, off: nat, labels: seq<Bytes>, wireLen: nat)
    requires WireLabels(labels) && At(msg, off, NameWire(labels))
    ensures ReadQName(msg, off, wireLen) ==
      if wireLen + |NameWire(labels)| <= MAX_QNAME then Ok((labels, off + |NameWire(labels)|)) else Err(QNameTooLong)
    decreases |labels|
  {
    if labels == [] {
      AtByte(msg, off, 0);
    } else {
      var l, rest := labels[0], labels[1..];
      WrittenFirst(msg, off, labels);
      hide At, NameWire;
      QNameWritten(msg, off + 1 + |l|, rest, wireLen + 1 + |l|);
      assert labels == [l] + rest;
    }
  }

  ghost function Asked(edns: bool, doBit: bool): (opt: Option<(bool, byte)>) {
    if edns then Some((doBit, 0)) else None
  }

  lemma QuestionParts(msg: Bytes, labels: seq<Bytes>, qtype: nat)
    requires At(msg, 12, NameWire(labels) + (U16(qtype) + U16(1)))
    ensures At(msg, 12, NameWire(labels))
    ensures var pos := 12 + |NameWire(labels)|;
      pos + 4 <= |msg| && GetU16(msg, pos) == qtype % 65536
  {
    AtConcat(msg, 12, NameWire(labels), U16(qtype) + U16(1));
    var pos := 12 + |NameWire(labels)|;
    assert pos + 4 <= |msg|;
    hide At, U16, GetU16;
    AtConcat(msg, pos, U16(qtype), U16(1));
    AtU16(msg, pos, qtype);
  }

  lemma QueryShape(msg: Bytes, id: nat, labels: seq<Bytes>, qtype: nat, edns: bool, doBit: bool)
    requires msg == QueryBytes(id, labels, qtype, edns, doBit)
    ensures |msg| >= 12 && GetU16(msg, 0) == id % 65536 && GetU16(msg, 2) == 256 && GetU16(msg, 4) == 1
    ensures At(msg, 12, NameWire(labels) + (U16(qtype) + U16(1)))
  {
    hide Frame, At, EncodeAll, OptPart, NameWire, U16, GetU16, Header;
    var question := Some(NameWire(labels) + (U16(qtype) + U16(1)));
    var ar := OptPart(Asked(edns, doBit));
    FrameShape(msg, id, 256, question, [], [], ar);
    HeaderRead(msg, id, 256, 1, 0, 0, |ar|);
  }

  /** For every name but the root: `New` recovers name, type, opcode and id of the query, or finds the name too long. */
  lemma ServerReadsQuery(id: nat, n: Name, qtype: nat, edns: bool, doBit: bool)
    requires n != []
    ensures var msg := QueryBytes(id, Split(TrimDot(Fqdn(n))), qtype, edns, doBit);
      ReadQuery(msg) ==
      if |Wire(n)| <= MAX_QNAME then Ok(Request(msg, 12 + |Wire(n)| + 4, 0, Fqdn(n), qtype % 65536)) else Err(QNameTooLong)
    ensures var msg := QueryBytes(id, Split(TrimDot(Fqdn(n))), qtype, edns, doBit);
      |msg| >= 12 && GetU16(msg, 0) == id % 65536
  {
    QueriedLabels(n);
    DottedSpelled(n);
    NameLabels(n);
    var msg := QueryBytes(id, n, qtype, edns, doBit);
    hide QueryBytes, NameWire, Wire, WireLabels, ReadQuery, Dotted, Split, TrimDot, Fqdn, GetU16;
    QueryRead(msg, id, n, qtype, edns, doBit);
  }

  /** The opcode of an accepted query is the four bits behind the first of the third octet. */
  lemma OpcodeRead(msg: Bytes, response: nat, opcode: nat, low: nat)
    requires ReadQuery(msg).Ok? && msg[2] == response * 128 + opcode * 8 + low && response < 2 && opcode < 16 && low < 8
    ensures ReadQuery(msg).value.opcode == opcode
  {
    hide ReadQName, Dotted;
  }

  lemma QueryRead(msg: Bytes, id: nat, labels: seq<Bytes>, qtype: nat, edns: bool, doBit: bool)
    requires msg == QueryBytes(id, labels, qtype, edns, doBit) && WireLabels(labels)
    ensures |msg| >= 12 && GetU16(msg, 0) == id % 65536
    ensures ReadQuery(msg) ==
      if |NameWire(labels)| <= MAX_QNAME then Ok(Request(msg, 12 + |NameWire(labels)| + 4, 0, Dotted(labels), qtype % 65536))
      else Err(QNameTooLong)
  {
    hide QueryBytes, NameWire, At, U16, GetU16, WireLabels, ReadQName, Dotted;
    QueryShape(msg, id, labels, qtype, edns, doBit);
    QuestionParts(msg, labels, qtype);
    QNameWritten(msg, 12, labels, 0);
    assert 256 / 2048 % 16 == 0;
  }

  /** The root is asked for with two zero octets: the server takes the second for the type. */
  lemma RootQueryMisread(id: nat, qtype: nat, edns: bool, doBit: bool)
    ensures var r := ReadQuery(QueryBytes(id, Split(TrimDot(Fqdn([]))), qtype, edns, doBit));
      r.Ok? && r.value.qtype == qtype / 256 % 256 && r.value.questionEnd == 17
  {
    hide QueryBytes, NameWire, At, U16, GetU16, Dotted, Split, TrimDot, Fqdn, ReadQuery, ReadQName;
    QueriedLabels([]);
    var root: seq<Bytes> := [[]];
    var msg := QueryBytes(id, root, qtype, edns, doBit);
    QueryShape(msg, id, root, qtype, edns, doBit);
    RootFieldAt(msg, qtype);
    RootRead(msg);
  }

  /** Two zero octets behind the header: the name ends at the first. */
  lemma RootRead(msg: Bytes)
    requires |msg| >= 18 && msg[12] == 0 && msg[13] == 0 && GetU16(msg, 4) == 1
    ensures ReadQuery(msg).Ok? && ReadQuery(msg).value.qtype == msg[14] && ReadQuery(msg).value.questionEnd == 17
  {
    assert ReadQName(msg, 12, 0) == Ok(([], 13));
    hide ReadQName;
  }

  lemma RootFieldAt(msg: Bytes, qtype: nat)
    requires At(msg, 12, NameWire([[]]) + (U16(qtype) + U16(1)))
    ensures |msg| >= 18 && msg[12] == 0 && msg[13] == 0 && msg[14] == qtype / 256 % 256
  {
    RootWire();
    var s := [0, 0] + (U16(qtype) + U16(1));
    assert msg[12..12 + |s|] == s;
    assert s[0] == 0 && s[1] == 0 && s[2] == Byte(qtype / 256);
    assert msg[12] == msg[12..12 + |s|][0] && msg[13] == msg[12..12 + |s|][1] && msg[14] == msg[12..12 + |s|][2];
  }

  // ----- every accepted question can be copied into a reply

  lemma {:induction false} QNameIsWire(msg: Bytes, pos: nat, wireLen: nat) returns (labels: seq<Bytes>)
    requires ReadQName(msg, pos, wireLen).Ok? && ReadQName(msg, pos, wireLen).value.1 < |msg|
    ensures labels == ReadQName(msg, pos, wireLen).value.0 && WireLabels(labels) && At(msg, pos, NameWire(labels))
    ensures ReadQName(msg, pos, wireLen).value.1 == pos + |NameWire(labels)|
    decreases |msg| - pos
  {
    hide At, NameWire;
    if msg[pos] == 0 {
      labels := [];
      RootAt(msg, pos);
    } else {
      var len := msg[pos] as int;
      var rest := QNameIsWire(msg, pos + 1 + len, wireLen + 1 + len);
      labels := [msg[pos + 1..pos + 1 + len]] + rest;
      LabelBefore(msg, pos, rest);
    }
  }

  lemma RootAt(msg: Bytes, pos: nat)
    requires pos < |msg| && msg[pos] == 0
    ensures At(msg, pos, NameWire([])) && |NameWire([])| == 1
  {
    assert NameWire([]) == [0] && msg[pos..pos + 1] == [0];
  }

  lemma LabelBefore(msg: Bytes, pos: nat, rest: seq<Bytes>)
    requires pos < |msg| && 0 < msg[pos] <= 63 && pos + 1 + msg[pos] as int <= |msg|
    requires WireLabels(rest) && At(msg, pos + 1 + msg[pos] as int, NameWire(rest))
    ensures var labels := [msg[pos + 1..pos + 1 + msg[pos] as int]] + rest;
      && WireLabels(labels) && At(msg, pos, NameWire(labels))
      && |NameWire(labels)| == 1 + msg[pos] as int + |NameWire(rest)|
  {
    var l := msg[pos + 1..pos + 1 + msg[pos] as int];
    var labels := [l] + rest;
    assert labels[0] == l && labels[1..] == rest;
    assert At(msg, pos, [Byte(|l|)]) && At(msg, pos + 1, l);
    NameWireCons(labels);
    hide NameWire, At;
    AtJoin(msg, pos + 1, l, NameWire(rest));
    AtJoin(msg, pos, [Byte(|l|)], l + NameWire(rest));
  }

  lemma AcceptedQuestion(msg: Bytes)
    requires ReadQuery(msg).Ok?
    ensures 12 < ReadQuery(msg).value.questionEnd <= |msg|
    ensures IsQuestion(Some(msg[12..ReadQuery(msg).value.questionEnd]))
  {
    var labels := QNameIsWire(msg, 12, 0);
    var end := 12 + |NameWire(labels)|;
    hide ReadQName, NameWire;
    assert msg[12..end + 4] == NameWire(labels) + msg[end..end + 4];
  }

  /** The whole exchange: whatever query the server accepted, the client can read the reply exactly when there is room. */
  lemma ReplyToQuery(msg: Bytes, answers: seq<RR>, additional: seq<RR>, authority: seq<RR>, rcode: nat, opt: Option<(bool, byte)>)
    requires ReadQuery(msg).Ok?
    ensures 12 < ReadQuery(msg).value.questionEnd <= |msg|
    ensures var question := Some(msg[12..ReadQuery(msg).value.questionEnd]);
      ReadMessage(ReplyBytes(GetU16(msg, 0), GetU16(msg, 2), question, answers, additional, authority, rcode, opt)) ==
      Ok(Recovered(GetU16(msg, 0), GetU16(msg, 2), answers, additional, authority, rcode, opt)) <==>
      HasRoom(answers, additional, authority, opt)
  {
    AcceptedQuestion(msg);
    hide ReadQName, ReplyBytes, Recovered, ReadMessage, HasRoom, IsQuestion;
    ClientReadsReply(GetU16(msg, 0), GetU16(msg, 2), Some(msg[12..ReadQuery(msg).value.questionEnd]),
                     answers, additional, authority, rcode, opt);
  }

  // ----- EDNS

  /** What the first OPT record of the list says. */
  function EdnsOf(ws: seq<WireRR>): (e: Edns) {
    if ws == [] then NO_EDNS
    else if ws[0].rtype % 65536 == OPT then
      Edns(true, ws[0].ttl / DO_BIT % 2 == 1, ws[0].ttl / 65536 % 256, ws[0].rclass % 65536)
    else EdnsOf(ws[1..])
  }

  lemma {:induction false} NameSkipped(msg: Bytes, off: nat, labels: seq<Bytes>)
    requires WireLabels(labels) && At(msg, off, NameWire(labels))
    ensures SkipName(msg, off) == off + |NameWire(labels)|
    decreases |labels|
  {
    if labels == [] {
      AtByte(msg, off, 0);
    } else {
      WrittenFirst(msg, off, labels);
      hide At, NameWire;
      NameSkipped(msg, off + 1 + |labels[0]|, labels[1..]);
    }
  }

  lemma RecordSkipped(msg: Bytes, off: nat, w: WireRR)
    requires At(msg, off, EncodeRR(w)) && Fits(w)
    ensures var p := SkipName(msg, off);
      && off < p && p + 10 <= |msg| && p + 10 + GetU16(msg, p + 8) == off + |EncodeRR(w)|
      && At(msg, p, EncodeFields(w) + w.rdata)
  {
    hide At, NameWire, EncodeFields, GetU16, GetU32;
    AtConcat(msg, off, NameWire(w.labels), EncodeFields(w) + w.rdata);
    NameSkipped(msg, off, w.labels);
    FieldsWritten(msg, off + |NameWire(w.labels)|, w);
  }

  lemma {:induction false} RecordsSkipped(msg: Bytes, off: nat, ws: seq<WireRR>)
    requires At(msg, off, EncodeAll(ws)) && AllFit(ws)
    ensures SkipRecords(msg, off, |ws|) == Some(off + |EncodeAll(ws)|)
    decreases |ws|
  {
    hide At, EncodeRR, Fits, SkipName, GetU16, EncodeFields;
    if ws != [] {
      AtConcat(msg, off, EncodeRR(ws[0]), EncodeAll(ws[1..]));
      RecordSkipped(msg, off, ws[0]);
      RecordsSkipped(msg, off + |EncodeRR(ws[0])|, ws[1..]);
    }
  }

  lemma OptRead(msg: Bytes, p: nat, w: WireRR)
    requires At(msg, p, EncodeFields(w) + w.rdata)
    ensures p + 10 <= |msg| && GetU16(msg, p) == w.rtype % 65536 && GetU16(msg, p + 2) == w.rclass % 65536
    ensures msg[p + 5] == w.ttl / 65536 % 256 && GetU16(msg, p + 6) == w.ttl % 65536
  {
    FieldsWritten(msg, p, w);
    AtConcat(msg, p, EncodeFields(w), w.rdata);
    hide At, GetU32;
    var rest := U32(w.ttl) + U16(|w.rdata|);
    AtConcat(msg, p, U16(w.rtype), U16(w.rclass) + rest);
    AtConcat(msg, p + 2, U16(w.rclass), rest);
    AtU16(msg, p + 2, w.rclass);
    AtConcat(msg, p + 4, U32(w.ttl), U16(|w.rdata|));
    AtConcat(msg, p + 4, U16(w.ttl / 65536), U16(w.ttl));
    AtU16(msg, p + 4, w.ttl / 65536);
    AtU16(msg, p + 6, w.ttl);
  }

  lemma {:induction false} OptFound(msg: Bytes, off: nat, ws: seq<WireRR>)
    requires At(msg, off, EncodeAll(ws)) && AllFit(ws)
    ensures FindOPT(msg, off, |ws|) == EdnsOf(ws)
    decreases |ws|
  {
    hide At, EncodeRR, Fits, SkipName, GetU16, EncodeFields;
    if ws != [] {
      AtConcat(msg, off, EncodeRR(ws[0]), EncodeAll(ws[1..]));
      RecordSkipped(msg, off, ws[0]);
      OptRead(msg, SkipName(msg, off), ws[0]);
      LowBit(ws[0].ttl);
      if ws[0].rtype % 65536 != OPT {
        OptFound(msg, off + |EncodeRR(ws[0])|, ws[1..]);
      }
    }
  }

  lemma LowBit(ttl: nat)
    ensures ttl % 65536 / DO_BIT % 2 == ttl / DO_BIT % 2
  {
  }

  /** `parseOPT` finds the first OPT record of the additional section, behind any records of any section. */
  lemma EdnsRead(id: nat, flags: nat, question: Option<Bytes>, an: seq<WireRR>, ns: seq<WireRR>, ar: seq<WireRR>)
    requires IsQuestion(question) && AllFit(an) && AllFit(ns) && AllFit(ar)
    requires |an| < 65536 && |ns| < 65536 && |ar| < 65536
    ensures ReadEdns(Frame(id, flags, question, an, ns, ar), 12 + |QuestionBytes(question)|) == EdnsOf(ar)
  {
    var msg := Frame(id, flags, question, an, ns, ar);
    var body := 12 + |QuestionBytes(question)|;
    hide At, Frame, IsQuestion, AllFit, SkipRecords, FindOPT, EncodeAll, EdnsOf, GetU16, Header;
    FrameShape(msg, id, flags, question, an, ns, ar);
    HeaderRead(msg, id, flags, QuestionCount(question), |an|, |ns|, |ar|);
    var skipped := an + ns;
    EncodeConcat(an, ns);
    AllFitConcat(an, ns);
    AtJoin(msg, body, EncodeAll(an), EncodeAll(ns));
    RecordsSkipped(msg, body, skipped);
    OptFound(msg, body + |EncodeAll(skipped)|, ar);
  }

  lemma {:induction false} EncodeConcat(a: seq<WireRR>, b: seq<WireRR>)
    ensures EncodeAll(a + b) == EncodeAll(a) + EncodeAll(b)
  {
    hide EncodeRR;
    if a == [] {
      assert a + b == b;
    } else {
      assert (a + b)[1..] == a[1..] + b;
      EncodeConcat(a[1..], b);
      Assoc(EncodeRR(a[0]), EncodeAll(a[1..]), EncodeAll(b));
    }
  }

  /** The EDNS part of a query comes through: presence, DO bit, version 0 and the advertised size. */
  lemma ServerReadsEdns(id: nat, n: Name, qtype: nat, edns: bool, doBit: bool)
    requires n != []
    ensures ReadEdns(QueryBytes(id, n, qtype, edns, doBit), 12 + |Wire(n)| + 4) ==
      if edns then Edns(true, doBit, 0, UDP_SIZE) else NO_EDNS
  {
    hide Frame, IsQuestion, AllFit, NameWire, Wire, WireLabels, ReadEdns, U16, OptPart, AllNamed, EdnsOf;
    var question := Some(NameWire(n) + (U16(qtype) + U16(1)));
    var opt := Asked(edns, doBit);
    NameLabels(n);
    QuestionForm(n, U16(qtype) + U16(1));
    OptPartFits(opt);
    NoneFit();
    EdnsRead(id, 256, question, [], [], OptPart(opt));
    AskedEdns(edns, doBit);
  }

  lemma NoneFit()
    ensures AllFit([])
  {
  }

  lemma QuestionForm(labels: seq<Bytes>, tail: Bytes)
    requires WireLabels(labels) && |tail| == 4
    ensures IsQuestion(Some(NameWire(labels) + tail))
  {
    hide NameWire, WireLabels;
  }

  lemma AskedEdns(edns: bool, doBit: bool)
    ensures EdnsOf(OptPart(Asked(edns, doBit))) == if edns then Edns(true, doBit, 0, UDP_SIZE) else NO_EDNS
  {
    if edns {
      var w := OptRR(doBit, 0);
      assert OptPart(Asked(edns, doBit))[0] == w;
      assert w.ttl / 65536 % 256 == 0;
    }
  }
}
