/** The client reads back what the server wrote: exactly when, for every response. */
module MessageTheorems {
  import opened Bytes
  import opened Names
  import opened Records
  import opened NameReader
  import opened Message

  /** What the client should see of a record. */
  function View(w: WireRR): (p: Parsed) {
    Parsed(Dotted(w.labels), w.rtype % 65536, w.ttl % 0x1_0000_0000, w.rdata)
  }

  function Views(ws: seq<WireRR>): (ps: seq<Parsed>)
    ensures |ps| == |ws|
  {
    seq(|ws|, i requires 0 <= i < |ws| => View(ws[i]))
  }

  predicate Fits(w: WireRR) {
    WireLabels(w.labels) && |w.rdata| < 65536
  }

  predicate AllFit(ws: seq<WireRR>) {
    forall i :: 0 <= i < |ws| ==> Fits(ws[i])
  }

  lemma FieldsWritten(msg: Bytes, off: nat, w: WireRR)
    requires At(msg, off, EncodeFields(w) + w.rdata)
    ensures off + 10 + |w.rdata| <= |msg| && msg[off + 10..off + 10 + |w.rdata|] == w.rdata
    ensures GetU16(msg, off) == w.rtype % 65536 && GetU16(msg, off + 2) == w.rclass % 65536
    ensures GetU32(msg, off + 4) == w.ttl % 0x1_0000_0000
    ensures GetU16(msg, off + 8) == |w.rdata| % 65536
  {
    AtConcat(msg, off, EncodeFields(w), w.rdata);
    assert At(msg, off + 10, w.rdata) ==> off + 10 + |w.rdata| <= |msg| && msg[off + 10..off + 10 + |w.rdata|] == w.rdata;
    hide At, U16, U32, GetU16, GetU32;
    AtConcat(msg, off, U16(w.rtype), U16(w.rclass) + (U32(w.ttl) + U16(|w.rdata|)));
    AtU16(msg, off, w.rtype);
    AtConcat(msg, off + 2, U16(w.rclass), U32(w.ttl) + U16(|w.rdata|));
    AtU16(msg, off + 2, w.rclass);
    AtConcat(msg, off + 4, U32(w.ttl), U16(|w.rdata|));
    AtU32(msg, off + 4, w.ttl);
    AtU16(msg, off + 8, |w.rdata|);
  }

  lemma RecordWritten(msg: Bytes, off: nat, w: WireRR)
    requires At(msg, off, EncodeRR(w)) && Fits(w)
    ensures ReadRR(msg, off) == Ok((View(w), off + |EncodeRR(w)|))
  {
    hide At, ReadName, NameWire, Dotted, EncodeFields, GetU16, GetU32;
    AtConcat(msg, off, NameWire(w.labels), EncodeFields(w) + w.rdata);
    ReadWritten(msg, off, w.labels, MAX_JUMPS);
    FieldsWritten(msg, off + |NameWire(w.labels)|, w);
  }

  lemma {:induction false} SectionWritten(msg: Bytes, off: nat, ws: seq<WireRR>)
    requires At(msg, off, EncodeAll(ws)) && AllFit(ws)
    ensures ReadSection(msg, off, |ws|) == Ok((Views(ws), off + |EncodeAll(ws)|))
    decreases |ws|
  {
    hide At, EncodeRR, ReadRR, View, Fits;
    if ws != [] {
      AtConcat(msg, off, EncodeRR(ws[0]), EncodeAll(ws[1..]));
      RecordWritten(msg, off, ws[0]);
      SectionWritten(msg, off + |EncodeRR(ws[0])|, ws[1..]);
      assert Views(ws) == [View(ws[0])] + Views(ws[1..]);
    } else {
      assert Views(ws) == [];
    }
  }

  // ----- the other direction: what is read back unharmed had the right size

  /** Labels as `domainLabels` gives them for a name of the zone: the root is one empty label. */
  predicate Named(w: WireRR) {
    (WireLabels(w.labels) || w.labels == [[]]) && 0 < w.rtype < 65536
  }

  predicate AllNamed(ws: seq<WireRR>) {
    forall i :: 0 <= i < |ws| ==> Named(ws[i])
  }

  lemma RootWire()
    ensures NameWire([[]]) == [0, 0]
  {
    var root: seq<Bytes> := [[]];
    assert root[0] == [] && root[1..] == [];
    assert LabelWire(root) == [Byte(0)] + [] + LabelWire(root[1..]);
  }

  /** The root is written as two zero octets, of which the reader takes one: the fields that follow are shifted. */
  lemma RootShifts(msg: Bytes, off: nat, w: WireRR)
    requires At(msg, off, EncodeRR(w)) && w.labels == [[]]
    ensures ReadRR(msg, off).Ok? ==> ReadRR(msg, off).value.0.rtype == w.rtype / 256 % 256
  {
    RootWire();
    var tail := EncodeFields(w) + w.rdata;
    assert [0, 0] + tail == [0] + ([0] + tail);
    AtConcat(msg, off, [0], [0] + tail);
    AtConcat(msg, off + 1, [0], tail);
    AtByte(msg, off, 0);
    AtByte(msg, off + 1, 0);
    hide GetU32, Dotted;
    RootField(msg, off, w);
  }

  lemma RootField(msg: Bytes, off: nat, w: WireRR)
    requires At(msg, off + 2, EncodeFields(w) + w.rdata)
    ensures off + 3 <= |msg| && msg[off + 2] == w.rtype / 256 % 256
  {
    var tail := EncodeFields(w) + w.rdata;
    assert tail[0] == Byte(w.rtype / 256);
    assert msg[off + 2] == msg[off + 2..off + 2 + |tail|][0];
  }

  lemma RecordExact(msg: Bytes, off: nat, w: WireRR)
    requires At(msg, off, EncodeRR(w)) && Named(w) && ReadRR(msg, off).Ok? && ReadRR(msg, off).value.0 == View(w)
    ensures Fits(w)
  {
    hide At, EncodeRR, ReadRR, Dotted;
    if w.labels == [[]] {
      RootShifts(msg, off, w);
    }
  }

  lemma {:induction false} SectionExact(msg: Bytes, off: nat, ws: seq<WireRR>)
    requires At(msg, off, EncodeAll(ws)) && AllNamed(ws)
    requires ReadSection(msg, off, |ws|).Ok? && ReadSection(msg, off, |ws|).value.0 == Views(ws)
    ensures AllFit(ws)
    decreases |ws|
  {
    hide At, EncodeRR, ReadRR, View, Fits, Named;
    if ws != [] {
      AtConcat(msg, off, EncodeRR(ws[0]), EncodeAll(ws[1..]));
      assert Views(ws) == [View(ws[0])] + Views(ws[1..]);
      assert ReadRR(msg, off).value.0 == Views(ws)[0];
      RecordExact(msg, off, ws[0]);
      RecordWritten(msg, off, ws[0]);
      assert ReadSection(msg, off, |ws|).value.0[1..] == Views(ws[1..]);
      SectionExact(msg, off + |EncodeRR(ws[0])|, ws[1..]);
    }
  }

  // ----- whole messages

  /** A question as it is copied from a query. */
  ghost predicate IsQuestion(question: Option<Bytes>) {
    question.Some? ==> exists labels, tail: Bytes :: WireLabels(labels) && |tail| == 4 && question.value == NameWire(labels) + tail
  }

  lemma QuestionSkipped(msg: Bytes, question: Option<Bytes>)
    requires IsQuestion(question) && At(msg, 12, QuestionBytes(question))
    ensures SkipQuestions(msg, 12, QuestionCount(question)) == Ok(12 + |QuestionBytes(question)|)
  {
    if question.Some? {
      var labels, tail: Bytes :| WireLabels(labels) && |tail| == 4 && question.value == NameWire(labels) + tail;
      AtConcat(msg, 12, NameWire(labels), tail);
      ReadWritten(msg, 12, labels, MAX_JUMPS);
      hide ReadName, NameWire;
      assert SkipQuestions(msg, 12 + |question.value|, 0) == Ok(12 + |question.value|);
    }
  }

  lemma HeaderRead(msg: Bytes, id: nat, flags: nat, qd: nat, an: nat, ns: nat, ar: nat)
    requires At(msg, 0, Header(id, flags, qd, an, ns, ar))
    ensures |msg| >= 12
    ensures GetU16(msg, 0) == id % 65536 && GetU16(msg, 2) == flags % 65536 && GetU16(msg, 4) == qd % 65536
    ensures GetU16(msg, 6) == an % 65536 && GetU16(msg, 8) == ns % 65536 && GetU16(msg, 10) == ar % 65536
  {
    assert |msg| >= 12;
    hide At, U16, GetU16;
    AtConcat(msg, 0, U16(id), U16(flags) + (U16(qd) + (U16(an) + (U16(ns) + U16(ar)))));
    AtU16(msg, 0, id);
    AtConcat(msg, 2, U16(flags), U16(qd) + (U16(an) + (U16(ns) + U16(ar))));
    AtU16(msg, 2, flags);
    AtConcat(msg, 4, U16(qd), U16(an) + (U16(ns) + U16(ar)));
    AtU16(msg, 4, qd);
    AtConcat(msg, 6, U16(an), U16(ns) + U16(ar));
    AtU16(msg, 6, an);
    AtConcat(msg, 8, U16(ns), U16(ar));
    AtU16(msg, 8, ns);
    AtU16(msg, 10, ar);
  }

  lemma AtSelf(msg: Bytes)
    ensures At(msg, 0, msg)
  {
    assert msg[0..|msg|] == msg;
  }

  /** Header, question and three sections stand one behind the other and fill the message. */
  ghost predicate Stand(msg: Bytes, header: Bytes, q: Bytes, a: Bytes, n: Bytes, r: Bytes) {
    && At(msg, 0, header) && At(msg, 12, q) && At(msg, 12 + |q|, a)
    && At(msg, 12 + |q| + |a|, n) && At(msg, 12 + |q| + |a| + |n|, r)
    && |msg| == 12 + |q| + |a| + |n| + |r|
  }

  lemma PartsAt(header: Bytes, q: Bytes, a: Bytes, n: Bytes, r: Bytes)
    requires |header| == 12
    ensures Stand(Glue(header, q, a, n, r), header, q, a, n, r)
  {
    hide At;
    var msg := Glue(header, q, a, n, r);
    AtSelf(msg);
    AtConcat(msg, 0, header, q + (a + (n + r)));
    AtConcat(msg, 12, q, a + (n + r));
    AtConcat(msg, 12 + |q|, a, n + r);
    AtConcat(msg, 12 + |q| + |a|, n, r);
  }

  lemma FrameShape(msg: Bytes, id: nat, flags: nat, question: Option<Bytes>, an: seq<WireRR>, ns: seq<WireRR>, ar: seq<WireRR>)
    requires msg == Frame(id, flags, question, an, ns, ar)
    ensures Stand(msg, Header(id, flags, QuestionCount(question), |an|, |ns|, |ar|), QuestionBytes(question),
                  EncodeAll(an), EncodeAll(ns), EncodeAll(ar))
  {
    hide Stand, EncodeAll, Header, Glue, QuestionCount, QuestionBytes;
    PartsAt(Header(id, flags, QuestionCount(question), |an|, |ns|, |ar|), QuestionBytes(question),
            EncodeAll(an), EncodeAll(ns), EncodeAll(ar));
  }

  /** Where the parts of a frame stand. */
  lemma FrameParts(msg: Bytes, id: nat, flags: nat, question: Option<Bytes>, an: seq<WireRR>, ns: seq<WireRR>, ar: seq<WireRR>)
    returns (body: nat)
    requires msg == Frame(id, flags, question, an, ns, ar) && IsQuestion(question)
    ensures |msg| >= 12 && GetU16(msg, 0) == id % 65536 && GetU16(msg, 2) == flags % 65536
    ensures GetU16(msg, 6) == |an| % 65536 && GetU16(msg, 8) == |ns| % 65536 && GetU16(msg, 10) == |ar| % 65536
    ensures SkipQuestions(msg, 12, GetU16(msg, 4)) == Ok(body)
    ensures At(msg, body, EncodeAll(an)) && At(msg, body + |EncodeAll(an)|, EncodeAll(ns))
    ensures At(msg, body + |EncodeAll(an)| + |EncodeAll(ns)|, EncodeAll(ar))
  {
    hide At, EncodeAll, Header, GetU16, SkipQuestions, IsQuestion, Frame;
    FrameShape(msg, id, flags, question, an, ns, ar);
    HeaderRead(msg, id, flags, QuestionCount(question), |an|, |ns|, |ar|);
    QuestionSkipped(msg, question);
    body := 12 + |QuestionBytes(question)|;
  }

  /** The message the client should see. */
  ghost function Expected(id: nat, flags: nat, an: seq<WireRR>, ns: seq<WireRR>, ar: seq<WireRR>): (m: DnsMessage) {
    DnsMessage(id % 65536, flags % 65536, flags % 16, Views(an), Views(ns), Others(Views(ar)), HasOpt(Views(ar)), HasDo(Views(ar)))
  }

  lemma FrameRead(id: nat, flags: nat, question: Option<Bytes>, an: seq<WireRR>, ns: seq<WireRR>, ar: seq<WireRR>)
    requires IsQuestion(question) && AllFit(an) && AllFit(ns) && AllFit(ar)
    requires |an| < 65536 && |ns| < 65536 && |ar| < 65536
    ensures ReadMessage(Frame(id, flags, question, an, ns, ar)) == Ok(Expected(id, flags, an, ns, ar))
  {
    hide At, Frame, IsQuestion, AllFit, SkipQuestions, ReadSection, EncodeAll, Views, Others, HasOpt, HasDo, GetU16;
    var msg := Frame(id, flags, question, an, ns, ar);
    var body := FrameParts(msg, id, flags, question, an, ns, ar);
    SectionWritten(msg, body, an);
    SectionWritten(msg, body + |EncodeAll(an)|, ns);
    SectionWritten(msg, body + |EncodeAll(an)| + |EncodeAll(ns)|, ar);
  }

  lemma {:induction false} OthersAfter(head: Parsed, ps: seq<Parsed>)
    ensures Others([head] + ps) == (if head.rtype == OPT then [] else [head]) + Others(ps)
    decreases |ps|
  {
    var all := [head] + ps;
    if ps == [] {
      assert all == [head] && all[..0] == [];
    } else {
      assert all[..|all| - 1] == [head] + ps[..|ps| - 1];
      OthersAfter(head, ps[..|ps| - 1]);
    }
  }

  lemma {:induction false} OthersShorter(ps: seq<Parsed>)
    ensures |Others(ps)| <= |ps|
  {
    if ps != [] {
      OthersShorter(ps[..|ps| - 1]);
    }
  }

  lemma {:induction false} OthersAll(ps: seq<Parsed>)
    requires forall i :: 0 <= i < |ps| ==> ps[i].rtype != OPT
    ensures Others(ps) == ps
  {
    if ps != [] {
      OthersAll(ps[..|ps| - 1]);
    }
  }

  /** What is read as the first record, if it is not the right one, shows up as a wrong record: it is no OPT. */
  lemma FirstMisread(msg: Bytes, off: nat, w: WireRR)
    requires At(msg, off, EncodeRR(w)) && Named(w) && w.rtype != OPT && w.rtype < 0x2900 && ReadRR(msg, off).Ok?
    ensures ReadRR(msg, off).value.0.rtype != OPT
  {
    hide At, ReadName, Dotted, GetU32, GetU16, EncodeFields, NameWire;
    if w.labels == [[]] {
      RootShifts(msg, off, w);
    } else {
      AtConcat(msg, off, NameWire(w.labels), EncodeFields(w) + w.rdata);
      ReadWritten(msg, off, w.labels, MAX_JUMPS);
      FieldsWritten(msg, off + |NameWire(w.labels)|, w);
    }
  }

  /** The leading records that are no OPT, when the records kept are the right ones. */
  lemma {:induction false} OthersExact(msg: Bytes, off: nat, ws: seq<WireRR>, k: nat)
    requires At(msg, off, EncodeAll(ws)) && AllNamed(ws) && k <= |ws|
    requires forall i :: 0 <= i < k ==> ws[i].rtype != OPT && ws[i].rtype < 0x2900
    requires ReadSection(msg, off, |ws|).Ok? && Others(ReadSection(msg, off, |ws|).value.0) == Others(Views(ws))
    ensures AllFit(ws[..k])
    decreases k
  {
    hide At, EncodeRR, ReadRR, Fits, Others, Dotted;
    if k > 0 {
      var w, rest := ws[0], ws[1..];
      AtConcat(msg, off, EncodeRR(w), EncodeAll(rest));
      var (head, next) := ReadRR(msg, off).value;
      var tail := ReadSection(msg, next, |ws| - 1).value.0;
      assert Views(ws) == [View(w)] + Views(rest);
      OthersAfter(head, tail);
      OthersAfter(View(w), Views(rest));
      FirstMisread(msg, off, w);
      assert ([head] + Others(tail))[0] == head && ([View(w)] + Others(Views(rest)))[0] == View(w);
      RecordExact(msg, off, w);
      RecordWritten(msg, off, w);
      assert ([head] + Others(tail))[1..] == Others(tail) && ([View(w)] + Others(Views(rest)))[1..] == Others(Views(rest));
      OthersExact(msg, off + |EncodeRR(w)|, rest, k - 1);
      assert ws[..k] == [w] + rest[..k - 1];
    }
  }

  // ----- responses

  /** What the client should see of the records of the zone. */
  function Seen(rs: seq<RR>): (ps: seq<Parsed>)
    ensures |ps| == |rs|
  {
    seq(|rs|, i requires 0 <= i < |rs| =>
      Parsed(Fqdn(rs[i].name), WireType(rs[i].rtype), rs[i].ttl % 0x1_0000_0000, Payload(rs[i].opts)))
  }

  /** A record a message can carry: not owned by the root, payload length in 16 bits. */
  predicate Carries(rs: seq<RR>) {
    forall i :: 0 <= i < |rs| ==> rs[i].name != [] && |Payload(rs[i].opts)| < 65536
  }

  function OptPart(opt: Option<(bool, byte)>): (ws: seq<WireRR>) {
    match opt
    case None => []
    case Some((doBit, extRcode)) => [OptRR(doBit, extRcode)]
  }

  lemma SeenIsViews(rs: seq<RR>)
    ensures Views(AllOnWire(rs)) == Seen(rs)
  {
    forall i | 0 <= i < |rs|
      ensures View(OnWire(rs[i])) == Seen(rs)[i]
    {
      DottedSpelled(rs[i].name);
    }
  }

  lemma DottedSpelled(n: Name)
    ensures Dotted(SpelledLabels(n)) == Fqdn(n)
  {
    DotEachText(n);
    if n == [] {
      var root: seq<Bytes> := [[]];
      assert root[0] == [] && root[1..] == [];
      assert DotEach(root) == [] + [DOT] + DotEach(root[1..]);
    }
  }

  lemma WireTypeRange(t: RRType)
    ensures 0 < WireType(t) < 0x2900 && WireType(t) != OPT
  {
  }

  lemma NamedOnWire(rs: seq<RR>)
    ensures AllNamed(AllOnWire(rs)) && (AllFit(AllOnWire(rs)) <==> Carries(rs))
    ensures forall i :: 0 <= i < |rs| ==> AllOnWire(rs)[i].rtype != OPT && AllOnWire(rs)[i].rtype < 0x2900
  {
    hide WireType, Payload;
    forall i | 0 <= i < |rs|
      ensures Named(AllOnWire(rs)[i]) && AllOnWire(rs)[i].rtype != OPT && AllOnWire(rs)[i].rtype < 0x2900
      ensures Fits(AllOnWire(rs)[i]) <==> rs[i].name != [] && |Payload(rs[i].opts)| < 65536
    {
      WireTypeRange(rs[i].rtype);
      FitsOnWire(rs[i]);
    }
    hide OnWire, AllOnWire, Named, Fits;
  }

  lemma FitsOnWire(r: RR)
    ensures WireLabels(SpelledLabels(r.name)) <==> r.name != []
  {
    if r.name == [] {
      assert SpelledLabels(r.name)[0] == [];
    } else {
      NameLabels(r.name);
    }
  }

  /** A response, with or without the OPT record of `AppendOPT`. */
  ghost function ReplyBytes(txid: nat, queryFlags: nat, question: Option<Bytes>, answers: seq<RR>, additional: seq<RR>,
                       authority: seq<RR>, rcode: nat, opt: Option<(bool, byte)>): (msg: Bytes) {
    Frame(txid, ResponseFlags(queryFlags, rcode), question,
          AllOnWire(answers), AllOnWire(authority), AllOnWire(additional) + OptPart(opt))
  }

  /** The message that recovers everything: id, flags, three sections in order, OPT and DO state. */
  ghost function Recovered(txid: nat, queryFlags: nat, answers: seq<RR>, additional: seq<RR>, authority: seq<RR>, rcode: nat,
                           opt: Option<(bool, byte)>): (m: DnsMessage) {
    DnsMessage(txid % 65536, ResponseFlags(queryFlags, rcode), rcode % 16, Seen(answers), Seen(authority), Seen(additional),
            opt.Some?, opt.Some? && opt.value.0)
  }

  /** What a message has room for. */
  ghost predicate HasRoom(answers: seq<RR>, additional: seq<RR>, authority: seq<RR>, opt: Option<(bool, byte)>) {
    && Carries(answers) && Carries(authority) && Carries(additional)
    && |answers| < 65536 && |authority| < 65536 && |additional| + |OptPart(opt)| < 65536
  }

  /** The methods of the server, put together, write the reply. */
  method WriteReply(txid: nat, queryFlags: nat, question: Option<Bytes>, answers: seq<RR>, additional: seq<RR>,
                    authority: seq<RR>, rcode: nat, opt: Option<(bool, byte)>) returns (msg: Bytes)
    ensures msg == ReplyBytes(txid, queryFlags, question, answers, additional, authority, rcode, opt)
  {
    msg := BuildResponse(txid, queryFlags, question, answers, additional, authority, rcode);
    ghost var flags, an, ns, ar := ResponseFlags(queryFlags, rcode), AllOnWire(answers), AllOnWire(authority), AllOnWire(additional);
    hide Frame, ResponseFlags, AllOnWire, EncodeRR, U16, GetU16, OptRR;
    if opt.None? {
      assert ar + [] == ar;
    } else {
      OptOnFrame(txid, flags, question, an, ns, ar, OptRR(opt.value.0, opt.value.1));
      msg := AppendOPT(msg, opt.value.0, opt.value.1);
    }
  }

  lemma OptView(doBit: bool, extRcode: byte)
    ensures var w := OptRR(doBit, extRcode);
      Fits(w) && Named(w) && View(w).rtype == OPT && (View(w).ttl / DO_BIT % 2 == 1 <==> doBit)
  {
    var ttl := extRcode as int * 0x100_0000 + (if doBit then DO_BIT else 0);
    assert ttl % 0x1_0000_0000 == ttl;
    DivUnique(ttl, DO_BIT, extRcode as int * 512 + (if doBit then 1 else 0), 0);
  }

  lemma OptLast(plain: seq<Parsed>, last: Parsed)
    requires forall i :: 0 <= i < |plain| ==> plain[i].rtype != OPT
    ensures Others(plain) == plain && !HasOpt(plain) && !HasDo(plain)
    ensures last.rtype == OPT ==> Others(plain + [last]) == plain && HasOpt(plain + [last])
    ensures last.rtype == OPT ==> (HasDo(plain + [last]) <==> last.ttl / DO_BIT % 2 == 1)
  {
    OthersAll(plain);
    var ps := plain + [last];
    assert ps[..|ps| - 1] == plain && ps[|plain|] == last;
  }

  lemma PlainSeen(rs: seq<RR>)
    ensures forall i :: 0 <= i < |rs| ==> Seen(rs)[i].rtype != OPT
  {
    hide WireType, Payload, Fqdn;
    forall i | 0 <= i < |rs|
      ensures Seen(rs)[i].rtype != OPT
    {
      WireTypeRange(rs[i].rtype);
    }
  }

  lemma ViewsAppend(ws: seq<WireRR>, w: WireRR)
    ensures Views(ws + [w]) == Views(ws) + [View(w)]
  {
    hide View;
  }

  /** The additional section with its OPT record, sorted out. */
  lemma AdditionalSeen(additional: seq<RR>, opt: Option<(bool, byte)>)
    ensures var ps := Views(AllOnWire(additional) + OptPart(opt));
      && Others(ps) == Seen(additional)
      && HasOpt(ps) == opt.Some? && HasDo(ps) == (opt.Some? && opt.value.0)
  {
    hide AllOnWire, Seen, View, Views, OptRR, Fits, Named, Others, HasOpt, HasDo;
    SeenIsViews(additional);
    PlainSeen(additional);
    var ws := AllOnWire(additional);
    if opt.Some? {
      var w := OptRR(opt.value.0, opt.value.1);
      OptView(opt.value.0, opt.value.1);
      ViewsAppend(ws, w);
      OptLast(Seen(additional), View(w));
    } else {
      assert ws + [] == ws;
      OptLast(Seen(additional), View(OptRR(false, 0)));
    }
  }

  lemma AllFitConcat(a: seq<WireRR>, b: seq<WireRR>)
    requires AllFit(a) && AllFit(b)
    ensures AllFit(a + b)
  {
    hide Fits;
  }

  lemma AllNamedConcat(a: seq<WireRR>, b: seq<WireRR>)
    requires AllNamed(a) && AllNamed(b)
    ensures AllNamed(a + b)
  {
    hide Named;
  }

  lemma OptPartFits(opt: Option<(bool, byte)>)
    ensures AllFit(OptPart(opt)) && AllNamed(OptPart(opt)) && |OptPart(opt)| == if opt.Some? then 1 else 0
  {
    hide OptRR, Fits, Named;
    if opt.Some? {
      OptView(opt.value.0, opt.value.1);
    }
  }

  lemma ReplyRead(txid: nat, queryFlags: nat, question: Option<Bytes>, answers: seq<RR>, additional: seq<RR>,
                  authority: seq<RR>, rcode: nat, opt: Option<(bool, byte)>)
    requires IsQuestion(question) && HasRoom(answers, additional, authority, opt)
    ensures ReadMessage(ReplyBytes(txid, queryFlags, question, answers, additional, authority, rcode, opt)) ==
            Ok(Recovered(txid, queryFlags, answers, additional, authority, rcode, opt))
  {
    var flags := ResponseFlags(queryFlags, rcode);
    hide ReadMessage, Frame, IsQuestion, AllFit, AllNamed, Carries, AllOnWire, Seen, Views, Others, HasOpt, HasDo,
         ResponseFlags, OptPart;
    NamedOnWire(answers);
    NamedOnWire(authority);
    NamedOnWire(additional);
    OptPartFits(opt);
    AllFitConcat(AllOnWire(additional), OptPart(opt));
    SeenIsViews(answers);
    SeenIsViews(authority);
    AdditionalSeen(additional, opt);
    FrameRead(txid, flags, question, AllOnWire(answers), AllOnWire(authority), AllOnWire(additional) + OptPart(opt));
  }

  /** The sections of a message that reads as `m` are sections of the right records. */
  lemma FrameSections(msg: Bytes, id: nat, flags: nat, question: Option<Bytes>, an: seq<WireRR>, ns: seq<WireRR>, ar: seq<WireRR>, k: nat)
    requires msg == Frame(id, flags, question, an, ns, ar) && IsQuestion(question)
    requires AllNamed(an) && AllNamed(ns) && AllNamed(ar) && k <= |ar| <= k + 1 && |Others(Views(ar))| == k
    requires forall i :: 0 <= i < k ==> ar[i].rtype != OPT && ar[i].rtype < 0x2900
    requires ReadMessage(msg).Ok?
    requires ReadMessage(msg).value.answers == Views(an) && ReadMessage(msg).value.authority == Views(ns)
    requires ReadMessage(msg).value.additional == Others(Views(ar))
    ensures |an| < 65536 && |ns| < 65536 && |ar| < 65536
    ensures AllFit(an) && AllFit(ns) && AllFit(ar[..k])
  {
    hide At, Frame, IsQuestion, AllFit, AllNamed, SkipQuestions, ReadSection, EncodeAll, Views, Others, HasOpt, HasDo,
         GetU16;
    var body := FrameParts(msg, id, flags, question, an, ns, ar);
    SectionExact(msg, body, an);
    SectionWritten(msg, body, an);
    var body2 := body + |EncodeAll(an)|;
    SectionExact(msg, body2, ns);
    SectionWritten(msg, body2, ns);
    var body3 := body2 + |EncodeAll(ns)|;
    var read := ReadSection(msg, body3, |ar| % 65536).value.0;
    OthersShorter(read);
    OthersExact(msg, body3, ar, k);
  }

  /**
   The client recovers everything if and only if the message has room: owners other than the root, payload lengths
   and section counts, the OPT record included, in 16 bits.
   */
  lemma ClientReadsReply(txid: nat, queryFlags: nat, question: Option<Bytes>, answers: seq<RR>, additional: seq<RR>,
                         authority: seq<RR>, rcode: nat, opt: Option<(bool, byte)>)
    requires IsQuestion(question)
    ensures ReadMessage(ReplyBytes(txid, queryFlags, question, answers, additional, authority, rcode, opt)) ==
            Ok(Recovered(txid, queryFlags, answers, additional, authority, rcode, opt)) <==>
            HasRoom(answers, additional, authority, opt)
  {
    var msg := ReplyBytes(txid, queryFlags, question, answers, additional, authority, rcode, opt);
    hide ReadMessage, Frame, IsQuestion, AllFit, AllNamed, Carries, AllOnWire, Seen, Views, Others, HasOpt, HasDo,
         ResponseFlags, OptPart;
    if HasRoom(answers, additional, authority, opt) {
      ReplyRead(txid, queryFlags, question, answers, additional, authority, rcode, opt);
    }
    if ReadMessage(msg) == Ok(Recovered(txid, queryFlags, answers, additional, authority, rcode, opt)) {
      NamedOnWire(answers);
      NamedOnWire(authority);
      NamedOnWire(additional);
      OptPartFits(opt);
      AllNamedConcat(AllOnWire(additional), OptPart(opt));
      SeenIsViews(answers);
      SeenIsViews(authority);
      AdditionalSeen(additional, opt);
      var ar := AllOnWire(additional) + OptPart(opt);
      assert ar[..|additional|] == AllOnWire(additional);
      FrameSections(msg, txid, ResponseFlags(queryFlags, rcode), question, AllOnWire(answers), AllOnWire(authority), ar, |additional|);
    }
  }
}
