/** Queries: what the client writes, what the server reads of the question and of EDNS. */
module Query {
  import opened Bytes
  import opened Names
  import opened NameReader
  import opened Message
  import opened MessageTheorems

  const MAX_QNAME: nat := 255

  datatype QueryError =
    | QueryTooShort | NoQuestion | MultipleQuestions | CompressionPointer | LabelTooLong | QNameTooLong
    | LabelBeyondMessage | Truncated

  datatype Request = Request(raw: Bytes, questionEnd: nat, opcode: nat, qname: Bytes, qtype: nat)

  datatype Edns = Edns(present: bool, doBit: bool, version: nat, udpSize: nat)

  const NO_EDNS := Edns(false, false, 0, 0)

  // ----- the client's query

  /** `strings.TrimSuffix(qname, ".")`. */
  function TrimDot(s: Bytes): (r: Bytes) {
    if |s| > 0 && s[|s| - 1] == DOT then s[..|s| - 1] else s
  }

  ghost function QueryBytes(id: nat, labels: seq<Bytes>, qtype: nat, edns: bool, doBit: bool): (b: Bytes) {
    Frame(id, 256, Some(NameWire(labels) + (U16(qtype) + U16(1))), [], [], OptPart(if edns then Some((doBit, 0)) else None))
  }

  /** The label loop of `buildQuery`. */
  method WriteQName(start: Bytes, labels: seq<Bytes>) returns (buf: Bytes)
    ensures buf == start + NameWire(labels)
  {
    buf := start;
    var i := 0;
    while i < |labels|
      invariant 0 <= i <= |labels|
      invariant buf == start + LabelWire(labels[..i])
    {
      assert labels[..i + 1] == labels[..i] + [labels[i]];
      LabelWireConcat(labels[..i], [labels[i]]);
      LabelWireOne(labels[i]);
      buf := buf + [Byte(|labels[i]|)];
      buf := buf + labels[i];
      i := i + 1;
    }
    assert labels[..i] == labels;
    buf := buf + [0];
  }

  /** `buildQuery`. */
  method BuildQuery(id: nat, qname: Bytes, qtype: nat, edns: bool, doBit: bool) returns (buf: Bytes)
    ensures buf == QueryBytes(id, Split(TrimDot(qname)), qtype, edns, doBit)
  {
    hide U16, Split, TrimDot, NameWire;
    var arcount := if edns then 1 else 0;
    buf := U16(id);
    buf := buf + U16(256);
    buf := buf + U16(1);
    buf := buf + U16(0);
    buf := buf + U16(0);
    buf := buf + U16(arcount);
    ghost var header := Header(id, 256, 1, 0, 0, arcount);
    assert buf == header;
    var labels := Split(TrimDot(qname));
    buf := WriteQName(buf, labels);
    buf := buf + U16(qtype);
    buf := buf + U16(1);
    ghost var question := NameWire(labels) + (U16(qtype) + U16(1));
    assert buf == header + question;
    hide Frame, Header, EncodeRR, OptRR;
    QueryFrame(id, question, if edns then Some((doBit, 0)) else None);
    if edns {
      buf := WriteOPT(buf, doBit, 0);
    }
  }

  lemma LabelWireOne(l: Bytes)
    ensures LabelWire([l]) == [Byte(|l|)] + l
  {
    var one := [l];
    assert one[1..] == [];
    assert [Byte(|l|)] + l + LabelWire(one[1..]) == [Byte(|l|)] + l;
  }

  lemma QueryFrame(id: nat, question: Bytes, opt: Option<(bool, byte)>)
    ensures Frame(id, 256, Some(question), [], [], OptPart(opt)) ==
      Header(id, 256, 1, 0, 0, |OptPart(opt)|) + question + (if opt.Some? then EncodeRR(OptRR(opt.value.0, opt.value.1)) else [])
  {
    hide Header, EncodeRR, OptRR;
    var header := Header(id, 256, 1, 0, 0, |OptPart(opt)|);
    assert EncodeAll([]) == [];
    if opt.Some? {
      var one := OptPart(opt);
      assert one[1..] == [];
      assert EncodeAll(one) == EncodeRR(one[0]) + EncodeAll([]);
    }
    hide EncodeAll;
    FiveParts(header, question, [], [], EncodeAll(OptPart(opt)));
    assert header + question + [] + [] == header + question;
  }

  // ----- the server's view of the question

  /** The labels of the queried name at `pos`, of which `wireLen` octets have been read before. */
  function ReadQName(msg: Bytes, pos: nat, wireLen: nat): (r: Result<(seq<Bytes>, nat), QueryError>)
    decreases |msg| - pos
  {
    if pos >= |msg| then Ok(([], pos))
    else if msg[pos] == 0 then
      if wireLen + 1 > MAX_QNAME then Err(QNameTooLong) else Ok(([], pos + 1))
    else if msg[pos] >= 192 then Err(CompressionPointer)
    else if msg[pos] > 63 then Err(LabelTooLong)
    else
      var len := msg[pos] as int;
      if wireLen + 1 + len > MAX_QNAME then Err(QNameTooLong)
      else if pos + 1 + len > |msg| then Err(LabelBeyondMessage)
      else match ReadQName(msg, pos + 1 + len, wireLen + 1 + len)
        case Err(e) => Err(e)
        case Ok((labels, end)) => Ok(([msg[pos + 1..pos + 1 + len]] + labels, end))
  }

  function ReadQuery(msg: Bytes): (r: Result<Request, QueryError>) {
    if |msg| < 12 then Err(QueryTooShort)
    else if GetU16(msg, 4) == 0 then Err(NoQuestion)
    else if GetU16(msg, 4) > 1 then Err(MultipleQuestions)
    else match ReadQName(msg, 12, 0)
      case Err(e) => Err(e)
      case Ok((labels, pos)) =>
        if pos + 4 > |msg| then Err(Truncated)
        else Ok(Request(msg, pos + 4, GetU16(msg, 2) / 2048 % 16, Dotted(labels), GetU16(msg, pos)))
  }

  function AfterLabels(labels: seq<Bytes>, rest: Result<(seq<Bytes>, nat), QueryError>): (r: Result<(seq<Bytes>, nat), QueryError>) {
    match rest
    case Err(e) => Err(e)
    case Ok((more, end)) => Ok((labels + more, end))
  }

  lemma AfterStep(labels: seq<Bytes>, l: Bytes, rest: Result<(seq<Bytes>, nat), QueryError>)
    ensures AfterLabels(labels + [l], rest) == AfterLabels(labels, AfterLabels([l], rest))
    ensures AfterLabels([], rest) == rest
  {
    if rest.Ok? {
      Assoc(labels, [l], rest.value.0);
      assert [] + rest.value.0 == rest.value.0;
    }
  }

  /** The loop of `New`. */
  method ParseQName(msg: Bytes) returns (r: Result<(Bytes, nat), QueryError>)
    requires |msg| >= 12
    ensures var name := ReadQName(msg, 12, 0);
      match r
      case Err(e) => name == Err(e)
      case Ok((text, end)) => name.Ok? && end == name.value.1 && text + [DOT] == Dotted(name.value.0)
  {
    var pos: nat, wireLen: nat := 12, 0;
    var name: Bytes := [];
    ghost var labels: seq<Bytes> := [];
    AfterStep([], [], ReadQName(msg, 12, 0));
    while pos < |msg|
      invariant 12 <= pos <= |msg| && Joined(name, labels)
      invariant AfterLabels(labels, ReadQName(msg, pos, wireLen)) == ReadQName(msg, 12, 0)
    {
      hide Joined;
      var labelByte := msg[pos] as int;
      if labelByte == 0 {
        wireLen := wireLen + 1;
        if wireLen > MAX_QNAME {
          return Err(QNameTooLong);
        }
        pos := pos + 1;
        JoinedEnd(name, labels);
        return Ok((name, pos));
      }
      if labelByte >= 192 {
        return Err(CompressionPointer);
      }
      var labelLen := labelByte;
      if labelLen > 63 {
        return Err(LabelTooLong);
      }
      wireLen := wireLen + 1 + labelLen;
      if wireLen > MAX_QNAME {
        return Err(QNameTooLong);
      }
      pos := pos + 1;
      if pos + labelLen > |msg| {
        return Err(LabelBeyondMessage);
      }
      JoinLabel(name, labels, msg[pos..pos + labelLen]);
      AfterStep(labels, msg[pos..pos + labelLen], ReadQName(msg, pos + labelLen, wireLen));
      if |name| > 0 {
        name := name + [DOT];
      }
      name := name + msg[pos..pos + labelLen];
      labels := labels + [msg[pos..pos + labelLen]];
      pos := pos + labelLen;
    }
    JoinedEnd(name, labels);
    r := Ok((name, pos));
  }

  /** `New`. */
  method ParseQuery(msg: Bytes) returns (r: Result<Request, QueryError>)
    ensures r == ReadQuery(msg)
  {
    hide ReadQName, Dotted;
    if |msg| < 12 {
      return Err(QueryTooShort);
    }
    var flags := GetU16(msg, 2);
    var opcode := flags / 2048 % 16;
    var qdcount := GetU16(msg, 4);
    if qdcount == 0 {
      return Err(NoQuestion);
    }
    if qdcount > 1 {
      return Err(MultipleQuestions);
    }
    var name := ParseQName(msg);
    if name.Err? {
      return Err(name.error);
    }
    var pos := name.value.1;
    if pos + 4 > |msg| {
      return Err(Truncated);
    }
    r := Ok(Request(msg, pos + 4, opcode, name.value.0 + [DOT], GetU16(msg, pos)));
  }

  // ----- EDNS

  function SkipName(msg: Bytes, pos: nat): (end: nat)
    ensures pos <= end
    decreases |msg| - pos
  {
    if pos >= |msg| then pos
    else if msg[pos] == 0 then pos + 1
    else if msg[pos] >= 192 then pos + 2
    else SkipName(msg, pos + 1 + msg[pos] as int)
  }

  method SkipNameAt(msg: Bytes, start: nat) returns (pos: nat)
    ensures pos == SkipName(msg, start)
  {
    pos := start;
    while pos < |msg|
      invariant SkipName(msg, pos) == SkipName(msg, start)
      decreases |msg| - pos
    {
      var length := msg[pos] as int;
      if length == 0 {
        return pos + 1;
      }
      if length >= 192 {
        return pos + 2;
      }
      pos := pos + 1 + length;
    }
  }

  /** The offset behind `count` records, if they are there. */
  function SkipRecords(msg: Bytes, pos: nat, count: nat): (r: Option<nat>)
    decreases count
  {
    if count == 0 || pos >= |msg| then Some(pos)
    else
      var p := SkipName(msg, pos);
      if p + 10 > |msg| then None else SkipRecords(msg, p + 10 + GetU16(msg, p + 8), count - 1)
  }

  function FindOPT(msg: Bytes, pos: nat, count: nat): (e: Edns)
    decreases count
  {
    if count == 0 || pos >= |msg| then NO_EDNS
    else
      var p := SkipName(msg, pos);
      if p + 10 > |msg| then NO_EDNS
      else if GetU16(msg, p) == OPT then
        Edns(true, GetU16(msg, p + 6) / DO_BIT % 2 == 1, msg[p + 5], GetU16(msg, p + 2))
      else FindOPT(msg, p + 10 + GetU16(msg, p + 8), count - 1)
  }

  function ReadEdns(msg: Bytes, pos: nat): (e: Edns) {
    if |msg| < 12 then NO_EDNS
    else match SkipRecords(msg, pos, GetU16(msg, 6) + GetU16(msg, 8))
      case None => NO_EDNS
      case Some(p) => FindOPT(msg, p, GetU16(msg, 10))
  }

  /** `parseOPT`. */
  method ParseOPT(msg: Bytes, start: nat) returns (e: Edns)
    ensures e == ReadEdns(msg, start)
  {
    hide SkipName;
    if |msg| < 12 {
      return NO_EDNS;
    }
    var pos: nat := start;
    var skipRRs, arCount := GetU16(msg, 6) + GetU16(msg, 8), GetU16(msg, 10);
    var i := 0;
    while i < skipRRs && pos < |msg|
      invariant 0 <= i <= skipRRs
      invariant SkipRecords(msg, pos, skipRRs - i) == SkipRecords(msg, start, skipRRs)
      decreases skipRRs - i
    {
      pos := SkipNameAt(msg, pos);
      if pos + 10 > |msg| {
        return NO_EDNS;
      }
      pos := pos + 10 + GetU16(msg, pos + 8);
      i := i + 1;
    }
    ghost var from := pos;
    i := 0;
    while i < arCount && pos < |msg|
      invariant 0 <= i <= arCount
      invariant FindOPT(msg, pos, arCount - i) == FindOPT(msg, from, arCount)
      decreases arCount - i
    {
      pos := SkipNameAt(msg, pos);
      if pos + 10 > |msg| {
        return NO_EDNS;
      }
      if GetU16(msg, pos) == OPT {
        return Edns(true, GetU16(msg, pos + 6) / DO_BIT % 2 != 0, msg[pos + 5], GetU16(msg, pos + 2));
      }
      pos := pos + 10 + GetU16(msg, pos + 8);
      i := i + 1;
    }
    e := NO_EDNS;
  }
}
