/** Reading names off a message: labels, the root label, compression pointers (section 4.1.4 of RFC 1035). */
module NameReader {
  import opened Bytes
  import opened Names

  datatype WireError = TooShort | BadName

  const MAX_JUMPS: nat := 128

  /** The piece stands in the message at the offset. */
  ghost predicate At(msg: Bytes, off: nat, piece: Bytes) {
    off + |piece| <= |msg| && msg[off..off + |piece|] == piece
  }

  lemma AtConcat(msg: Bytes, off: nat, a: Bytes, b: Bytes)
    requires At(msg, off, a + b)
    ensures At(msg, off, a) && At(msg, off + |a|, b)
  {
    var s := msg[off..off + |a + b|];
    assert s[..|a|] == a && s[|a|..] == b;
    assert msg[off..off + |a|] == s[..|a|] && msg[off + |a|..off + |a| + |b|] == s[|a|..];
  }

  lemma AtJoin(msg: Bytes, off: nat, a: Bytes, b: Bytes)
    requires At(msg, off, a) && At(msg, off + |a|, b)
    ensures At(msg, off, a + b)
  {
    assert msg[off..off + |a| + |b|] == msg[off..off + |a|] + msg[off + |a|..off + |a| + |b|];
  }

  lemma AtByte(msg: Bytes, off: nat, b: byte)
    requires At(msg, off, [b])
    ensures off < |msg| && msg[off] == b
  {
    assert msg[off] == msg[off..off + 1][0];
  }

  lemma AtU16(msg: Bytes, off: nat, n: int)
    requires At(msg, off, U16(n))
    ensures off + 2 <= |msg| && GetU16(msg, off) == n % 65536
  {
    var s := msg[off..off + 2];
    assert msg[off] == s[0] && msg[off + 1] == s[1];
  }

  lemma AtU32(msg: Bytes, off: nat, n: int)
    requires At(msg, off, U32(n))
    ensures off + 4 <= |msg| && GetU32(msg, off) == n % 0x1_0000_0000
  {
    hide At, U16, GetU16;
    AtConcat(msg, off, U16(n / 65536), U16(n));
    AtU16(msg, off, n / 65536);
    AtU16(msg, off + 2, n);
    Halves(n);
  }

  /** Labels as they can stand on the wire. */
  predicate WireLabels(labels: seq<Bytes>) {
    forall i :: 0 <= i < |labels| ==> 0 < |labels[i]| <= 63
  }

  function NameWire(labels: seq<Bytes>): (w: Bytes)
    ensures |w| >= 1
  {
    LabelWire(labels) + [0]
  }

  /** The labels of a name fit the wire, and its wire form is the one above. */
  lemma NameLabels(n: Name)
    ensures WireLabels(n) && Wire(n) == NameWire(n)
  {
    forall i | 0 <= i < |n|
      ensures 0 < |n[i]| <= 63
    {
      assert ValidLabel(n[i]);
    }
  }

  /** `strings.Join(labels, ".") + "."`; "." for no labels. */
  function Dotted(labels: seq<Bytes>): (t: Bytes) {
    if |labels| == 0 then [DOT] else DotEach(labels)
  }

  function DotEach(labels: seq<Bytes>): (t: Bytes) {
    if labels == [] then [] else labels[0] + [DOT] + DotEach(labels[1..])
  }

  lemma {:induction false} DotEachText(n: Name)
    ensures DotEach(n) == Text(n)
  {
    if n != [] {
      DotEachText(n[1..]);
    }
  }

  lemma {:induction false} DotEachConcat(a: seq<Bytes>, b: seq<Bytes>)
    ensures DotEach(a + b) == DotEach(a) + DotEach(b)
  {
    if a == [] {
      assert a + b == b;
    } else {
      assert (a + b)[1..] == a[1..] + b;
      DotEachConcat(a[1..], b);
    }
  }

  /** The labels joined by dots, without the last dot. */
  ghost predicate Joined(name: Bytes, labels: seq<Bytes>) {
    if labels == [] then name == [] else name != [] && name + [DOT] == DotEach(labels)
  }

  lemma JoinLabel(name: Bytes, labels: seq<Bytes>, l: Bytes)
    requires Joined(name, labels) && l != []
    ensures Joined((if |name| > 0 then name + [DOT] else name) + l, labels + [l])
  {
    DotEachConcat(labels, [l]);
    var one := [l];
    assert one[1..] == [];
    assert DotEach(one) == l + [DOT] + DotEach(one[1..]);
    if labels != [] {
      assert name + [DOT] + l + [DOT] == name + [DOT] + (l + [DOT]);
    }
  }

  lemma JoinedEnd(name: Bytes, labels: seq<Bytes>)
    requires Joined(name, labels)
    ensures name + [DOT] == Dotted(labels) && labels + [] == labels
  {
  }

  function Pointer(msg: Bytes, off: nat): (target: nat)
    requires off + 2 <= |msg|
  {
    GetU16(msg, off) % 16384
  }

  /** The labels of the name at `off` when at most `jumps` pointers may be followed, and the offset behind it. */
  function ReadName(msg: Bytes, off: nat, jumps: nat): (r: Option<(seq<Bytes>, nat)>)
    ensures r.Some? ==> off < r.value.1 <= |msg| && WireLabels(r.value.0)
    decreases jumps, |msg| - off
  {
    if off >= |msg| then None
    else if msg[off] == 0 then Some(([], off + 1))
    else if msg[off] >= 192 then
      if off + 1 >= |msg| || jumps == 0 then None
      else match ReadName(msg, Pointer(msg, off), jumps - 1)
        case None => None
        case Some((labels, _)) => Some((labels, off + 2))
    else if msg[off] >= 64 || off + 1 + msg[off] as int > |msg| then None
    else match ReadName(msg, off + 1 + msg[off] as int, jumps)
      case None => None
      case Some((labels, next)) => Some(([msg[off + 1..off + 1 + msg[off] as int]] + labels, next))
  }

  lemma {:induction false} MoreJumps(msg: Bytes, off: nat, jumps: nat)
    ensures ReadName(msg, off, jumps).Some? ==> ReadName(msg, off, jumps + 1) == ReadName(msg, off, jumps)
    decreases jumps, |msg| - off
  {
    if off < |msg| && msg[off] != 0 {
      if msg[off] >= 192 {
        if off + 1 < |msg| && jumps > 0 {
          MoreJumps(msg, Pointer(msg, off), jumps - 1);
        }
      } else if msg[off] < 64 && off + 1 + msg[off] as int <= |msg| {
        MoreJumps(msg, off + 1 + msg[off] as int, jumps);
      }
    }
  }

  /** `off` is read whenever `v` is: it was reached from there. */
  ghost predicate Leads(msg: Bytes, v: nat, off: nat) {
    forall j: nat :: ReadName(msg, v, j).Some? ==> ReadName(msg, off, j).Some?
  }

  lemma LeadsSelf(msg: Bytes, v: nat)
    ensures Leads(msg, v, v)
  {
  }

  lemma LeadsLabel(msg: Bytes, v: nat, off: nat)
    requires Leads(msg, v, off) && off < |msg| && 0 < msg[off] < 64 && off + 1 + msg[off] as int <= |msg|
    ensures Leads(msg, v, off + 1 + msg[off] as int)
  {
    forall j: nat | ReadName(msg, v, j).Some?
      ensures ReadName(msg, off + 1 + msg[off] as int, j).Some?
    {
      assert ReadName(msg, off, j).Some?;
    }
  }

  lemma LeadsPointer(msg: Bytes, v: nat, off: nat)
    requires Leads(msg, v, off) && off + 1 < |msg| && msg[off] >= 192
    ensures Leads(msg, v, Pointer(msg, off))
  {
    forall j: nat | ReadName(msg, v, j).Some?
      ensures ReadName(msg, Pointer(msg, off), j).Some?
    {
      assert ReadName(msg, off, j).Some?;
      MoreJumps(msg, Pointer(msg, off), j - 1);
    }
  }

  /** A pointer back to where the reader came from is never resolved, however many jumps are allowed. */
  lemma {:induction false} BackPointer(msg: Bytes, off: nat, jumps: nat)
    requires off + 1 < |msg| && msg[off] >= 192 && Leads(msg, Pointer(msg, off), off)
    ensures ReadName(msg, off, jumps).None?
  {
    if jumps > 0 {
      var j: nat := jumps - 1;
      assert ReadName(msg, Pointer(msg, off), j).Some? ==> ReadName(msg, off, j).Some?;
      BackPointer(msg, off, j);
    }
  }

  /** The rest of a name behind the labels read so far; `end` is the offset behind the first pointer, or -1. */
  function Resume(labels: seq<Bytes>, end: int, rest: Option<(seq<Bytes>, nat)>): (r: Option<(seq<Bytes>, nat)>)
    requires end >= -1
  {
    match rest
    case None => None
    case Some((more, next)) => Some((labels + more, if end == -1 then next else end))
  }

  lemma ReadStep(msg: Bytes, off: nat, jumps: nat)
    ensures off >= |msg| ==> ReadName(msg, off, jumps) == None
    ensures off < |msg| && msg[off] == 0 ==> ReadName(msg, off, jumps) == Some(([], off + 1))
    ensures off < |msg| && msg[off] >= 192 ==>
      ReadName(msg, off, jumps) ==
      if off + 1 >= |msg| || jumps == 0 then None else Resume([], off + 2, ReadName(msg, Pointer(msg, off), jumps - 1))
    ensures off < |msg| && (64 <= msg[off] < 192 || (0 < msg[off] < 64 && off + 1 + msg[off] as int > |msg|)) ==>
      ReadName(msg, off, jumps) == None
    ensures off < |msg| && 0 < msg[off] < 64 && off + 1 + msg[off] as int <= |msg| ==>
      ReadName(msg, off, jumps) ==
      Resume([msg[off + 1..off + 1 + msg[off] as int]], -1, ReadName(msg, off + 1 + msg[off] as int, jumps))
  {
    if off + 1 < |msg| && msg[off] >= 192 && jumps > 0 {
      ResumeStart(ReadName(msg, Pointer(msg, off), jumps - 1));
    }
  }

  lemma ResumePointer(labels: seq<Bytes>, end: int, behind: nat, rest: Option<(seq<Bytes>, nat)>)
    requires end >= -1
    ensures Resume(labels, end, Resume([], behind, rest)) == Resume(labels, if end == -1 then behind else end, rest)
  {
    if rest.Some? {
      assert [] + rest.value.0 == rest.value.0;
    }
  }

  lemma ResumeEnd(labels: seq<Bytes>, end: int, next: nat)
    requires end >= -1
    ensures Resume(labels, end, None) == None
    ensures Resume(labels, end, Some(([], next))) == Some((labels, if end == -1 then next else end))
  {
    assert labels + [] == labels;
  }

  /** The client's `parseName`: the set of visited targets never changes a result, only how soon a loop is reported. */
  method ParseName(msg: Bytes, start: nat) returns (r: Result<(Bytes, nat), WireError>)
    ensures var name := ReadName(msg, start, MAX_JUMPS);
      r == if name.None? then Err(BadName) else Ok((Dotted(name.value.0), name.value.1))
  {
    var labels: seq<Bytes> := [];
    var off: nat, end, jumps: nat := start, -1, MAX_JUMPS;
    var visited: set<nat> := {};
    ResumeStart(ReadName(msg, start, MAX_JUMPS));
    hide ReadName, Resume, Leads, Pointer, Dotted;
    while true
      invariant end >= -1
      invariant forall v :: v in visited ==> Leads(msg, v, off)
      invariant Resume(labels, end, ReadName(msg, off, jumps)) == ReadName(msg, start, MAX_JUMPS)
      decreases jumps, |msg| - off
    {
      ReadStep(msg, off, jumps);
      ResumeEnd(labels, end, off + 1);
      if off >= |msg| {
        return Err(BadName);
      }
      var b := msg[off];
      if b == 0 {
        off := off + 1;
        break;
      }
      if b >= 192 {
        if off + 1 >= |msg| {
          return Err(BadName);
        }
        var target := Pointer(msg, off);
        if target in visited {
          BackPointer(msg, off, jumps);
        }
        if target in visited || jumps == 0 {
          return Err(BadName);
        }
        forall v | v in visited
          ensures Leads(msg, v, target)
        {
          LeadsPointer(msg, v, off);
        }
        ResumePointer(labels, end, off + 2, ReadName(msg, target, jumps - 1));
        LeadsSelf(msg, target);
        if end == -1 {
          end := off + 2;
        }
        visited := visited + {target};
        jumps := jumps - 1;
        off := target;
        continue;
      }
      if b >= 64 {
        return Err(BadName);
      }
      var len := b as int;
      if off + 1 + len > |msg| {
        return Err(BadName);
      }
      forall v | v in visited
        ensures Leads(msg, v, off + 1 + len)
      {
        LeadsLabel(msg, v, off);
      }
      ResumeLabel(labels, end, msg[off + 1..off + 1 + len], ReadName(msg, off + 1 + len, jumps));
      labels := labels + [msg[off + 1..off + 1 + len]];
      off := off + 1 + len;
    }
    r := Ok((Dotted(labels), if end != -1 then end else off));
  }

  lemma ResumeStart(rest: Option<(seq<Bytes>, nat)>)
    ensures Resume([], -1, rest) == rest
  {
    if rest.Some? {
      assert [] + rest.value.0 == rest.value.0;
    }
  }

  lemma ResumeLabel(labels: seq<Bytes>, end: int, l: Bytes, rest: Option<(seq<Bytes>, nat)>)
    requires end >= -1
    ensures Resume(labels + [l], end, rest) == Resume(labels, end, Resume([l], -1, rest))
  {
    if rest.Some? {
      Assoc(labels, [l], rest.value.0);
    }
  }

  /** What a writer put down uncompressed is read back, to its last octet, whatever stands around it. */
  lemma {:induction false} ReadWritten(msg: Bytes, off: nat, labels: seq<Bytes>, jumps: nat)
    requires WireLabels(labels) && At(msg, off, NameWire(labels))
    ensures ReadName(msg, off, jumps) == Some((labels, off + |NameWire(labels)|))
    decreases |labels|
  {
    if labels == [] {
      AtByte(msg, off, 0);
    } else {
      var l, rest := labels[0], labels[1..];
      WrittenFirst(msg, off, labels);
      ReadWritten(msg, off + 1 + |l|, rest, jumps);
      assert labels == [l] + rest;
    }
  }

  lemma WrittenFirst(msg: Bytes, off: nat, labels: seq<Bytes>)
    requires WireLabels(labels) && labels != [] && At(msg, off, NameWire(labels))
    ensures |NameWire(labels)| == 1 + |labels[0]| + |NameWire(labels[1..])|
    ensures off + 1 + |labels[0]| <= |msg| && msg[off] == |labels[0]| && msg[off + 1..off + 1 + |labels[0]|] == labels[0]
    ensures At(msg, off + 1 + |labels[0]|, NameWire(labels[1..]))
  {
    hide NameWire, At;
    var l, rest := labels[0], labels[1..];
    NameWireCons(labels);
    AtShort(msg, off, l, NameWire(rest));
  }

  lemma NameWireCons(labels: seq<Bytes>)
    requires labels != []
    ensures NameWire(labels) == [Byte(|labels[0]|)] + (labels[0] + NameWire(labels[1..]))
  {
  }

  lemma AtShort(msg: Bytes, off: nat, l: Bytes, rest: Bytes)
    requires |l| <= 63 && At(msg, off, [Byte(|l|)] + (l + rest))
    ensures off + 1 + |l| <= |msg| && msg[off] == |l| && msg[off + 1..off + 1 + |l|] == l && At(msg, off + 1 + |l|, rest)
  {
    AtConcat(msg, off, [Byte(|l|)], l + rest);
    AtByte(msg, off, Byte(|l|));
    AtConcat(msg, off + 1, l, rest);
  }
}
