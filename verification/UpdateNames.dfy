/** Names in UPDATE messages: the parser with its pointer guard and its count of consumed octets, and the encoder. */
module UpdateNames {
  import opened Bytes
  import opened Names
  import opened NameReader

  /** Pointers are 14 bits wide, so this many distinct targets exist. */
  const TARGETS: nat := 16384

  // ----- the parser

  /** The counter at the root label. */
  function EndCount(offset: nat, consumed: nat, visited: nat): (n: nat)
    ensures n > 0
  {
    if consumed == 0 then 1 else if offset + consumed <= visited then visited - offset + 1 else consumed
  }

  /** The counter behind a label that ends at `end`. */
  function LabelCount(offset: nat, consumed: nat, end: nat): (n: nat)
    requires consumed > 0 || offset < end
    ensures n > 0
  {
    if consumed == 0 || offset + consumed <= end then end - offset + 1 else consumed
  }

  /** What the parser's counter ends at when it stands at `visited` with `consumed`. */
  function Consume(data: Bytes, offset: nat, visited: nat, consumed: nat, jumps: nat): (n: nat)
    requires ReadName(data, visited, jumps).Some? && (consumed > 0 || visited == offset)
    ensures n > 0
    decreases jumps, |data| - visited
  {
    if data[visited] == 0 then EndCount(offset, consumed, visited)
    else if data[visited] >= 192 then
      Consume(data, offset, Pointer(data, visited), if consumed == 0 then 2 else consumed, jumps - 1)
    else
      var end := visited + 1 + data[visited] as int;
      Consume(data, offset, end, LabelCount(offset, consumed, end), jumps)
  }

  /** The name at the offset, with as many jumps as there are targets, and the octets the parser claims for it. */
  function UpdateName(data: Bytes, offset: nat): (r: Option<(seq<Bytes>, nat)>)
    ensures r.Some? ==> r.value.1 > 0
  {
    match ReadName(data, offset, TARGETS)
    case None => None
    case Some((labels, _)) => Some((labels, Consume(data, offset, offset, 0, TARGETS)))
  }

  /** The labels of the rest of the name, behind the ones read. */
  function LabelsFrom(labels: seq<Bytes>, rest: Option<(seq<Bytes>, nat)>): (r: Option<seq<Bytes>>) {
    if rest.None? then None else Some(labels + rest.value.0)
  }

  lemma LabelsStep(labels: seq<Bytes>, data: Bytes, off: nat, jumps: nat)
    ensures off >= |data| ==> LabelsFrom(labels, ReadName(data, off, jumps)) == None
    ensures off < |data| && data[off] == 0 ==> LabelsFrom(labels, ReadName(data, off, jumps)) == Some(labels)
    ensures off < |data| && data[off] >= 192 ==>
      LabelsFrom(labels, ReadName(data, off, jumps)) ==
      if off + 1 >= |data| || jumps == 0 then None else LabelsFrom(labels, ReadName(data, Pointer(data, off), jumps - 1))
    ensures off < |data| && (64 <= data[off] < 192 || (0 < data[off] < 64 && off + 1 + data[off] as int > |data|)) ==>
      LabelsFrom(labels, ReadName(data, off, jumps)) == None
    ensures off < |data| && 0 < data[off] < 64 && off + 1 + data[off] as int <= |data| ==>
      LabelsFrom(labels, ReadName(data, off, jumps)) ==
      LabelsFrom(labels + [data[off + 1..off + 1 + data[off] as int]], ReadName(data, off + 1 + data[off] as int, jumps))
  {
    assert labels + [] == labels;
    if off < |data| && 0 < data[off] < 64 && off + 1 + data[off] as int <= |data| {
      var l, rest := data[off + 1..off + 1 + data[off] as int], ReadName(data, off + 1 + data[off] as int, jumps);
      if rest.Some? {
        Assoc(labels, [l], rest.value.0);
      }
    }
  }

  /** The parser's promise on its counter, as long as the rest of the name can be read. */
  ghost predicate CountsTo(data: Bytes, offset: nat, visited: nat, consumed: nat, jumps: nat) {
    && ReadName(data, visited, jumps).Some? == ReadName(data, offset, TARGETS).Some?
    && (consumed > 0 || visited == offset)
    && (ReadName(data, visited, jumps).Some? ==>
          Consume(data, offset, visited, consumed, jumps) == Consume(data, offset, offset, 0, TARGETS))
  }

  lemma CountsAtRoot(data: Bytes, offset: nat, visited: nat, consumed: nat, jumps: nat)
    requires CountsTo(data, offset, visited, consumed, jumps) && visited < |data| && data[visited] == 0
    ensures ReadName(data, offset, TARGETS).Some?
    ensures Consume(data, offset, offset, 0, TARGETS) == EndCount(offset, consumed, visited)
  {
  }

  lemma CountsAtPointer(data: Bytes, offset: nat, visited: nat, consumed: nat, jumps: nat)
    requires CountsTo(data, offset, visited, consumed, jumps) && visited + 1 < |data| && data[visited] >= 192 && jumps > 0
    ensures CountsTo(data, offset, Pointer(data, visited), if consumed == 0 then 2 else consumed, jumps - 1)
  {
  }

  lemma CountsAtLabel(data: Bytes, offset: nat, visited: nat, consumed: nat, jumps: nat)
    requires CountsTo(data, offset, visited, consumed, jumps) && visited < |data| && 0 < data[visited] < 64
    requires visited + 1 + data[visited] as int <= |data|
    ensures consumed > 0 || visited == offset
    ensures var end := visited + 1 + data[visited] as int;
      CountsTo(data, offset, end, LabelCount(offset, consumed, end), jumps)
  {
  }

  /** More targets cannot have been seen than there are. */
  lemma {:induction false} SeenBound(seen: set<nat>, n: nat)
    requires forall p :: p in seen ==> p < n
    ensures |seen| <= n
  {
    if n > 0 {
      SeenBound(seen - {n - 1}, n - 1);
      assert seen == seen - {n - 1} || seen == seen - {n - 1} + {n - 1};
    } else {
      assert seen == {};
    }
  }

  lemma OneLeft(seen: set<nat>, p: nat)
    requires p < TARGETS && forall q :: q in seen ==> q < TARGETS
    ensures p !in seen ==> |seen| < TARGETS && |seen + {p}| == |seen| + 1
  {
    SeenBound(seen + {p}, TARGETS);
  }

  /** What the parser knows between two octets: `labels` are read, `seen` targets were jumped to. */
  ghost predicate Parsing(data: Bytes, offset: nat, labels: seq<Bytes>, seen: set<nat>, visited: nat, consumed: nat) {
    && (consumed > 0 || visited == offset)
    && (forall p :: p in seen ==> p < TARGETS && Leads(data, p, visited))
    && |seen| <= TARGETS
    && LabelsFrom(labels, ReadName(data, visited, TARGETS - |seen|)) == LabelsFrom([], ReadName(data, offset, TARGETS))
    && CountsTo(data, offset, visited, consumed, TARGETS - |seen|)
  }

  lemma ParsingFails(data: Bytes, offset: nat, labels: seq<Bytes>, seen: set<nat>, visited: nat, consumed: nat)
    requires Parsing(data, offset, labels, seen, visited, consumed)
    ensures visited >= |data| ==> UpdateName(data, offset) == None
    ensures visited < |data| && 64 <= data[visited] < 192 ==> UpdateName(data, offset) == None
    ensures visited < |data| && 0 < data[visited] < 64 && visited + 1 + data[visited] as int > |data| ==>
      UpdateName(data, offset) == None
    ensures visited < |data| && data[visited] >= 192 && visited + 1 >= |data| ==> UpdateName(data, offset) == None
    ensures visited + 1 < |data| && data[visited] >= 192 && Pointer(data, visited) in seen ==> UpdateName(data, offset) == None
  {
    LabelsStart(data, offset);
    LabelsStep(labels, data, visited, TARGETS - |seen|);
    if visited + 1 < |data| && data[visited] >= 192 && Pointer(data, visited) in seen {
      BackPointer(data, visited, TARGETS - |seen|);
      NoneLeft(labels);
    }
    hide ReadName, LabelsFrom, Leads, CountsTo, UpdateName, Pointer;
  }

  lemma ParsingEnds(data: Bytes, offset: nat, labels: seq<Bytes>, seen: set<nat>, visited: nat, consumed: nat)
    requires Parsing(data, offset, labels, seen, visited, consumed) && visited < |data| && data[visited] == 0
    ensures UpdateName(data, offset) == Some((labels, EndCount(offset, consumed, visited)))
  {
    LabelsStart(data, offset);
    LabelsStep(labels, data, visited, TARGETS - |seen|);
    CountsAtRoot(data, offset, visited, consumed, TARGETS - |seen|);
    hide ReadName, LabelsFrom, Leads, CountsTo, UpdateName, EndCount, Consume;
  }

  lemma ParsingJumps(data: Bytes, offset: nat, labels: seq<Bytes>, seen: set<nat>, visited: nat, consumed: nat)
    requires Parsing(data, offset, labels, seen, visited, consumed) && visited + 1 < |data| && data[visited] >= 192
    requires Pointer(data, visited) !in seen
    ensures |seen| < TARGETS && |seen + {Pointer(data, visited)}| == |seen| + 1
    ensures Parsing(data, offset, labels, seen + {Pointer(data, visited)}, Pointer(data, visited),
                    if consumed == 0 then 2 else consumed)
  {
    hide ReadName, LabelsFrom, Leads, CountsTo, Pointer;
    var ptr := Pointer(data, visited);
    PointerBound(data, visited);
    OneLeft(seen, ptr);
    LabelsStep(labels, data, visited, TARGETS - |seen|);
    CountsAtPointer(data, offset, visited, consumed, TARGETS - |seen|);
    forall p | p in seen + {ptr}
      ensures p < TARGETS && Leads(data, p, ptr)
    {
      if p in seen {
        LeadsPointer(data, p, visited);
      } else {
        LeadsSelf(data, ptr);
      }
    }
  }

  lemma ParsingLabel(data: Bytes, offset: nat, labels: seq<Bytes>, seen: set<nat>, visited: nat, consumed: nat)
    requires Parsing(data, offset, labels, seen, visited, consumed) && visited < |data| && 0 < data[visited] < 64
    requires visited + 1 + data[visited] as int <= |data|
    ensures consumed > 0 || visited == offset
    ensures var end := visited + 1 + data[visited] as int;
      Parsing(data, offset, labels + [data[visited + 1..end]], seen, end, LabelCount(offset, consumed, end))
  {
    var end := visited + 1 + data[visited] as int;
    LabelsStep(labels, data, visited, TARGETS - |seen|);
    CountsAtLabel(data, offset, visited, consumed, TARGETS - |seen|);
    forall p | p in seen
      ensures Leads(data, p, end)
    {
      LeadsLabel(data, p, visited);
    }
    hide ReadName, LabelsFrom, Leads, CountsTo;
  }

  lemma ParsingStarts(data: Bytes, offset: nat)
    ensures Parsing(data, offset, [], {}, offset, 0) && Joined([], [])
  {
    LabelsStart(data, offset);
  }

  /** A label behind the name so far, and a dot before it unless it is the first. */
  method AddLabel(name: Bytes, l: Bytes, ghost labels: seq<Bytes>) returns (r: Bytes)
    requires Joined(name, labels) && l != []
    ensures Joined(r, labels + [l])
  {
    JoinLabel(name, labels, l);
    hide Joined;
    r := name;
    if |r| > 0 {
      r := r + [DOT];
    }
    r := r + l;
  }

  /** `parseName` of the UPDATE parser: it ends on every input, because each jump uses up a target. */
  method ParseUpdateName(data: Bytes, offset: nat) returns (r: Option<(Bytes, nat)>)
    ensures var name := UpdateName(data, offset);
      r == if name.None? then None else Some((Dotted(name.value.0), name.value.1))
  {
    var name: Bytes := [];
    var consumed: nat, visited: nat := 0, offset;
    var seen: set<nat> := {};
    ghost var labels: seq<Bytes> := [];
    hide *;
    ParsingStarts(data, offset);
    while true
      invariant Joined(name, labels) && |seen| <= TARGETS && (consumed > 0 || visited == offset)
      invariant Parsing(data, offset, labels, seen, visited, consumed)
      decreases TARGETS - |seen|, |data| - visited
    {
      ParsingFails(data, offset, labels, seen, visited, consumed);
      if visited >= |data| {
        return None;
      }
      var length := data[visited] as int;
      if length == 0 {
        ParsingEnds(data, offset, labels, seen, visited, consumed);
        if consumed == 0 {
          consumed := 1;
        } else if offset + consumed <= visited {
          consumed := visited - offset + 1;
        }
        JoinedText(name, labels);
        return Some((if name == [] then [DOT] else name + [DOT], consumed));
      }
      if length >= 192 {
        if visited + 1 >= |data| {
          return None;
        }
        var ptr := Pointer(data, visited);
        if ptr in seen {
          return None;
        }
        ParsingJumps(data, offset, labels, seen, visited, consumed);
        seen := seen + {ptr};
        if consumed == 0 {
          consumed := visited - offset + 2;
        }
        visited := ptr;
        continue;
      }
      if length >= 64 {
        return None;
      }
      var start, end := visited + 1, visited + 1 + length;
      if end > |data| {
        return None;
      }
      ParsingLabel(data, offset, labels, seen, visited, consumed);
      name := AddLabel(name, data[start..end], labels);
      labels := labels + [data[start..end]];
      if consumed == 0 || offset + consumed <= visited + 1 + length {
        consumed := visited + 1 + length - offset + 1;
      }
      visited := end;
    }
  }

  lemma LabelsStart(data: Bytes, offset: nat)
    ensures UpdateName(data, offset).None? <==> LabelsFrom([], ReadName(data, offset, TARGETS)) == None
    ensures UpdateName(data, offset).Some? ==>
      && LabelsFrom([], ReadName(data, offset, TARGETS)) == Some(UpdateName(data, offset).value.0)
      && ReadName(data, offset, TARGETS).Some?
      && UpdateName(data, offset).value.1 == Consume(data, offset, offset, 0, TARGETS)
    ensures CountsTo(data, offset, offset, 0, TARGETS)
  {
    hide Consume;
    if ReadName(data, offset, TARGETS).Some? {
      assert [] + ReadName(data, offset, TARGETS).value.0 == ReadName(data, offset, TARGETS).value.0;
    }
  }

  lemma NoneLeft(labels: seq<Bytes>)
    ensures LabelsFrom(labels, None) == None
  {
  }

  lemma PointerBound(data: Bytes, off: nat)
    requires off + 2 <= |data|
    ensures Pointer(data, off) < TARGETS
  {
  }

  lemma JoinedText(name: Bytes, labels: seq<Bytes>)
    requires Joined(name, labels)
    ensures (if name == [] then [DOT] else name + [DOT]) == Dotted(labels)
  {
  }

  // ----- what the counter says

  /** The first pointer of the name, or its root label, is at this offset. */
  function Stop(data: Bytes, pos: nat, jumps: nat): (stop: nat)
    requires ReadName(data, pos, jumps).Some?
    ensures pos <= stop < |data| && (data[stop] == 0 || data[stop] >= 192) && ReadName(data, stop, jumps).Some?
    ensures ReadName(data, pos, jumps).value.1 == ReadName(data, stop, jumps).value.1
    ensures data[stop] >= 192 ==> jumps > 0 && stop + 1 < |data| && ReadName(data, Pointer(data, stop), jumps - 1).Some?
    decreases |data| - pos
  {
    if data[pos] == 0 || data[pos] >= 192 then pos else Stop(data, pos + 1 + data[pos] as int, jumps)
  }

  function Max(a: int, b: int): (m: int) {
    if a < b then b else a
  }

  /** The furthest end of a label, or place of the root label, of the name from `pos` on, pointers followed. */
  function Furthest(data: Bytes, pos: nat, jumps: nat): (far: nat)
    requires ReadName(data, pos, jumps).Some?
    decreases jumps, |data| - pos
  {
    if data[pos] == 0 then pos
    else if data[pos] >= 192 then Furthest(data, Pointer(data, pos), jumps - 1)
    else
      var end := pos + 1 + data[pos] as int;
      Max(end, Furthest(data, end, jumps))
  }

  /** A running counter ends at the octet behind the furthest place reached, if that is beyond it. */
  lemma {:induction false} CountToFurthest(data: Bytes, offset: nat, pos: nat, consumed: nat, jumps: nat)
    requires consumed > 0 && ReadName(data, pos, jumps).Some?
    ensures Consume(data, offset, pos, consumed, jumps) == Max(consumed, Furthest(data, pos, jumps) - offset + 1)
    decreases jumps, |data| - pos
  {
    hide Pointer;
    if data[pos] == 0 {
    } else if data[pos] >= 192 {
      CountToFurthest(data, offset, Pointer(data, pos), consumed, jumps - 1);
    } else {
      var end := pos + 1 + data[pos] as int;
      CountToFurthest(data, offset, end, LabelCount(offset, consumed, end), jumps);
    }
  }

  /** Labels move the counter to one octet behind them. */
  lemma {:induction false} CountToStop(data: Bytes, offset: nat, pos: nat, jumps: nat)
    requires offset < pos && ReadName(data, pos, jumps).Some?
    ensures var stop := Stop(data, pos, jumps);
      stop > offset && Consume(data, offset, pos, pos - offset + 1, jumps) == Consume(data, offset, stop, stop - offset + 1, jumps)
    decreases |data| - pos
  {
    hide Pointer;
    if 0 < data[pos] < 192 {
      var end := pos + 1 + data[pos] as int;
      CountToStop(data, offset, end, jumps);
      assert LabelCount(offset, pos - offset + 1, end) == end - offset + 1;
    }
  }

  /** The counter when the first pointer is met: two octets for a leading one, else one octet behind the labels. */
  function AtPointer(offset: nat, stop: nat): (n: int) {
    if stop == offset then 2 else stop - offset + 1
  }

  /** How far the name reaches behind its first pointer. */
  function Beyond(data: Bytes, offset: nat): (far: nat)
    requires ReadName(data, offset, TARGETS).Some? && data[Stop(data, offset, TARGETS)] >= 192
  {
    Furthest(data, Pointer(data, Stop(data, offset, TARGETS)), TARGETS - 1)
  }

  /**
   The counter for every name that can be read: the extent when there is no pointer; otherwise it stops short at the
   pointer, or overshoots to the furthest place the pointers lead to.
   */
  lemma CounterIs(data: Bytes, offset: nat)
    requires ReadName(data, offset, TARGETS).Some?
    ensures UpdateName(data, offset).Some?
    ensures var stop := Stop(data, offset, TARGETS);
      UpdateName(data, offset).value.1 ==
      if data[stop] == 0 then stop - offset + 1 else Max(AtPointer(offset, stop), Beyond(data, offset) - offset + 1)
    ensures var stop := Stop(data, offset, TARGETS);
      ReadName(data, offset, TARGETS).value.1 - offset == stop - offset + if data[stop] == 0 then 1 else 2
  {
    hide ReadName, Consume, Furthest, Pointer, Stop;
    var stop := Stop(data, offset, TARGETS);
    FirstSegment(data, offset, TARGETS);
    StopExtent(data, stop, TARGETS);
    LastStep(data, offset, stop, if stop > offset then stop - offset + 1 else 0, TARGETS);
  }

  /**
   The exact condition for the counter to be the extent of the name at the offset: no pointer; or a leading pointer behind
   which nothing reaches past its two octets; or labels, a pointer, and a name that happens to reach its second octet.
   */
  lemma ConsumedExact(data: Bytes, offset: nat)
    requires ReadName(data, offset, TARGETS).Some?
    ensures UpdateName(data, offset).Some?
    ensures var stop := Stop(data, offset, TARGETS);
      UpdateName(data, offset).value.1 == ReadName(data, offset, TARGETS).value.1 - offset <==>
      || data[stop] == 0
      || (if stop == offset then Beyond(data, offset) <= offset + 1 else Beyond(data, offset) == stop + 1)
  {
    CounterIs(data, offset);
    hide ReadName, Consume, Furthest, Pointer, Stop, UpdateName, Beyond;
  }

  /** Pointers that lead before the offset: two octets for a leading one, one too few behind a label. */
  lemma ConsumedBackward(data: Bytes, offset: nat)
    requires ReadName(data, offset, TARGETS).Some?
    requires data[Stop(data, offset, TARGETS)] >= 192 && Beyond(data, offset) < offset
    ensures UpdateName(data, offset).Some?
    ensures var extent := ReadName(data, offset, TARGETS).value.1 - offset;
      UpdateName(data, offset).value.1 == if Stop(data, offset, TARGETS) == offset then extent else extent - 1
    ensures Stop(data, offset, TARGETS) == offset ==> UpdateName(data, offset).value.1 == 2
  {
    CounterIs(data, offset);
    hide ReadName, Consume, Furthest, Pointer, Stop, UpdateName, Beyond;
  }

  /** A label, then a pointer back: three octets are counted of the four. */
  lemma LabelThenPointerExample()
    ensures var data: Bytes := [0, 1, 97, 192, 0];
      ReadName(data, 1, TARGETS) == Some(([[97]], 5)) && UpdateName(data, 1) == Some(([[97]], 3))
  {
    var data: Bytes := [0, 1, 97, 192, 0];
    var l: Bytes := [97];
    assert data[2..3] == l && [l] + [] == [l];
    assert ReadName(data, 0, TARGETS - 1) == Some(([], 1));
    assert ReadName(data, 3, TARGETS) == Some(([], 5));
    assert Stop(data, 3, TARGETS) == 3;
    assert Stop(data, 1, TARGETS) == 3;
    CounterIs(data, 1);
  }

  /** A leading pointer forward: five octets are counted of the two. */
  lemma ForwardPointerExample()
    ensures var data: Bytes := [192, 2, 1, 97, 0];
      ReadName(data, 0, TARGETS) == Some(([[97]], 2)) && UpdateName(data, 0) == Some(([[97]], 5))
  {
    var data: Bytes := [192, 2, 1, 97, 0];
    var l: Bytes := [97];
    assert data[3..4] == l && [l] + [] == [l];
    assert ReadName(data, 4, TARGETS - 1) == Some(([], 5));
    assert ReadName(data, 2, TARGETS - 1) == Some(([[97]], 5));
    assert Furthest(data, 2, TARGETS - 1) == 4;
    CounterIs(data, 0);
  }

  lemma FirstSegment(data: Bytes, offset: nat, jumps: nat)
    requires ReadName(data, offset, jumps).Some?
    ensures var stop := Stop(data, offset, jumps);
      Consume(data, offset, offset, 0, jumps) == Consume(data, offset, stop, if stop > offset then stop - offset + 1 else 0, jumps)
  {
    if 0 < data[offset] < 192 {
      CountToStop(data, offset, offset + 1 + data[offset] as int, jumps);
    }
  }

  lemma StopExtent(data: Bytes, stop: nat, jumps: nat)
    requires ReadName(data, stop, jumps).Some? && (data[stop] == 0 || data[stop] >= 192)
    ensures ReadName(data, stop, jumps).value.1 == stop + if data[stop] == 0 then 1 else 2
  {
  }

  lemma LastStep(data: Bytes, offset: nat, stop: nat, counted: nat, jumps: nat)
    requires ReadName(data, stop, jumps).Some? && (data[stop] == 0 || data[stop] >= 192)
    requires offset <= stop && counted == if stop > offset then stop - offset + 1 else 0
    requires data[stop] >= 192 ==> jumps > 0 && ReadName(data, Pointer(data, stop), jumps - 1).Some?
    ensures Consume(data, offset, stop, counted, jumps) ==
      if data[stop] == 0 then stop - offset + 1
      else Max(AtPointer(offset, stop), Furthest(data, Pointer(data, stop), jumps - 1) - offset + 1)
  {
    if data[stop] >= 192 {
      var k: nat := jumps - 1;
      CountToFurthest(data, offset, Pointer(data, stop), AtPointer(offset, stop), k);
    }
  }

  // ----- the encoder

  /** Labels a dotted name can be cut back into. */
  predicate Spellable(labels: seq<Bytes>) {
    forall i :: 0 <= i < |labels| ==> 0 < |labels[i]| <= 63 && forall j :: 0 <= j < |labels[i]| ==> labels[i][j] != DOT
  }

  /** The labels `encodeName` finds in a string. */
  function SpelledIn(fqdn: Bytes): (labels: seq<Bytes>) {
    if fqdn == [DOT] || fqdn == [] then [] else Split(if fqdn[|fqdn| - 1] == DOT then fqdn[..|fqdn| - 1] else fqdn)
  }

  lemma {:induction false} NoDots(l: Bytes)
    requires forall j :: 0 <= j < |l| ==> l[j] != DOT
    ensures Split(l) == [l]
  {
    if l != [] {
      NoDots(l[1..]);
      assert [l[0]] + l[1..] == l;
    }
  }

  /** `encodeName`: cut at every dot. */
  method EncodeName(fqdn: Bytes) returns (out: Bytes)
    ensures out == NameWire(SpelledIn(fqdn))
  {
    if fqdn == [DOT] || fqdn == [] {
      assert NameWire([]) == [0];
      return [0];
    }
    var s := fqdn;
    if s[|s| - 1] == DOT {
      s := s[..|s| - 1];
    }
    out := [];
    ghost var done: seq<Bytes> := [];
    var start, i := 0, 0;
    assert s[0..] == s && [] + Split(s) == Split(s) && LabelWire([]) == [];
    hide Split, LabelWire;
    while i < |s|
      invariant 0 <= start <= i <= |s|
      invariant forall j :: start <= j < i ==> s[j] != DOT
      invariant out == LabelWire(done) && done + Split(s[start..]) == Split(s)
    {
      if s[i] == DOT {
        CutHere(s, start, i, done);
        LabelWireLast(done, s[start..i]);
        out := out + [Byte(|s[start..i]|)];
        out := out + s[start..i];
        done := done + [s[start..i]];
        start := i + 1;
      }
      i := i + 1;
    }
    NoDots(s[start..]);
    assert s[start..i] == s[start..];
    LabelWireLast(done, s[start..i]);
    out := out + [Byte(|s[start..i]|)];
    out := out + s[start..i];
    out := out + [0];
  }

  lemma CutHere(s: Bytes, start: nat, i: nat, done: seq<Bytes>)
    requires start <= i < |s| && s[i] == DOT && forall j :: start <= j < i ==> s[j] != DOT
    ensures done + Split(s[start..]) == (done + [s[start..i]]) + Split(s[i + 1..])
  {
    assert s[start..] == s[start..i] + [DOT] + s[i + 1..];
    SplitCut(s[start..i], s[i + 1..]);
    Assoc(done, [s[start..i]], Split(s[i + 1..]));
  }

  lemma LabelWireLast(done: seq<Bytes>, l: Bytes)
    ensures LabelWire(done + [l]) == LabelWire(done) + [Byte(|l|)] + l
  {
    LabelWireConcat(done, [l]);
    var one := [l];
    assert one[1..] == [];
    assert LabelWire(one) == [Byte(|l|)] + l + LabelWire(one[1..]);
  }

  lemma {:induction false} SplitJoined(name: Bytes, labels: seq<Bytes>)
    requires Spellable(labels) && labels != [] && name + [DOT] == DotEach(labels)
    ensures Split(name) == labels
    decreases |labels|
  {
    var l, rest := labels[0], labels[1..];
    assert labels == [l] + rest;
    if rest == [] {
      assert DotEach(labels) == l + [DOT] + [];
      assert name == (name + [DOT])[..|name|] && l == (l + [DOT])[..|l|];
      assert l + [DOT] + [] == l + [DOT];
      assert |name + [DOT]| == |l + [DOT]|;
      assert name == l;
      NoDots(l);
    } else {
      var tail := DotEach(rest);
      DotEnds(rest);
      var inner := tail[..|tail| - 1];
      assert tail == inner + [DOT];
      assert name + [DOT] == (l + [DOT] + inner) + [DOT];
      assert name == (name + [DOT])[..|name|] == l + [DOT] + inner;
      SplitCut(l, inner);
      SplitJoined(inner, rest);
    }
  }

  lemma {:induction false} DotEnds(labels: seq<Bytes>)
    requires labels != []
    ensures DotEach(labels) != [] && DotEach(labels)[|DotEach(labels)| - 1] == DOT
  {
    if |labels| > 1 {
      DotEnds(labels[1..]);
    }
  }

  /** The encoder cuts a spelt name back into its labels. */
  lemma SpelledBack(labels: seq<Bytes>)
    requires Spellable(labels)
    ensures SpelledIn(Dotted(labels)) == labels
  {
    if labels != [] {
      DotEnds(labels);
      var text := DotEach(labels);
      var name := text[..|text| - 1];
      assert text == name + [DOT];
      SplitJoined(name, labels);
      assert text[0] == labels[0][0] != DOT;
    }
  }

  /** `parseName` inverts `encodeName`, name and octet count, wherever the name stands. */
  lemma NameRoundTrip(data: Bytes, offset: nat, labels: seq<Bytes>)
    requires Spellable(labels) && At(data, offset, NameWire(SpelledIn(Dotted(labels))))
    ensures UpdateName(data, offset) == Some((labels, |NameWire(labels)|))
  {
    SpelledBack(labels);
    NameWritten(data, offset, labels);
  }

  lemma NameWritten(data: Bytes, offset: nat, labels: seq<Bytes>)
    requires WireLabels(labels) && At(data, offset, NameWire(labels))
    ensures UpdateName(data, offset) == Some((labels, |NameWire(labels)|))
  {
    ReadWritten(data, offset, labels, TARGETS);
    StopAtRoot(data, offset, labels, TARGETS);
    CounterIs(data, offset);
  }

  lemma {:induction false} StopAtRoot(data: Bytes, offset: nat, labels: seq<Bytes>, jumps: nat)
    requires WireLabels(labels) && At(data, offset, NameWire(labels)) && ReadName(data, offset, jumps).Some?
    ensures data[Stop(data, offset, jumps)] == 0
    decreases |labels|
  {
    if labels == [] {
      AtByte(data, offset, 0);
    } else {
      WrittenFirst(data, offset, labels);
      hide At, NameWire;
      StopAtRoot(data, offset + 1 + |labels[0]|, labels[1..], jumps);
    }
  }
}
