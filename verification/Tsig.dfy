/** TSIG (sections 2.3 and 3.4 of RFC 2845): the record, validation of requests, signing of responses. HMAC is a parameter. */
module Tsig {
  import opened Bytes
  import opened Names
  import opened NameReader
  import opened UpdateNames
  import opened Message
  import opened MessageTheorems
  import opened Update
  import opened UpdateTheorems

  const FUDGE_DEFAULT: nat := 300

  /** "hmac-sha256", the one supported algorithm. */
  const HMAC_SHA256: Bytes := [104, 109, 97, 99, 45, 115, 104, 97, 50, 53, 54]

  const REFUSED: nat := 5

  datatype TsigRecord = TsigRecord(algorithm: Bytes, timeSigned: nat, fudge: nat, mac: Bytes, origID: nat, error: nat, otherData: Bytes)

  datatype TsigError = Missing | Malformed | BadAlgorithm | TimeWindow | BadSignature

  // ----- 48-bit time

  function U48(n: int): (b: Bytes)
    ensures |b| == 6
  {
    U16(n / 0x1_0000_0000) + U32(n)
  }

  function GetU48(data: Bytes, off: nat): (n: nat)
    requires off + 6 <= |data|
    ensures n < 0x1_0000_0000_0000
  {
    GetU16(data, off) * 0x1_0000_0000 + GetU32(data, off + 2)
  }

  function BigEndian(s: Bytes): (n: nat) {
    if s == [] then 0 else BigEndian(s[..|s| - 1]) * 256 + s[|s| - 1] as int
  }

  lemma SixOctets(data: Bytes, off: nat)
    requires off + 6 <= |data|
    ensures BigEndian(data[off..off + 6]) == GetU48(data, off)
  {
    NextOctet(data, off, 0);
    NextOctet(data, off, 1);
    NextOctet(data, off, 2);
    NextOctet(data, off, 3);
    NextOctet(data, off, 4);
    NextOctet(data, off, 5);
    assert BigEndian(data[off..off + 0]) == 0;
  }

  lemma NextOctet(data: Bytes, off: nat, i: nat)
    requires off + i < |data|
    ensures BigEndian(data[off..off + i + 1]) == BigEndian(data[off..off + i]) * 256 + data[off + i] as int
  {
    var s := data[off..off + i + 1];
    assert s[..|s| - 1] == data[off..off + i] && s[|s| - 1] == data[off + i];
  }

  /** The shift loop of `ParseTSIGRdata`. */
  method ReadTime(data: Bytes, off: nat) returns (t: nat)
    requires off + 6 <= |data|
    ensures t == GetU48(data, off)
  {
    t := 0;
    var i := 0;
    while i < 6
      invariant 0 <= i <= 6 && t == BigEndian(data[off..off + i])
    {
      NextOctet(data, off, i);
      t := t * 256 + data[off + i] as int;
      i := i + 1;
    }
    SixOctets(data, off);
  }

  lemma AtU48(data: Bytes, off: nat, n: nat)
    requires At(data, off, U48(n))
    ensures off + 6 <= |data| && GetU48(data, off) == n % 0x1_0000_0000_0000
  {
    hide At, U16, U32, GetU16, GetU32;
    AtConcat(data, off, U16(n / 0x1_0000_0000), U32(n));
    AtU16(data, off, n / 0x1_0000_0000);
    AtU32(data, off + 2, n);
    assert n / 0x1_0000_0000 % 65536 * 0x1_0000_0000 + n % 0x1_0000_0000 == n % 0x1_0000_0000_0000;
  }

  // ----- the RDATA

  /** `encodeTSIGRdata`. */
  function TsigRdata(r: TsigRecord): (b: Bytes) {
    NameWire(SpelledIn(r.algorithm)) + (U48(r.timeSigned) + (U16(r.fudge) + (U16(|r.mac|) + (r.mac + TailWire(r)))))
  }

  /** The fields behind the algorithm name. */
  function ReadTsigFields(data: Bytes, algorithm: Bytes, n: nat): (r: Option<TsigRecord>) {
    if n + 10 > |data| || n + 10 + GetU16(data, n + 8) + 6 > |data| then None
    else
      var o := n + 10 + GetU16(data, n + 8);
      if o + 6 + GetU16(data, o + 4) > |data| then None
      else Some(TsigRecord(algorithm, GetU48(data, n), GetU16(data, n + 6), data[n + 10..o], GetU16(data, o), GetU16(data, o + 2),
                           data[o + 6..o + 6 + GetU16(data, o + 4)]))
  }

  function ReadTsig(data: Bytes): (r: Option<TsigRecord>) {
    match UpdateName(data, 0)
    case None => None
    case Some((labels, n)) => ReadTsigFields(data, ToLower(Dotted(labels)), n)
  }

  /** `ParseTSIGRdata`. */
  method ParseTsig(data: Bytes) returns (r: Option<TsigRecord>)
    ensures r == ReadTsig(data)
  {
    hide UpdateName, Dotted, GetU16, GetU48, ToLower;
    var algo := ParseUpdateName(data, 0);
    if algo.None? {
      return None;
    }
    var offset := algo.value.1;
    if offset + 10 > |data| {
      return None;
    }
    var timeSigned := ReadTime(data, offset);
    offset := offset + 6;
    var fudge := GetU16(data, offset);
    offset := offset + 2;
    var macSize := GetU16(data, offset);
    offset := offset + 2;
    if offset + macSize > |data| {
      return None;
    }
    var mac := data[offset..offset + macSize];
    offset := offset + macSize;
    if offset + 6 > |data| {
      return None;
    }
    var origID := GetU16(data, offset);
    offset := offset + 2;
    var error := GetU16(data, offset);
    offset := offset + 2;
    var otherLen := GetU16(data, offset);
    offset := offset + 2;
    var otherData := [];
    if otherLen > 0 {
      if offset + otherLen > |data| {
        return None;
      }
      otherData := data[offset..offset + otherLen];
    } else {
      assert data[offset..offset] == [];
    }
    r := Some(TsigRecord(ToLower(algo.value.0), timeSigned, fudge, mac, origID, error, otherData));
  }

  /** What the fields keep of a record. */
  function Narrowed(r: TsigRecord): (s: TsigRecord) {
    r.(algorithm := ToLower(r.algorithm), timeSigned := r.timeSigned % 0x1_0000_0000_0000, fudge := r.fudge % 65536,
       origID := r.origID % 65536, error := r.error % 65536)
  }

  function TailWire(r: TsigRecord): (b: Bytes) {
    U16(r.origID) + (U16(r.error) + (U16(|r.otherData|) + r.otherData))
  }

  lemma HeadRead(data: Bytes, n: nat, r: TsigRecord, tail: Bytes)
    requires |r.mac| < 65536 && At(data, n, U48(r.timeSigned) + (U16(r.fudge) + (U16(|r.mac|) + (r.mac + tail))))
    ensures n + 10 + |r.mac| <= |data| && data[n + 10..n + 10 + |r.mac|] == r.mac
    ensures GetU48(data, n) == r.timeSigned % 0x1_0000_0000_0000 && GetU16(data, n + 6) == r.fudge % 65536
    ensures GetU16(data, n + 8) == |r.mac| && At(data, n + 10 + |r.mac|, tail)
  {
    hide At, U16, U48, GetU16, GetU48;
    var f3 := U16(|r.mac|) + (r.mac + tail);
    AtConcat(data, n, U48(r.timeSigned), U16(r.fudge) + f3);
    AtU48(data, n, r.timeSigned);
    AtConcat(data, n + 6, U16(r.fudge), f3);
    AtU16(data, n + 6, r.fudge);
    AtConcat(data, n + 8, U16(|r.mac|), r.mac + tail);
    AtU16(data, n + 8, |r.mac|);
    AtConcat(data, n + 10, r.mac, tail);
    AtSlice(data, n + 10, r.mac);
  }

  lemma TailRead(data: Bytes, o: nat, r: TsigRecord)
    requires |r.otherData| < 65536 && At(data, o, TailWire(r))
    ensures o + 6 + |r.otherData| <= |data| && data[o + 6..o + 6 + |r.otherData|] == r.otherData
    ensures GetU16(data, o) == r.origID % 65536 && GetU16(data, o + 2) == r.error % 65536
    ensures GetU16(data, o + 4) == |r.otherData|
  {
    hide At, U16, GetU16;
    var f7 := U16(|r.otherData|) + r.otherData;
    AtConcat(data, o, U16(r.origID), U16(r.error) + f7);
    AtU16(data, o, r.origID);
    AtConcat(data, o + 2, U16(r.error), f7);
    AtU16(data, o + 2, r.error);
    AtConcat(data, o + 4, U16(|r.otherData|), r.otherData);
    AtU16(data, o + 4, |r.otherData|);
    AtSlice(data, o + 6, r.otherData);
  }

  lemma FieldsBehindName(data: Bytes, algorithm: Bytes, n: nat, r: TsigRecord)
    requires |r.mac| < 65536 && |r.otherData| < 65536
    requires At(data, n, U48(r.timeSigned) + (U16(r.fudge) + (U16(|r.mac|) + (r.mac + TailWire(r)))))
    ensures ReadTsigFields(data, algorithm, n) == Some(Narrowed(r).(algorithm := algorithm))
  {
    hide At, U16, U48, GetU16, GetU48, ToLower, TailWire;
    HeadRead(data, n, r, TailWire(r));
    TailRead(data, n + 10 + |r.mac|, r);
  }

  lemma AtSlice(data: Bytes, off: nat, piece: Bytes)
    requires At(data, off, piece)
    ensures off + |piece| <= |data| && data[off..off + |piece|] == piece
  {
  }

  /** Parsing undoes encoding. */
  lemma TsigRoundTrip(r: TsigRecord, algorithm: seq<Bytes>)
    requires Spellable(algorithm) && r.algorithm == Dotted(algorithm) && |r.mac| < 65536 && |r.otherData| < 65536
    ensures ReadTsig(TsigRdata(r)) == Some(Narrowed(r))
  {
    var data := TsigRdata(r);
    var tail := U48(r.timeSigned) + (U16(r.fudge) + (U16(|r.mac|) + (r.mac + TailWire(r))));
    AtSelf(data);
    hide At, U16, U48, TailWire, UpdateName, NameWire, Dotted, ReadTsigFields, ToLower, SpelledIn, Spellable;
    SpelledBack(algorithm);
    assert data == NameWire(algorithm) + tail;
    AtConcat(data, 0, NameWire(algorithm), tail);
    NameRoundTrip(data, 0, algorithm);
    FieldsBehindName(data, ToLower(Dotted(algorithm)), |NameWire(algorithm)|, r);
  }

  // ----- the MAC

  /** `buildTSIGVariables`. */
  function Variables(keyName: Bytes, r: TsigRecord): (b: Bytes) {
    NameWire(SpelledIn(keyName)) + U16(CLASS_ANY) + U32(0) + NameWire(SpelledIn(r.algorithm)) +
    U48(r.timeSigned) + U16(r.fudge) + U16(r.error) + U16(|r.otherData|) + r.otherData
  }

  function MacOver(hmac: (Bytes, Bytes) -> Bytes, secret: Bytes, body: Bytes, keyName: Bytes, r: TsigRecord): (mac: Bytes) {
    hmac(secret, body + Variables(keyName, r))
  }

  function EffectiveFudge(fudge: nat): (f: nat) {
    if fudge == 0 then FUDGE_DEFAULT else fudge
  }

  /** `ValidateTSIG`. */
  method ValidateTsig(msg: UpdateMsg, secret: Bytes, now: nat, hmac: (Bytes, Bytes) -> Bytes) returns (r: Result<(), TsigError>)
    ensures r == Validity(msg, secret, now, hmac)
  {
    hide ReadTsig, Dotted, Variables;
    if msg.tsig.None? {
      return Err(Missing);
    }
    var tsig := ParseTsig(msg.tsig.value.rdata);
    if tsig.None? {
      return Err(Malformed);
    }
    var t := tsig.value;
    if t.algorithm != Dotted([HMAC_SHA256]) {
      return Err(BadAlgorithm);
    }
    var fudge := t.fudge;
    if fudge == 0 {
      fudge := FUDGE_DEFAULT;
    }
    if now > t.timeSigned + fudge || (t.timeSigned > now && t.timeSigned - now > fudge) {
      return Err(TimeWindow);
    }
    var mac := MacOver(hmac, secret, msg.raw, msg.tsig.value.name, t);
    if mac != t.mac {
      return Err(BadSignature);
    }
    r := Ok(());
  }

  function Distance(a: nat, b: nat): (d: nat) {
    if a < b then b - a else a - b
  }

  /** The verdict: present, readable, known algorithm, in time, right MAC, in this order. */
  function Validity(msg: UpdateMsg, secret: Bytes, now: nat, hmac: (Bytes, Bytes) -> Bytes): (r: Result<(), TsigError>) {
    if msg.tsig.None? then Err(Missing)
    else match ReadTsig(msg.tsig.value.rdata)
      case None => Err(Malformed)
      case Some(t) =>
        if t.algorithm != Dotted([HMAC_SHA256]) then Err(BadAlgorithm)
        else if Distance(now, t.timeSigned) > EffectiveFudge(t.fudge) then Err(TimeWindow)
        else if MacOver(hmac, secret, msg.raw, msg.tsig.value.name, t) != t.mac then Err(BadSignature)
        else Ok(())
  }

  lemma AlgorithmSpells()
    ensures Spellable([HMAC_SHA256]) && ToLower(Dotted([HMAC_SHA256])) == Dotted([HMAC_SHA256])
  {
    var one := [HMAC_SHA256];
    assert one[0] == HMAC_SHA256 && one[1..] == [];
    assert DotEach(one) == HMAC_SHA256 + [DOT] + DotEach(one[1..]);
    assert DotEach(one) == HMAC_SHA256 + [DOT];
  }

  /** A record whose fields fit their widths. */
  ghost predicate InRange(r: TsigRecord) {
    && r.timeSigned < 0x1_0000_0000_0000 && r.fudge < 65536 && r.origID < 65536 && r.error < 65536
    && |r.mac| < 65536 && |r.otherData| < 65536 && r.algorithm == Dotted([HMAC_SHA256])
  }

  lemma NarrowedSame(r: TsigRecord)
    requires InRange(r)
    ensures Narrowed(r) == r
  {
    AlgorithmSpells();
    hide Dotted, ToLower;
  }

  // ----- the octets of the standard

  /** The six octets of a time, and the two of a 16-bit number. */
  function TimeOctets(n: nat): (b: Bytes) {
    [Byte(n / 0x100_0000_0000), Byte(n / 0x1_0000_0000), Byte(n / 0x100_0000), Byte(n / 0x1_0000), Byte(n / 0x100), Byte(n)]
  }

  function TwoOctets(n: nat): (b: Bytes) {
    [Byte(n / 256), Byte(n)]
  }

  /** Section 3.4.2 of RFC 2845: key name, class ANY, TTL 0, algorithm, time, fudge, error, length and other data. */
  function StandardVariables(key: seq<Bytes>, time: nat, fudge: nat, error: nat, other: Bytes): (b: Bytes) {
    NameWire(key) + [0, 255] + [0, 0, 0, 0] + [11] + HMAC_SHA256 + [0] +
    TimeOctets(time) + TwoOctets(fudge) + TwoOctets(error) + TwoOctets(|other|) + other
  }

  /** Section 2.3 of RFC 2845: algorithm, time, fudge, MAC, original id, error and other data. */
  function StandardRdata(time: nat, fudge: nat, mac: Bytes, origID: nat, error: nat, other: Bytes): (b: Bytes) {
    [11] + HMAC_SHA256 + [0] + TimeOctets(time) + TwoOctets(fudge) + TwoOctets(|mac|) + mac +
    TwoOctets(origID) + TwoOctets(error) + TwoOctets(|other|) + other
  }

  lemma SixOctetsOf(n: nat)
    ensures U48(n) == TimeOctets(n)
  {
    assert n / 0x1_0000_0000 / 256 == n / 0x100_0000_0000 && n / 65536 / 256 == n / 0x100_0000;
  }

  lemma AlgorithmWire()
    ensures Spellable([HMAC_SHA256]) && NameWire(SpelledIn(Dotted([HMAC_SHA256]))) == [11] + HMAC_SHA256 + [0]
  {
    AlgorithmSpells();
    SpelledBack([HMAC_SHA256]);
    var one := [HMAC_SHA256];
    assert one[0] == HMAC_SHA256 && one[1..] == [];
    assert LabelWire(one) == [Byte(11)] + HMAC_SHA256 + LabelWire(one[1..]);
    assert LabelWire(one) == [11] + HMAC_SHA256;
  }

  /** What the server hashes and writes are the standard's octets. */
  lemma StandardOctets(key: seq<Bytes>, r: TsigRecord)
    requires Spellable(key) && r.algorithm == Dotted([HMAC_SHA256])
    ensures Variables(Dotted(key), r) == StandardVariables(key, r.timeSigned, r.fudge, r.error, r.otherData)
    ensures TsigRdata(r) == StandardRdata(r.timeSigned, r.fudge, r.mac, r.origID, r.error, r.otherData)
  {
    hide *;
    SpelledBack(key);
    AlgorithmWire();
    SixOctetsOf(r.timeSigned);
    TwoOctetsOf(r.fudge);
    TwoOctetsOf(|r.mac|);
    TwoOctetsOf(r.origID);
    TwoOctetsOf(r.error);
    TwoOctetsOf(|r.otherData|);
    assert U16(CLASS_ANY) == [0, 255] && U32(0) == [0, 0, 0, 0] by { FixedOctets(); }
    VariablesAre(key, r, [11] + HMAC_SHA256 + [0]);
    RdataIs(r, [11] + HMAC_SHA256 + [0]);
  }

  lemma TwoOctetsOf(n: nat)
    ensures U16(n) == TwoOctets(n)
  {
  }

  lemma FixedOctets()
    ensures U16(CLASS_ANY) == [0, 255] && U32(0) == [0, 0, 0, 0]
  {
  }

  lemma VariablesAre(key: seq<Bytes>, r: TsigRecord, name: Bytes)
    requires SpelledIn(Dotted(key)) == key && NameWire(SpelledIn(r.algorithm)) == name == [11] + HMAC_SHA256 + [0]
    requires U16(CLASS_ANY) == [0, 255] && U32(0) == [0, 0, 0, 0] && U48(r.timeSigned) == TimeOctets(r.timeSigned)
    requires U16(r.fudge) == TwoOctets(r.fudge) && U16(r.error) == TwoOctets(r.error) && U16(|r.otherData|) == TwoOctets(|r.otherData|)
    ensures Variables(Dotted(key), r) == StandardVariables(key, r.timeSigned, r.fudge, r.error, r.otherData)
  {
    hide U16, U32, U48, TimeOctets, TwoOctets, NameWire, SpelledIn, Dotted;
    Assoc(NameWire(key) + [0, 255] + [0, 0, 0, 0], [11] + HMAC_SHA256, [0]);
    Assoc(NameWire(key) + [0, 255] + [0, 0, 0, 0], [11], HMAC_SHA256);
  }

  lemma RdataIs(r: TsigRecord, name: Bytes)
    requires NameWire(SpelledIn(r.algorithm)) == name == [11] + HMAC_SHA256 + [0] && U48(r.timeSigned) == TimeOctets(r.timeSigned)
    requires U16(r.fudge) == TwoOctets(r.fudge) && U16(r.error) == TwoOctets(r.error) && U16(|r.otherData|) == TwoOctets(|r.otherData|)
    requires U16(|r.mac|) == TwoOctets(|r.mac|) && U16(r.origID) == TwoOctets(r.origID)
    ensures TsigRdata(r) == StandardRdata(r.timeSigned, r.fudge, r.mac, r.origID, r.error, r.otherData)
  {
    hide U16, U32, U48, TimeOctets, TwoOctets, NameWire, SpelledIn;
  }

  // ----- what the MAC covers

  datatype Covered = Covered(key: seq<Bytes>, rclass: nat, ttl: nat, algorithm: seq<Bytes>, time: nat, fudge: nat, error: nat,
                             other: Bytes)

  /** The variables as their reader takes them: two names at their offsets, then numbers at theirs. */
  function ReadVariables(b: Bytes): (r: Option<Covered>) {
    match UpdateName(b, 0)
    case None => None
    case Some((key, n)) =>
      if n + 6 > |b| then None
      else
        match UpdateName(b, n + 6)
        case None => None
        case Some((algorithm, m)) =>
          var o := n + 6 + m;
          if o + 12 > |b| || o + 12 + GetU16(b, o + 10) != |b| then None
          else Some(Covered(key, GetU16(b, n), GetU32(b, n + 2), algorithm, GetU48(b, o), GetU16(b, o + 6), GetU16(b, o + 8), b[o + 12..]))
  }

  /** Each of the fields is read back, so none can change without changing the octets. */
  lemma VariablesRead(key: seq<Bytes>, algorithm: seq<Bytes>, r: TsigRecord)
    requires Spellable(key) && Spellable(algorithm) && r.algorithm == Dotted(algorithm) && |r.otherData| < 65536
    ensures ReadVariables(Variables(Dotted(key), r)) ==
            Some(Covered(key, 255, 0, algorithm, r.timeSigned % 0x1_0000_0000_0000, r.fudge % 65536, r.error % 65536, r.otherData))
  {
    hide *;
    var b := Variables(Dotted(key), r);
    var n, m := |NameWire(key)|, |NameWire(algorithm)|;
    VariablesNested(key, algorithm, r);
    SpellableFits(key);
    SpellableFits(algorithm);
    AtSelf(b);
    var five := FiveFields(r);
    AtConcat(b, 0, NameWire(key), U16(255) + (U32(0) + (NameWire(algorithm) + five)));
    NameWritten(b, 0, key);
    AtConcat(b, n, U16(255), U32(0) + (NameWire(algorithm) + five));
    AtU16(b, n, 255);
    AtConcat(b, n + 2, U32(0), NameWire(algorithm) + five);
    AtU32(b, n + 2, 0);
    AtConcat(b, n + 6, NameWire(algorithm), five);
    NameWritten(b, n + 6, algorithm);
    CoveredNumbers(b, n + 6 + m, r);
    WholeLength(b, key, algorithm, r);
    FieldsRead(b, key, n, algorithm, m);
    assert n + 6 + m + 12 + |r.otherData| == |b|;
    assert b[n + 6 + m + 12..] == b[n + 6 + m + 12..|b|];
  }

  function FiveFields(r: TsigRecord): (b: Bytes) {
    U48(r.timeSigned) + (U16(r.fudge) + (U16(r.error) + (U16(|r.otherData|) + r.otherData)))
  }

  lemma VariablesNested(key: seq<Bytes>, algorithm: seq<Bytes>, r: TsigRecord)
    requires Spellable(key) && Spellable(algorithm) && r.algorithm == Dotted(algorithm)
    ensures Variables(Dotted(key), r) == NameWire(key) + (U16(255) + (U32(0) + (NameWire(algorithm) + FiveFields(r))))
  {
    SpelledBack(key);
    SpelledBack(algorithm);
    hide NameWire, SpelledIn, Dotted, U16, U32, U48, Spellable;
  }

  lemma WholeLength(b: Bytes, key: seq<Bytes>, algorithm: seq<Bytes>, r: TsigRecord)
    requires b == NameWire(key) + (U16(255) + (U32(0) + (NameWire(algorithm) + FiveFields(r))))
    ensures |b| == |NameWire(key)| + 6 + |NameWire(algorithm)| + 12 + |r.otherData|
  {
    hide NameWire, U16, U32, U48;
  }

  lemma FieldsRead(b: Bytes, key: seq<Bytes>, n: nat, algorithm: seq<Bytes>, m: nat)
    requires UpdateName(b, 0) == Some((key, n)) && n + 6 + m + 12 <= |b| && UpdateName(b, n + 6) == Some((algorithm, m))
    requires n + 6 + m + 12 + GetU16(b, n + 6 + m + 10) == |b|
    ensures var o := n + 6 + m;
      ReadVariables(b) ==
      Some(Covered(key, GetU16(b, n), GetU32(b, n + 2), algorithm, GetU48(b, o), GetU16(b, o + 6), GetU16(b, o + 8), b[o + 12..]))
  {
    hide UpdateName, GetU16, GetU32, GetU48;
  }

  lemma CoveredNumbers(b: Bytes, o: nat, r: TsigRecord)
    requires |r.otherData| < 65536
    requires At(b, o, FiveFields(r))
    ensures o + 12 + |r.otherData| <= |b| && GetU16(b, o + 10) == |r.otherData|
    ensures GetU48(b, o) == r.timeSigned % 0x1_0000_0000_0000 && GetU16(b, o + 6) == r.fudge % 65536
    ensures GetU16(b, o + 8) == r.error % 65536 && b[o + 12..o + 12 + |r.otherData|] == r.otherData
  {
    hide At, U16, U48, GetU16, GetU48;
    var two := U16(|r.otherData|) + r.otherData;
    AtConcat(b, o, U48(r.timeSigned), U16(r.fudge) + (U16(r.error) + two));
    AtU48(b, o, r.timeSigned);
    AtConcat(b, o + 6, U16(r.fudge), U16(r.error) + two);
    AtU16(b, o + 6, r.fudge);
    AtConcat(b, o + 8, U16(r.error), two);
    AtU16(b, o + 8, r.error);
    AtConcat(b, o + 10, U16(|r.otherData|), r.otherData);
    AtU16(b, o + 10, |r.otherData|);
    AtSlice(b, o + 12, r.otherData);
  }

  /** The MAC covers the key name and every field but itself and the original id. */
  lemma EveryFieldCovered(key: seq<Bytes>, r: TsigRecord, other: seq<Bytes>, s: TsigRecord)
    requires Spellable(key) && Spellable(other) && InRange(r) && InRange(s)
    ensures Variables(Dotted(key), r) == Variables(Dotted(other), s) <==>
            key == other && s == r.(mac := s.mac, origID := s.origID)
  {
    AlgorithmSpells();
    hide Variables, ReadVariables, Spellable, Dotted, ToLower;
    VariablesRead(key, [HMAC_SHA256], r);
    VariablesRead(other, [HMAC_SHA256], s);
    NumbersKept(r);
    NumbersKept(s);
    if key == other && s == r.(mac := s.mac, origID := s.origID) {
      SameVariables(Dotted(key), r, s);
    }
  }

  lemma NumbersKept(r: TsigRecord)
    requires InRange(r)
    ensures r.timeSigned % 0x1_0000_0000_0000 == r.timeSigned && r.fudge % 65536 == r.fudge && r.error % 65536 == r.error
  {
    hide Dotted;
  }

  lemma SameVariables(keyName: Bytes, r: TsigRecord, s: TsigRecord)
    requires s == r.(mac := s.mac, origID := s.origID)
    ensures Variables(keyName, s) == Variables(keyName, r)
  {
  }

  // ----- requests

  /**
   For every UPDATE message of arbitrarily many uncompressed records with a TSIG that holds any MAC at all: the server,
   holding the key, refuses it outside the effective fudge; in time it accepts it if and only if the MAC is the one of
   section 3.4.2 of RFC 2845 over the message and these fields.
   */
  lemma SignedUpdateValid(id: nat, flags: nat, zones: seq<ZoneEntry>, pre: seq<WireRR>, upd: seq<WireRR>, add: seq<WireRR>,
                          hmac: (Bytes, Bytes) -> Bytes, secret: Bytes, key: seq<Bytes>, time: nat, fudge: nat, mac: Bytes,
                          origID: nat, error: nat, other: Bytes, now: nat)
    requires Fitting(zones, pre, upd, add) && |add| + 1 < 65536 && Spellable(key)
    requires time < 0x1_0000_0000_0000 && fudge < 65536 && origID < 65536 && error < 65536
    requires |mac| < 65536 && |other| < 65536 && |StandardRdata(time, fudge, mac, origID, error, other)| < 65536
    ensures var body := UpdateFrame(id, flags, zones, pre, upd, add);
      |body| >= 12 &&
      var msg := ReadUpdate(AppendTsig(body, WireRR(key, 250, 255, 0, StandardRdata(time, fudge, mac, origID, error, other))));
      && msg.Some? && msg.value.raw == body
      && Validity(msg.value, secret, now, hmac) ==
         if Distance(now, time) > (if fudge == 0 then 300 else fudge) then Err(TimeWindow)
         else if mac != hmac(secret, body + StandardVariables(key, time, fudge, error, other)) then Err(BadSignature)
         else Ok(())
  {
    var body := UpdateFrame(id, flags, zones, pre, upd, add);
    var t := WireRR(key, 250, 255, 0, StandardRdata(time, fudge, mac, origID, error, other));
    SpellableFits(key);
    SignedUpdateRead(id, flags, zones, pre, upd, add, t);
    hide UpdateFrame, ReadUpdate, AppendTsig, Fitting, SeeAll, FirstZone, Validity, StandardRdata, StandardVariables;
    TsigChecks(ReadUpdate(AppendTsig(body, t)).value, body, hmac, secret, key,
               TsigRecord(Dotted([HMAC_SHA256]), time, fudge, mac, origID, error, other), now);
  }

  lemma SpellableFits(key: seq<Bytes>)
    requires Spellable(key)
    ensures WireLabels(key)
  {
  }

  lemma TsigChecks(msg: UpdateMsg, body: Bytes, hmac: (Bytes, Bytes) -> Bytes, secret: Bytes, key: seq<Bytes>, r: TsigRecord, now: nat)
    requires InRange(r) && Spellable(key) && msg.raw == body
    requires msg.tsig == Some(See(WireRR(key, 250, 255, 0, StandardRdata(r.timeSigned, r.fudge, r.mac, r.origID, r.error, r.otherData))))
    ensures Validity(msg, secret, now, hmac) ==
            if Distance(now, r.timeSigned) > EffectiveFudge(r.fudge) then Err(TimeWindow)
            else if r.mac != hmac(secret, body + StandardVariables(key, r.timeSigned, r.fudge, r.error, r.otherData)) then Err(BadSignature)
            else Ok(())
  {
    StandardOctets(key, r);
    AlgorithmSpells();
    hide TsigRdata, ReadTsig, Dotted, ToLower, Variables, Spellable, StandardRdata, StandardVariables;
    TsigRoundTrip(r, [HMAC_SHA256]);
    NarrowedSame(r);
  }

  // ----- responses

  /** The fields of the response's TSIG, without its MAC. */
  function ResponseFields(resp: Bytes, request: Option<TsigRecord>, now: nat): (r: TsigRecord)
    requires |resp| >= 12
  {
    match request
    case None => TsigRecord(Dotted([HMAC_SHA256]), now, FUDGE_DEFAULT, [], GetU16(resp, 0), REFUSED, [])
    case Some(t) => TsigRecord(t.algorithm, now, EffectiveFudge(t.fudge), [], GetU16(resp, 0), 0, [])
  }

  /** Section 4.2 of RFC 2845: the MAC of a response covers the MAC of the request; a malformed request gets none. */
  function ResponseMac(hmac: (Bytes, Bytes) -> Bytes, secret: Bytes, resp: Bytes, keyName: Bytes,
                       request: Option<TsigRecord>, now: nat): (mac: Bytes)
    requires |resp| >= 12
  {
    match request
    case None => []
    case Some(t) =>
      hmac(secret, U16(|t.mac|) + t.mac + resp + Variables(keyName, ResponseFields(resp, request, now)))
  }

  function ResponseTsig(hmac: (Bytes, Bytes) -> Bytes, secret: Bytes, resp: Bytes, request: UpdateRR, now: nat): (w: WireRR)
    requires |resp| >= 12
  {
    var t := ReadTsig(request.rdata);
    WireRR(SpelledIn(request.name), TSIG, CLASS_ANY, 0,
           TsigRdata(ResponseFields(resp, t, now).(mac := ResponseMac(hmac, secret, resp, request.name, t, now))))
  }

  /** `SignResponse`, the error path included. */
  method SignResponse(hmac: (Bytes, Bytes) -> Bytes, secret: Bytes, resp: Bytes, request: UpdateRR, now: nat) returns (signed: Bytes)
    requires |resp| >= 12
    ensures signed == AppendTsig(resp, ResponseTsig(hmac, secret, resp, request, now))
  {
    hide ReadTsig, Variables, TsigRdata, Dotted, SpelledIn, EncodeRR, U16, GetU16;
    var tsig := ParseTsig(request.rdata);
    var origID := GetU16(resp, 0);
    var rdata;
    if tsig.None? {
      rdata := TsigRdata(TsigRecord(Dotted([HMAC_SHA256]), now, FUDGE_DEFAULT, [], origID, REFUSED, []));
    } else {
      var fudge := tsig.value.fudge;
      if fudge == 0 {
        fudge := FUDGE_DEFAULT;
      }
      var fields := TsigRecord(tsig.value.algorithm, now, fudge, [], origID, 0, []);
      var signBuf := U16(|tsig.value.mac|) + tsig.value.mac;
      signBuf := signBuf + resp;
      signBuf := signBuf + Variables(request.name, fields);
      var mac := hmac(secret, signBuf);
      rdata := TsigRdata(fields.(mac := mac));
    }
    var tsigRR := EncodeRR(WireRR(SpelledIn(request.name), TSIG, CLASS_ANY, 0, rdata));
    var arcount := GetU16(resp, 10);
    signed := resp[..10] + U16(arcount + 1) + resp[12..];
    signed := signed + tsigRR;
  }

  /** The signed response parses back to the unsigned one, byte for byte, whatever became of the request's TSIG. */
  lemma SignedResponseRead(id: nat, flags: nat, zones: seq<ZoneEntry>, pre: seq<WireRR>, upd: seq<WireRR>, add: seq<WireRR>,
                           hmac: (Bytes, Bytes) -> Bytes, secret: Bytes, request: UpdateRR, key: seq<Bytes>, now: nat)
    requires Fitting(zones, pre, upd, add) && |add| + 1 < 65536 && Spellable(key) && request.name == Dotted(key)
    requires var resp := UpdateFrame(id, flags, zones, pre, upd, add);
      |resp| >= 12 ==> |ResponseTsig(hmac, secret, resp, request, now).rdata| < 65536
    ensures var resp := UpdateFrame(id, flags, zones, pre, upd, add);
      |resp| >= 12 &&
      var t := ResponseTsig(hmac, secret, resp, request, now);
      ReadUpdate(AppendTsig(resp, t)) ==
      Some(UpdateMsg(id % 65536, flags % 65536, FirstZone(zones), SeeAll(pre), SeeAll(upd), SeeAll(add),
                     Some(UpdateRR(request.name, TSIG, CLASS_ANY, 0, t.rdata)), resp))
  {
    var resp := UpdateFrame(id, flags, zones, pre, upd, add);
    FrameIsLong(id, flags, zones, pre, upd, add);
    hide UpdateFrame, ReadUpdate, AppendTsig, Fitting, SeeAll, FirstZone, Dotted, TsigRdata, ResponseFields,
         ResponseMac, ReadTsig, SpelledIn;
    var t := ResponseTsig(hmac, secret, resp, request, now);
    SpelledBack(key);
    SpellableFits(key);
    SignedUpdateRead(id, flags, zones, pre, upd, add, t);
  }

  lemma FrameIsLong(id: nat, flags: nat, zones: seq<ZoneEntry>, pre: seq<WireRR>, upd: seq<WireRR>, add: seq<WireRR>)
    ensures |UpdateFrame(id, flags, zones, pre, upd, add)| >= 12
  {
    hide EncodeZones, EncodeAll, Header;
  }

  /**
   The client of RFC 2845 finds in the answer the octets of section 2.3, with the present time and the id of the response,
   and the MAC of section 4.2 over its own request's MAC behind its length, the response and the variables.
   */
  lemma ResponseMacRead(hmac: (Bytes, Bytes) -> Bytes, secret: Bytes, resp: Bytes, request: UpdateRR, key: seq<Bytes>, now: nat)
    requires |resp| >= 12 && request.name == Dotted(key) && Spellable(key)
    requires var t := ReadTsig(request.rdata); t.Some? && t.value.algorithm == Dotted([HMAC_SHA256])
    ensures var t := ReadTsig(request.rdata).value;
      var fudge := if t.fudge == 0 then 300 else t.fudge;
      var mac := hmac(secret, TwoOctets(|t.mac|) + t.mac + resp + StandardVariables(key, now, fudge, 0, []));
      ResponseTsig(hmac, secret, resp, request, now) ==
      WireRR(key, 250, 255, 0, StandardRdata(now, fudge, mac, GetU16(resp, 0), 0, []))
  {
    var t := ReadTsig(request.rdata);
    var fields := ResponseFields(resp, t, now);
    SpelledBack(key);
    assert U16(|t.value.mac|) == TwoOctets(|t.value.mac|);
    hide ReadTsig, TsigRdata, Dotted, Variables, SpelledIn, U16, TwoOctets, GetU16, Spellable, StandardRdata, StandardVariables;
    StandardOctets(key, fields);
    StandardOctets(key, fields.(mac := ResponseMac(hmac, secret, resp, request.name, t, now)));
  }

  /** A request whose TSIG cannot be read is answered without a MAC, with the error REFUSED, 5, and a fudge of 300. */
  lemma UnsignedResponse(hmac: (Bytes, Bytes) -> Bytes, secret: Bytes, resp: Bytes, request: UpdateRR, key: seq<Bytes>, now: nat)
    requires |resp| >= 12 && request.name == Dotted(key) && Spellable(key) && ReadTsig(request.rdata).None?
    ensures ResponseTsig(hmac, secret, resp, request, now) ==
            WireRR(key, 250, 255, 0, StandardRdata(now, 300, [], GetU16(resp, 0), 5, []))
  {
    SpelledBack(key);
    hide ReadTsig, TsigRdata, Dotted, Variables, SpelledIn, GetU16, Spellable, StandardRdata, StandardVariables;
    StandardOctets(key, TsigRecord(Dotted([HMAC_SHA256]), now, FUDGE_DEFAULT, [], GetU16(resp, 0), REFUSED, []));
  }
}
