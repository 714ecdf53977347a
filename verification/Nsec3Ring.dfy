/** The ring of sorted hashes and what one (owner, next) pair of it covers (section 7.1 of RFC 5155). */
module Nsec3Ring {
  import opened Bytes

  /** `covers` of nsec3proof.go. */
  predicate Covers(owner: Bytes, next: Bytes, target: Bytes) {
    var ownCmp, nextCmp := Compare(owner, target), Compare(target, next);
    if Compare(owner, next) < 0 then ownCmp < 0 && nextCmp < 0 else ownCmp < 0 || nextCmp < 0
  }

  ghost predicate Ring(hs: seq<Bytes>) {
    forall i, j :: 0 <= i < j < |hs| ==> Compare(hs[i], hs[j]) < 0
  }

  /** Pair `i` of the ring covers `target`. */
  predicate CoversAt(hs: seq<Bytes>, i: int, target: Bytes)
    requires 0 <= i < |hs|
  {
    Covers(hs[i], hs[(i + 1) % |hs|], target)
  }

  /** How many hashes, from the first on, lie before `target`. */
  function Before(hs: seq<Bytes>, target: Bytes): (p: nat)
    ensures p <= |hs|
    ensures forall i :: 0 <= i < p ==> Compare(hs[i], target) < 0
    ensures p < |hs| ==> Compare(hs[p], target) >= 0
  {
    if hs == [] || Compare(hs[0], target) >= 0 then 0
    else
      var rest := Before(hs[1..], target);
      assert forall i :: 0 < i < rest + 1 ==> hs[i] == hs[1..][i - 1];
      1 + rest
  }

  /** The pair that covers a hash outside the ring: its predecessor, or the last pair at the seam. */
  function CoverIndex(hs: seq<Bytes>, target: Bytes): (i: nat)
    requires hs != []
    ensures i < |hs|
  {
    var p := Before(hs, target);
    if p == 0 then |hs| - 1 else p - 1
  }

  lemma AfterPosition(hs: seq<Bytes>, target: Bytes, i: int)
    requires Ring(hs) && Before(hs, target) <= i < |hs|
    ensures Compare(target, hs[i]) <= 0
    ensures target !in hs ==> Compare(target, hs[i]) < 0
  {
    var p := Before(hs, target);
    hide Compare, Before;
    CompareFlip(hs[p], target);
    if p < i {
      CompareTrans(target, hs[p], hs[i]);
    }
    CompareZero(target, hs[i]);
  }

  /** Outside the ring: exactly one pair covers, for every ring size from one on. */
  lemma CoveredOnce(hs: seq<Bytes>, target: Bytes, i: int)
    requires Ring(hs) && 0 <= i < |hs| && target !in hs
    ensures CoversAt(hs, i, target) <==> i == CoverIndex(hs, target)
  {
    var n, p := |hs|, Before(hs, target);
    hide Compare, Before;
    CompareZero(hs[i], hs[i]);
    if i < p {
      CompareFlip(hs[i], target);
    } else {
      AfterPosition(hs, target, i);
      CompareFlip(target, hs[i]);
    }
    if i + 1 < n {
      assert (i + 1) % n == i + 1;
      CompareFlip(target, hs[i + 1]);
      if p <= i + 1 {
        AfterPosition(hs, target, i + 1);
      }
    } else {
      assert (i + 1) % n == 0;
      CompareFlip(target, hs[0]);
      CompareFlip(hs[0], hs[i]);
      if p == 0 {
        AfterPosition(hs, target, 0);
      }
    }
  }

  /** Inside the ring: no pair covers. */
  lemma MemberUncovered(hs: seq<Bytes>, target: Bytes, i: int)
    requires Ring(hs) && 0 <= i < |hs| && target in hs
    ensures !CoversAt(hs, i, target)
  {
    var n := |hs|;
    var k :| 0 <= k < n && hs[k] == target;
    hide Compare;
    CompareZero(hs[k], hs[k]);
    CompareFlip(hs[i], hs[k]);
    if i + 1 < n {
      assert (i + 1) % n == i + 1;
      CompareFlip(hs[k], hs[i + 1]);
    } else {
      assert (i + 1) % n == 0;
      CompareFlip(hs[k], hs[0]);
      CompareFlip(hs[0], hs[i]);
    }
  }
}
