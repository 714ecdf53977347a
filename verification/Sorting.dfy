/** Sorting by a byte-string key: what `slices.SortFunc` promises, and why ties are all it leaves open. */
module Sorting {
  import opened Bytes

  ghost predicate SortedBy<T>(key: T -> Bytes, s: seq<T>) {
    forall i, j :: 0 <= i < j < |s| ==> Compare(key(s[i]), key(s[j])) <= 0
  }

  ghost predicate StrictBy<T>(key: T -> Bytes, s: seq<T>) {
    forall i, j :: 0 <= i < j < |s| ==> Compare(key(s[i]), key(s[j])) < 0
  }

  lemma StrictHead<T>(key: T -> Bytes, s: seq<T>, t: seq<T>)
    requires StrictBy(key, s) && |s| > 0 && |t| > 0 && multiset(s) == multiset(t)
    ensures s[0] == t[0] || Compare(key(s[0]), key(t[0])) < 0
  {
    assert t[0] in multiset(t);
    var k :| 0 <= k < |s| && s[k] == t[0];
  }

  lemma WeakHead<T>(key: T -> Bytes, s: seq<T>, t: seq<T>)
    requires SortedBy(key, s) && |s| > 0 && |t| > 0 && multiset(s) == multiset(t)
    ensures Compare(key(s[0]), key(t[0])) <= 0
  {
    assert t[0] in multiset(t);
    var k :| 0 <= k < |s| && s[k] == t[0];
    CompareZero(key(s[0]), key(s[0]));
  }

  /** When one arrangement is strictly sorted, every sort of its elements gives that arrangement. */
  lemma {:induction false} StrictUnique<T>(key: T -> Bytes, s: seq<T>, t: seq<T>)
    requires StrictBy(key, s) && SortedBy(key, t) && multiset(s) == multiset(t)
    ensures s == t
    decreases |s|
  {
    MultisetLength(s, t);
    if s != [] {
      hide Compare;
      StrictHead(key, s, t);
      WeakHead(key, t, s);
      CompareFlip(key(s[0]), key(t[0]));
      assert s[0] == t[0];
      TailMultiset(s);
      TailMultiset(t);
      StrictUnique(key, s[1..], t[1..]);
      ConsEqual(s, t);
    }
  }

  /** Distinct elements with distinct keys sort strictly. */
  lemma SortedIsStrict<T>(key: T -> Bytes, s: seq<T>)
    requires SortedBy(key, s)
    requires forall i, j :: 0 <= i < j < |s| ==> key(s[i]) != key(s[j])
    ensures StrictBy(key, s)
  {
    forall i, j | 0 <= i < j < |s|
      ensures Compare(key(s[i]), key(s[j])) < 0
    {
      CompareZero(key(s[i]), key(s[j]));
    }
  }

  method InsertBy<T>(key: T -> Bytes, x: T, s: seq<T>) returns (r: seq<T>)
    requires SortedBy(key, s)
    ensures SortedBy(key, r) && multiset(r) == multiset(s) + multiset{x}
  {
    var i := 0;
    while i < |s| && Compare(key(s[i]), key(x)) <= 0
      invariant 0 <= i <= |s|
      invariant forall j :: 0 <= j < i ==> Compare(key(s[j]), key(x)) <= 0
    {
      i := i + 1;
    }
    InsertSorted(key, x, s, i);
    assert s == s[..i] + s[i..];
    r := s[..i] + [x] + s[i..];
  }

  lemma InsertSorted<T>(key: T -> Bytes, x: T, s: seq<T>, i: nat)
    requires SortedBy(key, s) && i <= |s|
    requires forall j :: 0 <= j < i ==> Compare(key(s[j]), key(x)) <= 0
    requires i < |s| ==> Compare(key(s[i]), key(x)) > 0
    ensures SortedBy(key, s[..i] + [x] + s[i..])
  {
    var r := s[..i] + [x] + s[i..];
    forall j | i <= j < |s|
      ensures Compare(key(x), key(s[j])) <= 0
    {
      CompareFlip(key(x), key(s[i]));
      if i < j {
        CompareTrans(key(x), key(s[i]), key(s[j]));
      }
    }
    forall j, k | 0 <= j < k < |r|
      ensures Compare(key(r[j]), key(r[k])) <= 0
    {
      var a := if j < i then s[j] else if j == i then x else s[j - 1];
      var b := if k < i then s[k] else if k == i then x else s[k - 1];
      assert r[j] == a && r[k] == b;
    }
  }

  /** `slices.SortFunc` with `bytes.Compare` on the keys. */
  method SortBy<T>(key: T -> Bytes, s: seq<T>) returns (r: seq<T>)
    ensures SortedBy(key, r) && multiset(r) == multiset(s)
  {
    r := [];
    var i := 0;
    while i < |s|
      invariant 0 <= i <= |s|
      invariant SortedBy(key, r) && multiset(r) == multiset(s[..i])
    {
      r := InsertBy(key, s[i], r);
      assert s[..i + 1] == s[..i] + [s[i]];
      i := i + 1;
    }
    assert s[..i] == s;
  }
}
