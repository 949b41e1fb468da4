/**
 * Python's stable `list.sort(key=...)` on integer keys, as insertion sort: the state's list of
 * completed indices and the runner's result list are both kept in this order.
 */
module Sorting {

  /** Keys never decrease along the sequence. */
  ghost predicate SortedBy<T>(s: seq<T>, key: T -> int) {
    forall i, j :: 0 <= i < j < |s| ==> key(s[i]) <= key(s[j])
  }

  /** Keys strictly increase along the sequence (sorted and without repeated keys). */
  ghost predicate StrictlyIncreasing(s: seq<int>) {
    forall i, j :: 0 <= i < j < |s| ==> s[i] < s[j]
  }

  /** Inserts `x` after every element whose key is at most `x`'s: the stable position. */
  function InsertBy<T>(s: seq<T>, x: T, key: T -> int): (r: seq<T>)
    ensures |r| == |s| + 1
  {
    if s == [] || key(s[|s| - 1]) <= key(x) then s + [x]
    else InsertBy(s[..|s| - 1], x, key) + [s[|s| - 1]]
  }

  /** Stable insertion sort. */
  function SortBy<T>(s: seq<T>, key: T -> int): (r: seq<T>)
    ensures |r| == |s|
  {
    if s == [] then [] else InsertBy(SortBy(s[..|s| - 1], key), s[|s| - 1], key)
  }

  /** Inserting adds exactly `x`. */
  lemma {:induction false} InsertByMultiset<T>(s: seq<T>, x: T, key: T -> int)
    ensures multiset(InsertBy(s, x, key)) == multiset(s) + multiset{x}
  {
    if !(s == [] || key(s[|s| - 1]) <= key(x)) {
      var init := s[..|s| - 1];
      InsertByMultiset(init, x, key);
      assert s == init + [s[|s| - 1]];
    }
  }

  /** A bound on every key survives the insertion of a key within it. */
  lemma {:induction false} InsertByBounded<T>(s: seq<T>, x: T, key: T -> int, b: int)
    requires forall i :: 0 <= i < |s| ==> key(s[i]) <= b
    requires key(x) <= b
    ensures forall i :: 0 <= i < |s| + 1 ==> key(InsertBy(s, x, key)[i]) <= b
  {
    if !(s == [] || key(s[|s| - 1]) <= key(x)) {
      InsertByBounded(s[..|s| - 1], x, key, b);
    }
  }

  /** Inserting into a sorted sequence keeps it sorted. */
  lemma {:induction false} InsertBySorted<T>(s: seq<T>, x: T, key: T -> int)
    requires SortedBy(s, key)
    ensures SortedBy(InsertBy(s, x, key), key)
  {
    if !(s == [] || key(s[|s| - 1]) <= key(x)) {
      var init := s[..|s| - 1];
      var last := s[|s| - 1];
      InsertBySorted(init, x, key);
      InsertByBounded(init, x, key, key(last));
    }
  }

  /** Inserting into a sorted sequence keeps it sorted and adds exactly `x`. */
  lemma InsertBySpec<T>(s: seq<T>, x: T, key: T -> int)
    requires SortedBy(s, key)
    ensures SortedBy(InsertBy(s, x, key), key)
    ensures multiset(InsertBy(s, x, key)) == multiset(s) + multiset{x}
  {
    InsertBySorted(s, x, key);
    InsertByMultiset(s, x, key);
  }

  /** Sorting yields a sorted permutation. */
  lemma {:induction false} SortBySpec<T>(s: seq<T>, key: T -> int)
    ensures SortedBy(SortBy(s, key), key)
    ensures multiset(SortBy(s, key)) == multiset(s)
  {
    if s != [] {
      var init := s[..|s| - 1];
      SortBySpec(init, key);
      InsertBySpec(SortBy(init, key), s[|s| - 1], key);
      assert s == init + [s[|s| - 1]];
    }
  }

  /** Sorting an already sorted sequence changes nothing. */
  lemma {:induction false} SortBySorted<T>(s: seq<T>, key: T -> int)
    requires SortedBy(s, key)
    ensures SortBy(s, key) == s
  {
    if s != [] {
      var init := s[..|s| - 1];
      SortBySorted(init, key);
      assert s == init + [s[|s| - 1]];
    }
  }

  /** Appending and re-sorting a sorted sequence is a single stable insertion. */
  lemma AppendSortIsInsert<T>(s: seq<T>, x: T, key: T -> int)
    requires SortedBy(s, key)
    ensures SortBy(s + [x], key) == InsertBy(s, x, key)
  {
    assert (s + [x])[..|s|] == s;
    SortBySorted(s, key);
  }

  function Identity(n: int): int {
    n
  }

  /** Inserting a new key into a strictly increasing sequence keeps it strictly increasing. */
  lemma {:induction false} InsertStrict(s: seq<int>, x: int)
    requires StrictlyIncreasing(s) && x !in s
    ensures StrictlyIncreasing(InsertBy(s, x, Identity))
  {
    if !(s == [] || s[|s| - 1] <= x) {
      var init := s[..|s| - 1];
      var last := s[|s| - 1];
      InsertStrict(init, x);
      InsertByBounded(init, x, Identity, last - 1);
    } else if s != [] {
      assert s[|s| - 1] != x;
    }
  }
}
