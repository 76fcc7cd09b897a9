/** Python's `list.sort(key=...)` and `sorted(..., key=...)`: a stable sort. The model is an
    insertion sort on values; `le(a, b)` stands for `key(a) <= key(b)`. */
module Sorting {
  import opened Seqs

  /** `le` orders every pair and is transitive, as `<=` on a key does. */
  ghost predicate TotalPreorder<T(!new)>(le: (T, T) -> bool) {
    (forall a, b :: le(a, b) || le(b, a))
    && (forall a, b, c :: le(a, b) && le(b, c) ==> le(a, c))
  }

  predicate SortedBy<T>(s: seq<T>, le: (T, T) -> bool) {
    forall i, j :: 0 <= i < j < |s| ==> le(s[i], s[j])
  }

  /** Inserts `x` after every element whose key is not greater than its own, so that elements
      with equal keys stay in their original order. */
  function InsertBy<T>(s: seq<T>, x: T, le: (T, T) -> bool): (r: seq<T>)
    ensures multiset(r) == multiset(s) + multiset{x}
    ensures |r| == |s| + 1
  {
    if s == [] then [x]
    else if le(s[|s| - 1], x) then s + [x]
    else
      var r := InsertBy(s[..|s| - 1], x, le) + [s[|s| - 1]];
      assert s == s[..|s| - 1] + [s[|s| - 1]];
      r
  }

  /** The stably sorted sequence. */
  function SortBy<T>(s: seq<T>, le: (T, T) -> bool): (r: seq<T>)
    ensures multiset(r) == multiset(s)
    ensures |r| == |s|
  {
    if s == [] then []
    else
      assert s == s[..|s| - 1] + [s[|s| - 1]];
      InsertBy(SortBy(s[..|s| - 1], le), s[|s| - 1], le)
  }

  lemma {:induction false} InsertSorted<T(!new)>(s: seq<T>, x: T, le: (T, T) -> bool)
    requires TotalPreorder(le)
    requires SortedBy(s, le)
    ensures SortedBy(InsertBy(s, x, le), le)
    decreases |s|
  {
    if s != [] && !le(s[|s| - 1], x) {
      var init := s[..|s| - 1];
      var last := s[|s| - 1];
      forall i, j | 0 <= i < j < |init| ensures le(init[i], init[j]) {
        assert init[i] == s[i] && init[j] == s[j];
      }
      InsertSorted(init, x, le);
      assert le(x, last);
      forall i | 0 <= i < |init| ensures le(init[i], last) {
        assert init[i] == s[i];
      }
      InsertBelow(init, x, last, le);
      SortedSnoc(InsertBy(init, x, le), last, le);
    }
  }

  /** Inserting an element below `bound` into elements below `bound` keeps them all below it. */
  lemma InsertBelow<T>(s: seq<T>, x: T, bound: T, le: (T, T) -> bool)
    requires forall i :: 0 <= i < |s| ==> le(s[i], bound)
    requires le(x, bound)
    ensures forall i :: 0 <= i < |InsertBy(s, x, le)| ==> le(InsertBy(s, x, le)[i], bound)
  {
    var r := InsertBy(s, x, le);
    forall i | 0 <= i < |r| ensures le(r[i], bound) {
      assert r[i] in multiset(r);
      assert r[i] in multiset(s) + multiset{x};
      if r[i] in multiset(s) {
        var k :| 0 <= k < |s| && s[k] == r[i];
      }
    }
  }

  lemma SortedSnoc<T>(r: seq<T>, last: T, le: (T, T) -> bool)
    requires SortedBy(r, le)
    requires forall i :: 0 <= i < |r| ==> le(r[i], last)
    ensures SortedBy(r + [last], le)
  {
    forall i, j | 0 <= i < j < |r| + 1 ensures le((r + [last])[i], (r + [last])[j]) {
      assert (r + [last])[i] == r[i];
      if j < |r| {
        assert (r + [last])[j] == r[j];
      }
    }
  }

  /** Sorting yields a sequence ordered by `le`. */
  lemma {:induction false} SortBySorted<T(!new)>(s: seq<T>, le: (T, T) -> bool)
    requires TotalPreorder(le)
    ensures SortedBy(SortBy(s, le), le)
    decreases |s|
  {
    if s != [] {
      SortBySorted(s[..|s| - 1], le);
      InsertSorted(SortBy(s[..|s| - 1], le), s[|s| - 1], le);
    }
  }

  /** The first `k` elements of a sorted sequence come before every later one: what taking the
      top `k` after a sort selects. */
  lemma PrefixBeforeRest<T>(s: seq<T>, le: (T, T) -> bool, k: nat)
    requires SortedBy(s, le)
    ensures forall i, j :: 0 <= i < k <= j < |s| ==> le(s[i], s[j])
  {
  }

  /** A prefix of a sorted sequence is sorted and a sub-multiset of it. */
  lemma PrefixSorted<T>(s: seq<T>, le: (T, T) -> bool, k: nat)
    requires SortedBy(s, le) && k <= |s|
    ensures SortedBy(s[..k], le) && multiset(s[..k]) <= multiset(s)
  {
    assert s == s[..k] + s[k..];
    assert multiset(s) == multiset(s[..k]) + multiset(s[k..]);
  }

  /** Every element of a prefix of a sorted sequence comes before every element left out. */
  lemma {:induction false} PrefixRanksFirst<T>(s: seq<T>, le: (T, T) -> bool, k: nat)
    requires SortedBy(s, le) && k <= |s|
    ensures forall x, y :: x in s[..k] && y in multiset(s) - multiset(s[..k]) ==> le(x, y)
  {
    var top, rest := s[..k], s[k..];
    assert s == top + rest;
    assert multiset(s) == multiset(top) + multiset(rest);
    forall x, y | x in top && y in multiset(s) - multiset(top) ensures le(x, y) {
      assert y in multiset(rest);
      assert y in rest;
      var i :| 0 <= i < |top| && top[i] == x;
      var j :| 0 <= j < |rest| && rest[j] == y;
      assert s[i] == x && s[k + j] == y;
    }
  }

  /** Inserting `x` adds its key; it keeps keys distinct when the key of `x` is new. */
  lemma {:induction false} InsertByKeys<T, K>(s: seq<T>, x: T, le: (T, T) -> bool, key: T -> K)
    ensures KeysOf(InsertBy(s, x, le), key) == KeysOf(s, key) + {key(x)}
    ensures DistinctKeys(s, key) && key(x) !in KeysOf(s, key) ==> DistinctKeys(InsertBy(s, x, le), key)
    decreases |s|
  {
    if s == [] {
      assert InsertBy(s, x, le) == s + [x];
      KeysOfAppend(s, x, key);
      DistinctSnoc(s, x, key);
    } else if le(s[|s| - 1], x) {
      KeysOfAppend(s, x, key);
      DistinctSnoc(s, x, key);
    } else {
      var init := s[..|s| - 1];
      var last := s[|s| - 1];
      var r := InsertBy(init, x, le);
      assert s == init + [last];
      assert InsertBy(s, x, le) == r + [last];
      InsertByKeys(init, x, le, key);
      KeysOfAppend(init, last, key);
      KeysOfAppend(r, last, key);
      DistinctSnoc(init, last, key);
      DistinctSnoc(r, last, key);
    }
  }

  /** Sorting keeps the set of keys, and keeps keys distinct. */
  lemma {:induction false} SortByKeys<T, K>(s: seq<T>, le: (T, T) -> bool, key: T -> K)
    ensures KeysOf(SortBy(s, le), key) == KeysOf(s, key)
    ensures DistinctKeys(s, key) ==> DistinctKeys(SortBy(s, le), key)
    decreases |s|
  {
    if s != [] {
      var init := s[..|s| - 1];
      var last := s[|s| - 1];
      assert s == init + [last];
      SortByKeys(init, le, key);
      InsertByKeys(SortBy(init, le), last, le, key);
      KeysOfAppend(init, last, key);
      DistinctSnoc(init, last, key);
    }
  }

  /** The head of an insertion into a sorted sequence: the old head unless the new element
      is strictly below it. */
  lemma {:induction false} InsertByHead<T(!new)>(s: seq<T>, x: T, le: (T, T) -> bool)
    requires TotalPreorder(le) && SortedBy(s, le) && s != []
    ensures InsertBy(s, x, le)[0] == if le(s[0], x) then s[0] else x
    decreases |s|
  {
    if !le(s[|s| - 1], x) && |s| > 1 {
      var init := s[..|s| - 1];
      forall i, j | 0 <= i < j < |init| ensures le(init[i], init[j]) {
        assert init[i] == s[i] && init[j] == s[j];
      }
      InsertByHead(init, x, le);
    }
  }

  /** `s[j]` is below every element, and every element before it is strictly above it. */
  predicate FirstLeast<T>(s: seq<T>, j: int, le: (T, T) -> bool) {
    && 0 <= j < |s|
    && (forall k :: 0 <= k < |s| ==> le(s[j], s[k]))
    && (forall k :: 0 <= k < j ==> !le(s[k], s[j]))
  }

  lemma FirstLeastKeep<T>(init: seq<T>, last: T, i: int, le: (T, T) -> bool)
    requires FirstLeast(init, i, le) && le(init[i], last)
    ensures FirstLeast(init + [last], i, le)
  {
    var s := init + [last];
    forall k | 0 <= k < |s| ensures le(s[i], s[k]) {
      if k < |init| {
        assert s[k] == init[k];
      }
    }
    forall k | 0 <= k < i ensures !le(s[k], s[i]) {
      assert s[k] == init[k];
    }
  }

  lemma FirstLeastNew<T(!new)>(init: seq<T>, last: T, i: int, le: (T, T) -> bool)
    requires TotalPreorder(le) && FirstLeast(init, i, le) && !le(init[i], last)
    ensures FirstLeast(init + [last], |init|, le)
  {
    var s := init + [last];
    assert le(last, init[i]);
    forall k | 0 <= k < |init| ensures le(last, s[k]) && !le(s[k], last) {
      assert s[k] == init[k];
      assert le(init[i], init[k]);
    }
  }

  /** The head of the sorted sequence is the first element that no element is strictly below:
      `sorted(...)[0]` picks the least key, and the earliest among equal keys. */
  lemma {:induction false} SortByHead<T(!new)>(s: seq<T>, le: (T, T) -> bool) returns (j: nat)
    requires TotalPreorder(le) && s != []
    ensures FirstLeast(s, j, le) && SortBy(s, le)[0] == s[j]
    decreases |s|
  {
    var init := s[..|s| - 1];
    var last := s[|s| - 1];
    assert s == init + [last];
    if init == [] {
      j := 0;
    } else {
      var i := SortByHead(init, le);
      SortBySorted(init, le);
      InsertByHead(SortBy(init, le), last, le);
      assert SortBy(s, le) == InsertBy(SortBy(init, le), last, le);
      if le(init[i], last) {
        j := i;
        FirstLeastKeep(init, last, i, le);
      } else {
        j := |s| - 1;
        FirstLeastNew(init, last, i, le);
      }
    }
  }

  /** The elements whose key equals that of `y`. */
  function Ties<T>(le: (T, T) -> bool, y: T): T -> bool {
    x => le(x, y) && le(y, x)
  }

  /** Inserting `x` puts it after every element already present with the same key. */
  lemma {:induction false} InsertByStable<T(!new)>(s: seq<T>, x: T, le: (T, T) -> bool, y: T)
    requires TotalPreorder(le)
    ensures Filter(InsertBy(s, x, le), Ties(le, y))
      == Filter(s, Ties(le, y)) + (if Ties(le, y)(x) then [x] else [])
    decreases |s|
  {
    var p := Ties(le, y);
    if s == [] {
      assert [x][..0] == s;
    } else if le(s[|s| - 1], x) {
      assert (s + [x])[..|s|] == s;
    } else {
      var init := s[..|s| - 1];
      var last := s[|s| - 1];
      InsertByStable(init, x, le, y);
      var r := InsertBy(init, x, le);
      assert InsertBy(s, x, le) == r + [last];
      assert (r + [last])[..|r|] == r;
      if p(x) {
        assert !p(last);
      }
    }
  }

  /** Sorting is stable: the elements sharing any one key keep their relative order. */
  lemma {:induction false} SortByStable<T(!new)>(s: seq<T>, le: (T, T) -> bool, y: T)
    requires TotalPreorder(le)
    ensures Filter(SortBy(s, le), Ties(le, y)) == Filter(s, Ties(le, y))
    decreases |s|
  {
    if s != [] {
      var init := s[..|s| - 1];
      SortByStable(init, le, y);
      InsertByStable(SortBy(init, le), s[|s| - 1], le, y);
    }
  }
}
