/** Sequence helpers shared by the pipelines: filtering, counting and the first-occurrence
    deduplication that the `seen`-set loops perform. */
module Seqs {
  import Text

  function Filter<T>(s: seq<T>, p: T -> bool): (r: seq<T>)
    ensures |r| <= |s|
  {
    if s == [] then []
    else Filter(s[..|s| - 1], p) + (if p(s[|s| - 1]) then [s[|s| - 1]] else [])
  }

  /** The filtered sequence holds exactly the elements of `s` that pass. */
  lemma {:induction false} FilterMembers<T>(s: seq<T>, p: T -> bool, x: T)
    ensures x in Filter(s, p) <==> x in s && p(x)
    decreases |s|
  {
    if s != [] {
      var init, last := s[..|s| - 1], s[|s| - 1];
      FilterMembers(init, p, x);
      assert s == init + [last];
    }
  }

  /** `[f(x) for x in s]`. */
  function MapSeq<A, B>(s: seq<A>, f: A -> B): (r: seq<B>)
    ensures |r| == |s|
    ensures forall i :: 0 <= i < |s| ==> r[i] == f(s[i])
    decreases |s|
  {
    if s == [] then []
    else
      var r := MapSeq(s[..|s| - 1], f);
      assert forall i :: 0 <= i < |s| - 1 ==> r[i] == f(s[i]);
      r + [f(s[|s| - 1])]
  }

  /** Mapping distributes over concatenation. */
  lemma MapSeqConcat<A, B>(a: seq<A>, b: seq<A>, f: A -> B)
    ensures MapSeq(a + b, f) == MapSeq(a, f) + MapSeq(b, f)
  {
    var l, r := MapSeq(a + b, f), MapSeq(a, f) + MapSeq(b, f);
    forall i | 0 <= i < |l| ensures l[i] == r[i] {
      if i >= |a| {
        assert (a + b)[i] == b[i - |a|];
      }
    }
  }

  /** A suffix split at two points. */
  lemma SliceThree<T>(s: seq<T>, a: int, b: int, c: int)
    requires 0 <= a <= b <= c <= |s|
    ensures s[a..] == s[a..b] + s[b..c] + s[c..]
  {
  }

  /** A non-empty prefix splits off its first element. */
  lemma ConsConcat<T>(p: seq<T>, rest: seq<T>)
    requires p != []
    ensures p + rest == [p[0]] + (p[1..] + rest)
  {
  }

  lemma MapSeqAppend<A, B>(s: seq<A>, x: A, f: A -> B)
    ensures MapSeq(s + [x], f) == MapSeq(s, f) + [f(x)]
  {
    MapSeqSnoc(s + [x], |s|, f);
    assert (s + [x])[..|s|] == s;
  }

  lemma MapSeqSnoc<A, B>(s: seq<A>, i: nat, f: A -> B)
    requires i < |s|
    ensures MapSeq(s[..i + 1], f) == MapSeq(s[..i], f) + [f(s[i])]
  {
    assert s[..i + 1][..i] == s[..i];
  }

  /** Filtering one more element of a prefix appends it exactly when it passes. */
  lemma FilterSnoc<T>(s: seq<T>, k: nat, p: T -> bool)
    requires k < |s|
    ensures Filter(s[..k + 1], p) == Filter(s[..k], p) + (if p(s[k]) then [s[k]] else [])
  {
    assert s[..k + 1][..k] == s[..k];
  }

  lemma FilterAppend<T>(a: seq<T>, b: seq<T>, p: T -> bool)
    ensures Filter(a + b, p) == Filter(a, p) + Filter(b, p)
    decreases |b|
  {
    if b == [] {
      assert a + b == a;
    } else {
      var init, x := b[..|b| - 1], b[|b| - 1];
      var t := if p(x) then [x] else [];
      assert (a + b)[..|a + b| - 1] == a + init && (a + b)[|a + b| - 1] == x;
      assert Filter(a + b, p) == Filter(a + init, p) + t;
      FilterAppend(a, init, p);
      assert (Filter(a, p) + Filter(init, p)) + t == Filter(a, p) + (Filter(init, p) + t);
    }
  }

  /** Filtering keeps a sequence whose every element passes. */
  lemma {:induction false} FilterAll<T>(s: seq<T>, p: T -> bool)
    requires forall i :: 0 <= i < |s| ==> p(s[i])
    ensures Filter(s, p) == s
    decreases |s|
  {
    if s != [] {
      var init := s[..|s| - 1];
      forall i | 0 <= i < |init| ensures p(init[i]) {
        assert init[i] == s[i];
      }
      FilterAll(init, p);
      assert p(s[|s| - 1]);
      assert Filter(s, p) == Filter(init, p) + [s[|s| - 1]];
      assert init + [s[|s| - 1]] == s;
    }
  }

  /** Filtering empties a sequence none of whose elements passes. */
  lemma {:induction false} FilterNone<T>(s: seq<T>, p: T -> bool)
    requires forall i :: 0 <= i < |s| ==> !p(s[i])
    ensures Filter(s, p) == []
    decreases |s|
  {
    if s != [] {
      FilterNone(s[..|s| - 1], p);
      assert !p(s[|s| - 1]);
    }
  }

  /** Filters that agree on the elements of `s` keep the same elements. */
  lemma {:induction false} FilterSame<T>(s: seq<T>, p: T -> bool, q: T -> bool)
    requires forall i :: 0 <= i < |s| ==> p(s[i]) == q(s[i])
    ensures Filter(s, p) == Filter(s, q)
    decreases |s|
  {
    if s != [] {
      var init := s[..|s| - 1];
      forall i | 0 <= i < |init| ensures p(init[i]) == q(init[i]) {
        assert init[i] == s[i];
      }
      FilterSame(init, p, q);
    }
  }

  /** The elements that pass and the elements that fail make up `s` between them. */
  lemma {:induction false} FilterPartition<T>(s: seq<T>, p: T -> bool, q: T -> bool)
    requires forall i :: 0 <= i < |s| ==> q(s[i]) == !p(s[i])
    ensures multiset(Filter(s, p)) + multiset(Filter(s, q)) == multiset(s)
    decreases |s|
  {
    if s != [] {
      var init := s[..|s| - 1];
      forall i | 0 <= i < |init| ensures q(init[i]) == !p(init[i]) {
        assert init[i] == s[i];
      }
      FilterPartition(init, p, q);
      var x := s[|s| - 1];
      var fp, fq := Filter(init, p), Filter(init, q);
      assert s == init + [x];
      assert multiset(s) == multiset(init) + multiset{x};
      if p(x) {
        assert Filter(s, p) == fp + [x] && Filter(s, q) == fq;
        assert multiset(fp + [x]) == multiset(fp) + multiset{x};
      } else {
        assert Filter(s, p) == fp && Filter(s, q) == fq + [x];
        assert multiset(fq + [x]) == multiset(fq) + multiset{x};
      }
    }
  }

  /** One block of elements per key, the blocks in key order. */
  function Blocks<K, V>(keys: seq<K>, block: K -> seq<V>): seq<V> {
    if keys == [] then [] else Blocks(keys[..|keys| - 1], block) + block(keys[|keys| - 1])
  }

  lemma {:induction false} BlocksAppend<K, V>(a: seq<K>, b: seq<K>, block: K -> seq<V>)
    ensures Blocks(a + b, block) == Blocks(a, block) + Blocks(b, block)
    decreases |b|
  {
    if b == [] {
      assert a + b == a;
    } else {
      var init := b[..|b| - 1];
      assert (a + b)[..|a + b| - 1] == a + init && (a + b)[|a + b| - 1] == b[|b| - 1];
      BlocksAppend(a, init, block);
    }
  }

  /** The blocks of the batches from `start` on: the block of the batch there, then those of
      the batches from the next start. */
  lemma BlocksOfBatchesStep<T, V>(s: seq<T>, start: nat, n: nat, block: seq<T> -> seq<V>)
    requires n > 0 && start < |s|
    ensures Blocks(Text.Batches(s[start..], n), block)
      == block(Text.Take(s[start..], n)) + Blocks(Text.Batches(s[Text.NextBatchStart(|s|, start, n)..], n), block)
  {
    var batch := Text.Take(s[start..], n);
    var later := Text.Batches(s[Text.NextBatchStart(|s|, start, n)..], n);
    Text.BatchesStep(s, start, n);
    BlocksAppend([batch], later, block);
    var none: seq<seq<T>> := [];
    assert [batch][..0] == none;
  }

  /** One more key of a prefix appends its block. */
  lemma BlocksSnoc<K, V>(keys: seq<K>, j: nat, block: K -> seq<V>)
    requires j < |keys|
    ensures Blocks(keys[..j + 1], block) == Blocks(keys[..j], block) + block(keys[j])
  {
    var k1 := keys[..j + 1];
    assert k1[..|k1| - 1] == keys[..j];
    assert k1[|k1| - 1] == keys[j];
  }

  /** Every element of the blocks comes from the block of some key. */
  lemma {:induction false} BlocksMember<K, V>(keys: seq<K>, block: K -> seq<V>, x: V)
    requires x in Blocks(keys, block)
    ensures exists j :: 0 <= j < |keys| && x in block(keys[j])
    decreases |keys|
  {
    var init := keys[..|keys| - 1];
    if x in Blocks(init, block) {
      BlocksMember(init, block, x);
      var j :| 0 <= j < |init| && x in block(init[j]);
      assert keys[j] == init[j];
    } else {
      assert x in block(keys[|keys| - 1]);
    }
  }

  lemma {:induction false} BlocksOfSingletons<K, V>(keys: seq<K>, block: K -> seq<V>)
    requires forall i :: 0 <= i < |keys| ==> |block(keys[i])| == 1
    ensures |Blocks(keys, block)| == |keys|
    decreases |keys|
  {
    if keys != [] {
      BlocksOfSingletons(keys[..|keys| - 1], block);
    }
  }

  /** One step of a loop that gathers the blocks of the batches of `s` into `results`. */
  lemma BlocksLoopStep<T, V>(s: seq<T>, start: nat, n: nat, block: seq<T> -> seq<V>, results: seq<V>, rs: seq<V>)
    requires n > 0 && start < |s| && rs == block(Text.Take(s[start..], n))
    requires Blocks(Text.Batches(s, n), block) == results + Blocks(Text.Batches(s[start..], n), block)
    ensures Blocks(Text.Batches(s, n), block)
      == (results + rs) + Blocks(Text.Batches(s[Text.NextBatchStart(|s|, start, n)..], n), block)
  {
    BlocksOfBatchesStep(s, start, n, block);
  }

  /** At the end of that loop the results are all the blocks. */
  lemma BlocksLoopDone<T, V>(s: seq<T>, n: nat, block: seq<T> -> seq<V>, results: seq<V>)
    requires n > 0
    requires Blocks(Text.Batches(s, n), block) == results + Blocks(Text.Batches(s[|s|..], n), block)
    ensures Blocks(Text.Batches(s, n), block) == results
  {
    assert s[|s|..] == [];
  }


  /** The hypotheses of BlocksFilter, restricted to all keys but the last, and what they say
      about the last key's block. */
  lemma BlocksFilterInit<K, V>(keys: seq<K>, block: K -> seq<V>, p: V -> bool, k: K)
    requires keys != []
    requires forall i, j :: 0 <= i < j < |keys| ==> keys[i] != keys[j]
    requires forall j, v :: 0 <= j < |keys| && v in block(keys[j]) ==> (p(v) <==> keys[j] == k)
    ensures var init := keys[..|keys| - 1];
      && (forall i, j :: 0 <= i < j < |init| ==> init[i] != init[j])
      && (forall j, v :: 0 <= j < |init| && v in block(init[j]) ==> (p(v) <==> init[j] == k))
      && (keys[|keys| - 1] == k ==> k !in init)
      && (keys[|keys| - 1] != k ==> (k in keys <==> k in init))
    ensures var b := block(keys[|keys| - 1]);
      forall i :: 0 <= i < |b| ==> (p(b[i]) <==> keys[|keys| - 1] == k)
  {
    var init, last := keys[..|keys| - 1], keys[|keys| - 1];
    forall i, j | 0 <= i < j < |init| ensures init[i] != init[j] {
      assert init[i] == keys[i] && init[j] == keys[j];
    }
    forall j, v | 0 <= j < |init| && v in block(init[j]) ensures p(v) <==> init[j] == k {
      assert init[j] == keys[j];
    }
    if last == k {
      forall i | 0 <= i < |init| ensures init[i] != k {
        assert init[i] == keys[i];
      }
    } else {
      assert keys == init + [last];
    }
    var b := block(last);
    forall i | 0 <= i < |b| ensures p(b[i]) <==> last == k {
      assert b[i] in block(keys[|keys| - 1]);
    }
  }

  /** When the keys are distinct and `p` selects exactly the elements of the block of `k`,
      filtering the blocks by `p` yields that block. */
  lemma {:induction false} BlocksFilter<K, V>(keys: seq<K>, block: K -> seq<V>, p: V -> bool, k: K)
    requires forall i, j :: 0 <= i < j < |keys| ==> keys[i] != keys[j]
    requires forall j, v :: 0 <= j < |keys| && v in block(keys[j]) ==> (p(v) <==> keys[j] == k)
    ensures Filter(Blocks(keys, block), p) == if k in keys then block(k) else []
    decreases |keys|
  {
    if keys != [] {
      var init, last := keys[..|keys| - 1], keys[|keys| - 1];
      BlocksFilterInit(keys, block, p, k);
      BlocksFilter(init, block, p, k);
      var b := block(last);
      assert Blocks(keys, block) == Blocks(init, block) + b;
      FilterAppend(Blocks(init, block), b, p);
      if last == k {
        FilterAll(b, p);
        assert keys[|keys| - 1] in keys;
        assert Filter(Blocks(keys, block), p) == [] + b;
      } else {
        FilterNone(b, p);
        assert Filter(Blocks(keys, block), p) == Filter(Blocks(init, block), p) + [];
      }
    }
  }

  /** `r` is `s` with some elements left out, the rest in their order. */
  predicate Subseq<T(==)>(r: seq<T>, s: seq<T>)
    decreases |s|
  {
    if r == [] then true
    else if s == [] then false
    else (r[|r| - 1] == s[|s| - 1] && Subseq(r[..|r| - 1], s[..|s| - 1])) || Subseq(r, s[..|s| - 1])
  }

  lemma {:induction false} SubseqFilter<T>(r: seq<T>, s: seq<T>, p: T -> bool)
    requires Subseq(r, s)
    ensures |Filter(r, p)| <= |Filter(s, p)|
    decreases |s|
  {
    if r != [] {
      if r[|r| - 1] == s[|s| - 1] && Subseq(r[..|r| - 1], s[..|s| - 1]) {
        SubseqFilter(r[..|r| - 1], s[..|s| - 1], p);
      } else {
        SubseqFilter(r, s[..|s| - 1], p);
      }
    }
  }

  lemma {:induction false} SubseqLength<T>(r: seq<T>, s: seq<T>)
    requires Subseq(r, s)
    ensures |r| <= |s|
    decreases |s|
  {
    if r != [] {
      if r[|r| - 1] == s[|s| - 1] && Subseq(r[..|r| - 1], s[..|s| - 1]) {
        SubseqLength(r[..|r| - 1], s[..|s| - 1]);
      } else {
        SubseqLength(r, s[..|s| - 1]);
      }
    }
  }

  lemma {:induction false} SubseqMembers<T>(r: seq<T>, s: seq<T>)
    requires Subseq(r, s)
    ensures forall x :: x in r ==> x in s
    decreases |s|
  {
    if r != [] {
      if r[|r| - 1] == s[|s| - 1] && Subseq(r[..|r| - 1], s[..|s| - 1]) {
        SubseqMembers(r[..|r| - 1], s[..|s| - 1]);
        assert forall x :: x in r ==> x in r[..|r| - 1] || x == r[|r| - 1];
      } else {
        SubseqMembers(r, s[..|s| - 1]);
      }
    }
  }

  /** The keys of the elements of `s`. */
  function KeysOf<T, K>(s: seq<T>, key: T -> K): set<K> {
    set i | 0 <= i < |s| :: key(s[i])
  }

  lemma KeysOfAppend<T, K>(s: seq<T>, x: T, key: T -> K)
    ensures KeysOf(s + [x], key) == KeysOf(s, key) + {key(x)}
  {
    var l := KeysOf(s + [x], key);
    var r := KeysOf(s, key) + {key(x)};
    forall k | k in l ensures k in r {
      var i :| 0 <= i < |s| + 1 && key((s + [x])[i]) == k;
      if i < |s| {
        assert key(s[i]) == k;
      }
    }
    forall k | k in r ensures k in l {
      if k == key(x) {
        assert key((s + [x])[|s|]) == k;
      } else {
        var i :| 0 <= i < |s| && key(s[i]) == k;
        assert key((s + [x])[i]) == k;
      }
    }
  }

  /** Keeps each element whose key has not been seen before. */
  function DedupeBy<T, K(==)>(s: seq<T>, key: T -> K): seq<T>
    decreases |s|
  {
    if s == [] then []
    else
      var d := DedupeBy(s[..|s| - 1], key);
      if key(s[|s| - 1]) in KeysOf(d, key) then d else d + [s[|s| - 1]]
  }

  /** Deduplicating a longer sequence keeps the deduplication of its prefix as a prefix. */
  lemma {:induction false} DedupeByPrefix<T, K>(a: seq<T>, b: seq<T>, key: T -> K)
    ensures |DedupeBy(a, key)| <= |DedupeBy(a + b, key)|
    ensures DedupeBy(a + b, key)[..|DedupeBy(a, key)|] == DedupeBy(a, key)
    decreases |b|
  {
    if b == [] {
      assert a + b == a;
    } else {
      var init, x := b[..|b| - 1], b[|b| - 1];
      assert a + b == (a + init) + [x];
      DedupeByPrefix(a, init, key);
      DedupeBySnoc(a + init, x, key);
      var d, e := DedupeBy(a, key), DedupeBy(a + init, key);
      if DedupeBy(a + b, key) != e {
        assert DedupeBy(a + b, key) == e + [x];
        assert (e + [x])[..|d|] == e[..|d|];
      }
    }
  }

  /** Extending a prefix of `g` after `before` by one element. */
  lemma PrefixSnoc<T>(before: seq<T>, g: seq<T>, j: nat)
    requires j < |g|
    ensures before + g[..j + 1] == (before + g[..j]) + [g[j]]
  {
    assert g[..j + 1] == g[..j] + [g[j]];
  }

  /** One step of the `seen`-set loop: the next element is kept iff its key is new. */
  lemma DedupeBySnoc<T, K>(s: seq<T>, x: T, key: T -> K)
    ensures DedupeBy(s + [x], key) ==
      if key(x) in KeysOf(DedupeBy(s, key), key) then DedupeBy(s, key) else DedupeBy(s, key) + [x]
  {
    assert (s + [x])[..|s|] == s;
  }

  /** One step of a `seen`-set loop over `s`, stated for its `i`-th element. */
  lemma DedupeStep<T, K>(s: seq<T>, i: nat, kept: seq<T>, key: T -> K)
    requires i < |s| && kept == DedupeBy(s[..i], key)
    ensures key(s[i]) in KeysOf(kept, key) ==> DedupeBy(s[..i + 1], key) == kept
    ensures key(s[i]) !in KeysOf(kept, key) ==>
      DedupeBy(s[..i + 1], key) == kept + [s[i]] && KeysOf(kept + [s[i]], key) == KeysOf(kept, key) + {key(s[i])}
  {
    assert s[..i + 1] == s[..i] + [s[i]];
    DedupeBySnoc(s[..i], s[i], key);
    KeysOfAppend(kept, s[i], key);
  }

  /** A sequence has at most as many keys as elements. */
  lemma {:induction false} KeysOfSize<T, K>(s: seq<T>, key: T -> K)
    ensures |KeysOf(s, key)| <= |s|
    decreases |s|
  {
    if s != [] {
      var init := s[..|s| - 1];
      KeysOfSize(init, key);
      assert s == init + [s[|s| - 1]];
      KeysOfAppend(init, s[|s| - 1], key);
    }
  }

  /** One step of a `seen`-set loop: `x` is appended and its key recorded unless the key has
      been seen. */
  method AddIfNew<T, K>(x: T, key: T -> K, results: seq<T>, seen: set<K>, ghost before: seq<T>)
    returns (results': seq<T>, seen': set<K>)
    requires results == DedupeBy(before, key) && seen == KeysOf(results, key)
    ensures results' == DedupeBy(before + [x], key) && seen' == KeysOf(results', key)
  {
    DedupeBySnoc(before, x, key);
    results', seen' := results, seen;
    if key(x) !in seen {
      KeysOfAppend(results, x, key);
      seen' := seen + {key(x)};
      results' := results + [x];
    }
  }

  predicate DistinctKeys<T, K(==)>(s: seq<T>, key: T -> K) {
    forall i, j :: 0 <= i < j < |s| ==> key(s[i]) != key(s[j])
  }

  /** Appending keeps keys distinct exactly when the new key is not among the old ones. */
  lemma DistinctSnoc<T, K>(s: seq<T>, x: T, key: T -> K)
    ensures DistinctKeys(s + [x], key) <==> DistinctKeys(s, key) && key(x) !in KeysOf(s, key)
  {
    var t := s + [x];
    if DistinctKeys(t, key) {
      forall i, j | 0 <= i < j < |s| ensures key(s[i]) != key(s[j]) {
        assert t[i] == s[i] && t[j] == s[j];
      }
      forall i | 0 <= i < |s| ensures key(s[i]) != key(x) {
        assert t[i] == s[i] && t[|s|] == x;
      }
    }
    if DistinctKeys(s, key) && key(x) !in KeysOf(s, key) {
      forall i, j | 0 <= i < j < |t| ensures key(t[i]) != key(t[j]) {
        assert t[i] == s[i];
        if j < |s| {
          assert t[j] == s[j];
        } else {
          assert key(s[i]) in KeysOf(s, key);
        }
      }
    }
  }

  /** Deduplication leaves one element per key, loses no key and keeps the elements it keeps in
      their order. */
  lemma {:induction false} DedupeByProperties<T, K>(s: seq<T>, key: T -> K)
    ensures DistinctKeys(DedupeBy(s, key), key)
    ensures KeysOf(DedupeBy(s, key), key) == KeysOf(s, key)
    ensures Subseq(DedupeBy(s, key), s)
    decreases |s|
  {
    if s != [] {
      var init := s[..|s| - 1];
      var x := s[|s| - 1];
      var d := DedupeBy(init, key);
      DedupeByProperties(init, key);
      KeysOfAppend(init, x, key);
      assert s == init + [x];
      if key(x) !in KeysOf(d, key) {
        KeysOfAppend(d, x, key);
        forall i | 0 <= i < |d| ensures key(d[i]) != key(x) {
          assert key(d[i]) in KeysOf(d, key);
        }
        assert (d + [x])[..|d|] == d;
      } else {
        SubseqExtend(d, init, x);
      }
    }
  }

  /** Deduplicating by a key loses no value of a coarser key (one that equal keys agree on). */
  lemma DedupeKeepsCoarseKeys<T, K, L>(s: seq<T>, key: T -> K, coarse: T -> L)
    requires forall a, b :: key(a) == key(b) ==> coarse(a) == coarse(b)
    ensures KeysOf(DedupeBy(s, key), coarse) == KeysOf(s, coarse)
  {
    var d := DedupeBy(s, key);
    DedupeByProperties(s, key);
    SubseqMembers(d, s);
    forall c | c in KeysOf(s, coarse) ensures c in KeysOf(d, coarse) {
      var i :| 0 <= i < |s| && coarse(s[i]) == c;
      assert key(s[i]) in KeysOf(s, key);
      var j :| 0 <= j < |d| && key(d[j]) == key(s[i]);
      CoarseAgrees(d[j], s[i], key, coarse);
    }
    forall c | c in KeysOf(d, coarse) ensures c in KeysOf(s, coarse) {
      var j :| 0 <= j < |d| && coarse(d[j]) == c;
      assert d[j] in s;
      var i :| 0 <= i < |s| && s[i] == d[j];
      assert coarse(s[i]) == c;
    }
  }

  lemma CoarseAgrees<T, K, L>(x: T, y: T, key: T -> K, coarse: T -> L)
    requires forall a, b :: key(a) == key(b) ==> coarse(a) == coarse(b)
    requires key(x) == key(y)
    ensures coarse(x) == coarse(y)
  {
  }

  lemma {:induction false} SubseqExtend<T>(r: seq<T>, s: seq<T>, x: T)
    requires Subseq(r, s)
    ensures Subseq(r, s + [x])
  {
    if r != [] {
      assert (s + [x])[..|s|] == s;
    }
  }

  /** The first element is always kept, in first place. */
  lemma {:induction false} DedupeByHead<T, K>(s: seq<T>, key: T -> K)
    requires s != []
    ensures DedupeBy(s, key) != [] && DedupeBy(s, key)[0] == s[0]
    decreases |s|
  {
    if |s| > 1 {
      var init := s[..|s| - 1];
      DedupeByHead(init, key);
      assert init[0] == s[0];
    }
  }

  /** Each kept element is the first of its key in `s`. */
  lemma {:induction false} DedupeByFirst<T, K>(s: seq<T>, key: T -> K, i: nat)
    requires i < |s| && forall j :: 0 <= j < i ==> key(s[j]) != key(s[i])
    ensures s[i] in DedupeBy(s, key)
    decreases |s|
  {
    var init := s[..|s| - 1];
    var d := DedupeBy(init, key);
    if i == |s| - 1 {
      DedupeByProperties(init, key);
      forall j | 0 <= j < |init| ensures key(init[j]) != key(s[i]) {
        assert init[j] == s[j];
      }
      assert key(s[i]) !in KeysOf(init, key);
    } else {
      DedupeByFirst(init, key, i);
    }
  }
  /** Deduplicating by a coarser key (one that equal fine keys agree on) keeps a subsequence of
      what deduplicating by the fine key keeps. */
  lemma {:induction false} DedupeCoarserSubseq<T, K, L>(s: seq<T>, fine: T -> K, coarse: T -> L)
    requires forall a, b :: fine(a) == fine(b) ==> coarse(a) == coarse(b)
    ensures Subseq(DedupeBy(s, coarse), DedupeBy(s, fine))
    decreases |s|
  {
    if s != [] {
      var init := s[..|s| - 1];
      var x := s[|s| - 1];
      var dc, df := DedupeBy(init, coarse), DedupeBy(init, fine);
      DedupeCoarserSubseq(init, fine, coarse);
      if coarse(x) in KeysOf(dc, coarse) {
        SubseqExtend(dc, df, x);
      } else {
        DedupeByProperties(init, coarse);
        DedupeByProperties(init, fine);
        SubseqMembers(df, init);
        forall j | 0 <= j < |df| ensures fine(df[j]) != fine(x) {
          assert df[j] in init;
          var i :| 0 <= i < |init| && init[i] == df[j];
          assert coarse(init[i]) in KeysOf(init, coarse);
          assert coarse(df[j]) != coarse(x);
        }
        assert fine(x) !in KeysOf(df, fine);
        assert (dc + [x])[..|dc|] == dc && (df + [x])[..|df|] == df;
      }
    }
  }

  /** When no two elements of `s` share the coarse key without sharing the fine one, both keys
      deduplicate alike. */
  lemma {:induction false} DedupeSameKeys<T, K, L>(s: seq<T>, fine: T -> K, coarse: T -> L)
    requires forall a, b :: fine(a) == fine(b) ==> coarse(a) == coarse(b)
    requires forall a, b :: a in s && b in s && coarse(a) == coarse(b) ==> fine(a) == fine(b)
    ensures DedupeBy(s, coarse) == DedupeBy(s, fine)
    decreases |s|
  {
    if s != [] {
      var init := s[..|s| - 1];
      var x := s[|s| - 1];
      assert forall a :: a in init ==> a in s;
      DedupeSameKeys(init, fine, coarse);
      var d := DedupeBy(init, fine);
      DedupeByProperties(init, fine);
      SubseqMembers(d, init);
      if coarse(x) in KeysOf(d, coarse) {
        var j :| 0 <= j < |d| && coarse(d[j]) == coarse(x);
        assert d[j] in s;
        assert fine(d[j]) in KeysOf(d, fine);
      }
      if fine(x) in KeysOf(d, fine) {
        var j :| 0 <= j < |d| && fine(d[j]) == fine(x);
        CoarseAgrees(d[j], x, fine, coarse);
        assert coarse(d[j]) in KeysOf(d, coarse);
      }
    }
  }
}
