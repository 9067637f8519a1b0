/** Sequence helpers shared by the model: LINQ's Count, Where, GroupBy(key).Select(First)
    (first occurrence per key) and the stable OrderBy, as functions over `seq`. */
module Seqs {

  /** How many elements satisfy `p` (LINQ `Count(p)`), counted up to the last element. */
  function Count<T>(s: seq<T>, p: T -> bool): (n: nat)
    ensures n <= |s|
    ensures n == 0 <==> forall i :: 0 <= i < |s| ==> !p(s[i])
    ensures n == |s| <==> forall i :: 0 <= i < |s| ==> p(s[i])
  {
    if s == [] then 0
    else
      var init := s[..|s| - 1];
      assert forall i :: 0 <= i < |init| ==> init[i] == s[i];
      Count(init, p) + (if p(s[|s| - 1]) then 1 else 0)
  }

  /** The elements that satisfy `p`, in order (LINQ `Where(p)`). */
  function Filter<T>(s: seq<T>, p: T -> bool): (r: seq<T>)
    ensures |r| <= |s|
  {
    if s == [] then [] else if p(s[0]) then [s[0]] + Filter(s[1..], p) else Filter(s[1..], p)
  }

  /** `Filter` keeps exactly the elements that satisfy `p`. */
  lemma {:induction false} FilterSpec<T>(s: seq<T>, p: T -> bool)
    ensures forall i :: 0 <= i < |Filter(s, p)| ==> p(Filter(s, p)[i]) && Filter(s, p)[i] in s
    ensures forall x :: x in s && p(x) ==> x in Filter(s, p)
  {
    if s != [] {
      FilterSpec(s[1..], p);
      assert forall x :: x in s[1..] ==> x in s;
      assert forall x :: x in s && x != s[0] ==> x in s[1..];
    }
  }

  /** Filtering by a predicate every element satisfies keeps everything. */
  lemma {:induction false} FilterAll<T>(s: seq<T>, p: T -> bool)
    requires forall i :: 0 <= i < |s| ==> p(s[i])
    ensures Filter(s, p) == s
  {
    if s != [] {
      assert forall i :: 0 <= i < |s[1..]| ==> s[1..][i] == s[i + 1];
      FilterAll(s[1..], p);
    }
  }

  /** Filtering one more element. */
  lemma {:induction false} FilterSnoc<T>(s: seq<T>, x: T, p: T -> bool)
    ensures Filter(s + [x], p) == Filter(s, p) + (if p(x) then [x] else [])
  {
    if s != [] {
      FilterSnoc(s[1..], x, p);
      assert (s + [x])[1..] == s[1..] + [x];
    }
  }

  /** Index of the first element whose key is `k`; `|s|` when there is none. */
  function FirstKeyIndex<T, K(==)>(s: seq<T>, key: T -> K, k: K): (n: nat)
    ensures n <= |s|
    ensures n < |s| ==> key(s[n]) == k
    ensures forall j :: 0 <= j < n ==> key(s[j]) != k
  {
    if s == [] then 0
    else if key(s[0]) == k then 0
    else
      var n := FirstKeyIndex(s[1..], key, k);
      assert forall j :: 1 <= j < |s| ==> s[j] == s[1..][j - 1];
      1 + n
  }

  /** No two elements share a key. */
  predicate DistinctKeys<T, K(==)>(s: seq<T>, key: T -> K) {
    forall i, j :: 0 <= i < j < |s| ==> key(s[i]) != key(s[j])
  }

  /** Filtering keeps keys distinct. */
  lemma {:induction false} FilterKeepsDistinctKeys<T, K>(s: seq<T>, p: T -> bool, key: T -> K)
    requires DistinctKeys(s, key)
    ensures DistinctKeys(Filter(s, p), key)
  {
    if s != [] {
      FilterKeepsDistinctKeys(s[1..], p, key);
      FilterSpec(s[1..], p);
      var rest := Filter(s[1..], p);
      if p(s[0]) {
        forall j | 0 <= j < |rest| ensures key(s[0]) != key(rest[j]) {
          var k :| 0 <= k < |s[1..]| && s[1..][k] == rest[j];
          assert s[k + 1] == rest[j];
        }
      }
    }
  }

  /** The first element of `s` for each key not already in `seen`, in the order of
      first occurrence (the loop `if (seen.Add(key(x))) result.Add(x)`, and
      `GroupBy(key).Select(g => g.First())`). */
  function DistinctFrom<T, K(==)>(s: seq<T>, key: T -> K, seen: set<K>): (r: seq<T>)
    ensures |r| <= |s|
  {
    if s == [] then []
    else if key(s[0]) in seen then DistinctFrom(s[1..], key, seen)
    else [s[0]] + DistinctFrom(s[1..], key, seen + {key(s[0])})
  }

  /** `DistinctFrom` keeps only elements of `s` whose keys were not seen. */
  lemma {:induction false} DistinctFromSubset<T, K>(s: seq<T>, key: T -> K, seen: set<K>)
    ensures forall i :: 0 <= i < |DistinctFrom(s, key, seen)| ==>
      DistinctFrom(s, key, seen)[i] in s && key(DistinctFrom(s, key, seen)[i]) !in seen
  {
    if s != [] {
      var tail := s[1..];
      var k0 := key(s[0]);
      var r := DistinctFrom(s, key, seen);
      if k0 in seen {
        DistinctFromSubset(tail, key, seen);
        assert r == DistinctFrom(tail, key, seen);
        forall i | 0 <= i < |r| ensures r[i] in s {
          assert r[i] in tail;
          var j :| 0 <= j < |tail| && tail[j] == r[i];
          assert s[j + 1] == r[i];
        }
      } else {
        var rest := DistinctFrom(tail, key, seen + {k0});
        DistinctFromSubset(tail, key, seen + {k0});
        assert r == [s[0]] + rest;
        forall i | 0 <= i < |r| ensures r[i] in s && key(r[i]) !in seen {
          if i > 0 {
            assert r[i] == rest[i - 1];
            assert rest[i - 1] in tail;
            var j :| 0 <= j < |tail| && tail[j] == r[i];
            assert s[j + 1] == r[i];
          }
        }
      }
    }
  }

  /** `DistinctFrom` never keeps two elements with the same key. */
  lemma {:induction false} DistinctFromDistinct<T, K>(s: seq<T>, key: T -> K, seen: set<K>)
    ensures DistinctKeys(DistinctFrom(s, key, seen), key)
  {
    if s != [] {
      var tail := s[1..];
      var k0 := key(s[0]);
      if k0 in seen {
        DistinctFromDistinct(tail, key, seen);
      } else {
        var r := DistinctFrom(s, key, seen);
        var rest := DistinctFrom(tail, key, seen + {k0});
        DistinctFromDistinct(tail, key, seen + {k0});
        DistinctFromSubset(tail, key, seen + {k0});
        forall i, j | 0 <= i < j < |r| ensures key(r[i]) != key(r[j]) {
          assert r[j] == rest[j - 1];
          if i > 0 { assert r[i] == rest[i - 1]; }
        }
      }
    }
  }

  /** `DistinctFrom` keeps an element for every key of `s` that was not seen. */
  lemma {:induction false} DistinctFromCovers<T, K>(s: seq<T>, key: T -> K, seen: set<K>, x: T)
    requires x in s && key(x) !in seen
    ensures exists i :: 0 <= i < |DistinctFrom(s, key, seen)| && key(DistinctFrom(s, key, seen)[i]) == key(x)
  {
    var tail := s[1..];
    var k0 := key(s[0]);
    var r := DistinctFrom(s, key, seen);
    if k0 in seen {
      assert x in tail;
      DistinctFromCovers(tail, key, seen, x);
    } else if key(x) == k0 {
      assert key(r[0]) == key(x);
    } else {
      var rest := DistinctFrom(tail, key, seen + {k0});
      assert x in tail;
      DistinctFromCovers(tail, key, seen + {k0}, x);
      var i :| 0 <= i < |rest| && key(rest[i]) == key(x);
      assert r[i + 1] == rest[i];
    }
  }

  /** Each element `DistinctFrom` keeps is the first element of `s` with its key. */
  lemma {:induction false} DistinctFromKeepsFirst<T, K>(s: seq<T>, key: T -> K, seen: set<K>)
    ensures forall i :: 0 <= i < |DistinctFrom(s, key, seen)| ==>
      FirstKeyIndex(s, key, key(DistinctFrom(s, key, seen)[i])) < |s| &&
      s[FirstKeyIndex(s, key, key(DistinctFrom(s, key, seen)[i]))] == DistinctFrom(s, key, seen)[i]
  {
    if s != [] {
      var tail := s[1..];
      var k0 := key(s[0]);
      var r := DistinctFrom(s, key, seen);
      if k0 in seen {
        DistinctFromKeepsFirst(tail, key, seen);
        DistinctFromSubset(tail, key, seen);
        assert r == DistinctFrom(tail, key, seen);
        forall i | 0 <= i < |r|
          ensures FirstKeyIndex(s, key, key(r[i])) < |s| && s[FirstKeyIndex(s, key, key(r[i]))] == r[i]
        {
          assert key(r[i]) != k0;
          assert FirstKeyIndex(s, key, key(r[i])) == 1 + FirstKeyIndex(tail, key, key(r[i]));
        }
      } else {
        var rest := DistinctFrom(tail, key, seen + {k0});
        DistinctFromKeepsFirst(tail, key, seen + {k0});
        DistinctFromSubset(tail, key, seen + {k0});
        forall i | 0 <= i < |r|
          ensures FirstKeyIndex(s, key, key(r[i])) < |s| && s[FirstKeyIndex(s, key, key(r[i]))] == r[i]
        {
          if i > 0 {
            assert r[i] == rest[i - 1];
            assert key(r[i]) != k0;
            assert FirstKeyIndex(s, key, key(r[i])) == 1 + FirstKeyIndex(tail, key, key(r[i]));
          }
        }
      }
    }
  }

  /** `DistinctFrom` keeps the order of first occurrence. */
  lemma {:induction false} DistinctFromInOrder<T, K>(s: seq<T>, key: T -> K, seen: set<K>)
    ensures forall i, j :: 0 <= i < j < |DistinctFrom(s, key, seen)| ==>
      FirstKeyIndex(s, key, key(DistinctFrom(s, key, seen)[i])) < FirstKeyIndex(s, key, key(DistinctFrom(s, key, seen)[j]))
  {
    if s != [] {
      var tail := s[1..];
      var k0 := key(s[0]);
      var r := DistinctFrom(s, key, seen);
      if k0 in seen {
        DistinctFromInOrder(tail, key, seen);
        DistinctFromSubset(tail, key, seen);
        assert r == DistinctFrom(tail, key, seen);
        forall i, j | 0 <= i < j < |r|
          ensures FirstKeyIndex(s, key, key(r[i])) < FirstKeyIndex(s, key, key(r[j]))
        {
          assert FirstKeyIndex(s, key, key(r[i])) == 1 + FirstKeyIndex(tail, key, key(r[i]));
          assert FirstKeyIndex(s, key, key(r[j])) == 1 + FirstKeyIndex(tail, key, key(r[j]));
        }
      } else {
        var rest := DistinctFrom(tail, key, seen + {k0});
        DistinctFromInOrder(tail, key, seen + {k0});
        DistinctFromSubset(tail, key, seen + {k0});
        forall i, j | 0 <= i < j < |r|
          ensures FirstKeyIndex(s, key, key(r[i])) < FirstKeyIndex(s, key, key(r[j]))
        {
          assert r[j] == rest[j - 1] && key(r[j]) != k0;
          assert FirstKeyIndex(s, key, key(r[j])) == 1 + FirstKeyIndex(tail, key, key(r[j]));
          if i > 0 {
            assert r[i] == rest[i - 1] && key(r[i]) != k0;
            assert FirstKeyIndex(s, key, key(r[i])) == 1 + FirstKeyIndex(tail, key, key(r[i]));
          }
        }
      }
    }
  }

  /** `DistinctFrom` with nothing seen yet (LINQ `GroupBy(key).Select(g => g.First())`). */
  function DistinctBy<T, K(==)>(s: seq<T>, key: T -> K): (r: seq<T>)
    ensures |r| <= |s|
    ensures forall i :: 0 <= i < |r| ==> r[i] in s
    ensures DistinctKeys(r, key)
  {
    DistinctFromSubset(s, key, {});
    DistinctFromDistinct(s, key, {});
    DistinctFrom(s, key, {})
  }

  /** Every key of `s` is represented in `DistinctBy(s, key)`. */
  lemma DistinctByCovers<T, K>(s: seq<T>, key: T -> K, x: T)
    requires x in s
    ensures exists i :: 0 <= i < |DistinctBy(s, key)| && key(DistinctBy(s, key)[i]) == key(x)
  {
    assert DistinctBy(s, key) == DistinctFrom(s, key, {});
    DistinctFromCovers(s, key, {}, x);
  }

  // ---------------------------------------------------------------------------
  // Stable sorting (LINQ OrderBy) by a total preorder

  /** `le` is total and transitive: the order a key selector induces. */
  ghost predicate TotalPreorder<T(!new)>(le: (T, T) -> bool) {
    && (forall a, b :: le(a, b) || le(b, a))
    && (forall a, b, c :: le(a, b) && le(b, c) ==> le(a, c))
  }

  predicate SortedBy<T>(s: seq<T>, le: (T, T) -> bool) {
    forall i, j :: 0 <= i < j < |s| ==> le(s[i], s[j])
  }

  /** Inserts `x` before the first element it does not exceed, so an element
      inserted later in the algorithm (earlier in the input) stays in front of
      equal elements: this is what makes `SortBy` stable. */
  function Insert<T>(x: T, s: seq<T>, le: (T, T) -> bool): (r: seq<T>)
    ensures |r| == |s| + 1
    ensures multiset(r) == multiset(s) + multiset{x}
  {
    if s == [] || le(x, s[0]) then [x] + s
    else
      assert s == [s[0]] + s[1..];
      [s[0]] + Insert(x, s[1..], le)
  }

  /** Every element of an insertion is the inserted one or comes from `s`. */
  lemma InsertFrom<T>(x: T, s: seq<T>, le: (T, T) -> bool, j: nat)
    requires j < |Insert(x, s, le)|
    ensures Insert(x, s, le)[j] == x || Insert(x, s, le)[j] in s
  {
    var r := Insert(x, s, le);
    assert r[j] in multiset(r);
  }

  lemma {:induction false} InsertKeepsSorted<T(!new)>(x: T, s: seq<T>, le: (T, T) -> bool)
    requires TotalPreorder(le)
    requires SortedBy(s, le)
    ensures SortedBy(Insert(x, s, le), le)
    decreases |s|
  {
    var r := Insert(x, s, le);
    if s == [] || le(x, s[0]) {
      assert r == [x] + s;
      forall i, j | 0 <= i < j < |r| ensures le(r[i], r[j]) {
        if i == 0 {
          assert r[j] == s[j - 1];
          if j > 1 { assert le(s[0], s[j - 1]); }
        } else {
          assert r[i] == s[i - 1] && r[j] == s[j - 1];
        }
      }
    } else {
      var tail := s[1..];
      var rest := Insert(x, tail, le);
      assert r == [s[0]] + rest;
      assert SortedBy(tail, le) by {
        forall i, j | 0 <= i < j < |tail| ensures le(tail[i], tail[j]) {
          assert tail[i] == s[i + 1] && tail[j] == s[j + 1];
        }
      }
      InsertKeepsSorted(x, tail, le);
      assert le(s[0], x);
      forall j | 0 <= j < |rest| ensures le(s[0], rest[j]) {
        InsertFrom(x, tail, le, j);
        if rest[j] != x {
          var k :| 0 <= k < |tail| && tail[k] == rest[j];
          assert s[k + 1] == rest[j];
        }
      }
      forall i, j | 0 <= i < j < |r| ensures le(r[i], r[j]) {
        if i == 0 { assert r[j] == rest[j - 1]; }
        else { assert r[i] == rest[i - 1] && r[j] == rest[j - 1]; }
      }
    }
  }

  /** Stable sort by `le` (LINQ `OrderBy`): a sorted permutation of `s`. */
  function SortBy<T>(s: seq<T>, le: (T, T) -> bool): (r: seq<T>)
    ensures |r| == |s|
    ensures multiset(r) == multiset(s)
  {
    if s == [] then []
    else
      assert s == [s[0]] + s[1..];
      Insert(s[0], SortBy(s[1..], le), le)
  }

  /** The result of `SortBy` is in order. */
  lemma {:induction false} SortByIsSorted<T(!new)>(s: seq<T>, le: (T, T) -> bool)
    requires TotalPreorder(le)
    ensures SortedBy(SortBy(s, le), le)
  {
    if s != [] {
      SortByIsSorted(s[1..], le);
      InsertKeepsSorted(s[0], SortBy(s[1..], le), le);
    }
  }

  /** Sorting a sequence that is already in order leaves it as it is. */
  lemma {:induction false} SortBySorted<T(!new)>(s: seq<T>, le: (T, T) -> bool)
    requires TotalPreorder(le)
    requires SortedBy(s, le)
    ensures SortBy(s, le) == s
  {
    if s != [] {
      assert SortedBy(s[1..], le) by {
        forall i, j | 0 <= i < j < |s[1..]| ensures le(s[1..][i], s[1..][j]) {
          assert s[1..][i] == s[i + 1] && s[1..][j] == s[j + 1];
        }
      }
      SortBySorted(s[1..], le);
      assert s == [s[0]] + s[1..];
      if |s| > 1 {
        assert le(s[0], s[1]) && s[1..][0] == s[1];
      }
    }
  }

  /** `s.Select(f)`. */
  function Map<T, U>(s: seq<T>, f: T -> U): (r: seq<U>)
    ensures |r| == |s|
    ensures forall i :: 0 <= i < |s| ==> r[i] == f(s[i])
  {
    if s == [] then [] else [f(s[0])] + Map(s[1..], f)
  }

  /** The order on elements that compares their keys (`OrderBy(key, comparer)`). */
  function ByKey<T, K>(key: T -> K, le: (K, K) -> bool): (T, T) -> bool {
    (a: T, b: T) => le(key(a), key(b))
  }

  /** Inserting by key, then taking keys, is inserting the key. */
  lemma {:induction false} InsertByKey<T, K>(x: T, s: seq<T>, key: T -> K, le: (K, K) -> bool)
    ensures Map(Insert(x, s, ByKey(key, le)), key) == Insert(key(x), Map(s, key), le)
  {
    if s != [] && !le(key(x), key(s[0])) {
      InsertByKey(x, s[1..], key, le);
      assert Map(s, key)[1..] == Map(s[1..], key);
    }
  }

  /** The keys of a sequence sorted by key are the sorted keys. */
  lemma {:induction false} SortByKey<T, K>(s: seq<T>, key: T -> K, le: (K, K) -> bool)
    ensures Map(SortBy(s, ByKey(key, le)), key) == SortBy(Map(s, key), le)
  {
    if s != [] {
      SortByKey(s[1..], key, le);
      InsertByKey(s[0], SortBy(s[1..], ByKey(key, le)), key, le);
      assert Map(s, key)[1..] == Map(s[1..], key);
    }
  }

  /** A permutation of a sequence whose keys are distinct has distinct keys. */
  lemma {:induction false} PermutationKeepsDistinctKeys<T, K>(a: seq<T>, b: seq<T>, key: T -> K)
    requires multiset(a) == multiset(b)
    requires DistinctKeys(a, key)
    ensures DistinctKeys(b, key)
  {
    forall i, j | 0 <= i < j < |b| ensures key(b[i]) != key(b[j]) {
      if key(b[i]) == key(b[j]) {
        assert b[i] in multiset(a) && b[j] in multiset(a);
        var p :| 0 <= p < |a| && a[p] == b[i];
        var q :| 0 <= q < |a| && a[q] == b[j];
        if p == q {
          // b[i] == b[j] occurs twice in b, so twice in a: a second index in a
          assert b[i] == b[j];
          MultisetCountAtLeastTwo(b, i, j);
          assert multiset(a)[a[p]] >= 2;
          var p2 := OtherIndex(a, p);
          assert false;
        } else {
          assert false;
        }
      }
    }
  }

  lemma {:induction false} MultisetCountAtLeastTwo<T>(s: seq<T>, i: nat, j: nat)
    requires i < j < |s| && s[i] == s[j]
    ensures multiset(s)[s[i]] >= 2
  {
    assert s == s[..i] + [s[i]] + s[i + 1..];
    assert s[i + 1..] == s[i + 1..j] + [s[j]] + s[j + 1..];
    assert multiset(s)[s[i]] == multiset(s[..i])[s[i]] + 1 + multiset(s[i + 1..])[s[i]];
    assert multiset(s[i + 1..])[s[i]] >= 1;
  }

  /** An element counted at least twice occurs at a second index. */
  lemma {:induction false} OtherIndex<T>(s: seq<T>, p: nat) returns (q: nat)
    requires p < |s| && multiset(s)[s[p]] >= 2
    ensures q < |s| && q != p && s[q] == s[p]
  {
    var x := s[p];
    assert s == s[..p] + [x] + s[p + 1..];
    assert multiset(s)[x] == multiset(s[..p])[x] + 1 + multiset(s[p + 1..])[x];
    if multiset(s[..p])[x] >= 1 {
      assert x in multiset(s[..p]);
      var k :| 0 <= k < p && s[..p][k] == x;
      q := k;
    } else {
      assert x in multiset(s[p + 1..]);
      var k :| 0 <= k < |s| - p - 1 && s[p + 1..][k] == x;
      q := p + 1 + k;
    }
  }
}
