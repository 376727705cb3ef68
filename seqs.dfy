/**
  Sequence operations the backend builds its queries from: `filter`, `map`,
  `find`, `take`, and JavaScript's `Array.prototype.sort` with a numeric key,
  which is stable (ties keep their input order).
 */
module Seqs {
  import opened Wrappers

  /** `s.filter(p)`: the elements satisfying `p`, in their original order. */
  function Filter<T>(s: seq<T>, p: T -> bool): (r: seq<T>)
    ensures |r| <= |s|
  {
    if s == [] then []
    else (if p(s[0]) then [s[0]] else []) + Filter(s[1..], p)
  }

  /** `s.map(f)`. */
  function Map<A, B>(s: seq<A>, f: A -> B): (r: seq<B>)
    ensures |r| == |s|
    ensures forall i :: 0 <= i < |s| ==> r[i] == f(s[i])
  {
    if s == [] then [] else [f(s[0])] + Map(s[1..], f)
  }

  /** The index of the first element satisfying `p` (`findIndex`, or `.first()` of an index lookup). */
  function IndexWhere<T>(s: seq<T>, p: T -> bool): (r: Option<nat>)
    ensures r.Some? ==> r.value < |s| && p(s[r.value]) && forall j :: 0 <= j < r.value ==> !p(s[j])
    ensures r.None? <==> forall j :: 0 <= j < |s| ==> !p(s[j])
  {
    if s == [] then None
    else if p(s[0]) then Some(0)
    else match IndexWhere(s[1..], p)
      case None => None
      case Some(k) => Some(k + 1)
  }

  /** `s.find(p)`: the first element satisfying `p`. */
  function Find<T>(s: seq<T>, p: T -> bool): (r: Option<T>)
    ensures r.Some? ==> exists k :: 0 <= k < |s| && s[k] == r.value && p(s[k]) && forall j :: 0 <= j < k ==> !p(s[j])
    ensures r.None? <==> forall j :: 0 <= j < |s| ==> !p(s[j])
  {
    match IndexWhere(s, p)
    case None => None
    case Some(k) => Some(s[k])
  }

  /** The sequence backwards; a descending index scan visits documents this way. */
  function Reverse<T>(s: seq<T>): (r: seq<T>)
    ensures |r| == |s|
    ensures forall i :: 0 <= i < |s| ==> r[i] == s[|s| - 1 - i]
  {
    if s == [] then [] else Reverse(s[1..]) + [s[0]]
  }

  /** `.take(n)`: at most the first `n` elements. */
  function Take<T>(s: seq<T>, n: nat): (r: seq<T>)
    ensures |r| == if n < |s| then n else |s|
    ensures r <= s
  {
    if n < |s| then s[..n] else s
  }

  /** Every element's key is no larger than any later element's key. */
  ghost predicate SortedBy<T>(s: seq<T>, key: T -> int) {
    forall i, j :: 0 <= i < j < |s| ==> key(s[i]) <= key(s[j])
  }

  /** Stable insertion step: `x` goes before the first element whose key is at least its own. */
  function InsertBy<T>(x: T, s: seq<T>, key: T -> int): (r: seq<T>)
    ensures |r| == |s| + 1
    ensures multiset(r) == multiset(s) + multiset{x}
  {
    if s == [] || key(x) <= key(s[0]) then [x] + s
    else
      assert s == [s[0]] + s[1..];
      [s[0]] + InsertBy(x, s[1..], key)
  }

  lemma {:induction false} InsertBySorted<T>(x: T, s: seq<T>, key: T -> int)
    requires SortedBy(s, key)
    ensures SortedBy(InsertBy(x, s, key), key)
  {
    if s == [] || key(x) <= key(s[0]) {
      forall i | 0 <= i < |s| ensures key(x) <= key(s[i]) {
        if i > 0 {
          assert key(s[0]) <= key(s[i]);
        }
      }
      SortedCons(x, s, key);
    } else {
      var t := s[1..];
      assert SortedBy(t, key) by {
        forall i, j | 0 <= i < j < |t| ensures key(t[i]) <= key(t[j]) {
          assert t[i] == s[i + 1] && t[j] == s[j + 1];
        }
      }
      InsertBySorted(x, t, key);
      var rest := InsertBy(x, t, key);
      forall i | 0 <= i < |rest| ensures key(s[0]) <= key(rest[i]) {
        assert rest[i] in multiset(rest);
        assert rest[i] in multiset(t) + multiset{x};
        if rest[i] != x {
          assert rest[i] in t;
          var k :| 0 <= k < |t| && t[k] == rest[i];
          assert key(s[0]) <= key(s[k + 1]);
        }
      }
      SortedCons(s[0], rest, key);
    }
  }

  /** An element no larger than any of a sorted sequence can go in front of it. */
  lemma SortedCons<T>(x: T, s: seq<T>, key: T -> int)
    requires SortedBy(s, key)
    requires forall i :: 0 <= i < |s| ==> key(x) <= key(s[i])
    ensures SortedBy([x] + s, key)
  {
    var r := [x] + s;
    forall i, j | 0 <= i < j < |r| ensures key(r[i]) <= key(r[j]) {
      assert r[j] == s[j - 1];
      if i > 0 {
        assert r[i] == s[i - 1];
      }
    }
  }

  /** `s.sort((a, b) => key(a) - key(b))`: a stable sort by ascending key. */
  function SortBy<T>(s: seq<T>, key: T -> int): (r: seq<T>)
    ensures |r| == |s|
    ensures multiset(r) == multiset(s)
    ensures SortedBy(r, key)
  {
    if s == [] then []
    else
      var t := SortBy(s[1..], key);
      SortStep(s, t, key);
      InsertBy(s[0], t, key)
  }

  /** Inserting the head into the sorted rest sorts the whole sequence. */
  lemma SortStep<T>(s: seq<T>, t: seq<T>, key: T -> int)
    requires s != [] && multiset(t) == multiset(s[1..]) && SortedBy(t, key)
    ensures multiset(InsertBy(s[0], t, key)) == multiset(s)
    ensures SortedBy(InsertBy(s[0], t, key), key)
  {
    InsertBySorted(s[0], t, key);
    assert s == [s[0]] + s[1..];
  }

  lemma ConcatAssoc<T>(a: seq<T>, b: seq<T>, c: seq<T>, d: seq<T>)
    ensures a + (b + c + d) == (a + b) + c + d
    ensures b == [] ==> a + (b + c + d) == b + (a + c) + d
    ensures b == [] && c == [] ==> a + (b + c + d) == b + c + (a + d)
  {
  }

  lemma FilterCons<T>(x: T, t: seq<T>, p: T -> bool)
    ensures Filter([x] + t, p) == (if p(x) then [x] else []) + Filter(t, p)
  {
    assert ([x] + t)[1..] == t;
  }

  lemma {:induction false} FilterAppend<T>(a: seq<T>, b: seq<T>, p: T -> bool)
    ensures Filter(a + b, p) == Filter(a, p) + Filter(b, p)
  {
    if a == [] {
      assert a + b == b;
    } else {
      var h := if p(a[0]) then [a[0]] else [];
      assert (a + b)[0] == a[0] && (a + b)[1..] == a[1..] + b;
      FilterAppend(a[1..], b, p);
      assert Filter(a + b, p) == h + (Filter(a[1..], p) + Filter(b, p));
    }
  }

  /** Filtering keeps exactly the elements of each key class that the class predicate selects. */
  lemma {:induction false} FilterInsertBy<T>(x: T, s: seq<T>, key: T -> int, k: int)
    ensures Filter(InsertBy(x, s, key), KeyIs(key, k)) == (if key(x) == k then [x] else []) + Filter(s, KeyIs(key, k))
  {
    var p := KeyIs(key, k);
    var hx := if key(x) == k then [x] else [];
    if s == [] || key(x) <= key(s[0]) {
      assert ([x] + s)[0] == x && ([x] + s)[1..] == s;
    } else {
      var rest := InsertBy(x, s[1..], key);
      var hs := if key(s[0]) == k then [s[0]] else [];
      FilterInsertBy(x, s[1..], key, k);
      assert ([s[0]] + rest)[0] == s[0] && ([s[0]] + rest)[1..] == rest;
      var f := Filter(s[1..], p);
      assert Filter(InsertBy(x, s, key), p) == hs + (hx + f);
      assert Filter(s, p) == hs + f;
      if key(x) == k {
        assert hs == [];
        assert Filter(InsertBy(x, s, key), p) == hx + f;
        assert Filter(s, p) == f;
      } else {
        assert hx == [];
        assert Filter(InsertBy(x, s, key), p) == hs + f;
        assert hx + Filter(s, p) == Filter(s, p);
      }
    }
  }

  /**
    Stability: for every key value, the elements with that key appear in the
    sorted sequence in the same order as in the input.
   */
  lemma {:induction false} SortByStable<T>(s: seq<T>, key: T -> int, p: T -> bool, k: int)
    requires forall y :: p(y) <==> key(y) == k
    ensures Filter(SortBy(s, key), p) == Filter(s, p)
  {
    SortByKeyStable(s, key, k);
    FilterSameFun(SortBy(s, key), p, KeyIs(key, k));
    FilterSameFun(s, p, KeyIs(key, k));
  }

  /** Two tests that agree everywhere select the same elements. */
  lemma {:induction false} FilterSameFun<T>(s: seq<T>, p: T -> bool, q: T -> bool)
    requires forall y :: p(y) == q(y)
    ensures Filter(s, p) == Filter(s, q)
  {
    if s != [] {
      FilterSameFun(s[1..], p, q);
    }
  }

  lemma {:induction false} SortByKeyStable<T>(s: seq<T>, key: T -> int, k: int)
    ensures Filter(SortBy(s, key), KeyIs(key, k)) == Filter(s, KeyIs(key, k))
  {
    if s != [] {
      SortByKeyStable(s[1..], key, k);
      FilterInsertBy(s[0], SortBy(s[1..], key), key, k);
    }
  }

  lemma {:induction false} FilterNone<T>(s: seq<T>, p: T -> bool)
    requires forall i :: 0 <= i < |s| ==> !p(s[i])
    ensures Filter(s, p) == []
  {
    if s != [] {
      FilterNone(s[1..], p);
    }
  }

  lemma {:induction false} FilterAll<T>(s: seq<T>, p: T -> bool)
    requires forall i :: 0 <= i < |s| ==> p(s[i])
    ensures Filter(s, p) == s
  {
    if s != [] {
      FilterAll(s[1..], p);
      assert [s[0]] + s[1..] == s;
    }
  }

  /** The elements whose key is `k`. */
  function KeyIs<T>(key: T -> int, k: int): T -> bool {
    (y: T) => key(y) == k
  }

  /**
    A sequence sorted by a key that only takes the values 0, 1 and 2 is the
    elements of key 0, then those of key 1, then those of key 2.
   */
  lemma SortedThreeClasses<T>(s: seq<T>, key: T -> int, p0: T -> bool, p1: T -> bool, p2: T -> bool)
    requires SortedBy(s, key)
    requires forall y :: 0 <= key(y) <= 2
    requires forall y :: p0(y) <==> key(y) == 0
    requires forall y :: p1(y) <==> key(y) == 1
    requires forall y :: p2(y) <==> key(y) == 2
    ensures s == Filter(s, p0) + Filter(s, p1) + Filter(s, p2)
  {
    SortedKeyClasses(s, key);
    FilterSameFun(s, p0, KeyIs(key, 0));
    FilterSameFun(s, p1, KeyIs(key, 1));
    FilterSameFun(s, p2, KeyIs(key, 2));
  }

  lemma {:induction false} SortedKeyClasses<T>(s: seq<T>, key: T -> int)
    requires SortedBy(s, key)
    requires forall i :: 0 <= i < |s| ==> 0 <= key(s[i]) <= 2
    ensures s == Filter(s, KeyIs(key, 0)) + Filter(s, KeyIs(key, 1)) + Filter(s, KeyIs(key, 2))
  {
    if s != [] {
      var x, t := s[0], s[1..];
      assert s == [x] + t;
      assert SortedBy(t, key) by {
        forall i, j | 0 <= i < j < |t| ensures key(t[i]) <= key(t[j]) {
          assert t[i] == s[i + 1] && t[j] == s[j + 1];
        }
      }
      assert forall i :: 0 <= i < |t| ==> key(x) <= key(t[i]) <= 2 by {
        forall i | 0 <= i < |t| ensures key(x) <= key(t[i]) <= 2 {
          assert t[i] == s[i + 1];
        }
      }
      SortedKeyClasses(t, key);
      ThreeClassesCons(x, t, key);
    }
  }

  lemma ThreeClassesCons<T>(x: T, t: seq<T>, key: T -> int)
    requires forall i :: 0 <= i < |t| ==> key(x) <= key(t[i])
    requires t == Filter(t, KeyIs(key, 0)) + Filter(t, KeyIs(key, 1)) + Filter(t, KeyIs(key, 2))
    requires 0 <= key(x) <= 2
    ensures [x] + t == Filter([x] + t, KeyIs(key, 0)) + Filter([x] + t, KeyIs(key, 1)) + Filter([x] + t, KeyIs(key, 2))
  {
    var f0, f1, f2 := Filter(t, KeyIs(key, 0)), Filter(t, KeyIs(key, 1)), Filter(t, KeyIs(key, 2));
    FilterCons(x, t, KeyIs(key, 0));
    FilterCons(x, t, KeyIs(key, 1));
    FilterCons(x, t, KeyIs(key, 2));
    if key(x) >= 1 {
      FilterNone(t, KeyIs(key, 0));
    }
    if key(x) == 2 {
      FilterNone(t, KeyIs(key, 1));
    }
    Regroup([x], f0, f1, f2, Filter([x] + t, KeyIs(key, 0)), Filter([x] + t, KeyIs(key, 1)), Filter([x] + t, KeyIs(key, 2)));
  }

  /** Prepending to the first non-empty part of a three-part split. */
  lemma Regroup<T>(x: seq<T>, f0: seq<T>, f1: seq<T>, f2: seq<T>, g0: seq<T>, g1: seq<T>, g2: seq<T>)
    requires
      || (g0 == x + f0 && g1 == f1 && g2 == f2)
      || (f0 == [] && g0 == [] && g1 == x + f1 && g2 == f2)
      || (f0 == [] && f1 == [] && g0 == [] && g1 == [] && g2 == x + f2)
    ensures x + (f0 + f1 + f2) == g0 + g1 + g2
  {
  }

  /** Sorting a mapped sequence by a key of the images is mapping the sequence sorted by the matching key. */
  lemma {:induction false} InsertByMap<A, B>(x: A, s: seq<A>, f: A -> B, kb: B -> int, ka: A -> int)
    requires forall a :: kb(f(a)) == ka(a)
    ensures InsertBy(f(x), Map(s, f), kb) == Map(InsertBy(x, s, ka), f)
  {
    if s != [] && ka(x) > ka(s[0]) {
      InsertByMap(x, s[1..], f, kb, ka);
      assert InsertBy(x, s, ka) == [s[0]] + InsertBy(x, s[1..], ka);
      assert (Map(s, f))[1..] == Map(s[1..], f);
    }
  }

  lemma {:induction false} SortByMap<A, B>(s: seq<A>, f: A -> B, kb: B -> int, ka: A -> int)
    requires forall a :: kb(f(a)) == ka(a)
    ensures SortBy(Map(s, f), kb) == Map(SortBy(s, ka), f)
  {
    if s != [] {
      SortByMap(s[1..], f, kb, ka);
      assert Map(s, f)[1..] == Map(s[1..], f);
      InsertByMap(s[0], SortBy(s[1..], ka), f, kb, ka);
    }
  }

  /** Mapping back with a left inverse gives the original sequence. */
  lemma MapInverse<A, B>(s: seq<A>, f: A -> B, g: B -> A)
    requires forall a :: g(f(a)) == a
    ensures Map(Map(s, f), g) == s
  {
  }

  /** Replacing one element changes the number of selected elements by what left and what came in. */
  lemma {:induction false} FilterUpdate<T>(s: seq<T>, i: nat, x: T, p: T -> bool)
    requires i < |s|
    ensures |Filter(s[i := x], p)| == |Filter(s, p)| - (if p(s[i]) then 1 else 0) + (if p(x) then 1 else 0)
  {
    if i == 0 {
      assert s[i := x][1..] == s[1..];
    } else {
      FilterUpdate(s[1..], i - 1, x, p);
      assert s[i := x][1..] == s[1..][i - 1 := x];
    }
  }

  lemma FilterSnoc<T>(s: seq<T>, x: T, p: T -> bool)
    ensures |Filter(s + [x], p)| == |Filter(s, p)| + (if p(x) then 1 else 0)
  {
    FilterAppend(s, [x], p);
    FilterCons(x, [], p);
    assert [x] + [] == [x];
  }

  /** Taking one more element of `s` selects one more exactly when that element passes. */
  lemma FilterPrefixStep<T>(s: seq<T>, i: nat, p: T -> bool)
    requires i < |s|
    ensures |Filter(s[..i + 1], p)| == |Filter(s[..i], p)| + (if p(s[i]) then 1 else 0)
  {
    assert s[..i + 1] == s[..i] + [s[i]];
    FilterSnoc(s[..i], s[i], p);
  }

  /** A map that never changes whether `p` holds keeps the number of selected elements. */
  lemma {:induction false} FilterMapCount<T>(s: seq<T>, f: T -> T, p: T -> bool)
    requires forall a :: p(f(a)) == p(a)
    ensures |Filter(Map(s, f), p)| == |Filter(s, p)|
  {
    if s != [] {
      FilterMapCount(s[1..], f, p);
      assert Map(s, f)[1..] == Map(s[1..], f);
    }
  }

  /** A projection that decides the test the same way as `p` keeps the number of selected elements. */
  lemma {:induction false} FilterMapCountAcross<A, B>(s: seq<A>, f: A -> B, p: A -> bool, q: B -> bool)
    requires forall a :: q(f(a)) == p(a)
    ensures |Filter(Map(s, f), q)| == |Filter(s, p)|
  {
    if s != [] {
      FilterMapCountAcross(s[1..], f, p, q);
      assert Map(s, f)[1..] == Map(s[1..], f);
    }
  }

  /** The insertion step adds one selected element exactly when the inserted one is selected. */
  lemma {:induction false} FilterInsertByCount<T>(x: T, s: seq<T>, key: T -> int, p: T -> bool)
    ensures |Filter(InsertBy(x, s, key), p)| == |Filter(s, p)| + (if p(x) then 1 else 0)
  {
    if s == [] || key(x) <= key(s[0]) {
      FilterCons(x, s, p);
    } else {
      FilterInsertByCount(x, s[1..], key, p);
      FilterCons(s[0], InsertBy(x, s[1..], key), p);
      FilterCons(s[0], s[1..], p);
      assert s == [s[0]] + s[1..];
    }
  }

  /** Sorting keeps the number of elements any test selects. */
  lemma {:induction false} FilterSortByCount<T>(s: seq<T>, key: T -> int, p: T -> bool)
    ensures |Filter(SortBy(s, key), p)| == |Filter(s, p)|
  {
    if s != [] {
      FilterSortByCount(s[1..], key, p);
      FilterInsertByCount(s[0], SortBy(s[1..], key), key, p);
      FilterCons(s[0], s[1..], p);
      assert s == [s[0]] + s[1..];
    }
  }

  lemma {:induction false} ReverseMultiset<T>(s: seq<T>)
    ensures multiset(Reverse(s)) == multiset(s)
  {
    if s != [] {
      ReverseMultiset(s[1..]);
      assert s == [s[0]] + s[1..];
    }
  }

  /** Membership in a filtered sequence, as one equivalence. */
  lemma {:induction false} FilterMembers<T>(s: seq<T>, p: T -> bool)
    ensures forall x :: x in Filter(s, p) <==> x in s && p(x)
  {
    if s != [] {
      FilterMembers(s[1..], p);
      assert s == [s[0]] + s[1..];
    }
  }

  /** Projecting a filtered sequence keeps the projections that pass the matching test. */
  lemma MapFilterMembers<A, B>(s: seq<A>, f: A -> B, p: A -> bool, q: B -> bool)
    requires forall a :: p(a) == q(f(a))
    ensures forall b :: b in Map(Filter(s, p), f) <==> b in Map(s, f) && q(b)
  {
    var kept := Filter(s, p);
    FilterMembers(s, p);
    forall b ensures b in Map(kept, f) <==> b in Map(s, f) && q(b) {
      if b in Map(kept, f) {
        var i :| 0 <= i < |kept| && Map(kept, f)[i] == b;
        var j :| 0 <= j < |s| && s[j] == kept[i];
        assert Map(s, f)[j] == b;
      }
      if b in Map(s, f) && q(b) {
        var j :| 0 <= j < |s| && Map(s, f)[j] == b;
        assert s[j] in kept;
        var i :| 0 <= i < |kept| && kept[i] == s[j];
        assert Map(kept, f)[i] == b;
      }
    }
  }

  /**
    In a sorted sequence the first element satisfying `p` is one of its
    elements with the least key, and there is none exactly when no element
    satisfies `p`.
   */
  lemma FindSortedLeast<T>(s: seq<T>, key: T -> int, p: T -> bool)
    requires SortedBy(s, key)
    ensures Find(s, p).Some? ==> Find(s, p).value in s && p(Find(s, p).value)
    ensures Find(s, p).Some? ==> forall y :: y in s && p(y) ==> key(Find(s, p).value) <= key(y)
    ensures Find(s, p).None? <==> forall y :: y in s ==> !p(y)
  {
    match IndexWhere(s, p)
    case None =>
    case Some(k) =>
      forall y | y in s && p(y) ensures key(s[k]) <= key(y) {
        var j :| 0 <= j < |s| && s[j] == y;
        assert !(j < k);
      }
  }

  /**
    A prefix of a sequence in descending key order is drawn from it, and no
    element left out has a larger key than one kept.
   */
  lemma PrefixDominates<T>(s: seq<T>, n: nat, key: T -> int)
    requires n <= |s|
    requires forall i, j :: 0 <= i < j < |s| ==> key(s[i]) >= key(s[j])
    ensures multiset(s[..n]) <= multiset(s)
    ensures forall e, x :: e in multiset(s) - multiset(s[..n]) && x in s[..n] ==> key(x) >= key(e)
  {
    var r, rest := s[..n], s[n..];
    assert s == r + rest;
    assert multiset(s) == multiset(r) + multiset(rest);
    forall e, x | e in multiset(s) - multiset(r) && x in r ensures key(x) >= key(e) {
      assert e in multiset(rest);
      var j :| 0 <= j < |rest| && rest[j] == e;
      var i :| 0 <= i < n && r[i] == x;
      assert s[i] == x && s[n + j] == e;
    }
  }

  /** Sorting keeps exactly the elements it was given. */
  lemma SortByMembers<T>(s: seq<T>, key: T -> int)
    ensures forall x :: x in SortBy(s, key) <==> x in s
  {
    forall x ensures x in SortBy(s, key) <==> x in s {
      assert x in SortBy(s, key) <==> x in multiset(SortBy(s, key));
      assert x in s <==> x in multiset(s);
    }
  }

  /** Filters that agree on every element of `s` select the same subsequence. */
  lemma {:induction false} FilterSameOn<T>(s: seq<T>, p: T -> bool, q: T -> bool)
    requires forall j :: 0 <= j < |s| ==> (p(s[j]) <==> q(s[j]))
    ensures Filter(s, p) == Filter(s, q)
  {
    if s != [] {
      FilterSameOn(s[1..], p, q);
    }
  }

  /**
    A filter `q` that selects what `p` selects except at index `i` selects
    one element fewer exactly when `p` held at `i`.
   */
  lemma {:induction false} FilterWithoutOne<T>(s: seq<T>, i: nat, p: T -> bool, q: T -> bool)
    requires i < |s|
    requires forall j :: 0 <= j < |s| ==> (q(s[j]) <==> p(s[j]) && j != i)
    ensures |Filter(s, q)| == |Filter(s, p)| - (if p(s[i]) then 1 else 0)
  {
    if i == 0 {
      FilterSameOn(s[1..], p, q);
    } else {
      FilterWithoutOne(s[1..], i - 1, p, q);
    }
  }
}
