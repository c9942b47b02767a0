/** The list operations the program leans on: `Array.prototype.filter` and
    `map`, a `Set` built from an array (`Array.from(new Set(xs))`), and the
    grouping a `reduce` into buckets performs. Every function is defined from
    the last element backwards, so that a loop that pushes one element at a
    time can be proved against it step by step. */
module Sequences {

  /** `s.filter(p)`. */
  function Filter<T(!new)>(p: T -> bool, s: seq<T>): (r: seq<T>)
    ensures |r| <= |s|
    ensures forall x {:trigger x in r} :: x in r <==> x in s && p(x)
  {
    if s == [] then [] else Filter(p, s[..|s| - 1]) + (if p(s[|s| - 1]) then [s[|s| - 1]] else [])
  }

  lemma FilterAppend<T(!new)>(p: T -> bool, s: seq<T>, x: T)
    ensures Filter(p, s + [x]) == Filter(p, s) + (if p(x) then [x] else [])
  {
    assert (s + [x])[..|s|] == s;
  }

  /** The filter keeps one element for each position whose element passes. */
  lemma {:induction false} FilterCount<T(!new)>(p: T -> bool, s: seq<T>)
    ensures |Filter(p, s)| == |Positions(p, s)|
  {
    if s != [] {
      var init := s[..|s| - 1];
      FilterCount(p, init);
      PositionsStep(p, s);
    }
  }

  /** The positions of `s` whose element passes `p`. */
  function Positions<T>(p: T -> bool, s: seq<T>): set<int>
  {
    set i | 0 <= i < |s| && p(s[i])
  }

  lemma PositionsStep<T>(p: T -> bool, s: seq<T>)
    requires s != []
    ensures Positions(p, s) ==
      Positions(p, s[..|s| - 1]) + (if p(s[|s| - 1]) then {|s| - 1} else {})
    ensures |s| - 1 !in Positions(p, s[..|s| - 1])
  {
    var init := s[..|s| - 1];
    forall i | i in Positions(p, s)
      ensures i in Positions(p, init) + (if p(s[|s| - 1]) then {|s| - 1} else {})
    {
      if i < |s| - 1 {
        assert init[i] == s[i];
      }
    }
    forall i | i in Positions(p, init)
      ensures i in Positions(p, s)
    {
      assert init[i] == s[i];
    }
  }

  /** `a` is `b` with some elements removed, the rest kept in their order. */
  predicate IsSubsequence<T(==)>(a: seq<T>, b: seq<T>)
  {
    if a == [] then true
    else if b == [] then false
    else if a[|a| - 1] == b[|b| - 1] then IsSubsequence(a[..|a| - 1], b[..|b| - 1])
    else IsSubsequence(a, b[..|b| - 1])
  }

  lemma {:induction false} FilterIsSubsequence<T(!new)>(p: T -> bool, s: seq<T>)
    ensures IsSubsequence(Filter(p, s), s)
  {
    if s != [] {
      var init := s[..|s| - 1];
      FilterIsSubsequence(p, init);
      assert init + [s[|s| - 1]] == s;
      if p(s[|s| - 1]) {
        var f := Filter(p, s);
        assert f[..|f| - 1] == Filter(p, init);
      } else {
        assert Filter(p, s) == Filter(p, init);
        SubsequenceOfLonger(Filter(p, init), init, s[|s| - 1]);
      }
    }
  }

  lemma {:induction false} SubsequenceOfLonger<T>(a: seq<T>, b: seq<T>, x: T)
    requires IsSubsequence(a, b)
    ensures IsSubsequence(a, b + [x])
    decreases |b|, 1
  {
    assert (b + [x])[..|b|] == b;
    if a != [] && a[|a| - 1] == x {
      SubsequenceDropLast(a, b);
    }
  }

  lemma {:induction false} SubsequenceDropLast<T>(a: seq<T>, b: seq<T>)
    requires a != [] && IsSubsequence(a, b)
    ensures IsSubsequence(a[..|a| - 1], b)
    decreases |b|, 0
  {
    var ib := b[..|b| - 1];
    assert ib + [b[|b| - 1]] == b;
    if a[|a| - 1] == b[|b| - 1] {
      SubsequenceOfLonger(a[..|a| - 1], ib, b[|b| - 1]);
    } else {
      SubsequenceDropLast(a, ib);
      SubsequenceOfLonger(a[..|a| - 1], ib, b[|b| - 1]);
    }
  }

  /** `s.map(f)`. */
  function Map<A, B>(f: A -> B, s: seq<A>): (r: seq<B>)
    ensures |r| == |s|
    ensures forall i {:trigger r[i]} :: 0 <= i < |s| ==> r[i] == f(s[i])
  {
    if s == [] then [] else Map(f, s[..|s| - 1]) + [f(s[|s| - 1])]
  }

  /** The values of `s.map(f)` are the images of the elements of `s`. */
  lemma MapMembers<A, B>(f: A -> B, s: seq<A>)
    ensures forall y {:trigger y in Map(f, s)} :: y in Map(f, s) <==> exists i :: 0 <= i < |s| && f(s[i]) == y
  {
    forall y
      ensures y in Map(f, s) <==> exists i :: 0 <= i < |s| && f(s[i]) == y
    {
      if exists i :: 0 <= i < |s| && f(s[i]) == y {
        var i :| 0 <= i < |s| && f(s[i]) == y;
        assert Map(f, s)[i] == y;
      }
    }
  }

  lemma MapAppend<A, B>(f: A -> B, s: seq<A>, x: A)
    ensures Map(f, s + [x]) == Map(f, s) + [f(x)]
  {
    assert (s + [x])[..|s|] == s;
  }

  /** `s.filter(p).map(f)` keeps the passing elements in their order, one
      output per passing position, each passing `p`. */
  lemma FilterMapShape<A(!new), B>(p: A -> bool, f: A -> B, s: seq<A>)
    ensures IsSubsequence(Filter(p, s), s)
    ensures |Map(f, Filter(p, s))| == |Positions(p, s)|
    ensures forall k :: 0 <= k < |Filter(p, s)| ==> p(Filter(p, s)[k])
  {
    FilterIsSubsequence(p, s);
    FilterCount(p, s);
    var kept := Filter(p, s);
    forall k | 0 <= k < |kept|
      ensures p(kept[k])
    {
      assert kept[k] in kept;
    }
  }

  /** `Array.from(new Set(s))`: each value once, in the order of its first
      occurrence. */
  function Distinct<T(==,!new)>(s: seq<T>): (r: seq<T>)
    ensures forall x {:trigger x in r} :: x in r <==> x in s
    ensures forall i, j :: 0 <= i < j < |r| ==> r[i] != r[j]
  {
    if s == [] then []
    else
      var init := Distinct(s[..|s| - 1]);
      if s[|s| - 1] in s[..|s| - 1] then init
      else
        assert s[|s| - 1] !in init;
        init + [s[|s| - 1]]
  }

  lemma DistinctAppend<T(!new)>(s: seq<T>, x: T)
    ensures Distinct(s + [x]) == if x in s then Distinct(s) else Distinct(s) + [x]
  {
    assert (s + [x])[..|s|] == s;
  }

  /** The elements of `s` whose key is `k`, in their order in `s`: the bucket a
      `reduce` that pushes each element under its key builds for `k`. */
  function Bucket<T(!new), K(==,!new)>(key: T -> K, s: seq<T>, k: K): (r: seq<T>)
    ensures forall x {:trigger x in r} :: x in r <==> x in s && key(x) == k
  {
    if s == [] then []
    else Bucket(key, s[..|s| - 1], k) + (if key(s[|s| - 1]) == k then [s[|s| - 1]] else [])
  }

  lemma BucketAppend<T(!new), K(!new)>(key: T -> K, s: seq<T>, x: T, k: K)
    ensures Bucket(key, s + [x], k) == Bucket(key, s, k) + (if key(x) == k then [x] else [])
  {
    assert (s + [x])[..|s|] == s;
  }

  /** The keys of `s`, each once, in order of first occurrence. */
  function Keys<T(!new), K(==,!new)>(key: T -> K, s: seq<T>): seq<K>
  {
    Distinct(Map(key, s))
  }

  lemma KeysAppend<T(!new), K(!new)>(key: T -> K, s: seq<T>, x: T)
    ensures Keys(key, s + [x]) == if key(x) in Map(key, s) then Keys(key, s) else Keys(key, s) + [key(x)]
  {
    MapAppend(key, s, x);
    DistinctAppend(Map(key, s), key(x));
  }

  lemma {:induction false} KeyOccurs<T(!new), K(!new)>(key: T -> K, s: seq<T>, k: K)
    ensures k in Map(key, s) <==> Bucket(key, s, k) != []
  {
    if k in Map(key, s) {
      var i :| 0 <= i < |s| && Map(key, s)[i] == k;
      assert s[i] in Bucket(key, s, k);
    }
    if Bucket(key, s, k) != [] {
      var x := Bucket(key, s, k)[0];
      assert x in Bucket(key, s, k);
      var i :| 0 <= i < |s| && s[i] == x;
      assert Map(key, s)[i] == k;
    }
  }

  /** The total size of the buckets named by `ks`. */
  function BucketSizes<T(!new), K(==,!new)>(key: T -> K, s: seq<T>, ks: seq<K>): nat
  {
    if ks == [] then 0 else BucketSizes(key, s, ks[..|ks| - 1]) + |Bucket(key, s, ks[|ks| - 1])|
  }

  lemma {:induction false} BucketSizesAppendElement<T(!new), K(!new)>(key: T -> K, s: seq<T>, x: T, ks: seq<K>)
    ensures BucketSizes(key, s + [x], ks) == BucketSizes(key, s, ks) + CountOf(key(x), ks)
  {
    if ks != [] {
      BucketSizesAppendElement(key, s, x, ks[..|ks| - 1]);
      BucketAppend(key, s, x, ks[|ks| - 1]);
    }
  }

  lemma BucketSizesAppendKey<T(!new), K(!new)>(key: T -> K, s: seq<T>, ks: seq<K>, k: K)
    ensures BucketSizes(key, s, ks + [k]) == BucketSizes(key, s, ks) + |Bucket(key, s, k)|
  {
    assert (ks + [k])[..|ks|] == ks;
  }

  /** How often `k` occurs in `ks`. */
  function CountOf<K(==)>(k: K, ks: seq<K>): nat
  {
    if ks == [] then 0 else CountOf(k, ks[..|ks| - 1]) + (if ks[|ks| - 1] == k then 1 else 0)
  }

  lemma {:induction false} CountOfDistinct<K>(k: K, ks: seq<K>)
    requires forall i, j :: 0 <= i < j < |ks| ==> ks[i] != ks[j]
    ensures CountOf(k, ks) == if k in ks then 1 else 0
  {
    if ks != [] {
      CountOfDistinct(k, ks[..|ks| - 1]);
      assert k in ks <==> k in ks[..|ks| - 1] || ks[|ks| - 1] == k;
    }
  }

  /** Grouping loses and duplicates nothing: the buckets of the distinct keys
      together hold exactly as many elements as the input. */
  lemma {:induction false} BucketSizesSum<T(!new), K(!new)>(key: T -> K, s: seq<T>)
    ensures BucketSizes(key, s, Keys(key, s)) == |s|
  {
    if s != [] {
      var init, x := s[..|s| - 1], s[|s| - 1];
      assert init + [x] == s;
      BucketSizesSum(key, init);
      var ks := Keys(key, init);
      KeysAppend(key, init, x);
      BucketSizesAppendElement(key, init, x, Keys(key, s));
      CountOfDistinct(key(x), Keys(key, s));
      if key(x) !in Map(key, init) {
        BucketSizesAppendKey(key, init, ks, key(x));
        KeyOccurs(key, init, key(x));
      }
    }
  }
}
