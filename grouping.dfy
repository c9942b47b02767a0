/** The `reduce` both tabs use to group a list into an object of buckets:
    for each element, create the bucket for its key if it is missing, then
    push the element onto it. The object is modelled as a map of buckets and
    the list of its keys in insertion order. */
module Grouping {
  import opened Sequences

  /** `buckets` and `order` are the object the `reduce` has built from `s`. */
  ghost predicate Grouped<T(!new), K(!new)>(key: T -> K, s: seq<T>, buckets: map<K, seq<T>>, order: seq<K>)
  {
    && order == Keys(key, s)
    && (forall k :: k in buckets <==> k in order)
    && (forall k :: k in buckets ==> buckets[k] == Bucket(key, s, k))
  }

  /** `reduce((acc, x) => { if (!acc[k]) acc[k] = []; acc[k].push(x); }, {})`
      with `k` the key of `x`. */
  method GroupBy<T(!new), K(==,!new)>(key: T -> K, s: seq<T>) returns (buckets: map<K, seq<T>>, order: seq<K>)
    ensures order == Keys(key, s)
    ensures forall k :: k in buckets <==> k in order
    ensures forall k :: k in buckets ==> buckets[k] == Bucket(key, s, k)
  {
    buckets := map[];
    order := [];
    for i := 0 to |s|
      invariant Grouped(key, s[..i], buckets, order)
    {
      var x := s[i];
      assert s[..i + 1] == s[..i] + [x];
      var k := key(x);
      GroupStep(key, s[..i], x, buckets, order);
      if k !in buckets {
        buckets := buckets[k := []];
        order := order + [k];
      }
      buckets := buckets[k := buckets[k] + [x]];
    }
    assert s[..|s|] == s;
  }

  /** One step of the `reduce`: the bucket of `x` is created when missing and
      `x` is pushed onto it. */
  lemma GroupStep<T(!new), K(!new)>(key: T -> K, s: seq<T>, x: T, buckets: map<K, seq<T>>, order: seq<K>)
    requires Grouped(key, s, buckets, order)
    ensures var k := key(x);
      var created := if k in buckets then buckets else buckets[k := []];
      var order' := if k in buckets then order else order + [k];
      Grouped(key, s + [x], created[k := created[k] + [x]], order')
  {
    var k := key(x);
    var created := if k in buckets then buckets else buckets[k := []];
    var buckets' := created[k := created[k] + [x]];
    KeysStep(key, s, x, k in buckets, order);
    forall j | j in buckets'
      ensures buckets'[j] == Bucket(key, s + [x], j)
    {
      BucketStep(key, s, x, j, j in buckets, if j in buckets then buckets[j] else []);
    }
  }

  /** The key list grows by the key of `x` exactly when it is new. */
  lemma KeysStep<T(!new), K(!new)>(key: T -> K, s: seq<T>, x: T, seen: bool, order: seq<K>)
    requires order == Keys(key, s)
    requires seen <==> key(x) in order
    ensures Keys(key, s + [x]) == if seen then order else order + [key(x)]
  {
    KeysAppend(key, s, x);
  }

  /** The bucket of key `j` after `x`: `x` is pushed onto it when `j` is the
      key of `x`, and a bucket not seen before started empty. */
  lemma BucketStep<T(!new), K(!new)>(key: T -> K, s: seq<T>, x: T, j: K, seen: bool, bucket: seq<T>)
    requires seen ==> bucket == Bucket(key, s, j)
    requires !seen ==> bucket == [] && j !in Map(key, s)
    ensures Bucket(key, s + [x], j) == bucket + (if key(x) == j then [x] else [])
  {
    BucketAppend(key, s, x, j);
    if !seen {
      KeyOccurs(key, s, j);
    }
  }

  /** A bucket is the list filtered by its key. */
  lemma {:induction false} BucketIsFilter<T(!new), K(!new)>(key: T -> K, s: seq<T>, k: K)
    ensures Bucket(key, s, k) == Filter(x => key(x) == k, s)
  {
    if s != [] {
      BucketIsFilter(key, s[..|s| - 1], k);
    }
  }

  /** Every element lands in the bucket of its key and in no other; no bucket
      is empty; each bucket keeps the list's order; and the bucket sizes add
      up to the length of the list. */
  lemma GroupingPartitions<T(!new), K(!new)>(key: T -> K, s: seq<T>)
    ensures forall x, k :: x in s ==> (x in Bucket(key, s, k) <==> k == key(x))
    ensures forall k :: k in Keys(key, s) ==> Bucket(key, s, k) != []
    ensures forall k :: k in Keys(key, s) ==> IsSubsequence(Bucket(key, s, k), s)
    ensures BucketSizes(key, s, Keys(key, s)) == |s|
  {
    forall k | k in Keys(key, s)
      ensures Bucket(key, s, k) != [] && IsSubsequence(Bucket(key, s, k), s)
    {
      KeyOccurs(key, s, k);
      BucketIsFilter(key, s, k);
      FilterIsSubsequence(x => key(x) == k, s);
    }
    BucketSizesSum(key, s);
  }

  /** The same facts about the object `GroupBy` returns: its keys are
      distinct, every element is in the bucket of its key and in no other, no
      bucket is empty, each keeps the list's order and holds only elements of
      the list, and the bucket sizes add up to the length of the list. */
  lemma GroupsPartition<T(!new), K(!new)>(key: T -> K, s: seq<T>, buckets: map<K, seq<T>>, order: seq<K>)
    requires order == Keys(key, s)
    requires forall k :: k in buckets <==> k in order
    requires forall k :: k in buckets ==> buckets[k] == Bucket(key, s, k)
    ensures forall i, j :: 0 <= i < j < |order| ==> order[i] != order[j]
    ensures forall x, k :: x in s && k in buckets ==> (x in buckets[k] <==> k == key(x))
    ensures forall x :: x in s ==> key(x) in buckets
    ensures forall k :: k in buckets ==> buckets[k] != [] && IsSubsequence(buckets[k], s)
    ensures forall k, x :: k in buckets && x in buckets[k] ==> x in s
    ensures BucketSizes(key, s, order) == |s|
    ensures TotalSize(buckets, order) == |s|
  {
    GroupingPartitions(key, s);
    TotalSizeOfBuckets(key, s, buckets, order);
    forall x | x in s
      ensures key(x) in buckets
    {
      KeyOccurs(key, s, key(x));
      assert x in Bucket(key, s, key(x));
    }
  }

  /** The number of elements held by the buckets named in `order`. */
  function TotalSize<T, K>(buckets: map<K, seq<T>>, order: seq<K>): nat
    requires forall k :: k in order ==> k in buckets
  {
    if order == [] then 0
    else TotalSize(buckets, order[..|order| - 1]) + |buckets[order[|order| - 1]]|
  }

  lemma {:induction false} TotalSizeOfBuckets<T(!new), K(!new)>(key: T -> K, s: seq<T>, buckets: map<K, seq<T>>, order: seq<K>)
    requires forall k :: k in order ==> k in buckets && buckets[k] == Bucket(key, s, k)
    ensures TotalSize(buckets, order) == BucketSizes(key, s, order)
  {
    if order != [] {
      TotalSizeOfBuckets(key, s, buckets, order[..|order| - 1]);
    }
  }
}
