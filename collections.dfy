/**
 * Distinctness of lists, and the keyed deduplication
 * `Array.from(new Map(xs.map(x => [key(x), x])).values())`: each key keeps
 * the position of its first occurrence and the value of its last.
 */
module Collections {

  /** No element occurs twice. */
  ghost predicate Distinct<T>(s: seq<T>)
  {
    forall i, j :: 0 <= i < j < |s| ==> s[i] != s[j]
  }

  /** Index of the first element whose key is `k`, or `|xs|` when there is none. */
  function FirstKeyIndex<K(==), V>(xs: seq<V>, key: V -> K, k: K): (i: nat)
    ensures i <= |xs|
    ensures i < |xs| ==> key(xs[i]) == k
    ensures forall j :: 0 <= j < i ==> key(xs[j]) != k
  {
    if xs == [] then 0
    else if key(xs[0]) == k then 0
    else 1 + FirstKeyIndex(xs[1..], key, k)
  }

  /** Index of the last element whose key is `k`, or -1 when there is none. */
  function LastKeyIndex<K(==), V>(xs: seq<V>, key: V -> K, k: K): (i: int)
    ensures -1 <= i < |xs|
    ensures 0 <= i ==> key(xs[i]) == k
    ensures forall j :: i < j < |xs| ==> key(xs[j]) != k
  {
    if xs == [] then -1
    else if key(xs[|xs| - 1]) == k then |xs| - 1
    else LastKeyIndex(xs[..|xs| - 1], key, k)
  }

  /** `m.set(key(x), x)` on a `Map` represented by its values in insertion order. */
  function MapSet<K(==), V>(m: seq<V>, key: V -> K, x: V): (r: seq<V>)
  {
    var i := FirstKeyIndex(m, key, key(x));
    if i < |m| then m[i := x] else m + [x]
  }

  /** `Array.from(new Map(xs.map(x => [key(x), x])).values())`. */
  function LastWins<K(==), V>(xs: seq<V>, key: V -> K): (r: seq<V>)
    ensures |r| <= |xs|
  {
    if xs == [] then []
    else MapSet(LastWins(xs[..|xs| - 1], key), key, xs[|xs| - 1])
  }

  /** Keys are pairwise distinct. */
  ghost predicate DistinctKeys<K, V>(r: seq<V>, key: V -> K)
  {
    forall i, j :: 0 <= i < j < |r| ==> key(r[i]) != key(r[j])
  }

  /** Every key of `xs` is a key of `r`. */
  ghost predicate CoversKeys<K, V>(r: seq<V>, xs: seq<V>, key: V -> K)
  {
    forall n :: 0 <= n < |xs| ==> FirstKeyIndex(r, key, key(xs[n])) < |r|
  }

  /** Every element of `r` is the last element of `xs` with its key. */
  ghost predicate LastValues<K, V>(r: seq<V>, xs: seq<V>, key: V -> K)
  {
    forall i :: 0 <= i < |r| ==>
      0 <= LastKeyIndex(xs, key, key(r[i])) && r[i] == xs[LastKeyIndex(xs, key, key(r[i]))]
  }

  /** Keys of `r` appear in the order of their first occurrence in `xs`. */
  ghost predicate FirstSeenOrder<K, V>(r: seq<V>, xs: seq<V>, key: V -> K)
  {
    forall i, j :: 0 <= i < j < |r| ==>
      FirstKeyIndex(xs, key, key(r[i])) < FirstKeyIndex(xs, key, key(r[j]))
  }

  /**
   * `r` is what a `Map` keyed by `key` holds after the entries `xs`: keys are
   * pairwise distinct, every input key is present, every value is the last
   * input with its key, and keys appear in the order of their first occurrence.
   */
  ghost predicate KeyedBy<K, V>(r: seq<V>, xs: seq<V>, key: V -> K)
  {
    DistinctKeys(r, key) && CoversKeys(r, xs, key) && LastValues(r, xs, key) && FirstSeenOrder(r, xs, key)
  }

  lemma {:induction false} FirstKeyIndexSnoc<K, V>(xs: seq<V>, x: V, key: V -> K, k: K)
    ensures FirstKeyIndex(xs + [x], key, k) ==
      if FirstKeyIndex(xs, key, k) < |xs| then FirstKeyIndex(xs, key, k)
      else if key(x) == k then |xs| else |xs| + 1
  {
    if xs != [] && key(xs[0]) != k {
      assert (xs + [x])[1..] == xs[1..] + [x];
      FirstKeyIndexSnoc(xs[1..], x, key, k);
    }
  }

  lemma LastKeyIndexSnoc<K, V>(xs: seq<V>, x: V, key: V -> K, k: K)
    ensures LastKeyIndex(xs + [x], key, k) == if key(x) == k then |xs| else LastKeyIndex(xs, key, k)
  {
    assert (xs + [x])[..|xs|] == xs;
  }

  /** Two lists with the same keys position by position have the same first-key indices. */
  lemma {:induction false} FirstKeyIndexSameKeys<K, V>(a: seq<V>, b: seq<V>, key: V -> K, k: K)
    requires |a| == |b| && forall j :: 0 <= j < |a| ==> key(a[j]) == key(b[j])
    ensures FirstKeyIndex(a, key, k) == FirstKeyIndex(b, key, k)
  {
    if a != [] && key(a[0]) != k {
      FirstKeyIndexSameKeys(a[1..], b[1..], key, k);
    }
  }

  /** A key that occurs somewhere has a first occurrence too. */
  lemma LastImpliesFirst<K, V>(xs: seq<V>, key: V -> K, k: K)
    requires 0 <= LastKeyIndex(xs, key, k)
    ensures FirstKeyIndex(xs, key, k) <= LastKeyIndex(xs, key, k)
  {
  }

  /** The first index of an old key does not move when an element is appended. */
  lemma FirstOfOldKey<K, V>(xs: seq<V>, x: V, key: V -> K, k: K)
    requires 0 <= LastKeyIndex(xs, key, k)
    ensures FirstKeyIndex(xs + [x], key, k) == FirstKeyIndex(xs, key, k) < |xs|
  {
    LastImpliesFirst(xs, key, k);
    FirstKeyIndexSnoc(xs, x, key, k);
  }

  lemma ReplaceDistinct<K, V>(r: seq<V>, x: V, key: V -> K, i: nat)
    requires DistinctKeys(r, key) && i < |r| && key(r[i]) == key(x)
    ensures DistinctKeys(r[i := x], key)
  {
  }

  lemma ReplaceCovers<K, V>(r: seq<V>, xs: seq<V>, x: V, key: V -> K, i: nat)
    requires CoversKeys(r, xs, key) && i < |r| && key(r[i]) == key(x)
    ensures CoversKeys(r[i := x], xs + [x], key)
  {
    var r', xs' := r[i := x], xs + [x];
    forall n | 0 <= n < |xs'| ensures FirstKeyIndex(r', key, key(xs'[n])) < |r'| {
      FirstKeyIndexSameKeys(r', r, key, key(xs'[n]));
      if n < |xs| {
        assert xs'[n] == xs[n];
      }
    }
  }

  lemma ReplaceLast<K, V>(r: seq<V>, xs: seq<V>, x: V, key: V -> K, i: nat)
    requires DistinctKeys(r, key) && LastValues(r, xs, key) && i < |r| && key(r[i]) == key(x)
    ensures LastValues(r[i := x], xs + [x], key)
  {
    var r', xs' := r[i := x], xs + [x];
    forall j | 0 <= j < |r'|
      ensures 0 <= LastKeyIndex(xs', key, key(r'[j])) && r'[j] == xs'[LastKeyIndex(xs', key, key(r'[j]))]
    {
      LastKeyIndexSnoc(xs, x, key, key(r'[j]));
      if j != i {
        assert key(r[j]) != key(x);
        assert r'[j] == r[j];
      }
    }
  }

  lemma ReplaceOrder<K, V>(r: seq<V>, xs: seq<V>, x: V, key: V -> K, i: nat)
    requires LastValues(r, xs, key) && FirstSeenOrder(r, xs, key) && i < |r| && key(r[i]) == key(x)
    ensures FirstSeenOrder(r[i := x], xs + [x], key)
  {
    var r', xs' := r[i := x], xs + [x];
    forall j | 0 <= j < |r'|
      ensures FirstKeyIndex(xs', key, key(r'[j])) == FirstKeyIndex(xs, key, key(r[j]))
    {
      FirstOfOldKey(xs, x, key, key(r[j]));
    }
  }

  lemma AppendDistinct<K, V>(r: seq<V>, x: V, key: V -> K)
    requires DistinctKeys(r, key) && FirstKeyIndex(r, key, key(x)) == |r|
    ensures DistinctKeys(r + [x], key)
  {
  }

  lemma AppendCovers<K, V>(r: seq<V>, xs: seq<V>, x: V, key: V -> K)
    requires CoversKeys(r, xs, key)
    ensures CoversKeys(r + [x], xs + [x], key)
  {
    var r', xs' := r + [x], xs + [x];
    forall n | 0 <= n < |xs'| ensures FirstKeyIndex(r', key, key(xs'[n])) < |r'| {
      FirstKeyIndexSnoc(r, x, key, key(xs'[n]));
      if n < |xs| {
        assert xs'[n] == xs[n];
      }
    }
  }

  lemma AppendLast<K, V>(r: seq<V>, xs: seq<V>, x: V, key: V -> K)
    requires LastValues(r, xs, key) && FirstKeyIndex(r, key, key(x)) == |r|
    ensures LastValues(r + [x], xs + [x], key)
  {
    var r', xs' := r + [x], xs + [x];
    forall j | 0 <= j < |r'|
      ensures 0 <= LastKeyIndex(xs', key, key(r'[j])) && r'[j] == xs'[LastKeyIndex(xs', key, key(r'[j]))]
    {
      LastKeyIndexSnoc(xs, x, key, key(r'[j]));
      if j < |r| {
        assert r'[j] == r[j];
      }
    }
  }

  /** A key absent from a map that covers `xs` does not occur in `xs`. */
  lemma AbsentKey<K, V>(r: seq<V>, xs: seq<V>, key: V -> K, k: K)
    requires CoversKeys(r, xs, key) && FirstKeyIndex(r, key, k) == |r|
    ensures FirstKeyIndex(xs, key, k) == |xs|
  {
    forall n | 0 <= n < |xs| ensures key(xs[n]) != k {
      assert FirstKeyIndex(r, key, key(xs[n])) < |r|;
    }
  }

  lemma AppendOrder<K, V>(r: seq<V>, xs: seq<V>, x: V, key: V -> K)
    requires CoversKeys(r, xs, key) && LastValues(r, xs, key) && FirstSeenOrder(r, xs, key)
    requires FirstKeyIndex(r, key, key(x)) == |r|
    ensures FirstSeenOrder(r + [x], xs + [x], key)
  {
    var r', xs' := r + [x], xs + [x];
    AbsentKey(r, xs, key, key(x));
    FirstKeyIndexSnoc(xs, x, key, key(x));
    forall j | 0 <= j < |r|
      ensures FirstKeyIndex(xs', key, key(r'[j])) == FirstKeyIndex(xs, key, key(r[j])) < |xs|
    {
      assert r'[j] == r[j];
      FirstOfOldKey(xs, x, key, key(r[j]));
    }
    assert r'[|r|] == x;
  }

  /** The map built from `xs` holds exactly what a JavaScript `Map` would. */
  lemma {:induction false} LastWinsKeyed<K, V>(xs: seq<V>, key: V -> K)
    ensures KeyedBy(LastWins(xs, key), xs, key)
  {
    if xs != [] {
      var init, x := xs[..|xs| - 1], xs[|xs| - 1];
      assert xs == init + [x];
      LastWinsKeyed(init, key);
      var r := LastWins(init, key);
      var i := FirstKeyIndex(r, key, key(x));
      if i < |r| {
        assert MapSet(r, key, x) == r[i := x];
        ReplaceDistinct(r, x, key, i);
        ReplaceCovers(r, init, x, key, i);
        ReplaceLast(r, init, x, key, i);
        ReplaceOrder(r, init, x, key, i);
      } else {
        assert MapSet(r, key, x) == r + [x];
        AppendDistinct(r, x, key);
        AppendCovers(r, init, x, key);
        AppendLast(r, init, x, key);
        AppendOrder(r, init, x, key);
      }
    }
  }

  /** Concatenation regroups freely. */
  lemma AppendAssociative<T>(a: seq<T>, b: seq<T>, c: seq<T>)
    ensures (a + b) + c == a + (b + c)
  {
  }
}
