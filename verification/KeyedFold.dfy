/**
 Folding a list of keyed observations into a map, one entry at a time, and what
 that leaves under each key.  Both passes of the graph comparison are instances.
 */
module KeyedFold {
  import opened Prelude

  /** The observations of one key, in order. */
  ghost function At<T(!new), K(!new)>(key: T -> K, s: seq<T>, k: K): seq<T> {
    if s == [] then []
    else
      var before := At(key, s[..|s| - 1], k);
      if key(s[|s| - 1]) == k then before + [s[|s| - 1]] else before
  }

  /** Left fold of a non-empty list of observations. */
  function Fold<T>(merge: (T, T) -> T, obs: seq<T>): T
    requires obs != []
  {
    if |obs| == 1 then obs[0]
    else merge(Fold(merge, obs[..|obs| - 1]), obs[|obs| - 1])
  }

  /** One map update: merge into an occupied entry, insert into a vacant one. */
  function Put<T, K>(key: T -> K, merge: (T, T) -> T, m: map<K, T>, x: T): map<K, T> {
    m[key(x) := if key(x) in m then merge(m[key(x)], x) else x]
  }

  function Collect<T, K>(key: T -> K, merge: (T, T) -> T, s: seq<T>): map<K, T> {
    if s == [] then map[] else Put(key, merge, Collect(key, merge, s[..|s| - 1]), s[|s| - 1])
  }

  lemma CollectSnoc<T, K>(key: T -> K, merge: (T, T) -> T, s: seq<T>, x: T)
    ensures Collect(key, merge, s + [x]) == Put(key, merge, Collect(key, merge, s), x)
  {
    assert (s + [x])[..|s|] == s;
  }

  /** A batch of updates applied to an existing map. */
  function PutAll<T, K>(key: T -> K, merge: (T, T) -> T, m: map<K, T>, batch: seq<T>): map<K, T> {
    if batch == [] then m
    else Put(key, merge, PutAll(key, merge, m, batch[..|batch| - 1]), batch[|batch| - 1])
  }

  lemma {:induction false} CollectBatch<T, K>(key: T -> K, merge: (T, T) -> T, s: seq<T>, batch: seq<T>)
    ensures PutAll(key, merge, Collect(key, merge, s), batch) == Collect(key, merge, s + batch)
  {
    if batch == [] {
      assert s + batch == s;
    } else {
      var n := |batch| - 1;
      CollectBatch(key, merge, s, batch[..n]);
      assert s + batch == (s + batch[..n]) + [batch[n]];
      CollectSnoc(key, merge, s + batch[..n], batch[n]);
    }
  }

  lemma FoldSnoc<T>(merge: (T, T) -> T, obs: seq<T>, x: T)
    requires obs != []
    ensures Fold(merge, obs + [x]) == merge(Fold(merge, obs), x)
  {
    assert (obs + [x])[..|obs|] == obs;
  }

  /** At selects exactly the elements with the key, with their multiplicities. */
  lemma {:induction false} AtMultiset<T(!new), K(!new)>(key: T -> K, s: seq<T>, k: K, x: T)
    ensures multiset(At(key, s, k))[x] == if key(x) == k then multiset(s)[x] else 0
  {
    if s != [] {
      var n := |s| - 1;
      assert s == s[..n] + [s[n]];
      AtMultiset(key, s[..n], k, x);
    }
  }

  lemma AtMember<T(!new), K(!new)>(key: T -> K, s: seq<T>, k: K, x: T)
    ensures x in At(key, s, k) <==> x in s && key(x) == k
  {
    AtMultiset(key, s, k, x);
    assert x in At(key, s, k) <==> x in multiset(At(key, s, k));
    assert x in s <==> x in multiset(s);
  }

  lemma {:induction false} AtConcat<T(!new), K(!new)>(key: T -> K, a: seq<T>, b: seq<T>, k: K)
    ensures At(key, a + b, k) == At(key, a, k) + At(key, b, k)
  {
    if b == [] {
      assert a + b == a;
    } else {
      var n := |b| - 1;
      assert (a + b)[..|a + b| - 1] == a + b[..n];
      AtConcat(key, a, b[..n], k);
    }
  }

  /** The incremental map refines the per-key fold: it has an entry exactly for the
      keys observed, and each entry is the fold of that key's observations. */
  lemma {:induction false} CollectRefinesFold<T(!new), K(!new)>(key: T -> K, merge: (T, T) -> T, s: seq<T>, k: K)
    ensures k in Collect(key, merge, s) <==> At(key, s, k) != []
    ensures k in Collect(key, merge, s) ==> Collect(key, merge, s)[k] == Fold(merge, At(key, s, k))
  {
    if s != [] {
      var n := |s| - 1;
      CollectRefinesFold(key, merge, s[..n], k);
      if key(s[n]) == k && At(key, s[..n], k) != [] {
        FoldSnoc(merge, At(key, s[..n], k), s[n]);
      }
    }
  }

  /** The keys collected are the keys listed. */
  lemma CollectDomain<T(!new), K(!new)>(key: T -> K, merge: (T, T) -> T, s: seq<T>, k: K)
    ensures k in Collect(key, merge, s) <==> exists i :: 0 <= i < |s| && key(s[i]) == k
  {
    CollectRefinesFold(key, merge, s, k);
    if k in Collect(key, merge, s) {
      AtMember(key, s, k, At(key, s, k)[0]);
    }
    if i :| 0 <= i < |s| && key(s[i]) == k {
      AtMember(key, s, k, s[i]);
    }
  }

  /** When merging keeps the newcomer, a key holds its last listed element. */
  lemma {:induction false} CollectLast<T(!new), K(!new)>(key: T -> K, last: (T, T) -> T, s: seq<T>, i: nat)
    requires forall a, b :: last(a, b) == b
    requires i < |s| && forall j :: i < j < |s| ==> key(s[j]) != key(s[i])
    ensures key(s[i]) in Collect(key, last, s) && Collect(key, last, s)[key(s[i])] == s[i]
  {
    var n := |s| - 1;
    if i < n {
      CollectLast(key, last, s[..n], i);
      assert key(s[n]) != key(s[i]);
    }
  }

  /** Two lists whose folds agree under every key collect to the same map. */
  lemma CollectEqual<T(!new), K(!new)>(key: T -> K, merge: (T, T) -> T, s: seq<T>, t: seq<T>)
    requires forall k :: (At(key, s, k) == [] <==> At(key, t, k) == [])
    requires forall k :: At(key, s, k) != [] && At(key, t, k) != [] ==>
             Fold(merge, At(key, s, k)) == Fold(merge, At(key, t, k))
    ensures Collect(key, merge, s) == Collect(key, merge, t)
  {
    var a, b := Collect(key, merge, s), Collect(key, merge, t);
    forall k ensures k in a <==> k in b
      ensures k in a && k in b ==> a[k] == b[k]
    {
      CollectRefinesFold(key, merge, s, k);
      CollectRefinesFold(key, merge, t, k);
    }
  }
}
