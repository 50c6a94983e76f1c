/** Grouping by key: a map from key to the elements seen so far plus the order in which keys
    appeared. Conservation: gathering the buckets in any order of the keys gives the input back
    as a multiset. */
module Buckets {
  import opened Ordering

  /** The elements with key `k`, in input order. */
  function BucketOf<T, K(==)>(s: seq<T>, key: T -> K, k: K): seq<T> {
    if s == [] then []
    else
      var p := BucketOf(s[..|s| - 1], key, k);
      if key(s[|s| - 1]) == k then p + [s[|s| - 1]] else p
  }

  /** The distinct keys, in order of first appearance. */
  function KeysOf<T, K(==)>(s: seq<T>, key: T -> K): seq<K> {
    if s == [] then []
    else
      var p := KeysOf(s[..|s| - 1], key);
      if key(s[|s| - 1]) in p then p else p + [key(s[|s| - 1])]
  }

  /** The buckets of `ks`, one after the other. */
  function Gather<T, K(==)>(s: seq<T>, key: T -> K, ks: seq<K>): seq<T> {
    if ks == [] then [] else Gather(s, key, ks[..|ks| - 1]) + BucketOf(s, key, ks[|ks| - 1])
  }

  ghost predicate NoDuplicates<K>(ks: seq<K>) {
    forall i, j :: 0 <= i < j < |ks| ==> ks[i] != ks[j]
  }

  lemma {:induction false} BucketMembers<T(!new), K(!new)>(s: seq<T>, key: T -> K, k: K)
    ensures forall x :: x in BucketOf(s, key, k) <==> x in s && key(x) == k
  {
    if s != [] {
      BucketMembers(s[..|s| - 1], key, k);
      assert s == s[..|s| - 1] + [s[|s| - 1]];
    }
  }

  ghost predicate HasKey<T, K>(s: seq<T>, key: T -> K, k: K) {
    exists i :: 0 <= i < |s| && key(s[i]) == k
  }

  lemma {:induction false} KeysMembers<T(!new), K(!new)>(s: seq<T>, key: T -> K)
    ensures NoDuplicates(KeysOf(s, key))
    ensures forall i :: 0 <= i < |s| ==> key(s[i]) in KeysOf(s, key)
    ensures forall k :: k in KeysOf(s, key) ==> HasKey(s, key, k)
  {
    if s != [] {
      var p := s[..|s| - 1];
      KeysMembers(p, key);
      assert key(s[|s| - 1]) in KeysOf(s, key);
      forall i | 0 <= i < |s| ensures key(s[i]) in KeysOf(s, key) {
        if i < |p| {
          assert p[i] == s[i];
        }
      }
      forall k | k in KeysOf(s, key) ensures HasKey(s, key, k) {
        if k in KeysOf(p, key) {
          var i :| 0 <= i < |p| && key(p[i]) == k;
          assert key(s[i]) == k;
        } else {
          assert key(s[|s| - 1]) == k;
        }
      }
    }
  }

  lemma {:induction false} GatherSnoc<T(!new), K(!new)>(s: seq<T>, x: T, key: T -> K, ks: seq<K>)
    requires NoDuplicates(ks)
    ensures multiset(Gather(s + [x], key, ks))
         == multiset(Gather(s, key, ks)) + if key(x) in ks then multiset{x} else multiset{}
  {
    if ks != [] {
      var p, k := ks[..|ks| - 1], ks[|ks| - 1];
      assert (s + [x])[..|s + [x]| - 1] == s;
      GatherSnoc(s, x, key, p);
      assert key(x) in ks <==> key(x) in p || key(x) == k;
    }
  }

  /** Conservation: no element is lost, none is counted twice. */
  lemma {:induction false} GatherPartitions<T(!new), K(!new)>(s: seq<T>, key: T -> K, ks: seq<K>)
    requires NoDuplicates(ks) && forall i :: 0 <= i < |s| ==> key(s[i]) in ks
    ensures multiset(Gather(s, key, ks)) == multiset(s)
  {
    if s == [] {
      GatherOfNothing(s, key, ks);
    } else {
      var p, x := s[..|s| - 1], s[|s| - 1];
      assert s == p + [x];
      assert forall i :: 0 <= i < |p| ==> p[i] == s[i];
      GatherPartitions(p, key, ks);
      GatherSnoc(p, x, key, ks);
    }
  }

  lemma {:induction false} GatherOfNothing<T(!new), K(!new)>(s: seq<T>, key: T -> K, ks: seq<K>)
    requires s == []
    ensures Gather(s, key, ks) == []
  {
    if ks != [] {
      GatherOfNothing(s, key, ks[..|ks| - 1]);
    }
  }

  lemma BucketSnoc<T(!new), K(!new)>(s: seq<T>, i: nat, key: T -> K, k: K)
    requires i < |s|
    ensures BucketOf(s[..i + 1], key, k) == BucketOf(s[..i], key, k) + if key(s[i]) == k then [s[i]] else []
  {
    var q := s[..i + 1];
    assert q[..|q| - 1] == s[..i];
  }

  /** Permuting the input permutes each bucket. */
  lemma {:induction false} BucketMultiset<T(!new), K(!new)>(s: seq<T>, key: T -> K, k: K, x: T)
    ensures multiset(BucketOf(s, key, k))[x] == if key(x) == k then multiset(s)[x] else 0
  {
    if s != [] {
      BucketMultiset(s[..|s| - 1], key, k, x);
      assert s == s[..|s| - 1] + [s[|s| - 1]];
    }
  }

  lemma BucketPermutation<T(!new), K(!new)>(s: seq<T>, t: seq<T>, key: T -> K, k: K)
    requires multiset(s) == multiset(t)
    ensures multiset(BucketOf(s, key, k)) == multiset(BucketOf(t, key, k))
  {
    var a, b := multiset(BucketOf(s, key, k)), multiset(BucketOf(t, key, k));
    forall x: T ensures a[x] == b[x] {
      BucketMultiset(s, key, k, x);
      BucketMultiset(t, key, k, x);
    }
    assert a == b;
  }

  lemma KeysPermutation<T(!new), K(!new)>(s: seq<T>, t: seq<T>, key: T -> K)
    requires multiset(s) == multiset(t)
    ensures multiset(KeysOf(s, key)) == multiset(KeysOf(t, key))
  {
    KeysMembers(s, key);
    KeysMembers(t, key);
    SameMembers(s, t);
    forall k | k in KeysOf(s, key) ensures k in KeysOf(t, key) {
      var i :| 0 <= i < |s| && key(s[i]) == k;
      assert s[i] in t;
    }
    forall k | k in KeysOf(t, key) ensures k in KeysOf(s, key) {
      var i :| 0 <= i < |t| && key(t[i]) == k;
      assert t[i] in s;
    }
    NoDuplicatesMultiset(KeysOf(s, key), KeysOf(t, key));
  }

  lemma SameMembers<T(!new)>(s: seq<T>, t: seq<T>)
    requires multiset(s) == multiset(t)
    ensures forall x :: x in s <==> x in t
  {
    forall x ensures x in s <==> x in t {
      assert x in s <==> x in multiset(s);
      assert x in t <==> x in multiset(t);
    }
  }

  lemma {:induction false} Multiplicity<K(!new)>(s: seq<K>, k: K)
    requires NoDuplicates(s)
    ensures multiset(s)[k] == if k in s then 1 else 0
  {
    if s != [] {
      Multiplicity(s[..|s| - 1], k);
      assert s == s[..|s| - 1] + [s[|s| - 1]];
    }
  }

  lemma NoDuplicatesMultiset<K(!new)>(s: seq<K>, t: seq<K>)
    requires NoDuplicates(s) && NoDuplicates(t) && forall k :: k in s <==> k in t
    ensures multiset(s) == multiset(t)
  {
    forall k ensures multiset(s)[k] == multiset(t)[k] {
      Multiplicity(s, k);
      Multiplicity(t, k);
    }
  }

  lemma NoDuplicatesPermutation<K(!new)>(s: seq<K>, t: seq<K>)
    requires NoDuplicates(s) && multiset(s) == multiset(t)
    ensures NoDuplicates(t)
  {
    if i, j :| 0 <= i < j < |t| && t[i] == t[j] {
      Multiplicity(s, t[i]);
      CountedTwice(t, i, j);
    }
  }

  lemma CountedTwice<K(!new)>(t: seq<K>, i: nat, j: nat)
    requires i < j < |t| && t[i] == t[j]
    ensures multiset(t)[t[i]] >= 2
  {
    assert t == t[..i] + [t[i]] + t[i + 1..j] + [t[j]] + t[j + 1..];
  }

  /* ---- one field of every element ---- */

  function Project<T, U>(s: seq<T>, f: T -> U): (r: seq<U>)
    ensures |r| == |s| && forall i :: 0 <= i < |s| ==> r[i] == f(s[i])
  {
    if s == [] then [] else Project(s[..|s| - 1], f) + [f(s[|s| - 1])]
  }

  lemma {:induction false} ProjectAppend<T, U>(s: seq<T>, t: seq<T>, f: T -> U)
    ensures Project(s + t, f) == Project(s, f) + Project(t, f)
  {
  }

  lemma ProjectSnoc<T, U>(s: seq<T>, i: nat, f: T -> U)
    requires i < |s|
    ensures Project(s[..i + 1], f) == Project(s[..i], f) + [f(s[i])]
  {
    assert s[..i + 1][..i] == s[..i];
  }

  lemma {:induction false} ProjectCounts<T(!new), U(!new)>(s: seq<T>, f: T -> U, u: U)
    ensures multiset(Project(s, f))[u] == |BucketOf(s, f, u)|
  {
    if s != [] {
      ProjectCounts(s[..|s| - 1], f, u);
    }
  }

  /** Projecting commutes with permuting. */
  lemma ProjectPermutation<T(!new), U(!new)>(s: seq<T>, t: seq<T>, f: T -> U)
    requires multiset(s) == multiset(t)
    ensures multiset(Project(s, f)) == multiset(Project(t, f))
  {
    forall u ensures multiset(Project(s, f))[u] == multiset(Project(t, f))[u] {
      ProjectCounts(s, f, u);
      ProjectCounts(t, f, u);
      BucketPermutation(s, t, f, u);
      var a, b := BucketOf(s, f, u), BucketOf(t, f, u);
      assert |multiset(a)| == |multiset(b)|;
    }
  }

  /** What tells the elements of a list apart tells the elements of a bucket apart. */
  lemma BucketStaysDistinct<T(!new), K(!new), U(!new)>(s: seq<T>, key: T -> K, k: K, f: T -> U)
    requires NoDuplicates(Project(s, f))
    ensures NoDuplicates(Project(BucketOf(s, key, k), f))
  {
    forall u ensures multiset(Project(s, f))[u] <= 1 {
      Multiplicity(Project(s, f), u);
    }
    BucketProjects(s, key, k, f);
    OnceIsDistinct(Project(BucketOf(s, key, k), f));
  }

  lemma OnceIsDistinct<U(!new)>(t: seq<U>)
    requires forall u :: multiset(t)[u] <= 1
    ensures NoDuplicates(t)
  {
    if i, j :| 0 <= i < j < |t| && t[i] == t[j] {
      CountedTwice(t, i, j);
    }
  }

  lemma {:induction false} BucketProjects<T(!new), K(!new), U(!new)>(s: seq<T>, key: T -> K, k: K, f: T -> U)
    ensures multiset(Project(BucketOf(s, key, k), f)) <= multiset(Project(s, f))
  {
    if s != [] {
      BucketProjects(s[..|s| - 1], key, k, f);
      ProjectAppend(BucketOf(s[..|s| - 1], key, k), [s[|s| - 1]], f);
      assert Project([s[|s| - 1]], f) == [f(s[|s| - 1])];
    }
  }

  /** A part of a list projects to no more than the list does. */
  lemma SubmultisetProjects<T(!new), U(!new)>(s: seq<T>, t: seq<T>, f: T -> U, u: U)
    requires multiset(s) <= multiset(t)
    ensures multiset(Project(s, f))[u] <= multiset(Project(t, f))[u]
  {
    ProjectCounts(s, f, u);
    ProjectCounts(t, f, u);
    var a, b := BucketOf(s, f, u), BucketOf(t, f, u);
    forall x ensures multiset(a)[x] <= multiset(b)[x] {
      BucketMultiset(s, f, u, x);
      BucketMultiset(t, f, u, x);
    }
    SmallerLists(a, b);
  }

  lemma SmallerLists<T>(a: seq<T>, b: seq<T>)
    requires multiset(a) <= multiset(b)
    ensures |a| <= |b|
  {
    assert multiset(b) == multiset(a) + (multiset(b) - multiset(a));
    assert |multiset(a)| == |a| && |multiset(b)| == |b|;
  }

  /** The loop every grouping in the source starts with. */
  method BucketBy<T(!new), K(==, !new)>(s: seq<T>, key: T -> K) returns (order: seq<K>, buckets: map<K, seq<T>>)
    ensures order == KeysOf(s, key)
    ensures forall k :: k in buckets <==> k in order
    ensures forall k :: k in buckets ==> buckets[k] == BucketOf(s, key, k)
  {
    order, buckets := [], map[];
    for i := 0 to |s|
      invariant order == KeysOf(s[..i], key)
      invariant forall k :: k in buckets <==> k in order
      invariant forall k :: k !in buckets ==> BucketOf(s[..i], key, k) == []
      invariant forall k :: k in buckets ==> buckets[k] == BucketOf(s[..i], key, k)
    {
      var k := key(s[i]);
      assert s[..i + 1][..i] == s[..i];
      ghost var before := buckets;
      if k !in buckets {
        order := order + [k];
        buckets := buckets[k := [s[i]]];
      } else {
        buckets := buckets[k := buckets[k] + [s[i]]];
      }
      forall k' | k' in buckets ensures buckets[k'] == BucketOf(s[..i + 1], key, k') {
        BucketSnoc(s, i, key, k');
        assert k' != k ==> buckets[k'] == before[k'];
      }
    }
    assert s[..|s|] == s;
  }
}
