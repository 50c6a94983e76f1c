/** Option, the byte-wise string order, and sorting under a strict weak order.
    `SortSlice` stands for the language's own unstable sort: its contract says that the result
    is an ordered permutation and nothing about elements that compare equal. */
module Ordering {

  datatype Option<+T> = None | Some(value: T)

  /* ---- strings ---- */

  /** Lexicographic order. On code points it agrees with the order of the UTF-8 bytes. */
  predicate StrLess(a: string, b: string)
    decreases |a|
  {
    b != [] && (a == [] || a[0] < b[0] || (a[0] == b[0] && StrLess(a[1..], b[1..])))
  }

  lemma {:induction false} StrIrreflexive(a: string)
    ensures !StrLess(a, a)
    decreases |a|
  {
    if a != [] {
      StrIrreflexive(a[1..]);
    }
  }

  lemma {:induction false} StrTransitive(a: string, b: string, c: string)
    requires StrLess(a, b) && StrLess(b, c)
    ensures StrLess(a, c)
    decreases |a|
  {
    if a != [] && a[0] == b[0] && b[0] == c[0] {
      StrTransitive(a[1..], b[1..], c[1..]);
    }
  }

  lemma {:induction false} StrTotal(a: string, b: string)
    ensures StrLess(a, b) || StrLess(b, a) || a == b
    decreases |a|
  {
    if a != [] && b != [] && a[0] == b[0] {
      StrTotal(a[1..], b[1..]);
      assert a == [a[0]] + a[1..] && b == [b[0]] + b[1..];
    }
  }

  /** What one field of a compound comparison needs to know about three strings. */
  lemma StrOrder(a: string, b: string, c: string)
    ensures !(StrLess(a, b) && StrLess(b, a))
    ensures StrLess(a, b) || StrLess(b, a) || a == b
    ensures !StrLess(a, a)
    ensures StrLess(a, c) ==> StrLess(a, b) || StrLess(b, c)
    ensures StrLess(a, b) && StrLess(b, c) ==> StrLess(a, c)
  {
    StrIrreflexive(a);
    StrTotal(a, b);
    StrTotal(b, c);
    if StrLess(a, b) && StrLess(b, a) {
      StrTransitive(a, b, a);
    }
    if StrLess(a, b) && StrLess(b, c) {
      StrTransitive(a, b, c);
    }
    if StrLess(a, c) && !StrLess(a, b) && !StrLess(b, c) {
      if b == a || b == c {
      } else {
        StrTransitive(c, b, a);
        StrTransitive(a, c, a);
        StrIrreflexive(a);
      }
    }
  }

  /* ---- sorting ---- */

  ghost predicate StrictWeak<T(!new)>(less: (T, T) -> bool) {
    && (forall a, b :: less(a, b) ==> !less(b, a))
    && (forall a, b, c :: less(a, c) ==> less(a, b) || less(b, c))
  }

  ghost predicate SortedBy<T>(s: seq<T>, less: (T, T) -> bool) {
    forall i, j :: 0 <= i < j < |s| ==> !less(s[j], s[i])
  }

  /** No two different elements compare equal. */
  ghost predicate TiesEqual<T>(s: seq<T>, less: (T, T) -> bool) {
    forall i, j :: 0 <= i < |s| && 0 <= j < |s| && !less(s[i], s[j]) && !less(s[j], s[i]) ==> s[i] == s[j]
  }

  lemma StringOrder()
    ensures StrictWeak(StrLess)
  {
    forall a, b, c
      ensures StrLess(a, b) ==> !StrLess(b, a)
      ensures StrLess(a, c) ==> StrLess(a, b) || StrLess(b, c)
    {
      StrOrder(a, b, c);
    }
  }

  function Insert<T>(x: T, s: seq<T>, less: (T, T) -> bool): seq<T> {
    if s == [] || !less(s[0], x) then [x] + s else [s[0]] + Insert(x, s[1..], less)
  }

  /** Stable insertion sort. */
  function Sort<T>(s: seq<T>, less: (T, T) -> bool): seq<T> {
    if s == [] then [] else Insert(s[0], Sort(s[1..], less), less)
  }

  lemma {:induction false} InsertSorted<T(!new)>(x: T, s: seq<T>, less: (T, T) -> bool)
    requires StrictWeak(less) && SortedBy(s, less)
    ensures SortedBy(Insert(x, s, less), less)
    ensures multiset(Insert(x, s, less)) == multiset{x} + multiset(s)
  {
    if s == [] {
    } else if !less(s[0], x) {
    } else {
      var t := s[1..];
      InsertSorted(x, t, less);
      var r := Insert(x, t, less);
      assert s == [s[0]] + t;
      forall j | 0 <= j < |r| ensures !less(r[j], s[0]) {
        assert r[j] in multiset(r);
        if r[j] != x {
          assert r[j] in multiset(t);
          var k :| 0 <= k < |t| && t[k] == r[j];
          assert s[k + 1] == r[j];
        }
      }
    }
  }

  lemma {:induction false} SortSorted<T(!new)>(s: seq<T>, less: (T, T) -> bool)
    requires StrictWeak(less)
    ensures SortedBy(Sort(s, less), less)
    ensures multiset(Sort(s, less)) == multiset(s)
    ensures |Sort(s, less)| == |s|
  {
    if s != [] {
      SortSorted(s[1..], less);
      InsertSorted(s[0], Sort(s[1..], less), less);
      assert s == [s[0]] + s[1..];
    }
    assert |multiset(Sort(s, less))| == |multiset(s)|;
  }

  method SortSlice<T(!new)>(s: seq<T>, less: (T, T) -> bool) returns (r: seq<T>)
    requires StrictWeak(less)
    ensures SortedBy(r, less)
    ensures multiset(r) == multiset(s) && |r| == |s|
  {
    SortSorted(s, less);
    r := Sort(s, less);
  }

  /** Two ordered permutations agree as soon as ties are equal elements. */
  lemma {:induction false} SortedUnique<T(!new)>(s: seq<T>, t: seq<T>, less: (T, T) -> bool)
    requires multiset(s) == multiset(t)
    requires SortedBy(s, less) && SortedBy(t, less) && TiesEqual(s, less)
    ensures s == t
  {
    assert |multiset(s)| == |s| && |multiset(t)| == |t|;
    if s != [] {
      SameLeast(s, t, less);
      assert s == [s[0]] + s[1..] && t == [t[0]] + t[1..];
      assert multiset(s[1..]) == multiset(s) - multiset{s[0]};
      assert multiset(t[1..]) == multiset(t) - multiset{t[0]};
      SortedUnique(s[1..], t[1..], less);
    }
  }

  lemma SameLeast<T(!new)>(s: seq<T>, t: seq<T>, less: (T, T) -> bool)
    requires s != [] && t != [] && multiset(s) == multiset(t)
    requires SortedBy(s, less) && SortedBy(t, less) && TiesEqual(s, less)
    ensures s[0] == t[0]
  {
    assert s[0] in multiset(t) && t[0] in multiset(s);
    var i :| 0 <= i < |t| && t[i] == s[0];
    var j :| 0 <= j < |s| && s[j] == t[0];
    if i != 0 && j != 0 {
      assert !less(t[i], t[0]) && !less(s[j], s[0]);
      assert !less(s[0], s[j]);
    }
  }

  /** Sorting forgets the input order when ties are equal elements. */
  lemma SortPermutation<T(!new)>(s: seq<T>, t: seq<T>, less: (T, T) -> bool)
    requires StrictWeak(less) && multiset(s) == multiset(t) && TiesEqual(s, less)
    ensures Sort(s, less) == Sort(t, less)
  {
    SortSorted(s, less);
    SortSorted(t, less);
    TiesOfPermutation(s, Sort(s, less), less);
    SortedUnique(Sort(s, less), Sort(t, less), less);
  }

  lemma TiesOfPermutation<T(!new)>(s: seq<T>, t: seq<T>, less: (T, T) -> bool)
    requires multiset(s) == multiset(t) && TiesEqual(s, less)
    ensures TiesEqual(t, less)
  {
    forall i, j | 0 <= i < |t| && 0 <= j < |t| && !less(t[i], t[j]) && !less(t[j], t[i])
      ensures t[i] == t[j]
    {
      assert t[i] in multiset(s) && t[j] in multiset(s);
      var a :| 0 <= a < |s| && s[a] == t[i];
      var b :| 0 <= b < |s| && s[b] == t[j];
    }
  }

  /** Two elements that compare equal can trade places. */
  lemma SwapTied<T(!new)>(m: seq<T>, i: nat, j: nat, less: (T, T) -> bool)
    requires StrictWeak(less) && SortedBy(m, less)
    requires i < |m| && j < |m| && !less(m[i], m[j]) && !less(m[j], m[i])
    ensures SortedBy(m[i := m[j]][j := m[i]], less)
    ensures multiset(m[i := m[j]][j := m[i]]) == multiset(m)
  {
    var s := m[i := m[j]][j := m[i]];
    forall p, q | 0 <= p < q < |s| ensures !less(s[q], s[p]) {
      assert !less(m[q], m[p]);
    }
  }
}
