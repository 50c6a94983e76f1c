/** DEEP_MERGE: recursive merge of structured contents. The reference definition is order theory:
    one tree is below another when every leaf of the first is a leaf of the second, and merging
    is the least upper bound. Iteration over a table is in arbitrary order throughout. */
module DeepMerge {
  import opened Ordering

  /** A decoded document: tables, and everything else as its canonical digest. */
  datatype Value = Scalar(token: string) | Table(fields: map<string, Value>)

  type Fields = map<string, Value>

  /** One structured source with its reference and the scope it comes from. */
  datatype Source = Source(ref: string, scope: string, fields: Fields)

  /* ---- the order ---- */

  ghost predicate Below(x: Value, y: Value) {
    match x
    case Scalar(_) => x == y
    case Table(m) => y.Table? && forall k | k in m :: k in y.fields && Below(m[k], y.fields[k])
  }

  ghost predicate UpperBound(u: Value, s: seq<Source>) {
    u.Table? && forall i | 0 <= i < |s| :: Below(Table(s[i].fields), u)
  }

  ghost predicate IsJoin(r: Value, s: seq<Source>) {
    UpperBound(r, s) && forall u | UpperBound(u, s) :: Below(r, u)
  }

  lemma {:induction false} BelowReflexive(x: Value)
    ensures Below(x, x)
  {
    if x.Table? {
      forall k | k in x.fields ensures Below(x.fields[k], x.fields[k]) {
        BelowReflexive(x.fields[k]);
      }
    }
  }

  lemma {:induction false} BelowTransitive(x: Value, y: Value, z: Value)
    requires Below(x, y) && Below(y, z)
    ensures Below(x, z)
  {
    if x.Table? {
      forall k | k in x.fields ensures k in z.fields && Below(x.fields[k], z.fields[k]) {
        BelowTransitive(x.fields[k], y.fields[k], z.fields[k]);
      }
    }
  }

  lemma {:induction false} BelowAntisymmetric(x: Value, y: Value)
    requires Below(x, y) && Below(y, x)
    ensures x == y
  {
    if x.Table? {
      assert x.fields.Keys == y.fields.Keys;
      forall k | k in x.fields ensures x.fields[k] == y.fields[k] {
        BelowAntisymmetric(x.fields[k], y.fields[k]);
      }
      assert x.fields == y.fields;
    }
  }

  /** There is at most one join, so neither source order nor iteration order can show in it. */
  lemma JoinUnique(r: Value, t: Value, s: seq<Source>, p: seq<Source>)
    requires multiset(s) == multiset(p)
    requires IsJoin(r, s) && IsJoin(t, p)
    ensures r == t
  {
    BoundOfPermutation(r, s, p);
    BoundOfPermutation(t, p, s);
    BelowAntisymmetric(r, t);
  }

  lemma BoundOfPermutation(u: Value, s: seq<Source>, p: seq<Source>)
    requires multiset(s) == multiset(p) && UpperBound(u, s)
    ensures UpperBound(u, p)
  {
    forall i | 0 <= i < |p| ensures Below(Table(p[i].fields), u) {
      assert p[i] in multiset(s);
      var j :| 0 <= j < |s| && s[j] == p[i];
    }
  }

  /* ---- compatibility and overlay ---- */

  predicate Compatible(x: Value, y: Value) {
    if x.Table? && y.Table? then
      forall k | k in x.fields && k in y.fields :: Compatible(x.fields[k], y.fields[k])
    else
      x == y
  }

  /** Every pair of subtables under a common key is compatible: no early return below the top. */
  predicate NestedClean(x: Fields, y: Fields) {
    forall k | k in x && k in y && x[k].Table? && y[k].Table? :: Compatible(x[k], y[k])
  }

  /** `y` written over `x`, descending where both hold tables. */
  function Overlay(x: Value, y: Value): Value {
    if x.Table? && y.Table? then
      Table(map k | k in x.fields.Keys + y.fields.Keys ::
              if k !in y.fields then x.fields[k]
              else if k !in x.fields then y.fields[k]
              else Overlay(x.fields[k], y.fields[k]))
    else
      y
  }

  lemma {:induction false} OverlayIsUpper(x: Value, y: Value)
    requires Compatible(x, y)
    ensures Below(x, Overlay(x, y)) && Below(y, Overlay(x, y))
  {
    BelowReflexive(y);
    if x.Table? && y.Table? {
      var o := Overlay(x, y);
      forall k | k in x.fields ensures k in o.fields && Below(x.fields[k], o.fields[k]) {
        if k in y.fields {
          OverlayIsUpper(x.fields[k], y.fields[k]);
        } else {
          BelowReflexive(x.fields[k]);
        }
      }
      forall k | k in y.fields ensures k in o.fields && Below(y.fields[k], o.fields[k]) {
        if k in x.fields {
          OverlayIsUpper(x.fields[k], y.fields[k]);
        } else {
          BelowReflexive(y.fields[k]);
        }
      }
    }
  }

  lemma {:induction false} OverlayIsLeast(x: Value, y: Value, u: Value)
    requires Below(x, u) && Below(y, u)
    ensures Compatible(x, y) && Below(Overlay(x, y), u)
  {
    if x.Table? && y.Table? {
      forall k | k in x.fields && k in y.fields
        ensures Compatible(x.fields[k], y.fields[k]) && Below(Overlay(x.fields[k], y.fields[k]), u.fields[k])
      {
        OverlayIsLeast(x.fields[k], y.fields[k], u.fields[k]);
      }
      var o := Overlay(x, y);
      forall k | k in o.fields ensures k in u.fields && Below(o.fields[k], u.fields[k]) {
      }
    }
  }

  /** Being incompatible with what has been merged so far is being incompatible with a part of it. */
  lemma {:induction false} CompatibleWithOverlay(x: Value, y: Value, c: Value)
    requires Compatible(x, y)
    ensures Compatible(Overlay(x, y), c) <==> Compatible(x, c) && Compatible(y, c)
  {
    if x.Table? && y.Table? && c.Table? {
      var o := Overlay(x, y);
      forall k | k in x.fields && k in y.fields && k in c.fields
        ensures Compatible(o.fields[k], c.fields[k])
          <==> Compatible(x.fields[k], c.fields[k]) && Compatible(y.fields[k], c.fields[k])
      {
        CompatibleWithOverlay(x.fields[k], y.fields[k], c.fields[k]);
      }
      if Compatible(o, c) {
        forall k | k in x.fields && k in c.fields ensures Compatible(x.fields[k], c.fields[k]) {
          assert k in o.fields;
        }
        forall k | k in y.fields && k in c.fields ensures Compatible(y.fields[k], c.fields[k]) {
          assert k in o.fields;
        }
      }
      if Compatible(x, c) && Compatible(y, c) {
        forall k | k in o.fields && k in c.fields ensures Compatible(o.fields[k], c.fields[k]) {
        }
      }
    }
  }

  /* ---- one merge step ---- */

  /** The overlay at one key of `src`. */
  ghost function At(dst: Fields, src: Fields, k: string): Value
    requires k in src
  {
    if k in dst then Overlay(dst[k], src[k]) else src[k]
  }

  lemma CompatibleIsClean(x: Fields, y: Fields)
    requires Compatible(Table(x), Table(y))
    ensures NestedClean(x, y)
  {
    assert Table(x).fields == x && Table(y).fields == y;
    forall k | k in x && k in y ensures Compatible(x[k], y[k]) {
      assert k in Table(x).fields && k in Table(y).fields;
    }
  }

  /* ---- merging all sources ---- */

  predicate Covers(rank: map<string, int>, s: seq<Source>) {
    forall i | 0 <= i < |s| :: s[i].scope in rank
  }

  /** Ascending rank: the highest-ranked source is merged last. */
  function ByRank(rank: map<string, int>): (Source, Source) -> bool {
    (a: Source, b: Source) => Rank(rank, a) < Rank(rank, b)
  }

  function Rank(rank: map<string, int>, a: Source): int {
    if a.scope in rank then rank[a.scope] else 0
  }

  function MergeOrder(s: seq<Source>, rank: map<string, int>): seq<Source> {
    if Covers(rank, s) then Sort(s, ByRank(rank)) else s
  }

  predicate PairwiseCompatible(s: seq<Source>) {
    forall i, j | 0 <= i < j < |s| :: Compatible(Table(s[i].fields), Table(s[j].fields))
  }

  function OverlayAll(s: seq<Source>): (r: Value)
    ensures r.Table?
  {
    if s == [] then Table(map[])
    else Overlay(OverlayAll(s[..|s| - 1]), Table(s[|s| - 1].fields))
  }

  /** No step of the fold meets a conflict below the top level. */
  predicate ChainClean(s: seq<Source>) {
    s != [] ==> ChainClean(s[..|s| - 1]) && NestedClean(OverlayAll(s[..|s| - 1]).fields, s[|s| - 1].fields)
  }

  /** Accumulated compatibility is compatibility with each earlier source. */
  lemma {:induction false} FoldCompatible(s: seq<Source>, c: Fields)
    requires PairwiseCompatible(s)
    ensures Compatible(OverlayAll(s), Table(c))
      <==> forall i | 0 <= i < |s| :: Compatible(Table(s[i].fields), Table(c))
  {
    if s != [] {
      var p, last := s[..|s| - 1], s[|s| - 1].fields;
      FoldCompatible(p, last);
      assert forall i | 0 <= i < |p| :: p[i] == s[i];
      FoldCompatible(p, c);
      CompatibleWithOverlay(OverlayAll(p), Table(last), Table(c));
    }
  }

  /** Pairwise compatible sources fold to their least upper bound. */
  lemma {:induction false} FoldIsJoin(s: seq<Source>)
    requires PairwiseCompatible(s)
    ensures IsJoin(OverlayAll(s), s) && ChainClean(s)
  {
    var r := OverlayAll(s);
    if s != [] {
      var p, last := s[..|s| - 1], s[|s| - 1].fields;
      FoldIsJoin(p);
      FoldCompatible(p, last);
      CompatibleIsClean(OverlayAll(p).fields, last);
      OverlayIsUpper(OverlayAll(p), Table(last));
      forall i | 0 <= i < |s| ensures Below(Table(s[i].fields), r) {
        if i < |p| {
          assert p[i] == s[i];
          BelowTransitive(Table(s[i].fields), OverlayAll(p), r);
        }
      }
      forall u | UpperBound(u, s) ensures Below(r, u) {
        assert forall i | 0 <= i < |p| :: p[i] == s[i];
        assert UpperBound(u, p);
        OverlayIsLeast(OverlayAll(p), Table(last), u);
      }
    }
  }

  /** A common upper bound exists exactly when the sources are pairwise compatible. */
  lemma JoinExists(s: seq<Source>)
    ensures PairwiseCompatible(s) <==> exists u :: UpperBound(u, s)
  {
    if PairwiseCompatible(s) {
      FoldIsJoin(s);
      assert UpperBound(OverlayAll(s), s);
    }
    if u :| UpperBound(u, s) {
      forall i, j | 0 <= i < j < |s| ensures Compatible(Table(s[i].fields), Table(s[j].fields)) {
        OverlayIsLeast(Table(s[i].fields), Table(s[j].fields), u);
      }
    }
  }

  lemma ByRankOrder(rank: map<string, int>)
    ensures StrictWeak(ByRank(rank))
  {
  }

  lemma PairwiseOfPermutation(s: seq<Source>, p: seq<Source>)
    requires multiset(s) == multiset(p)
    ensures PairwiseCompatible(s) <==> PairwiseCompatible(p)
  {
    JoinExists(s);
    JoinExists(p);
    if u :| UpperBound(u, s) {
      BoundOfPermutation(u, s, p);
    }
    if u :| UpperBound(u, p) {
      BoundOfPermutation(u, p, s);
    }
  }

  lemma MergeOrderPermutes(s: seq<Source>, rank: map<string, int>)
    ensures multiset(MergeOrder(s, rank)) == multiset(s)
    ensures PairwiseCompatible(s) <==> PairwiseCompatible(MergeOrder(s, rank))
  {
    ByRankOrder(rank);
    SortSorted(s, ByRank(rank));
    PairwiseOfPermutation(s, MergeOrder(s, rank));
  }

  lemma JoinOfPermutation(r: Value, s: seq<Source>, p: seq<Source>)
    requires multiset(s) == multiset(p) && IsJoin(r, s)
    ensures IsJoin(r, p)
  {
    BoundOfPermutation(r, s, p);
    forall u | UpperBound(u, p) ensures Below(r, u) {
      BoundOfPermutation(u, p, s);
    }
  }

  /** One iteration: what the accumulated prefix says about the next source. */
  lemma StepOfFold(s: seq<Source>, i: nat)
    requires i < |s|
    ensures OverlayAll(s[..i + 1]) == Overlay(OverlayAll(s[..i]), Table(s[i].fields))
    ensures ChainClean(s[..i + 1]) <==> ChainClean(s[..i]) && NestedClean(OverlayAll(s[..i]).fields, s[i].fields)
    ensures PairwiseCompatible(s[..i]) ==> ChainClean(s[..i])
    ensures PairwiseCompatible(s[..i]) ==>
              (Compatible(OverlayAll(s[..i]), Table(s[i].fields)) <==> PairwiseCompatible(s[..i + 1]))
    ensures PairwiseCompatible(s) ==> PairwiseCompatible(s[..i + 1])
  {
    var p, q := s[..i], s[..i + 1];
    assert q[..|q| - 1] == p && q[|q| - 1] == s[i];
    if PairwiseCompatible(p) {
      FoldIsJoin(p);
      FoldCompatible(p, s[i].fields);
      assert forall j | 0 <= j < i :: p[j] == q[j];
    }
  }
}
