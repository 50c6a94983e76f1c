/** Whose value a deep merge keeps. A nested collision ends a source's merge wherever the iteration has
    got to, so besides rank and list order the iteration order can show. Each statement below is
    about every iteration, and comes with the iterations for which it would fail. */
module MergeWinners {
  import opened Ordering
  import opened Buckets
  import opened DeepMerge
  import opened TableMerge

  predicate Holds(out: Fields, k: string, v: Value) {
    k in out && out[k] == v
  }

  /** The two tables say the same about one key. */
  predicate SameAt(x: Fields, y: Fields, k: string) {
    (k in x <==> k in y) && (k in x ==> x[k] == y[k])
  }

  /* ---- steering the iteration ---- */

  lemma OnlyVisit(v: Visit)
    ensures forall l :: Visited([v], l) <==> l == v.key
  {
    assert [v][0].key == v.key;
  }

  /** An iteration that starts with a key of one's choice. */
  lemma StartWith(src: Fields, v: Visit) returns (order: seq<Visit>, rest: seq<Visit>)
    requires VisitOk(v, src)
    ensures order == [v] + rest && Iterates(order, src) && !Visited(rest, v.key)
  {
    rest := SomeVisits(src, src.Keys - {v.key});
    OnlyVisit(v);
    order := JoinVisits(src, [v], rest);
  }

  lemma FirstStep(dst: Fields, src: Fields, v: Visit)
    ensures After(dst, src, [v]) == StepVisit(Progress(dst, true, false), src, v)
  {
    assert [v][..0] == [];
  }

  /** Later visits of other keys leave a key as it is. */
  lemma {:induction false} LaterStay(dst: Fields, src: Fields, a: seq<Visit>, b: seq<Visit>, k: string)
    requires !Visited(b, k)
    ensures SameAt(After(dst, src, a + b).out, After(dst, src, a).out, k)
  {
    if b == [] {
      assert a + b == a;
    } else {
      var q, v := b[..|b| - 1], b[|b| - 1];
      assert (a + b)[..|a + b| - 1] == a + q;
      assert forall i :: 0 <= i < |q| ==> q[i] == b[i];
      assert b[|b| - 1].key == v.key;
      LaterStay(dst, src, a, q, k);
      StepOthers(After(dst, src, a + q), src, v);
    }
  }

  /** Visiting a key first settles it: a nested collision there ends the merge, anything else writes
      the overlay. */
  lemma VisitFirst(dst: Fields, src: Fields, v: Visit) returns (order: seq<Visit>)
    requires VisitOk(v, src)
    ensures Iterates(order, src)
    ensures NestedClash(dst, src, v.key) ==>
              After(dst, src, order).out
                == dst[v.key := Table(After(dst[v.key].fields, src[v.key].fields, v.inner).out)]
    ensures !NestedClash(dst, src, v.key) ==> Holds(After(dst, src, order).out, v.key, At(dst, src, v.key))
  {
    var rest;
    order, rest := StartWith(src, v);
    FirstStep(dst, src, v);
    VisitSettled(dst, src, Progress(dst, true, false), v);
    if NestedClash(dst, src, v.key) {
      StoppedStays(dst, src, [v], rest);
    } else {
      LaterStay(dst, src, [v], rest, v.key);
    }
  }

  /** A merge that reports a conflict has changed the destination. */
  lemma {:induction false} ConflictChanges(dst: Fields, src: Fields, order: seq<Visit>) returns (k: string)
    requires Partial(order, src) && !After(dst, src, order).ok
    ensures Visited(order, k) && k in dst && !SameAt(After(dst, src, order).out, dst, k)
    decreases order, 1
  {
    var q, v := order[..|order| - 1], order[|order| - 1];
    var p := After(dst, src, q);
    PartialPrefix(order, src);
    if !p.ok {
      k := ConflictChanges(dst, src, q);
      StepOthers(p, src, v);
    } else {
      AfterSettled(dst, src, q);
      UnvisitedStay(dst, src, q, v.key);
      k := v.key;
      if dst[k].Table? && src[k].Table? {
        var l := ConflictChanges(dst[k].fields, src[k].fields, v.inner);
      }
    }
  }

  /* ---- one merge: when a leaf of the source is sure to be written ---- */

  /** A leaf that the destination already has stays, whatever is visited. */
  lemma {:induction false} EqualStays(dst: Fields, src: Fields, order: seq<Visit>, k: string)
    requires Partial(order, src) && k in src && src[k].Scalar? && Holds(dst, k, src[k])
    ensures Holds(After(dst, src, order).out, k, src[k])
  {
    if order != [] {
      PartialPrefix(order, src);
      EqualStays(dst, src, order[..|order| - 1], k);
    }
  }

  /** A leaf of the source is written in every iteration exactly when no subtables collide or it was
      there already. */
  lemma LeafWrittenExact(dst: Fields, src: Fields, k: string)
    requires k in src && src[k].Scalar?
    ensures (forall order | Iterates(order, src) :: Holds(After(dst, src, order).out, k, src[k]))
       <==> NestedClean(dst, src) || Holds(dst, k, src[k])
  {
    if NestedClean(dst, src) || Holds(dst, k, src[k]) {
      forall order | Iterates(order, src) ensures Holds(After(dst, src, order).out, k, src[k]) {
        LeafWritten(dst, src, order, k);
      }
    } else {
      var n := SomeNestedClash(dst, src);
      var order := HideFrom(dst, src, n, k);
      assert Iterates(order, src) && !Holds(After(dst, src, order).out, k, src[k]);
    }
  }

  lemma LeafWritten(dst: Fields, src: Fields, order: seq<Visit>, k: string)
    requires k in src && src[k].Scalar? && Iterates(order, src) && (NestedClean(dst, src) || Holds(dst, k, src[k]))
    ensures Holds(After(dst, src, order).out, k, src[k])
  {
    if NestedClean(dst, src) {
      MergeExact(dst, src, order);
      assert k in Overlay(Table(dst), Table(src)).fields;
    } else {
      EqualStays(dst, src, order, k);
    }
  }

  lemma SomeNestedClash(dst: Fields, src: Fields) returns (n: string)
    requires !NestedClean(dst, src)
    ensures NestedClash(dst, src, n)
  {
    n :| n in dst && n in src && dst[n].Table? && src[n].Table? && !Compatible(dst[n], src[n]);
  }

  /** Visiting a nested collision first leaves every other key as it was. */
  lemma HideFrom(dst: Fields, src: Fields, n: string, k: string) returns (order: seq<Visit>)
    requires NestedClash(dst, src, n) && k != n
    ensures Iterates(order, src) && SameAt(After(dst, src, order).out, dst, k)
  {
    var inner := SomeOrder(src[n].fields);
    order := VisitFirst(dst, src, Visit(n, inner));
  }

  /* ---- one merge: when the iteration order cannot show ---- */

  /** The source adds nothing at this key. */
  predicate NoOp(dst: Fields, src: Fields, k: string) {
    k in dst && k in src && Overlay(dst[k], src[k]) == dst[k]
  }

  /** No subtables collide; or only one pair does, everything else adds nothing, and the same holds
      inside the pair. */
  ghost predicate Steady(x: Value, y: Value)
    requires x.Table? && y.Table?
    decreases y
  {
    || NestedClean(x.fields, y.fields)
    || exists n | n in x.fields && n in y.fields && x.fields[n].Table? && y.fields[n].Table? ::
         (forall k | k in y.fields && k != n :: NoOp(x.fields, y.fields, k)) && Steady(x.fields[n], y.fields[n])
  }

  lemma {:induction false} NoOpCompatible(x: Value, y: Value)
    requires Overlay(x, y) == x
    ensures Compatible(x, y)
  {
    if x.Table? && y.Table? {
      forall k | k in x.fields && k in y.fields ensures Compatible(x.fields[k], y.fields[k]) {
        assert Overlay(x, y).fields[k] == Overlay(x.fields[k], y.fields[k]);
        NoOpCompatible(x.fields[k], y.fields[k]);
      }
    }
  }

  /** Visiting a key that adds nothing changes nothing. */
  lemma NoOpVisit(dst: Fields, src: Fields, p: Progress, v: Visit)
    requires VisitOk(v, src) && NoOp(dst, src, v.key) && Holds(p.out, v.key, dst[v.key]) && !p.stopped
    ensures StepVisit(p, src, v) == p
  {
    NoOpCompatible(dst[v.key], src[v.key]);
    if dst[v.key].Table? && src[v.key].Table? {
      MergeExact(dst[v.key].fields, src[v.key].fields, v.inner);
      CompatibleIsClean(dst[v.key].fields, src[v.key].fields);
      assert Table(dst[v.key].fields) == dst[v.key] && Table(src[v.key].fields) == src[v.key];
    }
  }

  /** When all other keys add nothing, a full merge is the nested merge at `n`. */
  lemma {:induction false} OnlyNested(dst: Fields, src: Fields, order: seq<Visit>, n: string)
    returns (inner: seq<Visit>)
    requires Partial(order, src) && n in dst && n in src && dst[n].Table? && src[n].Table?
    requires forall k | k in src && k != n :: NoOp(dst, src, k)
    ensures !Visited(order, n) ==> After(dst, src, order) == Progress(dst, true, false)
    ensures Visited(order, n) ==>
              VisitOk(Visit(n, inner), src)
              && After(dst, src, order).out == dst[n := Table(After(dst[n].fields, src[n].fields, inner).out)]
  {
    inner := [];
    if order != [] {
      var q, v := order[..|order| - 1], order[|order| - 1];
      PartialPrefix(order, src);
      inner := OnlyNested(dst, src, q, n);
      if v.key == n {
        inner := v.inner;
        assert VisitOk(Visit(n, inner), src);
      } else if !After(dst, src, q).stopped {
        NoOpVisit(dst, src, After(dst, src, q), v);
      }
    }
  }

  lemma {:induction false} SteadyNeverShows(dst: Fields, src: Fields, o: seq<Visit>, p: seq<Visit>)
    requires Steady(Table(dst), Table(src)) && Iterates(o, src) && Iterates(p, src)
    ensures After(dst, src, o).out == After(dst, src, p).out
    decreases Table(src)
  {
    if NestedClean(dst, src) {
      MergeExact(dst, src, o);
      MergeExact(dst, src, p);
    } else {
      var n :| n in dst && n in src && dst[n].Table? && src[n].Table?
               && (forall k | k in src && k != n :: NoOp(dst, src, k)) && Steady(dst[n], src[n]);
      var i := OnlyNested(dst, src, o, n);
      var j := OnlyNested(dst, src, p, n);
      assert Table(src[n].fields) == Table(src).fields[n] && Table(dst[n].fields) == dst[n];
      SteadyNeverShows(dst[n].fields, src[n].fields, i, j);
    }
  }

  lemma {:induction false} UnsteadyShows(dst: Fields, src: Fields) returns (o: seq<Visit>, p: seq<Visit>)
    requires !Steady(Table(dst), Table(src))
    ensures Iterates(o, src) && Iterates(p, src) && After(dst, src, o).out != After(dst, src, p).out
    decreases Table(src)
  {
    var n := SomeNestedClash(dst, src);
    if k :| k in src && k != n && !NoOp(dst, src, k) {
      o := HideFrom(dst, src, n, k);
      p := ShowKey(dst, src, k);
    } else {
      assert Table(src[n].fields) == Table(src).fields[n] && Table(dst[n].fields) == dst[n];
      assert !Steady(dst[n], src[n]);
      var i, j := UnsteadyShows(dst[n].fields, src[n].fields);
      o := VisitFirst(dst, src, Visit(n, i));
      p := VisitFirst(dst, src, Visit(n, j));
      assert After(dst, src, o).out[n] != After(dst, src, p).out[n];
    }
  }

  /** A key at which the source adds something shows when it is visited first. */
  lemma ShowKey(dst: Fields, src: Fields, k: string) returns (order: seq<Visit>)
    requires k in src && !NoOp(dst, src, k)
    ensures Iterates(order, src) && !SameAt(After(dst, src, order).out, dst, k)
  {
    var inner := InnerOrder(src, k);
    order := VisitFirst(dst, src, Visit(k, inner));
    if NestedClash(dst, src, k) {
      MergeExact(dst[k].fields, src[k].fields, inner);
      var l := ConflictChanges(dst[k].fields, src[k].fields, inner);
    }
  }

  /** The result of a merge is the same in every iteration exactly when it is steady. */
  lemma IterationExact(dst: Fields, src: Fields)
    ensures (forall o, p | Iterates(o, src) && Iterates(p, src) :: After(dst, src, o).out == After(dst, src, p).out)
       <==> Steady(Table(dst), Table(src))
  {
    if Steady(Table(dst), Table(src)) {
      forall o, p | Iterates(o, src) && Iterates(p, src) ensures After(dst, src, o).out == After(dst, src, p).out {
        SteadyNeverShows(dst, src, o, p);
      }
    } else {
      var o, p := UnsteadyShows(dst, src);
    }
  }

  /* ---- all sources: the highest rank ---- */

  /** What is compatible with both is compatible with any mixture of the two. */
  lemma {:induction false} MixtureCompatible(dst: Fields, src: Fields, order: seq<Visit>, c: Fields)
    requires Partial(order, src) && Compatible(Table(dst), Table(c)) && Compatible(Table(src), Table(c))
    ensures Compatible(Table(After(dst, src, order).out), Table(c))
    decreases order, 1
  {
    CompatibleFields(dst, c);
    CompatibleFields(src, c);
    CompatibleFields(After(dst, src, order).out, c);
    if order != [] {
      var q, v := order[..|order| - 1], order[|order| - 1];
      PartialPrefix(order, src);
      MixtureCompatible(dst, src, q, c);
      CompatibleFields(After(dst, src, q).out, c);
      MixtureVisit(After(dst, src, q), src, v, c);
    }
  }

  lemma {:induction false} MixtureVisit(p: Progress, src: Fields, v: Visit, c: Fields)
    requires VisitOk(v, src)
    requires (v.key in p.out && v.key in c ==> Compatible(p.out[v.key], c[v.key]))
               && (v.key in c ==> Compatible(src[v.key], c[v.key]))
    ensures var t := StepVisit(p, src, v); v.key in t.out && (v.key in c ==> Compatible(t.out[v.key], c[v.key]))
    ensures forall k | k != v.key :: SameAt(StepVisit(p, src, v).out, p.out, k)
    decreases v, 0
  {
    StepOthers(p, src, v);
    if v.key in c && v.key in p.out && p.out[v.key].Table? && src[v.key].Table? && c[v.key].Table? {
      MixtureCompatible(p.out[v.key].fields, src[v.key].fields, v.inner, c[v.key].fields);
    }
  }

  /** The same for subtables only, which is all that a later source can collide with below the top. */
  lemma {:induction false} MixtureClean(dst: Fields, src: Fields, order: seq<Visit>, c: Fields)
    requires Partial(order, src) && NestedClean(dst, c) && NestedClean(src, c)
    ensures NestedClean(After(dst, src, order).out, c)
  {
    if order != [] {
      var q, v := order[..|order| - 1], order[|order| - 1];
      PartialPrefix(order, src);
      MixtureClean(dst, src, q, c);
      var p := After(dst, src, q);
      StepOthers(p, src, v);
      if v.key in c && c[v.key].Table? && v.key in p.out && p.out[v.key].Table? && src[v.key].Table? {
        MixtureVisit(p, src, v, c);
      }
    }
  }

  lemma {:induction false} FoldStaysClean(s: seq<Source>, orders: seq<seq<Visit>>, c: Fields)
    requires Orders(orders, s) && forall i :: 0 <= i < |s| ==> NestedClean(s[i].fields, c)
    ensures NestedClean(FoldBy(s, orders), c)
  {
    if s != [] {
      var n := |s| - 1;
      OrdersPrefix(orders, s);
      FoldStaysClean(s[..n], orders[..n], c);
      MixtureClean(FoldBy(s[..n], orders[..n]), s[n].fields, orders[n], c);
    }
  }

  /** A leaf of a source stays when no later source sets the key. */
  lemma {:induction false} WinnerKeepsLeaf(s: seq<Source>, orders: seq<seq<Visit>>, w: nat, k: string)
    requires Orders(orders, s) && w < |s| && k in s[w].fields && s[w].fields[k].Scalar?
    requires forall j :: 0 <= j < w ==> NestedClean(s[j].fields, s[w].fields)
    requires forall j :: w < j < |s| ==> k !in s[j].fields
    ensures Holds(FoldBy(s, orders), k, s[w].fields[k])
  {
    var n := |s| - 1;
    OrdersPrefix(orders, s);
    var acc := FoldBy(s[..n], orders[..n]);
    if w < n {
      WinnerKeepsLeaf(s[..n], orders[..n], w, k);
      NotVisited(orders[n], s[n].fields, k);
      UnvisitedStay(acc, s[n].fields, orders[n], k);
    } else {
      FoldStaysClean(s[..n], orders[..n], s[n].fields);
      LeafWritten(acc, s[n].fields, orders[n], k);
    }
  }

  /** A source whose subtables collide with no other source's keeps, in every iteration, each leaf for
      which it outranks all other sources setting it. */
  lemma HighestRankWins(distinct: seq<Source>, rank: map<string, int>, k: string, w: nat, orders: seq<seq<Visit>>)
    requires Covers(rank, distinct) && Orders(orders, MergeOrder(distinct, rank))
    requires w < |distinct| && k in distinct[w].fields && distinct[w].fields[k].Scalar?
    requires forall j | 0 <= j < |distinct| && k in distinct[j].fields && distinct[j] != distinct[w] ::
               Rank(rank, distinct[j]) < Rank(rank, distinct[w])
    requires forall j | 0 <= j < |distinct| :: NestedClean(distinct[j].fields, distinct[w].fields)
    ensures Holds(FoldBy(MergeOrder(distinct, rank), orders), k, distinct[w].fields[k])
  {
    var ordered := MergeOrder(distinct, rank);
    ByRankOrder(rank);
    SortSorted(distinct, ByRank(rank));
    SameMembers(distinct, ordered);
    assert distinct[w] in ordered;
    var i :| 0 <= i < |ordered| && ordered[i] == distinct[w];
    var last := LastWith(ordered, k, i);
    assert ordered[last] in distinct;
    var j :| 0 <= j < |distinct| && distinct[j] == ordered[last];
    if last != i {
      assert !ByRank(rank)(ordered[last], ordered[i]);
    }
    forall l | 0 <= l < last ensures NestedClean(ordered[l].fields, ordered[last].fields) {
      assert ordered[l] in distinct;
    }
    WinnerKeepsLeaf(ordered, orders, last, k);
  }

  lemma LastWith(s: seq<Source>, k: string, i: nat) returns (last: nat)
    requires i < |s| && k in s[i].fields
    ensures i <= last < |s| && k in s[last].fields && forall j | last < j < |s| :: k !in s[j].fields
  {
    last := |s| - 1;
    while k !in s[last].fields
      invariant i <= last < |s| && forall j | last < j < |s| :: k !in s[j].fields
      decreases last
    {
      last := last - 1;
    }
  }

  /* ---- two sources ---- */

  lemma FirstSource(a: Source, orders: seq<seq<Visit>>)
    requires Orders(orders, [a])
    ensures FoldBy([a], orders) == a.fields
  {
    MergeExact(map[], a.fields, orders[0]);
    assert Overlay(Table(map[]), Table(a.fields)) == Table(a.fields) by {
      OverlayFields(map[], a.fields, a.fields);
    }
    assert [a][..0] == [] && orders[..0] == [];
    assert FoldBy([], []) == map[];
  }

  lemma TwoFold(a: Source, b: Source, orders: seq<seq<Visit>>)
    requires Orders(orders, [a, b])
    ensures FoldBy([a, b], orders) == After(a.fields, b.fields, orders[1]).out && Iterates(orders[1], b.fields)
  {
    assert [a, b][..1] == [a];
    OrdersPrefix(orders, [a, b]);
    FirstSource(a, orders[..1]);
  }

  lemma TwoOrders(a: Source, b: Source, order: seq<Visit>) returns (orders: seq<seq<Visit>>)
    requires Iterates(order, b.fields)
    ensures Orders(orders, [a, b]) && orders[1] == order
  {
    var first := SomeOrder(a.fields);
    orders := [first, order];
  }

  lemma TwoInOrder(a: Source, b: Source, rank: map<string, int>)
    requires Covers(rank, [a, b]) ==> Rank(rank, a) <= Rank(rank, b)
    ensures MergeOrder([a, b], rank) == [a, b]
  {
    if Covers(rank, [a, b]) {
      var less := ByRank(rank);
      assert [a, b][1..] == [b] && [b][1..] == [];
      assert Sort([b], less) == Insert(b, Sort([], less), less) == [b];
      assert Sort([a, b], less) == Insert(a, [b], less) == [a] + [b];
    }
  }

  /** Of two sources, the one ranked higher, or listed later at equal rank, is sure to keep its leaf
      exactly when no subtables collide or the other one says the same. */
  lemma LaterSourceWinsExact(a: Source, b: Source, rank: map<string, int>, k: string)
    requires Covers(rank, [a, b]) && Rank(rank, a) <= Rank(rank, b) && k in b.fields && b.fields[k].Scalar?
    ensures MergeOrder([a, b], rank) == [a, b]
    ensures (forall orders | Orders(orders, [a, b]) :: Holds(FoldBy([a, b], orders), k, b.fields[k]))
       <==> NestedClean(a.fields, b.fields) || Holds(a.fields, k, b.fields[k])
  {
    TwoInOrder(a, b, rank);
    LeafWrittenExact(a.fields, b.fields, k);
    if NestedClean(a.fields, b.fields) || Holds(a.fields, k, b.fields[k]) {
      forall orders | Orders(orders, [a, b]) ensures Holds(FoldBy([a, b], orders), k, b.fields[k]) {
        TwoFold(a, b, orders);
      }
    } else {
      var order :| Iterates(order, b.fields) && !Holds(After(a.fields, b.fields, order).out, k, b.fields[k]);
      var orders := TwoOrders(a, b, order);
      TwoFold(a, b, orders);
    }
  }

  /** The higher rank can lose: with a collision below `t`, what becomes of `x` is decided by whether
      the iteration reaches it first. */
  lemma HighestRankCanLose() returns (lost: seq<seq<Visit>>, won: seq<seq<Visit>>)
    ensures var a, b := LOW, HIGH;
            && Covers(RANKED, [a, b]) && Rank(RANKED, a) < Rank(RANKED, b) && MergeOrder([a, b], RANKED) == [a, b]
            && Orders(lost, [a, b]) && Holds(FoldBy([a, b], lost), "x", Scalar("1"))
            && Orders(won, [a, b]) && Holds(FoldBy([a, b], won), "x", Scalar("2"))
  {
    TwoInOrder(LOW, HIGH, RANKED);
    assert LOW.fields["t"].fields["p"] != HIGH.fields["t"].fields["p"];
    lost, won := LoseAndWin(LOW, HIGH, "t", "x");
  }

  /** With colliding subtables at `n` the second source's leaf at `k` is kept or lost. */
  lemma LoseAndWin(a: Source, b: Source, n: string, k: string) returns (lost: seq<seq<Visit>>, won: seq<seq<Visit>>)
    requires NestedClash(a.fields, b.fields, n) && k != n && k in b.fields && b.fields[k].Scalar?
    ensures Orders(lost, [a, b]) && SameAt(FoldBy([a, b], lost), a.fields, k)
    ensures Orders(won, [a, b]) && Holds(FoldBy([a, b], won), k, b.fields[k])
  {
    var o := HideFrom(a.fields, b.fields, n, k);
    lost := TwoOrders(a, b, o);
    TwoFold(a, b, lost);
    o := VisitFirst(a.fields, b.fields, Visit(k, []));
    won := TwoOrders(a, b, o);
    TwoFold(a, b, won);
  }

  const LOW := Source("a", "user", map["t" := Table(map["p" := Scalar("1")]), "x" := Scalar("1")])
  const HIGH := Source("b", "project", map["t" := Table(map["p" := Scalar("2")]), "x" := Scalar("2")])
  const RANKED := map["user" := 0, "project" := 1]

  /* ---- equal ranks ---- */

  /** Two colliding tables give different results when merged one way and the other. */
  lemma {:induction false} CollisionShows(x: Fields, y: Fields) returns (o: seq<Visit>, p: seq<Visit>)
    requires !Compatible(Table(x), Table(y))
    ensures Iterates(o, y) && Iterates(p, x) && After(x, y, o).out != After(y, x, p).out
    decreases Table(x)
  {
    CompatibleFields(x, y);
    var k :| k in x && k in y && !Compatible(x[k], y[k]);
    CompatibleSymmetric(x[k], y[k]);
    var i, j := [], [];
    if NestedClash(x, y, k) {
      assert Table(x[k].fields) == Table(x).fields[k] && Table(y[k].fields) == y[k];
      i, j := CollisionShows(x[k].fields, y[k].fields);
    } else {
      i := InnerOrder(y, k);
      j := InnerOrder(x, k);
    }
    o := VisitFirst(x, y, Visit(k, i));
    p := VisitFirst(y, x, Visit(k, j));
    assert After(x, y, o).out[k] != After(y, x, p).out[k];
  }

  lemma {:induction false} CompatibleSymmetric(x: Value, y: Value)
    ensures Compatible(x, y) <==> Compatible(y, x)
  {
    if x.Table? && y.Table? {
      forall k | k in x.fields && k in y.fields ensures Compatible(x.fields[k], y.fields[k])
        <==> Compatible(y.fields[k], x.fields[k]) {
        CompatibleSymmetric(x.fields[k], y.fields[k]);
      }
    }
  }

  lemma {:induction false} OverlayCommutes(x: Value, y: Value)
    requires Compatible(x, y)
    ensures Overlay(x, y) == Overlay(y, x)
  {
    if x.Table? && y.Table? {
      var o, p := Overlay(x, y).fields, Overlay(y, x).fields;
      forall k | k in x.fields
        && k in y.fields
        ensures Overlay(x.fields[k], y.fields[k]) == Overlay(y.fields[k], x.fields[k])
      {
        OverlayCommutes(x.fields[k], y.fields[k]);
      }
      assert o.Keys == p.Keys;
      assert forall k | k in o :: o[k] == p[k];
    }
  }

  /** At equal rank the later source in the list wins, so listing two sources the other way round cannot
      show exactly when they do not collide. */
  lemma TiedPairExact(a: Source, b: Source, rank: map<string, int>)
    requires Covers(rank, [a, b]) && Rank(rank, a) == Rank(rank, b)
    ensures MergeOrder([a, b], rank) == [a, b] && MergeOrder([b, a], rank) == [b, a]
    ensures (forall o, p | Orders(o, [a, b]) && Orders(p, [b, a]) :: FoldBy([a, b], o) == FoldBy([b, a], p))
       <==> Compatible(Table(a.fields), Table(b.fields))
  {
    assert [b, a][0] == b && [b, a][1] == a && [a, b][0] == a && [a, b][1] == b;
    TwoInOrder(a, b, rank);
    TwoInOrder(b, a, rank);
    if Compatible(Table(a.fields), Table(b.fields)) {
      forall o, p | Orders(o, [a, b]) && Orders(p, [b, a]) ensures FoldBy([a, b], o) == FoldBy([b, a], p) {
        TwoAgree(a, b, o, p);
      }
    } else {
      var i, j := CollisionShows(a.fields, b.fields);
      var o := TwoOrders(a, b, i);
      var p := TwoOrders(b, a, j);
      TwoFold(a, b, o);
      TwoFold(b, a, p);
      assert Orders(o, [a, b]) && Orders(p, [b, a]) && FoldBy([a, b], o) != FoldBy([b, a], p);
    }
  }

  lemma TwoAgree(a: Source, b: Source, o: seq<seq<Visit>>, p: seq<seq<Visit>>)
    requires Compatible(Table(a.fields), Table(b.fields)) && Orders(o, [a, b]) && Orders(p, [b, a])
    ensures FoldBy([a, b], o) == FoldBy([b, a], p)
  {
    TwoFold(a, b, o);
    TwoFold(b, a, p);
    CompatibleSymmetric(Table(a.fields), Table(b.fields));
    CompatibleIsClean(a.fields, b.fields);
    CompatibleIsClean(b.fields, a.fields);
    MergeExact(a.fields, b.fields, o[1]);
    MergeExact(b.fields, a.fields, p[1]);
    OverlayCommutes(Table(a.fields), Table(b.fields));
  }

  /** At every key where two tied sources collide, the list order decides: unless it is hidden by a
      nested collision elsewhere, the later source's leaf is what is read. */
  lemma TiedLaterWins(a: Source, b: Source, rank: map<string, int>, k: string)
    requires Covers(rank, [a, b]) && Rank(rank, a) == Rank(rank, b)
    requires Clash(a.fields, b.fields, k) && a.fields[k].Scalar? && b.fields[k].Scalar?
    ensures (forall o | Orders(o, [a, b]) :: Holds(FoldBy([a, b], o), k, b.fields[k]))
              <==> NestedClean(a.fields, b.fields)
    ensures (forall o | Orders(o, [b, a]) :: Holds(FoldBy([b, a], o), k, a.fields[k]))
              <==> NestedClean(a.fields, b.fields)
  {
    assert [b, a][0] == b && [b, a][1] == a && [a, b][0] == a && [a, b][1] == b;
    LaterSourceWinsExact(a, b, rank, k);
    LaterSourceWinsExact(b, a, rank, k);
    CleanSymmetric(a.fields, b.fields);
  }

  lemma CleanSymmetric(x: Fields, y: Fields)
    ensures NestedClean(x, y) <==> NestedClean(y, x)
  {
    forall k | k in x && k in y ensures Compatible(x[k], y[k]) <==> Compatible(y[k], x[k]) {
      CompatibleSymmetric(x[k], y[k]);
    }
  }

  /* ---- any number of sources ---- */

  /** No two sources have colliding subtables under one key. */
  predicate NestedAgree(s: seq<Source>) {
    forall a, b | a in s && b in s :: NestedClean(a.fields, b.fields)
  }

  /** Sources of one rank agree. */
  predicate TiesAgree(s: seq<Source>, rank: map<string, int>) {
    forall a, b | a in s && b in s && Rank(rank, a) == Rank(rank, b) :: Compatible(Table(a.fields), Table(b.fields))
  }

  lemma {:induction false} NestedAgreeIsClean(s: seq<Source>) returns (orders: seq<seq<Visit>>)
    requires NestedAgree(s)
    ensures ChainClean(s) && Orders(orders, s)
  {
    orders := [];
    if s != [] {
      var p, last := s[..|s| - 1], s[|s| - 1];
      assert forall a | a in p :: a in s;
      orders := NestedAgreeIsClean(p);
      forall i | 0 <= i < |p| ensures NestedClean(p[i].fields, last.fields) {
        assert p[i] in s && last in s;
      }
      CleanStep(p, orders, last);
      assert s == p + [last];
      var order := SomeOrder(last.fields);
      orders := orders + [order];
    }
  }

  lemma CleanStep(p: seq<Source>, orders: seq<seq<Visit>>, last: Source)
    requires ChainClean(p) && Orders(orders, p) && forall i :: 0 <= i < |p| ==> NestedClean(p[i].fields, last.fields)
    ensures ChainClean(p + [last])
  {
    FoldStaysClean(p, orders, last.fields);
    FoldClean(p, orders);
    assert (p + [last])[..|p|] == p;
  }

  /** Without nested collisions every iteration gives the overlay of the sources by ascending rank. */
  lemma IterationNeverShows(s: seq<Source>, rank: map<string, int>, orders: seq<seq<Visit>>)
    requires NestedAgree(s) && Orders(orders, MergeOrder(s, rank))
    ensures Table(FoldBy(MergeOrder(s, rank), orders)) == OverlayAll(MergeOrder(s, rank))
  {
    var m := MergeOrder(s, rank);
    MergeOrderPermutes(s, rank);
    SameMembers(s, m);
    var some := NestedAgreeIsClean(m);
    FoldClean(m, orders);
  }

  lemma {:induction false} OverlayAssociates(x: Value, y: Value, z: Value)
    requires Compatible(y, z)
    ensures Overlay(Overlay(x, y), z) == Overlay(x, Overlay(y, z))
  {
    if x.Table? && y.Table? && z.Table? {
      var l, r := Overlay(Overlay(x, y), z).fields, Overlay(x, Overlay(y, z)).fields;
      assert l.Keys == r.Keys;
      forall k | k in l ensures l[k] == r[k] {
        if k in x.fields && k in y.fields && k in z.fields {
          OverlayAssociates(x.fields[k], y.fields[k], z.fields[k]);
        }
      }
    }
  }

  lemma SwapLast(x: Value, y: Value, z: Value)
    requires Compatible(y, z)
    ensures Overlay(Overlay(x, y), z) == Overlay(Overlay(x, z), y)
  {
    CompatibleSymmetric(y, z);
    OverlayAssociates(x, y, z);
    OverlayAssociates(x, z, y);
    OverlayCommutes(y, z);
  }

  /** A source that agrees with all later ones may as well come last. */
  lemma {:induction false} MoveToEnd(t: seq<Source>, i: nat)
    requires i < |t| && forall j | i < j < |t| :: Compatible(Table(t[i].fields), Table(t[j].fields))
    ensures OverlayAll(t) == Overlay(OverlayAll(Without(t, i)), Table(t[i].fields))
  {
    var n := |t| - 1;
    if i == n {
      assert Without(t, i) == t[..n];
    } else {
      MoveToEnd(t[..n], i);
      WithoutLast(t, i);
      SwapLast(OverlayAll(Without(t[..n], i)), Table(t[i].fields), Table(t[n].fields));
    }
  }

  lemma WithoutLast(t: seq<Source>, i: nat)
    requires i < |t| - 1
    ensures OverlayAll(Without(t, i)) == Overlay(OverlayAll(Without(t[..|t| - 1], i)), Table(t[|t| - 1].fields))
  {
    var all := Without(t, i);
    assert all[..|all| - 1] == Without(t[..|t| - 1], i) && all[|all| - 1] == t[|t| - 1];
  }

  function Without(t: seq<Source>, i: nat): seq<Source>
    requires i < |t|
  {
    t[..i] + t[i + 1..]
  }

  lemma WithoutKeeps(t: seq<Source>, i: nat)
    requires i < |t|
    ensures multiset(Without(t, i)) == multiset(t) - multiset{t[i]}
  {
    assert t == t[..i] + [t[i]] + t[i + 1..];
  }

  lemma WithoutSorted(t: seq<Source>, i: nat, less: (Source, Source) -> bool)
    requires i < |t| && SortedBy(t, less)
    ensures SortedBy(Without(t, i), less)
  {
    var u := Without(t, i);
    forall j, k | 0 <= j < k < |u| ensures !less(u[k], u[j]) {
      assert u[j] == t[if j < i then j else j + 1] && u[k] == t[if k < i then k else k + 1];
    }
  }

  /** Two orderings by rank of the same sources fold to the same when ties agree. */
  lemma {:induction false} TiesFold(s: seq<Source>, t: seq<Source>, rank: map<string, int>)
    requires multiset(s) == multiset(t) && SortedBy(s, ByRank(rank)) && SortedBy(t, ByRank(rank)) && TiesAgree(s, rank)
    ensures OverlayAll(s) == OverlayAll(t)
    decreases |s|
  {
    assert |multiset(s)| == |s| && |multiset(t)| == |t|;
    if s != [] {
      var n := |s| - 1;
      SameMembers(s, t);
      assert s[n] in t;
      var i :| 0 <= i < |t| && t[i] == s[n];
      TiedTail(s, t, rank, i);
      MoveToEnd(t, i);
      WithoutKeeps(t, i);
      WithoutKeeps(s, n);
      assert Without(s, n) == s[..n];
      WithoutSorted(t, i, ByRank(rank));
      WithoutSorted(s, n, ByRank(rank));
      PrefixAgrees(s, rank);
      TiesFold(s[..n], Without(t, i), rank);
    }
  }

  lemma PrefixAgrees(s: seq<Source>, rank: map<string, int>)
    requires s != [] && TiesAgree(s, rank)
    ensures TiesAgree(s[..|s| - 1], rank)
  {
    assert forall a | a in s[..|s| - 1] :: a in s;
  }

  lemma TiedTail(s: seq<Source>, t: seq<Source>, rank: map<string, int>, i: nat)
    requires s != [] && i < |t| && t[i] == s[|s| - 1] && (forall a :: a in s <==> a in t)
    requires SortedBy(s, ByRank(rank)) && SortedBy(t, ByRank(rank)) && TiesAgree(s, rank)
    ensures forall j | i < j < |t| :: Compatible(Table(t[i].fields), Table(t[j].fields))
  {
    forall j | i < j < |t| ensures Compatible(Table(t[i].fields), Table(t[j].fields)) {
      assert t[j] in s && t[i] in s;
      var l :| 0 <= l < |s| && s[l] == t[j];
      assert !ByRank(rank)(t[j], t[i]);
      assert l < |s| - 1 ==> !ByRank(rank)(s[|s| - 1], s[l]);
    }
  }

  /** Where no subtables collide and sources of one rank agree, neither the order of the list nor any
      iteration shows in the result. */
  lemma ListOrderNeverShows(s: seq<Source>, t: seq<Source>, rank: map<string, int>, o: seq<seq<Visit>>,
                            p: seq<seq<Visit>>)
    requires multiset(s) == multiset(t) && Covers(rank, s) && TiesAgree(s, rank) && NestedAgree(s)
    requires Orders(o, MergeOrder(s, rank)) && Orders(p, MergeOrder(t, rank))
    ensures FoldBy(MergeOrder(s, rank), o) == FoldBy(MergeOrder(t, rank), p)
  {
    PermutedHypotheses(s, t, rank);
    IterationNeverShows(s, rank, o);
    IterationNeverShows(t, rank, p);
    SortedFolds(s, t, rank);
  }

  lemma PermutedHypotheses(s: seq<Source>, t: seq<Source>, rank: map<string, int>)
    requires multiset(s) == multiset(t) && Covers(rank, s) && NestedAgree(s)
    ensures Covers(rank, t) && NestedAgree(t)
  {
    SameMembers(s, t);
    forall i | 0 <= i < |t| ensures t[i].scope in rank {
      assert t[i] in s;
    }
  }

  lemma SortedFolds(s: seq<Source>, t: seq<Source>, rank: map<string, int>)
    requires multiset(s) == multiset(t) && TiesAgree(s, rank) && Covers(rank, s) && Covers(rank, t)
    ensures OverlayAll(MergeOrder(s, rank)) == OverlayAll(MergeOrder(t, rank))
  {
    ByRankOrder(rank);
    SortSorted(s, ByRank(rank));
    SortSorted(t, ByRank(rank));
    SameMembers(s, MergeOrder(s, rank));
    assert TiesAgree(MergeOrder(s, rank), rank);
    TiesFold(MergeOrder(s, rank), MergeOrder(t, rank), rank);
  }
}
