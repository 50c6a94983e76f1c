/** Merging tables in place, one key after the other. Tables are iterated in arbitrary order and a
    collision inside a nested table ends the whole merge at once, so the order is part of the model:
    every statement about a result is about every order, or names the order that breaks it. */
module TableMerge {
  import opened Ordering
  import opened DeepMerge

  /** One visited key, with the visits of the nested merge below it. */
  datatype Visit = Visit(key: string, inner: seq<Visit>)

  /** Different keys of the table, each with a full iteration of the table below it. */
  ghost predicate Partial(order: seq<Visit>, src: Fields)
    decreases order, 1
  {
    && (forall i, j :: 0 <= i < j < |order| ==> order[i].key != order[j].key)
    && (forall i | 0 <= i < |order| :: VisitOk(order[i], src))
  }

  ghost predicate VisitOk(v: Visit, src: Fields)
    decreases v, 0
  {
    v.key in src && (src[v.key].Table? ==> Iterates(v.inner, src[v.key].fields))
  }

  predicate Visited(order: seq<Visit>, k: string) {
    exists i :: 0 <= i < |order| && order[i].key == k
  }

  /** A full iteration: every key once. */
  ghost predicate Iterates(order: seq<Visit>, src: Fields)
    decreases order, 2
  {
    Partial(order, src) && forall k | k in src :: Visited(order, k)
  }

  /** The destination so far, whether anything was overwritten by a different value, and whether a
      nested collision has ended the merge. */
  datatype Progress = Progress(out: Fields, ok: bool, stopped: bool)

  function StepVisit(p: Progress, src: Fields, v: Visit): Progress
    decreases v, 0
  {
    if v.key !in src then p
    else if v.key !in p.out then p.(out := p.out[v.key := src[v.key]])
    else if p.out[v.key].Table? && src[v.key].Table? then
      var child := After(p.out[v.key].fields, src[v.key].fields, v.inner);
      Progress(p.out[v.key := Table(child.out)], p.ok && child.ok, !child.ok)
    else if p.out[v.key] != src[v.key] then p.(out := p.out[v.key := src[v.key]], ok := false)
    else p
  }

  /** Where the merge of `src` into `dst` stands after these visits. */
  function After(dst: Fields, src: Fields, order: seq<Visit>): Progress
    decreases order, 1
  {
    if order == [] then Progress(dst, true, false)
    else
      var p := After(dst, src, order[..|order| - 1]);
      if p.stopped then p else StepVisit(p, src, order[|order| - 1])
  }

  lemma PartialPrefix(order: seq<Visit>, src: Fields)
    requires order != [] && Partial(order, src)
    ensures Partial(order[..|order| - 1], src) && VisitOk(order[|order| - 1], src)
    ensures !Visited(order[..|order| - 1], order[|order| - 1].key)
    ensures forall k :: Visited(order, k) <==> Visited(order[..|order| - 1], k) || k == order[|order| - 1].key
  {
    var p, v := order[..|order| - 1], order[|order| - 1];
    forall k ensures Visited(order, k) <==> Visited(p, k) || k == v.key {
      if i :| 0 <= i < |order| && order[i].key == k {
        if i < |p| {
          assert p[i].key == k;
        }
      }
      if i :| 0 <= i < |p| && p[i].key == k {
        assert order[i].key == k;
      }
      if k == v.key {
        assert order[|order| - 1].key == k;
      }
    }
  }

  /* ---- what a merge does to each key ---- */

  /** A value of `src` that would be written over a different one without descending. */
  predicate Clash(dst: Fields, src: Fields, k: string) {
    k in dst && k in src && !Compatible(dst[k], src[k])
  }

  /** Two subtables that collide somewhere below. */
  predicate NestedClash(dst: Fields, src: Fields, k: string) {
    Clash(dst, src, k) && dst[k].Table? && src[k].Table?
  }

  /** Keys not visited are untouched. */
  lemma {:induction false} UnvisitedStay(dst: Fields, src: Fields, order: seq<Visit>, k: string)
    requires Partial(order, src) && !Visited(order, k)
    ensures var p := After(dst, src, order); (k in p.out <==> k in dst) && (k in dst ==> p.out[k] == dst[k])
  {
    if order != [] {
      PartialPrefix(order, src);
      UnvisitedStay(dst, src, order[..|order| - 1], k);
    }
  }

  /** The table itself after a merge of compatible subtables, or of anything that is no subtable. */
  ghost predicate Settled(dst: Fields, src: Fields, order: seq<Visit>) {
    var p := After(dst, src, order);
    && (p.ok <==> forall k | Visited(order, k) :: !Clash(dst, src, k))
    && (p.stopped ==> exists k :: Visited(order, k) && NestedClash(dst, src, k))
    && (!p.stopped ==> forall k | Visited(order, k) :: k in p.out && k in src && !NestedClash(dst, src, k)
                                                     && p.out[k] == At(dst, src, k))
  }

  /** `ok` says exactly whether a visited key collided; only a nested collision ends the merge; and a
      merge that was not ended has written the overlay at every visited key. */
  lemma {:induction false} AfterSettled(dst: Fields, src: Fields, order: seq<Visit>)
    requires Partial(order, src)
    ensures Settled(dst, src, order)
    decreases order, 1
  {
    if order != [] {
      var q, v := order[..|order| - 1], order[|order| - 1];
      PartialPrefix(order, src);
      AfterSettled(dst, src, q);
      UnvisitedStay(dst, src, q, v.key);
      var p := After(dst, src, q);
      if p.stopped {
        var k :| Visited(q, k) && NestedClash(dst, src, k);
        assert Visited(order, k);
      } else {
        VisitSettled(dst, src, p, v);
        StepOthers(p, src, v);
      }
    }
  }

  /** Visiting a key for the first time. */
  lemma {:induction false} VisitSettled(dst: Fields, src: Fields, p: Progress, v: Visit)
    requires VisitOk(v, src) && (v.key in p.out <==> v.key in dst) && (v.key in dst ==> p.out[v.key] == dst[v.key])
    ensures var t := StepVisit(p, src, v);
            && (t.ok <==> p.ok && !Clash(dst, src, v.key))
            && v.key in t.out
            && (t.stopped ==> NestedClash(dst, src, v.key) || p.stopped)
            && (NestedClash(dst, src, v.key) ==> t.stopped)
            && (!NestedClash(dst, src, v.key) ==> t.out[v.key] == At(dst, src, v.key))
    decreases v, 0
  {
    if v.key in dst && dst[v.key].Table? && src[v.key].Table? {
      MergeExact(dst[v.key].fields, src[v.key].fields, v.inner);
    }
  }

  lemma StepOthers(p: Progress, src: Fields, v: Visit)
    ensures forall k | k != v.key :: (k in StepVisit(p, src, v).out <==> k in p.out)
                                  && (k in p.out ==> StepVisit(p, src, v).out[k] == p.out[k])
  {
  }

  /** A full merge: a conflict is reported exactly when some leaf differs, in whatever order; without a
      collision below the top level the result is the overlay. */
  lemma {:induction false} MergeExact(dst: Fields, src: Fields, order: seq<Visit>)
    requires Iterates(order, src)
    ensures After(dst, src, order).ok <==> Compatible(Table(dst), Table(src))
    ensures After(dst, src, order).stopped <==> !NestedClean(dst, src)
    ensures NestedClean(dst, src) ==> Table(After(dst, src, order).out) == Overlay(Table(dst), Table(src))
    decreases order, 2
  {
    var p := After(dst, src, order);
    AfterSettled(dst, src, order);
    CompatibleFields(dst, src);
    if k :| k in dst && k in src && dst[k].Table? && src[k].Table? && !Compatible(dst[k], src[k]) {
      assert Visited(order, k) && NestedClash(dst, src, k);
    }
    if NestedClean(dst, src) {
      forall k | k !in src ensures (k in p.out <==> k in dst) && (k in dst ==> p.out[k] == dst[k]) {
        NotVisited(order, src, k);
        UnvisitedStay(dst, src, order, k);
      }
      OverlayFields(dst, src, p.out);
    }
  }

  lemma NotVisited(order: seq<Visit>, src: Fields, k: string)
    requires Partial(order, src) && k !in src
    ensures !Visited(order, k)
  {
  }

  lemma CompatibleFields(x: Fields, y: Fields)
    ensures Compatible(Table(x), Table(y)) <==> forall k | k in x && k in y :: Compatible(x[k], y[k])
  {
  }

  lemma OverlayFields(x: Fields, y: Fields, z: Fields)
    requires forall k | k in y :: k in z && z[k] == At(x, y, k)
    requires forall k | k !in y :: (k in z <==> k in x) && (k in x ==> z[k] == x[k])
    ensures Table(z) == Overlay(Table(x), Table(y))
  {
    var o := Overlay(Table(x), Table(y)).fields;
    assert z.Keys == o.Keys;
    assert forall k | k in z :: z[k] == o[k];
  }

  /* ---- the loop ---- */

  lemma {:induction false} SomeVisits(src: Fields, ks: set<string>) returns (order: seq<Visit>)
    requires ks <= src.Keys
    ensures Partial(order, src) && forall k :: Visited(order, k) <==> k in ks
    decreases Table(src), 0, |ks|
  {
    order := [];
    if ks != {} {
      var k :| k in ks;
      var rest := SomeVisits(src, ks - {k});
      var inner := [];
      if src[k].Table? {
        assert Table(src[k].fields) == Table(src).fields[k];
        inner := SomeOrder(src[k].fields);
      }
      order := AddVisit(src, rest, Visit(k, inner));
    }
  }

  lemma {:induction false} SomeOrder(src: Fields) returns (order: seq<Visit>)
    ensures Iterates(order, src)
    decreases Table(src), 1
  {
    order := SomeVisits(src, src.Keys);
  }

  lemma AddVisit(src: Fields, order: seq<Visit>, v: Visit) returns (more: seq<Visit>)
    requires Partial(order, src) && VisitOk(v, src) && !Visited(order, v.key)
    ensures more == order + [v] && Partial(more, src)
    ensures forall k :: Visited(more, k) <==> Visited(order, k) || k == v.key
  {
    more := order + [v];
    forall i, j | 0 <= i < j < |more| ensures more[i].key != more[j].key {
      assert j == |order| ==> more[i] == order[i] && Visited(order, order[i].key);
    }
    assert more[..|more| - 1] == order;
    PartialPrefix(more, src);
  }

  /** What is visited after the merge has been ended does not matter. */
  lemma {:induction false} StoppedStays(dst: Fields, src: Fields, order: seq<Visit>, more: seq<Visit>)
    requires After(dst, src, order).stopped
    ensures After(dst, src, order + more) == After(dst, src, order)
  {
    if more == [] {
      assert order + more == order;
    } else {
      assert (order + more)[..|order + more| - 1] == order + more[..|more| - 1];
      StoppedStays(dst, src, order, more[..|more| - 1]);
    }
  }

  /** Merges `src` into `dst` key by key, in whatever order `range` yields. `order` records it. */
  method DeepMergeInto(dst: Fields, src: Fields) returns (out: Fields, ok: bool, ghost order: seq<Visit>)
    ensures Iterates(order, src)
    ensures out == After(dst, src, order).out && ok == After(dst, src, order).ok
    ensures ok <==> Compatible(Table(dst), Table(src))
    ensures NestedClean(dst, src) ==> Table(out) == Overlay(Table(dst), Table(src))
    decreases Table(src)
  {
    out, ok, order := dst, true, [];
    var todo := src.Keys;
    while todo != {}
      invariant todo <= src.Keys
      invariant Partial(order, src) && forall k :: Visited(order, k) <==> k in src && k !in todo
      invariant After(dst, src, order) == Progress(out, ok, false)
      decreases todo
    {
      var k :| k in todo;
      todo := todo - {k};
      ghost var inner;
      if k in out && out[k].Table? && src[k].Table? {
        var child, childOk;
        child, childOk, inner := DeepMergeInto(out[k].fields, src[k].fields);
        order := TakeVisit(dst, src, order, Progress(out, ok, false), Visit(k, inner));
        out := out[k := Table(child)];
        if !childOk {
          ghost var rest := SomeVisits(src, todo);
          StoppedStays(dst, src, order, rest);
          order := JoinVisits(src, order, rest);
          MergeExact(dst, src, order);
          return out, false, order;
        }
      } else {
        inner := InnerOrder(src, k);
        order := TakeVisit(dst, src, order, Progress(out, ok, false), Visit(k, inner));
        if k !in out {
          out := out[k := src[k]];
        } else if out[k] != src[k] {
          out := out[k := src[k]];
          ok := false;
        }
      }
    }
    MergeExact(dst, src, order);
  }

  lemma InnerOrder(src: Fields, k: string) returns (inner: seq<Visit>)
    requires k in src
    ensures VisitOk(Visit(k, inner), src)
  {
    inner := [];
    if src[k].Table? {
      inner := SomeOrder(src[k].fields);
    }
  }

  /** One more visit, one more step. */
  lemma TakeVisit(dst: Fields, src: Fields, order: seq<Visit>, p: Progress, v: Visit) returns (more: seq<Visit>)
    requires Partial(order, src) && VisitOk(v, src) && !Visited(order, v.key)
    requires After(dst, src, order) == p && !p.stopped
    ensures Partial(more, src) && forall k :: Visited(more, k) <==> Visited(order, k) || k == v.key
    ensures more == order + [v] && After(dst, src, more) == StepVisit(p, src, v)
  {
    more := AddVisit(src, order, v);
    assert more[..|more| - 1] == order;
  }

  lemma JoinVisits(src: Fields, a: seq<Visit>, b: seq<Visit>) returns (order: seq<Visit>)
    requires Partial(a, src) && Partial(b, src) && forall k | k in src :: Visited(a, k) <==> !Visited(b, k)
    ensures order == a + b && Iterates(order, src)
  {
    order := a + b;
    forall i | 0 <= i < |order| ensures VisitOk(order[i], src) {
      if i >= |a| {
        assert order[i] == b[i - |a|];
      }
    }
    forall i, j | 0 <= i < j < |order| ensures order[i].key != order[j].key {
      if i < |a| <= j {
        assert Visited(a, order[i].key) && b[j - |a|].key == order[j].key && Visited(b, order[j].key);
        assert VisitOk(order[i], src);
      } else if |a| <= i {
        assert order[i] == b[i - |a|] && order[j] == b[j - |a|];
      }
    }
    forall k | k in src ensures Visited(order, k) {
      if Visited(a, k) {
        var i :| 0 <= i < |a| && a[i].key == k;
        assert order[i].key == k;
      } else {
        var i :| 0 <= i < |b| && b[i].key == k;
        assert order[|a| + i].key == k;
      }
    }
  }

  /* ---- all sources ---- */

  /** One iteration for every source merged. */
  ghost predicate Orders(orders: seq<seq<Visit>>, s: seq<Source>) {
    |orders| == |s| && forall i :: 0 <= i < |s| ==> Iterates(orders[i], s[i].fields)
  }

  lemma {:induction false} SomeOrders(s: seq<Source>) returns (orders: seq<seq<Visit>>)
    ensures Orders(orders, s)
  {
    orders := [];
    if s != [] {
      orders := SomeOrders(s[..|s| - 1]);
      var last := SomeOrder(s[|s| - 1].fields);
      orders := orders + [last];
    }
  }

  /** What the sources are merged to when their tables are iterated like this. */
  function FoldBy(s: seq<Source>, orders: seq<seq<Visit>>): Fields
    requires |orders| == |s|
  {
    if s == [] then map[]
    else After(FoldBy(s[..|s| - 1], orders[..|s| - 1]), s[|s| - 1].fields, orders[|s| - 1]).out
  }

  lemma OrdersPrefix(orders: seq<seq<Visit>>, s: seq<Source>)
    requires s != [] && Orders(orders, s)
    ensures Orders(orders[..|s| - 1], s[..|s| - 1])
  {
  }

  /** Without collisions below the top level the result is the overlay of the sources, in every order. */
  lemma {:induction false} FoldClean(s: seq<Source>, orders: seq<seq<Visit>>)
    requires Orders(orders, s) && ChainClean(s)
    ensures Table(FoldBy(s, orders)) == OverlayAll(s)
  {
    if s != [] {
      var n := |s| - 1;
      OrdersPrefix(orders, s);
      FoldClean(s[..n], orders[..n]);
      MergeExact(FoldBy(s[..n], orders[..n]), s[n].fields, orders[n]);
    }
  }

  lemma FoldStep(s: seq<Source>, i: nat, orders: seq<seq<Visit>>, order: seq<Visit>)
    requires i < |s| && Orders(orders, s[..i]) && Iterates(order, s[i].fields)
    ensures Orders(orders + [order], s[..i + 1])
    ensures FoldBy(s[..i + 1], orders + [order]) == After(FoldBy(s[..i], orders), s[i].fields, order).out
  {
    assert s[..i + 1][..i] == s[..i];
    assert (orders + [order])[..i] == orders;
  }

  /** While the merged sources agree, the next one collides with what has been merged exactly when it
      disagrees with one of them. */
  lemma NextAgrees(s: seq<Source>, i: nat, orders: seq<seq<Visit>>)
    requires i < |s| && Orders(orders, s[..i]) && PairwiseCompatible(s[..i])
    ensures Compatible(Table(FoldBy(s[..i], orders)), Table(s[i].fields)) <==> PairwiseCompatible(s[..i + 1])
  {
    StepOfFold(s, i);
    FoldClean(s[..i], orders);
  }

  lemma FoldGivesJoin(s: seq<Source>, t: seq<Source>, orders: seq<seq<Visit>>)
    requires Orders(orders, t) && multiset(s) == multiset(t) && PairwiseCompatible(t)
    ensures IsJoin(Table(FoldBy(t, orders)), s)
  {
    FoldIsJoin(t);
    FoldClean(t, orders);
    JoinOfPermutation(Table(FoldBy(t, orders)), t, s);
  }

  /* ---- what is left of the sources ---- */

  /** The destination before the first source is merged and after each. */
  function Trace(s: seq<Source>, orders: seq<seq<Visit>>): (t: seq<Fields>)
    requires |orders| == |s|
    ensures |t| == |s| + 1 && t[|s|] == FoldBy(s, orders)
  {
    if s == [] then [map[]] else Trace(s[..|s| - 1], orders[..|s| - 1]) + [FoldBy(s, orders)]
  }

  lemma {:induction false} TracePrefix(s: seq<Source>, orders: seq<seq<Visit>>, i: nat)
    requires |orders| == |s| && i <= |s|
    ensures Trace(s, orders)[..i + 1] == Trace(s[..i], orders[..i])
    ensures Trace(s, orders)[i] == FoldBy(s[..i], orders[..i])
  {
    var n := |s| - 1;
    if i == |s| {
      assert s[..i] == s && orders[..i] == orders;
    } else {
      TracePrefix(s[..n], orders[..n], i);
      assert s[..n][..i] == s[..i] && orders[..n][..i] == orders[..i];
    }
  }

  /** The subtables at a key, for as long as there is one. */
  function TablesAt(rs: seq<Fields>, k: string): seq<Fields> {
    if rs == [] || k !in rs[0] || rs[0][k].Scalar? then [] else [rs[0][k].fields] + TablesAt(rs[1..], k)
  }

  /** A destination has no tables of its own but the outermost: where it had none it adopts the source's,
      and what is merged there afterwards is written into that very table, until the destination lets go
      of it for a leaf. `m` is a source's table, `rs` what was at its place in the destination when it was
      merged and after each merge since; the result is what the source's table holds in the end. This is
      stated on values here and derived from references in `TableMemory`. */
  function Seen(m: Fields, rs: seq<Fields>): Fields
    decreases Table(m), 0
  {
    map k | k in m :: SeenAt(m[k], rs, k)
  }

  function SeenAt(v: Value, rs: seq<Fields>, k: string): Value
    decreases v, 1
  {
    if v.Scalar? || rs == [] then v
    else if k in rs[0] && rs[0][k].Table? then
      assert Table(v.fields) == v;
      Table(Seen(v.fields, TablesAt(rs, k)))
    else LastTable(v, TablesAt(rs[1..], k))
  }

  function LastTable(v: Value, ts: seq<Fields>): Value {
    if ts == [] then v else Table(ts[|ts| - 1])
  }

  /** How many sources are merged: all, or without a complete rank those up to the first that collides
      with an earlier one. */
  function Reached(s: seq<Source>, complete: bool): (n: nat)
    ensures n <= |s|
  {
    if s == [] then 0
    else if complete || PairwiseCompatible(s[..|s| - 1]) then |s|
    else Reached(s[..|s| - 1], complete)
  }

  /** Every merged source as the merges since have left it. */
  function LeftBy(s: seq<Source>, trace: seq<Fields>): (r: seq<Source>)
    ensures |r| == |s|
  {
    seq(|s|, i requires 0 <= i < |s| =>
      if i + 1 < |trace| then s[i].(fields := Seen(s[i].fields, trace[i..])) else s[i])
  }

  function Rewritten(s: seq<Source>, orders: seq<seq<Visit>>, complete: bool): (r: seq<Source>)
    requires |orders| == |s|
    ensures |r| == |s|
  {
    LeftBy(s, Trace(s, orders)[..Reached(s, complete) + 1])
  }

  lemma {:induction false} ReachedAt(s: seq<Source>, i: nat)
    requires i < |s| && PairwiseCompatible(s[..i]) && !PairwiseCompatible(s[..i + 1])
    ensures Reached(s, false) == i + 1
  {
    var n := |s| - 1;
    if i < n {
      SamePrefix(s, n, i);
      SamePrefix(s, n, i + 1);
      PrefixDisagrees(s[..n], i + 1);
      ReachedAt(s[..n], i);
    }
  }

  lemma SamePrefix(s: seq<Source>, n: nat, i: nat)
    requires i <= n <= |s|
    ensures s[..n][..i] == s[..i]
  {
  }

  lemma ReachedAll(s: seq<Source>, complete: bool)
    requires complete || PairwiseCompatible(s)
    ensures Reached(s, complete) == |s|
  {
    if s != [] && !complete {
      PrefixCompatible(s, |s| - 1);
    }
  }

  lemma PrefixCompatible(s: seq<Source>, i: nat)
    requires i <= |s| && PairwiseCompatible(s)
    ensures PairwiseCompatible(s[..i])
  {
    if !PairwiseCompatible(s[..i]) {
      PrefixDisagrees(s, i);
    }
  }

  /** Merges every source. Without a rank for every scope a conflict is reported exactly when two
      sources disagree. Otherwise the result is that of merging by ascending rank, for the iterations
      that happened; sources that agree give their join. `left` are the sources in merge order as the
      merge leaves them, refused or not. */
  method DeepMergeAll(distinct: seq<Source>, rank: map<string, int>)
    returns (r: Option<Fields>, left: seq<Source>, ghost orders: seq<seq<Visit>>)
    ensures r.None? <==> !Covers(rank, distinct) && !PairwiseCompatible(distinct)
    ensures Orders(orders, MergeOrder(distinct, rank))
    ensures r.Some? ==> r.value == FoldBy(MergeOrder(distinct, rank), orders)
    ensures left == Rewritten(MergeOrder(distinct, rank), orders, Covers(rank, distinct))
    ensures PairwiseCompatible(distinct) ==> r.Some? && IsJoin(Table(r.value), distinct)
  {
    var ordered := distinct;
    var complete := ScopeRankCoversAll(rank, distinct);
    if complete {
      ordered := Sort(distinct, ByRank(rank));
    }
    MergeOrderPermutes(distinct, rank);
    r, left, orders := MergeInOrder(ordered, complete);
    if PairwiseCompatible(distinct) {
      FoldGivesJoin(distinct, ordered, orders);
    }
  }

  /** The loop; a conflict only counts without a complete rank. */
  method MergeInOrder(ordered: seq<Source>, complete: bool)
    returns (r: Option<Fields>, left: seq<Source>, ghost orders: seq<seq<Visit>>)
    ensures r.None? <==> !complete && !PairwiseCompatible(ordered)
    ensures Orders(orders, ordered) && left == Rewritten(ordered, orders, complete)
    ensures r.Some? ==> r.value == FoldBy(ordered, orders)
  {
    var trace: seq<Fields> := [map[]];
    orders := [];
    for i := 0 to |ordered|
      invariant Orders(orders, ordered[..i]) && trace == Trace(ordered[..i], orders)
      invariant !complete ==> PairwiseCompatible(ordered[..i])
    {
      if !complete {
        NextAgrees(ordered, i, orders);
      }
      ghost var order;
      var out, ok;
      out, ok, order := DeepMergeInto(trace[i], ordered[i].fields);
      StepTaken(ordered, i, orders, order, trace, out);
      trace, orders := trace + [out], orders + [order];
      if !ok && !complete {
        orders := RefusedHere(ordered, i, orders, trace);
        return None, LeftBy(ordered, trace), orders;
      }
    }
    assert ordered[..|ordered|] == ordered;
    ReachedAll(ordered, complete);
    assert Trace(ordered, orders)[..|ordered| + 1] == trace;
    return Some(trace[|ordered|]), LeftBy(ordered, trace), orders;
  }

  lemma StepTaken(s: seq<Source>, i: nat, orders: seq<seq<Visit>>, order: seq<Visit>, trace: seq<Fields>, out: Fields)
    requires i < |s| && Orders(orders, s[..i]) && Iterates(order, s[i].fields) && trace == Trace(s[..i], orders)
    requires out == After(trace[i], s[i].fields, order).out
    ensures Orders(orders + [order], s[..i + 1]) && trace + [out] == Trace(s[..i + 1], orders + [order])
  {
    FoldStep(s, i, orders, order);
    TraceSnoc(s, i, orders, order);
  }

  lemma RefusedHere(s: seq<Source>, i: nat, orders: seq<seq<Visit>>, trace: seq<Fields>) returns (all: seq<seq<Visit>>)
    requires i < |s| && PairwiseCompatible(s[..i]) && !PairwiseCompatible(s[..i + 1])
    requires Orders(orders, s[..i + 1]) && trace == Trace(s[..i + 1], orders)
    ensures !PairwiseCompatible(s) && Orders(all, s) && LeftBy(s, trace) == Rewritten(s, all, false)
  {
    PrefixDisagrees(s, i + 1);
    ReachedAt(s, i);
    all := Padded(s, i + 1, orders);
  }

  lemma TraceSnoc(s: seq<Source>, i: nat, orders: seq<seq<Visit>>, order: seq<Visit>)
    requires i < |s| && |orders| == i
    ensures Trace(s[..i + 1], orders + [order]) == Trace(s[..i], orders) + [FoldBy(s[..i + 1], orders + [order])]
  {
    assert s[..i + 1][..i] == s[..i];
    assert (orders + [order])[..i] == orders;
  }

  /** Sources never reached are never iterated. */
  lemma Padded(s: seq<Source>, i: nat, orders: seq<seq<Visit>>) returns (all: seq<seq<Visit>>)
    requires i <= |s| && Orders(orders, s[..i])
    ensures Orders(all, s) && all[..i] == orders && Trace(s, all)[..i + 1] == Trace(s[..i], orders)
  {
    var rest := SomeOrders(s[i..]);
    all := orders + rest;
    forall j | 0 <= j < |s| ensures Iterates(all[j], s[j].fields) {
      if j >= i {
        assert s[i..][j - i] == s[j];
      }
    }
    TracePrefix(s, all, i);
  }

  lemma PrefixDisagrees(s: seq<Source>, i: nat)
    requires i <= |s| && !PairwiseCompatible(s[..i])
    ensures !PairwiseCompatible(s)
  {
    var p := s[..i];
    var j, k :| 0 <= j < k < |p| && !Compatible(Table(p[j].fields), Table(p[k].fields));
    assert p[j] == s[j] && p[k] == s[k];
  }

  method ScopeRankCoversAll(rank: map<string, int>, distinct: seq<Source>) returns (all: bool)
    ensures all == Covers(rank, distinct)
  {
    for i := 0 to |distinct|
      invariant Covers(rank, distinct[..i])
    {
      if distinct[i].scope !in rank {
        return false;
      }
      assert forall j | 0 <= j < i :: distinct[..i][j] == distinct[j];
    }
    assert distinct[..|distinct|] == distinct;
    return true;
  }
}
