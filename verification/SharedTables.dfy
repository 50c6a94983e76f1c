/** What a deep merge leaves of the sources themselves. The destination adopts their subtables, so later
    merges are written into them; how much of that depends on the iteration is decided here exactly, for one
    merge, for a refused merge of any number of sources, and for a fold by rank up to its last step. */
module SharedTables {
  import opened DeepMerge
  import opened TableMerge
  import opened MergeWinners

  /* ---- one key of one merge ---- */

  /** The merge got to the key and did there what its iteration of the subtable says. */
  ghost predicate Wrote(dst: Fields, src: Fields, k: string, inner: seq<Visit>, out: Fields) {
    && VisitOk(Visit(k, inner), src)
    && if k in dst && dst[k].Table? && src[k].Table?
       then Holds(out, k, Table(After(dst[k].fields, src[k].fields, inner).out))
       else Holds(out, k, src[k])
  }

  /** Every key is as it was, or has been merged by one visit. */
  lemma {:induction false} AfterAt(dst: Fields, src: Fields, order: seq<Visit>, k: string) returns (inner: seq<Visit>)
    requires Partial(order, src)
    ensures SameAt(After(dst, src, order).out, dst, k) || Wrote(dst, src, k, inner, After(dst, src, order).out)
  {
    inner := [];
    if order != [] {
      var q, v := order[..|order| - 1], order[|order| - 1];
      PartialPrefix(order, src);
      inner := AfterAt(dst, src, q, k);
      if v.key == k {
        UnvisitedStay(dst, src, q, k);
        inner := v.inner;
      } else {
        StepOthers(After(dst, src, q), src, v);
      }
    }
  }

  lemma TablesOfTwo(a: Fields, b: Fields, k: string)
    ensures TablesAt([b], k) == if k in b && b[k].Table? then [b[k].fields] else []
    ensures TablesAt([a, b], k) == if k in a && a[k].Table? then [a[k].fields] + TablesAt([b], k) else []
  {
    var none: seq<Fields> := [];
    assert [a, b][1..] == [b] && [b][1..] == none;
  }

  /** The source that was merged last is as it was read. */
  lemma {:induction false} LastUntouched(r: Fields, m: Fields, order: seq<Visit>)
    requires Partial(order, m)
    ensures Seen(m, [r, After(r, m, order).out]) == m
    decreases Table(m), 0
  {
    var out := After(r, m, order).out;
    forall k | k in m ensures SeenAt(m[k], [r, out], k) == m[k] {
      if m[k].Table? {
        LastUntouchedAt(r, m, order, k);
      }
    }
  }

  lemma {:induction false} LastUntouchedAt(r: Fields, m: Fields, order: seq<Visit>, k: string)
    requires Partial(order, m) && k in m && m[k].Table?
    ensures SeenAt(m[k], [r, After(r, m, order).out], k) == m[k]
    decreases m[k], 1
  {
    var out := After(r, m, order).out;
    var inner := AfterAt(r, m, order, k);
    TablesOfTwo(r, out, k);
    assert Table(m[k].fields) == m[k] && [r, out][1..] == [out];
    if k in r && r[k].Table? {
      assert TablesAt([r, out], k) == [r[k].fields, out[k].fields];
      if SameAt(out, r, k) {
        LastUntouched(r[k].fields, m[k].fields, []);
        assert After(r[k].fields, m[k].fields, []).out == out[k].fields;
      } else {
        assert VisitOk(Visit(k, inner), m) && Iterates(inner, m[k].fields);
        LastUntouched(r[k].fields, m[k].fields, inner);
      }
    }
  }

  /* ---- what the first source shows ---- */

  /** A subtable that the destination shares: what is found there, or was when it let go. */
  function Live(v: Value, out: Fields, k: string): Value {
    if k in out && out[k].Table? then out[k] else v
  }

  /** The first source after a second one has been merged to `out`. */
  function FirstAfter(first: Fields, out: Fields): Fields {
    map k | k in first :: if first[k].Table? then Live(first[k], out, k) else first[k]
  }

  lemma FirstIsSeen(first: Fields, out: Fields)
    ensures Seen(first, [map[], first, out]) == FirstAfter(first, out)
  {
    var rs := [map[], first, out];
    forall k | k in first ensures SeenAt(first[k], rs, k) == FirstAfter(first, out)[k] {
      TablesOfTwo(first, out, k);
      assert rs[1..] == [first, out];
    }
  }

  /** No subtables collide; or only one pair does, every other pair adds nothing, and the merge inside the
      pair is steady. Keys that hold no two subtables do not matter. */
  ghost predicate SharedSteady(x: Fields, y: Fields) {
    || NestedClean(x, y)
    || exists n | BothTables(x, y, n) :: NothingBeside(x, y, n) && Steady(x[n], y[n])
  }

  /** Every other pair of subtables adds nothing. */
  ghost predicate NothingBeside(x: Fields, y: Fields, n: string) {
    forall k | BothTables(x, y, k) && k != n :: NoOp(x, y, k)
  }

  predicate BothTables(x: Fields, y: Fields, k: string) {
    k in x && k in y && x[k].Table? && y[k].Table?
  }

  /** Without a collision elsewhere the merge always gets to `n`. */
  lemma {:induction false} GetsTo(dst: Fields, src: Fields, order: seq<Visit>, n: string) returns (inner: seq<Visit>)
    requires Partial(order, src) && Visited(order, n) && BothTables(dst, src, n)
    requires forall k | k != n :: !NestedClash(dst, src, k)
    ensures VisitOk(Visit(n, inner), src)
    ensures Holds(After(dst, src, order).out, n, Table(After(dst[n].fields, src[n].fields, inner).out))
  {
    var q, v := order[..|order| - 1], order[|order| - 1];
    PartialPrefix(order, src);
    AfterSettled(dst, src, q);
    if v.key == n {
      UnvisitedStay(dst, src, q, n);
      inner := v.inner;
    } else {
      inner := GetsTo(dst, src, q, n);
      StepOthers(After(dst, src, q), src, v);
    }
  }

  /** Where the second source adds nothing the first one's subtable stays. */
  lemma LiveOfNoOp(dst: Fields, src: Fields, order: seq<Visit>, k: string)
    requires Partial(order, src) && k in dst && dst[k].Table? && (BothTables(dst, src, k) ==> NoOp(dst, src, k))
    ensures Live(dst[k], After(dst, src, order).out, k) == dst[k]
  {
    var out := After(dst, src, order).out;
    var inner := AfterAt(dst, src, order, k);
    if BothTables(dst, src, k) && !SameAt(out, dst, k) {
      NoOpCompatible(dst[k], src[k]);
      assert Table(dst[k].fields) == dst[k] && Table(src[k].fields) == src[k];
      CompatibleIsClean(dst[k].fields, src[k].fields);
      MergeExact(dst[k].fields, src[k].fields, inner);
    }
  }

  lemma SharedNeverShows(dst: Fields, src: Fields, o: seq<Visit>, p: seq<Visit>)
    requires SharedSteady(dst, src) && Iterates(o, src) && Iterates(p, src)
    ensures FirstAfter(dst, After(dst, src, o).out) == FirstAfter(dst, After(dst, src, p).out)
  {
    if NestedClean(dst, src) {
      MergeExact(dst, src, o);
      MergeExact(dst, src, p);
    } else {
      var n :| BothTables(dst, src, n) && NothingBeside(dst, src, n) && Steady(dst[n], src[n]);
      forall k | k in dst && dst[k].Table?
        ensures Live(dst[k], After(dst, src, o).out, k) == Live(dst[k], After(dst, src, p).out, k)
      {
        if k == n {
          OnePairSteady(dst, src, o, p, n);
        } else {
          LiveOfNoOp(dst, src, o, k);
          LiveOfNoOp(dst, src, p, k);
        }
      }
    }
  }

  lemma OnePairSteady(dst: Fields, src: Fields, o: seq<Visit>, p: seq<Visit>, n: string)
    requires Iterates(o, src) && Iterates(p, src) && BothTables(dst, src, n) && Steady(dst[n], src[n])
    requires NothingBeside(dst, src, n)
    ensures Live(dst[n], After(dst, src, o).out, n) == Live(dst[n], After(dst, src, p).out, n)
  {
    forall k | k != n ensures !NestedClash(dst, src, k) {
      if BothTables(dst, src, k) {
        NoOpCompatible(dst[k], src[k]);
      }
    }
    var i := GetsTo(dst, src, o, n);
    var j := GetsTo(dst, src, p, n);
    assert Table(dst[n].fields) == dst[n] && Table(src[n].fields) == src[n];
    SteadyNeverShows(dst[n].fields, src[n].fields, i, j);
  }

  lemma SharedShows(dst: Fields, src: Fields) returns (o: seq<Visit>, p: seq<Visit>, k: string)
    requires !SharedSteady(dst, src)
    ensures Iterates(o, src) && Iterates(p, src) && k in dst && dst[k].Table?
    ensures Live(dst[k], After(dst, src, o).out, k) != Live(dst[k], After(dst, src, p).out, k)
  {
    var n := SomeNestedClash(dst, src);
    if l :| BothTables(dst, src, l) && l != n && !NoOp(dst, src, l) {
      k := l;
      o := HideFrom(dst, src, n, k);
      p := ShowKey(dst, src, k);
      var inner := AfterAt(dst, src, p, k);
    } else {
      k := n;
      assert Table(dst[n].fields) == dst[n] && Table(src[n].fields) == src[n];
      var i, j := UnsteadyShows(dst[n].fields, src[n].fields);
      o := VisitFirst(dst, src, Visit(n, i));
      p := VisitFirst(dst, src, Visit(n, j));
    }
  }

  /** Merging a second source leaves the first the same in every iteration exactly when the merge is steady
      on the subtables they share. */
  lemma FirstSteadyExact(a: Fields, b: Fields)
    ensures FirstAlike(a, b) <==> SharedSteady(a, b)
  {
    if SharedSteady(a, b) {
      forall o, p | Iterates(o, b) && Iterates(p, b)
        ensures FirstAfter(a, After(a, b, o).out) == FirstAfter(a, After(a, b, p).out)
      {
        SharedNeverShows(a, b, o, p);
      }
    } else {
      var o, p, k := SharedShows(a, b);
      assert FirstAfter(a, After(a, b, o).out)[k] != FirstAfter(a, After(a, b, p).out)[k];
    }
  }

  ghost predicate FirstAlike(a: Fields, b: Fields) {
    forall o, p | Iterates(o, b) && Iterates(p, b) ::
      FirstAfter(a, After(a, b, o).out) == FirstAfter(a, After(a, b, p).out)
  }

  /** Nothing is added below a subtable of the first. */
  ghost predicate AddsNothing(a: Fields, b: Fields) {
    forall k | BothTables(a, b, k) :: NoOp(a, b, k)
  }

  /** It leaves the first as it was read, in every iteration, exactly when it adds nothing below the first
      one's subtables. */
  lemma FirstUntouchedExact(a: Fields, b: Fields)
    ensures (forall order | Iterates(order, b) :: FirstAfter(a, After(a, b, order).out) == a) <==> AddsNothing(a, b)
  {
    if AddsNothing(a, b) {
      forall order | Iterates(order, b) ensures FirstAfter(a, After(a, b, order).out) == a {
        forall k | k in a && a[k].Table? ensures Live(a[k], After(a, b, order).out, k) == a[k] {
          LiveOfNoOp(a, b, order, k);
        }
      }
    } else {
      var k :| BothTables(a, b, k) && !NoOp(a, b, k);
      var order := ShowKey(a, b, k);
      var inner := AfterAt(a, b, order, k);
      assert Iterates(order, b) && FirstAfter(a, After(a, b, order).out)[k] != a[k];
    }
  }

  /** Of two colliding subtables a refused merge rewrites the one it gets to first and leaves the other. */
  lemma RefusalRewritesOne(a: Fields, b: Fields, k: string, l: string) returns (order: seq<Visit>)
    requires NestedClash(a, b, k) && NestedClash(a, b, l) && k != l
    ensures Iterates(order, b) && !After(a, b, order).ok
    ensures var f := FirstAfter(a, After(a, b, order).out); !SameAt(f, a, k) && SameAt(f, a, l)
  {
    var inner := InnerOrder(b, k);
    order := VisitFirst(a, b, Visit(k, inner));
    MergeExact(a, b, order);
    MergeExact(a[k].fields, b[k].fields, inner);
    var c := ConflictChanges(a[k].fields, b[k].fields, inner);
    assert Table(a[k].fields) == a[k];
  }

  const LEFT: Fields := map["t" := Table(map["p" := Scalar("1")]), "u" := Table(map["q" := Scalar("1")])]
  const RIGHT: Fields := map["t" := Table(map["p" := Scalar("2")]), "u" := Table(map["q" := Scalar("2")])]

  /** Two sources with two colliding subtables: the iteration decides which of them the first one loses. */
  lemma RefusalDependsOnIteration()
    ensures !SharedSteady(LEFT, RIGHT) && !Compatible(Table(LEFT), Table(RIGHT))
  {
    assert LEFT["t"].fields["p"] != RIGHT["t"].fields["p"] && LEFT["u"].fields["q"] != RIGHT["u"].fields["q"];
    assert NestedClash(LEFT, RIGHT, "t") && NestedClash(LEFT, RIGHT, "u");
    CompatibleFields(LEFT, RIGHT);
    var o := RefusalRewritesOne(LEFT, RIGHT, "t", "u");
    var p := RefusalRewritesOne(LEFT, RIGHT, "u", "t");
    if SharedSteady(LEFT, RIGHT) {
      SharedNeverShows(LEFT, RIGHT, o, p);
    }
  }

  /* ---- any number of sources ---- */

  lemma {:induction false} TablesAtAppend(ts: seq<Fields>, x: Fields, k: string)
    ensures |TablesAt(ts, k)| <= |ts|
    ensures TablesAt(ts + [x], k) == TablesAt(ts, k)
              + if |TablesAt(ts, k)| == |ts| && k in x && x[k].Table? then [x[k].fields] else []
    ensures ts != [] && |TablesAt(ts, k)| == |ts| ==>
              k in ts[|ts| - 1] && ts[|ts| - 1][k] == Table(TablesAt(ts, k)[|ts| - 1])
  {
    if ts == [] {
      assert [x][1..] == [];
    } else {
      TablesAtAppend(ts[1..], x, k);
      assert (ts + [x])[1..] == ts[1..] + [x];
    }
  }

  /** A merge that changes nothing leaves nothing different. */
  lemma {:induction false} SeenStutters(m: Fields, ts: seq<Fields>)
    requires ts != []
    ensures Seen(m, ts + [ts[|ts| - 1]]) == Seen(m, ts)
    decreases Table(m)
  {
    var last := ts[|ts| - 1];
    forall k | k in m ensures SeenAt(m[k], ts + [last], k) == SeenAt(m[k], ts, k) {
      if m[k].Table? {
        assert Table(m[k].fields) == m[k];
        TablesAtAppend(ts, last, k);
        if k in ts[0] && ts[0][k].Table? {
          MergedStutters(m[k], ts, k);
          if |TablesAt(ts, k)| == |ts| {
            SeenStutters(m[k].fields, TablesAt(ts, k));
          }
        } else {
          AdoptedStutters(m[k], ts, k);
        }
      }
    }
  }

  lemma MergedStutters(v: Value, ts: seq<Fields>, k: string)
    requires ts != []
    ensures var us := TablesAt(ts, k);
            TablesAt(ts + [ts[|ts| - 1]], k) == if |us| == |ts| then us + [us[|us| - 1]] else us
  {
    TablesAtAppend(ts, ts[|ts| - 1], k);
  }

  lemma AdoptedStutters(v: Value, ts: seq<Fields>, k: string)
    requires ts != [] && !(k in ts[0] && ts[0][k].Table?)
    ensures LastTable(v, TablesAt((ts + [ts[|ts| - 1]])[1..], k)) == LastTable(v, TablesAt(ts[1..], k))
  {
    var last := ts[|ts| - 1];
    assert (ts + [last])[1..] == ts[1..] + [last];
    TablesAtAppend(ts[1..], last, k);
  }

  /** What a merge shows of a source that was merged before: only the subtables it shares with what had
      been merged. */
  lemma SeenSame(m: Fields, ts: seq<Fields>, x: Fields, y: Fields)
    requires |ts| >= 2 && FirstAfter(ts[|ts| - 1], x) == FirstAfter(ts[|ts| - 1], y)
    ensures Seen(m, ts + [x]) == Seen(m, ts + [y])
  {
    forall k | k in m ensures SeenAt(m[k], ts + [x], k) == SeenAt(m[k], ts + [y], k) {
      if m[k].Table? {
        SeenSameAt(m, ts, x, y, k);
      }
    }
  }

  lemma SeenSameAt(m: Fields, ts: seq<Fields>, x: Fields, y: Fields, k: string)
    requires |ts| >= 2 && FirstAfter(ts[|ts| - 1], x) == FirstAfter(ts[|ts| - 1], y) && k in m && m[k].Table?
    ensures SeenAt(m[k], ts + [x], k) == SeenAt(m[k], ts + [y], k)
  {
    if k in ts[0] && ts[0][k].Table? {
      MergedSame(m[k], ts, x, y, k);
    } else {
      AdoptedSame(m[k], ts, x, y, k);
    }
  }

  lemma AdoptedSame(v: Value, ts: seq<Fields>, x: Fields, y: Fields, k: string)
    requires |ts| >= 2 && FirstAfter(ts[|ts| - 1], x) == FirstAfter(ts[|ts| - 1], y)
    ensures LastTable(v, TablesAt((ts + [x])[1..], k)) == LastTable(v, TablesAt((ts + [y])[1..], k))
  {
    assert (ts + [x])[1..] == ts[1..] + [x] && (ts + [y])[1..] == ts[1..] + [y];
    AdoptedLive(v, ts[1..], x, k);
    AdoptedLive(v, ts[1..], y, k);
    if |TablesAt(ts[1..], k)| == |ts[1..]| {
      LiveSame(ts[|ts| - 1], x, y, k);
    }
  }

  lemma LiveSame(last: Fields, x: Fields, y: Fields, k: string)
    requires FirstAfter(last, x) == FirstAfter(last, y) && k in last && last[k].Table?
    ensures Live(last[k], x, k) == Live(last[k], y, k)
  {
    assert FirstAfter(last, x)[k] == FirstAfter(last, y)[k];
  }

  /** An adopted subtable that is still shared shows the next merge, one let go of does not. */
  lemma AdoptedLive(v: Value, ts: seq<Fields>, x: Fields, k: string)
    requires ts != []
    ensures |TablesAt(ts, k)| == |ts| ==>
              && k in ts[|ts| - 1] && ts[|ts| - 1][k].Table?
              && LastTable(v, TablesAt(ts + [x], k)) == Live(ts[|ts| - 1][k], x, k)
    ensures |TablesAt(ts, k)| != |ts| ==> TablesAt(ts + [x], k) == TablesAt(ts, k)
  {
    TablesAtAppend(ts, x, k);
  }

  lemma MergedSame(v: Value, ts: seq<Fields>, x: Fields, y: Fields, k: string)
    requires ts != [] && FirstAfter(ts[|ts| - 1], x) == FirstAfter(ts[|ts| - 1], y) && v.Table?
    ensures Seen(v.fields, TablesAt(ts + [x], k)) == Seen(v.fields, TablesAt(ts + [y], k))
  {
    var us := TablesAt(ts, k);
    TablesAtAppend(ts, x, k);
    TablesAtAppend(ts, y, k);
    if |us| == |ts| {
      MergedLive(v, ts, x, k);
      MergedLive(v, ts, y, k);
      LiveSame(ts[|ts| - 1], x, y, k);
    }
  }

  /** Where a table is still shared, letting go of it is like merging nothing. */
  lemma MergedLive(v: Value, ts: seq<Fields>, x: Fields, k: string)
    requires ts != [] && |TablesAt(ts, k)| == |ts| && v.Table?
    ensures k in ts[|ts| - 1] && ts[|ts| - 1][k].Table?
    ensures Seen(v.fields, TablesAt(ts + [x], k))
         == Seen(v.fields, TablesAt(ts, k) + [Live(ts[|ts| - 1][k], x, k).fields])
  {
    var us := TablesAt(ts, k);
    TablesAtAppend(ts, x, k);
    if k in x && x[k].Table? {
      assert TablesAt(ts + [x], k) == us + [Live(ts[|ts| - 1][k], x, k).fields];
    } else {
      SeenStutters(v.fields, us);
      assert TablesAt(ts + [x], k) == us && Live(ts[|ts| - 1][k], x, k).fields == us[|us| - 1];
    }
  }

  /** Without nested collisions what is merged is the overlay at every point, whatever the iterations. */
  function CleanTrace(s: seq<Source>): (t: seq<Fields>)
    ensures |t| == |s| + 1 && t[|s|] == OverlayAll(s).fields
  {
    if s == [] then [map[]] else CleanTrace(s[..|s| - 1]) + [OverlayAll(s).fields]
  }

  lemma {:induction false} TraceIsClean(s: seq<Source>, orders: seq<seq<Visit>>)
    requires Orders(orders, s) && ChainClean(s)
    ensures Trace(s, orders) == CleanTrace(s)
  {
    if s != [] {
      OrdersPrefix(orders, s);
      TraceIsClean(s[..|s| - 1], orders[..|s| - 1]);
      FoldClean(s, orders);
    }
  }

  /** Sources whose subtables never collide on the way are left the same by every iteration. */
  lemma AgreeingLeftSame(s: seq<Source>, o: seq<seq<Visit>>, p: seq<seq<Visit>>, complete: bool)
    requires ChainClean(s) && Orders(o, s) && Orders(p, s)
    ensures Rewritten(s, o, complete) == Rewritten(s, p, complete)
  {
    TraceIsClean(s, o);
    TraceIsClean(s, p);
  }

  /* ---- a refused merge ---- */

  /** Where a merge without a complete rank is refused: at the first source that disagrees with an earlier
      one. */
  lemma {:induction false} RefusedAt(s: seq<Source>) returns (j: nat)
    requires !PairwiseCompatible(s)
    ensures j < |s| && Reached(s, false) == j + 1
    ensures PairwiseCompatible(s[..j]) && !PairwiseCompatible(s[..j + 1])
  {
    var n := |s| - 1;
    if PairwiseCompatible(s[..n]) {
      j := n;
      assert s[..j + 1] == s;
    } else {
      j := RefusedAt(s[..n]);
      assert s[..n][..j] == s[..j] && s[..n][..j + 1] == s[..j + 1];
    }
  }

  /** The destination when the merge is refused at `j`. */
  function Refusing(s: seq<Source>, orders: seq<seq<Visit>>, j: nat): Fields
    requires j < |s| && j < |orders|
  {
    After(OverlayAll(s[..j]).fields, s[j].fields, orders[j]).out
  }

  /** The destination before and after the refusing step. */
  lemma RefusedTrace(s: seq<Source>, orders: seq<seq<Visit>>, j: nat)
    requires Orders(orders, s) && j < |s| && PairwiseCompatible(s[..j])
    ensures Trace(s, orders)[..j + 2]
         == CleanTrace(s[..j]) + [Refusing(s, orders, j)]
  {
    var p, q := s[..j], s[..j + 1];
    TracePrefix(s, orders, j + 1);
    assert q[..j] == p && orders[..j + 1][..j] == orders[..j];
    FoldIsJoin(p);
    assert Orders(orders[..j], p);
    TraceIsClean(p, orders[..j]);
    FoldClean(p, orders[..j]);
  }

  lemma LeftAt(s: seq<Source>, trace: seq<Fields>, i: nat)
    requires i < |s|
    ensures LeftBy(s, trace)[i] == if i + 1 < |trace| then s[i].(fields := Seen(s[i].fields, trace[i..])) else s[i]
  {
  }

  /** What of a source a refused merge leaves: earlier ones as they share the step, the refused one as read. */
  lemma RefusedLeft(s: seq<Source>, orders: seq<seq<Visit>>, j: nat, i: nat)
    requires Orders(orders, s) && j < |s| && i < |s| && PairwiseCompatible(s[..j]) && Reached(s, false) == j + 1
    ensures Rewritten(s, orders, false)[i]
         == if i >= j then s[i]
            else s[i].(fields := Seen(s[i].fields, CleanTrace(s[..j])[i..] + [Refusing(s, orders, j)]))
  {
    RefusalBy(s, orders, j);
    LeftAt(s, CleanTrace(s[..j]) + [Refusing(s, orders, j)], i);
    StepsFrom(CleanTrace(s[..j]), Refusing(s, orders, j), i);
    if i == j {
      LastUntouched(OverlayAll(s[..j]).fields, s[j].fields, orders[j]);
    }
  }

  lemma RefusalBy(s: seq<Source>, orders: seq<seq<Visit>>, j: nat)
    requires Orders(orders, s) && j < |s| && PairwiseCompatible(s[..j]) && Reached(s, false) == j + 1
    ensures Rewritten(s, orders, false) == LeftBy(s, CleanTrace(s[..j]) + [Refusing(s, orders, j)])
  {
    RefusedTrace(s, orders, j);
  }

  lemma StepsFrom(t: seq<Fields>, x: Fields, i: nat)
    requires t != []
    ensures i < |t| - 1 ==> (t + [x])[i..] == t[i..] + [x]
    ensures i == |t| - 1 ==> (t + [x])[i..] == [t[i], x]
  {
  }

  /** A refused merge leaves its sources the same in every iteration exactly when the step that is refused
      is steady on the subtables it shares with what was merged before. */
  lemma RefusalLeftExact(s: seq<Source>, j: nat)
    requires j < |s| && PairwiseCompatible(s[..j]) && !PairwiseCompatible(s[..j + 1])
    ensures (forall o, p | Orders(o, s) && Orders(p, s) :: Rewritten(s, o, false) == Rewritten(s, p, false))
       <==> SharedSteady(OverlayAll(s[..j]).fields, s[j].fields)
  {
    ReachedAt(s, j);
    if SharedSteady(OverlayAll(s[..j]).fields, s[j].fields) {
      forall o, p | Orders(o, s) && Orders(p, s) ensures Rewritten(s, o, false) == Rewritten(s, p, false) {
        RefusalLeftSame(s, j, o, p);
      }
    } else {
      var o, p := RefusalShows(s, j);
    }
  }

  lemma RefusalLeftSame(s: seq<Source>, j: nat, o: seq<seq<Visit>>, p: seq<seq<Visit>>)
    requires j < |s| && PairwiseCompatible(s[..j]) && Reached(s, false) == j + 1 && Orders(o, s) && Orders(p, s)
    requires SharedSteady(OverlayAll(s[..j]).fields, s[j].fields)
    ensures Rewritten(s, o, false) == Rewritten(s, p, false)
  {
    var r := OverlayAll(s[..j]).fields;
    SharedNeverShows(r, s[j].fields, o[j], p[j]);
    forall i | 0 <= i < |s| ensures Rewritten(s, o, false)[i] == Rewritten(s, p, false)[i] {
      RefusedLeft(s, o, j, i);
      RefusedLeft(s, p, j, i);
      if i < j {
        EarlierLeftSame(s[i].fields, CleanTrace(s[..j]), i, Refusing(s, o, j), Refusing(s, p, j));
      }
    }
  }

  lemma EarlierLeftSame(m: Fields, t: seq<Fields>, i: nat, x: Fields, y: Fields)
    requires i < |t| - 1 && FirstAfter(t[|t| - 1], x) == FirstAfter(t[|t| - 1], y)
    ensures Seen(m, t[i..] + [x]) == Seen(m, t[i..] + [y])
  {
    SeenSame(m, t[i..], x, y);
  }

  /** The first source with a subtable at a key is the one whose table the destination has adopted. */
  lemma {:induction false} Owner(s: seq<Source>, k: string) returns (i: nat)
    requires PairwiseCompatible(s) && k in OverlayAll(s).fields && OverlayAll(s).fields[k].Table?
    ensures i < |s| && k in s[i].fields && s[i].fields[k].Table? && k !in CleanTrace(s)[i]
    ensures forall t | i < t <= |s| :: k in CleanTrace(s)[t] && CleanTrace(s)[t][k].Table?
  {
    var n := |s| - 1;
    PrefixCompatible(s, n);
    var p := OverlayAll(s[..n]).fields;
    assert CleanTrace(s) == CleanTrace(s[..n]) + [OverlayAll(s).fields];
    if k in p {
      KindStays(s, k);
      i := Owner(s[..n], k);
    } else {
      i := n;
    }
  }

  /** Sources that agree never put a leaf where there is a table. */
  lemma KindStays(s: seq<Source>, k: string)
    requires PairwiseCompatible(s) && s != [] && k in OverlayAll(s[..|s| - 1]).fields
    ensures k in OverlayAll(s).fields && (OverlayAll(s).fields[k].Table? <==> OverlayAll(s[..|s| - 1]).fields[k].Table?)
  {
    var n := |s| - 1;
    PrefixCompatible(s, n);
    FoldCompatible(s[..n], s[n].fields);
    assert Compatible(OverlayAll(s[..n]), Table(s[n].fields)) by {
      forall i | 0 <= i < n ensures Compatible(Table(s[..n][i].fields), Table(s[n].fields)) {
        assert s[..n][i] == s[i];
      }
    }
    SameKind(OverlayAll(s[..n]), Table(s[n].fields), k);
  }

  lemma SameKind(x: Value, y: Value, k: string)
    requires x.Table? && y.Table? && Compatible(x, y) && k in x.fields
    ensures k in Overlay(x, y).fields && (Overlay(x, y).fields[k].Table? <==> x.fields[k].Table?)
  {
  }

  lemma RefusalShows(s: seq<Source>, j: nat) returns (o: seq<seq<Visit>>, p: seq<seq<Visit>>)
    requires j < |s| && PairwiseCompatible(s[..j]) && Reached(s, false) == j + 1
    requires !SharedSteady(OverlayAll(s[..j]).fields, s[j].fields)
    ensures Orders(o, s) && Orders(p, s) && Rewritten(s, o, false) != Rewritten(s, p, false)
  {
    var r := OverlayAll(s[..j]).fields;
    var a, b, k := SharedShows(r, s[j].fields);
    var some := SomeOrders(s);
    o, p := some[j := a], some[j := b];
    var i := Owner(s[..j], k);
    OwnerShows(s, o, j, i, k);
    OwnerShows(s, p, j, i, k);
    assert Rewritten(s, o, false)[i].fields[k] != Rewritten(s, p, false)[i].fields[k];
  }

  lemma OwnerShows(s: seq<Source>, orders: seq<seq<Visit>>, j: nat, i: nat, k: string)
    requires Orders(orders, s) && i < j < |s| && PairwiseCompatible(s[..j]) && Reached(s, false) == j + 1
    requires k in s[i].fields && s[i].fields[k].Table? && k !in CleanTrace(s[..j])[i]
    requires forall t | i < t <= j :: k in CleanTrace(s[..j])[t] && CleanTrace(s[..j])[t][k].Table?
    ensures k in Rewritten(s, orders, false)[i].fields && k in OverlayAll(s[..j]).fields
    ensures Rewritten(s, orders, false)[i].fields[k] == Live(OverlayAll(s[..j]).fields[k], Refusing(s, orders, j), k)
  {
    var t, x := CleanTrace(s[..j])[i..], Refusing(s, orders, j);
    RefusedLeft(s, orders, j, i);
    SeenKey(s[i].fields, t + [x], k);
    AdoptedShows(s[i].fields[k], t, x, k);
  }

  lemma SeenKey(m: Fields, rs: seq<Fields>, k: string)
    requires k in m
    ensures k in Seen(m, rs) && Seen(m, rs)[k] == SeenAt(m[k], rs, k)
  {
  }

  lemma AdoptedShows(v: Value, t: seq<Fields>, x: Fields, k: string)
    requires |t| >= 2 && k !in t[0] && v.Table?
    requires forall i | 0 < i < |t| :: k in t[i] && t[i][k].Table?
    ensures SeenAt(v, t + [x], k) == Live(t[|t| - 1][k], x, k)
  {
    assert (t + [x])[1..] == t[1..] + [x];
    AllTables(t[1..], k);
    AdoptedLive(v, t[1..], x, k);
  }

  lemma {:induction false} AllTables(ts: seq<Fields>, k: string)
    requires forall t | 0 <= t < |ts| :: k in ts[t] && ts[t][k].Table?
    ensures |TablesAt(ts, k)| == |ts|
  {
    if ts != [] {
      AllTables(ts[1..], k);
    }
  }

  /* ---- folding by rank ---- */

  /** What a steady merge gives: the overlay, except that around a pair of colliding subtables nothing else
      changes. */
  function SteadyResult(x: Value, y: Value): (r: Value)
    requires x.Table? && y.Table?
    ensures r.Table?
    decreases y
  {
    if NestedClean(x.fields, y.fields) then Overlay(x, y)
    else
      Table(map k | k in x.fields ::
              if NestedClash(x.fields, y.fields, k) then SteadyResult(x.fields[k], y.fields[k]) else x.fields[k])
  }

  lemma {:induction false} SteadyIs(dst: Fields, src: Fields, order: seq<Visit>)
    requires Steady(Table(dst), Table(src)) && Iterates(order, src)
    ensures Table(After(dst, src, order).out) == SteadyResult(Table(dst), Table(src))
    decreases Table(src)
  {
    if NestedClean(dst, src) {
      MergeExact(dst, src, order);
    } else {
      var n :| BothTables(dst, src, n) && (forall k | k in src && k != n :: NoOp(dst, src, k))
               && Steady(dst[n], src[n]);
      OnlyClash(dst, src, n);
      var inner := OnlyNested(dst, src, order, n);
      assert Table(dst[n].fields) == dst[n] && Table(src[n].fields) == src[n] && src[n] == Table(src).fields[n];
      SteadyIs(dst[n].fields, src[n].fields, inner);
      ResultAround(dst, src, n);
    }
  }

  lemma ResultAround(dst: Fields, src: Fields, n: string)
    requires NestedClash(dst, src, n) && forall k | k != n :: !NestedClash(dst, src, k)
    ensures SteadyResult(Table(dst), Table(src)) == Table(dst[n := SteadyResult(dst[n], src[n])])
  {
    var r, around := SteadyResult(Table(dst), Table(src)).fields, dst[n := SteadyResult(dst[n], src[n])];
    assert r.Keys == around.Keys;
    assert forall k | k in dst :: r[k] == around[k];
  }

  lemma OnlyClash(dst: Fields, src: Fields, n: string)
    requires !NestedClean(dst, src) && forall k | k in src && k != n :: NoOp(dst, src, k)
    ensures NestedClash(dst, src, n) && forall k | k != n :: !NestedClash(dst, src, k)
  {
    forall k | k != n ensures !NestedClash(dst, src, k) {
      if k in src {
        NoOpCompatible(dst[k], src[k]);
      }
    }
    var k := SomeNestedClash(dst, src);
  }

  /** What the sources fold to when every step is steady. */
  function SteadyFold(s: seq<Source>): (r: Value)
    ensures r.Table?
  {
    if s == [] then Table(map[]) else SteadyResult(SteadyFold(s[..|s| - 1]), Table(s[|s| - 1].fields))
  }

  /** Every step merges a source into the result of the steps before it, steadily. */
  ghost predicate SteadyChain(s: seq<Source>) {
    s != [] ==> SteadyChain(s[..|s| - 1]) && Steady(SteadyFold(s[..|s| - 1]), Table(s[|s| - 1].fields))
  }

  lemma {:induction false} SteadyFoldIs(s: seq<Source>, orders: seq<seq<Visit>>)
    requires SteadyChain(s) && Orders(orders, s)
    ensures Table(FoldBy(s, orders)) == SteadyFold(s)
  {
    if s != [] {
      var n := |s| - 1;
      OrdersPrefix(orders, s);
      SteadyFoldIs(s[..n], orders[..n]);
      SteadyIs(FoldBy(s[..n], orders[..n]), s[n].fields, orders[n]);
    }
  }

  lemma {:induction false} SteadyTraceSame(s: seq<Source>, o: seq<seq<Visit>>, p: seq<seq<Visit>>)
    requires SteadyChain(s) && Orders(o, s) && Orders(p, s)
    ensures Trace(s, o) == Trace(s, p)
  {
    SteadyFoldIs(s, o);
    SteadyFoldIs(s, p);
    if s != [] {
      OrdersPrefix(o, s);
      OrdersPrefix(p, s);
      SteadyTraceSame(s[..|s| - 1], o[..|s| - 1], p[..|s| - 1]);
    }
  }

  /** The sources fold to the same in every iteration. */
  ghost predicate OneFold(s: seq<Source>) {
    forall o, p | Orders(o, s) && Orders(p, s) :: FoldBy(s, o) == FoldBy(s, p)
  }

  /** When all steps but the last are steady, the last decides. */
  lemma LastStepExact(s: seq<Source>)
    requires s != [] && SteadyChain(s[..|s| - 1])
    ensures OneFold(s) <==> SteadyChain(s)
  {
    if SteadyChain(s) {
      forall o, p | Orders(o, s) && Orders(p, s) ensures FoldBy(s, o) == FoldBy(s, p) {
        SteadyFoldIs(s, o);
        SteadyFoldIs(s, p);
      }
    } else {
      var o, p := LastStepShows(s);
    }
  }

  lemma LastStepShows(s: seq<Source>) returns (o: seq<seq<Visit>>, p: seq<seq<Visit>>)
    requires s != [] && SteadyChain(s[..|s| - 1]) && !SteadyChain(s)
    ensures Orders(o, s) && Orders(p, s) && FoldBy(s, o) != FoldBy(s, p)
  {
    var n := |s| - 1;
    var a, b := UnsteadyShows(SteadyFold(s[..n]).fields, s[n].fields);
    var some := SomeOrders(s);
    o, p := some[n := a], some[n := b];
    OrdersPrefix(some, s);
    SteadyFoldIs(s[..n], some[..n]);
    assert o[..n] == some[..n] && p[..n] == some[..n];
  }

  /** Any number of sources: after each of them the result so far is the same in every iteration exactly when
      every step is steady. */
  lemma {:induction false} EveryFoldExact(s: seq<Source>)
    ensures (forall i | 0 <= i <= |s| :: OneFold(s[..i])) <==> SteadyChain(s)
  {
    if s == [] {
      assert s[..0] == s;
    } else {
      var n := |s| - 1;
      EveryFoldExact(s[..n]);
      assert s[..|s|] == s;
      assert forall i | 0 <= i <= n :: s[..n][..i] == s[..i];
      if SteadyChain(s[..n]) {
        LastStepExact(s);
        forall i | 0 <= i <= |s| && SteadyChain(s) ensures OneFold(s[..i]) {
          assert i <= n ==> OneFold(s[..n][..i]);
        }
      } else {
        var i :| 0 <= i <= n && !OneFold(s[..n][..i]);
        assert !OneFold(s[..i]);
      }
    }
  }

  /** The last step, behind steady ones. */
  lemma FoldBehind(s: seq<Source>, orders: seq<seq<Visit>>)
    requires s != [] && SteadyChain(s[..|s| - 1]) && Orders(orders, s)
    ensures FoldBy(s, orders) == After(SteadyFold(s[..|s| - 1]).fields, s[|s| - 1].fields, orders[|s| - 1]).out
    ensures Iterates(orders[|s| - 1], s[|s| - 1].fields)
  {
    OrdersPrefix(orders, s);
    SteadyFoldIs(s[..|s| - 1], orders[..|s| - 1]);
  }

  /** Any number of sources: behind steady steps the one merged last is sure to keep its leaf exactly when its
      subtables collide with nothing merged before or the leaf is there already. */
  lemma LastMergedWinsExact(s: seq<Source>, last: Source, k: string)
    requires SteadyChain(s) && k in last.fields && last.fields[k].Scalar?
    ensures (forall orders | Orders(orders, s + [last]) :: Holds(FoldBy(s + [last], orders), k, last.fields[k]))
       <==> NestedClean(SteadyFold(s).fields, last.fields) || Holds(SteadyFold(s).fields, k, last.fields[k])
  {
    var all, before := s + [last], SteadyFold(s).fields;
    assert all[..|all| - 1] == s;
    LeafWrittenExact(before, last.fields, k);
    if NestedClean(before, last.fields) || Holds(before, k, last.fields[k]) {
      forall orders | Orders(orders, all) ensures Holds(FoldBy(all, orders), k, last.fields[k]) {
        FoldBehind(all, orders);
      }
    } else {
      var order :| Iterates(order, last.fields) && !Holds(After(before, last.fields, order).out, k, last.fields[k]);
      var some := SomeOrders(all);
      var orders := some[|s| := order];
      FoldBehind(all, orders);
      assert Orders(orders, all) && !Holds(FoldBy(all, orders), k, last.fields[k]);
    }
  }
}
