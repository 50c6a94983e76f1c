/** The merge as it runs on tables in memory, where a key holds a reference: whose table is written into, and
    what that leaves of every source, is derived here rather than stated. */
module TableMemory {
  import opened DeepMerge
  import opened TableMerge
  import opened SharedTables

  /* ---- documents with addresses ---- */

  /** A document as it lies in memory: every table with its address. */
  datatype Node = Leaf(token: string) | Place(addr: nat, kids: map<string, Node>)

  type Kids = map<string, Node>

  function Content(n: Node): Value {
    match n
    case Leaf(token) => Scalar(token)
    case Place(_, kids) => Table(map k | k in kids :: Content(kids[k]))
  }

  function Contents(kids: Kids): Fields {
    map k | k in kids :: Content(kids[k])
  }

  lemma ContentPlace(n: Node)
    requires n.Place?
    ensures Content(n) == Table(Contents(n.kids)) && Content(n).fields == Contents(n.kids)
  {
  }

  ghost function Addrs(n: Node): set<nat> {
    match n
    case Leaf(_) => {}
    case Place(addr, kids) => {addr} + set k, x | k in kids && x in Addrs(kids[k]) :: x
  }

  /** No table is in two places. */
  ghost predicate Tree(n: Node) {
    match n
    case Leaf(_) => true
    case Place(addr, kids) =>
      && (forall k | k in kids :: Tree(kids[k]) && addr !in Addrs(kids[k]))
      && (forall k, l | k in kids && l in kids && k != l :: Addrs(kids[k]) !! Addrs(kids[l]))
  }

  /** The tables at a key. */
  predicate BothPlaces(dst: Kids, src: Kids, k: string) {
    k in dst && k in src && dst[k].Place? && src[k].Place?
  }

  datatype Merging = Merging(kids: Kids, ok: bool, stopped: bool)

  /** One key: an absent one is adopted with everything below it, two tables are merged in the first, and a
      value that differs is replaced. */
  function StepNode(p: Merging, src: Kids, v: Visit): Merging
    decreases v, 0
  {
    if v.key !in src then p
    else if v.key !in p.kids then p.(kids := p.kids[v.key := src[v.key]])
    else if p.kids[v.key].Place? && src[v.key].Place? then
      var child := MergeNodes(p.kids[v.key].kids, src[v.key].kids, v.inner);
      Merging(p.kids[v.key := Place(p.kids[v.key].addr, child.kids)], p.ok && child.ok, !child.ok)
    else if Content(p.kids[v.key]) != Content(src[v.key]) then p.(kids := p.kids[v.key := src[v.key]], ok := false)
    else p
  }

  function MergeNodes(dst: Kids, src: Kids, order: seq<Visit>): Merging
    decreases order, 1
  {
    if order == [] then Merging(dst, true, false)
    else
      var p := MergeNodes(dst, src, order[..|order| - 1]);
      if p.stopped then p else StepNode(p, src, order[|order| - 1])
  }

  function Abstract(p: Merging): Progress {
    Progress(Contents(p.kids), p.ok, p.stopped)
  }

  lemma ContentsUpdate(kids: Kids, k: string, n: Node)
    ensures Contents(kids[k := n]) == Contents(kids)[k := Content(n)]
  {
  }

  /** Forgetting addresses, it is the merge of values. */
  lemma {:induction false} MergeContents(dst: Kids, src: Kids, order: seq<Visit>)
    ensures Abstract(MergeNodes(dst, src, order)) == After(Contents(dst), Contents(src), order)
    decreases order, 1
  {
    if order != [] {
      var q, v := order[..|order| - 1], order[|order| - 1];
      MergeContents(dst, src, q);
      StepContents(MergeNodes(dst, src, q), src, v);
    }
  }

  lemma {:induction false} StepContents(p: Merging, src: Kids, v: Visit)
    ensures Abstract(StepNode(p, src, v)) == StepVisit(Abstract(p), Contents(src), v)
    decreases v, 0
  {
    if v.key in src && v.key in p.kids && p.kids[v.key].Place? && src[v.key].Place? {
      MergeContents(p.kids[v.key].kids, src[v.key].kids, v.inner);
      var kid := Place(p.kids[v.key].addr, MergeNodes(p.kids[v.key].kids, src[v.key].kids, v.inner).kids);
      ContentPlace(p.kids[v.key]);
      ContentPlace(src[v.key]);
      ContentPlace(kid);
      ContentsUpdate(p.kids, v.key, kid);
    }
  }

  /* ---- what a merge does at each key ---- */

  /** The key is as it was. */
  ghost predicate Kept(kids: Kids, dst: Kids, k: string) {
    (k in kids <==> k in dst) && (k in dst ==> kids[k] == dst[k])
  }

  /** It has been visited: two tables merged in the first one's place, or the value taken over. */
  ghost predicate TakenUp(kids: Kids, dst: Kids, src: Kids, k: string, inner: seq<Visit>) {
    && k in src && k in kids && VisitOk(Visit(k, inner), Contents(src))
    && if BothPlaces(dst, src, k) then
         kids[k] == Place(dst[k].addr, MergeNodes(dst[k].kids, src[k].kids, inner).kids)
       else kids[k] == src[k] || Kept(kids, dst, k)
  }

  lemma {:induction false} UnvisitedKept(dst: Kids, src: Kids, order: seq<Visit>, k: string)
    requires Partial(order, Contents(src)) && !Visited(order, k)
    ensures Kept(MergeNodes(dst, src, order).kids, dst, k)
  {
    if order != [] {
      PartialPrefix(order, Contents(src));
      UnvisitedKept(dst, src, order[..|order| - 1], k);
    }
  }

  lemma {:induction false} NodeAt(dst: Kids, src: Kids, order: seq<Visit>, k: string) returns (inner: seq<Visit>)
    requires Partial(order, Contents(src))
    ensures var kids := MergeNodes(dst, src, order).kids;
            Kept(kids, dst, k) || (Visited(order, k) && TakenUp(kids, dst, src, k, inner))
  {
    inner := [];
    if order != [] {
      var q, v := order[..|order| - 1], order[|order| - 1];
      PartialPrefix(order, Contents(src));
      inner := NodeAt(dst, src, q, k);
      if v.key == k {
        UnvisitedKept(dst, src, q, k);
        inner := v.inner;
      }
    }
  }

  lemma KidAddrs(n: Node, k: string)
    requires n.Place? && k in n.kids
    ensures Addrs(n.kids[k]) <= Addrs(n)
  {
  }

  lemma BelowIterated(src: Kids, k: string, inner: seq<Visit>)
    requires k in src && src[k].Place? && VisitOk(Visit(k, inner), Contents(src))
    ensures Iterates(inner, Contents(src[k].kids)) && Contents(src)[k] == Content(src[k])
  {
    ContentPlace(src[k]);
    assert Contents(src)[k].fields == Contents(src[k].kids);
  }

  /** What is below a key comes from there, in the one or the other. */
  lemma {:induction false} AddrsAt(dst: Kids, src: Kids, order: seq<Visit>, k: string)
    requires Partial(order, Contents(src)) && k in MergeNodes(dst, src, order).kids
    ensures Addrs(MergeNodes(dst, src, order).kids[k]) <= AddrsIn(dst, k) + AddrsIn(src, k)
    decreases Table(Contents(src))
  {
    var kids := MergeNodes(dst, src, order).kids;
    var inner := NodeAt(dst, src, order, k);
    if !Kept(kids, dst, k) && BothPlaces(dst, src, k) {
      BelowIterated(src, k, inner);
      BelowAddrs(dst[k], src[k], inner, Table(Contents(src)));
    }
  }

  ghost function AddrsIn(kids: Kids, k: string): set<nat> {
    if k in kids then Addrs(kids[k]) else {}
  }

  lemma {:induction false} BelowAddrs(d: Node, s: Node, inner: seq<Visit>, bound: Value)
    requires d.Place? && s.Place? && Iterates(inner, Contents(s.kids))
    requires bound.Table? && exists k :: k in bound.fields && bound.fields[k] == Content(s)
    ensures Addrs(Place(d.addr, MergeNodes(d.kids, s.kids, inner).kids)) <= Addrs(d) + Addrs(s)
    decreases bound, 0
  {
    var kids := MergeNodes(d.kids, s.kids, inner).kids;
    forall l | l in kids ensures Addrs(kids[l]) <= Addrs(d) + Addrs(s) {
      ContentPlace(s);
      AddrsAt(d.kids, s.kids, inner, l);
    }
  }

  function MergedInto(d: Node, s: Node, order: seq<Visit>): Node
    requires d.Place? && s.Place?
  {
    Place(d.addr, MergeNodes(d.kids, s.kids, order).kids)
  }

  /** Where both have a table, a merge of the whole has merged these, in part perhaps. */
  lemma BelowMerged(d: Node, s: Node, order: seq<Visit>, k: string) returns (inner: seq<Visit>)
    requires d.Place? && s.Place? && Partial(order, Contents(s.kids)) && BothPlaces(d.kids, s.kids, k)
    ensures Partial(inner, Contents(s.kids[k].kids)) && k in MergedInto(d, s, order).kids
    ensures MergedInto(d, s, order).kids[k] == MergedInto(d.kids[k], s.kids[k], inner)
  {
    inner := NodeAt(d.kids, s.kids, order, k);
    if Kept(MergedInto(d, s, order).kids, d.kids, k) {
      inner := [];
    } else {
      BelowIterated(s.kids, k, inner);
    }
  }

  /** Two documents that share no table. */
  ghost predicate Apart(d: Node, s: Node) {
    d.Place? && s.Place? && Tree(d) && Tree(s) && Addrs(d) !! Addrs(s)
  }

  lemma KidsApart(d: Node, s: Node, k: string)
    requires Apart(d, s) && BothPlaces(d.kids, s.kids, k)
    ensures Apart(d.kids[k], s.kids[k])
  {
    KidAddrs(d, k);
    KidAddrs(s, k);
  }

  /** What lies below a key, here or there. */
  ghost function Under(d: Node, s: Node, k: string): set<nat>
    requires d.Place? && s.Place?
  {
    AddrsIn(d.kids, k) + AddrsIn(s.kids, k)
  }

  /** They merge into one that has no table in two places. */
  lemma {:induction false} MergedTree(d: Node, s: Node, order: seq<Visit>)
    requires Apart(d, s) && Partial(order, Contents(s.kids))
    ensures Tree(MergedInto(d, s, order)) && Addrs(MergedInto(d, s, order)) <= Addrs(d) + Addrs(s) - {s.addr}
    decreases s, 1
  {
    var kids := MergedInto(d, s, order).kids;
    forall k | k in kids ensures Tree(kids[k]) && Addrs(kids[k]) <= Under(d, s, k) {
      MergedKid(d, s, order, k);
    }
    KeysApart(d, s);
  }

  lemma {:induction false} MergedKid(d: Node, s: Node, order: seq<Visit>, k: string)
    requires Apart(d, s) && Partial(order, Contents(s.kids)) && k in MergedInto(d, s, order).kids
    ensures var kid := MergedInto(d, s, order).kids[k];
            Tree(kid) && Addrs(kid) <= Under(d, s, k)
    decreases s, 0
  {
    AddrsAt(d.kids, s.kids, order, k);
    if BothPlaces(d.kids, s.kids, k) {
      var inner := BelowMerged(d, s, order, k);
      KidsApart(d, s, k);
      MergedTree(d.kids[k], s.kids[k], inner);
    } else {
      var inner := NodeAt(d.kids, s.kids, order, k);
    }
  }

  lemma KeysApart(d: Node, s: Node)
    requires Apart(d, s)
    ensures forall k, l | k != l :: Under(d, s, k) !! Under(d, s, l)
    ensures forall k :: d.addr !in Under(d, s, k) && s.addr !in Under(d, s, k)
    ensures forall k :: AddrsIn(d.kids, k) <= Addrs(d) && AddrsIn(s.kids, k) <= Addrs(s)
  {
    forall k ensures AddrsIn(d.kids, k) <= Addrs(d) && AddrsIn(s.kids, k) <= Addrs(s) {
      if k in d.kids {
        KidAddrs(d, k);
      }
      if k in s.kids {
        KidAddrs(s, k);
      }
    }
  }

  /* ---- following a source ---- */

  /** The table at a key is the one that was there. */
  predicate StillAt(d: Kids, e: Kids, k: string) {
    k in d && k in e && d[k].Place? && e[k].Place? && d[k].addr == e[k].addr
  }

  /** A document `m` once the destination has gone from `d` to `e`: where it refers to one of the
      destination's tables it shows what has been written there. */
  function Follow(m: Node, d: Node, e: Node): Node
    decreases m, 0
  {
    if m.Place? && d.Place? && e.Place? then
      Place(m.addr, map k | k in m.kids :: FollowAt(m.kids[k], d.kids, e.kids, k))
    else m
  }

  function FollowAt(n: Node, d: Kids, e: Kids, k: string): Node
    decreases n, 1
  {
    if n.Place? && StillAt(d, e, k) then if n.addr == d[k].addr then e[k] else Follow(n, d[k], e[k])
    else n
  }

  lemma {:induction false} FollowAddrs(m: Node, d: Node, e: Node)
    ensures Addrs(Follow(m, d, e)) <= Addrs(m) + Addrs(e)
  {
    if m.Place? && d.Place? && e.Place? {
      forall k | k in m.kids ensures Addrs(FollowAt(m.kids[k], d.kids, e.kids, k)) <= Addrs(m) + Addrs(e) {
        if StillAt(d.kids, e.kids, k) {
          FollowAddrs(m.kids[k], d.kids[k], e.kids[k]);
        }
      }
    }
  }

  /** Apart from the destination nothing changes. */
  lemma {:induction false} FollowApart(m: Node, d: Node, e: Node)
    requires Addrs(m) !! Addrs(d)
    ensures Follow(m, d, e) == m
  {
    if m.Place? && d.Place? && e.Place? {
      forall k | k in m.kids ensures FollowAt(m.kids[k], d.kids, e.kids, k) == m.kids[k] {
        if m.kids[k].Place? && StillAt(d.kids, e.kids, k) {
          KidAddrs(m, k);
          KidAddrs(d, k);
          FollowApart(m.kids[k], d.kids[k], e.kids[k]);
        }
      }
      assert Follow(m, d, e).kids == m.kids;
    }
  }

  /** The destination had a table at the key when the source was merged. */
  predicate HadTable(rs: seq<Fields>, k: string)
    requires rs != []
  {
    k in rs[0] && rs[0][k].Table?
  }

  /** And has had one ever since. */
  predicate StillShared(rs: seq<Fields>, k: string)
    requires rs != []
  {
    HadTable(rs, k) && |TablesAt(rs, k)| == |rs|
  }

  /** It had none, adopted the source's, and has kept it. */
  predicate StillAdopted(rs: seq<Fields>, k: string)
    requires rs != []
  {
    !HadTable(rs, k) && |TablesAt(rs[1..], k)| == |rs| - 1
  }

  /** How a source that has been merged lies beside the destination. `v` is the source as read, `rs` what was at
      its place in the destination when it was merged and after each merge since. */
  ghost predicate Linked(m: Node, d: Node, v: Fields, rs: seq<Fields>)
    decreases Table(v), 0
  {
    && m.Place? && d.Place? && |rs| >= 2 && Contents(d.kids) == rs[|rs| - 1]
    && m.addr !in Addrs(d) && m.kids.Keys == v.Keys
    && forall k | k in v :: LinkedAt(m.kids[k], d, v[k], rs, k)
  }

  /** A table is merged into the destination's at the key for as long as that is there; it is the destination's
      own where that had none; and once let go it is nowhere in the destination. */
  ghost predicate LinkedAt(n: Node, d: Node, v: Value, rs: seq<Fields>, k: string)
    requires d.Place? && rs != []
    decreases v, 1
  {
    if v.Scalar? then n == Leaf(v.token)
    else
      assert Table(v.fields) == v;
      && n.Place? && Content(n) == SeenAt(v, rs, k)
      && if StillShared(rs, k) then
           k in d.kids && Linked(n, d.kids[k], v.fields, TablesAt(rs, k)) && Addrs(n) * Addrs(d) <= Addrs(d.kids[k])
         else if StillAdopted(rs, k) then
           k in d.kids && d.kids[k] == n
         else
           Addrs(n) !! Addrs(d)
  }


  lemma LinkedContent(m: Node, d: Node, v: Fields, rs: seq<Fields>)
    requires Linked(m, d, v, rs)
    ensures Contents(m.kids) == Seen(v, rs)
  {
    forall k | k in v ensures Content(m.kids[k]) == SeenAt(v[k], rs, k) {
      assert LinkedAt(m.kids[k], d, v[k], rs, k);
    }
  }

  /* ---- a source as it is merged ---- */

  /** Once a source has been merged it lies so beside the destination. */
  lemma {:induction false} LinkedOnMerge(d: Node, m: Node, order: seq<Visit>)
    requires Apart(d, m) && Partial(order, Contents(m.kids))
    ensures var e := MergedInto(d, m, order); Linked(m, e, Contents(m.kids), [Contents(d.kids), Contents(e.kids)])
    decreases m, 1
  {
    var e := MergedInto(d, m, order);
    MergedTree(d, m, order);
    forall k | k in m.kids
      ensures LinkedAt(m.kids[k], e, Contents(m.kids)[k], [Contents(d.kids), Contents(e.kids)], k)
    {
      if m.kids[k].Place? {
        ContentPlace(m.kids[k]);
        if BothPlaces(d.kids, m.kids, k) {
          MergedOnMerge(d, m, order, k);
        } else {
          AdoptedOnMerge(d, m, order, k);
        }
      }
    }
  }

  /** In the result what comes from a key can only be met there. */
  lemma BesideAt(d: Node, s: Node, order: seq<Visit>, k: string)
    requires Apart(d, s) && Partial(order, Contents(s.kids))
    ensures var e := MergedInto(d, s, order);
            Under(d, s, k) * Addrs(e) <= AddrsIn(e.kids, k)
  {
    var e := MergedInto(d, s, order);
    KeysApart(d, s);
    forall l | l in e.kids ensures Addrs(e.kids[l]) <= Under(d, s, l) {
      AddrsAt(d.kids, s.kids, order, l);
    }
  }

  lemma {:induction false} MergedOnMerge(d: Node, m: Node, order: seq<Visit>, k: string)
    requires Apart(d, m) && Partial(order, Contents(m.kids)) && BothPlaces(d.kids, m.kids, k)
    ensures var e := MergedInto(d, m, order);
            LinkedAt(m.kids[k], e, Content(m.kids[k]), [Contents(d.kids), Contents(e.kids)], k)
    decreases m, 0
  {
    var e := MergedInto(d, m, order);
    BesideAt(d, m, order, k);
    KidsApart(d, m, k);
    var inner := BelowMerged(d, m, order, k);
    LinkedOnMerge(d.kids[k], m.kids[k], inner);
    PlacesAt(d.kids, e.kids, k);
    ContentPlace(m.kids[k]);
    LinkedContent(m.kids[k], e.kids[k], Contents(m.kids[k].kids), [Contents(d.kids[k].kids), Contents(e.kids[k].kids)]);
  }

  lemma PlacesAt(d: Kids, e: Kids, k: string)
    requires k in d && k in e && d[k].Place? && e[k].Place?
    ensures TablesAt([Contents(d), Contents(e)], k) == [Contents(d[k].kids), Contents(e[k].kids)]
    ensures HadTable([Contents(d), Contents(e)], k)
  {
    ContentPlace(d[k]);
    ContentPlace(e[k]);
    TablesOfTwo(Contents(d), Contents(e), k);
  }

  lemma AdoptedOnMerge(d: Node, m: Node, order: seq<Visit>, k: string)
    requires Apart(d, m) && Partial(order, Contents(m.kids))
    requires k in m.kids && m.kids[k].Place? && !BothPlaces(d.kids, m.kids, k)
    ensures var e := MergedInto(d, m, order);
            LinkedAt(m.kids[k], e, Content(m.kids[k]), [Contents(d.kids), Contents(e.kids)], k)
  {
    var e := MergedInto(d, m, order);
    var inner := NodeAt(d.kids, m.kids, order, k);
    BesideAt(d, m, order, k);
    var rs := [Contents(d.kids), Contents(e.kids)];
    assert rs[1..] == [Contents(e.kids)];
    TablesOfTwo(Contents(d.kids), Contents(e.kids), k);
    if k in e.kids && e.kids[k].Place? {
      assert e.kids[k] == m.kids[k];
      ContentPlace(e.kids[k]);
    }
  }

  /* ---- a source while others are merged ---- */

  /** A table of the destination stays where it is and something is merged into it, or it makes room for a
      leaf. */
  lemma DestinationAt(d: Node, s: Node, order: seq<Visit>, k: string) returns (sub: Node, inner: seq<Visit>)
    requires Apart(d, s) && Partial(order, Contents(s.kids)) && k in d.kids && d.kids[k].Place?
    ensures k in MergedInto(d, s, order).kids
    ensures MergedInto(d, s, order).kids[k].Place? ==>
              && Apart(d.kids[k], sub) && Addrs(sub) <= Addrs(s) && Partial(inner, Contents(sub.kids))
              && MergedInto(d, s, order).kids[k] == MergedInto(d.kids[k], sub, inner)
  {
    KidAddrs(d, k);
    if BothPlaces(d.kids, s.kids, k) {
      KidAddrs(s, k);
      KidsApart(d, s, k);
      sub := s.kids[k];
      inner := BelowMerged(d, s, order, k);
    } else {
      var at := NodeAt(d.kids, s.kids, order, k);
      sub, inner := Place(s.addr, map[]), [];
      assert Addrs(sub) == {s.addr};
    }
  }

  /** A source that lies so beside the destination still does when another has been merged. */
  lemma {:induction false} LinkedStays(m: Node, d: Node, s: Node, order: seq<Visit>, v: Fields, rs: seq<Fields>)
    requires Linked(m, d, v, rs) && Apart(d, s) && Addrs(m) !! Addrs(s) && Partial(order, Contents(s.kids))
    ensures var e := MergedInto(d, s, order); Linked(Follow(m, d, e), e, v, rs + [Contents(e.kids)])
    decreases m, 0
  {
    var e := MergedInto(d, s, order);
    MergedTree(d, s, order);
    forall k | k in v
      ensures LinkedAt(FollowAt(m.kids[k], d.kids, e.kids, k), e, v[k], rs + [Contents(e.kids)], k)
    {
      assert LinkedAt(m.kids[k], d, v[k], rs, k);
      KidAddrs(m, k);
      if v[k].Table? {
        TablesAtAppend(rs, Contents(e.kids), k);
        if StillShared(rs, k) {
          SharedStays(m.kids[k], d, s, order, v[k], rs, k);
        } else if StillAdopted(rs, k) {
          AdoptedStays(m.kids[k], d, s, order, v[k], rs, k);
        } else {
          LetGoStays(m.kids[k], d, s, order, v[k], rs, k);
        }
      }
    }
  }

  /** What is left for one key of a source. */
  ghost predicate Lies(n: Node, d: Node, s: Node, order: seq<Visit>, v: Value, rs: seq<Fields>, k: string) {
    && Apart(d, s) && Addrs(n) !! Addrs(s) && Partial(order, Contents(s.kids))
    && v.Table? && |rs| >= 2 && Contents(d.kids) == rs[|rs| - 1] && LinkedAt(n, d, v, rs, k)
  }

  /** Has the destination let go of the table, or does it so now, nothing more is seen of it. */
  lemma SeenNoMore(v: Value, rs: seq<Fields>, x: Fields, k: string)
    requires v.Table? && rs != []
    requires k in x && x[k].Table? ==>
               if HadTable(rs, k) then |TablesAt(rs, k)| != |rs| else |TablesAt(rs[1..], k)| != |rs| - 1
    ensures SeenAt(v, rs + [x], k) == SeenAt(v, rs, k) && (HadTable(rs + [x], k) <==> HadTable(rs, k))
    ensures |TablesAt(rs + [x], k)| <= |rs| || !HadTable(rs, k)
    ensures |TablesAt((rs + [x])[1..], k)| < |rs| || HadTable(rs, k)
  {
    assert (rs + [x])[1..] == rs[1..] + [x];
    TablesAtAppend(rs, x, k);
    TablesAtAppend(rs[1..], x, k);
    if HadTable(rs, k) {
      assert TablesAt(rs + [x], k) == TablesAt(rs, k);
    } else {
      assert TablesAt((rs + [x])[1..], k) == TablesAt(rs[1..], k);
    }
  }

  lemma {:induction false} SharedStays(n: Node, d: Node, s: Node, order: seq<Visit>, v: Value, rs: seq<Fields>,
                                       k: string)
    requires Lies(n, d, s, order, v, rs, k) && StillShared(rs, k)
    ensures var e := MergedInto(d, s, order);
            LinkedAt(FollowAt(n, d.kids, e.kids, k), e, v, rs + [Contents(e.kids)], k)
    decreases n, 1
  {
    assert Linked(n, d.kids[k], v.fields, TablesAt(rs, k));
    var e := MergedInto(d, s, order);
    var sub, inner := DestinationAt(d, s, order, k);
    if e.kids[k].Place? {
      LinkedStays(n, d.kids[k], sub, inner, v.fields, TablesAt(rs, k));
      var after := Follow(n, d.kids[k], e.kids[k]);
      FollowAddrs(n, d.kids[k], e.kids[k]);
      StaysBeside(n, after, d, s, order, k);
      StaysShared(after, e, v, rs, k);
    } else {
      assert Contents(e.kids)[k] == Content(e.kids[k]);
      SeenNoMore(v, rs, Contents(e.kids), k);
      LetGo(n, d, s, order, k);
    }
  }

  lemma StaysShared(after: Node, e: Node, v: Value, rs: seq<Fields>, k: string)
    requires v.Table? && rs != [] && StillShared(rs, k)
    requires e.Place? && k in e.kids && e.kids[k].Place?
    requires Linked(after, e.kids[k], v.fields, TablesAt(rs, k) + [Contents(e.kids[k].kids)])
    requires Addrs(after) * Addrs(e) <= Addrs(e.kids[k])
    ensures LinkedAt(after, e, v, rs + [Contents(e.kids)], k)
  {
    ContentPlace(e.kids[k]);
    ContentPlace(after);
    TablesAtAppend(rs, Contents(e.kids), k);
    LinkedContent(after, e.kids[k], v.fields, TablesAt(rs, k) + [Contents(e.kids[k].kids)]);
  }

  /** What it shares with the destination is still below the key. */
  lemma StaysBeside(n: Node, after: Node, d: Node, s: Node, order: seq<Visit>, k: string)
    requires Apart(d, s) && Addrs(n) !! Addrs(s) && Partial(order, Contents(s.kids)) && k in d.kids
    requires Addrs(n) * Addrs(d) <= Addrs(d.kids[k]) && k in MergedInto(d, s, order).kids
    requires Addrs(after) <= Addrs(n) + Addrs(MergedInto(d, s, order).kids[k])
    ensures Addrs(after) * Addrs(MergedInto(d, s, order)) <= Addrs(MergedInto(d, s, order).kids[k])
  {
    BesideAt(d, s, order, k);
    MergedTree(d, s, order);
  }

  /** When the destination lets go of the table it has nothing of it left. */
  lemma LetGo(n: Node, d: Node, s: Node, order: seq<Visit>, k: string)
    requires Apart(d, s) && Addrs(n) !! Addrs(s) && Partial(order, Contents(s.kids)) && k in d.kids
    requires Addrs(n) * Addrs(d) <= Addrs(d.kids[k])
    requires k in MergedInto(d, s, order).kids && !MergedInto(d, s, order).kids[k].Place?
    ensures Addrs(n) !! Addrs(MergedInto(d, s, order))
  {
    BesideAt(d, s, order, k);
    MergedTree(d, s, order);
  }

  lemma AdoptedStays(n: Node, d: Node, s: Node, order: seq<Visit>, v: Value, rs: seq<Fields>, k: string)
    requires Lies(n, d, s, order, v, rs, k) && StillAdopted(rs, k)
    ensures var e := MergedInto(d, s, order);
            LinkedAt(FollowAt(n, d.kids, e.kids, k), e, v, rs + [Contents(e.kids)], k)
  {
    var e := MergedInto(d, s, order);
    var us := rs[1..];
    assert (rs + [Contents(e.kids)])[1..] == us + [Contents(e.kids)];
    TablesAtAppend(us, Contents(e.kids), k);
    var sub, inner := DestinationAt(d, s, order, k);
    if e.kids[k].Place? {
      ContentPlace(e.kids[k]);
    } else {
      assert Contents(e.kids)[k] == Content(e.kids[k]);
      SeenNoMore(v, rs, Contents(e.kids), k);
      KidAddrs(d, k);
      LetGo(n, d, s, order, k);
    }
  }

  lemma LetGoStays(n: Node, d: Node, s: Node, order: seq<Visit>, v: Value, rs: seq<Fields>, k: string)
    requires Lies(n, d, s, order, v, rs, k) && Addrs(n) !! Addrs(d)
    requires !StillShared(rs, k) && !StillAdopted(rs, k)
    ensures var e := MergedInto(d, s, order);
            LinkedAt(FollowAt(n, d.kids, e.kids, k), e, v, rs + [Contents(e.kids)], k)
  {
    var e := MergedInto(d, s, order);
    SeenNoMore(v, rs, Contents(e.kids), k);
    MergedTree(d, s, order);
    if StillAt(d.kids, e.kids, k) {
      KidAddrs(d, k);
      FollowApart(n, d.kids[k], e.kids[k]);
    }
  }

  /* ---- memory ---- */

  /** What a key of a table in memory holds. */
  datatype Cell = Text(token: string) | Ref(addr: nat)

  type Cells = map<nat, map<string, Cell>>

  function CellOf(n: Node): Cell {
    match n
    case Leaf(token) => Text(token)
    case Place(addr, _) => Ref(addr)
  }

  function Row(kids: Kids): map<string, Cell> {
    map k | k in kids :: CellOf(kids[k])
  }

  /** The document lies in memory like this. */
  ghost predicate Stored(tables: Cells, n: Node) {
    n.Place? ==>
      && n.addr in tables && tables[n.addr] == Row(n.kids)
      && forall k | k in n.kids :: Stored(tables, n.kids[k])
  }

  ghost predicate Unchanged(before: Cells, after: Cells, addrs: set<nat>) {
    forall a | a in addrs && a in before :: a in after && after[a] == before[a]
  }

  lemma {:induction false} StoredStays(before: Cells, after: Cells, n: Node)
    requires Stored(before, n) && Unchanged(before, after, Addrs(n))
    ensures Stored(after, n)
  {
    if n.Place? {
      forall k | k in n.kids ensures Stored(after, n.kids[k]) {
        KidAddrs(n, k);
        StoredStays(before, after, n.kids[k]);
      }
    }
  }

  /** Following changes no reference. */
  lemma FollowRow(m: Node, d: Node, e: Node)
    requires m.Place? && d.Place? && e.Place?
    ensures Follow(m, d, e).Place? && Follow(m, d, e).addr == m.addr && Follow(m, d, e).kids.Keys == m.kids.Keys
    ensures Row(Follow(m, d, e).kids) == Row(m.kids)
  {
    forall k | k in m.kids ensures CellOf(FollowAt(m.kids[k], d.kids, e.kids, k)) == CellOf(m.kids[k]) {
    }
  }

  /** A source is stored as following it says, when memory has changed nowhere but in the destination. */
  lemma {:induction false} FollowStored(before: Cells, after: Cells, m: Node, d: Node, s: Node, order: seq<Visit>,
                                        v: Fields, rs: seq<Fields>)
    requires Linked(m, d, v, rs) && Apart(d, s) && Addrs(m) !! Addrs(s) && Partial(order, Contents(s.kids))
    requires Stored(before, m) && Changes(before, after, m, d, s, order)
    ensures Stored(after, Follow(m, d, MergedInto(d, s, order)))
    decreases m, 0
  {
    var e := MergedInto(d, s, order);
    FollowRow(m, d, e);
    forall k | k in m.kids ensures Stored(after, FollowAt(m.kids[k], d.kids, e.kids, k)) {
      KidAddrs(m, k);
      assert LinkedAt(m.kids[k], d, v[k], rs, k);
      if v[k].Table? {
        KidStored(before, after, m.kids[k], d, s, order, v[k], rs, k);
      }
    }
  }

  /** Afterwards the destination is stored merged; of `m` only what it shares with it has changed. */
  ghost predicate Changes(before: Cells, after: Cells, m: Node, d: Node, s: Node, order: seq<Visit>)
    requires d.Place? && s.Place?
  {
    && Stored(after, MergedInto(d, s, order))
    && Unchanged(before, after, Addrs(m) - Addrs(d) * Addrs(MergedInto(d, s, order)))
  }

  lemma {:induction false} KidStored(before: Cells, after: Cells, n: Node, d: Node, s: Node, order: seq<Visit>,
                                     v: Value, rs: seq<Fields>, k: string)
    requires Lies(n, d, s, order, v, rs, k) && Stored(before, n) && Changes(before, after, n, d, s, order)
    ensures Stored(after, FollowAt(n, d.kids, MergedInto(d, s, order).kids, k))
    decreases n, 1
  {
    if StillShared(rs, k) {
      assert Linked(n, d.kids[k], v.fields, TablesAt(rs, k));
      var sub, inner := DestinationAt(d, s, order, k);
      if MergedInto(d, s, order).kids[k].Place? {
        SharedChanges(before, after, n, d, s, order, k, sub, inner);
        FollowStored(before, after, n, d.kids[k], sub, inner, v.fields, TablesAt(rs, k));
      } else {
        LetGo(n, d, s, order, k);
        StoredStays(before, after, n);
      }
    } else if StillAdopted(rs, k) {
      AdoptedStored(before, after, n, d, s, order, k);
    } else {
      LetGoStored(before, after, n, d, s, order, k);
    }
  }

  lemma AdoptedStored(before: Cells, after: Cells, n: Node, d: Node, s: Node, order: seq<Visit>, k: string)
    requires Apart(d, s) && Addrs(n) !! Addrs(s) && Partial(order, Contents(s.kids))
    requires n.Place? && k in d.kids && d.kids[k] == n
    requires Stored(before, n) && Changes(before, after, n, d, s, order)
    ensures Stored(after, FollowAt(n, d.kids, MergedInto(d, s, order).kids, k))
  {
    var sub, inner := DestinationAt(d, s, order, k);
    if !MergedInto(d, s, order).kids[k].Place? {
      KidAddrs(d, k);
      LetGo(n, d, s, order, k);
      StoredStays(before, after, n);
    }
  }

  lemma LetGoStored(before: Cells, after: Cells, n: Node, d: Node, s: Node, order: seq<Visit>, k: string)
    requires Apart(d, s) && n.Place? && Addrs(n) !! Addrs(d)
    requires Stored(before, n) && Changes(before, after, n, d, s, order)
    ensures Stored(after, FollowAt(n, d.kids, MergedInto(d, s, order).kids, k))
  {
    var e := MergedInto(d, s, order);
    StoredStays(before, after, n);
    if StillAt(d.kids, e.kids, k) {
      KidAddrs(d, k);
      FollowApart(n, d.kids[k], e.kids[k]);
    }
  }

  /** What of it can change is below the key. */
  lemma SharedChanges(before: Cells, after: Cells, n: Node, d: Node, s: Node, order: seq<Visit>, k: string, sub: Node,
                      inner: seq<Visit>)
    requires Apart(d, s) && Addrs(n) !! Addrs(s) && Partial(order, Contents(s.kids)) && k in d.kids
    requires Addrs(n) * Addrs(d) <= Addrs(d.kids[k]) && k in MergedInto(d, s, order).kids
    requires d.kids[k].Place? && sub.Place? && MergedInto(d, s, order).kids[k] == MergedInto(d.kids[k], sub, inner)
    requires Changes(before, after, n, d, s, order)
    ensures Changes(before, after, n, d.kids[k], sub, inner)
  {
    BesideAt(d, s, order, k);
  }

  /* ---- one merge in memory ---- */

  /** Memory has changed nowhere but in the destination itself and in what both documents have at keys that
      have been visited. */
  ghost predicate ChangedBy(before: Cells, after: Cells, d: Node, kids: Kids, order: seq<Visit>)
    requires d.Place?
  {
    && before.Keys == after.Keys
    && forall a | a in before && after[a] != before[a] :: a == d.addr || ChangedAt(d, kids, order, a)
  }

  ghost predicate ChangedAt(d: Node, kids: Kids, order: seq<Visit>, a: nat)
    requires d.Place?
  {
    exists k :: Visited(order, k) && a in AddrsIn(d.kids, k) && a in AddrsIn(kids, k)
  }

  lemma ChangedInside(before: Cells, after: Cells, d: Node, kids: Kids, order: seq<Visit>)
    requires d.Place? && ChangedBy(before, after, d, kids, order)
    ensures forall a | a in before && after[a] != before[a] :: a in Addrs(d) * Addrs(Place(d.addr, kids))
  {
    forall a | a in before && after[a] != before[a] ensures a in Addrs(d) * Addrs(Place(d.addr, kids)) {
      if a != d.addr {
        var k :| Visited(order, k) && a in AddrsIn(d.kids, k) && a in AddrsIn(kids, k);
        KidAddrs(d, k);
        KidAddrs(Place(d.addr, kids), k);
      }
    }
  }

  /** The source is untouched by it. */
  lemma SourceStored(before: Cells, after: Cells, d: Node, s: Node, kids: Kids, order: seq<Visit>)
    requires Apart(d, s) && Stored(before, s) && ChangedBy(before, after, d, kids, order)
    ensures Stored(after, s)
  {
    ChangedInside(before, after, d, kids, order);
    StoredStays(before, after, s);
  }

  /** Where the loop stands. */
  ghost predicate Stands(before: Cells, now: Cells, d: Node, s: Node, order: seq<Visit>, p: Merging) {
    && Apart(d, s) && Stored(before, s) && Partial(order, Contents(s.kids))
    && p == MergeNodes(d.kids, s.kids, order)
    && Stored(now, Place(d.addr, p.kids)) && ChangedBy(before, now, d, p.kids, order)
  }

  lemma TakeNode(dst: Kids, src: Kids, order: seq<Visit>, v: Visit) returns (more: seq<Visit>)
    requires Partial(order, Contents(src)) && VisitOk(v, Contents(src)) && !Visited(order, v.key)
    requires !MergeNodes(dst, src, order).stopped
    ensures Partial(more, Contents(src)) && forall k :: Visited(more, k) <==> Visited(order, k) || k == v.key
    ensures more == order + [v] && MergeNodes(dst, src, more) == StepNode(MergeNodes(dst, src, order), src, v)
  {
    more := AddVisit(Contents(src), order, v);
    assert more[..|more| - 1] == order;
  }

  /** One more key visited, nothing else touched. */
  lemma ChangedMore(before: Cells, now: Cells, after: Cells, d: Node, kids: Kids, order: seq<Visit>, k: string, n: Node,
                    more: seq<Visit>)
    requires d.Place? && ChangedBy(before, now, d, kids, order) && !Visited(order, k)
    requires forall l :: Visited(more, l) <==> Visited(order, l) || l == k
    requires now.Keys == after.Keys
    requires forall a | a in now && after[a] != now[a] :: a == d.addr || a in AddrsIn(d.kids, k) * Addrs(n)
    ensures ChangedBy(before, after, d, kids[k := n], more)
  {
    forall a | a in before && after[a] != before[a] && a != d.addr ensures ChangedAt(d, kids[k := n], more, a) {
      if after[a] == now[a] {
        var l :| Visited(order, l) && a in AddrsIn(d.kids, l) && a in AddrsIn(kids, l);
        assert Visited(more, l) && a in AddrsIn(kids[k := n], l);
      } else {
        assert Visited(more, k) && a in AddrsIn(kids[k := n], k);
      }
    }
  }

  /** A reference or a leaf taken over. */
  lemma TookOver(before: Cells, now: Cells, d: Node, s: Node, order: seq<Visit>, p: Merging, k: string)
    requires Stands(before, now, d, s, order, p) && k in s.kids
    ensures Stored(now[d.addr := Row(p.kids)[k := Row(s.kids)[k]]], Place(d.addr, p.kids[k := s.kids[k]]))
  {
    TakenKids(before, now, d, s, order, p, k);
    RowUpdate(p.kids, k, s.kids[k]);
  }

  lemma RowUpdate(kids: Kids, k: string, n: Node)
    ensures Row(kids[k := n]) == Row(kids)[k := CellOf(n)]
  {
  }

  ghost predicate KidsStored(tables: Cells, kids: Kids) {
    forall k | k in kids :: Stored(tables, kids[k])
  }

  lemma TakenKids(before: Cells, now: Cells, d: Node, s: Node, order: seq<Visit>, p: Merging, k: string)
    requires Stands(before, now, d, s, order, p) && k in s.kids
    ensures d.addr in now && now[d.addr] == Row(p.kids)
    ensures KidsStored(now[d.addr := Row(p.kids)[k := Row(s.kids)[k]]], p.kids[k := s.kids[k]])
  {
    var kids, after := p.kids[k := s.kids[k]], now[d.addr := Row(p.kids)[k := Row(s.kids)[k]]];
    forall l | l in kids ensures Stored(after, kids[l]) {
      if l == k {
        TakenStored(before, now, after, d, s, order, p, k);
      } else {
        OtherStored(now, after, d, s, order, l, {d.addr});
      }
    }
  }

  lemma TakenStored(before: Cells, now: Cells, after: Cells, d: Node, s: Node, order: seq<Visit>, p: Merging, k: string)
    requires Stands(before, now, d, s, order, p) && k in s.kids
    requires forall a | a in now && a != d.addr :: a in after && after[a] == now[a]
    ensures Stored(after, s.kids[k])
  {
    SourceStored(before, now, d, s, p.kids, order);
    KidAddrs(s, k);
    StoredStays(now, after, s.kids[k]);
  }

  /** What lies below other keys stays stored. */
  lemma OtherStored(now: Cells, after: Cells, d: Node, s: Node, order: seq<Visit>, l: string, changed: set<nat>)
    requires Apart(d, s) && Partial(order, Contents(s.kids)) && l in MergedInto(d, s, order).kids
    requires Stored(now, MergedInto(d, s, order).kids[l]) && changed !! Under(d, s, l)
    requires forall a | a in now && a !in changed :: a in after && after[a] == now[a]
    ensures Stored(after, MergedInto(d, s, order).kids[l])
  {
    MergedKid(d, s, order, l);
    StoredStays(now, after, MergedInto(d, s, order).kids[l]);
  }

  /** A table merged into the destination's. */
  lemma MergedBelow(before: Cells, now: Cells, after: Cells, d: Node, s: Node, order: seq<Visit>, p: Merging, k: string,
                    kid: Node)
    requires Stands(before, now, d, s, order, p) && BothPlaces(d.kids, s.kids, k)
    requires k in p.kids && p.kids[k] == d.kids[k] && kid.Place? && kid.addr == d.kids[k].addr
    requires Stored(after, kid) && now.Keys == after.Keys
    requires forall a | a in now && after[a] != now[a] :: a in Addrs(d.kids[k])
    ensures Stored(after, Place(d.addr, p.kids[k := kid]))
  {
    OthersStored(now, after, d, s, order, p, k);
    RowUpdate(p.kids, k, kid);
    assert Row(p.kids)[k := CellOf(kid)] == Row(p.kids) && after[d.addr] == now[d.addr];
  }

  lemma OthersStored(now: Cells, after: Cells, d: Node, s: Node, order: seq<Visit>, p: Merging, k: string)
    requires Apart(d, s) && Partial(order, Contents(s.kids)) && p == MergeNodes(d.kids, s.kids, order)
    requires KidsStored(now, p.kids) && k in d.kids
    requires forall a | a in now && a !in Addrs(d.kids[k]) :: a in after && after[a] == now[a]
    ensures forall l | l in p.kids && l != k :: Stored(after, p.kids[l])
  {
    KeysApart(d, s);
    forall l | l in p.kids && l != k ensures Stored(after, p.kids[l]) {
      OtherStored(now, after, d, s, order, l, Addrs(d.kids[k]));
    }
  }

  lemma {:induction false} NodesStopped(dst: Kids, src: Kids, order: seq<Visit>, more: seq<Visit>)
    requires MergeNodes(dst, src, order).stopped
    ensures MergeNodes(dst, src, order + more) == MergeNodes(dst, src, order)
  {
    if more == [] {
      assert order + more == order;
    } else {
      assert (order + more)[..|order + more| - 1] == order + more[..|more| - 1];
      NodesStopped(dst, src, order, more[..|more| - 1]);
    }
  }

  /** What the merge has done when nothing is left to visit, or when it has been ended: what would be visited
      then does not matter. */
  lemma Ended(before: Cells, now: Cells, d: Node, s: Node, order: seq<Visit>, p: Merging, todo: set<string>)
    returns (all: seq<Visit>)
    requires Stands(before, now, d, s, order, p) && (todo == {} || p.stopped) && todo <= s.kids.Keys
    requires forall k :: Visited(order, k) <==> k in s.kids && k !in todo
    ensures Done(before, now, d, s, all, p.ok)
  {
    all := order;
    if todo != {} {
      var rest := SomeVisits(Contents(s.kids), todo);
      NodesStopped(d.kids, s.kids, order, rest);
      all := JoinVisits(Contents(s.kids), order, rest);
    }
    ChangedInside(before, now, d, p.kids, order);
  }

  /** A whole merge has been carried out in memory, touching nothing but tables of the destination that are still
      there. */
  ghost predicate Done(before: Cells, after: Cells, d: Node, s: Node, order: seq<Visit>, ok: bool)
    requires d.Place? && s.Place?
  {
    && Iterates(order, Contents(s.kids)) && ok == MergeNodes(d.kids, s.kids, order).ok
    && Stored(after, MergedInto(d, s, order)) && before.Keys == after.Keys
    && forall a | a in before && after[a] != before[a] :: a in Addrs(d) * Addrs(MergedInto(d, s, order))
  }

  /** A key whose table is merged into the destination's. */
  lemma TableStep(before: Cells, now: Cells, after: Cells, d: Node, s: Node, order: seq<Visit>, p: Merging, k: string,
                  inner: seq<Visit>, ok: bool)
    returns (more: seq<Visit>, q: Merging)
    requires Stands(before, now, d, s, order, p) && !p.stopped && BothPlaces(d.kids, s.kids, k) && !Visited(order, k)
    requires k in p.kids && p.kids[k] == d.kids[k] && Done(now, after, d.kids[k], s.kids[k], inner, ok)
    ensures forall l :: Visited(more, l) <==> Visited(order, l) || l == k
    ensures Stands(before, after, d, s, more, q) && q.ok == (p.ok && ok) && q.stopped == !ok
  {
    ContentPlace(s.kids[k]);
    assert Contents(s.kids)[k] == Content(s.kids[k]);
    more := TakeNode(d.kids, s.kids, order, Visit(k, inner));
    q := StepNode(p, s.kids, Visit(k, inner));
    var kid := MergedInto(d.kids[k], s.kids[k], inner);
    MergedBelow(before, now, after, d, s, order, p, k, kid);
    ChangedMore(before, now, after, d, p.kids, order, k, kid, more);
  }

  /** A row after one key has been taken over, unless it is there already. */
  function Taken(row: map<string, Cell>, k: string, v: Cell): map<string, Cell> {
    if k in row && row[k] == v then row else row[k := v]
  }

  /** Any other key. */
  lemma LeafStep(before: Cells, now: Cells, d: Node, s: Node, order: seq<Visit>, p: Merging, k: string)
    returns (more: seq<Visit>, q: Merging)
    requires Stands(before, now, d, s, order, p) && !p.stopped && k in s.kids && !Visited(order, k)
    requires !BothPlaces(p.kids, s.kids, k)
    ensures d.addr in now && k in Row(s.kids) && now[d.addr] == Row(p.kids)
    ensures forall l :: Visited(more, l) <==> Visited(order, l) || l == k
    ensures Stands(before, now[d.addr := Taken(now[d.addr], k, Row(s.kids)[k])], d, s, more, q)
    ensures !q.stopped && q.ok == (p.ok && (k !in p.kids || Row(p.kids)[k] == Row(s.kids)[k]))
  {
    var inner := InnerOrder(Contents(s.kids), k);
    more := TakeNode(d.kids, s.kids, order, Visit(k, inner));
    q := StepNode(p, s.kids, Visit(k, inner));
    LeafInMemory(before, now, d, s, order, p, k, more);
  }

  lemma LeafInMemory(before: Cells, now: Cells, d: Node, s: Node, order: seq<Visit>, p: Merging, k: string,
                     more: seq<Visit>)
    requires Stands(before, now, d, s, order, p) && k in s.kids && !Visited(order, k)
    requires forall l :: Visited(more, l) <==> Visited(order, l) || l == k
    ensures d.addr in now && now[d.addr] == Row(p.kids) && k in Row(s.kids)
    ensures var kept := k in p.kids && Row(p.kids)[k] == Row(s.kids)[k];
            var kids := if kept then p.kids else p.kids[k := s.kids[k]];
            var after := now[d.addr := Taken(now[d.addr], k, Row(s.kids)[k])];
            Stored(after, Place(d.addr, kids)) && ChangedBy(before, after, d, kids, more)
  {
    if k in p.kids && Row(p.kids)[k] == Row(s.kids)[k] {
      ChangedMore(before, now, now, d, p.kids, order, k, p.kids[k], more);
      assert p.kids[k := p.kids[k]] == p.kids && now[d.addr := now[d.addr]] == now;
    } else {
      TookOver(before, now, d, s, order, p, k);
      ChangedMore(before, now, now[d.addr := Row(p.kids)[k := Row(s.kids)[k]]], d, p.kids, order, k, s.kids[k], more);
    }
  }

  /** A key not visited is as it was, in memory as in the documents. */
  lemma Unvisited(before: Cells, now: Cells, d: Node, s: Node, order: seq<Visit>, p: Merging, k: string)
    requires Stands(before, now, d, s, order, p) && k in s.kids && !Visited(order, k)
    ensures d.addr in now && s.addr in now && now[s.addr] == Row(s.kids) && now[d.addr] == Row(p.kids)
    ensures Kept(p.kids, d.kids, k) && (k in p.kids <==> k in now[d.addr])
    ensures BothPlaces(d.kids, s.kids, k) ==> Mergeable(now, d.kids[k], s.kids[k])
  {
    SourceStored(before, now, d, s, p.kids, order);
    UnvisitedKept(d.kids, s.kids, order, k);
    if BothPlaces(d.kids, s.kids, k) {
      KidsApart(d, s, k);
    }
  }

  ghost predicate Mergeable(tables: Cells, d: Node, s: Node) {
    Apart(d, s) && Stored(tables, d) && Stored(tables, s)
  }

  /* ---- merging all sources in memory ---- */

  function KidsOf(n: Node): Kids {
    if n.Place? then n.kids else map[]
  }

  /** The destination at `out` once these sources have been merged into it. */
  function Destination(out: nat, ss: seq<Node>, orders: seq<seq<Visit>>): (r: Node)
    requires |orders| == |ss|
    ensures r.Place? && r.addr == out
  {
    if ss == [] then Place(out, map[])
    else
      var d := Destination(out, ss[..|ss| - 1], orders[..|ss| - 1]);
      Place(out, MergeNodes(d.kids, KidsOf(ss[|ss| - 1]), orders[|ss| - 1]).kids)
  }

  /** A source once these have been merged. */
  function Later(out: nat, ss: seq<Node>, orders: seq<seq<Visit>>, i: nat): Node
    requires i < |ss| == |orders|
  {
    var n := |ss| - 1;
    if i == n then ss[n]
    else
      Follow(Later(out, ss[..n], orders[..n], i), Destination(out, ss[..n], orders[..n]), Destination(out, ss, orders))
  }

  /** The sources lie in memory without sharing a table, and not in the destination. */
  ghost predicate LieApart(out: nat, ss: seq<Node>, s: seq<Source>) {
    && |ss| == |s|
    && (forall i | 0 <= i < |ss| :: LiesApart(out, ss[i], s[i]))
    && forall i, j | 0 <= i < j < |ss| :: Addrs(ss[i]) !! Addrs(ss[j])
  }

  ghost predicate LiesApart(out: nat, n: Node, s: Source) {
    n.Place? && Tree(n) && out !in Addrs(n) && Contents(n.kids) == s.fields
  }

  /** The destination's own table and all of the sources'. */
  ghost function AddrsOf(out: nat, ss: seq<Node>): set<nat> {
    if ss == [] then {out} else AddrsOf(out, ss[..|ss| - 1]) + Addrs(ss[|ss| - 1])
  }

  lemma {:induction false} AddrsAway(out: nat, ss: seq<Node>, x: set<nat>)
    requires out !in x && forall i | 0 <= i < |ss| :: Addrs(ss[i]) !! x
    ensures AddrsOf(out, ss) !! x
  {
    if ss != [] {
      AddrsAway(out, ss[..|ss| - 1], x);
    }
  }

  lemma SourcesPrefix(out: nat, ss: seq<Node>, s: seq<Source>, orders: seq<seq<Visit>>)
    requires ss != [] && LieApart(out, ss, s) && Orders(orders, s)
    ensures var n := |ss| - 1;
            && LieApart(out, ss[..n], s[..n]) && Orders(orders[..n], s[..n])
            && AddrsOf(out, ss[..n]) !! Addrs(ss[n])
  {
    OrdersPrefix(orders, s);
    AddrsAway(out, ss[..|ss| - 1], Addrs(ss[|ss| - 1]));
  }

  /** The destination is a tree with the merged contents, made of its own table and the sources'. */
  lemma {:induction false} DestinationExact(out: nat, ss: seq<Node>, s: seq<Source>, orders: seq<seq<Visit>>)
    requires LieApart(out, ss, s) && Orders(orders, s)
    ensures Tree(Destination(out, ss, orders)) && Contents(Destination(out, ss, orders).kids) == FoldBy(s, orders)
    ensures Addrs(Destination(out, ss, orders)) <= AddrsOf(out, ss)
  {
    if ss != [] {
      var n := |ss| - 1;
      SourcesPrefix(out, ss, s, orders);
      DestinationExact(out, ss[..n], s[..n], orders[..n]);
      var d := Destination(out, ss[..n], orders[..n]);
      MergedTree(d, ss[n], orders[n]);
      MergeContents(d.kids, ss[n].kids, orders[n]);
    }
  }

  lemma LastApart(out: nat, ss: seq<Node>, s: seq<Source>, orders: seq<seq<Visit>>)
    requires ss != [] && LieApart(out, ss, s) && Orders(orders, s)
    ensures var n := |ss| - 1; var d := Destination(out, ss[..n], orders[..n]);
            && Apart(d, ss[n]) && Contents(d.kids) == FoldBy(s[..n], orders[..n])
            && Iterates(orders[n], Contents(ss[n].kids))
            && Destination(out, ss, orders) == MergedInto(d, ss[n], orders[n])
  {
    SourcesPrefix(out, ss, s, orders);
    DestinationExact(out, ss[..|ss| - 1], s[..|ss| - 1], orders[..|ss| - 1]);
  }

  lemma TraceTail(s: seq<Source>, orders: seq<seq<Visit>>, i: nat)
    requires s != [] && |orders| == |s| && i < |s|
    ensures Trace(s, orders)[i..] == Trace(s[..|s| - 1], orders[..|s| - 1])[i..] + [FoldBy(s, orders)]
    ensures i == |s| - 1 ==> Trace(s, orders)[i..] == [FoldBy(s[..i], orders[..i]), FoldBy(s, orders)]
  {
    var p := Trace(s[..|s| - 1], orders[..|s| - 1]);
    assert Trace(s, orders) == p + [FoldBy(s, orders)];
  }

  lemma {:induction false} LaterAddrs(out: nat, ss: seq<Node>, s: seq<Source>, orders: seq<seq<Visit>>, i: nat)
    requires LieApart(out, ss, s) && Orders(orders, s) && i < |ss|
    ensures Addrs(Later(out, ss, orders, i)) <= AddrsOf(out, ss)
  {
    var n := |ss| - 1;
    if i < n {
      SourcesPrefix(out, ss, s, orders);
      LaterAddrs(out, ss[..n], s[..n], orders[..n], i);
      DestinationExact(out, ss, s, orders);
      var d, e := Destination(out, ss[..n], orders[..n]), Destination(out, ss, orders);
      FollowAddrs(Later(out, ss[..n], orders[..n], i), d, e);
    }
  }

  /** Every merged source lies beside the destination as its trace says. */
  lemma {:induction false} LaterLinked(out: nat, ss: seq<Node>, s: seq<Source>, orders: seq<seq<Visit>>, i: nat)
    requires LieApart(out, ss, s) && Orders(orders, s) && i < |ss|
    ensures Linked(Later(out, ss, orders, i), Destination(out, ss, orders), s[i].fields, Trace(s, orders)[i..])
  {
    var n := |ss| - 1;
    var d := Destination(out, ss[..n], orders[..n]);
    LastApart(out, ss, s, orders);
    TraceTail(s, orders, i);
    DestinationExact(out, ss, s, orders);
    if i == n {
      LinkedOnMerge(d, ss[n], orders[n]);
    } else {
      SourcesPrefix(out, ss, s, orders);
      LaterLinked(out, ss[..n], s[..n], orders[..n], i);
      LaterAddrs(out, ss[..n], s[..n], orders[..n], i);
      var m, rs := Later(out, ss[..n], orders[..n], i), Trace(s[..n], orders[..n])[i..];
      LinkedStays(m, d, ss[n], orders[n], s[i].fields, rs);
    }
  }

  /** What is read of a source in the end is what the model on values says. */
  lemma LaterExact(out: nat, ss: seq<Node>, s: seq<Source>, orders: seq<seq<Visit>>, i: nat)
    requires LieApart(out, ss, s) && Orders(orders, s) && i < |ss|
    ensures var m := Later(out, ss, orders, i);
            m.Place? && Contents(m.kids) == LeftBy(s, Trace(s, orders))[i].fields
  {
    LaterLinked(out, ss, s, orders, i);
    LinkedContent(Later(out, ss, orders, i), Destination(out, ss, orders), s[i].fields, Trace(s, orders)[i..]);
    LeftAt(s, Trace(s, orders), i);
  }

  /** After as many merges as there are orders: the destination, the merged sources and the others. */
  ghost predicate Holds(tables: Cells, out: nat, ss: seq<Node>, orders: seq<seq<Visit>>) {
    var j := |orders|;
    && j <= |ss| && Stored(tables, Destination(out, ss[..j], orders))
    && (forall i | 0 <= i < j :: Stored(tables, Later(out, ss[..j], orders, i)))
    && forall i | j <= i < |ss| :: Stored(tables, ss[i])
  }

  lemma PartApart(out: nat, ss: seq<Node>, s: seq<Source>, j: nat)
    requires LieApart(out, ss, s) && j <= |ss|
    ensures LieApart(out, ss[..j], s[..j])
    ensures forall i | j <= i < |ss| :: AddrsOf(out, ss[..j]) !! Addrs(ss[i])
  {
    forall i | j <= i < |ss| ensures AddrsOf(out, ss[..j]) !! Addrs(ss[i]) {
      AddrsAway(out, ss[..j], Addrs(ss[i]));
    }
  }

  /** The next merge finds its two documents apart, and says whether they collide. */
  lemma NextApart(out: nat, ss: seq<Node>, s: seq<Source>, orders: seq<seq<Visit>>)
    requires LieApart(out, ss, s) && |orders| < |ss| && Orders(orders, s[..|orders|])
    ensures var d, m := Destination(out, ss[..|orders|], orders), ss[|orders|];
            && Apart(d, m) && Addrs(d) <= AddrsOf(out, ss[..|orders|])
            && Contents(d.kids) == FoldBy(s[..|orders|], orders) && Contents(m.kids) == s[|orders|].fields
  {
    PartApart(out, ss, s, |orders|);
    DestinationExact(out, ss[..|orders|], s[..|orders|], orders);
  }

  lemma NextDestination(out: nat, ss: seq<Node>, orders: seq<seq<Visit>>, order: seq<Visit>)
    requires |orders| < |ss| && ss[|orders|].Place?
    ensures var j := |orders|; var d := Destination(out, ss[..j], orders);
            && Destination(out, ss[..j + 1], orders + [order]) == MergedInto(d, ss[j], order)
            && Later(out, ss[..j + 1], orders + [order], j) == ss[j]
            && forall i | 0 <= i < j :: Later(out, ss[..j + 1], orders + [order], i)
                                     == Follow(Later(out, ss[..j], orders, i), d, MergedInto(d, ss[j], order))
  {
    var j := |orders|;
    assert ss[..j + 1][..j] == ss[..j] && (orders + [order])[..j] == orders;
  }

  /** One more merge. */
  lemma HoldsNext(before: Cells, after: Cells, out: nat, ss: seq<Node>, s: seq<Source>, orders: seq<seq<Visit>>,
                  order: seq<Visit>, ok: bool)
    requires LieApart(out, ss, s) && |orders| < |ss| && Orders(orders, s[..|orders|]) && Holds(before, out, ss, orders)
    requires Done(before, after, Destination(out, ss[..|orders|], orders), ss[|orders|], order, ok)
    ensures Holds(after, out, ss, orders + [order])
  {
    var j := |orders|;
    NextApart(out, ss, s, orders);
    NextDestination(out, ss, orders, order);
    PartApart(out, ss, s, j);
    var more, os := ss[..j + 1], orders + [order];
    forall i | 0 <= i < j ensures Stored(after, Later(out, more, os, i)) {
      MergedStored(before, after, out, ss, s, orders, order, ok, i);
    }
    forall i | j <= i < |ss| ensures Stored(after, ss[i]) {
      StoredStays(before, after, ss[i]);
    }
  }

  lemma MergedStored(before: Cells, after: Cells, out: nat, ss: seq<Node>, s: seq<Source>, orders: seq<seq<Visit>>,
                     order: seq<Visit>, ok: bool, i: nat)
    requires LieApart(out, ss, s) && i < |orders| < |ss| && Orders(orders, s[..|orders|])
    requires Stored(before, Later(out, ss[..|orders|], orders, i))
    requires Done(before, after, Destination(out, ss[..|orders|], orders), ss[|orders|], order, ok)
    ensures var d := Destination(out, ss[..|orders|], orders);
            Stored(after, Follow(Later(out, ss[..|orders|], orders, i), d, MergedInto(d, ss[|orders|], order)))
  {
    var j := |orders|;
    NextApart(out, ss, s, orders);
    PartApart(out, ss, s, j);
    LaterLinked(out, ss[..j], s[..j], orders, i);
    LaterAddrs(out, ss[..j], s[..j], orders, i);
    FollowStored(before, after, Later(out, ss[..j], orders, i), Destination(out, ss[..j], orders), ss[j], order,
                 s[i].fields, Trace(s[..j], orders)[i..]);
  }

  /** What is read at an address. */
  ghost predicate Reads(tables: Cells, addr: nat, f: Fields) {
    exists n: Node :: n.Place? && n.addr == addr && Stored(tables, n) && Contents(n.kids) == f
  }

  lemma {:induction false} LaterPlace(out: nat, ss: seq<Node>, orders: seq<seq<Visit>>, i: nat)
    requires i < |ss| == |orders| && ss[i].Place?
    ensures Later(out, ss, orders, i).Place? && Later(out, ss, orders, i).addr == ss[i].addr
  {
    if i < |ss| - 1 {
      LaterPlace(out, ss[..|ss| - 1], orders[..|ss| - 1], i);
    }
  }

  /** What memory holds is what the model on values says, of the result and of every source. */
  lemma HeldIsRead(tables: Cells, out: nat, ss: seq<Node>, s: seq<Source>, orders: seq<seq<Visit>>)
    requires LieApart(out, ss, s) && Holds(tables, out, ss, orders) && Orders(orders, s[..|orders|])
    ensures Reads(tables, out, FoldBy(s[..|orders|], orders))
    ensures forall i | 0 <= i < |ss| ::
              Reads(tables, ss[i].addr, LeftBy(s, Trace(s[..|orders|], orders))[i].fields)
  {
    var j := |orders|;
    PartApart(out, ss, s, j);
    DestinationExact(out, ss[..j], s[..j], orders);
    forall i | 0 <= i < |ss| ensures Reads(tables, ss[i].addr, LeftBy(s, Trace(s[..j], orders))[i].fields) {
      LeftAt(s, Trace(s[..j], orders), i);
      if i < j {
        LaterExact(out, ss[..j], s[..j], orders, i);
        LaterPlace(out, ss[..j], orders, i);
        LeftAt(s[..j], Trace(s[..j], orders), i);
      } else {
        assert ss[i].Place?;
      }
    }
  }

  lemma {:induction false} StoredAddrs(tables: Cells, n: Node)
    requires Stored(tables, n)
    ensures Addrs(n) <= tables.Keys
  {
    if n.Place? {
      forall k | k in n.kids ensures Addrs(n.kids[k]) <= tables.Keys {
        StoredAddrs(tables, n.kids[k]);
      }
    }
  }

  /** The sources' tables, at these addresses and sharing nothing. */
  ghost predicate Sources(tables: Cells, ordered: seq<nat>, ss: seq<Node>, s: seq<Source>) {
    && |ordered| == |ss| == |s|
    && (forall i | 0 <= i < |ss| :: SourceAt(tables, ordered[i], ss[i], s[i]))
    && forall i, j | 0 <= i < j < |ss| :: Addrs(ss[i]) !! Addrs(ss[j])
  }

  ghost predicate SourceAt(tables: Cells, addr: nat, n: Node, s: Source) {
    n.Place? && n.addr == addr && Tree(n) && Stored(tables, n) && Contents(n.kids) == s.fields
  }

  /** A new table. */
  lemma Fresh(tables: Cells, out: nat, ordered: seq<nat>, ss: seq<Node>, s: seq<Source>)
    requires Sources(tables, ordered, ss, s) && out !in tables
    ensures LieApart(out, ss, s) && Holds(tables[out := map[]], out, ss, [])
  {
    forall i | 0 <= i < |ss| ensures LiesApart(out, ss[i], s[i]) && Stored(tables[out := map[]], ss[i]) {
      assert SourceAt(tables, ordered[i], ss[i], s[i]);
      StoredAddrs(tables, ss[i]);
      StoredStays(tables, tables[out := map[]], ss[i]);
    }
    assert ss[..0] == [];
  }

  /** Where the loop over the sources stands. */
  ghost predicate Underway(tables: Cells, out: nat, ss: seq<Node>, s: seq<Source>, orders: seq<seq<Visit>>,
                           complete: bool) {
    && LieApart(out, ss, s) && |orders| <= |ss| && Orders(orders, s[..|orders|]) && Holds(tables, out, ss, orders)
    && (!complete ==> PairwiseCompatible(s[..|orders|]))
  }

  lemma NextMergeable(tables: Cells, out: nat, ss: seq<Node>, s: seq<Source>, orders: seq<seq<Visit>>, complete: bool)
    requires Underway(tables, out, ss, s, orders, complete) && |orders| < |ss|
    ensures Mergeable(tables, Destination(out, ss[..|orders|], orders), ss[|orders|])
  {
    NextApart(out, ss, s, orders);
  }

  lemma NextStep(before: Cells, after: Cells, out: nat, ss: seq<Node>, s: seq<Source>, orders: seq<seq<Visit>>,
                 order: seq<Visit>, ok: bool, complete: bool)
    requires Underway(before, out, ss, s, orders, complete) && |orders| < |ss|
    requires Done(before, after, Destination(out, ss[..|orders|], orders), ss[|orders|], order, ok)
    ensures Orders(orders + [order], s[..|orders| + 1]) && Holds(after, out, ss, orders + [order])
    ensures !complete ==> (ok <==> PairwiseCompatible(s[..|orders| + 1]))
  {
    var d, m := Destination(out, ss[..|orders|], orders), ss[|orders|];
    NextApart(out, ss, s, orders);
    HoldsNext(before, after, out, ss, s, orders, order, ok);
    MergeContents(d.kids, m.kids, order);
    MergeExact(Contents(d.kids), Contents(m.kids), order);
    FoldStep(s, |orders|, orders, order);
    if !complete {
      NextAgrees(s, |orders|, orders);
    }
  }

  /** What the method promises. */
  ghost predicate AsOnValues(tables: Cells, out: nat, ordered: seq<nat>, s: seq<Source>, orders: seq<seq<Visit>>,
                             complete: bool, refused: bool)
    requires |ordered| == |s|
  {
    && Orders(orders, s) && (refused <==> !complete && !PairwiseCompatible(s))
    && (!refused ==> Reads(tables, out, FoldBy(s, orders)))
    && forall i | 0 <= i < |s| :: Reads(tables, ordered[i], Rewritten(s, orders, complete)[i].fields)
  }

  /** A collision without a complete rank. */
  lemma RefusedInMemory(tables: Cells, out: nat, ordered: seq<nat>, ss: seq<Node>, s: seq<Source>,
                        orders: seq<seq<Visit>>, j: nat)
    returns (all: seq<seq<Visit>>)
    requires LieApart(out, ss, s) && |ordered| == |ss| && forall i | 0 <= i < |ss| :: ss[i].addr == ordered[i]
    requires j < |ss| && |orders| == j + 1 && Orders(orders, s[..j + 1]) && Holds(tables, out, ss, orders)
    requires PairwiseCompatible(s[..j]) && !PairwiseCompatible(s[..j + 1])
    ensures AsOnValues(tables, out, ordered, s, all, false, true)
  {
    var trace := Trace(s[..j + 1], orders);
    HeldIsRead(tables, out, ss, s, orders);
    all := RefusedHere(s, j, orders, trace);
    forall i | 0 <= i < |s| ensures Reads(tables, ordered[i], Rewritten(s, all, false)[i].fields) {
      assert Reads(tables, ss[i].addr, LeftBy(s, trace)[i].fields);
    }
  }

  lemma AllInMemory(tables: Cells, out: nat, ordered: seq<nat>, ss: seq<Node>, s: seq<Source>, orders: seq<seq<Visit>>,
                    complete: bool)
    requires Underway(tables, out, ss, s, orders, complete) && |orders| == |ordered| == |ss|
    requires forall i | 0 <= i < |ss| :: ss[i].addr == ordered[i]
    ensures AsOnValues(tables, out, ordered, s, orders, complete, false)
  {
    assert s[..|s|] == s;
    HeldIsRead(tables, out, ss, s, orders);
    ReachedAll(s, complete);
    assert Trace(s, orders)[..|s| + 1] == Trace(s, orders);
  }

  class Memory {
    var tables: Cells
    var next: nat

    constructor ()
      ensures tables == map[] && next == 0
    {
      tables, next := map[], 0;
    }

    /** Merges the table at `src` into the one at `dst`, key by key, in whatever order `range` yields. `d` and `s`
        are how the two lie in memory. */
    method DeepMergeInto(dst: nat, src: nat, ghost d: Node, ghost s: Node) returns (ok: bool, ghost order: seq<Visit>)
      requires Mergeable(tables, d, s) && d.addr == dst && s.addr == src
      modifies this`tables
      ensures Done(old(tables), tables, d, s, order, ok)
      decreases s, 1
    {
      ok, order := true, [];
      var todo := tables[src].Keys;
      ghost var p, before := Merging(d.kids, true, false), tables;
      while todo != {}
        invariant todo <= s.kids.Keys && forall k :: Visited(order, k) <==> k in s.kids && k !in todo
        invariant Stands(before, tables, d, s, order, p) && p.ok == ok && !p.stopped
        decreases todo
      {
        var k :| k in todo;
        todo := todo - {k};
        var stopped;
        ok, stopped, order, p := MergeKey(dst, src, k, ok, before, d, s, order, p);
        if stopped {
          order := Ended(before, tables, d, s, order, p, todo);
          return false, order;
        }
      }
      order := Ended(before, tables, d, s, order, p, todo);
    }

    /** One key: an absent one is adopted, two tables are merged, and a value that differs is replaced. */
    method MergeKey(dst: nat, src: nat, k: string, sofar: bool, ghost before: Cells, ghost d: Node, ghost s: Node,
                    ghost order: seq<Visit>, ghost p: Merging)
      returns (ok: bool, stopped: bool, ghost more: seq<Visit>, ghost q: Merging)
      requires Stands(before, tables, d, s, order, p) && d.addr == dst && s.addr == src && p.ok == sofar && !p.stopped
      requires k in s.kids && !Visited(order, k)
      modifies this`tables
      ensures Stands(before, tables, d, s, more, q) && q.ok == ok && q.stopped == stopped && (stopped ==> !ok)
      ensures forall l :: Visited(more, l) <==> Visited(order, l) || l == k
      decreases s, 0
    {
      Unvisited(before, tables, d, s, order, p, k);
      ghost var now := tables;
      var v := tables[src][k];
      if k in tables[dst] && tables[dst][k].Ref? && v.Ref? {
        var childOk;
        ghost var inner;
        childOk, inner := DeepMergeInto(tables[dst][k].addr, v.addr, d.kids[k], s.kids[k]);
        more, q := TableStep(before, now, tables, d, s, order, p, k, inner, childOk);
        return sofar && childOk, !childOk, more, q;
      }
      more, q := LeafStep(before, now, d, s, order, p, k);
      ok := sofar;
      if k !in tables[dst] {
        tables := tables[dst := tables[dst][k := v]];
      } else if tables[dst][k] != v {
        tables := tables[dst := tables[dst][k := v]];
        ok := false;
      }
      assert tables == now[dst := Taken(now[dst], k, v)];
      return ok, false, more, q;
    }

    /** Merges the tables at `ordered` into a new one. Without a complete rank a collision ends it. Afterwards memory
        holds, of the result and of every source, what the model on values says. */
    method MergeInOrder(ordered: seq<nat>, complete: bool, ghost ss: seq<Node>, ghost s: seq<Source>)
      returns (refused: bool, out: nat, ghost orders: seq<seq<Visit>>)
      requires Sources(tables, ordered, ss, s) && forall a | a in tables :: a < next
      modifies this
      ensures AsOnValues(tables, out, ordered, s, orders, complete, refused)
    {
      out, orders := next, [];
      Fresh(tables, out, ordered, ss, s);
      next := next + 1;
      tables := tables[out := map[]];
      for i := 0 to |ordered|
        invariant |orders| == i && Underway(tables, out, ss, s, orders, complete)
        invariant forall j | 0 <= j < |ss| :: ss[j].addr == ordered[j]
      {
        ghost var before := tables;
        NextMergeable(tables, out, ss, s, orders, complete);
        var ok;
        ghost var order;
        ok, order := DeepMergeInto(out, ordered[i], Destination(out, ss[..i], orders), ss[i]);
        NextStep(before, tables, out, ss, s, orders, order, ok, complete);
        orders := orders + [order];
        if !ok && !complete {
          orders := RefusedInMemory(tables, out, ordered, ss, s, orders, i);
          return true, out, orders;
        }
      }
      AllInMemory(tables, out, ordered, ss, s, orders, complete);
      return false, out, orders;
    }
  }
}
