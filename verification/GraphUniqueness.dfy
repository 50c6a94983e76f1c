/** When the computation has only one graph to give: exactly, by groups and then by what is merged; whatever
    the order of observations; and two concrete inputs that have two graphs. */
module GraphUniqueness {
  import opened Ordering
  import opened Buckets
  import opened DeepMerge
  import opened TableMerge
  import opened MergeWinners
  import opened SharedTables
  import opened Candidates
  import opened MergeOperators
  import opened MergeLaws
  import opened Identity
  import opened Duplicates
  import opened EffectiveGraph
  import opened GraphLaws

  /* ---- where a candidate is found afterwards ---- */

  lemma {:induction false} NowInMember(left: seq<Candidate>, c: Candidate, x: Candidate)
    requires x in left && x.ref == c.ref
    ensures NowIn(left, c) in left && NowIn(left, c).ref == c.ref
  {
    var n := |left| - 1;
    assert left == left[..n] + [left[n]];
    if left[n].ref != c.ref {
      NowInMember(left[..n], c, x);
    }
  }

  lemma SettledSources(d: Decision, t: Task, k: Knowledge, opts: Options)
    requires Settles(d, t, k, opts)
    ensures SameSources(d.left, TaskMembers(t))
  {
  }

  lemma {:induction false} LeftRefs(ds: seq<Decision>, ts: seq<Task>, k: Knowledge, opts: Options)
    requires SettlesAll(ds, ts, k, opts)
    ensures Project(LeftAfter(ds), RefOf) == Project(Flat(ts, TaskMembers), RefOf)
  {
    if ds != [] {
      var n := |ds| - 1;
      LeftRefs(ds[..n], ts[..n], k, opts);
      SettledSources(ds[n], ts[n], k, opts);
      SameSourcesRefs(ds[n].left, TaskMembers(ts[n]));
      ProjectAppend(LeftAfter(ds[..n]), ds[n].left, RefOf);
      ProjectAppend(Flat(ts[..n], TaskMembers), TaskMembers(ts[n]), RefOf);
    }
  }

  lemma LeftDistinct(s: seq<Candidate>, ds: seq<Decision>, k: Knowledge, opts: Options)
    requires DistinctRefs(s) && SettlesAll(ds, Tasks(Groups(s), k), k, opts)
    ensures DistinctRefs(LeftAfter(ds))
  {
    var left := LeftAfter(ds);
    LeftRefs(ds, Tasks(Groups(s), k), k, opts);
    TasksCoverCandidates(s, k);
    assert NoDuplicates(Project(s, RefOf)) by {
      forall i, j | 0 <= i < j < |s| ensures Project(s, RefOf)[i] != Project(s, RefOf)[j] {
        assert s[i].ref != s[j].ref;
      }
    }
    NoDuplicatesPermutation(Project(s, RefOf), Project(left, RefOf));
    forall i, j | 0 <= i < j < |left| ensures left[i].ref != left[j].ref {
      assert Project(left, RefOf)[i] != Project(left, RefOf)[j];
    }
  }

  /** A candidate is left as the decision of its task leaves it. */
  lemma LeftOfTask(s: seq<Candidate>, ds: seq<Decision>, k: Knowledge, opts: Options, i: nat, c: Candidate)
    requires DistinctRefs(s) && SettlesAll(ds, Tasks(Groups(s), k), k, opts) && i < |ds|
    requires c in TaskMembers(Tasks(Groups(s), k)[i])
    ensures NowIn(LeftAfter(ds), c) == NowIn(ds[i].left, c)
  {
    var t, left := Tasks(Groups(s), k)[i], LeftAfter(ds);
    assert Settles(ds[i], t, k, opts);
    SettledSources(ds[i], t, k, opts);
    var j :| 0 <= j < |TaskMembers(t)| && TaskMembers(t)[j] == c;
    NowInMember(ds[i].left, c, ds[i].left[j]);
    var x := NowIn(ds[i].left, c);
    FlatMembers(ds, LeftIn, x);
    assert ds[i] in ds && x in LeftIn(ds[i]);
    NowInMember(left, c, x);
    LeftDistinct(s, ds, k, opts);
    SameRefSame(left, NowIn(left, c), x);
  }

  lemma CandidateTask(s: seq<Candidate>, k: Knowledge, c: Candidate) returns (i: nat)
    requires c in s
    ensures i < |Tasks(Groups(s), k)| && c in TaskMembers(Tasks(Groups(s), k)[i])
    ensures TaskSound(Groups(s), k, Tasks(Groups(s), k)[i])
  {
    var ts := Tasks(Groups(s), k);
    TasksCoverCandidates(s, k);
    SameMembers(s, Flat(ts, TaskMembers));
    FlatMembers(ts, TaskMembers, c);
    var t :| t in ts && c in TaskMembers(t);
    i :| 0 <= i < |ts| && ts[i] == t;
    TasksSound(Groups(s), k);
  }

  /* ---- when there is only one graph ---- */

  /** Listed in a pair of registrations with equal definitions. */
  predicate InPair(s: seq<Candidate>, c: Candidate) {
    exists x :: x in Ambiguities(s) && (x.a == c || x.b == c)
  }

  /** The candidate is left the same in every iteration. */
  ghost predicate LeftAlike(g: Group, programs: seq<Program>, capability: Capability, opts: Options, c: Candidate) {
    forall d, e | Possible(d, g, programs, capability, opts) && Possible(e, g, programs, capability, opts) ::
      NowIn(d.left, c) == NowIn(e.left, c)
  }

  /** The group has one outcome, and those of its candidates that are listed beside it are left one way. */
  ghost predicate OneListing(s: seq<Candidate>, g: Group, k: Knowledge, opts: Options) {
    var capability := k.CapabilityOf(g.concept);
    && OneOutcome(g, k.programs, capability, opts)
    && forall c | c in g.candidates && InPair(s, c) :: LeftAlike(g, k.programs, capability, opts, c)
  }

  ghost predicate Decisive(s: seq<Candidate>, k: Knowledge, opts: Options) {
    forall g | g in Groups(s) && !Composes(k, g.concept) :: OneListing(s, g, k, opts)
  }

  ghost predicate OneGraph(host: string, version: string, s: seq<Candidate>, k: Knowledge, opts: Options,
                           extra: seq<ToolSource>) {
    forall a, b | IsGraph(a, host, version, s, k, opts, extra) && IsGraph(b, host, version, s, k, opts, extra) :: a == b
  }

  /** The computation has one graph to give exactly when every group has one listing and the sources of each
      duplicate capability are told apart. */
  lemma GraphUniqueExact(host: string, version: string, s: seq<Candidate>, k: Knowledge, opts: Options,
                         extra: seq<ToolSource>)
    requires DistinctRefs(s)
    ensures OneGraph(host, version, s, k, opts, extra)
       <==> Decisive(s, k, opts) && ToolsApart(Flat(s, ToolsOf) + extra)
  {
    if Decisive(s, k, opts) && ToolsApart(Flat(s, ToolsOf) + extra) {
      forall a, b | IsGraph(a, host, version, s, k, opts, extra) && IsGraph(b, host, version, s, k, opts, extra)
        ensures a == b
      {
        SameGraph(a, b, host, version, s, k, opts, extra);
      }
    } else if !Decisive(s, k, opts) {
      var g :| g in Groups(s) && !Composes(k, g.concept) && !OneListing(s, g, k, opts);
      var a, b := ListingShows(host, version, s, k, opts, extra, g);
    } else {
      var a, b := ToolsShow(host, version, s, k, opts, extra);
    }
  }

  lemma SameGraph(a: Graph, b: Graph, host: string, version: string, s: seq<Candidate>, k: Knowledge, opts: Options,
                  extra: seq<ToolSource>)
    requires IsGraph(a, host, version, s, k, opts, extra) && IsGraph(b, host, version, s, k, opts, extra)
    requires DistinctRefs(s) && Decisive(s, k, opts) && ToolsApart(Flat(s, ToolsOf) + extra)
    ensures a == b
  {
    var ds := DecisionsOf(a, host, version, s, k, opts, extra);
    var es := DecisionsOf(b, host, version, s, k, opts, extra);
    SameOutcomes(s, k, opts, ds, es);
    SamePairs(s, k, opts, ds, es);
    ReportUnique(a.duplicates, Flat(s, ToolsOf) + extra);
    ReportUnique(b.duplicates, Flat(s, ToolsOf) + extra);
  }

  lemma SameOutcomes(s: seq<Candidate>, k: Knowledge, opts: Options, ds: seq<Decision>, es: seq<Decision>)
    requires SettlesAll(ds, Tasks(Groups(s), k), k, opts) && SettlesAll(es, Tasks(Groups(s), k), k, opts)
    requires Decisive(s, k, opts)
    ensures OutcomesOf(ds) == OutcomesOf(es)
  {
    var ts := Tasks(Groups(s), k);
    TasksSound(Groups(s), k);
    forall i | 0 <= i < |ts| ensures ds[i].outcome == es[i].outcome {
      assert ts[i] in ts && Settles(ds[i], ts[i], k, opts) && Settles(es[i], ts[i], k, opts);
      if ts[i].Decide? {
        assert OneListing(s, ts[i].group, k, opts);
      }
    }
  }

  lemma SamePairs(s: seq<Candidate>, k: Knowledge, opts: Options, ds: seq<Decision>, es: seq<Decision>)
    requires SettlesAll(ds, Tasks(Groups(s), k), k, opts) && SettlesAll(es, Tasks(Groups(s), k), k, opts)
    requires DistinctRefs(s) && Decisive(s, k, opts)
    ensures Relisted(Ambiguities(s), LeftAfter(ds)) == Relisted(Ambiguities(s), LeftAfter(es))
  {
    var pairs := Ambiguities(s);
    forall j | 0 <= j < |pairs|
      ensures NowIn(LeftAfter(ds), pairs[j].a) == NowIn(LeftAfter(es), pairs[j].a)
      ensures NowIn(LeftAfter(ds), pairs[j].b) == NowIn(LeftAfter(es), pairs[j].b)
    {
      assert pairs[j] in pairs && pairs[j] == AmbiguousIdentity(pairs[j].a, pairs[j].b);
      AmbiguousExact(s, pairs[j].a, pairs[j].b);
      ListedAlike(s, k, opts, ds, es, pairs[j].a);
      ListedAlike(s, k, opts, ds, es, pairs[j].b);
    }
  }

  lemma ListedAlike(s: seq<Candidate>, k: Knowledge, opts: Options, ds: seq<Decision>, es: seq<Decision>, c: Candidate)
    requires SettlesAll(ds, Tasks(Groups(s), k), k, opts) && SettlesAll(es, Tasks(Groups(s), k), k, opts)
    requires DistinctRefs(s) && Decisive(s, k, opts) && c in s && InPair(s, c)
    ensures NowIn(LeftAfter(ds), c) == NowIn(LeftAfter(es), c)
  {
    var i := CandidateTask(s, k, c);
    LeftOfTask(s, ds, k, opts, i, c);
    LeftOfTask(s, es, k, opts, i, c);
    var t := Tasks(Groups(s), k)[i];
    assert Settles(ds[i], t, k, opts) && Settles(es[i], t, k, opts);
    if t.Decide? {
      assert OneListing(s, t.group, k, opts);
    }
  }

  lemma {:induction false} SomeDecisions(groups: seq<Group>, ts: seq<Task>, k: Knowledge, opts: Options)
    returns (ds: seq<Decision>)
    requires forall t | t in ts :: TaskSound(groups, k, t)
    ensures SettlesAll(ds, ts, k, opts)
  {
    ds := [];
    if ts != [] {
      var n := |ts| - 1;
      assert ts[n] in ts && forall t | t in ts[..n] :: t in ts;
      ds := SomeDecisions(groups, ts[..n], k, opts);
      var d := SomeSettled(groups, ts[n], k, opts);
      SettlesMore(ds, ts[..n], [d], [ts[n]], k, opts);
      assert ts == ts[..n] + [ts[n]];
      ds := ds + [d];
    }
  }

  lemma SomeSettled(groups: seq<Group>, t: Task, k: Knowledge, opts: Options) returns (d: Decision)
    requires TaskSound(groups, k, t)
    ensures Settles(d, t, k, opts)
  {
    match t
    case Compose(concept, gs) => d := Composition(k, opts, concept, gs);
    case Decide(g) => d := SomeDecision(g, k.programs, k.CapabilityOf(g.concept), opts);
  }

  lemma GraphWith(host: string, version: string, s: seq<Candidate>, k: Knowledge, opts: Options,
                  extra: seq<ToolSource>, ds: seq<Decision>)
    returns (g: Graph)
    requires SettlesAll(ds, Tasks(Groups(s), k), k, opts)
    ensures Lists(g, host, version, s, extra, ds) && Gives(g, LeftAfter(ds), host, version, s, k, opts, extra)
  {
    var tools, os := Flat(s, ToolsOf) + extra, OutcomesOf(ds);
    ReportedIsReport(tools);
    g := Graph(host, version, SortedEntries(os), SortedConflicts(os), Relisted(Ambiguities(s), LeftAfter(ds)),
               Reported(tools));
    assert Lists(g, host, version, s, extra, ds);
  }

  /** There is always a graph to give. */
  lemma SomeGraph(host: string, version: string, s: seq<Candidate>, k: Knowledge, opts: Options, extra: seq<ToolSource>)
    returns (g: Graph, ds: seq<Decision>)
    ensures SettlesAll(ds, Tasks(Groups(s), k), k, opts)
    ensures Lists(g, host, version, s, extra, ds) && Gives(g, LeftAfter(ds), host, version, s, k, opts, extra)
  {
    TasksSound(Groups(s), k);
    ds := SomeDecisions(Groups(s), Tasks(Groups(s), k), k, opts);
    g := GraphWith(host, version, s, k, opts, extra, ds);
  }

  /** A group with two listings gives two graphs. */
  lemma ListingShows(host: string, version: string, s: seq<Candidate>, k: Knowledge, opts: Options,
                     extra: seq<ToolSource>, g: Group)
    returns (a: Graph, b: Graph)
    requires DistinctRefs(s) && g in Groups(s) && !Composes(k, g.concept) && !OneListing(s, g, k, opts)
    ensures IsGraph(a, host, version, s, k, opts, extra) && IsGraph(b, host, version, s, k, opts, extra) && a != b
  {
    if OneOutcome(g, k.programs, k.CapabilityOf(g.concept), opts) {
      var c :| c in g.candidates && InPair(s, c) && !LeftAlike(g, k.programs, k.CapabilityOf(g.concept), opts, c);
      a, b := PairShows(host, version, s, k, opts, extra, g, c);
    } else {
      a, b := OutcomesShow(host, version, s, k, opts, extra, g);
    }
  }

  lemma OutcomesShow(host: string, version: string, s: seq<Candidate>, k: Knowledge, opts: Options,
                     extra: seq<ToolSource>, g: Group)
    returns (a: Graph, b: Graph)
    requires g in Groups(s) && !Composes(k, g.concept) && !OneOutcome(g, k.programs, k.CapabilityOf(g.concept), opts)
    ensures IsGraph(a, host, version, s, k, opts, extra) && IsGraph(b, host, version, s, k, opts, extra) && a != b
  {
    var cap := k.CapabilityOf(g.concept);
    var d, e :| Possible(d, g, k.programs, cap, opts) && Possible(e, g, k.programs, cap, opts)
                && d.outcome != e.outcome;
    var ds, es, i;
    a, b, ds, es, i := GraphsOfGroup(host, version, s, k, opts, extra, g, d, e);
    OutcomeListed(a, b, host, version, s, k, opts, extra, ds, es, i);
  }

  lemma PairShows(host: string, version: string, s: seq<Candidate>, k: Knowledge, opts: Options,
                  extra: seq<ToolSource>, g: Group, c: Candidate)
    returns (a: Graph, b: Graph)
    requires DistinctRefs(s) && g in Groups(s) && !Composes(k, g.concept) && c in g.candidates && InPair(s, c)
    requires !LeftAlike(g, k.programs, k.CapabilityOf(g.concept), opts, c)
    ensures IsGraph(a, host, version, s, k, opts, extra) && IsGraph(b, host, version, s, k, opts, extra) && a != b
  {
    var d, e := TwoLefts(g, k.programs, k.CapabilityOf(g.concept), opts, c);
    var ds, es, i;
    a, b, ds, es, i := GraphsOfGroup(host, version, s, k, opts, extra, g, d, e);
    PairDiffers(s, ds, es, k, opts, g, i, c);
    ListsShow(a, b, host, version, s, extra, ds, es);
  }

  lemma ListsShow(a: Graph, b: Graph, host: string, version: string, s: seq<Candidate>, extra: seq<ToolSource>,
                  ds: seq<Decision>, es: seq<Decision>)
    requires Lists(a, host, version, s, extra, ds) && Lists(b, host, version, s, extra, es)
    requires Relisted(Ambiguities(s), LeftAfter(ds)) != Relisted(Ambiguities(s), LeftAfter(es))
    ensures a != b
  {
  }

  lemma PairDiffers(s: seq<Candidate>, ds: seq<Decision>, es: seq<Decision>, k: Knowledge, opts: Options, g: Group,
                    i: nat, c: Candidate)
    requires SettlesAll(ds, Tasks(Groups(s), k), k, opts) && SettlesAll(es, Tasks(Groups(s), k), k, opts)
    requires DistinctRefs(s) && i < |ds| && Tasks(Groups(s), k)[i] == Decide(g) && c in g.candidates && InPair(s, c)
    requires NowIn(ds[i].left, c) != NowIn(es[i].left, c)
    ensures Relisted(Ambiguities(s), LeftAfter(ds)) != Relisted(Ambiguities(s), LeftAfter(es))
  {
    LeftOfTask(s, ds, k, opts, i, c);
    LeftOfTask(s, es, k, opts, i, c);
    PairListed(s, LeftAfter(ds), LeftAfter(es), c);
  }

  lemma TwoLefts(g: Group, programs: seq<Program>, capability: Capability, opts: Options, c: Candidate)
    returns (d: Decision, e: Decision)
    requires !LeftAlike(g, programs, capability, opts, c)
    ensures Possible(d, g, programs, capability, opts) && Possible(e, g, programs, capability, opts)
    ensures NowIn(d.left, c) != NowIn(e.left, c)
  {
    d, e :| Possible(d, g, programs, capability, opts) && Possible(e, g, programs, capability, opts)
            && NowIn(d.left, c) != NowIn(e.left, c);
  }

  lemma TaskAt(s: seq<Candidate>, k: Knowledge, g: Group) returns (i: nat)
    requires g in Groups(s) && !Composes(k, g.concept)
    ensures i < |Tasks(Groups(s), k)| && Tasks(Groups(s), k)[i] == Decide(g)
  {
    GroupHasTask(Groups(s), k, g);
    i :| 0 <= i < |Tasks(Groups(s), k)| && Tasks(Groups(s), k)[i] == Decide(g);
  }

  /** Two graphs that differ in one decision. */
  lemma GraphsAt(host: string, version: string, s: seq<Candidate>, k: Knowledge, opts: Options, extra: seq<ToolSource>,
                 i: nat, d: Decision, e: Decision)
    returns (a: Graph, b: Graph, ds: seq<Decision>, es: seq<Decision>)
    requires i < |Tasks(Groups(s), k)|
    requires Settles(d, Tasks(Groups(s), k)[i], k, opts) && Settles(e, Tasks(Groups(s), k)[i], k, opts)
    ensures SettlesAll(ds, Tasks(Groups(s), k), k, opts) && Lists(a, host, version, s, extra, ds) && ds[i] == d
    ensures SettlesAll(es, Tasks(Groups(s), k), k, opts) && Lists(b, host, version, s, extra, es) && es[i] == e
    ensures IsGraph(a, host, version, s, k, opts, extra) && IsGraph(b, host, version, s, k, opts, extra)
  {
    var any, some := SomeGraph(host, version, s, k, opts, extra);
    var ts := Tasks(Groups(s), k);
    ds, es := some[i := d], some[i := e];
    ReplaceDecision(some, ts, k, opts, i, d);
    ReplaceDecision(some, ts, k, opts, i, e);
    a := GraphWith(host, version, s, k, opts, extra, ds);
    b := GraphWith(host, version, s, k, opts, extra, es);
  }

  lemma GraphsOfGroup(host: string, version: string, s: seq<Candidate>, k: Knowledge, opts: Options,
                      extra: seq<ToolSource>, g: Group, d: Decision, e: Decision)
    returns (a: Graph, b: Graph, ds: seq<Decision>, es: seq<Decision>, i: nat)
    requires g in Groups(s) && !Composes(k, g.concept)
    requires Possible(d, g, k.programs, k.CapabilityOf(g.concept), opts)
    requires Possible(e, g, k.programs, k.CapabilityOf(g.concept), opts)
    ensures SettlesAll(ds, Tasks(Groups(s), k), k, opts) && Lists(a, host, version, s, extra, ds)
    ensures SettlesAll(es, Tasks(Groups(s), k), k, opts) && Lists(b, host, version, s, extra, es)
    ensures i < |ds| && ds[i] == d && es[i] == e && Tasks(Groups(s), k)[i] == Decide(g)
    ensures IsGraph(a, host, version, s, k, opts, extra) && IsGraph(b, host, version, s, k, opts, extra)
  {
    i := TaskAt(s, k, g);
    a, b, ds, es := GraphsAt(host, version, s, k, opts, extra, i, d, e);
  }

  lemma ReplaceDecision(ds: seq<Decision>, ts: seq<Task>, k: Knowledge, opts: Options, i: nat, d: Decision)
    requires SettlesAll(ds, ts, k, opts) && i < |ts| && Settles(d, ts[i], k, opts)
    ensures SettlesAll(ds[i := d], ts, k, opts)
  {
  }

  lemma OutcomeListed(a: Graph, b: Graph, host: string, version: string, s: seq<Candidate>, k: Knowledge, opts: Options,
                      extra: seq<ToolSource>, ds: seq<Decision>, es: seq<Decision>, i: nat)
    requires SettlesAll(ds, Tasks(Groups(s), k), k, opts) && SettlesAll(es, Tasks(Groups(s), k), k, opts)
    requires i < |ds| && ds[i].outcome != es[i].outcome
    requires Lists(a, host, version, s, extra, ds) && Lists(b, host, version, s, extra, es)
    ensures a != b
  {
    var o := ds[i].outcome;
    assert OutcomesOf(ds)[i] == o;
    GraphMembers(a, host, version, s, extra, ds, o);
    GraphMembers(b, host, version, s, extra, es, o);
    if o in OutcomesOf(es) {
      SameTask(s, k, opts, es, i, ds[i]);
    }
  }

  lemma SameTask(s: seq<Candidate>, k: Knowledge, opts: Options, ds: seq<Decision>, i: nat, d: Decision)
    requires SettlesAll(ds, Tasks(Groups(s), k), k, opts) && i < |ds| && d.outcome in OutcomesOf(ds)
    requires Settles(d, Tasks(Groups(s), k)[i], k, opts)
    ensures d.outcome == ds[i].outcome
  {
    var ts, os := Tasks(Groups(s), k), OutcomesOf(ds);
    var j :| 0 <= j < |os| && os[j] == d.outcome;
    OutcomesDistinct(s, k, opts, ds);
    OutcomeIdent(d, ts[i], k, opts);
    OutcomeIdent(ds[i], ts[i], k, opts);
    assert Project(os, Ident)[i] == Project(os, Ident)[j];
    assert i == j;
  }

  lemma PairListed(s: seq<Candidate>, x: seq<Candidate>, y: seq<Candidate>, c: Candidate)
    requires InPair(s, c) && NowIn(x, c) != NowIn(y, c)
    ensures Relisted(Ambiguities(s), x) != Relisted(Ambiguities(s), y)
  {
    var p :| p in Ambiguities(s) && (p.a == c || p.b == c);
    var j :| 0 <= j < |Ambiguities(s)| && Ambiguities(s)[j] == p;
    assert Relisted(Ambiguities(s), x)[j] == PairNow(x)(p) && Relisted(Ambiguities(s), y)[j] == PairNow(y)(p);
  }

  lemma ToolsShow(host: string, version: string, s: seq<Candidate>, k: Knowledge, opts: Options, extra: seq<ToolSource>)
    returns (a: Graph, b: Graph)
    requires !ToolsApart(Flat(s, ToolsOf) + extra)
    ensures IsGraph(a, host, version, s, k, opts, extra) && IsGraph(b, host, version, s, k, opts, extra) && a != b
  {
    var tools := Flat(s, ToolsOf) + extra;
    ReportUniqueExact(tools);
    var out :| IsReport(out, tools) && out != Reported(tools);
    var any, ds := SomeGraph(host, version, s, k, opts, extra);
    a := any.(duplicates := out);
    b := any.(duplicates := Reported(tools));
    ReportedIsReport(tools);
    assert Lists(a, host, version, s, extra, ds) && Lists(b, host, version, s, extra, ds);
    assert Gives(a, LeftAfter(ds), host, version, s, k, opts, extra);
    assert Gives(b, LeftAfter(ds), host, version, s, k, opts, extra);
  }

  /* ---- by what is merged ---- */

  /** A deep merge is run for the group. */
  predicate Iterated(s: seq<Candidate>, k: Knowledge, g: Group) {
    g in Groups(s) && RunsMerge(g, k.programs, k.CapabilityOf(g.concept))
  }

  /** With a rank for every scope all steps are steady; without one the refusal is, if there is one. */
  ghost predicate MergeSteady(g: Group, opts: Options)
    requires Structured(Distinct(g.candidates)).Some?
  {
    if Ranked(g, opts) then SteadyChain(Merged(g, opts)) else RefusalSteady(Merged(g, opts))
  }

  /** All steps but the last are steady, as they are for two contents. */
  ghost predicate SteadyBefore(g: Group, opts: Options)
    requires Structured(Distinct(g.candidates)).Some?
  {
    Merged(g, opts) != [] && SteadyChain(Merged(g, opts)[..|Merged(g, opts)| - 1])
  }

  /** Where ranked merges are steady up to their last step, one graph is given exactly when every deep merge
      is steady and the sources of each duplicate capability are told apart. */
  lemma OneGraphExact(host: string, version: string, s: seq<Candidate>, k: Knowledge, opts: Options,
                      extra: seq<ToolSource>)
    requires DistinctRefs(s) && forall g | Iterated(s, k, g) && Ranked(g, opts) :: SteadyBefore(g, opts)
    ensures OneGraph(host, version, s, k, opts, extra)
       <==> (forall g | Iterated(s, k, g) :: MergeSteady(g, opts)) && ToolsApart(Flat(s, ToolsOf) + extra)
  {
    GraphUniqueExact(host, version, s, k, opts, extra);
    GroupRefsDistinct(s);
    forall g | g in Groups(s) && !Composes(k, g.concept)
      ensures OneListing(s, g, k, opts) <==> (Iterated(s, k, g) ==> MergeSteady(g, opts))
    {
      ListingExact(s, g, k, opts);
    }
    forall g | Iterated(s, k, g) ensures !Composes(k, g.concept) {
    }
  }

  lemma ListingExact(s: seq<Candidate>, g: Group, k: Knowledge, opts: Options)
    requires g in Groups(s) && DistinctRefs(g.candidates)
    requires Iterated(s, k, g) && Ranked(g, opts) ==> SteadyBefore(g, opts)
    ensures OneListing(s, g, k, opts) <==> (Iterated(s, k, g) ==> MergeSteady(g, opts))
  {
    var capability := k.CapabilityOf(g.concept);
    if !Iterated(s, k, g) {
      NoMergeOneDecision(g, k.programs, capability, opts);
    } else if Ranked(g, opts) {
      RankedExact(g, k.programs, capability, opts);
    } else {
      UnrankedExact(g, k.programs, capability, opts);
    }
  }

  /** Without any rank, as every caller but the tests computes it: one graph is given exactly when every
      refusal of a deep merge is steady and the sources of each duplicate capability are told apart. */
  lemma UnrankedGraphExact(host: string, version: string, s: seq<Candidate>, k: Knowledge, opts: Options,
                           extra: seq<ToolSource>)
    requires DistinctRefs(s) && opts.scopeRank == map[]
    ensures OneGraph(host, version, s, k, opts, extra)
       <==> (forall g | Iterated(s, k, g) :: RefusalSteady(Merged(g, opts))) && ToolsApart(Flat(s, ToolsOf) + extra)
  {
    forall g | Iterated(s, k, g) ensures !Ranked(g, opts) {
      NothingRanked(g, opts);
    }
    OneGraphExact(host, version, s, k, opts, extra);
  }

  lemma NothingRanked(g: Group, opts: Options)
    requires Structured(Distinct(g.candidates)).Some? && g.candidates != [] && opts.scopeRank == map[]
    ensures !Ranked(g, opts)
  {
    AgreeIffOneContent(g.candidates);
    StructuredExact(Distinct(g.candidates));
    assert Structured(Distinct(g.candidates)).value[0].scope !in opts.scopeRank;
  }

  /* ---- independence of the order of observations ---- */

  lemma CanonicalIgnoresOrder(s: seq<Observation>, t: seq<Observation>)
    requires multiset(s) == multiset(t) && DistinctRefs(Flat(s, Yield))
    ensures Canonical(s) == Canonical(t)
  {
    FlatPermutation(s, t, Yield);
    ByIdentityOrder();
    RefsBreakTies(Flat(s, Yield));
    SortPermutation(Flat(s, Yield), Flat(t, Yield), ByIdentity());
  }

  /** Where every group has one decision, there is one graph and one way the candidates are left. */
  lemma OneOfEverything(a: Graph, x: seq<Candidate>, b: Graph, y: seq<Candidate>, host: string, version: string,
                        s: seq<Candidate>, k: Knowledge, opts: Options, extra: seq<ToolSource>)
    requires Gives(a, x, host, version, s, k, opts, extra) && Gives(b, y, host, version, s, k, opts, extra)
    requires forall g | g in Groups(s) :: OneDecision(g, k.programs, k.CapabilityOf(g.concept), opts)
    requires ToolsApart(Flat(s, ToolsOf) + extra)
    ensures a == b && x == y
  {
    var ts := Tasks(Groups(s), k);
    var ds :| SettlesAll(ds, ts, k, opts) && Lists(a, host, version, s, extra, ds) && x == LeftAfter(ds);
    var es :| SettlesAll(es, ts, k, opts) && Lists(b, host, version, s, extra, es) && y == LeftAfter(es);
    SameDecisions(s, k, opts, ds, es);
    ReportUnique(a.duplicates, Flat(s, ToolsOf) + extra);
    ReportUnique(b.duplicates, Flat(s, ToolsOf) + extra);
  }

  lemma SameDecisions(s: seq<Candidate>, k: Knowledge, opts: Options, ds: seq<Decision>, es: seq<Decision>)
    requires SettlesAll(ds, Tasks(Groups(s), k), k, opts) && SettlesAll(es, Tasks(Groups(s), k), k, opts)
    requires forall g | g in Groups(s) :: OneDecision(g, k.programs, k.CapabilityOf(g.concept), opts)
    ensures ds == es
  {
    var ts := Tasks(Groups(s), k);
    TasksSound(Groups(s), k);
    forall i | 0 <= i < |ts| ensures ds[i] == es[i] {
      assert ts[i] in ts && TaskSound(Groups(s), k, ts[i]);
      SameDecision(ts[i], k, opts, ds[i], es[i]);
    }
  }

  lemma SameDecision(t: Task, k: Knowledge, opts: Options, d: Decision, e: Decision)
    requires Settles(d, t, k, opts) && Settles(e, t, k, opts)
    requires t.Decide? ==> OneDecision(t.group, k.programs, k.CapabilityOf(t.group.concept), opts)
    ensures d == e
  {
  }

  /** Permuting the observations changes nothing in the result, error or graph, nor in how the candidates
      are left, when the sources read for the host have different references, no subtables collide in a
      deep merge, and the sources of each duplicate capability are told apart. */
  lemma GraphIgnoresObservationOrder(a: Computation, x: seq<Candidate>, b: Computation, y: seq<Candidate>, host: string,
                                     version: string, s: seq<Observation>, t: seq<Observation>, k: Knowledge,
                                     opts: Options, extra: seq<ToolSource>)
    requires IsComputation(a, x, host, version, s, k, opts, extra)
    requires IsComputation(b, y, host, version, t, k, opts, extra) && multiset(s) == multiset(t)
    requires var relevant := BucketOf(s, HostIs(host), true);
             && DistinctRefs(Flat(relevant, Yield))
             && (forall g | g in Groups(Canonical(relevant)) :: IterationHidden(g, k.programs))
             && ToolsApart(Flat(Canonical(relevant), ToolsOf) + extra)
    ensures a == b && x == y
  {
    var r, q := BucketOf(s, HostIs(host), true), BucketOf(t, HostIs(host), true);
    BucketPermutation(s, t, HostIs(host), true);
    SameMembers(r, q);
    CanonicalIgnoresOrder(r, q);
    forall g | g in Groups(Canonical(r)) ensures OneDecision(g, k.programs, k.CapabilityOf(g.concept), opts) {
      HiddenIterationOneDecision(g, k.programs, k.CapabilityOf(g.concept), opts);
    }
    if a.Computed? && b.Computed? {
      OneOfEverything(a.graph, x, b.graph, y, host, version, Canonical(r), k, opts, extra);
    }
  }

  /* ---- one input with two graphs ---- */

  const BY_RANK := Options(RANKED, [], {})
  const NO_OPTIONS := Options(map[], [], {})
  const MERGING := Knowledge([Program("mcp_server.merge", DEEP_MERGE)], map["mcp_server" := EXACT])

  function Registration(s: Source, digest: string): Candidate {
    Candidate("mcp_server", "search", s.ref, s.scope, false, E0, Some(s.fields), digest, [])
  }

  /** Two different registrations of one server. */
  function Registered(a: Source, b: Source): seq<Candidate> {
    [Registration(a, "1"), Registration(b, "2")]
  }

  /** With a rank, a collision in a subtable and a difference beside it: which value the effective
      registration has for the latter is up to the iteration. */
  lemma TwoGraphsOfOneInput(host: string, version: string) returns (a: Graph, b: Graph)
    ensures IsGraph(a, host, version, Registered(LOW, HIGH), MERGING, BY_RANK, [])
    ensures IsGraph(b, host, version, Registered(LOW, HIGH), MERGING, BY_RANK, []) && a != b
  {
    TwoInOrder(LOW, HIGH, RANKED);
    NotSteady();
    FirstIsSteady(LOW);
    assert [LOW, HIGH][..1] == [LOW];
    a, b := MergeShows(host, version, LOW, HIGH, BY_RANK);
  }

  /** Without one, and with two collisions: the merge is refused, and the iteration decides which of the two
      subtables the conflict shows rewritten. */
  lemma TwoConflictsOfOneInput(host: string, version: string) returns (a: Graph, b: Graph)
    ensures var s := Registered(Source("a", "user", LEFT), Source("b", "project", RIGHT));
            && IsGraph(a, host, version, s, MERGING, NO_OPTIONS, [])
            && IsGraph(b, host, version, s, MERGING, NO_OPTIONS, []) && a != b
  {
    var l, r := Source("a", "user", LEFT), Source("b", "project", RIGHT);
    TwoInOrder(l, r, map[]);
    assert [l, r][0].scope !in NO_OPTIONS.scopeRank;
    RefusalDependsOnIteration();
    UnsteadyPair(l, r);
    a, b := MergeShows(host, version, l, r, NO_OPTIONS);
  }

  /** What is refused of two sources is the second. */
  lemma UnsteadyPair(a: Source, b: Source)
    requires !Compatible(Table(a.fields), Table(b.fields)) && !SharedSteady(a.fields, b.fields)
    ensures !RefusalSteady([a, b])
  {
    var s := [a, b];
    assert s[..1] == [a] && s[..2] == s && !Compatible(Table(s[0].fields), Table(s[1].fields));
    FoldOfOne(a);
    forall j: nat | RefusedBy(s, j) ensures !SharedSteady(OverlayAll(s[..j]).fields, s[j].fields) {
      assert RefusedBy(s, 1);
      RefusedOnce(s, 1, j);
    }
  }

  lemma FoldOfOne(a: Source)
    ensures OverlayAll([a]) == Table(a.fields)
  {
    assert [a][..0] == [];
    OverlayFields(map[], a.fields, a.fields);
  }

  /** An unsteady merge of two registrations shows in the graph. */
  lemma MergeShows(host: string, version: string, a: Source, b: Source, opts: Options) returns (x: Graph, y: Graph)
    requires a.ref == "a" && b.ref == "b" && MergeOrder([a, b], opts.scopeRank) == [a, b]
    requires Covers(opts.scopeRank, [a, b]) ==> SteadyChain([a, b][..1]) && !SteadyChain([a, b])
    requires !Covers(opts.scopeRank, [a, b]) ==> !RefusalSteady([a, b])
    ensures IsGraph(x, host, version, Registered(a, b), MERGING, opts, [])
    ensures IsGraph(y, host, version, Registered(a, b), MERGING, opts, []) && x != y
  {
    var g := SharedGroup(a, b);
    SharedMerge(g, a, b, opts);
    ListingExact(Registered(a, b), g, MERGING, opts);
    x, y := ListingShows(host, version, Registered(a, b), MERGING, opts, [], g);
  }

  lemma SharedMerge(g: Group, a: Source, b: Source, opts: Options)
    requires a.ref == "a" && b.ref == "b" && MergeOrder([a, b], opts.scopeRank) == [a, b]
    requires g == Group("mcp_server", "search", Registered(a, b))
    ensures DistinctRefs(g.candidates) && !Composes(MERGING, g.concept)
    ensures RunsMerge(g, MERGING.programs, MERGING.CapabilityOf(g.concept))
    ensures Merged(g, opts) == [a, b] && (Ranked(g, opts) <==> Covers(opts.scopeRank, [a, b]))
  {
    SharedContents(a, b);
    SharedProgram();
    assert ProgramFor(MERGING.programs, g.concept) == GoverningProgram();
  }

  function GoverningProgram(): Option<Program> {
    ProgramFor(MERGING.programs, "mcp_server")
  }

  lemma SortTwo(a: Candidate, b: Candidate, less: (Candidate, Candidate) -> bool)
    requires !less(b, a)
    ensures Sort([a, b], less) == [a, b]
  {
    assert [a, b][1..] == [b] && [b][1..] == [];
    assert Sort([b], less) == Insert(b, Sort([], less), less) == [b];
    assert Sort([a, b], less) == Insert(a, [b], less) == [a] + [b];
  }

  lemma SharedGroup(a: Source, b: Source) returns (g: Group)
    requires a.ref == "a" && b.ref == "b"
    ensures g in Groups(Registered(a, b)) && g == Group("mcp_server", "search", Registered(a, b))
  {
    var s, key := Registered(a, b), "mcp_server" + [NUL] + "search";
    SortedKeysExact(s);
    assert KeyOf(s[0]) == key;
    var i :| 0 <= i < |SortedKeys(s)| && SortedKeys(s)[i] == key;
    g := Groups(s)[i];
    KeySplits("mcp_server", "search");
    SharedBucket(a, b, key);
    SortTwo(s[0], s[1], ByRef());
  }

  lemma SharedBucket(a: Source, b: Source, key: string)
    requires key == KeyOf(Registration(a, "1"))
    ensures BucketOf(Registered(a, b), KeyOf, key) == Registered(a, b)
  {
    var s := Registered(a, b);
    assert s[..1] == [s[0]] && s[..1][..0] == [];
    assert BucketOf(s[..1], KeyOf, key) == [s[0]];
  }

  lemma SharedContents(a: Source, b: Source)
    requires a.ref == "a" && b.ref == "b"
    ensures Distinct(Registered(a, b)) == Registered(a, b) && Structured(Registered(a, b)) == Some([a, b])
  {
    var s := Registered(a, b);
    assert s[..1] == [s[0]] && s[..1][..0] == [];
    assert KeysOf(s[..1], DigestOf) == ["1"];
    assert Representatives(s[..1]) == [s[0]];
    assert Representatives(s) == s;
    SortTwo(s[0], s[1], ByRef());
    StructuredExact(s);
    assert Structured(s).value == [a, b];
  }

  lemma SharedProgram()
    ensures GoverningProgram() == Some(Program("mcp_server.merge", DEEP_MERGE))
  {
    var ps, key := MERGING.programs, GovernsConcept("mcp_server");
    assert ps[..0] == [] && key(ps[0]);
    assert BucketOf(ps, key, true) == [] + [ps[0]];
  }

  lemma NotSteady()
    ensures !SteadyChain([LOW, HIGH]) && Covers(RANKED, [LOW, HIGH])
  {
    assert LOW.fields["t"].fields["p"] != HIGH.fields["t"].fields["p"];
    assert !NestedClean(LOW.fields, HIGH.fields);
    assert !NoOp(LOW.fields, HIGH.fields, "x");
    FirstIsSteady(LOW);
    assert [LOW, HIGH][..1] == [LOW];
  }
}
