/** What the Effective Graph says about its input as a whole. Every statement is about every graph the
    computation can give; when there is only one is the subject of `GraphUniqueness`. */
module GraphLaws {
  import opened Ordering
  import opened Buckets
  import opened Candidates
  import opened MergeOperators
  import opened MergeLaws
  import opened Identity
  import opened Duplicates
  import opened EffectiveGraph

  /* ---- order of the result ---- */

  ghost predicate StrictlySorted(s: seq<(string, string)>) {
    forall i, j :: 0 <= i < j < |s| ==> PairLess(s[i], s[j])
  }

  lemma SortedStrictly<T(!new)>(s: seq<T>, ident: T -> (string, string))
    requires NoDuplicates(Project(s, ident))
    ensures StrictlySorted(Project(Sort(s, By(ident)), ident))
    ensures multiset(Sort(s, By(ident))) == multiset(s)
  {
    ByOrder(ident);
    SortSorted(s, By(ident));
    var t := Sort(s, By(ident));
    ProjectPermutation(s, t, ident);
    NoDuplicatesPermutation(Project(s, ident), Project(t, ident));
    forall i, j | 0 <= i < j < |t| ensures PairLess(ident(t[i]), ident(t[j])) {
      assert !By(ident)(t[j], t[i]);
      assert Project(t, ident)[i] != Project(t, ident)[j];
      StrTotal(ident(t[i]).0, ident(t[j]).0);
      StrTotal(ident(t[i]).1, ident(t[j]).1);
    }
  }

  /** Entries and conflicts are strictly increasing by concept and logical id, and no identity is in
      both lists. */
  lemma GraphSorted(g: Graph, host: string, version: string, s: seq<Candidate>, k: Knowledge, opts: Options,
                    extra: seq<ToolSource>)
    requires IsGraph(g, host, version, s, k, opts, extra)
    ensures StrictlySorted(Project(g.entries, EntryIdent))
    ensures StrictlySorted(Project(g.conflicts, ConflictIdent))
    ensures forall i :: i in Project(g.entries, EntryIdent) ==> i !in Project(g.conflicts, ConflictIdent)
  {
    var ds := DecisionsOf(g, host, version, s, k, opts, extra);
    var os := OutcomesOf(ds);
    OutcomesDistinct(s, k, opts, ds);
    SplitDistinct(os);
    SortedStrictly(Flat(os, EntryIn), EntryIdent);
    SortedStrictly(Flat(os, ConflictIn), ConflictIdent);
    ProjectPermutation(SortedEntries(os), Flat(os, EntryIn), EntryIdent);
    ProjectPermutation(SortedConflicts(os), Flat(os, ConflictIn), ConflictIdent);
    SameMembers(Project(SortedEntries(os), EntryIdent), EntryIdents(os));
    SameMembers(Project(SortedConflicts(os), ConflictIdent), ConflictIdents(os));
  }

  /* ---- every group is decided, nothing is invented ---- */

  lemma {:induction false} FlatMembers<T(!new), U(!new)>(s: seq<T>, f: T -> seq<U>, u: U)
    ensures u in Flat(s, f) <==> exists x :: x in s && u in f(x)
  {
    if s != [] {
      FlatMembers(s[..|s| - 1], f, u);
      assert s == s[..|s| - 1] + [s[|s| - 1]];
    }
  }

  predicate InGraph(g: Graph, o: Outcome) {
    if o.Resolved? then o.entry in g.entries else o.conflict in g.conflicts
  }

  lemma EntryMembers(os: seq<Outcome>, e: Entry)
    ensures Resolved(e) in os <==> e in SortedEntries(os)
  {
    ByOrder(EntryIdent);
    SortSorted(Flat(os, EntryIn), By(EntryIdent));
    SameMembers(Flat(os, EntryIn), SortedEntries(os));
    FlatMembers(os, EntryIn, e);
    assert e in EntryIn(Resolved(e));
  }

  lemma ConflictMembers(os: seq<Outcome>, c: Conflict)
    ensures Unresolved(c) in os <==> c in SortedConflicts(os)
  {
    ByOrder(ConflictIdent);
    SortSorted(Flat(os, ConflictIn), By(ConflictIdent));
    SameMembers(Flat(os, ConflictIn), SortedConflicts(os));
    FlatMembers(os, ConflictIn, c);
    assert c in ConflictIn(Unresolved(c));
  }

  lemma GraphMembers(g: Graph, host: string, version: string, s: seq<Candidate>, extra: seq<ToolSource>,
                     ds: seq<Decision>, o: Outcome)
    requires Lists(g, host, version, s, extra, ds)
    ensures o in OutcomesOf(ds) <==> InGraph(g, o)
  {
    match o
    case Resolved(e) => EntryMembers(OutcomesOf(ds), e);
    case Unresolved(c) => ConflictMembers(OutcomesOf(ds), c);
  }

  /** The task a group is decided in. */
  function TaskOf(groups: seq<Group>, k: Knowledge, g: Group): Task {
    if Composes(k, g.concept) then Compose(g.concept, BucketOf(groups, ConceptOf, g.concept)) else Decide(g)
  }

  lemma GroupHasTask(groups: seq<Group>, k: Knowledge, g: Group)
    requires g in groups
    ensures TaskOf(groups, k, g) in Tasks(groups, k)
  {
    ConceptsExact(groups);
    var i :| 0 <= i < |groups| && groups[i] == g;
    var bucket := BucketOf(groups, ConceptOf, g.concept);
    BucketMembers(groups, ConceptOf, g.concept);
    var j :| 0 <= j < |bucket| && bucket[j] == g;
    assert Composes(k, g.concept) || Project(bucket, DecideGroup)[j] == Decide(g);
    assert TaskOf(groups, k, g) in TasksIn(groups, k, g.concept);
    assert TasksFor(groups, k)(g.concept) == TasksIn(groups, k, g.concept);
    FlatMembers(Concepts(groups), TasksFor(groups, k), TaskOf(groups, k, g));
  }

  ghost predicate TaskSound(groups: seq<Group>, k: Knowledge, t: Task) {
    match t
    case Compose(concept, gs) => Composes(k, concept)
    case Decide(g) => g in groups && !Composes(k, g.concept)
  }

  lemma TasksSound(groups: seq<Group>, k: Knowledge)
    ensures forall t | t in Tasks(groups, k) :: TaskSound(groups, k, t)
  {
    forall t | t in Tasks(groups, k) ensures TaskSound(groups, k, t) {
      FlatMembers(Concepts(groups), TasksFor(groups, k), t);
      var c :| c in Concepts(groups) && t in TasksFor(groups, k)(c);
      InConcept(groups, k, c, t);
    }
  }

  lemma InConcept(groups: seq<Group>, k: Knowledge, c: string, t: Task)
    requires t in TasksIn(groups, k, c)
    ensures TaskSound(groups, k, t)
  {
    var bucket := BucketOf(groups, ConceptOf, c);
    BucketMembers(groups, ConceptOf, c);
    if !Composes(k, c) {
      var i :| 0 <= i < |bucket| && Project(bucket, DecideGroup)[i] == t;
      assert bucket[i] in groups;
    }
  }

  /** Outside composed concepts every group has one of its possible outcomes in the graph, as an entry or
      as a conflict and never as both; a composed concept has one entry listing all its sources. */
  lemma EachGroupDecidedOnce(graph: Graph, host: string, version: string, s: seq<Candidate>, k: Knowledge,
                             opts: Options, extra: seq<ToolSource>, g: Group) returns (d: Decision)
    requires IsGraph(graph, host, version, s, k, opts, extra) && g in Groups(s)
    ensures InGraph(graph, d.outcome) && d.outcome.Resolved? == (Ident(d.outcome) in Project(graph.entries, EntryIdent))
    ensures d.outcome.Unresolved? == (Ident(d.outcome) in Project(graph.conflicts, ConflictIdent))
    ensures !Composes(k, g.concept) ==>
              Possible(d, g, k.programs, k.CapabilityOf(g.concept), opts) && Ident(d.outcome) == GroupIdent(g)
    ensures Composes(k, g.concept) ==>
              d.outcome.Resolved? && d.outcome.entry.composed && d.outcome.entry.concept == g.concept
                && forall c | c in g.candidates :: c.ref in d.outcome.entry.active
  {
    var ts := Tasks(Groups(s), k);
    var ds := DecisionsOf(graph, host, version, s, k, opts, extra);
    GroupHasTask(Groups(s), k, g);
    var i :| 0 <= i < |ts| && ts[i] == TaskOf(Groups(s), k, g);
    d := ds[i];
    assert Settles(d, ts[i], k, opts) && OutcomesOf(ds)[i] == d.outcome;
    OutcomeIdent(d, ts[i], k, opts);
    GraphMembers(graph, host, version, s, extra, ds, d.outcome);
    GraphSorted(graph, host, version, s, k, opts, extra);
    IdentListed(graph, d.outcome);
    if Composes(k, g.concept) {
      BucketMembers(Groups(s), ConceptOf, g.concept);
      forall c | c in g.candidates ensures c.ref in d.outcome.entry.active {
        ComposedLists(BucketOf(Groups(s), ConceptOf, g.concept), g, c);
      }
    }
  }

  lemma IdentListed(g: Graph, o: Outcome)
    requires InGraph(g, o)
    ensures if o.Resolved? then Ident(o) in Project(g.entries, EntryIdent)
            else Ident(o) in Project(g.conflicts, ConflictIdent)
  {
    if o.Resolved? {
      var i :| 0 <= i < |g.entries| && g.entries[i] == o.entry;
      assert Project(g.entries, EntryIdent)[i] == Ident(o);
    } else {
      var i :| 0 <= i < |g.conflicts| && g.conflicts[i] == o.conflict;
      assert Project(g.conflicts, ConflictIdent)[i] == Ident(o);
    }
  }

  lemma ComposedLists(groups: seq<Group>, g: Group, c: Candidate)
    requires g in groups && c in g.candidates
    ensures c.ref in SortedRefs(Flat(groups, Members))
  {
    var all := Flat(groups, Members);
    FlatMembers(groups, Members, c);
    assert c in Members(g);
    var i :| 0 <= i < |all| && all[i] == c;
    assert Project(all, RefOf)[i] == c.ref;
    SortedRefsPermute(all);
    SameMembers(SortedRefs(all), Project(all, RefOf));
  }

  /** Every entry that is not a composition, and every conflict, is a possible outcome of some group. */
  lemma NothingInvented(graph: Graph, host: string, version: string, s: seq<Candidate>, k: Knowledge, opts: Options,
                        extra: seq<ToolSource>, o: Outcome) returns (g: Group, d: Decision)
    requires IsGraph(graph, host, version, s, k, opts, extra) && InGraph(graph, o)
    requires o.Resolved? ==> !o.entry.composed
    ensures g in Groups(s) && !Composes(k, g.concept)
    ensures Possible(d, g, k.programs, k.CapabilityOf(g.concept), opts) && d.outcome == o
  {
    var ds := DecisionsOf(graph, host, version, s, k, opts, extra);
    GraphMembers(graph, host, version, s, extra, ds, o);
    var i :| 0 <= i < |ds| && OutcomesOf(ds)[i] == o;
    var t := Tasks(Groups(s), k)[i];
    TasksSound(Groups(s), k);
    assert Settles(ds[i], t, k, opts) && TaskSound(Groups(s), k, t);
    g, d := t.group, ds[i];
  }

  /* ---- conservation of sources ---- */

  function SourcesOf(o: Outcome): seq<string> {
    if o.Resolved? then EntrySources(o.entry) else ConflictSources(o.conflict)
  }

  function EntrySources(e: Entry): seq<string> {
    e.active + e.ignored
  }

  function ConflictSources(c: Conflict): seq<string> {
    Project(c.candidates, RefOf)
  }

  function TaskMembers(t: Task): seq<Candidate> {
    match t
    case Compose(_, groups) => Flat(groups, Members)
    case Decide(g) => g.candidates
  }

  /** Under REPLACE and UNION_BY_ID the repeats of a content are listed nowhere: of the sources of one
      content only the one with the least reference is. */
  function OmittedFor(s: seq<Candidate>, e: Entry): seq<string> {
    Omitted(GroupFor(s, e.concept + [NUL] + e.logicalId), e)
  }

  function OmittedBy(s: seq<Candidate>): Entry -> seq<string> {
    (e: Entry) => OmittedFor(s, e)
  }

  lemma GroupByIdent(s: seq<Candidate>, g: Group)
    requires g in Groups(s)
    ensures GroupFor(s, g.concept + [NUL] + g.logicalId) == g
  {
    var i :| 0 <= i < |Groups(s)| && Groups(s)[i] == g;
    var key := KeyOfGroup(s, i);
    HasNul(s, key);
    SplitJoins(key);
  }

  /** Listed or omitted, every source of the task once. */
  ghost predicate Conserves(s: seq<Candidate>, o: Outcome, t: Task) {
    multiset(SourcesOf(o)) + multiset(Flat(EntryIn(o), OmittedBy(s))) == multiset(Project(TaskMembers(t), RefOf))
  }

  lemma TaskConserves(s: seq<Candidate>, d: Decision, t: Task, k: Knowledge, opts: Options)
    requires Settles(d, t, k, opts) && TaskSound(Groups(s), k, t) && DistinctRefs(s)
    ensures Conserves(s, d.outcome, t)
  {
    OmittedOfOne(s, d.outcome);
    match t
    case Compose(concept, groups) => SortedRefsPermute(Flat(groups, Members));
    case Decide(g) =>
      GroupRefsDistinct(s);
      assert DistinctRefs(g.candidates);
      DecisionConserves(s, d, g, k, opts);
  }

  lemma DecisionConserves(s: seq<Candidate>, d: Decision, g: Group, k: Knowledge, opts: Options)
    requires g in Groups(s) && DistinctRefs(g.candidates) && Possible(d, g, k.programs, k.CapabilityOf(g.concept), opts)
    ensures var o := d.outcome;
            multiset(SourcesOf(o)) + multiset(if o.Resolved? then OmittedFor(s, o.entry) else [])
              == multiset(Project(g.candidates, RefOf))
  {
    var orders :| GroupIterates(orders, g, opts.scopeRank)
                  && d == Decided(g, k.programs, k.CapabilityOf(g.concept), opts, orders);
    if d.outcome.Resolved? {
      SourcesConservedWithOmitted(g, k.programs, k.CapabilityOf(g.concept), opts, orders);
      EvidenceIsBacked(g, k.programs, k.CapabilityOf(g.concept), opts, orders);
      GroupByIdent(s, g);
    } else {
      ConflictKeepsCandidates(g, k.programs, k.CapabilityOf(g.concept), opts, orders);
      SameSourcesRefs(d.outcome.conflict.candidates, g.candidates);
    }
  }

  lemma SameSourcesRefs(s: seq<Candidate>, t: seq<Candidate>)
    requires SameSources(s, t)
    ensures Project(s, RefOf) == Project(t, RefOf)
  {
  }

  lemma OmittedOfOne(s: seq<Candidate>, o: Outcome)
    ensures Flat(EntryIn(o), OmittedBy(s)) == if o.Resolved? then OmittedFor(s, o.entry) else []
  {
    if o.Resolved? {
      assert [o.entry][..0] == [];
      assert Flat([o.entry], OmittedBy(s)) == [] + OmittedBy(s)(o.entry);
    }
  }

  /** What outcomes list and omit. */
  ghost function ListedOrOmitted(s: seq<Candidate>, os: seq<Outcome>): multiset<string> {
    multiset(Flat(os, SourcesOf)) + multiset(Flat(Flat(os, EntryIn), OmittedBy(s)))
  }

  lemma OneMore(s: seq<Candidate>, os: seq<Outcome>)
    requires os != []
    ensures var p, o := os[..|os| - 1], os[|os| - 1];
            ListedOrOmitted(s, os)
              == ListedOrOmitted(s, p) + (multiset(SourcesOf(o)) + multiset(Flat(EntryIn(o), OmittedBy(s))))
  {
    var p, o := os[..|os| - 1], os[|os| - 1];
    FlatAppend(Flat(p, EntryIn), EntryIn(o), OmittedBy(s));
  }

  ghost function RefsIn(ts: seq<Task>): multiset<string> {
    multiset(Project(Flat(ts, TaskMembers), RefOf))
  }

  lemma OneMoreTask(ts: seq<Task>)
    requires ts != []
    ensures RefsIn(ts) == RefsIn(ts[..|ts| - 1]) + multiset(Project(TaskMembers(ts[|ts| - 1]), RefOf))
  {
    var n := |ts| - 1;
    ProjectAppend(Flat(ts[..n], TaskMembers), TaskMembers(ts[n]), RefOf);
  }

  /** Every task's decision lists or omits exactly its sources. */
  ghost predicate AllConserve(s: seq<Candidate>, ds: seq<Decision>, ts: seq<Task>) {
    |ds| == |ts| && forall i | 0 <= i < |ts| :: Conserves(s, ds[i].outcome, ts[i])
  }

  lemma TasksConserve(s: seq<Candidate>, ds: seq<Decision>, ts: seq<Task>, k: Knowledge, opts: Options)
    requires SettlesAll(ds, ts, k, opts) && (forall t | t in ts :: TaskSound(Groups(s), k, t)) && DistinctRefs(s)
    ensures ListedOrOmitted(s, OutcomesOf(ds)) == RefsIn(ts)
  {
    forall i | 0 <= i < |ts| ensures Conserves(s, ds[i].outcome, ts[i]) {
      assert ts[i] in ts && Settles(ds[i], ts[i], k, opts);
      TaskConserves(s, ds[i], ts[i], k, opts);
    }
    ConserveTogether(s, ds, ts);
  }

  lemma {:induction false} ConserveTogether(s: seq<Candidate>, ds: seq<Decision>, ts: seq<Task>)
    requires AllConserve(s, ds, ts)
    ensures ListedOrOmitted(s, OutcomesOf(ds)) == RefsIn(ts)
  {
    if ds != [] {
      var n := |ds| - 1;
      ConserveTogether(s, ds[..n], ts[..n]);
      OutcomesPrefix(ds);
      OneMore(s, OutcomesOf(ds));
      OneMoreTask(ts);
      assert Conserves(s, ds[n].outcome, ts[n]);
    }
  }

  lemma OutcomesPrefix(ds: seq<Decision>)
    requires ds != []
    ensures OutcomesOf(ds)[..|ds| - 1] == OutcomesOf(ds[..|ds| - 1])
    ensures OutcomesOf(ds)[|ds| - 1] == ds[|ds| - 1].outcome
  {
  }

  lemma {:induction false} DecideMembers(groups: seq<Group>)
    ensures Flat(Project(groups, DecideGroup), TaskMembers) == Flat(groups, Members)
  {
    if groups != [] {
      var ts := Project(groups, DecideGroup);
      assert ts[..|ts| - 1] == Project(groups[..|groups| - 1], DecideGroup);
      DecideMembers(groups[..|groups| - 1]);
    }
  }

  lemma ConceptCovers(k: Knowledge, concept: string, groups: seq<Group>)
    ensures Flat(TasksOf(k, concept, groups), TaskMembers) == Flat(groups, Members)
  {
    var ts := TasksOf(k, concept, groups);
    if Composes(k, concept) {
      assert ts[..0] == [];
      assert Flat(ts, TaskMembers) == [] + TaskMembers(ts[0]);
    } else {
      DecideMembers(groups);
    }
  }

  lemma {:induction false} TasksCover(groups: seq<Group>, k: Knowledge, ks: seq<string>)
    ensures Flat(Flat(ks, TasksFor(groups, k)), TaskMembers) == Flat(Gather(groups, ConceptOf, ks), Members)
  {
    if ks != [] {
      var p, c := ks[..|ks| - 1], ks[|ks| - 1];
      TasksCover(groups, k, p);
      ConceptCovers(k, c, BucketOf(groups, ConceptOf, c));
      FlatAppend(Flat(p, TasksFor(groups, k)), TasksIn(groups, k, c), TaskMembers);
      FlatAppend(Gather(groups, ConceptOf, p), BucketOf(groups, ConceptOf, c), Members);
    }
  }

  /** Splitting outcomes into entries and conflicts keeps their sources. */
  lemma {:induction false} SplitSources(os: seq<Outcome>)
    ensures multiset(Flat(Flat(os, EntryIn), EntrySources)) + multiset(Flat(Flat(os, ConflictIn), ConflictSources))
         == multiset(Flat(os, SourcesOf))
  {
    if os != [] {
      var p, o := os[..|os| - 1], os[|os| - 1];
      SplitSources(p);
      FlatAppend(Flat(p, EntryIn), EntryIn(o), EntrySources);
      FlatAppend(Flat(p, ConflictIn), ConflictIn(o), ConflictSources);
      OneOutcomeSources(o);
    }
  }

  lemma OneOutcomeSources(o: Outcome)
    ensures Flat(EntryIn(o), EntrySources) + Flat(ConflictIn(o), ConflictSources) == SourcesOf(o)
    ensures o.Resolved? ==> Flat(ConflictIn(o), ConflictSources) == []
  {
    if o.Resolved? {
      assert [o.entry][..0] == [];
      assert Flat([o.entry], EntrySources) == [] + EntrySources(o.entry);
    } else {
      assert [o.conflict][..0] == [];
      assert Flat([o.conflict], ConflictSources) == [] + ConflictSources(o.conflict);
    }
  }

  /** Conservation over the whole graph: every source found is active, ignored, in a conflict, or omitted
      as a repeat under REPLACE or UNION_BY_ID, exactly once. */
  lemma GraphConservesSources(g: Graph, host: string, version: string, s: seq<Candidate>, k: Knowledge, opts: Options,
                              extra: seq<ToolSource>)
    requires IsGraph(g, host, version, s, k, opts, extra) && DistinctRefs(s)
    ensures multiset(Flat(g.entries, EntrySources)) + multiset(Flat(g.conflicts, ConflictSources))
              + multiset(Flat(g.entries, OmittedBy(s)))
         == multiset(Project(s, RefOf))
  {
    var ds := DecisionsOf(g, host, version, s, k, opts, extra);
    TasksSound(Groups(s), k);
    TasksConserve(s, ds, Tasks(Groups(s), k), k, opts);
    TasksCoverCandidates(s, k);
    SplitSources(OutcomesOf(ds));
    SortKeepsSources(s, OutcomesOf(ds));
  }

  lemma TasksCoverCandidates(s: seq<Candidate>, k: Knowledge)
    ensures multiset(Flat(Tasks(Groups(s), k), TaskMembers)) == multiset(s)
    ensures multiset(Project(Flat(Tasks(Groups(s), k), TaskMembers), RefOf)) == multiset(Project(s, RefOf))
  {
    var groups := Groups(s);
    TasksCover(groups, k, Concepts(groups));
    ConceptsExact(groups);
    GatherPartitions(groups, ConceptOf, Concepts(groups));
    FlatPermutation(Gather(groups, ConceptOf, Concepts(groups)), groups, Members);
    GroupsPartition(s);
    ProjectPermutation(Flat(Tasks(groups, k), TaskMembers), s, RefOf);
  }

  lemma SortKeepsSources(s: seq<Candidate>, os: seq<Outcome>)
    ensures multiset(Flat(SortedEntries(os), EntrySources)) == multiset(Flat(Flat(os, EntryIn), EntrySources))
    ensures multiset(Flat(SortedEntries(os), OmittedBy(s))) == multiset(Flat(Flat(os, EntryIn), OmittedBy(s)))
    ensures multiset(Flat(SortedConflicts(os), ConflictSources))
              == multiset(Flat(Flat(os, ConflictIn), ConflictSources))
  {
    ByOrder(EntryIdent);
    ByOrder(ConflictIdent);
    SortSorted(Flat(os, EntryIn), By(EntryIdent));
    SortSorted(Flat(os, ConflictIn), By(ConflictIdent));
    FlatPermutation(SortedEntries(os), Flat(os, EntryIn), EntrySources);
    FlatPermutation(SortedEntries(os), Flat(os, EntryIn), OmittedBy(s));
    FlatPermutation(SortedConflicts(os), Flat(os, ConflictIn), ConflictSources);
  }
}
