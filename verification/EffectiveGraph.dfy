/** From observations to the Effective Graph: filter by host, extract, group, resolve or compose,
    sort. */
module EffectiveGraph {
  import opened Ordering
  import opened Buckets
  import opened TableMerge
  import opened Candidates
  import opened MergeOperators
  import opened MergeLaws
  import opened Identity
  import opened Duplicates

  /** What one observation yields; None when its content cannot be read as candidates. */
  datatype Observation = Observation(host: string, extracted: Option<seq<Candidate>>)

  datatype Graph = Graph(
    host: string, version: string, entries: seq<Entry>, conflicts: seq<Conflict>,
    ambiguous: seq<AmbiguousIdentity>, duplicates: seq<DuplicateCapability>)

  datatype Computation = Computed(graph: Graph) | UnknownHost | ExtractionFailed

  const KNOWN_HOSTS := {
    "claude-code", "codex", "cursor", "github-copilot", "antigravity-cli", "pi", "openclaw", "hermes-agent"
  }

  /* ---- extraction ---- */

  function HostIs(host: string): Observation -> bool {
    (o: Observation) => o.host == host
  }

  function Yield(o: Observation): seq<Candidate> {
    if o.extracted.Some? then o.extracted.value else []
  }

  predicate Readable(s: seq<Observation>) {
    forall o | o in s :: o.extracted.Some?
  }

  predicate CandidateLess(a: Candidate, b: Candidate) {
    if a.concept != b.concept then StrLess(a.concept, b.concept)
    else if a.logicalId != b.logicalId then StrLess(a.logicalId, b.logicalId)
    else StrLess(a.ref, b.ref)
  }

  function ByIdentity(): (Candidate, Candidate) -> bool {
    (a: Candidate, b: Candidate) => CandidateLess(a, b)
  }

  lemma ByIdentityOrder()
    ensures StrictWeak(ByIdentity())
  {
    forall a, b, c
      ensures CandidateLess(a, b) ==> !CandidateLess(b, a)
      ensures CandidateLess(a, c) ==> CandidateLess(a, b) || CandidateLess(b, c)
    {
      StrOrder(a.concept, b.concept, c.concept);
      StrOrder(a.logicalId, b.logicalId, c.logicalId);
      StrOrder(a.ref, b.ref, c.ref);
    }
  }

  lemma TiedByIdentity(a: Candidate, b: Candidate)
    requires !CandidateLess(a, b) && !CandidateLess(b, a)
    ensures a.ref == b.ref
  {
    StrTotal(a.concept, b.concept);
    StrTotal(a.logicalId, b.logicalId);
    StrTotal(a.ref, b.ref);
  }

  lemma RefsBreakTies(s: seq<Candidate>)
    requires DistinctRefs(s)
    ensures TiesEqual(s, ByIdentity())
  {
    forall i, j | 0 <= i < |s| && 0 <= j < |s| && !CandidateLess(s[i], s[j])
      && !CandidateLess(s[j], s[i])
      ensures s[i] == s[j]
    {
      TiedByIdentity(s[i], s[j]);
    }
  }

  /** The candidates of the readable observations, in canonical order. */
  function Canonical(s: seq<Observation>): seq<Candidate> {
    Sort(Flat(s, Yield), ByIdentity())
  }

  lemma CanonicalExact(s: seq<Observation>)
    ensures multiset(Canonical(s)) == multiset(Flat(s, Yield)) && SortedBy(Canonical(s), ByIdentity())
    ensures DistinctRefs(Flat(s, Yield)) ==> DistinctRefs(Canonical(s)) && TiesEqual(Canonical(s), ByIdentity())
  {
    ByIdentityOrder();
    SortSorted(Flat(s, Yield), ByIdentity());
    if DistinctRefs(Flat(s, Yield)) {
      RefsOfPermutation(Flat(s, Yield), Canonical(s));
      RefsBreakTies(Canonical(s));
    }
  }

  method ExtractCandidates(observations: seq<Observation>) returns (r: Option<seq<Candidate>>)
    ensures r.Some? <==> Readable(observations)
    ensures r.Some? ==> multiset(r.value) == multiset(Flat(observations, Yield)) && SortedBy(r.value, ByIdentity())
    ensures r.Some? && DistinctRefs(Flat(observations, Yield)) ==> r.value == Canonical(observations)
  {
    var out: seq<Candidate> := [];
    for i := 0 to |observations|
      invariant out == Flat(observations[..i], Yield)
      invariant forall j :: 0 <= j < i ==> observations[j].extracted.Some?
    {
      FlatSnoc(observations, i, Yield);
      if observations[i].extracted.None? {
        return None;
      }
      out := out + observations[i].extracted.value;
    }
    assert observations[..|observations|] == observations;
    ByIdentityOrder();
    out := SortSlice(out, ByIdentity());
    CanonicalExact(observations);
    if DistinctRefs(Flat(observations, Yield)) {
      SortedUnique(Canonical(observations), out, ByIdentity());
    }
    return Some(out);
  }

  /* ---- composition ---- */

  /** CONCAT_ORDERED over a whole concept: nothing is excluded, only the order may be unknown. */
  function Composed(concept: string, groups: seq<Group>, p: Program, capability: Capability,
                    rank: map<string, int>): Entry {
    var all := Flat(groups, Members);
    var order := ConcatOrder(all, rank);
    var confirmed := order.Some? && capability.Qualified();
    Entry(concept, concept + ".composition", true, p.id, Some(CONCAT_ORDERED),
          if confirmed then InOrder(order.value) else Nobody, SortedRefs(all), [], None,
          Highest(all), ADVISORY, confirmed && Confirms(Highest(all)))
  }

  method ComposeConcept(concept: string, groups: seq<Group>, p: Program, capability: Capability,
                        scopeRank: map<string, int>)
    returns (e: Entry)
    ensures e == Composed(concept, groups, p, capability, scopeRank)
  {
    var all: seq<Candidate> := [];
    for i := 0 to |groups|
      invariant all == Flat(groups[..i], Members)
    {
      FlatSnoc(groups, i, Members);
      all := all + groups[i].candidates;
    }
    assert groups[..|groups|] == groups;
    var refs := CandidateRefs(all);
    var ordered, orderConfirmed := OrderedRefs(all, scopeRank);
    var level := HighestEvidence(all);
    var confirmed := orderConfirmed && capability.Qualified();
    return Entry(concept, concept + ".composition", true, p.id, Some(CONCAT_ORDERED),
                 if confirmed then InOrder(ordered) else Nobody, refs, [], None,
                 level, ADVISORY, confirmed && Confirms(level));
  }

  /** A composition states an order exactly when every scope is ranked and the capability qualified; that
      order is the active sources, each once, by ascending rank and reference. */
  lemma CompositionOrder(concept: string, groups: seq<Group>, p: Program, capability: Capability,
                         rank: map<string, int>)
    ensures var e, all := Composed(concept, groups, p, capability, rank), Flat(groups, Members);
            && multiset(e.active) == multiset(Project(all, RefOf)) && e.ignored == []
            && (e.selected.InOrder? <==> |rank| > 0 && RanksAll(rank, all) && capability.Qualified())
            && (e.selected.InOrder? ==>
                 multiset(e.selected.refs) == multiset(e.active) && RankedListing(e.selected.refs, all, rank))
  {
    var all := Flat(groups, Members);
    ConcatOrderExact(all, rank);
    SortedRefsPermute(all);
  }

  /** The references of the sources when put in order of rank, then reference. */
  ghost predicate RankedListing(refs: seq<string>, all: seq<Candidate>, rank: map<string, int>) {
    exists t: seq<Candidate> :: multiset(t) == multiset(all) && RankThenRef(t, rank) && refs == Project(t, RefOf)
  }

  /** The order in which groups and sources were found does not show in it. */
  lemma CompositionIgnoresOrder(concept: string, groups: seq<Group>, others: seq<Group>, p: Program,
                                capability: Capability, rank: map<string, int>)
    requires multiset(Flat(groups, Members)) == multiset(Flat(others, Members)) && DistinctRefs(Flat(groups, Members))
    ensures Composed(concept, groups, p, capability, rank) == Composed(concept, others, p, capability, rank)
  {
    var s, t := Flat(groups, Members), Flat(others, Members);
    ConcatIgnoresOrder(s, t, rank);
    ProjectPermutation(s, t, RefOf);
    StringSortPermutation(Project(s, RefOf), Project(t, RefOf));
    HighestPermutation(s, t);
  }

  /* ---- one concept ---- */

  predicate Composes(k: Knowledge, concept: string) {
    ProgramFor(k.programs, concept).Some? && ProgramFor(k.programs, concept).value.operator == CONCAT_ORDERED
  }

  function ConceptOf(g: Group): string {
    g.concept
  }

  /** What has to be decided: one composition for a whole concept, or one logical group. */
  datatype Task = Compose(concept: string, groups: seq<Group>) | Decide(group: Group)

  function DecideGroup(g: Group): Task {
    Decide(g)
  }

  function TasksOf(k: Knowledge, concept: string, groups: seq<Group>): seq<Task> {
    if Composes(k, concept) then [Compose(concept, groups)] else Project(groups, DecideGroup)
  }

  /** The decision is one the task can have. Composing writes into nothing. */
  ghost predicate Settles(d: Decision, t: Task, k: Knowledge, opts: Options) {
    match t
    case Compose(concept, groups) => Composes(k, concept) && d == Composition(k, opts, concept, groups)
    case Decide(g) => Possible(d, g, k.programs, k.CapabilityOf(g.concept), opts)
  }

  function Composition(k: Knowledge, opts: Options, concept: string, groups: seq<Group>): Decision
    requires Composes(k, concept)
  {
    var p := ProgramFor(k.programs, concept).value;
    Decision(Resolved(Composed(concept, groups, p, k.CapabilityOf(concept), opts.scopeRank)), Flat(groups, Members))
  }

  ghost predicate SettlesAll(ds: seq<Decision>, ts: seq<Task>, k: Knowledge, opts: Options) {
    |ds| == |ts| && forall i :: 0 <= i < |ts| ==> Settles(ds[i], ts[i], k, opts)
  }

  /** References differ within every group. */
  ghost predicate RefsApart(groups: seq<Group>) {
    forall g | g in groups :: DistinctRefs(g.candidates)
  }

  method ResolveConcept(k: Knowledge, opts: Options, concept: string, groups: seq<Group>) returns (ds: seq<Decision>)
    requires forall g | g in groups :: g.concept == concept
    ensures RefsApart(groups) ==> SettlesAll(ds, TasksOf(k, concept, groups), k, opts)
  {
    var capability := k.CapabilityOf(concept);
    var program := LookupProgram(k.programs, concept);
    if program.Some? && program.value.operator.Valid() && program.value.operator == CONCAT_ORDERED {
      var e := ComposeConcept(concept, groups, program.value, capability, opts.scopeRank);
      return [Decision(Resolved(e), Flat(groups, Members))];
    }
    ds := DecideGroups(k, opts, concept, groups);
  }

  method DecideGroups(k: Knowledge, opts: Options, concept: string, groups: seq<Group>) returns (ds: seq<Decision>)
    requires forall g | g in groups :: g.concept == concept
    ensures RefsApart(groups) ==> SettlesAll(ds, Project(groups, DecideGroup), k, opts)
  {
    ds := [];
    for i := 0 to |groups|
      invariant RefsApart(groups) ==> SettlesAll(ds, Project(groups[..i], DecideGroup), k, opts)
    {
      var g := groups[i];
      var d := ResolveGroup(g, k.programs, k.CapabilityOf(concept), opts);
      assert g in groups;
      if RefsApart(groups) {
        ProjectSnoc(groups, i, DecideGroup);
        SettlesMore(ds, Project(groups[..i], DecideGroup), [d], [Decide(g)], k, opts);
      }
      ds := ds + [d];
    }
    assert groups[..|groups|] == groups;
  }

  /* ---- the whole graph ---- */

  function TasksIn(groups: seq<Group>, k: Knowledge, concept: string): seq<Task> {
    TasksOf(k, concept, BucketOf(groups, ConceptOf, concept))
  }

  function TasksFor(groups: seq<Group>, k: Knowledge): string -> seq<Task> {
    (concept: string) => TasksIn(groups, k, concept)
  }

  function Concepts(groups: seq<Group>): seq<string> {
    Sort(KeysOf(groups, ConceptOf), StrLess)
  }

  function Tasks(groups: seq<Group>, k: Knowledge): seq<Task> {
    Flat(Concepts(groups), TasksFor(groups, k))
  }

  function OutcomeOf(d: Decision): Outcome {
    d.outcome
  }

  function OutcomesOf(ds: seq<Decision>): seq<Outcome> {
    Project(ds, OutcomeOf)
  }

  function LeftIn(d: Decision): seq<Candidate> {
    d.left
  }

  /** All candidates as deciding leaves them. */
  function LeftAfter(ds: seq<Decision>): seq<Candidate> {
    Flat(ds, LeftIn)
  }

  /** A candidate that was read, as it is left. */
  function NowIn(left: seq<Candidate>, c: Candidate): Candidate {
    if left == [] then c
    else if left[|left| - 1].ref == c.ref then left[|left| - 1]
    else NowIn(left[..|left| - 1], c)
  }

  function PairNow(left: seq<Candidate>): AmbiguousIdentity -> AmbiguousIdentity {
    (x: AmbiguousIdentity) => AmbiguousIdentity(NowIn(left, x.a), NowIn(left, x.b))
  }

  /** Pairs found before anything was decided list their candidates as they are left. */
  function Relisted(pairs: seq<AmbiguousIdentity>, left: seq<Candidate>): seq<AmbiguousIdentity> {
    Project(pairs, PairNow(left))
  }

  function EntryIn(o: Outcome): seq<Entry> {
    if o.Resolved? then [o.entry] else []
  }

  function ConflictIn(o: Outcome): seq<Conflict> {
    if o.Unresolved? then [o.conflict] else []
  }

  predicate PairLess(a: (string, string), b: (string, string)) {
    if a.0 != b.0 then StrLess(a.0, b.0) else StrLess(a.1, b.1)
  }

  function EntryIdent(e: Entry): (string, string) {
    (e.concept, e.logicalId)
  }

  function ConflictIdent(c: Conflict): (string, string) {
    (c.concept, c.logicalId)
  }

  function Ident(o: Outcome): (string, string) {
    if o.Resolved? then EntryIdent(o.entry) else ConflictIdent(o.conflict)
  }

  function GroupIdent(g: Group): (string, string) {
    (g.concept, g.logicalId)
  }

  function TaskIdent(t: Task): (string, string) {
    match t
    case Compose(concept, _) => (concept, concept + ".composition")
    case Decide(g) => GroupIdent(g)
  }

  function By<T>(ident: T -> (string, string)): (T, T) -> bool {
    (a: T, b: T) => PairLess(ident(a), ident(b))
  }

  function SortedEntries(os: seq<Outcome>): seq<Entry> {
    Sort(Flat(os, EntryIn), By(EntryIdent))
  }

  function SortedConflicts(os: seq<Outcome>): seq<Conflict> {
    Sort(Flat(os, ConflictIn), By(ConflictIdent))
  }

  /** The graph that lists these decisions. */
  ghost predicate Lists(g: Graph, host: string, version: string, s: seq<Candidate>, extra: seq<ToolSource>,
                        ds: seq<Decision>) {
    && g.host == host && g.version == version
    && g.entries == SortedEntries(OutcomesOf(ds)) && g.conflicts == SortedConflicts(OutcomesOf(ds))
    && g.ambiguous == Relisted(Ambiguities(s), LeftAfter(ds))
    && IsReport(g.duplicates, Flat(s, ToolsOf) + extra)
  }

  /** The graph lists a decision for every task, and that is all there is; the candidates are left so. */
  ghost predicate Gives(g: Graph, left: seq<Candidate>, host: string, version: string, s: seq<Candidate>,
                        k: Knowledge, opts: Options, extra: seq<ToolSource>) {
    exists ds :: SettlesAll(ds, Tasks(Groups(s), k), k, opts) && Lists(g, host, version, s, extra, ds)
              && left == LeftAfter(ds)
  }

  /** A graph of the candidates. */
  ghost predicate IsGraph(g: Graph, host: string, version: string, s: seq<Candidate>, k: Knowledge, opts: Options,
                          extra: seq<ToolSource>) {
    exists left :: Gives(g, left, host, version, s, k, opts, extra)
  }

  /** The decisions behind a graph. */
  lemma DecisionsOf(g: Graph, host: string, version: string, s: seq<Candidate>, k: Knowledge, opts: Options,
                    extra: seq<ToolSource>) returns (ds: seq<Decision>)
    requires IsGraph(g, host, version, s, k, opts, extra)
    ensures SettlesAll(ds, Tasks(Groups(s), k), k, opts) && Lists(g, host, version, s, extra, ds)
  {
    var left :| Gives(g, left, host, version, s, k, opts, extra);
    ds :| SettlesAll(ds, Tasks(Groups(s), k), k, opts) && Lists(g, host, version, s, extra, ds)
          && left == LeftAfter(ds);
  }

  /** An unknown host or an unreadable observation is an error; otherwise the result is a graph of the
      candidates read for the host, and these are left so. */
  ghost predicate IsComputation(r: Computation, left: seq<Candidate>, host: string, version: string,
                                observations: seq<Observation>, k: Knowledge, opts: Options, extra: seq<ToolSource>) {
    var relevant := BucketOf(observations, HostIs(host), true);
    && (r.UnknownHost? <==> host !in KNOWN_HOSTS)
    && (r.ExtractionFailed? <==> host in KNOWN_HOSTS && !Readable(relevant))
    && (r.Computed? ==> Gives(r.graph, left, host, version, Canonical(relevant), k, opts, extra))
    && (!r.Computed? ==> left == [])
  }

  lemma ByOrder<T(!new)>(ident: T -> (string, string))
    ensures StrictWeak(By(ident))
  {
    forall a: T, b: T, c: T
      ensures PairLess(ident(a), ident(b)) ==> !PairLess(ident(b), ident(a))
      ensures PairLess(ident(a), ident(c)) ==> PairLess(ident(a), ident(b)) || PairLess(ident(b), ident(c))
    {
      StrOrder(ident(a).0, ident(b).0, ident(c).0);
      StrOrder(ident(a).1, ident(b).1, ident(c).1);
    }
  }

  /** Different identities leave no ties for an unstable sort to break. */
  lemma IdentsBreakTies<T(!new)>(s: seq<T>, ident: T -> (string, string))
    requires NoDuplicates(Project(s, ident))
    ensures TiesEqual(s, By(ident))
  {
    forall i, j | 0 <= i < |s| && 0 <= j < |s| && !By(ident)(s[i], s[j])
      && !By(ident)(s[j], s[i])
      ensures s[i] == s[j]
    {
      TiedPairs(ident(s[i]), ident(s[j]));
      assert Project(s, ident)[i] == Project(s, ident)[j];
    }
  }

  lemma TiedPairs(a: (string, string), b: (string, string))
    requires !PairLess(a, b) && !PairLess(b, a)
    ensures a == b
  {
    StrTotal(a.0, b.0);
    StrTotal(a.1, b.1);
  }

  /* ---- every identity is decided once ---- */

  lemma OutcomeIdent(d: Decision, t: Task, k: Knowledge, opts: Options)
    requires Settles(d, t, k, opts)
    ensures Ident(d.outcome) == TaskIdent(t)
  {
    if t.Decide? {
      var g := t.group;
      var orders :| GroupIterates(orders, g, opts.scopeRank)
                    && d == Decided(g, k.programs, k.CapabilityOf(g.concept), opts, orders);
      if d.outcome.Resolved? {
        EvidenceIsBacked(g, k.programs, k.CapabilityOf(g.concept), opts, orders);
      } else {
        ConflictIdentity(g, k.programs, k.CapabilityOf(g.concept), opts, orders);
      }
    }
  }

  lemma ConflictIdentity(g: Group, programs: seq<Program>, capability: Capability, opts: Options,
                         orders: seq<seq<Visit>>)
    requires Outcomed(g, programs, capability, opts, orders).Unresolved?
    ensures ConflictIdent(Outcomed(g, programs, capability, opts, orders).conflict) == GroupIdent(g)
  {
  }

  lemma OutcomeIdents(ds: seq<Decision>, ts: seq<Task>, k: Knowledge, opts: Options)
    requires SettlesAll(ds, ts, k, opts)
    ensures Project(OutcomesOf(ds), Ident) == Project(ts, TaskIdent)
  {
    forall i | 0 <= i < |ds| ensures Ident(ds[i].outcome) == TaskIdent(ts[i]) {
      OutcomeIdent(ds[i], ts[i], k, opts);
    }
  }

  /** The identities to be decided for one concept are its groups', or the one composition. */
  lemma ConceptIdents(k: Knowledge, concept: string, groups: seq<Group>)
    requires NoDuplicates(Project(groups, GroupIdent)) && forall g | g in groups :: g.concept == concept
    ensures NoDuplicates(Project(TasksOf(k, concept, groups), TaskIdent))
    ensures forall i | i in Project(TasksOf(k, concept, groups), TaskIdent) :: i.0 == concept
  {
    var ts := TasksOf(k, concept, groups);
    if !Composes(k, concept) {
      assert Project(ts, TaskIdent) == Project(groups, GroupIdent);
      forall i | 0 <= i < |groups| ensures Project(groups, GroupIdent)[i].0 == concept {
        assert groups[i] in groups;
      }
    }
  }

  lemma {:induction false} IdentsDistinct(groups: seq<Group>, k: Knowledge, ks: seq<string>)
    requires NoDuplicates(ks) && NoDuplicates(Project(groups, GroupIdent))
    ensures NoDuplicates(Project(Flat(ks, TasksFor(groups, k)), TaskIdent))
    ensures forall i | i in Project(Flat(ks, TasksFor(groups, k)), TaskIdent) :: i.0 in ks
  {
    if ks != [] {
      var p, c := ks[..|ks| - 1], ks[|ks| - 1];
      IdentsDistinct(groups, k, p);
      var bucket := BucketOf(groups, ConceptOf, c);
      BucketMembers(groups, ConceptOf, c);
      BucketStaysDistinct(groups, ConceptOf, c, GroupIdent);
      ConceptIdents(k, c, bucket);
      var before, more := Flat(p, TasksFor(groups, k)), TasksIn(groups, k, c);
      ProjectAppend(before, more, TaskIdent);
      AppendDistinct(Project(before, TaskIdent), Project(more, TaskIdent), p, c);
    }
  }

  lemma AppendDistinct(a: seq<(string, string)>, b: seq<(string, string)>, ks: seq<string>, c: string)
    requires NoDuplicates(a) && NoDuplicates(b) && c !in ks
    requires (forall i | i in a :: i.0 in ks) && (forall i | i in b :: i.0 == c)
    ensures NoDuplicates(a + b)
  {
    var ab := a + b;
    forall i, j | 0 <= i < j < |ab| ensures ab[i] != ab[j] {
      if i < |a| <= j {
        assert a[i] in a && b[j - |a|] in b;
      }
    }
  }

  lemma GroupIdentsDistinct(s: seq<Candidate>)
    ensures NoDuplicates(Project(Groups(s), GroupIdent))
  {
    GroupsDiffer(s);
    forall i, j | 0 <= i < j < |Groups(s)|
      ensures Project(Groups(s), GroupIdent)[i] != Project(Groups(s), GroupIdent)[j]
    {
      assert !SameIdentity(Groups(s)[i], Groups(s)[j]);
    }
  }

  lemma ConceptsExact(groups: seq<Group>)
    ensures NoDuplicates(Concepts(groups))
    ensures forall i :: 0 <= i < |groups| ==> groups[i].concept in Concepts(groups)
  {
    KeysMembers(groups, ConceptOf);
    SortedCopy(KeysOf(groups, ConceptOf));
    forall i | 0 <= i < |groups| ensures groups[i].concept in Concepts(groups) {
      assert ConceptOf(groups[i]) in KeysOf(groups, ConceptOf);
    }
  }

  lemma OutcomesDistinct(s: seq<Candidate>, k: Knowledge, opts: Options, ds: seq<Decision>)
    requires SettlesAll(ds, Tasks(Groups(s), k), k, opts)
    ensures NoDuplicates(Project(OutcomesOf(ds), Ident))
  {
    GroupIdentsDistinct(s);
    ConceptsExact(Groups(s));
    IdentsDistinct(Groups(s), k, Concepts(Groups(s)));
    OutcomeIdents(ds, Tasks(Groups(s), k), k, opts);
  }

  function EntryIdents(os: seq<Outcome>): seq<(string, string)> {
    Project(Flat(os, EntryIn), EntryIdent)
  }

  function ConflictIdents(os: seq<Outcome>): seq<(string, string)> {
    Project(Flat(os, ConflictIn), ConflictIdent)
  }

  lemma LastEntry(os: seq<Outcome>)
    requires os != []
    ensures EntryIdents(os) == EntryIdents(os[..|os| - 1]) + Project(EntryIn(os[|os| - 1]), EntryIdent)
  {
    var o := os[|os| - 1];
    ProjectAppend(Flat(os[..|os| - 1], EntryIn), EntryIn(o), EntryIdent);
  }

  lemma LastConflict(os: seq<Outcome>)
    requires os != []
    ensures ConflictIdents(os) == ConflictIdents(os[..|os| - 1]) + Project(ConflictIn(os[|os| - 1]), ConflictIdent)
  {
    var o := os[|os| - 1];
    ProjectAppend(Flat(os[..|os| - 1], ConflictIn), ConflictIn(o), ConflictIdent);
  }

  /** Entries and conflicts carry the identities of their outcomes. */
  lemma {:induction false} SplitIdents(os: seq<Outcome>)
    ensures multiset(EntryIdents(os)) + multiset(ConflictIdents(os)) == multiset(Project(os, Ident))
  {
    if os != [] {
      SplitIdents(os[..|os| - 1]);
      LastEntry(os);
      LastConflict(os);
      LastIdent(os);
      OneIdent(os[|os| - 1]);
    }
  }

  lemma OneIdent(o: Outcome)
    ensures multiset(Project(EntryIn(o), EntryIdent)) + multiset(Project(ConflictIn(o), ConflictIdent))
         == multiset([Ident(o)])
  {
    if o.Resolved? {
      assert Project([o.entry], EntryIdent) == [Ident(o)];
    } else {
      assert Project([o.conflict], ConflictIdent) == [Ident(o)];
    }
  }

  lemma LastIdent(os: seq<Outcome>)
    requires os != []
    ensures Project(os, Ident) == Project(os[..|os| - 1], Ident) + [Ident(os[|os| - 1])]
  {
  }

  /** No identity is decided twice, within or across the two lists. */
  lemma SplitDistinct(os: seq<Outcome>)
    requires NoDuplicates(Project(os, Ident))
    ensures NoDuplicates(EntryIdents(os)) && NoDuplicates(ConflictIdents(os))
    ensures forall i :: i in EntryIdents(os) ==> i !in ConflictIdents(os)
  {
    var a, b := EntryIdents(os), ConflictIdents(os);
    SplitIdents(os);
    forall i ensures multiset(a)[i] + multiset(b)[i] <= 1 {
      Multiplicity(Project(os, Ident), i);
      assert (multiset(a) + multiset(b))[i] == multiset(a)[i] + multiset(b)[i];
    }
    OnceIsDistinct(a);
    OnceIsDistinct(b);
    forall i | i in a ensures i !in b {
      assert multiset(a)[i] >= 1;
    }
  }

  /* ---- the computation ---- */

  lemma GroupRefsDistinct(s: seq<Candidate>)
    requires DistinctRefs(s)
    ensures RefsApart(Groups(s))
  {
    forall g | g in Groups(s) ensures DistinctRefs(g.candidates) {
      var i :| 0 <= i < |Groups(s)| && Groups(s)[i] == g;
      var key := KeyOfGroup(s, i);
      SubsetRefs(s, KeyOf, key);
      GroupAtPermutes(s, key);
      RefsOfPermutation(BucketOf(s, KeyOf, key), g.candidates);
    }
  }

  /** Filters, extracts, matches, resolves concept by concept and sorts. The candidates' tables are the
      observations' own: `left` is what the observations of the host hold afterwards. */
  method ComputeEffectiveGraph(host: string, version: string, observations: seq<Observation>, k: Knowledge,
                               opts: Options, extra: seq<ToolSource>)
    returns (r: Computation, left: seq<Candidate>)
    ensures r.UnknownHost? <==> host !in KNOWN_HOSTS
    ensures r.ExtractionFailed? <==> host in KNOWN_HOSTS && !Readable(BucketOf(observations, HostIs(host), true))
    ensures DistinctRefs(Flat(BucketOf(observations, HostIs(host), true), Yield)) ==>
              IsComputation(r, left, host, version, observations, k, opts, extra)
  {
    if host !in KNOWN_HOSTS {
      return UnknownHost, [];
    }
    var relevant: seq<Observation> := [];
    var key := HostIs(host);
    for i := 0 to |observations|
      invariant relevant == BucketOf(observations[..i], key, true)
    {
      BucketSnoc(observations, i, key, true);
      if observations[i].host == host {
        relevant := relevant + [observations[i]];
      }
    }
    assert observations[..|observations|] == observations;
    var candidates := ExtractCandidates(relevant);
    if candidates.None? {
      return ExtractionFailed, [];
    }
    CanonicalExact(relevant);
    var g;
    g, left := BuildGraph(host, version, candidates.value, k, opts, extra);
    return Computed(g), left;
  }

  method BuildGraph(host: string, version: string, candidates: seq<Candidate>, k: Knowledge, opts: Options,
                    extra: seq<ToolSource>)
    returns (g: Graph, left: seq<Candidate>)
    ensures DistinctRefs(candidates) ==> Gives(g, left, host, version, candidates, k, opts, extra)
  {
    var groups, ambiguous := MatchIdentities(candidates);
    var entries, conflicts;
    entries, conflicts, left := ResolveAll(groups, k, opts);
    ghost var ds := [];
    if DistinctRefs(candidates) {
      GroupRefsDistinct(candidates);
      ds := Listing(entries, conflicts, left, Tasks(groups, k), k, opts);
      OutcomesDistinct(candidates, k, opts, ds);
      SplitDistinct(OutcomesOf(ds));
    }
    entries := SortUnique(entries, EntryIdent);
    conflicts := SortUnique(conflicts, ConflictIdent);
    var tools := MCPToolSources(candidates);
    var duplicates := DetectDuplicateCapabilities(tools + extra);
    g := Graph(host, version, entries, conflicts, Relisted(ambiguous, left), duplicates);
    assert DistinctRefs(candidates) ==> Lists(g, host, version, candidates, extra, ds);
  }

  /** The last sorts may break ties as they like: where references differ there are none. */
  method SortUnique<T(!new)>(s: seq<T>, ident: T -> (string, string)) returns (r: seq<T>)
    ensures SortedBy(r, By(ident)) && multiset(r) == multiset(s)
    ensures NoDuplicates(Project(s, ident)) ==> r == Sort(s, By(ident))
  {
    ByOrder(ident);
    r := SortSlice(s, By(ident));
    if NoDuplicates(Project(s, ident)) {
      IdentsBreakTies(s, ident);
      SortSorted(s, By(ident));
      TiesOfPermutation(s, r, By(ident));
      SortedUnique(r, Sort(s, By(ident)), By(ident));
    }
  }

  /** The entries, the conflicts and the candidates left by possible decisions of the tasks, in their order. */
  ghost predicate AreOutcomes(entries: seq<Entry>, conflicts: seq<Conflict>, left: seq<Candidate>, ts: seq<Task>,
                              k: Knowledge, opts: Options) {
    exists ds :: SettlesAll(ds, ts, k, opts) && Split(entries, conflicts, left, ds)
  }

  predicate Split(entries: seq<Entry>, conflicts: seq<Conflict>, left: seq<Candidate>, ds: seq<Decision>) {
    && entries == Flat(OutcomesOf(ds), EntryIn) && conflicts == Flat(OutcomesOf(ds), ConflictIn)
    && left == LeftAfter(ds)
  }

  lemma Listing(entries: seq<Entry>, conflicts: seq<Conflict>, left: seq<Candidate>, ts: seq<Task>, k: Knowledge,
                opts: Options)
    returns (ds: seq<Decision>)
    requires AreOutcomes(entries, conflicts, left, ts, k, opts)
    ensures SettlesAll(ds, ts, k, opts) && Split(entries, conflicts, left, ds)
  {
    ds :| SettlesAll(ds, ts, k, opts) && Split(entries, conflicts, left, ds);
  }

  method ResolveAll(groups: seq<Group>, k: Knowledge, opts: Options)
    returns (entries: seq<Entry>, conflicts: seq<Conflict>, left: seq<Candidate>)
    ensures RefsApart(groups) ==> AreOutcomes(entries, conflicts, left, Tasks(groups, k), k, opts)
  {
    var order, byConcept := BucketBy(groups, ConceptOf);
    KeysMembers(groups, ConceptOf);
    SortedCopy(order);
    entries, conflicts, left := ResolveInOrder(groups, k, opts, Sort(order, StrLess), byConcept);
  }

  method ResolveInOrder(ghost groups: seq<Group>, k: Knowledge, opts: Options, order: seq<string>,
                        byConcept: map<string, seq<Group>>)
    returns (entries: seq<Entry>, conflicts: seq<Conflict>, left: seq<Candidate>)
    requires forall c | c in order :: c in byConcept && byConcept[c] == BucketOf(groups, ConceptOf, c)
    ensures RefsApart(groups) ==> AreOutcomes(entries, conflicts, left, Flat(order, TasksFor(groups, k)), k, opts)
  {
    entries, conflicts, left := [], [], [];
    NoOutcomes(k, opts);
    for i := 0 to |order|
      invariant RefsApart(groups) ==>
                  AreOutcomes(entries, conflicts, left, Flat(order[..i], TasksFor(groups, k)), k, opts)
    {
      var es, cs, cands := ResolveNext(groups, k, opts, order[i], byConcept[order[i]]);
      if RefsApart(groups) {
        TasksSnoc(groups, k, order, i);
        ghost var before, here := Flat(order[..i], TasksFor(groups, k)), TasksIn(groups, k, order[i]);
        MoreOutcomes(entries, conflicts, left, before, es, cs, cands, here, k, opts);
      }
      entries, conflicts, left := entries + es, conflicts + cs, left + cands;
    }
    assert order[..|order|] == order;
  }

  method ResolveNext(ghost groups: seq<Group>, k: Knowledge, opts: Options, concept: string, bucket: seq<Group>)
    returns (entries: seq<Entry>, conflicts: seq<Conflict>, left: seq<Candidate>)
    requires bucket == BucketOf(groups, ConceptOf, concept)
    ensures RefsApart(groups) ==> AreOutcomes(entries, conflicts, left, TasksIn(groups, k, concept), k, opts)
  {
    BucketMembers(groups, ConceptOf, concept);
    var ds := ResolveConcept(k, opts, concept, bucket);
    entries, conflicts, left := SplitOutcomes(ds);
  }

  lemma NoOutcomes(k: Knowledge, opts: Options)
    ensures AreOutcomes([], [], [], [], k, opts)
  {
    assert SettlesAll([], [], k, opts) && Split([], [], [], []);
  }

  lemma MoreOutcomes(entries: seq<Entry>, conflicts: seq<Conflict>, left: seq<Candidate>, ts: seq<Task>,
                     es: seq<Entry>, cs: seq<Conflict>, cands: seq<Candidate>, us: seq<Task>, k: Knowledge,
                     opts: Options)
    requires AreOutcomes(entries, conflicts, left, ts, k, opts) && AreOutcomes(es, cs, cands, us, k, opts)
    ensures AreOutcomes(entries + es, conflicts + cs, left + cands, ts + us, k, opts)
  {
    var ds := Listing(entries, conflicts, left, ts, k, opts);
    var more := Listing(es, cs, cands, us, k, opts);
    SettlesMore(ds, ts, more, us, k, opts);
    SplitMore(ds, more);
    assert Split(entries + es, conflicts + cs, left + cands, ds + more);
  }

  lemma SplitMore(ds: seq<Decision>, more: seq<Decision>)
    ensures Flat(OutcomesOf(ds + more), EntryIn) == Flat(OutcomesOf(ds), EntryIn) + Flat(OutcomesOf(more), EntryIn)
    ensures Flat(OutcomesOf(ds + more), ConflictIn)
         == Flat(OutcomesOf(ds), ConflictIn) + Flat(OutcomesOf(more), ConflictIn)
    ensures LeftAfter(ds + more) == LeftAfter(ds) + LeftAfter(more)
  {
    ProjectAppend(ds, more, OutcomeOf);
    FlatAppend(OutcomesOf(ds), OutcomesOf(more), EntryIn);
    FlatAppend(OutcomesOf(ds), OutcomesOf(more), ConflictIn);
    FlatAppend(ds, more, LeftIn);
  }

  lemma TasksSnoc(groups: seq<Group>, k: Knowledge, order: seq<string>, i: nat)
    requires i < |order|
    ensures Flat(order[..i + 1], TasksFor(groups, k))
              == Flat(order[..i], TasksFor(groups, k)) + TasksIn(groups, k, order[i])
  {
    FlatSnoc(order, i, TasksFor(groups, k));
  }

  lemma SettlesMore(ds: seq<Decision>, ts: seq<Task>, more: seq<Decision>, us: seq<Task>, k: Knowledge, opts: Options)
    requires SettlesAll(ds, ts, k, opts) && SettlesAll(more, us, k, opts)
    ensures SettlesAll(ds + more, ts + us, k, opts)
  {
    forall i | 0 <= i < |ts + us| ensures Settles((ds + more)[i], (ts + us)[i], k, opts) {
      if i < |ts| {
        assert Settles(ds[i], ts[i], k, opts);
      } else {
        assert Settles(more[i - |ts|], us[i - |ts|], k, opts);
      }
    }
  }

  method SplitOutcomes(ds: seq<Decision>) returns (entries: seq<Entry>, conflicts: seq<Conflict>, left: seq<Candidate>)
    ensures Split(entries, conflicts, left, ds)
  {
    entries, conflicts, left := [], [], [];
    for i := 0 to |ds|
      invariant Split(entries, conflicts, left, ds[..i])
    {
      SplitSnoc(ds, i);
      left := left + ds[i].left;
      if ds[i].outcome.Unresolved? {
        conflicts := conflicts + [ds[i].outcome.conflict];
        continue;
      }
      entries := entries + [ds[i].outcome.entry];
    }
    assert ds[..|ds|] == ds;
  }

  lemma SplitSnoc(ds: seq<Decision>, i: nat)
    requires i < |ds|
    ensures Flat(OutcomesOf(ds[..i + 1]), EntryIn) == Flat(OutcomesOf(ds[..i]), EntryIn) + EntryIn(ds[i].outcome)
    ensures Flat(OutcomesOf(ds[..i + 1]), ConflictIn)
         == Flat(OutcomesOf(ds[..i]), ConflictIn) + ConflictIn(ds[i].outcome)
    ensures LeftAfter(ds[..i + 1]) == LeftAfter(ds[..i]) + ds[i].left
  {
    ProjectSnoc(ds, i, OutcomeOf);
    var os, d := OutcomesOf(ds[..i + 1]), ds[i];
    assert os[..i] == OutcomesOf(ds[..i]) && os[i] == d.outcome;
    FlatSnoc(os, i, EntryIn);
    FlatSnoc(os, i, ConflictIn);
    assert os[..i + 1] == os;
    FlatSnoc(ds, i, LeftIn);
  }
}
