/** What the outcome of a group means, operator by operator, and what holds for all of them. */
module MergeLaws {
  import opened Ordering
  import opened Buckets
  import opened DeepMerge
  import opened TableMerge
  import opened MergeWinners
  import opened SharedTables
  import opened Candidates
  import opened MergeOperators

  ghost predicate Agree(s: seq<Candidate>) {
    forall c, d | c in s && d in s :: c.digest == d.digest
  }

  lemma AgreeIffOneContent(s: seq<Candidate>)
    ensures |Distinct(s)| == 0 <==> s == []
    ensures |Distinct(s)| <= 1 <==> Agree(s)
  {
    DistinctExact(s);
    var d := Distinct(s);
    if s != [] {
      assert s[0] in s;
    }
    if |d| <= 1 {
      forall a, b | a in s && b in s ensures a.digest == b.digest {
        var i :| 0 <= i < |d| && d[i].digest == a.digest;
        var j :| 0 <= j < |d| && d[j].digest == b.digest;
      }
    }
    if |d| > 1 {
      assert d[0] in s && d[1] in s && d[0].digest != d[1].digest;
    }
  }

  /* ---- the gate ---- */

  /** A disagreement is resolved only under the one program of the concept, a defined operator that
      names a rule, and a qualified capability. */
  lemma NeverGuesses(g: Group, programs: seq<Program>, capability: Capability, opts: Options, orders: seq<seq<Visit>>)
    requires !Agree(g.candidates) && Outcomed(g, programs, capability, opts, orders).Resolved?
    ensures exists i :: 0 <= i < |programs| && Governs(programs[i], g.concept)
                 && (forall j :: 0 <= j < |programs| && Governs(programs[j], g.concept) ==> j == i)
                 && programs[i].operator.Valid() && programs[i].operator != UNSPECIFIED
                 && Outcomed(g, programs, capability, opts, orders).entry.program == programs[i].id
                 && Outcomed(g, programs, capability, opts, orders).entry.operator == Some(programs[i].operator)
    ensures capability.EXACT? || capability.COMPATIBLE?
  {
    AgreeIffOneContent(g.candidates);
    var i := OnlyProgram(programs, g.concept);
    var p := programs[i];
    ResolvedCases(g, programs, capability, opts, orders);
    assert Outcomed(g, programs, capability, opts, orders) == Applied(g, p, opts, orders);
  }

  /** The two ways to an entry. */
  lemma ResolvedCases(g: Group, programs: seq<Program>, capability: Capability, opts: Options, orders: seq<seq<Visit>>)
    requires Outcomed(g, programs, capability, opts, orders).Resolved?
    ensures g.candidates != []
    ensures |Distinct(g.candidates)| == 1 ==> Outcomed(g, programs, capability, opts, orders) == Agreement(g, opts)
    ensures |Distinct(g.candidates)| != 1 ==>
              && ProgramFor(programs, g.concept).Some? && capability.Qualified()
              && Outcomed(g, programs, capability, opts, orders)
                   == Applied(g, ProgramFor(programs, g.concept).value, opts, orders)
  {
  }

  lemma OnlyProgram(programs: seq<Program>, concept: string) returns (i: nat)
    requires ProgramFor(programs, concept).Some?
    ensures i < |programs| && Governs(programs[i], concept) && ProgramFor(programs, concept) == Some(programs[i])
    ensures forall j :: 0 <= j < |programs| && Governs(programs[j], concept) ==> j == i
  {
    i := OnlyMember(programs, GovernsConcept(concept));
  }

  lemma {:induction false} OnlyMember(programs: seq<Program>, key: Program -> bool) returns (i: nat)
    requires |BucketOf(programs, key, true)| == 1
    ensures i < |programs| && key(programs[i]) && BucketOf(programs, key, true) == [programs[i]]
    ensures forall j :: 0 <= j < |programs| && key(programs[j]) ==> j == i
  {
    var p, last := programs[..|programs| - 1], programs[|programs| - 1];
    if key(last) {
      i := |programs| - 1;
      forall j | 0 <= j < |programs| && key(programs[j]) ensures j == i {
        if j < i {
          EmptyBucket(p, key, j);
        }
      }
    } else {
      i := OnlyMember(p, key);
    }
  }

  lemma EmptyBucket(programs: seq<Program>, key: Program -> bool, j: nat)
    requires j < |programs| && key(programs[j])
    ensures BucketOf(programs, key, true) != []
  {
    BucketMembers(programs, key, true);
    assert programs[j] in BucketOf(programs, key, true);
  }

  /** Agreement never needs a program, a capability or a rank. */
  lemma AgreementResolves(g: Group, programs: seq<Program>, capability: Capability, opts: Options,
                          orders: seq<seq<Visit>>)
    requires g.candidates != [] && Agree(g.candidates)
    ensures Outcomed(g, programs, capability, opts, orders).Resolved?
    ensures |Distinct(g.candidates)| == 1 && Outcomed(g, programs, capability, opts, orders) == Agreement(g, opts)
  {
    AgreeIffOneContent(g.candidates);
  }

  /** A conflict hands every candidate on, as deciding leaves it: its tables can only have been rewritten by
      a refused deep merge. */
  lemma ConflictKeepsCandidates(g: Group, programs: seq<Program>, capability: Capability, opts: Options,
                                orders: seq<seq<Visit>>)
    requires Outcomed(g, programs, capability, opts, orders).Unresolved?
    ensures var listed := Outcomed(g, programs, capability, opts, orders).conflict.candidates;
            && SameSources(listed, g.candidates) && listed == LeftOf(g, programs, capability, opts, orders)
            && (listed != g.candidates ==> Applies(g, programs, capability) && Merges(g, programs))
  {
  }

  /** What is claimed is exactly the strongest evidence, and a confirmation is backed by it. */
  lemma EvidenceIsBacked(g: Group, programs: seq<Program>, capability: Capability, opts: Options,
                         orders: seq<seq<Visit>>)
    requires Outcomed(g, programs, capability, opts, orders).Resolved?
    ensures var e := Outcomed(g, programs, capability, opts, orders).entry;
            && e.concept == g.concept && e.logicalId == g.logicalId && !e.composed
            && e.level == Highest(g.candidates) && (e.confirmed ==> Confirms(e.level))
  {
  }

  /* ---- conservation of sources ---- */

  lemma SplitByKey(s: seq<Candidate>, key: Candidate -> bool)
    ensures multiset(Project(BucketOf(s, key, true), RefOf)) + multiset(Project(BucketOf(s, key, false), RefOf))
         == multiset(Project(s, RefOf))
  {
    var yes, no := BucketOf(s, key, true), BucketOf(s, key, false);
    var both := [true, false];
    assert both[..1] == [true] && both[..1][..0] == [];
    assert Gather(s, key, []) == [];
    assert Gather(s, key, [true]) == [] + yes;
    assert Gather(s, key, both) == Gather(s, key, both[..1]) + no;
    assert Gather(s, key, both) == yes + no;
    forall i | 0 <= i < |s| ensures key(s[i]) in both {
      assert key(s[i]) == both[if key(s[i]) then 0 else 1];
    }
    GatherPartitions(s, key, both);
    ProjectPermutation(yes + no, s, RefOf);
    ProjectAppend(yes, no, RefOf);
  }

  lemma SortedRefsPermute(s: seq<Candidate>)
    ensures multiset(SortedRefs(s)) == multiset(Project(s, RefOf))
  {
    StringOrder();
    SortSorted(Project(s, RefOf), StrLess);
  }

  /** One winner and all the others. */
  lemma WinnerAndOthers(s: seq<Candidate>, w: Candidate)
    requires DistinctRefs(s) && w in s
    ensures multiset([w.ref]) + multiset(OtherRefs(s, w.ref)) == multiset(Project(s, RefOf))
  {
    SplitByKey(s, HasRef(w.ref));
    SortedRefsPermute(BucketOf(s, HasRef(w.ref), false));
    OneWithRef(s, w);
    assert Project([w], RefOf) == [w.ref];
  }

  lemma {:induction false} OneWithRef(s: seq<Candidate>, w: Candidate)
    requires DistinctRefs(s) && w in s
    ensures BucketOf(s, HasRef(w.ref), true) == [w]
  {
    var p, last := s[..|s| - 1], s[|s| - 1];
    assert s == p + [last];
    assert DistinctRefs(p);
    if last == w {
      NoneWithRef(p, w.ref);
    } else {
      OneWithRef(p, w);
      var i :| 0 <= i < |p| && p[i] == w;
      assert s[i].ref != last.ref;
    }
  }

  lemma {:induction false} NoneWithRef(s: seq<Candidate>, ref: string)
    requires forall i :: 0 <= i < |s| ==> s[i].ref != ref
    ensures BucketOf(s, HasRef(ref), true) == []
  {
    if s != [] {
      NoneWithRef(s[..|s| - 1], ref);
    }
  }

  ghost function Accounted(e: Entry): multiset<string> {
    multiset(e.active) + multiset(e.ignored)
  }

  /** Every operator but the two that work on representatives accounts for each source once; those
      two account for each representative once. */
  lemma SourcesConserved(g: Group, programs: seq<Program>, capability: Capability, opts: Options,
                         orders: seq<seq<Visit>>)
    requires DistinctRefs(g.candidates) && Outcomed(g, programs, capability, opts, orders).Resolved?
    ensures var e := Outcomed(g, programs, capability, opts, orders).entry;
            Accounted(e) == if e.operator == Some(REPLACE) || e.operator == Some(UNION_BY_ID)
                            then multiset(Project(Distinct(g.candidates), RefOf))
                            else multiset(Project(g.candidates, RefOf))
  {
    ResolvedCases(g, programs, capability, opts, orders);
    if |Distinct(g.candidates)| == 1 {
      AgreementConserves(g, opts);
    } else {
      AppliedConserves(g, ProgramFor(programs, g.concept).value, opts, orders);
    }
  }

  /** Repeats of a content that the operator does not list. */
  function Omitted(g: Group, e: Entry): seq<string> {
    if e.operator == Some(REPLACE) || e.operator == Some(UNION_BY_ID) then Project(Repeats(g.candidates), RefOf) else []
  }

  /** With what is omitted every source is accounted for once, whatever the operator. */
  lemma SourcesConservedWithOmitted(g: Group, programs: seq<Program>, capability: Capability, opts: Options,
                                    orders: seq<seq<Visit>>)
    requires DistinctRefs(g.candidates) && Outcomed(g, programs, capability, opts, orders).Resolved?
    ensures var e := Outcomed(g, programs, capability, opts, orders).entry;
            Accounted(e) + multiset(Omitted(g, e)) == multiset(Project(g.candidates, RefOf))
  {
    SourcesConserved(g, programs, capability, opts, orders);
    DistinctAndRepeats(g.candidates);
  }

  lemma DistinctAndRepeats(s: seq<Candidate>)
    ensures multiset(Project(Distinct(s), RefOf)) + multiset(Project(Repeats(s), RefOf)) == multiset(Project(s, RefOf))
  {
    RepeatsAreTheRest(s);
    DistinctExact(s);
    ProjectAppend(Distinct(s), Repeats(s), RefOf);
    ProjectPermutation(Distinct(s) + Repeats(s), s, RefOf);
  }

  lemma AgreementConserves(g: Group, opts: Options)
    requires g.candidates != [] && |Distinct(g.candidates)| == 1
    ensures Accounted(Agreement(g, opts).entry) == multiset(Project(g.candidates, RefOf))
    ensures Agreement(g, opts).entry.operator == None
  {
    DenialSplit(g.candidates, opts.deniedRefs);
    SortedRefsPermute(g.candidates);
  }

  lemma DenialSplit(s: seq<Candidate>, refs: set<string>)
    ensures multiset(SortedRefs(Survivors(s, refs))) + multiset(SortedRefs(Denied(s, refs)))
              == multiset(Project(s, RefOf))
  {
    SplitByKey(s, DeniedBy(refs));
    SortedRefsPermute(Survivors(s, refs));
    SortedRefsPermute(Denied(s, refs));
  }

  lemma AppliedConserves(g: Group, p: Program, opts: Options, orders: seq<seq<Visit>>)
    requires DistinctRefs(g.candidates) && Applied(g, p, opts, orders).Resolved?
    ensures Accounted(Applied(g, p, opts, orders).entry)
         == if p.operator == REPLACE || p.operator == UNION_BY_ID
            then multiset(Project(Distinct(g.candidates), RefOf))
            else multiset(Project(g.candidates, RefOf))
  {
    SortedRefsPermute(g.candidates);
    match p.operator
    case REPLACE => ByScopeRankConserves(g, p, opts.scopeRank);
    case UNION_BY_ID => ByScopeRankConserves(g, p, opts.scopeRank);
    case FIRST_MATCH => FirstMatchConserves(g, p, opts.scopePriority);
    case DENY_WINS => DenyWinsConserves(g, p, opts.deniedRefs);
    case MANAGED_GUARDRAIL => GuardrailConserves(g, p);
    case DEEP_MERGE => assert DeepMerged(g, p, opts.scopeRank, orders).entry.active == SortedRefs(g.candidates);
    case CONCAT_ORDERED => assert Concatenated(g, p, opts.scopeRank).entry.active == SortedRefs(g.candidates);
    case _ =>
  }

  lemma FirstMatchConserves(g: Group, p: Program, priority: seq<string>)
    requires DistinctRefs(g.candidates) && FirstMatch(g, p, priority).Resolved?
    ensures Accounted(FirstMatch(g, p, priority).entry) == multiset(Project(g.candidates, RefOf))
  {
    var d, key := Distinct(g.candidates), PriorityRank(priority);
    var w := Winners(d, key, PriorityFloor(priority))[0];
    BucketMembers(d, key, Best(d, key, PriorityFloor(priority)));
    assert w in d;
    DistinctExact(g.candidates);
    WinnerAndOthers(g.candidates, w);
  }

  lemma DenyWinsConserves(g: Group, p: Program, deniedRefs: set<string>)
    requires DenyWins(g, p, deniedRefs).Resolved?
    ensures Accounted(DenyWins(g, p, deniedRefs).entry) == multiset(Project(g.candidates, RefOf))
  {
    var survivors := Survivors(g.candidates, deniedRefs);
    AgreeIffOneContent(survivors);
    DenialSplit(g.candidates, deniedRefs);
    NoRefs(survivors);
  }

  lemma NoRefs(s: seq<Candidate>)
    ensures s == [] ==> SortedRefs(s) == []
  {
  }

  lemma GuardrailConserves(g: Group, p: Program)
    requires DistinctRefs(g.candidates) && Guardrail(g, p).Resolved?
    ensures Accounted(Guardrail(g, p).entry) == multiset(Project(g.candidates, RefOf))
  {
    var m := BucketOf(g.candidates, IsManaged, true);
    DistinctExact(m);
    BucketMembers(g.candidates, IsManaged, true);
    assert Distinct(m)[0] in m;
    WinnerAndOthers(g.candidates, Distinct(m)[0]);
  }

  lemma ByScopeRankConserves(g: Group, p: Program, rank: map<string, int>)
    requires DistinctRefs(g.candidates) && ByScopeRank(g, p, rank).Resolved?
    ensures Accounted(ByScopeRank(g, p, rank).entry) == multiset(Project(Distinct(g.candidates), RefOf))
  {
    var d := Distinct(g.candidates);
    DistinctKeepsRefs(g.candidates);
    BucketMembers(d, RankIn(rank), Best(d, RankIn(rank), -1));
    var w := Winners(d, RankIn(rank), -1)[0];
    assert w in d;
    WinnerAndOthers(d, w);
  }

  /** References that differ among the candidates differ among the representatives. */
  lemma DistinctKeepsRefs(s: seq<Candidate>)
    requires DistinctRefs(s)
    ensures DistinctRefs(Distinct(s))
  {
    DistinctExact(s);
    var d := Distinct(s);
    forall i, j | 0 <= i < j < |d| ensures d[i].ref != d[j].ref {
      assert d[i] in s && d[j] in s;
      assert d[i].digest != d[j].digest;
      var k :| 0 <= k < |s| && s[k] == d[i];
      var l :| 0 <= l < |s| && s[l] == d[j];
      assert k != l;
      assert if k < l then s[k].ref != s[l].ref else s[l].ref != s[k].ref;
    }
  }

  /* ---- denials ---- */

  /** Where contents agree, and under DENY_WINS, no denied source is active; everything that is
      ignored was denied. */
  lemma DenialsHonoured(g: Group, programs: seq<Program>, capability: Capability, opts: Options,
                        orders: seq<seq<Visit>>, c: Candidate)
    requires DistinctRefs(g.candidates) && c in g.candidates
    requires Outcomed(g, programs, capability, opts, orders).Resolved?
    requires Agree(g.candidates) || Outcomed(g, programs, capability, opts, orders).entry.operator == Some(DENY_WINS)
    ensures var e := Outcomed(g, programs, capability, opts, orders).entry;
            && (IsDenied(c, opts.deniedRefs) <==> c.ref !in e.active)
            && (IsDenied(c, opts.deniedRefs) <==> c.ref in e.ignored)
  {
    var s := g.candidates;
    RefsOfBucket(s, DeniedBy(opts.deniedRefs), true, c);
    RefsOfBucket(s, DeniedBy(opts.deniedRefs), false, c);
    DenialsSplit(g, programs, capability, opts, orders);
  }

  lemma DenialsSplit(g: Group, programs: seq<Program>, capability: Capability, opts: Options, orders: seq<seq<Visit>>)
    requires Outcomed(g, programs, capability, opts, orders).Resolved?
    requires Agree(g.candidates) || Outcomed(g, programs, capability, opts, orders).entry.operator == Some(DENY_WINS)
    ensures var e := Outcomed(g, programs, capability, opts, orders).entry;
            && e.active == SortedRefs(Survivors(g.candidates, opts.deniedRefs))
            && e.ignored == SortedRefs(Denied(g.candidates, opts.deniedRefs))
  {
    AgreeIffOneContent(g.candidates);
    if |Distinct(g.candidates)| == 1 {
      AgreementSplits(g, opts);
    } else {
      AgreeIffOneContent(Survivors(g.candidates, opts.deniedRefs));
      NoRefs(Survivors(g.candidates, opts.deniedRefs));
    }
  }

  lemma AgreementSplits(g: Group, opts: Options)
    requires g.candidates != [] && |Distinct(g.candidates)| == 1
    ensures var e := Agreement(g, opts).entry;
            && e.active == SortedRefs(Survivors(g.candidates, opts.deniedRefs))
            && e.ignored == SortedRefs(Denied(g.candidates, opts.deniedRefs))
  {
    var s, refs := g.candidates, opts.deniedRefs;
    if Denied(s, refs) == [] {
      NoneDenied(s, refs);
    }
  }

  lemma {:induction false} NoneDenied(s: seq<Candidate>, refs: set<string>)
    requires Denied(s, refs) == []
    ensures Survivors(s, refs) == s
  {
    if s != [] {
      NoneDenied(s[..|s| - 1], refs);
    }
  }

  /** A candidate's reference is listed for a bucket exactly when the candidate is in it. */
  lemma RefsOfBucket(s: seq<Candidate>, key: Candidate -> bool, b: bool, c: Candidate)
    requires DistinctRefs(s) && c in s
    ensures c.ref in SortedRefs(BucketOf(s, key, b)) <==> key(c) == b
  {
    var t := BucketOf(s, key, b);
    BucketMembers(s, key, b);
    SortedRefsPermute(t);
    SameMembers(SortedRefs(t), Project(t, RefOf));
    if c.ref in Project(t, RefOf) {
      var i :| 0 <= i < |t| && Project(t, RefOf)[i] == c.ref;
      assert t[i] in s;
      SameRefSame(s, t[i], c);
    }
    if key(c) == b {
      assert c in t;
      var i :| 0 <= i < |t| && t[i] == c;
      assert Project(t, RefOf)[i] == c.ref;
    }
  }

  lemma SameRefSame(s: seq<Candidate>, c: Candidate, d: Candidate)
    requires DistinctRefs(s) && c in s && d in s && c.ref == d.ref
    ensures c == d
  {
    var i :| 0 <= i < |s| && s[i] == c;
    var j :| 0 <= j < |s| && s[j] == d;
  }

  /* ---- when each operator decides, and for whom ---- */

  /** REPLACE and UNION_BY_ID decide exactly when a rank for every scope puts one content strictly
      above all others, at -1 or higher; that one wins. */
  lemma ReplaceExact(g: Group, p: Program, rank: map<string, int>)
    ensures ByScopeRank(g, p, rank).Resolved?
       <==> |rank| > 0 && RanksAll(rank, Distinct(g.candidates))
            && exists i: nat :: Outranks(Distinct(g.candidates), RankIn(rank), -1, i)
    ensures forall i: nat | Outranks(Distinct(g.candidates), RankIn(rank), -1, i) ::
              ByScopeRank(g, p, rank).Resolved? ==>
                ByScopeRank(g, p, rank).entry.selected == Winner(Distinct(g.candidates)[i].ref)
  {
    WinnerExact(Distinct(g.candidates), RankIn(rank), -1);
  }

  /** FIRST_MATCH decides exactly when every scope is listed and one content comes strictly first. */
  lemma FirstMatchExact(g: Group, p: Program, priority: seq<string>)
    ensures FirstMatch(g, p, priority).Resolved?
       <==> && priority != []
            && (forall c | c in Distinct(g.candidates) :: c.scope in priority)
            && exists i: nat :: ComesFirst(Distinct(g.candidates), priority, i)
    ensures forall i: nat :: FirstMatch(g, p, priority).Resolved? && ComesFirst(Distinct(g.candidates), priority, i) ==>
              FirstMatch(g, p, priority).entry.selected == Winner(Distinct(g.candidates)[i].ref)
  {
    var d, key, floor := Distinct(g.candidates), PriorityRank(priority), PriorityFloor(priority);
    forall c | c in d ensures IndexIn(priority, c.scope) != -1 <==> c.scope in priority {
      IndexExact(priority, c.scope);
    }
    forall i: nat ensures ComesFirst(d, priority, i) <==> Outranks(d, key, floor, i) {
      if i < |d| {
        IndexExact(priority, d[i].scope);
      }
    }
    WinnerExact(d, key, floor);
    assert ListsAll(priority, d) <==> forall c | c in d :: c.scope in priority;
    assert (exists i: nat :: ComesFirst(d, priority, i)) <==> (exists i: nat :: Outranks(d, key, floor, i));
  }

  ghost predicate ComesFirst(s: seq<Candidate>, priority: seq<string>, i: nat) {
    i < |s| && forall j :: 0 <= j < |s| && j != i ==> IndexIn(priority, s[i].scope) < IndexIn(priority, s[j].scope)
  }

  /** DENY_WINS decides exactly when those it does not exclude agree. */
  lemma DenyWinsExact(g: Group, p: Program, deniedRefs: set<string>)
    ensures DenyWins(g, p, deniedRefs).Resolved? <==> Agree(Survivors(g.candidates, deniedRefs))
    ensures Survivors(g.candidates, deniedRefs) == []
       <==> DenyWins(g, p, deniedRefs).Resolved? && DenyWins(g, p, deniedRefs).entry.selected == Nobody
  {
    AgreeIffOneContent(Survivors(g.candidates, deniedRefs));
  }

  /** MANAGED_GUARDRAIL decides exactly when there are managed sources and they agree; the winner is
      one of them whatever the others say. */
  lemma GuardrailExact(g: Group, p: Program)
    ensures Guardrail(g, p).Resolved?
       <==> && (exists c :: c in g.candidates && c.scope == MANAGED_SCOPE)
            && Agree(BucketOf(g.candidates, IsManaged, true))
    ensures Guardrail(g, p).Resolved? ==>
              exists c :: c in g.candidates && c.scope == MANAGED_SCOPE
                && Guardrail(g, p).entry.selected == Winner(c.ref)
  {
    var m := BucketOf(g.candidates, IsManaged, true);
    BucketMembers(g.candidates, IsManaged, true);
    AgreeIffOneContent(m);
    DistinctExact(m);
    if c :| c in g.candidates && c.scope == MANAGED_SCOPE {
      assert c in m;
    }
    if m != [] {
      assert m[0] in m;
    }
    if Guardrail(g, p).Resolved? {
      assert Distinct(m)[0] in m;
    }
  }

  /** DEEP_MERGE decides exactly when every content is structured and either nothing collides or a
      rank for every scope settles collisions; what does not collide is merged to the join. */
  lemma DeepMergeExact(g: Group, p: Program, rank: map<string, int>, orders: seq<seq<Visit>>)
    requires GroupIterates(orders, g, rank)
    ensures var s := Structured(Distinct(g.candidates));
            && (s.Some? <==> forall c | c in Distinct(g.candidates) :: c.fields.Some?)
            && (DeepMerged(g, p, rank, orders).Resolved?
                <==> s.Some? && (Covers(rank, s.value) || PairwiseCompatible(s.value)))
            && (s.Some? && PairwiseCompatible(s.value) ==>
                  DeepMerged(g, p, rank, orders).entry.constraint
                    == Some(MergedContent(MergedOf(s.value, rank, orders)))
                  && IsJoin(MergedOf(s.value, rank, orders), s.value))
  {
    StructuredExact(Distinct(g.candidates));
    var s := Structured(Distinct(g.candidates));
    if s.Some? && PairwiseCompatible(s.value) {
      MergedIsJoin(s.value, rank, orders);
    }
  }

  lemma MergedIsJoin(s: seq<Source>, rank: map<string, int>, orders: seq<seq<Visit>>)
    requires PairwiseCompatible(s) && Orders(orders, MergeOrder(s, rank))
    ensures IsJoin(MergedOf(s, rank, orders), s)
  {
    var m := MergeOrder(s, rank);
    MergeOrderPermutes(s, rank);
    FoldIsJoin(m);
    FoldClean(m, orders);
    JoinOfPermutation(OverlayAll(m), m, s);
  }

  lemma {:induction false} StructuredExact(s: seq<Candidate>)
    ensures Structured(s).Some? <==> forall c | c in s :: c.fields.Some?
    ensures Structured(s).Some? ==> |Structured(s).value| == |s|
    ensures Structured(s).Some? ==>
              forall i :: 0 <= i < |s| ==>
                s[i].fields.Some? && Structured(s).value[i] == Source(s[i].ref, s[i].scope, s[i].fields.value)
  {
    if s != [] {
      var p, last := s[..|s| - 1], s[|s| - 1];
      StructuredExact(p);
      assert s == p + [last];
    }
  }

  /* ---- when REPLACE lists every source ---- */

  /** All contents differ. */
  ghost predicate ContentsDiffer(s: seq<Candidate>) {
    NoDuplicates(Project(s, DigestOf))
  }

  lemma {:induction false} KeysBounded(s: seq<Candidate>)
    ensures |KeysOf(s, DigestOf)| <= |s|
    ensures |KeysOf(s, DigestOf)| == |s| <==> ContentsDiffer(s)
  {
    if s != [] {
      var p, last := s[..|s| - 1], s[|s| - 1];
      KeysBounded(p);
      KeysMembers(p, DigestOf);
      assert Project(s, DigestOf) == Project(p, DigestOf) + [last.digest];
      DifferSnoc(Project(p, DigestOf), last.digest);
      DigestListed(p, last.digest);
    }
  }

  lemma DifferSnoc(t: seq<string>, d: string)
    ensures NoDuplicates(t + [d]) <==> NoDuplicates(t) && d !in t
  {
    var u := t + [d];
    if NoDuplicates(u) {
      forall i, j | 0 <= i < j < |t| ensures t[i] != t[j] {
        assert u[i] != u[j];
      }
      forall i | 0 <= i < |t| ensures t[i] != d {
        assert u[i] != u[|t|];
      }
    }
  }

  lemma DigestListed(s: seq<Candidate>, d: string)
    ensures d in Project(s, DigestOf) <==> d in KeysOf(s, DigestOf)
  {
    KeysMembers(s, DigestOf);
    if d in Project(s, DigestOf) {
      var i :| 0 <= i < |s| && Project(s, DigestOf)[i] == d;
      assert DigestOf(s[i]) in KeysOf(s, DigestOf);
    }
    if d in KeysOf(s, DigestOf) {
      var i :| 0 <= i < |s| && DigestOf(s[i]) == d;
      assert Project(s, DigestOf)[i] == d;
    }
  }

  /** REPLACE and UNION_BY_ID account for every source exactly when all contents differ. */
  lemma ReplaceListsAllExact(g: Group, p: Program, rank: map<string, int>)
    requires DistinctRefs(g.candidates) && ByScopeRank(g, p, rank).Resolved?
    ensures Accounted(ByScopeRank(g, p, rank).entry) == multiset(Project(g.candidates, RefOf))
       <==> ContentsDiffer(g.candidates)
  {
    ByScopeRankConserves(g, p, rank);
    DistinctExact(g.candidates);
    KeysBounded(g.candidates);
    var d, s := Distinct(g.candidates), g.candidates;
    assert |multiset(Project(d, RefOf))| == |d| && |multiset(Project(s, RefOf))| == |s|;
    if |d| == |s| {
      RepresentativesExact(s);
      SameSize(d, s);
      ProjectPermutation(d, s, RefOf);
    }
  }

  lemma SameSize(d: seq<Candidate>, s: seq<Candidate>)
    requires multiset(d) <= multiset(s) && |d| == |s|
    ensures multiset(d) == multiset(s)
  {
    var rest := multiset(s) - multiset(d);
    assert multiset(s) == multiset(d) + rest;
    assert |multiset(d)| == |d| && |multiset(s)| == |s|;
  }

  /** Two sources with one content and a third that outranks them: one of the two is listed nowhere. */
  lemma ReplaceCanOmit(g: Group, p: Program, rank: map<string, int>)
    requires var s := g.candidates;
             && |s| == 3 && DistinctRefs(s) && s[0].digest == s[1].digest != s[2].digest
             && (forall c | c in s :: c.scope in rank) && RankIn(rank)(s[2]) >= 0
             && RankIn(rank)(s[0]) < RankIn(rank)(s[2]) && RankIn(rank)(s[1]) < RankIn(rank)(s[2])
    ensures ByScopeRank(g, p, rank).Resolved?
    ensures Accounted(ByScopeRank(g, p, rank).entry) != multiset(Project(g.candidates, RefOf))
  {
    var s := g.candidates;
    assert Project(s, DigestOf)[0] == Project(s, DigestOf)[1];
    ThirdOutranks(s, rank);
    assert s[0].scope in rank;
    ReplaceExact(g, p, rank);
    ReplaceListsAllExact(g, p, rank);
  }

  lemma ThirdOutranks(s: seq<Candidate>, rank: map<string, int>)
    requires |s| == 3 && s[0].digest == s[1].digest != s[2].digest && (forall c | c in s :: c.scope in rank)
    requires RankIn(rank)(s[2]) >= 0 && RankIn(rank)(s[0]) < RankIn(rank)(s[2])
               && RankIn(rank)(s[1]) < RankIn(rank)(s[2])
    ensures RanksAll(rank, Distinct(s)) && exists i: nat :: Outranks(Distinct(s), RankIn(rank), -1, i)
  {
    var d := Distinct(s);
    DistinctExact(s);
    assert s[2] in s;
    var i :| 0 <= i < |d| && d[i].digest == s[2].digest;
    TopOfThree(s, d, RankIn(rank), i);
  }

  lemma TopOfThree(s: seq<Candidate>, d: seq<Candidate>, rank: Candidate -> int, i: nat)
    requires |s| == 3 && s[0].digest == s[1].digest != s[2].digest && (forall c | c in d :: c in s)
    requires rank(s[2]) >= 0 && rank(s[0]) < rank(s[2]) && rank(s[1]) < rank(s[2])
    requires i < |d| && d[i].digest == s[2].digest && forall j, k :: 0 <= j < k < |d| ==> d[j].digest != d[k].digest
    ensures Outranks(d, rank, -1, i)
  {
    OneOfThree(s, d[i]);
    forall j | 0 <= j < |d| && j != i ensures rank(d[j]) < rank(d[i]) {
      OneOfThree(s, d[j]);
    }
  }

  lemma OneOfThree(s: seq<Candidate>, c: Candidate)
    requires |s| == 3 && c in s
    ensures c == s[0] || c == s[1] || c == s[2]
  {
  }

  /* ---- the composition order ---- */

  lemma ByRankThenRefOrder(rank: map<string, int>)
    ensures StrictWeak(ByRankThenRef(rank))
  {
    forall a: Candidate, b: Candidate, c: Candidate
      ensures StrLess(a.ref, b.ref) ==> !StrLess(b.ref, a.ref)
      ensures StrLess(a.ref, c.ref) ==> StrLess(a.ref, b.ref) || StrLess(b.ref, c.ref)
    {
      StrOrder(a.ref, b.ref, c.ref);
    }
  }

  /** Ascending by rank, and by reference within a rank. */
  ghost predicate RankThenRef(s: seq<Candidate>, rank: map<string, int>) {
    forall i, j :: 0 <= i < j < |s| ==>
      RankIn(rank)(s[i]) < RankIn(rank)(s[j])
        || (RankIn(rank)(s[i]) == RankIn(rank)(s[j]) && !StrLess(s[j].ref, s[i].ref))
  }

  /** The composition order is known exactly when a rank is given for every scope; it is then the
      sources' references, each once, by ascending rank and reference. */
  lemma ConcatOrderExact(s: seq<Candidate>, rank: map<string, int>)
    ensures ConcatOrder(s, rank).Some? <==> |rank| > 0 && forall c | c in s :: c.scope in rank
    ensures ConcatOrder(s, rank).Some? ==>
              exists t: seq<Candidate> :: multiset(t) == multiset(s) && RankThenRef(t, rank)
                && ConcatOrder(s, rank).value == Project(t, RefOf)
    ensures ConcatOrder(s, rank).Some? ==> multiset(ConcatOrder(s, rank).value) == multiset(SortedRefs(s))
  {
    if ConcatOrder(s, rank).Some? {
      var t := Sort(s, ByRankThenRef(rank));
      ByRankThenRefOrder(rank);
      SortSorted(s, ByRankThenRef(rank));
      forall i, j | 0 <= i < j < |t|
        ensures RankIn(rank)(t[i]) < RankIn(rank)(t[j])
                  || (RankIn(rank)(t[i]) == RankIn(rank)(t[j]) && !StrLess(t[j].ref, t[i].ref))
      {
        assert !ByRankThenRef(rank)(t[j], t[i]);
      }
      assert RankThenRef(t, rank);
      ProjectPermutation(t, s, RefOf);
      SortedRefsPermute(s);
    }
  }

  /** The order sources were found in does not show in it when references differ. */
  lemma ConcatIgnoresOrder(s: seq<Candidate>, t: seq<Candidate>, rank: map<string, int>)
    requires multiset(s) == multiset(t) && DistinctRefs(s)
    ensures ConcatOrder(s, rank) == ConcatOrder(t, rank)
  {
    SameMembers(s, t);
    ByRankThenRefOrder(rank);
    forall i, j | 0 <= i < |s| && 0 <= j < |s| && !ByRankThenRef(rank)(s[i], s[j]) && !ByRankThenRef(rank)(s[j], s[i])
      ensures s[i] == s[j]
    {
      StrTotal(s[i].ref, s[j].ref);
    }
    SortPermutation(s, t, ByRankThenRef(rank));
  }

  /* ---- whether the iteration of tables shows ---- */

  /** Whatever the iterations, the group has this one outcome. */
  ghost predicate OneOutcome(g: Group, programs: seq<Program>, capability: Capability, opts: Options) {
    forall d, e | Possible(d, g, programs, capability, opts) && Possible(e, g, programs, capability, opts) ::
      d.outcome == e.outcome
  }

  /** And its candidates are left the same. */
  ghost predicate OneDecision(g: Group, programs: seq<Program>, capability: Capability, opts: Options) {
    forall d, e | Possible(d, g, programs, capability, opts) && Possible(e, g, programs, capability, opts) :: d == e
  }

  /** Every group has some decision. */
  lemma SomeDecision(g: Group, programs: seq<Program>, capability: Capability, opts: Options) returns (d: Decision)
    ensures Possible(d, g, programs, capability, opts)
  {
    var orders := AnyOrders(g, opts.scopeRank);
    d := Decided(g, programs, capability, opts, orders);
  }

  /** DEEP_MERGE governs the concept and all contents are structured. */
  predicate Merges(g: Group, programs: seq<Program>) {
    var p := ProgramFor(programs, g.concept);
    p.Some? && p.value.operator == DEEP_MERGE && Structured(Distinct(g.candidates)).Some?
  }

  /** A deep merge is run. */
  predicate RunsMerge(g: Group, programs: seq<Program>, capability: Capability) {
    Applies(g, programs, capability) && Merges(g, programs)
  }

  /** The sources it merges, in merge order. */
  function Merged(g: Group, opts: Options): seq<Source>
    requires Structured(Distinct(g.candidates)).Some?
  {
    MergeOrder(Structured(Distinct(g.candidates)).value, opts.scopeRank)
  }

  predicate Ranked(g: Group, opts: Options)
    requires Structured(Distinct(g.candidates)).Some?
  {
    Covers(opts.scopeRank, Structured(Distinct(g.candidates)).value)
  }

  /** Without a deep merge there is nothing to iterate. */
  lemma NoMergeOneDecision(g: Group, programs: seq<Program>, capability: Capability, opts: Options)
    requires !RunsMerge(g, programs, capability)
    ensures OneDecision(g, programs, capability, opts)
  {
    forall i, j ensures Decided(g, programs, capability, opts, i) == Decided(g, programs, capability, opts, j) {
      PlainDecided(g, programs, capability, opts, i, j);
    }
  }

  lemma PlainDecided(g: Group, programs: seq<Program>, capability: Capability, opts: Options, i: seq<seq<Visit>>,
                     j: seq<seq<Visit>>)
    requires !RunsMerge(g, programs, capability)
    ensures Decided(g, programs, capability, opts, i) == Decided(g, programs, capability, opts, j)
  {
  }

  /** What a deep merge decides, by what the sources fold to and how they are left. */
  lemma MergeDecided(g: Group, programs: seq<Program>, capability: Capability, opts: Options, orders: seq<seq<Visit>>)
    requires RunsMerge(g, programs, capability) && GroupIterates(orders, g, opts.scopeRank)
    ensures Orders(orders, Merged(g, opts))
    ensures var p, d := ProgramFor(programs, g.concept).value, Decided(g, programs, capability, opts, orders);
            && d.left == Project(g.candidates, RewriteBy(Rewritten(Merged(g, opts), orders, Ranked(g, opts))))
            && d.outcome == if Ranked(g, opts) || PairwiseCompatible(Merged(g, opts))
                            then MergedTo(g, p, Table(FoldBy(Merged(g, opts), orders)))
                            else Unresolved(Refuse(g, p).conflict.(candidates := d.left))
  {
    MergeOrderPermutes(Structured(Distinct(g.candidates)).value, opts.scopeRank);
  }

  function MergedTo(g: Group, p: Program, content: Value): Outcome {
    Resolved(Base(g, p).(active := SortedRefs(g.candidates), constraint := Some(MergedContent(content))))
  }

  /** Iterations that agree on every point of the fold decide the same. */
  lemma SameTraceSameDecision(g: Group, programs: seq<Program>, capability: Capability, opts: Options,
                              i: seq<seq<Visit>>, j: seq<seq<Visit>>)
    requires RunsMerge(g, programs, capability)
    requires GroupIterates(i, g, opts.scopeRank) && GroupIterates(j, g, opts.scopeRank)
    requires |i| == |j| == |Merged(g, opts)| && Trace(Merged(g, opts), i) == Trace(Merged(g, opts), j)
    ensures Decided(g, programs, capability, opts, i) == Decided(g, programs, capability, opts, j)
  {
    MergeDecided(g, programs, capability, opts, i);
    MergeDecided(g, programs, capability, opts, j);
  }

  /** No subtables collide in a deep merge. */
  predicate IterationHidden(g: Group, programs: seq<Program>) {
    Merges(g, programs) ==> NestedAgree(Structured(Distinct(g.candidates)).value)
  }

  /** Then nothing depends on how tables are iterated. */
  lemma HiddenIterationOneDecision(g: Group, programs: seq<Program>, capability: Capability, opts: Options)
    requires IterationHidden(g, programs)
    ensures OneDecision(g, programs, capability, opts)
  {
    if RunsMerge(g, programs, capability) {
      var s := Merged(g, opts);
      MergeOrderPermutes(Structured(Distinct(g.candidates)).value, opts.scopeRank);
      SameMembers(Structured(Distinct(g.candidates)).value, s);
      var any := NestedAgreeIsClean(s);
      forall i, j | GroupIterates(i, g, opts.scopeRank) && GroupIterates(j, g, opts.scopeRank)
        ensures Decided(g, programs, capability, opts, i) == Decided(g, programs, capability, opts, j)
      {
        TraceIsClean(s, i);
        TraceIsClean(s, j);
        SameTraceSameDecision(g, programs, capability, opts, i, j);
      }
    } else {
      NoMergeOneDecision(g, programs, capability, opts);
    }
  }

  /* ---- with a rank ---- */

  /** A rank for every scope, any number of contents: behind steady steps the group has one outcome, and its
      candidates are left the same, exactly when the last step is steady too. */
  lemma RankedExact(g: Group, programs: seq<Program>, capability: Capability, opts: Options)
    requires RunsMerge(g, programs, capability) && Ranked(g, opts)
    requires Merged(g, opts) != [] && SteadyChain(Merged(g, opts)[..|Merged(g, opts)| - 1])
    ensures OneOutcome(g, programs, capability, opts) <==> SteadyChain(Merged(g, opts))
    ensures OneDecision(g, programs, capability, opts) <==> SteadyChain(Merged(g, opts))
  {
    var s := Merged(g, opts);
    if SteadyChain(s) {
      forall i, j | GroupIterates(i, g, opts.scopeRank) && GroupIterates(j, g, opts.scopeRank)
        ensures Decided(g, programs, capability, opts, i) == Decided(g, programs, capability, opts, j)
      {
        SteadyTraceSame(s, i, j);
        SameTraceSameDecision(g, programs, capability, opts, i, j);
      }
    } else {
      var i, j := LastStepShows(s);
      MergeDecided(g, programs, capability, opts, i);
      MergeDecided(g, programs, capability, opts, j);
      assert Possible(Decided(g, programs, capability, opts, i), g, programs, capability, opts);
      assert Possible(Decided(g, programs, capability, opts, j), g, programs, capability, opts);
    }
  }

  /** Two ranked contents: one outcome exactly when merging the higher into the lower is steady. */
  lemma TwoContentsExact(g: Group, programs: seq<Program>, capability: Capability, opts: Options, low: Source,
                         high: Source)
    requires RunsMerge(g, programs, capability) && Ranked(g, opts) && Merged(g, opts) == [low, high]
    ensures OneOutcome(g, programs, capability, opts) <==> Steady(Table(low.fields), Table(high.fields))
    ensures OneDecision(g, programs, capability, opts) <==> Steady(Table(low.fields), Table(high.fields))
  {
    FirstIsSteady(low);
    assert [low, high][..1] == [low];
    RankedExact(g, programs, capability, opts);
  }

  lemma FirstIsSteady(a: Source)
    ensures SteadyChain([a]) && SteadyFold([a]) == Table(a.fields)
  {
    assert [a][..0] == [];
    assert SteadyChain([]) && SteadyFold([]) == Table(map[]);
    OverlayFields(map[], a.fields, a.fields);
  }

  /* ---- without one ---- */

  /** Nothing collides, or the step at which the merge is refused is steady on the subtables it shares with
      what was merged before. */
  ghost predicate RefusalSteady(s: seq<Source>) {
    PairwiseCompatible(s) || exists j: nat :: RefusedBy(s, j) && SharedSteady(OverlayAll(s[..j]).fields, s[j].fields)
  }

  /** The first source to disagree with an earlier one. */
  ghost predicate RefusedBy(s: seq<Source>, j: nat) {
    j < |s| && PairwiseCompatible(s[..j]) && !PairwiseCompatible(s[..j + 1])
  }

  lemma RefusedOnce(s: seq<Source>, i: nat, j: nat)
    requires RefusedBy(s, i) && RefusedBy(s, j)
    ensures i == j
  {
    ReachedAt(s, i);
    ReachedAt(s, j);
  }

  /** No rank for every scope, any number of contents: the group has one outcome, and its candidates are
      left the same, exactly when a refusal is steady. */
  lemma UnrankedExact(g: Group, programs: seq<Program>, capability: Capability, opts: Options)
    requires RunsMerge(g, programs, capability) && !Ranked(g, opts) && DistinctRefs(g.candidates)
    ensures OneOutcome(g, programs, capability, opts) <==> RefusalSteady(Merged(g, opts))
    ensures OneDecision(g, programs, capability, opts) <==> RefusalSteady(Merged(g, opts))
  {
    var s := Merged(g, opts);
    if PairwiseCompatible(s) {
      AgreementUnranked(g, programs, capability, opts);
    } else {
      var j := RefusedAt(s);
      if k: nat :| RefusedBy(s, k) && SharedSteady(OverlayAll(s[..k]).fields, s[k].fields) {
        RefusedOnce(s, j, k);
        SteadyRefusal(g, programs, capability, opts, j);
      } else {
        UnsteadyRefusal(g, programs, capability, opts, j);
      }
    }
  }

  lemma AgreementUnranked(g: Group, programs: seq<Program>, capability: Capability, opts: Options)
    requires RunsMerge(g, programs, capability) && PairwiseCompatible(Merged(g, opts))
    ensures OneDecision(g, programs, capability, opts)
  {
    var s := Merged(g, opts);
    FoldIsJoin(s);
    forall i, j | GroupIterates(i, g, opts.scopeRank) && GroupIterates(j, g, opts.scopeRank)
      ensures Decided(g, programs, capability, opts, i) == Decided(g, programs, capability, opts, j)
    {
      TraceIsClean(s, i);
      TraceIsClean(s, j);
      SameTraceSameDecision(g, programs, capability, opts, i, j);
    }
  }

  lemma SteadyRefusal(g: Group, programs: seq<Program>, capability: Capability, opts: Options, j: nat)
    requires RunsMerge(g, programs, capability) && !Ranked(g, opts) && RefusedBy(Merged(g, opts), j)
    requires !PairwiseCompatible(Merged(g, opts))
    requires SharedSteady(OverlayAll(Merged(g, opts)[..j]).fields, Merged(g, opts)[j].fields)
    ensures OneDecision(g, programs, capability, opts)
  {
    var s := Merged(g, opts);
    ReachedAt(s, j);
    forall a, b | GroupIterates(a, g, opts.scopeRank) && GroupIterates(b, g, opts.scopeRank)
      ensures Decided(g, programs, capability, opts, a) == Decided(g, programs, capability, opts, b)
    {
      RefusalLeftSame(s, j, a, b);
      MergeDecided(g, programs, capability, opts, a);
      MergeDecided(g, programs, capability, opts, b);
    }
  }

  lemma UnsteadyRefusal(g: Group, programs: seq<Program>, capability: Capability, opts: Options, j: nat)
    requires RunsMerge(g, programs, capability) && !Ranked(g, opts) && DistinctRefs(g.candidates)
    requires RefusedBy(Merged(g, opts), j) && !PairwiseCompatible(Merged(g, opts))
    requires !SharedSteady(OverlayAll(Merged(g, opts)[..j]).fields, Merged(g, opts)[j].fields)
    ensures !OneOutcome(g, programs, capability, opts)
  {
    var a, b := RefusalsDiffer(g, opts, j);
    RefusalOutcome(g, programs, capability, opts, a);
    RefusalOutcome(g, programs, capability, opts, b);
  }

  /** The candidates as a refused merge leaves them. */
  function RefusedLeaves(g: Group, opts: Options, orders: seq<seq<Visit>>): seq<Candidate>
    requires Structured(Distinct(g.candidates)).Some? && |orders| == |Merged(g, opts)|
  {
    Project(g.candidates, RewriteBy(Rewritten(Merged(g, opts), orders, false)))
  }

  lemma RefusalsDiffer(g: Group, opts: Options, j: nat) returns (a: seq<seq<Visit>>, b: seq<seq<Visit>>)
    requires Structured(Distinct(g.candidates)).Some? && DistinctRefs(g.candidates) && RefusedBy(Merged(g, opts), j)
    requires !SharedSteady(OverlayAll(Merged(g, opts)[..j]).fields, Merged(g, opts)[j].fields)
    ensures Orders(a, Merged(g, opts)) && Orders(b, Merged(g, opts))
    ensures RefusedLeaves(g, opts, a) != RefusedLeaves(g, opts, b)
  {
    var s := Merged(g, opts);
    ReachedAt(s, j);
    a, b := RefusalShows(s, j);
    RewrittenRereads(s, a, false);
    RewrittenRereads(s, b, false);
    LeftShows(g, opts, Rewritten(s, a, false), Rewritten(s, b, false));
  }

  lemma RefusalOutcome(g: Group, programs: seq<Program>, capability: Capability, opts: Options, orders: seq<seq<Visit>>)
    requires RunsMerge(g, programs, capability) && !Ranked(g, opts) && !PairwiseCompatible(Merged(g, opts))
    requires Orders(orders, Merged(g, opts))
    ensures var d := Decided(g, programs, capability, opts, orders);
            && Possible(d, g, programs, capability, opts) && d.outcome.Unresolved?
            && d.outcome.conflict.candidates == RefusedLeaves(g, opts, orders)
  {
    assert GroupIterates(orders, g, opts.scopeRank);
    MergeDecided(g, programs, capability, opts, orders);
  }

  /** The sources as read, with other fields perhaps. */
  ghost predicate Rereads(x: seq<Source>, s: seq<Source>) {
    |x| == |s| && forall i | 0 <= i < |s| :: x[i] == s[i].(fields := x[i].fields)
  }

  lemma RewrittenRereads(s: seq<Source>, orders: seq<seq<Visit>>, complete: bool)
    requires |orders| == |s|
    ensures Rereads(Rewritten(s, orders, complete), s)
  {
  }

  /** A source left different is a candidate left different. */
  lemma LeftShows(g: Group, opts: Options, x: seq<Source>, y: seq<Source>)
    requires Structured(Distinct(g.candidates)).Some? && DistinctRefs(g.candidates)
    requires Rereads(x, Merged(g, opts)) && Rereads(y, Merged(g, opts)) && x != y
    ensures Project(g.candidates, RewriteBy(x)) != Project(g.candidates, RewriteBy(y))
  {
    var i :| 0 <= i < |x| && x[i] != y[i];
    var k := CandidateOf(g, opts, i);
    MergedRefs(g, opts);
    FieldsLeftAt(x, i);
    FieldsLeftAt(y, i);
    assert Project(g.candidates, RewriteBy(x))[k].fields == Some(x[i].fields);
    assert Project(g.candidates, RewriteBy(y))[k].fields == Some(y[i].fields);
  }

  ghost predicate RefsDiffer(s: seq<Source>) {
    forall i, j :: 0 <= i < j < |s| ==> s[i].ref != s[j].ref
  }

  lemma {:induction false} FieldsLeftAt(left: seq<Source>, i: nat)
    requires i < |left| && RefsDiffer(left)
    ensures FieldsLeft(left, left[i].ref) == Some(left[i].fields)
  {
    var n := |left| - 1;
    if i < n {
      assert left[i].ref != left[n].ref;
      FieldsLeftAt(left[..n], i);
    }
  }

  /** The candidate a merged source is read from. */
  lemma CandidateOf(g: Group, opts: Options, i: nat) returns (k: nat)
    requires Structured(Distinct(g.candidates)).Some? && i < |Merged(g, opts)|
    ensures k < |g.candidates| && g.candidates[k].ref == Merged(g, opts)[i].ref
    ensures g.candidates[k].fields == Some(Merged(g, opts)[i].fields)
  {
    var l := SourceOf(Distinct(g.candidates), Merged(g, opts)[i], opts);
    k := PositionOf(g.candidates, Distinct(g.candidates)[l]);
  }

  lemma PositionOf(s: seq<Candidate>, c: Candidate) returns (k: nat)
    requires c in Distinct(s)
    ensures k < |s| && s[k] == c
  {
    DistinctExact(s);
    k :| 0 <= k < |s| && s[k] == c;
  }

  lemma SourceOf(d: seq<Candidate>, s: Source, opts: Options) returns (l: nat)
    requires Structured(d).Some? && s in MergeOrder(Structured(d).value, opts.scopeRank)
    ensures l < |d| && d[l].ref == s.ref && d[l].fields == Some(s.fields)
  {
    var sources := Structured(d).value;
    StructuredExact(d);
    MergeOrderPermutes(sources, opts.scopeRank);
    SameMembers(sources, MergeOrder(sources, opts.scopeRank));
    l :| 0 <= l < |sources| && sources[l] == s;
  }

  function SourceRef(s: Source): string {
    s.ref
  }

  lemma MergedRefs(g: Group, opts: Options)
    requires Structured(Distinct(g.candidates)).Some? && DistinctRefs(g.candidates)
    ensures RefsDiffer(Merged(g, opts))
  {
    var sources := Structured(Distinct(g.candidates)).value;
    StructuredExact(Distinct(g.candidates));
    DistinctKeepsRefs(g.candidates);
    MergeOrderPermutes(sources, opts.scopeRank);
    RefsPermuted(sources, Merged(g, opts));
  }

  lemma RefsPermuted(s: seq<Source>, t: seq<Source>)
    requires multiset(s) == multiset(t) && RefsDiffer(s)
    ensures RefsDiffer(t)
  {
    ProjectPermutation(s, t, SourceRef);
    NoDuplicatesPermutation(Project(s, SourceRef), Project(t, SourceRef));
    forall i, j | 0 <= i < j < |t| ensures t[i].ref != t[j].ref {
      assert Project(t, SourceRef)[i] != Project(t, SourceRef)[j];
    }
  }

  /* ---- what deciding leaves as it was read ---- */

  /** In every iteration the candidates are left as they were read. */
  ghost predicate Untouched(g: Group, programs: seq<Program>, capability: Capability, opts: Options) {
    forall d | Possible(d, g, programs, capability, opts) :: d.left == g.candidates
  }

  /** Sources that are as they were read leave the candidates so. */
  lemma SourcesAsRead(g: Group, opts: Options)
    requires Structured(Distinct(g.candidates)).Some? && DistinctRefs(g.candidates)
    ensures Project(g.candidates, RewriteBy(Merged(g, opts))) == g.candidates
  {
    forall k | 0 <= k < |g.candidates| ensures Rewrite(g.candidates[k], Merged(g, opts)) == g.candidates[k] {
      if FieldsLeft(Merged(g, opts), g.candidates[k].ref).Some? {
        var i := FieldsFrom(Merged(g, opts), g.candidates[k].ref);
        var l := CandidateOf(g, opts, i);
        SameRefSame(g.candidates, g.candidates[k], g.candidates[l]);
      }
    }
  }

  lemma {:induction false} FieldsFrom(left: seq<Source>, ref: string) returns (i: nat)
    requires FieldsLeft(left, ref).Some?
    ensures i < |left| && left[i].ref == ref && FieldsLeft(left, ref) == Some(left[i].fields)
  {
    i := |left| - 1;
    if left[i].ref != ref {
      i := FieldsFrom(left[..i], ref);
    }
  }

  lemma LeftAsReadExact(g: Group, programs: seq<Program>, capability: Capability, opts: Options,
                        orders: seq<seq<Visit>>)
    requires RunsMerge(g, programs, capability) && DistinctRefs(g.candidates) && Orders(orders, Merged(g, opts))
    ensures Possible(Decided(g, programs, capability, opts, orders), g, programs, capability, opts)
    ensures LeftOf(g, programs, capability, opts, orders) == g.candidates
       <==> Rewritten(Merged(g, opts), orders, Ranked(g, opts)) == Merged(g, opts)
  {
    assert GroupIterates(orders, g, opts.scopeRank);
    MergeDecided(g, programs, capability, opts, orders);
    SourcesAsRead(g, opts);
    RewrittenRereads(Merged(g, opts), orders, Ranked(g, opts));
    if Rewritten(Merged(g, opts), orders, Ranked(g, opts)) != Merged(g, opts) {
      LeftShows(g, opts, Rewritten(Merged(g, opts), orders, Ranked(g, opts)), Merged(g, opts));
    }
  }

  /** Two contents, ranked or not: they are left as they were read, in every iteration, exactly when the one
      merged last adds nothing below the subtables of the other. */
  lemma TwoUntouchedExact(g: Group, programs: seq<Program>, capability: Capability, opts: Options, a: Source, b: Source)
    requires RunsMerge(g, programs, capability) && DistinctRefs(g.candidates) && Merged(g, opts) == [a, b]
    ensures Untouched(g, programs, capability, opts) <==> AddsNothing(a.fields, b.fields)
  {
    FirstUntouchedExact(a.fields, b.fields);
    if AddsNothing(a.fields, b.fields) {
      forall orders | GroupIterates(orders, g, opts.scopeRank)
        ensures LeftOf(g, programs, capability, opts, orders) == g.candidates
      {
        TwoLeft(g, programs, capability, opts, a, b, orders);
      }
    } else {
      var order :| Iterates(order, b.fields) && FirstAfter(a.fields, After(a.fields, b.fields, order).out) != a.fields;
      var orders := TwoOrders(a, b, order);
      TwoLeft(g, programs, capability, opts, a, b, orders);
    }
  }

  lemma TwoLeft(g: Group, programs: seq<Program>, capability: Capability, opts: Options, a: Source, b: Source,
                orders: seq<seq<Visit>>)
    requires RunsMerge(g, programs, capability) && DistinctRefs(g.candidates) && Merged(g, opts) == [a, b]
    requires Orders(orders, [a, b])
    ensures Possible(Decided(g, programs, capability, opts, orders), g, programs, capability, opts)
    ensures Iterates(orders[1], b.fields)
    ensures LeftOf(g, programs, capability, opts, orders) == g.candidates
       <==> FirstAfter(a.fields, After(a.fields, b.fields, orders[1]).out) == a.fields
  {
    LeftAsReadExact(g, programs, capability, opts, orders);
    TwoRewritten(a, b, orders, Ranked(g, opts));
  }

  lemma TwoRewritten(a: Source, b: Source, orders: seq<seq<Visit>>, complete: bool)
    requires Orders(orders, [a, b])
    ensures Iterates(orders[1], b.fields)
    ensures Rewritten([a, b], orders, complete)
         == [a.(fields := FirstAfter(a.fields, After(a.fields, b.fields, orders[1]).out)), b]
  {
    var s, out := [a, b], After(a.fields, b.fields, orders[1]).out;
    TwoFold(a, b, orders);
    FirstSource(a, orders[..1]);
    TwoTrace(a, b, orders);
    FirstIsSeen(a.fields, out);
    LastUntouched(a.fields, b.fields, orders[1]);
    assert s[..1] == [a] && Reached(s, complete) == 2;
    var t := [map[], a.fields, out];
    assert t[0..] == t && t[1..] == [a.fields, out];
    LeftAt(s, t, 0);
    LeftAt(s, t, 1);
  }

  lemma TwoTrace(a: Source, b: Source, orders: seq<seq<Visit>>)
    requires Orders(orders, [a, b])
    ensures Trace([a, b], orders) == [map[], a.fields, After(a.fields, b.fields, orders[1]).out]
    ensures Trace([a, b], orders)[..3] == Trace([a, b], orders)
  {
    TwoFold(a, b, orders);
    assert [a, b][..1] == [a] && [a][..0] == [] && orders[..1][..0] == [];
    OrdersPrefix(orders, [a, b]);
    FirstSource(a, orders[..1]);
  }
}
