/** Resolving one logical group: agreement needs no program, disagreement needs a unique program,
    a valid operator and a qualified capability, and each operator either names what is active and
    what is ignored or leaves a conflict. */
module MergeOperators {
  import opened Ordering
  import opened Buckets
  import opened DeepMerge
  import opened TableMerge
  import opened Candidates

  datatype Guarantee = HARD | OBSERVED | ADVISORY

  datatype Selection = Nobody | Winner(ref: string) | InOrder(refs: seq<string>)

  datatype Constraint = EveryCandidateDenied | DenialsApplied | GuardrailApplied | MergedContent(content: Value)

  /** `program` and `operator` are empty when no operator ran. */
  datatype Entry = Entry(
    concept: string, logicalId: string, composed: bool,
    program: string, operator: Option<Operator>,
    selected: Selection, active: seq<string>, ignored: seq<string>, constraint: Option<Constraint>,
    level: Level, guarantee: Guarantee, confirmed: bool)

  datatype Conflict = Conflict(
    concept: string, logicalId: string, candidates: seq<Candidate>,
    program: string, operator: Option<Operator>, level: Level)

  datatype Outcome = Resolved(entry: Entry) | Unresolved(conflict: Conflict)

  /** An outcome, and the group's candidates as deciding leaves them: a deep merge writes into their
      tables. */
  datatype Decision = Decision(outcome: Outcome, left: seq<Candidate>)

  predicate Confirms(level: Level) {
    level.Rank() >= 3
  }

  /** The entry an operator starts from; each fills in what it decides. */
  function Base(g: Group, p: Program): Entry {
    Entry(g.concept, g.logicalId, false, p.id, Some(p.operator), Nobody, [], [], None,
          Highest(g.candidates), OBSERVED, Confirms(Highest(g.candidates)))
  }

  function Refuse(g: Group, p: Program): Outcome {
    Unresolved(Conflict(g.concept, g.logicalId, g.candidates, p.id, Some(p.operator), Highest(g.candidates)))
  }

  /** The same candidates, whatever has become of their tables. */
  predicate SameSources(s: seq<Candidate>, t: seq<Candidate>) {
    |s| == |t| && forall i | 0 <= i < |s| :: s[i] == t[i].(fields := s[i].fields)
  }

  /** What an operator decides carries the group's identity, the program it followed and exactly the
      strongest evidence; a refusal hands every candidate on. */
  predicate FollowsProgram(r: Outcome, g: Group, p: Program) {
    match r
    case Resolved(e) =>
      && e.concept == g.concept && e.logicalId == g.logicalId && !e.composed
      && e.program == p.id && e.operator == Some(p.operator)
      && e.level == Highest(g.candidates) && (e.confirmed ==> Confirms(e.level))
    case Unresolved(c) =>
      && SameSources(c.candidates, g.candidates)
      && c == Refuse(g, p).conflict.(candidates := c.candidates)
  }

  /* ---- denials ---- */

  predicate IsDenied(c: Candidate, deniedRefs: set<string>) {
    c.ref in deniedRefs || c.denied
  }

  function DeniedBy(deniedRefs: set<string>): Candidate -> bool {
    (c: Candidate) => IsDenied(c, deniedRefs)
  }

  function Denied(s: seq<Candidate>, refs: set<string>): seq<Candidate> {
    BucketOf(s, DeniedBy(refs), true)
  }

  function Survivors(s: seq<Candidate>, refs: set<string>): seq<Candidate> {
    BucketOf(s, DeniedBy(refs), false)
  }

  method SplitDenied(s: seq<Candidate>, deniedRefs: set<string>)
    returns (survivors: seq<Candidate>, denied: seq<string>)
    ensures survivors == Survivors(s, deniedRefs)
    ensures denied == SortedRefs(Denied(s, deniedRefs))
  {
    survivors, denied := [], [];
    var key := DeniedBy(deniedRefs);
    for i := 0 to |s|
      invariant survivors == Survivors(s[..i], deniedRefs)
      invariant denied == Project(Denied(s[..i], deniedRefs), RefOf)
    {
      BucketSnoc(s, i, key, true);
      BucketSnoc(s, i, key, false);
      if IsDenied(s[i], deniedRefs) {
        ProjectAppend(Denied(s[..i], deniedRefs), [s[i]], RefOf);
        assert Project([s[i]], RefOf) == [s[i].ref];
        denied := denied + [s[i].ref];
      } else {
        survivors := survivors + [s[i]];
      }
    }
    assert s[..|s|] == s;
    denied := Sort(denied, StrLess);
  }

  /* ---- the operators ---- */

  /** All contents agree: nothing to adjudicate, but a denial is a fact and not a collision. */
  function Agreement(g: Group, opts: Options): Outcome
    requires g.candidates != [] && |Distinct(g.candidates)| == 1
  {
    var survivors, denied := Survivors(g.candidates, opts.deniedRefs), Denied(g.candidates, opts.deniedRefs);
    var e := Base(g, Program("", UNSPECIFIED)).(operator := None);
    if denied == [] then
      Resolved(e.(selected := Winner(Distinct(g.candidates)[0].ref), active := SortedRefs(g.candidates),
        confirmed := false))
    else if survivors == [] then
      Resolved(e.(ignored := SortedRefs(denied), constraint := Some(EveryCandidateDenied), guarantee := HARD))
    else
      Resolved(e.(selected := Winner(survivors[0].ref), active := SortedRefs(survivors), ignored := SortedRefs(denied),
                  constraint := Some(DenialsApplied), guarantee := HARD))
  }

  predicate RanksAll(rank: map<string, int>, s: seq<Candidate>) {
    forall c | c in s :: c.scope in rank
  }

  function RankIn(rank: map<string, int>): Candidate -> int {
    (c: Candidate) => if c.scope in rank then rank[c.scope] else 0
  }

  function HasRef(ref: string): Candidate -> bool {
    (c: Candidate) => c.ref == ref
  }

  function OtherRefs(s: seq<Candidate>, ref: string): seq<string> {
    SortedRefs(BucketOf(s, HasRef(ref), false))
  }

  /** REPLACE, and UNION_BY_ID when one id carries several contents. */
  function ByScopeRank(g: Group, p: Program, rank: map<string, int>): (r: Outcome)
    ensures FollowsProgram(r, g, p)
  {
    var d := Distinct(g.candidates);
    if |rank| == 0 || !RanksAll(rank, d) then Refuse(g, p)
    else
      var winners := Winners(d, RankIn(rank), -1);
      if |winners| != 1 then Refuse(g, p)
      else
        Resolved(Base(g, p).(selected := Winner(winners[0].ref), active := [winners[0].ref],
                             ignored := OtherRefs(d, winners[0].ref)))
  }

  method CollectOthers(s: seq<Candidate>, ref: string) returns (ignored: seq<string>)
    ensures ignored == OtherRefs(s, ref)
  {
    ignored := [];
    var key := HasRef(ref);
    for i := 0 to |s|
      invariant ignored == Project(BucketOf(s[..i], key, false), RefOf)
    {
      BucketSnoc(s, i, key, false);
      if s[i].ref != ref {
        ProjectAppend(BucketOf(s[..i], key, false), [s[i]], RefOf);
        assert Project([s[i]], RefOf) == [s[i].ref];
        ignored := ignored + [s[i].ref];
      }
    }
    assert s[..|s|] == s;
    ignored := Sort(ignored, StrLess);
  }

  method ResolveByScopeRank(g: Group, p: Program, scopeRank: map<string, int>) returns (r: Outcome)
    ensures DistinctRefs(g.candidates) ==> r == ByScopeRank(g, p, scopeRank)
  {
    var distinct := DistinctByContent(g.candidates);
    var level := HighestEvidence(g.candidates);
    if |scopeRank| == 0 {
      return Refuse(g, p);
    }
    for i := 0 to |distinct|
      invariant forall j :: 0 <= j < i ==> distinct[j].scope in scopeRank
    {
      if distinct[i].scope !in scopeRank {
        return Refuse(g, p);
      }
    }
    var winners := PickWinners(distinct, RankIn(scopeRank), -1);
    if |winners| != 1 {
      return Refuse(g, p);
    }
    var ignored := CollectOthers(distinct, winners[0].ref);
    return Resolved(Base(g, p).(selected := Winner(winners[0].ref), active := [winners[0].ref], ignored := ignored,
      level := level));
  }

  /** The sources a deep merge folds, None when one of them has no structure. */
  function Structured(s: seq<Candidate>): Option<seq<Source>> {
    if s == [] then Some([])
    else
      var p := Structured(s[..|s| - 1]);
      var c := s[|s| - 1];
      if p.None? || c.fields.None? then None else Some(p.value + [Source(c.ref, c.scope, c.fields.value)])
  }

  /** One iteration for every source that is merged, in merge order. */
  ghost predicate GroupIterates(orders: seq<seq<Visit>>, g: Group, rank: map<string, int>) {
    var sources := Structured(Distinct(g.candidates));
    sources.Some? ==> Orders(orders, MergeOrder(sources.value, rank))
  }

  lemma AnyOrders(g: Group, rank: map<string, int>) returns (orders: seq<seq<Visit>>)
    ensures GroupIterates(orders, g, rank)
  {
    orders := [];
    var sources := Structured(Distinct(g.candidates));
    if sources.Some? {
      orders := SomeOrders(MergeOrder(sources.value, rank));
    }
  }

  /** The content the sources have when their tables are iterated like this. */
  function MergedOf(sources: seq<Source>, rank: map<string, int>, orders: seq<seq<Visit>>): Value {
    var ordered := MergeOrder(sources, rank);
    Table(if |orders| == |ordered| then FoldBy(ordered, orders) else map[])
  }

  /** The sources in merge order as the merge leaves them, refused or not. */
  function SourcesLeft(sources: seq<Source>, rank: map<string, int>, orders: seq<seq<Visit>>): seq<Source> {
    var ordered := MergeOrder(sources, rank);
    if |orders| == |ordered| then Rewritten(ordered, orders, Covers(rank, sources)) else ordered
  }

  function FieldsLeft(left: seq<Source>, ref: string): Option<Fields> {
    if left == [] then None
    else if left[|left| - 1].ref == ref then Some(left[|left| - 1].fields)
    else FieldsLeft(left[..|left| - 1], ref)
  }

  function Rewrite(c: Candidate, left: seq<Source>): Candidate {
    var f := FieldsLeft(left, c.ref);
    if f.Some? then c.(fields := f) else c
  }

  function RewriteBy(left: seq<Source>): Candidate -> Candidate {
    (c: Candidate) => Rewrite(c, left)
  }

  /** The group's candidates after its contents have been merged: representatives share their tables with
      the sources, repeats of a content have tables of their own. */
  function MergeLeaves(g: Group, rank: map<string, int>, orders: seq<seq<Visit>>): (left: seq<Candidate>)
    ensures SameSources(left, g.candidates)
  {
    var sources := Structured(Distinct(g.candidates));
    if sources.None? then g.candidates else Project(g.candidates, RewriteBy(SourcesLeft(sources.value, rank, orders)))
  }

  function DeepMerged(g: Group, p: Program, rank: map<string, int>, orders: seq<seq<Visit>>): (r: Outcome)
    ensures FollowsProgram(r, g, p)
  {
    var sources := Structured(Distinct(g.candidates));
    if sources.None? || (!Covers(rank, sources.value) && !PairwiseCompatible(sources.value)) then
      Unresolved(Refuse(g, p).conflict.(candidates := MergeLeaves(g, rank, orders)))
    else
      Resolved(Base(g, p).(active := SortedRefs(g.candidates),
                           constraint := Some(MergedContent(MergedOf(sources.value, rank, orders)))))
  }

  /** What some iteration of the candidates' tables merges to. */
  ghost predicate CanMerge(d: Decision, g: Group, p: Program, rank: map<string, int>) {
    exists orders :: GroupIterates(orders, g, rank)
                  && d == Decision(DeepMerged(g, p, rank, orders), MergeLeaves(g, rank, orders))
  }

  method ResolveDeepMerge(g: Group, p: Program, scopeRank: map<string, int>) returns (d: Decision)
    ensures DistinctRefs(g.candidates) ==> CanMerge(d, g, p, scopeRank)
  {
    var distinct := DistinctByContent(g.candidates);
    var sources: seq<Source> := [];
    ghost var any := AnyOrders(g, scopeRank);
    for i := 0 to |distinct|
      invariant Structured(distinct[..i]) == Some(sources)
    {
      assert distinct[..i + 1][..i] == distinct[..i];
      if distinct[i].fields.None? {
        NoStructure(distinct, i);
        d := Decision(Refuse(g, p), g.candidates);
        assert DistinctRefs(g.candidates) ==>
                 d == Decision(DeepMerged(g, p, scopeRank, any), MergeLeaves(g, scopeRank, any));
        return;
      }
      sources := sources + [Source(distinct[i].ref, distinct[i].scope, distinct[i].fields.value)];
    }
    assert distinct[..|distinct|] == distinct;
    d := MergeSources(g, p, scopeRank, sources);
  }

  method MergeSources(g: Group, p: Program, scopeRank: map<string, int>, sources: seq<Source>) returns (d: Decision)
    ensures DistinctRefs(g.candidates) && Structured(Distinct(g.candidates)) == Some(sources) ==>
              CanMerge(d, g, p, scopeRank)
  {
    var merged, rewritten;
    ghost var orders;
    merged, rewritten, orders := DeepMergeAll(sources, scopeRank);
    var left := Project(g.candidates, RewriteBy(rewritten));
    if merged.None? {
      d := Decision(Unresolved(Refuse(g, p).conflict.(candidates := left)), left);
    } else {
      var refs := CandidateRefs(g.candidates);
      var constraint := MergedContent(Table(merged.value));
      d := Decision(Resolved(Base(g, p).(active := refs, constraint := Some(constraint))), left);
    }
    assert Structured(Distinct(g.candidates)) == Some(sources) ==>
             && GroupIterates(orders, g, scopeRank)
             && d == Decision(DeepMerged(g, p, scopeRank, orders), MergeLeaves(g, scopeRank, orders));
  }

  lemma {:induction false} NoStructure(s: seq<Candidate>, i: nat)
    requires i < |s| && s[i].fields.None?
    ensures Structured(s).None?
  {
    if i < |s| - 1 {
      NoStructure(s[..|s| - 1], i);
    }
  }

  function ByRankThenRef(rank: map<string, int>): (Candidate, Candidate) -> bool {
    (a: Candidate, b: Candidate) =>
      RankIn(rank)(a) < RankIn(rank)(b) || (RankIn(rank)(a) == RankIn(rank)(b) && StrLess(a.ref, b.ref))
  }

  /** The composition order, when a rank for every scope makes it known. */
  function ConcatOrder(s: seq<Candidate>, rank: map<string, int>): Option<seq<string>> {
    if |rank| == 0 || !RanksAll(rank, s) then None else Some(Project(Sort(s, ByRankThenRef(rank)), RefOf))
  }

  method OrderedRefs(candidates: seq<Candidate>, scopeRank: map<string, int>)
    returns (ordered: seq<string>, confirmed: bool)
    ensures confirmed == ConcatOrder(candidates, scopeRank).Some?
    ensures ordered == if confirmed then ConcatOrder(candidates, scopeRank).value else SortedRefs(candidates)
  {
    ordered := CandidateRefs(candidates);
    confirmed := |scopeRank| > 0;
    if confirmed {
      for i := 0 to |candidates|
        invariant forall j :: 0 <= j < i ==> candidates[j].scope in scopeRank
      {
        if candidates[i].scope !in scopeRank {
          return ordered, false;
        }
      }
    }
    if !confirmed {
      return ordered, false;
    }
    var sorted := Sort(candidates, ByRankThenRef(scopeRank));
    ordered := [];
    for i := 0 to |sorted|
      invariant ordered == Project(sorted[..i], RefOf)
    {
      ProjectSnoc(sorted, i, RefOf);
      ordered := ordered + [sorted[i].ref];
    }
    assert sorted[..|sorted|] == sorted;
  }

  function Concatenated(g: Group, p: Program, rank: map<string, int>): (r: Outcome)
    ensures FollowsProgram(r, g, p)
  {
    Resolved(Base(g, p).(active := SortedRefs(g.candidates), guarantee := ADVISORY,
                         confirmed := ConcatOrder(g.candidates, rank).Some? && Confirms(Highest(g.candidates))))
  }

  method ResolveConcatWithinGroup(g: Group, p: Program, scopeRank: map<string, int>) returns (r: Outcome)
    ensures r == Concatenated(g, p, scopeRank)
  {
    var refs := CandidateRefs(g.candidates);
    var _, orderConfirmed := OrderedRefs(g.candidates, scopeRank);
    var level := HighestEvidence(g.candidates);
    return Resolved(Base(g, p).(active := refs, guarantee := ADVISORY, confirmed := orderConfirmed && Confirms(level)));
  }

  /** The first position of a scope in the priority list, -1 when it is not there. */
  function IndexIn(priority: seq<string>, scope: string): int {
    if priority == [] then -1
    else
      var i := IndexIn(priority[..|priority| - 1], scope);
      if i >= 0 then i else if priority[|priority| - 1] == scope then |priority| - 1 else -1
  }

  lemma {:induction false} IndexExact(priority: seq<string>, scope: string)
    ensures -1 <= IndexIn(priority, scope) < |priority|
    ensures IndexIn(priority, scope) == -1 <==> scope !in priority
    ensures IndexIn(priority, scope) >= 0 ==> priority[IndexIn(priority, scope)] == scope
    ensures forall j :: 0 <= j < IndexIn(priority, scope) ==> priority[j] != scope
  {
    if priority != [] {
      IndexExact(priority[..|priority| - 1], scope);
      assert priority == priority[..|priority| - 1] + [priority[|priority| - 1]];
    }
  }

  method RankOf(priority: seq<string>, scope: string) returns (r: int)
    ensures r == IndexIn(priority, scope)
  {
    for i := 0 to |priority|
      invariant IndexIn(priority[..i], scope) == -1
    {
      assert priority[..i + 1][..i] == priority[..i];
      if priority[i] == scope {
        FirstIndex(priority, scope, i);
        return i;
      }
    }
    assert priority[..|priority|] == priority;
    return -1;
  }

  lemma {:induction false} FirstIndex(priority: seq<string>, scope: string, i: nat)
    requires i < |priority| && priority[i] == scope && IndexIn(priority[..i], scope) == -1
    ensures IndexIn(priority, scope) == i
  {
    if i < |priority| - 1 {
      var p := priority[..|priority| - 1];
      assert p[..i] == priority[..i];
      FirstIndex(p, scope, i);
    }
  }

  /** Earlier in the list is higher. */
  function PriorityRank(priority: seq<string>): Candidate -> int {
    (c: Candidate) => -IndexIn(priority, c.scope)
  }

  /** The rank below every listed scope. */
  function PriorityFloor(priority: seq<string>): int {
    -|priority|
  }

  predicate ListsAll(priority: seq<string>, s: seq<Candidate>) {
    forall c | c in s :: IndexIn(priority, c.scope) != -1
  }

  function FirstMatch(g: Group, p: Program, priority: seq<string>): (r: Outcome)
    ensures FollowsProgram(r, g, p)
  {
    var d := Distinct(g.candidates);
    if priority == [] || !ListsAll(priority, d) then Refuse(g, p)
    else
      var winners := Winners(d, PriorityRank(priority), PriorityFloor(priority));
      if |winners| != 1 then Refuse(g, p)
      else
        Resolved(Base(g, p).(selected := Winner(winners[0].ref), active := [winners[0].ref],
                             ignored := OtherRefs(g.candidates, winners[0].ref)))
  }

  /** The loop that keeps the earliest position seen and the candidates at it. */
  method PickEarliest(distinct: seq<Candidate>, priority: seq<string>) returns (winners: seq<Candidate>)
    ensures winners == Winners(distinct, PriorityRank(priority), PriorityFloor(priority))
  {
    var best := |priority|;
    winners := [];
    ghost var key := PriorityRank(priority);
    for i := 0 to |distinct|
      invariant -best == Best(distinct[..i], key, PriorityFloor(priority))
      invariant winners == Winners(distinct[..i], key, PriorityFloor(priority))
    {
      var rank := RankOf(priority, distinct[i].scope);
      WinnersStep(distinct, i, key, PriorityFloor(priority));
      if rank < best {
        best := rank;
        winners := [distinct[i]];
      } else if rank == best {
        winners := winners + [distinct[i]];
      }
    }
    assert distinct[..|distinct|] == distinct;
  }

  method ResolveFirstMatch(g: Group, p: Program, priority: seq<string>) returns (r: Outcome)
    ensures DistinctRefs(g.candidates) ==> r == FirstMatch(g, p, priority)
  {
    var distinct := DistinctByContent(g.candidates);
    if priority == [] {
      return Refuse(g, p);
    }
    for i := 0 to |distinct|
      invariant forall j :: 0 <= j < i ==> IndexIn(priority, distinct[j].scope) != -1
    {
      var rank := RankOf(priority, distinct[i].scope);
      if rank == -1 {
        assert !ListsAll(priority, distinct);
        return Refuse(g, p);
      }
    }
    var winners := PickEarliest(distinct, priority);
    if |winners| != 1 {
      return Refuse(g, p);
    }
    var ignored := CollectOthers(g.candidates, winners[0].ref);
    return Resolved(Base(g, p).(selected := Winner(winners[0].ref), active := [winners[0].ref], ignored := ignored));
  }

  /** Duplicate names stay apart under their own references. */
  function Namespaced(g: Group, p: Program): (r: Outcome)
    ensures FollowsProgram(r, g, p)
  {
    Resolved(Base(g, p).(active := SortedRefs(g.candidates)))
  }

  function DenyWins(g: Group, p: Program, deniedRefs: set<string>): (r: Outcome)
    ensures FollowsProgram(r, g, p)
  {
    var survivors, denied := Survivors(g.candidates, deniedRefs), Denied(g.candidates, deniedRefs);
    var d := Distinct(survivors);
    var e := Base(g, p).(ignored := SortedRefs(denied), guarantee := HARD);
    if d == [] then Resolved(e.(constraint := Some(EveryCandidateDenied)))
    else if |d| == 1 then
      Resolved(e.(selected := Winner(d[0].ref), active := SortedRefs(survivors), constraint := Some(DenialsApplied)))
    else Refuse(g, p)
  }

  method ResolveDenyWins(g: Group, p: Program, deniedRefs: set<string>) returns (r: Outcome)
    ensures DistinctRefs(g.candidates) ==> r == DenyWins(g, p, deniedRefs)
  {
    var survivors, denied := SplitDenied(g.candidates, deniedRefs);
    if DistinctRefs(g.candidates) {
      SubsetRefs(g.candidates, DeniedBy(deniedRefs), false);
    }
    var distinct := DistinctByContent(survivors);
    var e := Base(g, p).(ignored := denied, guarantee := HARD);
    if |distinct| == 0 {
      return Resolved(e.(constraint := Some(EveryCandidateDenied)));
    }
    if |distinct| == 1 {
      var refs := CandidateRefs(survivors);
      return Resolved(e.(selected := Winner(distinct[0].ref), active := refs, constraint := Some(DenialsApplied)));
    }
    return Refuse(g, p);
  }

  const MANAGED_SCOPE := "managed"

  predicate IsManaged(c: Candidate) {
    c.scope == MANAGED_SCOPE
  }

  function Guardrail(g: Group, p: Program): (r: Outcome)
    ensures FollowsProgram(r, g, p)
  {
    var d := Distinct(BucketOf(g.candidates, IsManaged, true));
    if |d| != 1 then Refuse(g, p)
    else
      Resolved(Base(g, p).(selected := Winner(d[0].ref), active := [d[0].ref],
                           ignored := OtherRefs(g.candidates, d[0].ref),
                           constraint := Some(GuardrailApplied), guarantee := HARD))
  }

  method ResolveManagedGuardrail(g: Group, p: Program) returns (r: Outcome)
    ensures DistinctRefs(g.candidates) ==> r == Guardrail(g, p)
  {
    var managed: seq<Candidate> := [];
    for i := 0 to |g.candidates|
      invariant managed == BucketOf(g.candidates[..i], IsManaged, true)
    {
      BucketSnoc(g.candidates, i, IsManaged, true);
      if g.candidates[i].scope == MANAGED_SCOPE {
        managed := managed + [g.candidates[i]];
      }
    }
    assert g.candidates[..|g.candidates|] == g.candidates;
    if DistinctRefs(g.candidates) {
      SubsetRefs(g.candidates, IsManaged, true);
    }
    var distinct := DistinctByContent(managed);
    if |distinct| == 0 {
      return Refuse(g, p);
    }
    if |distinct| > 1 {
      return Refuse(g, p);
    }
    var winner := distinct[0];
    var ignored := CollectOthers(g.candidates, winner.ref);
    return Resolved(Base(g, p).(selected := Winner(winner.ref), active := [winner.ref], ignored := ignored,
                                constraint := Some(GuardrailApplied), guarantee := HARD));
  }

  function Applied(g: Group, p: Program, opts: Options, orders: seq<seq<Visit>>): (r: Outcome)
    ensures FollowsProgram(r, g, p)
    ensures r.Resolved? ==> p.operator.Valid() && p.operator != UNSPECIFIED
  {
    match p.operator
    case REPLACE => ByScopeRank(g, p, opts.scopeRank)
    case UNION_BY_ID => ByScopeRank(g, p, opts.scopeRank)
    case DEEP_MERGE => DeepMerged(g, p, opts.scopeRank, orders)
    case CONCAT_ORDERED => Concatenated(g, p, opts.scopeRank)
    case FIRST_MATCH => FirstMatch(g, p, opts.scopePriority)
    case NAMESPACE => Namespaced(g, p)
    case DENY_WINS => DenyWins(g, p, opts.deniedRefs)
    case MANAGED_GUARDRAIL => Guardrail(g, p)
    case UNSPECIFIED => Refuse(g, p)
    case OtherOperator(_) => Refuse(g, p)
  }

  /** Only a deep merge writes into the candidates. */
  function Leaves(g: Group, p: Program, opts: Options, orders: seq<seq<Visit>>): (left: seq<Candidate>)
    ensures SameSources(left, g.candidates)
  {
    if p.operator == DEEP_MERGE then MergeLeaves(g, opts.scopeRank, orders) else g.candidates
  }

  /** What the operator gives in some iteration of the candidates' tables. */
  ghost predicate CanApply(d: Decision, g: Group, p: Program, opts: Options) {
    exists orders :: GroupIterates(orders, g, opts.scopeRank)
                  && d == Decision(Applied(g, p, opts, orders), Leaves(g, p, opts, orders))
  }

  method ApplyOperator(g: Group, p: Program, opts: Options) returns (d: Decision)
    ensures DistinctRefs(g.candidates) ==> CanApply(d, g, p, opts)
  {
    ghost var orders := AnyOrders(g, opts.scopeRank);
    if p.operator == DEEP_MERGE {
      d := ResolveDeepMerge(g, p, opts.scopeRank);
      if DistinctRefs(g.candidates) {
        orders :| GroupIterates(orders, g, opts.scopeRank)
                  && d == Decision(DeepMerged(g, p, opts.scopeRank, orders), MergeLeaves(g, opts.scopeRank, orders));
      }
    } else {
      var r := ApplyPlain(g, p, opts, orders);
      d := Decision(r, g.candidates);
    }
    assert DistinctRefs(g.candidates) ==> d == Decision(Applied(g, p, opts, orders), Leaves(g, p, opts, orders));
  }

  method ApplyPlain(g: Group, p: Program, opts: Options, ghost orders: seq<seq<Visit>>) returns (r: Outcome)
    requires p.operator != DEEP_MERGE
    ensures DistinctRefs(g.candidates) ==> r == Applied(g, p, opts, orders)
  {
    match p.operator {
      case REPLACE => r := ResolveByScopeRank(g, p, opts.scopeRank);
      case UNION_BY_ID => r := ResolveByScopeRank(g, p, opts.scopeRank);
      case CONCAT_ORDERED => r := ResolveConcatWithinGroup(g, p, opts.scopeRank);
      case FIRST_MATCH => r := ResolveFirstMatch(g, p, opts.scopePriority);
      case NAMESPACE => r := Namespaced(g, p);
      case DENY_WINS => r := ResolveDenyWins(g, p, opts.deniedRefs);
      case MANAGED_GUARDRAIL => r := ResolveManagedGuardrail(g, p);
      case _ => r := Refuse(g, p);
    }
  }

  /** A conflict that never got as far as an operator; without a unique program it names none. */
  function NoProgram(g: Group, p: Option<Program>): Outcome {
    Unresolved(Conflict(g.concept, g.logicalId, g.candidates, if p.Some? then p.value.id else "",
                        if p.Some? then Some(p.value.operator) else None, Highest(g.candidates)))
  }

  function Outcomed(g: Group, programs: seq<Program>, capability: Capability, opts: Options,
                    orders: seq<seq<Visit>>): Outcome {
    if g.candidates == [] then Unresolved(Conflict(g.concept, g.logicalId, [], "", None, OtherLevel("")))
    else if |Distinct(g.candidates)| == 1 then Agreement(g, opts)
    else
      var p := ProgramFor(programs, g.concept);
      if p.None? || !p.value.operator.Valid() || !capability.Qualified() then NoProgram(g, p)
      else Applied(g, p.value, opts, orders)
  }

  /** The gate before an operator: contents differ, one program names a defined operator, and the capability
      is qualified. */
  predicate Applies(g: Group, programs: seq<Program>, capability: Capability) {
    && g.candidates != [] && |Distinct(g.candidates)| != 1
    && ProgramFor(programs, g.concept).Some? && ProgramFor(programs, g.concept).value.operator.Valid()
    && capability.Qualified()
  }

  function LeftOf(g: Group, programs: seq<Program>, capability: Capability, opts: Options, orders: seq<seq<Visit>>)
    : (left: seq<Candidate>)
    ensures SameSources(left, g.candidates)
  {
    if Applies(g, programs, capability) then Leaves(g, ProgramFor(programs, g.concept).value, opts, orders)
    else g.candidates
  }

  function Decided(g: Group, programs: seq<Program>, capability: Capability, opts: Options,
                   orders: seq<seq<Visit>>): Decision {
    Decision(Outcomed(g, programs, capability, opts, orders), LeftOf(g, programs, capability, opts, orders))
  }

  /** What some iteration of the candidates' tables gives. Only a deep merge depends on it. */
  ghost predicate Possible(d: Decision, g: Group, programs: seq<Program>, capability: Capability, opts: Options) {
    exists orders :: GroupIterates(orders, g, opts.scopeRank) && d == Decided(g, programs, capability, opts, orders)
  }

  /** Exactly one of entry and conflict, by type, and the candidates as they are left; see `NeverGuesses`,
      `SourcesConserved`, `DenialsHonoured` and the operator lemmas for what it contains. */
  method ResolveGroup(g: Group, programs: seq<Program>, capability: Capability, opts: Options) returns (d: Decision)
    ensures DistinctRefs(g.candidates) ==> Possible(d, g, programs, capability, opts)
  {
    ghost var orders := AnyOrders(g, opts.scopeRank);
    if |g.candidates| == 0 {
      d := Decision(Unresolved(Conflict(g.concept, g.logicalId, [], "", None, OtherLevel(""))), []);
      assert d == Decided(g, programs, capability, opts, orders);
      return;
    }
    var distinct := DistinctByContent(g.candidates);
    DistinctCount(distinct, g.candidates);
    if |distinct| == 1 {
      var r := ResolveAgreement(g, distinct[0], opts);
      d := Decision(r, g.candidates);
      assert DistinctRefs(g.candidates) ==> d == Decided(g, programs, capability, opts, orders);
      return;
    }
    d := ResolveDisagreement(g, programs, capability, opts);
  }

  lemma DistinctCount(d: seq<Candidate>, s: seq<Candidate>)
    requires IsDistinct(d, s)
    ensures |d| == |Distinct(s)|
  {
    ByRefOrder();
    SortSorted(Representatives(s), ByRef());
    assert |multiset(d)| == |d| && |multiset(Distinct(s))| == |Distinct(s)|;
  }

  /** Program, operator and capability must all be in order before any operator runs. */
  method ResolveDisagreement(g: Group, programs: seq<Program>, capability: Capability, opts: Options)
    returns (d: Decision)
    requires g.candidates != [] && |Distinct(g.candidates)| != 1
    ensures DistinctRefs(g.candidates) ==> Possible(d, g, programs, capability, opts)
  {
    ghost var orders := AnyOrders(g, opts.scopeRank);
    var program := LookupProgram(programs, g.concept);
    if program.None? || !program.value.operator.Valid() || !capability.Qualified() {
      d := Decision(NoProgram(g, program), g.candidates);
      assert d == Decided(g, programs, capability, opts, orders);
      return;
    }
    d := ApplyOperator(g, program.value, opts);
    if DistinctRefs(g.candidates) {
      orders :| GroupIterates(orders, g, opts.scopeRank)
                && d == Decision(Applied(g, program.value, opts, orders), Leaves(g, program.value, opts, orders));
      assert d == Decided(g, programs, capability, opts, orders);
    }
  }

  method ResolveAgreement(g: Group, winner: Candidate, opts: Options) returns (r: Outcome)
    requires g.candidates != [] && |Distinct(g.candidates)| == 1
    requires DistinctRefs(g.candidates) ==> Distinct(g.candidates) == [winner]
    ensures DistinctRefs(g.candidates) ==> r == Agreement(g, opts)
  {
    var survivors, denied := SplitDenied(g.candidates, opts.deniedRefs);
    var e := Base(g, Program("", UNSPECIFIED)).(operator := None);
    StringOrder();
    SortSorted(Project(Denied(g.candidates, opts.deniedRefs), RefOf), StrLess);
    if |denied| > 0 {
      if |survivors| == 0 {
        return Resolved(e.(ignored := denied, constraint := Some(EveryCandidateDenied), guarantee := HARD));
      }
      var refs := CandidateRefs(survivors);
      return Resolved(e.(selected := Winner(survivors[0].ref), active := refs, ignored := denied,
                         constraint := Some(DenialsApplied), guarantee := HARD));
    }
    var refs := CandidateRefs(g.candidates);
    return Resolved(e.(selected := Winner(winner.ref), active := refs, confirmed := false));
  }
}
