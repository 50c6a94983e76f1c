/** Candidates, what one host's knowledge says about them, and the small loops every merge operator
    is built from: one representative per content, sorted references, the strongest evidence, the
    unique precedence program, the candidates at the best rank. */
module Candidates {
  import opened Ordering
  import opened Buckets
  import opened DeepMerge

  /* ---- values ---- */

  datatype Level = E0 | E1 | E2 | E3 | E4 | E5 | OtherLevel(text: string)
  {
    function Rank(): int {
      match this
      case E0 => 0
      case E1 => 1
      case E2 => 2
      case E3 => 3
      case E4 => 4
      case E5 => 5
      case OtherLevel(_) => -1
    }
  }

  datatype Operator =
    | REPLACE | DEEP_MERGE | CONCAT_ORDERED | UNION_BY_ID | FIRST_MATCH
    | NAMESPACE | DENY_WINS | MANAGED_GUARDRAIL | UNSPECIFIED
    | OtherOperator(text: string)
  {
    predicate Valid() {
      !OtherOperator?
    }
  }

  datatype Capability = EXACT | COMPATIBLE | PARTIAL | OPAQUE | UNKNOWN | UNSUPPORTED | UNDECLARED
  {
    predicate Qualified() {
      EXACT? || COMPATIBLE?
    }
  }

  /** One physical representation of a logical entity. `fields` is None for opaque text. */
  datatype Candidate = Candidate(
    concept: string, logicalId: string, ref: string, scope: string, denied: bool,
    level: Level, fields: Option<Fields>, digest: string, tools: seq<string>)

  datatype Group = Group(concept: string, logicalId: string, candidates: seq<Candidate>)

  datatype Program = Program(id: string, operator: Operator)

  datatype Knowledge = Knowledge(programs: seq<Program>, resolve: map<string, Capability>)
  {
    function CapabilityOf(concept: string): Capability {
      if concept in resolve then resolve[concept] else UNDECLARED
    }
  }

  datatype Options = Options(scopeRank: map<string, int>, scopePriority: seq<string>, deniedRefs: set<string>)

  function DigestOf(c: Candidate): string {
    c.digest
  }

  function RefOf(c: Candidate): string {
    c.ref
  }

  /* ---- sorted references ---- */

  function SortedRefs(s: seq<Candidate>): seq<string> {
    Sort(Project(s, RefOf), StrLess)
  }

  method CandidateRefs(candidates: seq<Candidate>) returns (refs: seq<string>)
    ensures refs == SortedRefs(candidates)
    ensures multiset(refs) == multiset(Project(candidates, RefOf))
  {
    refs := [];
    for i := 0 to |candidates|
      invariant refs == Project(candidates[..i], RefOf)
    {
      ProjectSnoc(candidates, i, RefOf);
      refs := refs + [candidates[i].ref];
    }
    assert candidates[..|candidates|] == candidates;
    StringOrder();
    SortSorted(refs, StrLess);
    refs := Sort(refs, StrLess);
  }

  /** No two candidates have the same reference. */
  ghost predicate DistinctRefs(s: seq<Candidate>) {
    forall i, j :: 0 <= i < j < |s| ==> s[i].ref != s[j].ref
  }

  function ByRef(): (Candidate, Candidate) -> bool {
    (a: Candidate, b: Candidate) => StrLess(a.ref, b.ref)
  }

  lemma ByRefOrder()
    ensures StrictWeak(ByRef())
  {
    forall a: Candidate, b: Candidate, c: Candidate
      ensures StrLess(a.ref, b.ref) ==> !StrLess(b.ref, a.ref)
      ensures StrLess(a.ref, c.ref) ==> StrLess(a.ref, b.ref) || StrLess(b.ref, c.ref)
    {
      StrOrder(a.ref, b.ref, c.ref);
    }
  }

  lemma DistinctRefsBreakTies(s: seq<Candidate>)
    requires DistinctRefs(s)
    ensures TiesEqual(s, ByRef())
  {
    forall i, j | 0 <= i < |s| && 0 <= j < |s| && !StrLess(s[i].ref, s[j].ref) && !StrLess(s[j].ref, s[i].ref)
      ensures s[i] == s[j]
    {
      StrTotal(s[i].ref, s[j].ref);
    }
  }

  /** The candidates that fall in one bucket still have different references. */
  lemma SubsetRefs<K(!new)>(s: seq<Candidate>, key: Candidate -> K, k: K)
    requires DistinctRefs(s)
    ensures DistinctRefs(BucketOf(s, key, k))
  {
    BucketStaysDistinct(s, key, k, RefOf);
    var b := BucketOf(s, key, k);
    forall i, j | 0 <= i < j < |b| ensures b[i].ref != b[j].ref {
      assert Project(b, RefOf)[i] != Project(b, RefOf)[j];
    }
  }

  lemma RefsOfPermutation(s: seq<Candidate>, t: seq<Candidate>)
    requires multiset(s) == multiset(t) && DistinctRefs(s)
    ensures DistinctRefs(t)
  {
    ProjectPermutation(s, t, RefOf);
    forall i, j | 0 <= i < j < |s| ensures Project(s, RefOf)[i] != Project(s, RefOf)[j] {
      assert s[i].ref != s[j].ref;
    }
    NoDuplicatesPermutation(Project(s, RefOf), Project(t, RefOf));
    forall i, j | 0 <= i < j < |t| ensures t[i].ref != t[j].ref {
      assert Project(t, RefOf)[i] != Project(t, RefOf)[j];
    }
  }

  /** The unstable sort by reference; different references leave it no choice. */
  method SortByRef(s: seq<Candidate>) returns (r: seq<Candidate>)
    ensures SortedBy(r, ByRef()) && multiset(r) == multiset(s)
    ensures DistinctRefs(s) ==> r == Sort(s, ByRef())
  {
    ByRefOrder();
    r := SortSlice(s, ByRef());
    if DistinctRefs(s) {
      DistinctRefsBreakTies(s);
      SortSorted(s, ByRef());
      TiesOfPermutation(s, r, ByRef());
      SortedUnique(r, Sort(s, ByRef()), ByRef());
    }
  }

  /* ---- one representative per content ---- */

  /** The first candidate with each content, in order of appearance. */
  function Representatives(s: seq<Candidate>): seq<Candidate> {
    if s == [] then []
    else
      var p := Representatives(s[..|s| - 1]);
      if s[|s| - 1].digest in KeysOf(s[..|s| - 1], DigestOf) then p else p + [s[|s| - 1]]
  }

  /** The candidates whose content came up before. */
  function Repeats(s: seq<Candidate>): seq<Candidate> {
    if s == [] then []
    else
      var p := Repeats(s[..|s| - 1]);
      if s[|s| - 1].digest in KeysOf(s[..|s| - 1], DigestOf) then p + [s[|s| - 1]] else p
  }

  lemma {:induction false} RepeatsAreTheRest(s: seq<Candidate>)
    ensures multiset(Representatives(s)) + multiset(Repeats(s)) == multiset(s)
  {
    if s != [] {
      var p, x := s[..|s| - 1], s[|s| - 1];
      RepeatsAreTheRest(p);
      assert s == p + [x];
      if x.digest in KeysOf(p, DigestOf) {
        assert Representatives(s) == Representatives(p) && Repeats(s) == Repeats(p) + [x];
      } else {
        assert Representatives(s) == Representatives(p) + [x] && Repeats(s) == Repeats(p);
      }
    }
  }

  function Distinct(s: seq<Candidate>): seq<Candidate> {
    Sort(Representatives(s), ByRef())
  }

  /** Every content is represented, by exactly one of the candidates. */
  lemma {:induction false} RepresentativesExact(s: seq<Candidate>)
    ensures Project(Representatives(s), DigestOf) == KeysOf(s, DigestOf)
    ensures forall c :: c in Representatives(s) ==> c in s
    ensures multiset(Representatives(s)) <= multiset(s)
  {
    if s != [] {
      var p, x := s[..|s| - 1], s[|s| - 1];
      assert s == p + [x];
      RepresentativesExact(p);
      ProjectAppend(Representatives(p), [x], DigestOf);
      assert Project([x], DigestOf) == [x.digest];
    }
  }

  /** What callers rely on: one content, or several that differ pairwise. */
  lemma DistinctExact(s: seq<Candidate>)
    ensures |Distinct(s)| == |KeysOf(s, DigestOf)|
    ensures multiset(Distinct(s)) == multiset(Representatives(s))
    ensures forall c :: c in Distinct(s) ==> c in s
    ensures forall i, j :: 0 <= i < j < |Distinct(s)| ==> Distinct(s)[i].digest != Distinct(s)[j].digest
    ensures forall c :: c in s ==> exists i :: 0 <= i < |Distinct(s)| && Distinct(s)[i].digest == c.digest
  {
    RepresentativesExact(s);
    ByRefOrder();
    SortSorted(Representatives(s), ByRef());
    var d, r := Distinct(s), Representatives(s);
    ProjectPermutation(d, r, DigestOf);
    KeysMembers(s, DigestOf);
    NoDuplicatesPermutation(KeysOf(s, DigestOf), Project(d, DigestOf));
    SameMembers(d, r);
    SameMembers(Project(d, DigestOf), KeysOf(s, DigestOf));
    forall i, j | 0 <= i < j < |d| ensures d[i].digest != d[j].digest {
      assert Project(d, DigestOf)[i] != Project(d, DigestOf)[j];
    }
    forall c | c in s ensures exists i :: 0 <= i < |d| && d[i].digest == c.digest {
      var k :| 0 <= k < |s| && s[k] == c;
      assert DigestOf(s[k]) in Project(d, DigestOf);
      var i :| 0 <= i < |d| && Project(d, DigestOf)[i] == c.digest;
      assert d[i].digest == c.digest;
    }
  }

  /** Representatives sorted by reference, ties in any order. */
  ghost predicate IsDistinct(d: seq<Candidate>, s: seq<Candidate>) {
    SortedBy(d, ByRef()) && multiset(d) == multiset(Representatives(s))
  }

  /** With different references there is only one such list. */
  lemma DistinctUnique(d: seq<Candidate>, s: seq<Candidate>)
    requires IsDistinct(d, s) && DistinctRefs(s)
    ensures d == Distinct(s)
  {
    RepresentativeRefs(s);
    DistinctRefsBreakTies(Representatives(s));
    ByRefOrder();
    SortSorted(Representatives(s), ByRef());
    TiesOfPermutation(Representatives(s), d, ByRef());
    SortedUnique(d, Distinct(s), ByRef());
  }

  lemma RepresentativeRefs(s: seq<Candidate>)
    requires DistinctRefs(s)
    ensures DistinctRefs(Representatives(s))
  {
    var r := Representatives(s);
    RepresentativesExact(s);
    forall u ensures multiset(Project(r, RefOf))[u] <= 1 {
      SubmultisetProjects(r, s, RefOf, u);
      Multiplicity(Project(s, RefOf), u);
    }
    OnceIsDistinct(Project(r, RefOf));
    forall i, j | 0 <= i < j < |r| ensures r[i].ref != r[j].ref {
      assert Project(r, RefOf)[i] != Project(r, RefOf)[j];
    }
  }

  /** The map keeps the first candidate of each content; it is then enumerated in any order. */
  method DistinctByContent(candidates: seq<Candidate>) returns (out: seq<Candidate>)
    ensures IsDistinct(out, candidates)
    ensures DistinctRefs(candidates) ==> out == Distinct(candidates)
  {
    var byDigest: map<string, Candidate> := map[];
    for i := 0 to |candidates|
      invariant FirstSeen(byDigest, candidates[..i])
    {
      var c := candidates[i];
      SeenStep(byDigest, candidates, i);
      if c.digest !in byDigest {
        byDigest := byDigest[c.digest := c];
      }
    }
    assert candidates[..|candidates|] == candidates;
    var found := Enumerate(byDigest, candidates);
    out := SortByRef(found);
    if DistinctRefs(candidates) {
      DistinctUnique(out, candidates);
    }
  }

  /** The map holds exactly the representatives, under their digests. */
  ghost predicate FirstSeen(m: map<string, Candidate>, s: seq<Candidate>) {
    && (forall d | d in m :: m[d].digest == d && m[d] in Representatives(s))
    && (forall c | c in Representatives(s) :: c.digest in m && m[c.digest] == c)
    && (forall d :: d in m <==> d in KeysOf(s, DigestOf))
  }

  lemma SeenStep(m: map<string, Candidate>, s: seq<Candidate>, i: nat)
    requires i < |s| && FirstSeen(m, s[..i])
    ensures FirstSeen(if s[i].digest in m then m else m[s[i].digest := s[i]], s[..i + 1])
  {
    var q := s[..i + 1];
    assert q[..i] == s[..i];
    var r := Representatives(s[..i]);
    if s[i].digest !in m {
      assert Representatives(q) == r + [s[i]];
    }
  }

  method Enumerate(m: map<string, Candidate>, ghost s: seq<Candidate>) returns (out: seq<Candidate>)
    requires FirstSeen(m, s)
    ensures multiset(out) == multiset(Representatives(s))
  {
    out := [];
    var todo := m.Keys;
    while todo != {}
      invariant todo <= m.Keys
      invariant NoDuplicates(out)
      invariant forall c :: c in out <==> c.digest in m && c.digest !in todo && m[c.digest] == c
      decreases todo
    {
      var d :| d in todo;
      todo := todo - {d};
      out := out + [m[d]];
    }
    RepresentativesOnce(s);
    NoDuplicatesMultiset(out, Representatives(s));
  }

  lemma RepresentativesOnce(s: seq<Candidate>)
    ensures NoDuplicates(Representatives(s))
  {
    var r := Representatives(s);
    RepresentativesExact(s);
    KeysMembers(s, DigestOf);
    forall i, j | 0 <= i < j < |r| ensures r[i] != r[j] {
      assert Project(r, DigestOf)[i] != Project(r, DigestOf)[j];
    }
  }

  /* ---- strongest evidence ---- */

  function Highest(s: seq<Candidate>): Level {
    if s == [] then E0
    else
      var best := Highest(s[..|s| - 1]);
      if s[|s| - 1].level.Rank() > best.Rank() then s[|s| - 1].level else best
  }

  /** No candidate has stronger evidence, and the claim is not above what some candidate carries. */
  lemma {:induction false} HighestExact(s: seq<Candidate>)
    ensures Highest(s).Rank() >= 0
    ensures forall i :: 0 <= i < |s| ==> s[i].level.Rank() <= Highest(s).Rank()
    ensures Highest(s) == E0 || exists i :: 0 <= i < |s| && s[i].level == Highest(s)
  {
    if s != [] {
      var p := s[..|s| - 1];
      HighestExact(p);
      assert forall i :: 0 <= i < |p| ==> p[i] == s[i];
      if s[|s| - 1].level.Rank() <= Highest(p).Rank() && Highest(p) != E0 {
        var i :| 0 <= i < |p| && p[i].level == Highest(p);
        assert s[i].level == Highest(s);
      }
    }
  }

  /** Levels are told apart by their ranks, so the strongest one does not depend on list order. */
  lemma HighestPermutation(s: seq<Candidate>, t: seq<Candidate>)
    requires multiset(s) == multiset(t)
    ensures Highest(s) == Highest(t)
  {
    HighestExact(s);
    HighestExact(t);
    HighestBelow(s, t);
    HighestBelow(t, s);
    RankInjective(Highest(s), Highest(t));
  }

  lemma HighestBelow(s: seq<Candidate>, t: seq<Candidate>)
    requires multiset(s) == multiset(t)
    ensures Highest(s).Rank() <= Highest(t).Rank()
  {
    HighestExact(s);
    HighestExact(t);
    if Highest(s) != E0 {
      var i :| 0 <= i < |s| && s[i].level == Highest(s);
      assert s[i] in multiset(t);
      var j :| 0 <= j < |t| && t[j] == s[i];
    }
  }

  lemma RankInjective(a: Level, b: Level)
    requires a.Rank() == b.Rank() && a.Rank() >= 0
    ensures a == b
  {
  }

  method HighestEvidence(candidates: seq<Candidate>) returns (best: Level)
    ensures best == Highest(candidates)
  {
    best := E0;
    for i := 0 to |candidates|
      invariant best == Highest(candidates[..i])
    {
      assert candidates[..i + 1][..i] == candidates[..i];
      if candidates[i].level.Rank() > best.Rank() {
        best := candidates[i].level;
      }
    }
    assert candidates[..|candidates|] == candidates;
  }

  /* ---- the precedence program of a concept ---- */

  predicate Governs(p: Program, concept: string) {
    concept + "." <= p.id
  }

  function GovernsConcept(concept: string): Program -> bool {
    (p: Program) => Governs(p, concept)
  }

  /** The one program for the concept; two are as good as none. */
  function ProgramFor(programs: seq<Program>, concept: string): Option<Program> {
    var matching := BucketOf(programs, GovernsConcept(concept), true);
    if |matching| == 1 then Some(matching[0]) else None
  }

  method LookupProgram(programs: seq<Program>, concept: string) returns (r: Option<Program>)
    ensures r == ProgramFor(programs, concept)
    ensures r.Some? <==> exists i :: 0 <= i < |programs| && Governs(programs[i], concept)
                           && forall j :: 0 <= j < |programs| && Governs(programs[j], concept) ==> j == i
    ensures r.Some? ==> r.value in programs && Governs(r.value, concept)
  {
    var found: Option<Program> := None;
    var count := 0;
    ghost var last := 0;
    var key := GovernsConcept(concept);
    for i := 0 to |programs|
      invariant count == |BucketOf(programs[..i], key, true)|
      invariant count > 0 ==> found == Some(BucketOf(programs[..i], key, true)[count - 1])
      invariant count > 0 ==> last < i && Governs(programs[last], concept) && found == Some(programs[last])
      invariant count == 0 ==> forall j :: 0 <= j < i ==> !Governs(programs[j], concept)
      invariant count == 1 ==> forall j :: 0 <= j < i && Governs(programs[j], concept) ==> j == last
      invariant count > 1 ==>
                  exists j, k :: 0 <= j < k < i && Governs(programs[j], concept) && Governs(programs[k], concept)
    {
      BucketSnoc(programs, i, key, true);
      if Governs(programs[i], concept) {
        found, count, last := Some(programs[i]), count + 1, i;
      }
    }
    assert programs[..|programs|] == programs;
    r := if count == 1 then found else None;
  }

  /* ---- the candidates at the best rank ---- */

  /** The largest rank, but never below `floor`. */
  function Best(s: seq<Candidate>, rank: Candidate -> int, floor: int): int {
    if s == [] then floor
    else
      var b := Best(s[..|s| - 1], rank, floor);
      if rank(s[|s| - 1]) > b then rank(s[|s| - 1]) else b
  }

  function Winners(s: seq<Candidate>, rank: Candidate -> int, floor: int): seq<Candidate> {
    BucketOf(s, rank, Best(s, rank, floor))
  }

  lemma {:induction false} BestExact(s: seq<Candidate>, rank: Candidate -> int, floor: int)
    ensures Best(s, rank, floor) >= floor
    ensures forall i :: 0 <= i < |s| ==> rank(s[i]) <= Best(s, rank, floor)
    ensures Best(s, rank, floor) == floor || exists i :: 0 <= i < |s| && rank(s[i]) == Best(s, rank, floor)
  {
    if s != [] {
      var p := s[..|s| - 1];
      BestExact(p, rank, floor);
      assert forall i :: 0 <= i < |p| ==> p[i] == s[i];
      if rank(s[|s| - 1]) <= Best(p, rank, floor) && Best(p, rank, floor) != floor {
        var i :| 0 <= i < |p| && rank(p[i]) == Best(p, rank, floor);
        assert rank(s[i]) == Best(s, rank, floor);
      }
    }
  }

  /** Element `i` is at or above the floor and strictly above every other element. */
  ghost predicate Outranks(s: seq<Candidate>, rank: Candidate -> int, floor: int, i: nat) {
    i < |s| && rank(s[i]) >= floor && forall j :: 0 <= j < |s| && j != i ==> rank(s[j]) < rank(s[i])
  }

  lemma {:induction false} SingleBucket(s: seq<Candidate>, rank: Candidate -> int, k: int, i: nat)
    requires i < |s| && rank(s[i]) == k
    ensures |BucketOf(s, rank, k)| >= 1
    ensures |BucketOf(s, rank, k)| == 1 <==> forall j :: 0 <= j < |s| && j != i ==> rank(s[j]) != k
    ensures |BucketOf(s, rank, k)| == 1 ==> BucketOf(s, rank, k)[0] == s[i]
  {
    var p := s[..|s| - 1];
    assert forall j :: 0 <= j < |p| ==> p[j] == s[j];
    if i < |p| {
      SingleBucket(p, rank, k, i);
    } else {
      BucketMembers(p, rank, k);
      if |BucketOf(s, rank, k)| == 1 {
        forall j | 0 <= j < |s| && j != i ensures rank(s[j]) != k {
          assert p[j] in p;
          assert BucketOf(p, rank, k) == [];
        }
      } else {
        var x := BucketOf(p, rank, k)[0];
        assert x in p && rank(x) == k;
        var j :| 0 <= j < |p| && p[j] == x;
        assert rank(s[j]) == k;
      }
    }
  }

  /** There is a single winner exactly when somebody outranks everybody else. */
  lemma WinnerExact(s: seq<Candidate>, rank: Candidate -> int, floor: int)
    ensures |Winners(s, rank, floor)| == 1 <==> exists i: nat :: Outranks(s, rank, floor, i)
    ensures |Winners(s, rank, floor)| == 1 ==>
              exists i: nat :: Outranks(s, rank, floor, i) && Winners(s, rank, floor)[0] == s[i]
  {
    var b := Best(s, rank, floor);
    BestExact(s, rank, floor);
    if i :| Outranks(s, rank, floor, i) {
      SingleBucket(s, rank, b, i);
    }
    if |Winners(s, rank, floor)| == 1 {
      BucketMembers(s, rank, b);
      var x := Winners(s, rank, floor)[0];
      assert x in s && rank(x) == b;
      var i :| 0 <= i < |s| && s[i] == x;
      SingleBucket(s, rank, b, i);
      assert Outranks(s, rank, floor, i);
    }
  }

  /** One more candidate: a better one replaces the winners, an equal one joins them. */
  lemma WinnersStep(s: seq<Candidate>, i: nat, rank: Candidate -> int, floor: int)
    requires i < |s|
    ensures var b, r := Best(s[..i], rank, floor), rank(s[i]);
            && Best(s[..i + 1], rank, floor) == (if r > b then r else b)
            && Winners(s[..i + 1], rank, floor)
               == if r > b then [s[i]] else Winners(s[..i], rank, floor) + if r == b then [s[i]] else []
  {
    var q := s[..i + 1];
    assert q[..i] == s[..i];
    BestExact(s[..i], rank, floor);
    if rank(s[i]) > Best(s[..i], rank, floor) {
      NoneAbove(s[..i], rank, rank(s[i]));
    }
  }

  /** The loop that keeps the best rank seen and the candidates at it. */
  method PickWinners(s: seq<Candidate>, rank: Candidate -> int, floor: int) returns (winners: seq<Candidate>)
    ensures winners == Winners(s, rank, floor)
  {
    var best := floor;
    winners := [];
    for i := 0 to |s|
      invariant best == Best(s[..i], rank, floor)
      invariant winners == Winners(s[..i], rank, floor)
    {
      WinnersStep(s, i, rank, floor);
      var r := rank(s[i]);
      if r > best {
        best := r;
        winners := [s[i]];
      } else if r == best {
        winners := winners + [s[i]];
      }
    }
    assert s[..|s|] == s;
  }

  lemma {:induction false} NoneAbove(s: seq<Candidate>, rank: Candidate -> int, k: int)
    requires forall i :: 0 <= i < |s| ==> rank(s[i]) < k
    ensures BucketOf(s, rank, k) == []
  {
    if s != [] {
      var p := s[..|s| - 1];
      assert forall i :: 0 <= i < |p| ==> p[i] == s[i];
      NoneAbove(p, rank, k);
    }
  }
}
