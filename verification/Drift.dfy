/** Drift grouping: assertions that share a root cause, remediation, category and adapter version
    collapse into one card with a sorted matrix and a bounded, bucket-covering list of samples. */
module Drift {
  import opened Ordering
  import opened Buckets

  /** A value of one plane: its canonical digest when it has one, and its type name. */
  datatype Plane = Plane(digest: Option<string>, typeName: string)

  datatype Assertion = Assertion(
    rootCause: string, remediation: string, category: string, adapterVersion: string,
    project: string, host: string, entityId: string, field: string,
    expected: Plane, observed: Plane, evidence: string, guarantee: string)

  datatype GroupKey = GroupKey(rootCause: string, remediation: string, category: string, adapterVersion: string)

  datatype OutcomeKey = OutcomeKey(expected: string, observed: string, exception: bool)

  datatype Impact = Impact(projects: nat, hosts: nat, artifacts: nat)

  datatype Card = Card(key: GroupKey, impact: Impact, evidence: map<string, nat>, guarantee: string,
                       samples: seq<Assertion>, matrix: seq<Assertion>)

  const EXCEPTION := "EXCEPTION"

  function KeyOf(a: Assertion): GroupKey {
    GroupKey(a.rootCause, a.remediation, a.category, a.adapterVersion)
  }

  predicate KeyLess(a: GroupKey, b: GroupKey) {
    if a.rootCause != b.rootCause then StrLess(a.rootCause, b.rootCause)
    else if a.remediation != b.remediation then StrLess(a.remediation, b.remediation)
    else if a.category != b.category then StrLess(a.category, b.category)
    else StrLess(a.adapterVersion, b.adapterVersion)
  }

  predicate MatrixLess(a: Assertion, b: Assertion) {
    if a.project != b.project then StrLess(a.project, b.project)
    else if a.host != b.host then StrLess(a.host, b.host)
    else if a.entityId != b.entityId then StrLess(a.entityId, b.entityId)
    else StrLess(a.field, b.field)
  }

  lemma KeyOrder()
    ensures StrictWeak(KeyLess)
    ensures forall a, b :: KeyLess(a, b) || KeyLess(b, a) || a == b
  {
    forall a, b, c
      ensures KeyLess(a, b) ==> !KeyLess(b, a)
      ensures KeyLess(a, c) ==> KeyLess(a, b) || KeyLess(b, c)
      ensures KeyLess(a, b) || KeyLess(b, a) || a == b
    {
      StrOrder(a.rootCause, b.rootCause, c.rootCause);
      StrOrder(a.remediation, b.remediation, c.remediation);
      StrOrder(a.category, b.category, c.category);
      StrOrder(a.adapterVersion, b.adapterVersion, c.adapterVersion);
    }
  }

  lemma MatrixOrder()
    ensures StrictWeak(MatrixLess)
  {
    forall a, b, c
      ensures MatrixLess(a, b) ==> !MatrixLess(b, a)
      ensures MatrixLess(a, c) ==> MatrixLess(a, b) || MatrixLess(b, c)
    {
      StrOrder(a.project, b.project, c.project);
      StrOrder(a.host, b.host, c.host);
      StrOrder(a.entityId, b.entityId, c.entityId);
      StrOrder(a.field, b.field, c.field);
    }
  }

  /** An undigestable plane on either side makes both sides fall back to their type names. */
  function OutcomeOf(a: Assertion): OutcomeKey {
    if a.expected.digest.Some? && a.observed.digest.Some? then
      OutcomeKey(a.expected.digest.value, a.observed.digest.value, a.category == EXCEPTION)
    else
      OutcomeKey("undigestable:" + a.expected.typeName, "undigestable:" + a.observed.typeName, a.category == EXCEPTION)
  }

  /* ---- summaries of a matrix ---- */

  ghost function Named(m: seq<Assertion>, of: Assertion -> string): set<string> {
    set i | 0 <= i < |m| && of(m[i]) != "" :: of(m[i])
  }

  function ProjectOf(a: Assertion): string { a.project }
  function HostOf(a: Assertion): string { a.host }
  function EvidenceOf(a: Assertion): string { a.evidence }

  lemma NamedSnoc(m: seq<Assertion>, i: nat, of: Assertion -> string)
    requires i < |m|
    ensures Named(m[..i + 1], of) == Named(m[..i], of) + if of(m[i]) != "" then {of(m[i])} else {}
  {
    var p, q := m[..i], m[..i + 1];
    assert forall j | 0 <= j < i :: p[j] == q[j];
    assert q[i] == m[i];
    forall x | x in Named(p, of) ensures x in Named(q, of) {
      var j :| 0 <= j < |p| && of(p[j]) != "" && of(p[j]) == x;
      assert of(q[j]) == x;
    }
    forall x | x in Named(q, of) ensures x in Named(p, of) || (x == of(m[i]) && x != "") {
      var j :| 0 <= j < |q| && of(q[j]) != "" && of(q[j]) == x;
      if j < i {
        assert of(p[j]) == x;
      }
    }
    if of(m[i]) != "" {
      assert of(q[i]) in Named(q, of);
    }
  }

  /** Distinct named projects, distinct named hosts, and every row. */
  method ComputeImpact(matrix: seq<Assertion>) returns (r: Impact)
    ensures r == Impact(|Named(matrix, ProjectOf)|, |Named(matrix, HostOf)|, |matrix|)
  {
    var projects: set<string>, hosts: set<string> := {}, {};
    for i := 0 to |matrix|
      invariant projects == Named(matrix[..i], ProjectOf) && hosts == Named(matrix[..i], HostOf)
    {
      NamedSnoc(matrix, i, ProjectOf);
      NamedSnoc(matrix, i, HostOf);
      if matrix[i].project != "" {
        projects := projects + {matrix[i].project};
      }
      if matrix[i].host != "" {
        hosts := hosts + {matrix[i].host};
      }
    }
    assert matrix[..|matrix|] == matrix;
    r := Impact(|projects|, |hosts|, |matrix|);
  }

  ghost predicate IsTally(counts: map<string, nat>, m: seq<Assertion>) {
    && counts.Keys == Named(m, EvidenceOf)
    && forall l | l in counts :: counts[l] == |BucketOf(m, EvidenceOf, l)|
  }

  /** How many rows carry each named evidence level. */
  method ComputeEvidenceCounts(matrix: seq<Assertion>) returns (counts: map<string, nat>)
    ensures IsTally(counts, matrix)
  {
    counts := map[];
    for i := 0 to |matrix|
      invariant IsTally(counts, matrix[..i])
    {
      var l := matrix[i].evidence;
      NamedSnoc(matrix, i, EvidenceOf);
      if l != "" && l !in counts {
        NotNamed(matrix[..i], l);
      }
      ghost var before := counts;
      if l != "" {
        counts := counts[l := (if l in counts then counts[l] else 0) + 1];
      }
      forall k | k in counts ensures counts[k] == |BucketOf(matrix[..i + 1], EvidenceOf, k)| {
        BucketSnoc(matrix, i, EvidenceOf, k);
        assert k != l ==> counts[k] == before[k];
      }
    }
    assert matrix[..|matrix|] == matrix;
  }

  lemma {:induction false} NotNamed(m: seq<Assertion>, l: string)
    requires l !in Named(m, EvidenceOf) && l != ""
    ensures BucketOf(m, EvidenceOf, l) == []
  {
    if m != [] {
      var p := m[..|m| - 1];
      forall x | x in Named(p, EvidenceOf) ensures x in Named(m, EvidenceOf) {
        var i :| 0 <= i < |p| && EvidenceOf(p[i]) != "" && EvidenceOf(p[i]) == x;
        assert EvidenceOf(m[i]) == x;
      }
      NotNamed(p, l);
      assert EvidenceOf(m[|m| - 1]) == l ==> l in Named(m, EvidenceOf);
    }
  }

  /** The level every row that names one agrees on; empty when none does or two differ. */
  ghost predicate IsRepresentative(g: string, m: seq<Assertion>) {
    if g != "" then
      && (exists i :: 0 <= i < |m| && m[i].guarantee == g)
      && forall i :: 0 <= i < |m| ==> m[i].guarantee == "" || m[i].guarantee == g
    else
      || (forall i :: 0 <= i < |m| ==> m[i].guarantee == "")
      || exists i, j :: 0 <= i < j < |m| && m[i].guarantee != m[j].guarantee && m[i].guarantee != ""
           && m[j].guarantee != ""
  }

  method RepresentativeGuarantee(matrix: seq<Assertion>) returns (g: string)
    ensures IsRepresentative(g, matrix)
  {
    g := "";
    for i := 0 to |matrix|
      invariant g == "" ==> forall j :: 0 <= j < i ==> matrix[j].guarantee == ""
      invariant g != "" ==> exists j :: 0 <= j < i && matrix[j].guarantee == g
      invariant g != "" ==> forall j :: 0 <= j < i ==> matrix[j].guarantee == "" || matrix[j].guarantee == g
    {
      if matrix[i].guarantee != "" {
        if g == "" {
          g := matrix[i].guarantee;
        } else if g != matrix[i].guarantee {
          return "";
        }
      }
    }
  }

  lemma RepresentativeUnique(g: string, h: string, m: seq<Assertion>)
    requires IsRepresentative(g, m) && IsRepresentative(h, m)
    ensures g == h
  {
  }

  /* ---- samples ---- */

  /** Row `i` is the first of its outcome bucket. */
  predicate IsFirst(m: seq<Assertion>, i: nat)
    requires i < |m|
  {
    forall j | 0 <= j < i :: OutcomeOf(m[j]) != OutcomeOf(m[i])
  }

  /** The first rows (`first`) or the repeats among the first `n` rows, ascending. */
  function Rows(m: seq<Assertion>, n: nat, first: bool): (r: seq<nat>)
    requires n <= |m|
    ensures forall i :: 0 <= i < |r| ==> r[i] < n
  {
    if n == 0 then []
    else if IsFirst(m, n - 1) == first then Rows(m, n - 1, first) + [n - 1]
    else Rows(m, n - 1, first)
  }

  lemma RowsExact(m: seq<Assertion>, n: nat, first: bool)
    requires n <= |m|
    ensures forall i :: 0 <= i < |Rows(m, n, first)| ==> IsFirst(m, Rows(m, n, first)[i]) == first
    ensures Ascending(Rows(m, n, first))
    ensures forall k: nat :: k < n && IsFirst(m, k) == first ==> k in Rows(m, n, first)
  {
    RowsSound(m, n, first);
    RowsAscend(m, n, first);
    RowsComplete(m, n, first);
  }

  lemma {:induction false} RowsSound(m: seq<Assertion>, n: nat, first: bool)
    requires n <= |m|
    ensures forall i :: 0 <= i < |Rows(m, n, first)| ==> IsFirst(m, Rows(m, n, first)[i]) == first
  {
    if n > 0 {
      RowsSound(m, n - 1, first);
    }
  }

  lemma {:induction false} RowsAscend(m: seq<Assertion>, n: nat, first: bool)
    requires n <= |m|
    ensures Ascending(Rows(m, n, first))
  {
    if n > 0 {
      RowsAscend(m, n - 1, first);
    }
  }

  lemma {:induction false} RowsComplete(m: seq<Assertion>, n: nat, first: bool)
    requires n <= |m|
    ensures forall k: nat :: k < n && IsFirst(m, k) == first ==> k in Rows(m, n, first)
  {
    if n > 0 {
      RowsComplete(m, n - 1, first);
      forall k: nat | k < n && IsFirst(m, k) == first ensures k in Rows(m, n, first) {
        assert k < n - 1 ==> k in Rows(m, n - 1, first);
      }
    }
  }

  ghost predicate Ascending(s: seq<nat>) {
    forall i, j :: 0 <= i < j < |s| ==> s[i] < s[j]
  }

  /** The order samples are taken in: one row per bucket, then the repeats. */
  function SampleOrder(m: seq<Assertion>): (r: seq<nat>)
    ensures forall i :: 0 <= i < |r| ==> r[i] < |m|
  {
    Rows(m, |m|, true) + Rows(m, |m|, false)
  }

  function Pick(m: seq<Assertion>, rows: seq<nat>): (r: seq<Assertion>)
    requires forall i :: 0 <= i < |rows| ==> rows[i] < |m|
    ensures |r| == |rows| && forall i :: 0 <= i < |r| ==> r[i] == m[rows[i]]
  {
    seq(|rows|, i requires 0 <= i < |rows| => m[rows[i]])
  }

  function Bound(m: seq<Assertion>, limit: int): nat {
    if limit <= 0 || limit > |m| then |m| else limit
  }

  function Samples(m: seq<Assertion>, limit: int): seq<Assertion> {
    SampleOrderLength(m);
    Pick(m, SampleOrder(m)[..Bound(m, limit)])
  }

  lemma {:induction false} RowsLength(m: seq<Assertion>, n: nat)
    requires n <= |m|
    ensures |Rows(m, n, true)| + |Rows(m, n, false)| == n
  {
    if n > 0 {
      RowsLength(m, n - 1);
    }
  }

  lemma SampleOrderLength(m: seq<Assertion>)
    ensures |SampleOrder(m)| == |m|
  {
    RowsLength(m, |m|);
  }

  /** Every row is taken exactly once. */
  lemma SampleOrderPermutes(m: seq<Assertion>)
    ensures |SampleOrder(m)| == |m|
    ensures NoDuplicates(SampleOrder(m))
    ensures forall k: nat :: k < |m| ==> k in SampleOrder(m)
  {
    SampleOrderLength(m);
    RowsExact(m, |m|, true);
    RowsExact(m, |m|, false);
    var f, r := Rows(m, |m|, true), Rows(m, |m|, false);
    forall i, j | 0 <= i < |f| && 0 <= j < |r| ensures f[i] != r[j] {
      assert IsFirst(m, f[i]) && !IsFirst(m, r[j]);
    }
    forall k: nat | k < |m| ensures k in f + r {
      assert k in f || k in r;
    }
  }

  ghost function Outcomes(m: seq<Assertion>, n: nat): set<OutcomeKey>
    requires n <= |m|
  {
    if n == 0 then {} else Outcomes(m, n - 1) + {OutcomeOf(m[n - 1])}
  }

  lemma {:induction false} SeenIffRepeat(m: seq<Assertion>, n: nat, k: OutcomeKey)
    requires n <= |m|
    ensures k in Outcomes(m, n) <==> exists j :: 0 <= j < n && OutcomeOf(m[j]) == k
  {
    if n > 0 {
      SeenIffRepeat(m, n - 1, k);
    }
  }

  /** The first pass: one row per outcome bucket, with those rows marked as used. */
  method TakeFirsts(matrix: seq<Assertion>) returns (out: seq<Assertion>, used: seq<bool>)
    ensures out == Pick(matrix, Rows(matrix, |matrix|, true))
    ensures |used| == |matrix| && forall j :: 0 <= j < |matrix| ==> used[j] == IsFirst(matrix, j)
  {
    out, used := [], seq(|matrix|, _ => false);
    var seen: set<OutcomeKey> := {};
    for i := 0 to |matrix|
      invariant |used| == |matrix| && seen == Outcomes(matrix, i)
      invariant forall j :: 0 <= j < i ==> used[j] == IsFirst(matrix, j)
      invariant forall j :: i <= j < |matrix| ==> !used[j]
      invariant out == Pick(matrix, Rows(matrix, i, true))
    {
      var k := OutcomeOf(matrix[i]);
      SeenIffRepeat(matrix, i, k);
      if k !in seen {
        seen := seen + {k};
        used := used[i := true];
        out := out + [matrix[i]];
      }
    }
  }

  method SelectSamples(matrix: seq<Assertion>, limit: int) returns (out: seq<Assertion>)
    ensures out == Samples(matrix, limit)
  {
    var n := if limit <= 0 || limit > |matrix| then |matrix| else limit;
    SampleOrderLength(matrix);
    var used;
    out, used := TakeFirsts(matrix);
    if |out| >= n {
      assert SampleOrder(matrix)[..n] == Rows(matrix, |matrix|, true)[..n];
      return out[..n];
    }
    out := FillUp(matrix, n, out, used);
  }

  /** The second pass: repeats, until there are enough. */
  method FillUp(matrix: seq<Assertion>, n: nat, firsts: seq<Assertion>, used: seq<bool>) returns (out: seq<Assertion>)
    requires |firsts| < n <= |matrix| == |SampleOrder(matrix)| && firsts == Pick(matrix, Rows(matrix, |matrix|, true))
    requires |used| == |matrix| && forall j :: 0 <= j < |matrix| ==> used[j] == IsFirst(matrix, j)
    ensures out == Pick(matrix, SampleOrder(matrix)[..n])
  {
    ghost var first := Rows(matrix, |matrix|, true);
    out := firsts;
    for i := 0 to |matrix|
      invariant |out| == |first| + |Rows(matrix, i, false)| <= n
      invariant out == Pick(matrix, first + Rows(matrix, i, false))
    {
      if |out| >= n {
        RowsPrefix(matrix, i, false);
        assert first + Rows(matrix, i, false) == SampleOrder(matrix)[..n];
        return;
      }
      if !used[i] {
        out := out + [matrix[i]];
      }
    }
    assert SampleOrder(matrix)[..n] == first + Rows(matrix, |matrix|, false);
  }

  lemma {:induction false} RowsPrefix(m: seq<Assertion>, n: nat, first: bool)
    requires n <= |m|
    ensures Rows(m, n, first) <= Rows(m, |m|, first)
    decreases |m| - n
  {
    if n < |m| {
      RowsPrefix(m, n + 1, first);
    }
  }

  /** Exactly min(limit, rows) samples, no row twice; when the buckets fit each one is represented,
      otherwise the samples are the earliest rows of the first `limit` buckets in matrix order. */
  lemma SamplesCoverBuckets(m: seq<Assertion>, limit: int)
    ensures |Samples(m, limit)| == (if limit <= 0 || limit > |m| then |m| else limit)
    ensures var firsts := Rows(m, |m|, true);
            if |firsts| <= Bound(m, limit)
            then forall a | a in m :: exists b :: b in Samples(m, limit) && OutcomeOf(b) == OutcomeOf(a)
            else Samples(m, limit) == Pick(m, firsts[..Bound(m, limit)])
  {
    SampleOrderLength(m);
    var firsts, n := Rows(m, |m|, true), Bound(m, limit);
    var taken := SampleOrder(m)[..n];
    RowsExact(m, |m|, true);
    if |firsts| <= n {
      forall a | a in m ensures exists b :: b in Samples(m, limit) && OutcomeOf(b) == OutcomeOf(a) {
        var i :| 0 <= i < |m| && m[i] == a;
        var k := FirstOfBucket(m, i);
        var p :| 0 <= p < |firsts| && firsts[p] == k;
        assert taken[p] == k;
        assert Samples(m, limit)[p] == m[k];
      }
    } else {
      assert taken == firsts[..n];
    }
  }

  lemma FirstOfBucket(m: seq<Assertion>, i: nat) returns (k: nat)
    requires i < |m|
    ensures k <= i && IsFirst(m, k) && OutcomeOf(m[k]) == OutcomeOf(m[i])
    decreases i
  {
    k := i;
    if !IsFirst(m, i) {
      var j :| 0 <= j < i && OutcomeOf(m[j]) == OutcomeOf(m[i]);
      k := FirstOfBucket(m, j);
    }
  }

  /** No repeat comes before the first row of another bucket. */
  predicate RepeatsLast(m: seq<Assertion>) {
    forall i, j | 0 <= i < j < |m| && IsFirst(m, j) :: IsFirst(m, i)
  }

  /** "Unlimited" samples are the matrix order exactly when repeats already come last. */
  lemma UnlimitedSamplesAreMatrixOrder(m: seq<Assertion>)
    ensures Samples(m, 0) == m <==> RepeatsLast(m)
  {
    SampleOrderLength(m);
    assert SampleOrder(m)[..|m|] == SampleOrder(m);
    if RepeatsLast(m) {
      RowsOfRepeatsLast(m, |m|);
    }
    if Samples(m, 0) == m {
      var firsts := Rows(m, |m|, true);
      RowsExact(m, |m|, true);
      forall i, j | 0 <= i < j < |m| && IsFirst(m, j) ensures IsFirst(m, i) {
        var p :| 0 <= p < |firsts| && firsts[p] == j;
        FirstsInPlace(m, p);
        FirstsInPlace(m, i);
      }
    }
  }

  lemma {:induction false} RowsOfRepeatsLast(m: seq<Assertion>, n: nat)
    requires RepeatsLast(m) && n <= |m|
    ensures Rows(m, n, true) + Rows(m, n, false) == seq(n, i => i)
    ensures n > 0 && IsFirst(m, n - 1) ==> Rows(m, n, false) == []
  {
    if n > 0 {
      RowsOfRepeatsLast(m, n - 1);
      if n > 1 && IsFirst(m, n - 1) {
        assert IsFirst(m, n - 2);
      }
      assert seq(n, i => i) == seq(n - 1, i => i) + [n - 1];
    }
  }

  /** If the samples read like the matrix, the k-th first row is row k. */
  lemma FirstsInPlace(m: seq<Assertion>, k: nat)
    requires Samples(m, 0) == m && k < |Rows(m, |m|, true)|
    ensures Rows(m, |m|, true)[k] == k
  {
    var x := Rows(m, |m|, true)[k];
    SampleAt(m, k);
    RowsExact(m, |m|, true);
    AtLeastIndex(Rows(m, |m|, true), k);
    assert IsFirst(m, x) && m[x] == m[k];
  }

  lemma SampleAt(m: seq<Assertion>, k: nat)
    requires k < |Rows(m, |m|, true)|
    ensures k < |Samples(m, 0)| && Samples(m, 0)[k] == m[Rows(m, |m|, true)[k]]
  {
    SampleOrderLength(m);
    assert SampleOrder(m)[..|m|][k] == Rows(m, |m|, true)[k];
  }

  lemma {:induction false} AtLeastIndex(s: seq<nat>, k: nat)
    requires k < |s| && Ascending(s)
    ensures s[k] >= k
  {
    if k > 0 {
      AtLeastIndex(s, k - 1);
    }
  }

  /* ---- cards ---- */

  function SortedKeys(s: seq<Assertion>): seq<GroupKey> {
    Sort(KeysOf(s, KeyOf), KeyLess)
  }

  ghost predicate IsCard(c: Card, k: GroupKey, s: seq<Assertion>, limit: int) {
    && c.key == k
    && multiset(c.matrix) == multiset(BucketOf(s, KeyOf, k))
    && SortedBy(c.matrix, MatrixLess)
    && c.impact == Impact(|Named(c.matrix, ProjectOf)|, |Named(c.matrix, HostOf)|, |c.matrix|)
    && IsTally(c.evidence, c.matrix)
    && IsRepresentative(c.guarantee, c.matrix)
    && c.samples == Samples(c.matrix, limit)
  }

  /** What any correct sort can make of the assertions: one card per key, in key order. */
  ghost predicate IsGrouping(cards: seq<Card>, s: seq<Assertion>, limit: int) {
    && |cards| == |SortedKeys(s)|
    && forall i :: 0 <= i < |cards| ==> IsCard(cards[i], SortedKeys(s)[i], s, limit)
  }

  method GroupWithSampleLimit(assertions: seq<Assertion>, sampleLimit: int) returns (cards: seq<Card>)
    ensures IsGrouping(cards, assertions, sampleLimit)
  {
    var keys, buckets := BucketBy(assertions, KeyOf);
    KeyOrder();
    MatrixOrder();
    SortedKeysExact(assertions);
    ghost var unsorted := keys;
    keys := SortSlice(keys, KeyLess);
    SortedUnique(Sort(unsorted, KeyLess), keys, KeyLess);
    cards := [];
    for n := 0 to |keys|
      invariant |cards| == n
      invariant forall i :: 0 <= i < n ==> IsCard(cards[i], keys[i], assertions, sampleLimit)
    {
      var k := keys[n];
      assert k in multiset(unsorted);
      var matrix := SortSlice(buckets[k], MatrixLess);
      var impact := ComputeImpact(matrix);
      var counts := ComputeEvidenceCounts(matrix);
      var guarantee := RepresentativeGuarantee(matrix);
      var samples := SelectSamples(matrix, sampleLimit);
      cards := cards + [Card(k, impact, counts, guarantee, samples, matrix)];
    }
  }

  lemma SortedKeysExact(s: seq<Assertion>)
    ensures SortedBy(SortedKeys(s), KeyLess) && NoDuplicates(SortedKeys(s))
    ensures multiset(SortedKeys(s)) == multiset(KeysOf(s, KeyOf))
    ensures TiesEqual(SortedKeys(s), KeyLess)
    ensures forall i, j :: 0 <= i < j < |SortedKeys(s)| ==> KeyLess(SortedKeys(s)[i], SortedKeys(s)[j])
    ensures forall i :: 0 <= i < |s| ==> KeyOf(s[i]) in SortedKeys(s)
  {
    KeyOrder();
    SortSorted(KeysOf(s, KeyOf), KeyLess);
    KeysMembers(s, KeyOf);
    NoDuplicatesPermutation(KeysOf(s, KeyOf), SortedKeys(s));
    SameMembers(KeysOf(s, KeyOf), SortedKeys(s));
  }

  /** All matrices, one after the other. */
  ghost function AllRows(cards: seq<Card>): seq<Assertion> {
    if cards == [] then [] else AllRows(cards[..|cards| - 1]) + cards[|cards| - 1].matrix
  }

  ghost function ArtifactSum(cards: seq<Card>): nat {
    if cards == [] then 0 else ArtifactSum(cards[..|cards| - 1]) + cards[|cards| - 1].impact.artifacts
  }

  /** The cards partition the assertions: strictly increasing keys, each matrix under its own key,
      every assertion in exactly one matrix, and the artifact counts adding up. */
  lemma CardsPartition(cards: seq<Card>, s: seq<Assertion>, limit: int)
    requires IsGrouping(cards, s, limit)
    ensures forall i, j :: 0 <= i < j < |cards| ==> KeyLess(cards[i].key, cards[j].key)
    ensures forall i, a :: 0 <= i < |cards| && a in cards[i].matrix ==> KeyOf(a) == cards[i].key
    ensures multiset(AllRows(cards)) == multiset(s)
    ensures ArtifactSum(cards) == |s|
  {
    SortedKeysExact(s);
    var keys := SortedKeys(s);
    forall i, a | 0 <= i < |cards| && a in cards[i].matrix ensures KeyOf(a) == cards[i].key {
      SameMembers(cards[i].matrix, BucketOf(s, KeyOf, keys[i]));
      BucketMembers(s, KeyOf, keys[i]);
    }
    RowsAreBuckets(cards, s, keys, limit);
    GatherPartitions(s, KeyOf, keys);
    assert |AllRows(cards)| == |multiset(AllRows(cards))| == |multiset(s)| == |s|;
  }

  lemma {:induction false} RowsAreBuckets(cards: seq<Card>, s: seq<Assertion>, keys: seq<GroupKey>, limit: int)
    requires |cards| == |keys| && forall i :: 0 <= i < |cards| ==> IsCard(cards[i], keys[i], s, limit)
    ensures multiset(AllRows(cards)) == multiset(Gather(s, KeyOf, keys))
    ensures ArtifactSum(cards) == |AllRows(cards)|
  {
    if cards != [] {
      RowsAreBuckets(cards[..|cards| - 1], s, keys[..|keys| - 1], limit);
    }
  }

  /** Rows that compare equal within one bucket are equal. */
  ghost predicate NoTies(s: seq<Assertion>) {
    forall k :: TiesEqual(BucketOf(s, KeyOf, k), MatrixLess)
  }

  /** Without ties the input order cannot be seen in cards, matrices or samples. */
  lemma GroupingIgnoresInputOrder(cards: seq<Card>, other: seq<Card>, s: seq<Assertion>, t: seq<Assertion>, limit: int)
    requires IsGrouping(cards, s, limit) && IsGrouping(other, t, limit)
    requires multiset(s) == multiset(t) && NoTies(s)
    ensures cards == other
  {
    KeyOrder();
    KeysPermutation(s, t, KeyOf);
    SortedKeysExact(s);
    TiesOfPermutation(SortedKeys(s), KeysOf(s, KeyOf), KeyLess);
    SortPermutation(KeysOf(s, KeyOf), KeysOf(t, KeyOf), KeyLess);
    forall i | 0 <= i < |cards| ensures cards[i] == other[i] {
      var k := SortedKeys(s)[i];
      BucketPermutation(s, t, KeyOf, k);
      TiesOfPermutation(BucketOf(s, KeyOf, k), cards[i].matrix, MatrixLess);
      SortedUnique(cards[i].matrix, other[i].matrix, MatrixLess);
      RepresentativeUnique(cards[i].guarantee, other[i].guarantee, cards[i].matrix);
      assert cards[i].evidence == other[i].evidence;
    }
  }

  /** With a tie between different rows, two different groupings of the same input are both correct. */
  lemma TiesAreVisible(cards: seq<Card>, s: seq<Assertion>, limit: int) returns (other: seq<Card>)
    requires IsGrouping(cards, s, limit) && !NoTies(s)
    ensures IsGrouping(other, s, limit) && other != cards
  {
    var n := TiedCard(cards, s, limit);
    var m := SwapRows(cards[n].matrix);
    var card := CardFor(m, SortedKeys(s)[n], s, limit);
    other := cards[n := card];
    assert other[n].matrix != cards[n].matrix;
  }

  lemma SwapRows(m: seq<Assertion>) returns (t: seq<Assertion>)
    requires SortedBy(m, MatrixLess) && !TiesEqual(m, MatrixLess)
    ensures SortedBy(t, MatrixLess) && multiset(t) == multiset(m) && t != m
  {
    var i, j :| 0 <= i < |m| && 0 <= j < |m| && !MatrixLess(m[i], m[j]) && !MatrixLess(m[j], m[i]) && m[i] != m[j];
    MatrixOrder();
    SwapTied(m, i, j, MatrixLess);
    t := m[i := m[j]][j := m[i]];
    assert t[j] != m[j];
  }

  lemma TiedCard(cards: seq<Card>, s: seq<Assertion>, limit: int) returns (n: nat)
    requires IsGrouping(cards, s, limit) && !NoTies(s)
    ensures n < |cards| && !TiesEqual(cards[n].matrix, MatrixLess)
  {
    var k :| !TiesEqual(BucketOf(s, KeyOf, k), MatrixLess);
    var b := BucketOf(s, KeyOf, k);
    assert b != [];
    BucketMembers(s, KeyOf, k);
    assert b[0] in s;
    SortedKeysExact(s);
    n :| 0 <= n < |cards| && SortedKeys(s)[n] == k;
    if TiesEqual(cards[n].matrix, MatrixLess) {
      TiesOfPermutation(cards[n].matrix, b, MatrixLess);
    }
  }

  lemma CardFor(m: seq<Assertion>, k: GroupKey, s: seq<Assertion>, limit: int) returns (c: Card)
    requires multiset(m) == multiset(BucketOf(s, KeyOf, k)) && SortedBy(m, MatrixLess)
    ensures IsCard(c, k, s, limit) && c.matrix == m
  {
    var counts := map l | l in Named(m, EvidenceOf) :: |BucketOf(m, EvidenceOf, l)|;
    assert counts.Keys == Named(m, EvidenceOf);
    var g := SomeRepresentative(m);
    c := Card(k, Impact(|Named(m, ProjectOf)|, |Named(m, HostOf)|, |m|), counts, g, Samples(m, limit), m);
  }

  lemma SomeRepresentative(m: seq<Assertion>) returns (g: string)
    ensures IsRepresentative(g, m)
  {
    g := "";
    if i :| 0 <= i < |m| && m[i].guarantee != "" {
      if j :| 0 <= j < |m| && m[j].guarantee != "" && m[j].guarantee != m[i].guarantee {
        Disagree(m, i, j);
      } else {
        g := m[i].guarantee;
      }
    }
  }

  lemma Disagree(m: seq<Assertion>, i: nat, j: nat)
    requires i < |m| && j < |m| && m[i].guarantee != m[j].guarantee && m[i].guarantee != "" && m[j].guarantee != ""
    ensures IsRepresentative("", m)
  {
    assert i < j || j < i;
  }
}
