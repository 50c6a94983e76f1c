/** The identity matcher: candidates are grouped by concept and logical id, and registrations that
    only look like one server under two names are reported, never merged. */
module Identity {
  import opened Ordering
  import opened Buckets
  import opened Candidates

  /* ---- concatenation of lists ---- */

  function Flat<T, U>(s: seq<T>, f: T -> seq<U>): seq<U> {
    if s == [] then [] else Flat(s[..|s| - 1], f) + f(s[|s| - 1])
  }

  lemma {:induction false} FlatAppend<T, U>(s: seq<T>, t: seq<T>, f: T -> seq<U>)
    ensures Flat(s + t, f) == Flat(s, f) + Flat(t, f)
  {
    if t == [] {
      assert s + t == s;
    } else {
      var p, x := t[..|t| - 1], t[|t| - 1];
      assert (s + t)[..|s + t| - 1] == s + p;
      FlatAppend(s, p, f);
    }
  }

  lemma FlatSnoc<T, U>(s: seq<T>, i: nat, f: T -> seq<U>)
    requires i < |s|
    ensures Flat(s[..i + 1], f) == Flat(s[..i], f) + f(s[i])
  {
    assert s[..i + 1][..i] == s[..i];
  }

  lemma FlatThree<T, U>(a: seq<T>, x: T, b: seq<T>, f: T -> seq<U>)
    ensures Flat(a + [x] + b, f) == Flat(a, f) + f(x) + Flat(b, f)
  {
    FlatAppend(a + [x], b, f);
    assert (a + [x])[..|a|] == a;
  }

  lemma FlatAround<T(!new), U(!new)>(a: seq<T>, x: T, b: seq<T>, f: T -> seq<U>)
    ensures multiset(Flat(a + [x] + b, f)) == multiset(Flat(a + b, f)) + multiset(f(x))
  {
    FlatThree(a, x, b, f);
    FlatAppend(a, b, f);
    Regroup(Flat(a, f), f(x), Flat(b, f));
  }

  lemma Regroup<U(!new)>(a: seq<U>, b: seq<U>, c: seq<U>)
    ensures multiset(a + b + c) == multiset(a + c) + multiset(b)
  {
  }

  lemma Cancel<T(!new)>(p: seq<T>, x: T, a: seq<T>, b: seq<T>)
    requires multiset(p + [x]) == multiset(a + [x] + b)
    ensures multiset(p) == multiset(a + b)
  {
    Regroup(a, [x], b);
    assert multiset(p) == multiset(p + [x]) - multiset{x};
  }

  /** Concatenating a permuted list of lists permutes the result. */
  lemma {:induction false} FlatPermutation<T(!new), U(!new)>(s: seq<T>, t: seq<T>, f: T -> seq<U>)
    requires multiset(s) == multiset(t)
    ensures multiset(Flat(s, f)) == multiset(Flat(t, f))
    decreases |s|
  {
    assert |multiset(s)| == |s| && |multiset(t)| == |t|;
    if s != [] {
      var p, x := s[..|s| - 1], s[|s| - 1];
      assert s == p + [x];
      assert x in multiset(t);
      var i :| 0 <= i < |t| && t[i] == x;
      var a, b := t[..i], t[i + 1..];
      assert t == a + [x] + b;
      Cancel(p, x, a, b);
      FlatPermutation(p, a + b, f);
      FlatAround(a, x, b, f);
    }
  }

  /* ---- grouping ---- */

  const NUL := '\0'

  function KeyOf(c: Candidate): string {
    c.concept + [NUL] + c.logicalId
  }

  /** The first NUL from position `i` on, or the end. */
  function NulFrom(key: string, i: nat): (n: nat)
    requires i <= |key|
    ensures i <= n <= |key|
    decreases |key| - i
  {
    if i == |key| || key[i] == NUL then i else NulFrom(key, i + 1)
  }

  /** Splitting at the first NUL. */
  function SplitKey(key: string): (string, string) {
    var n := NulFrom(key, 0);
    (key[..n], if n < |key| then key[n + 1..] else "")
  }

  lemma {:induction false} NulFromExact(key: string, i: nat)
    requires i <= |key|
    ensures var n := NulFrom(key, i); (n < |key| ==> key[n] == NUL) && forall j :: i <= j < n ==> key[j] != NUL
    decreases |key| - i
  {
    if i < |key| && key[i] != NUL {
      NulFromExact(key, i + 1);
    }
  }

  /** A key can be put together again from its parts. */
  lemma SplitJoins(key: string)
    requires NUL in key
    ensures key == SplitKey(key).0 + [NUL] + SplitKey(key).1
  {
    NulFromExact(key, 0);
  }

  /** For a concept without NUL the parts are the concept and the logical id. */
  lemma KeySplits(concept: string, id: string)
    requires NUL !in concept
    ensures SplitKey(concept + [NUL] + id) == (concept, id)
  {
    var key := concept + [NUL] + id;
    NulFromExact(key, 0);
    assert forall j :: 0 <= j < |concept| ==> key[j] == concept[j];
    assert key[|concept|] == NUL;
    assert key[..|concept|] == concept && key[|concept| + 1..] == id;
  }

  /** The group of one key; the members are sorted by reference. */
  function GroupFor(s: seq<Candidate>, key: string): Group {
    Group(SplitKey(key).0, SplitKey(key).1, Sort(BucketOf(s, KeyOf, key), ByRef()))
  }

  function GroupAt(s: seq<Candidate>): string -> Group {
    (key: string) => GroupFor(s, key)
  }

  function SortedKeys(s: seq<Candidate>): seq<string> {
    Sort(KeysOf(s, KeyOf), StrLess)
  }

  function Groups(s: seq<Candidate>): seq<Group> {
    Project(SortedKeys(s), GroupAt(s))
  }

  function Members(g: Group): seq<Candidate> {
    g.candidates
  }

  lemma SortedKeysExact(s: seq<Candidate>)
    ensures NoDuplicates(SortedKeys(s))
    ensures forall i :: 0 <= i < |s| ==> KeyOf(s[i]) in SortedKeys(s)
    ensures forall k :: k in SortedKeys(s) ==> HasKey(s, KeyOf, k)
  {
    KeysMembers(s, KeyOf);
    SortedCopy(KeysOf(s, KeyOf));
  }

  lemma SortedCopy(ks: seq<string>)
    requires NoDuplicates(ks)
    ensures NoDuplicates(Sort(ks, StrLess)) && multiset(Sort(ks, StrLess)) == multiset(ks)
    ensures SortedBy(Sort(ks, StrLess), StrLess)
    ensures forall k :: k in Sort(ks, StrLess) <==> k in ks
  {
    StringOrder();
    SortSorted(ks, StrLess);
    NoDuplicatesPermutation(ks, Sort(ks, StrLess));
    SameMembers(ks, Sort(ks, StrLess));
  }

  /** Every candidate is in exactly one group. */
  lemma GroupsPartition(s: seq<Candidate>)
    ensures multiset(Flat(Groups(s), Members)) == multiset(s)
  {
    SortedKeysExact(s);
    forall k ensures multiset(GroupAt(s)(k).candidates) == multiset(BucketOf(s, KeyOf, k)) {
      GroupAtPermutes(s, k);
    }
    FlatGroups(s, KeyOf, SortedKeys(s), GroupAt(s));
    GatherPartitions(s, KeyOf, SortedKeys(s));
  }

  lemma GroupAtPermutes(s: seq<Candidate>, k: string)
    ensures multiset(GroupFor(s, k).candidates) == multiset(BucketOf(s, KeyOf, k))
  {
    ByRefOrder();
    SortSorted(BucketOf(s, KeyOf, k), ByRef());
  }

  lemma {:induction false} FlatGroups<K(!new)>(s: seq<Candidate>, key: Candidate -> K, ks: seq<K>, f: K -> Group)
    requires forall k :: multiset(f(k).candidates) == multiset(BucketOf(s, key, k))
    ensures multiset(Flat(Project(ks, f), Members)) == multiset(Gather(s, key, ks))
  {
    if ks != [] {
      var p := ks[..|ks| - 1];
      FlatGroups(s, key, p, f);
      var gs := Project(ks, f);
      assert gs[..|gs| - 1] == Project(p, f);
    }
  }

  /** All members have the group's identity. */
  ghost predicate GroupSound(s: seq<Candidate>, g: Group) {
    && g.candidates != []
    && forall c | c in g.candidates :: c in s && c.concept == g.concept && c.logicalId == g.logicalId
  }

  predicate SameIdentity(g: Group, h: Group) {
    g.concept == h.concept && g.logicalId == h.logicalId
  }

  /** Groups are not empty, carry their members' identity, and differ in it. */
  lemma GroupsExact(s: seq<Candidate>)
    requires forall c | c in s :: NUL !in c.concept
    ensures forall i :: 0 <= i < |Groups(s)| ==> GroupSound(s, Groups(s)[i])
    ensures forall i, j :: 0 <= i < j < |Groups(s)| ==> !SameIdentity(Groups(s)[i], Groups(s)[j])
  {
    forall i | 0 <= i < |Groups(s)| ensures GroupSound(s, Groups(s)[i]) {
      var k := KeyOfGroup(s, i);
      GroupAtExact(s, k);
    }
    GroupsDiffer(s);
  }

  /** The key behind a group; it belongs to some candidate. */
  lemma KeyOfGroup(s: seq<Candidate>, i: nat) returns (k: string)
    requires i < |Groups(s)|
    ensures |Groups(s)| == |SortedKeys(s)| && k == SortedKeys(s)[i] && Groups(s)[i] == GroupFor(s, k)
    ensures HasKey(s, KeyOf, k)
  {
    SortedKeysExact(s);
    k := SortedKeys(s)[i];
  }

  lemma GroupAtExact(s: seq<Candidate>, k: string)
    requires (forall c | c in s :: NUL !in c.concept) && HasKey(s, KeyOf, k)
    ensures GroupSound(s, GroupFor(s, k))
  {
    var g := GroupFor(s, k);
    GroupAtPermutes(s, k);
    SameMembers(g.candidates, BucketOf(s, KeyOf, k));
    BucketNotEmpty(s, k);
    forall c | c in g.candidates ensures c in s && c.concept == g.concept && c.logicalId == g.logicalId {
      MemberIdentity(s, k, c);
    }
  }

  lemma BucketNotEmpty(s: seq<Candidate>, k: string)
    requires HasKey(s, KeyOf, k)
    ensures exists c :: c in BucketOf(s, KeyOf, k)
  {
    BucketMembers(s, KeyOf, k);
    var i :| 0 <= i < |s| && KeyOf(s[i]) == k;
    assert s[i] in BucketOf(s, KeyOf, k);
  }

  lemma MemberIdentity(s: seq<Candidate>, k: string, c: Candidate)
    requires c in BucketOf(s, KeyOf, k) && forall d | d in s :: NUL !in d.concept
    ensures c in s && c.concept == GroupFor(s, k).concept && c.logicalId == GroupFor(s, k).logicalId
  {
    BucketMembers(s, KeyOf, k);
    KeySplits(c.concept, c.logicalId);
  }

  lemma GroupsDiffer(s: seq<Candidate>)
    ensures forall i, j :: 0 <= i < j < |Groups(s)| ==> !SameIdentity(Groups(s)[i], Groups(s)[j])
  {
    forall i, j | 0 <= i < j < |Groups(s)| ensures !SameIdentity(Groups(s)[i], Groups(s)[j]) {
      TwoGroupsDiffer(s, i, j);
    }
  }

  lemma TwoGroupsDiffer(s: seq<Candidate>, i: nat, j: nat)
    requires i < j < |Groups(s)|
    ensures !SameIdentity(Groups(s)[i], Groups(s)[j])
  {
    var k := KeyOfGroup(s, i);
    var l := KeyOfGroup(s, j);
    SortedKeysExact(s);
    HasNul(s, k);
    HasNul(s, l);
    KeysDiffer(k, l);
  }

  lemma HasNul(s: seq<Candidate>, k: string)
    requires HasKey(s, KeyOf, k)
    ensures NUL in k
  {
    var i :| 0 <= i < |s| && KeyOf(s[i]) == k;
    assert k[|s[i].concept|] == NUL;
  }

  lemma KeysDiffer(k: string, l: string)
    requires NUL in k && NUL in l && k != l
    ensures SplitKey(k) != SplitKey(l)
  {
    SplitJoins(k);
    SplitJoins(l);
  }

  /** The groups do not depend on the order in which candidates were found. */
  lemma GroupsIgnoreOrder(s: seq<Candidate>, t: seq<Candidate>)
    requires multiset(s) == multiset(t) && DistinctRefs(s)
    ensures Groups(s) == Groups(t)
  {
    KeysMembers(s, KeyOf);
    KeysPermutation(s, t, KeyOf);
    StringSortPermutation(KeysOf(s, KeyOf), KeysOf(t, KeyOf));
    forall k ensures GroupAt(s)(k) == GroupAt(t)(k) {
      GroupIgnoresOrder(s, t, k);
    }
    SameProjection(SortedKeys(s), GroupAt(s), GroupAt(t));
  }

  lemma StringSortPermutation(s: seq<string>, t: seq<string>)
    requires multiset(s) == multiset(t)
    ensures Sort(s, StrLess) == Sort(t, StrLess)
  {
    StringOrder();
    forall i, j | 0 <= i < |s| && 0 <= j < |s| && !StrLess(s[i], s[j]) && !StrLess(s[j], s[i]) ensures s[i] == s[j] {
      StrTotal(s[i], s[j]);
    }
    SortPermutation(s, t, StrLess);
  }

  lemma GroupIgnoresOrder(s: seq<Candidate>, t: seq<Candidate>, k: string)
    requires multiset(s) == multiset(t) && DistinctRefs(s)
    ensures GroupFor(s, k) == GroupFor(t, k)
  {
    BucketPermutation(s, t, KeyOf, k);
    SubsetRefs(s, KeyOf, k);
    DistinctRefsBreakTies(BucketOf(s, KeyOf, k));
    ByRefOrder();
    SortPermutation(BucketOf(s, KeyOf, k), BucketOf(t, KeyOf, k), ByRef());
  }

  lemma SameProjection<T(!new), U(!new)>(s: seq<T>, f: T -> U, g: T -> U)
    requires forall x :: f(x) == g(x)
    ensures Project(s, f) == Project(s, g)
  {
    assert forall i :: 0 <= i < |s| ==> Project(s, f)[i] == Project(s, g)[i];
  }

  method MatchIdentities(candidates: seq<Candidate>) returns (groups: seq<Group>, ambiguous: seq<AmbiguousIdentity>)
    ensures DistinctRefs(candidates) ==> groups == Groups(candidates) && ambiguous == Ambiguities(candidates)
  {
    var order, byKey := BucketBy(candidates, KeyOf);
    KeysMembers(candidates, KeyOf);
    SortedCopy(order);
    groups := BuildGroups(candidates, Sort(order, StrLess), byKey);
    ambiguous := DetectAmbiguousIdentities(candidates);
  }

  method BuildGroups(ghost s: seq<Candidate>, order: seq<string>, byKey: map<string, seq<Candidate>>)
    returns (groups: seq<Group>)
    requires forall k | k in order :: k in byKey && byKey[k] == BucketOf(s, KeyOf, k)
    ensures DistinctRefs(s) ==> groups == Project(order, GroupAt(s))
  {
    groups := [];
    for i := 0 to |order|
      invariant DistinctRefs(s) ==> groups == Project(order[..i], GroupAt(s))
    {
      var key := order[i];
      ProjectSnoc(order, i, GroupAt(s));
      var g := MakeGroup(s, key, byKey[key]);
      groups := groups + [g];
    }
    assert order[..|order|] == order;
  }

  method MakeGroup(ghost s: seq<Candidate>, key: string, bucket: seq<Candidate>) returns (g: Group)
    requires bucket == BucketOf(s, KeyOf, key)
    ensures DistinctRefs(s) ==> g == GroupFor(s, key)
  {
    var parts := SplitKey(key);
    var sorted := SortByRef(bucket);
    if DistinctRefs(s) {
      SubsetRefs(s, KeyOf, key);
    }
    return Group(parts.0, parts.1, sorted);
  }

  /* ---- ambiguity ---- */

  const MCP_SERVER := "mcp_server"

  datatype AmbiguousIdentity = AmbiguousIdentity(a: Candidate, b: Candidate)

  predicate IsRegistration(c: Candidate) {
    c.concept == MCP_SERVER && c.fields.Some? && c.digest != ""
  }

  predicate Suspicious(a: Candidate, b: Candidate) {
    a.logicalId != b.logicalId && a.digest == b.digest
  }

  /** The suspicious pairs of one registration with those from position `j` on. */
  function PairsWith(m: seq<Candidate>, i: nat, j: nat): seq<AmbiguousIdentity>
    requires i < |m|
    decreases |m| - j
  {
    if j >= |m| then [] else PairHere(m, i, j) + PairsWith(m, i, j + 1)
  }

  function PairHere(m: seq<Candidate>, i: nat, j: nat): seq<AmbiguousIdentity>
    requires i < |m| && j < |m|
  {
    if Suspicious(m[i], m[j]) then [AmbiguousIdentity(m[i], m[j])] else []
  }

  function PairsFrom(m: seq<Candidate>, i: nat): seq<AmbiguousIdentity>
    decreases |m| - i
  {
    if i >= |m| then [] else PairsWith(m, i, i + 1) + PairsFrom(m, i + 1)
  }

  function Registrations(s: seq<Candidate>): seq<Candidate> {
    Sort(BucketOf(s, IsRegistration, true), ByRef())
  }

  function Ambiguities(s: seq<Candidate>): seq<AmbiguousIdentity> {
    PairsFrom(Registrations(s), 0)
  }

  method DetectAmbiguousIdentities(candidates: seq<Candidate>) returns (out: seq<AmbiguousIdentity>)
    ensures DistinctRefs(candidates) ==> out == Ambiguities(candidates)
  {
    var mcp: seq<Candidate> := [];
    for i := 0 to |candidates|
      invariant mcp == BucketOf(candidates[..i], IsRegistration, true)
    {
      BucketSnoc(candidates, i, IsRegistration, true);
      if IsRegistration(candidates[i]) {
        mcp := mcp + [candidates[i]];
      }
    }
    assert candidates[..|candidates|] == candidates;
    if DistinctRefs(candidates) {
      SubsetRefs(candidates, IsRegistration, true);
    }
    mcp := SortByRef(mcp);
    out := ComparePairs(mcp);
  }

  /** The double loop over index pairs. */
  method ComparePairs(mcp: seq<Candidate>) returns (out: seq<AmbiguousIdentity>)
    ensures out == PairsFrom(mcp, 0)
  {
    out := [];
    for i := 0 to |mcp|
      invariant out + PairsFrom(mcp, i) == PairsFrom(mcp, 0)
    {
      var row := CompareWith(mcp, i);
      Reassociate(out, row, PairsFrom(mcp, i + 1));
      out := out + row;
    }
    assert PairsFrom(mcp, |mcp|) == [];
  }

  method CompareWith(mcp: seq<Candidate>, i: nat) returns (row: seq<AmbiguousIdentity>)
    requires i < |mcp|
    ensures row == PairsWith(mcp, i, i + 1)
  {
    row := [];
    for j := i + 1 to |mcp|
      invariant row + PairsWith(mcp, i, j) == PairsWith(mcp, i, i + 1)
    {
      Reassociate(row, PairHere(mcp, i, j), PairsWith(mcp, i, j + 1));
      var a, b := mcp[i], mcp[j];
      if a.logicalId == b.logicalId {
        continue;
      }
      if a.digest != b.digest {
        continue;
      }
      row := row + [AmbiguousIdentity(a, b)];
    }
    assert PairsWith(mcp, i, |mcp|) == [];
  }

  lemma Reassociate(a: seq<AmbiguousIdentity>, b: seq<AmbiguousIdentity>, c: seq<AmbiguousIdentity>)
    ensures a + (b + c) == (a + b) + c && a + [] == a && [] + c == c
  {
  }

  ghost predicate Pairs(m: seq<Candidate>, k: int, l: int, x: AmbiguousIdentity) {
    0 <= k < |m| && 0 <= l < |m| && x.a == m[k] && x.b == m[l] && Suspicious(m[k], m[l])
  }

  ghost predicate PairWith(m: seq<Candidate>, i: int, j: int, x: AmbiguousIdentity) {
    exists l :: j <= l < |m| && Pairs(m, i, l, x)
  }

  lemma {:induction false} PairsWithExact(m: seq<Candidate>, i: nat, j: nat, x: AmbiguousIdentity)
    requires i < |m|
    ensures x in PairsWith(m, i, j) <==> PairWith(m, i, j, x)
    decreases |m| - j
  {
    if j < |m| {
      PairsWithExact(m, i, j + 1, x);
      InEither(PairHere(m, i, j), PairsWith(m, i, j + 1), x);
      PairWithStep(m, i, j, x);
    }
  }

  lemma PairWithStep(m: seq<Candidate>, i: nat, j: nat, x: AmbiguousIdentity)
    requires i < |m| && j < |m|
    ensures x in PairHere(m, i, j) <==> Pairs(m, i, j, x)
    ensures PairWith(m, i, j, x) <==> Pairs(m, i, j, x) || PairWith(m, i, j + 1, x)
  {
  }

  ghost predicate PairFrom(m: seq<Candidate>, i: int, x: AmbiguousIdentity) {
    exists k, l :: i <= k < l < |m| && Pairs(m, k, l, x)
  }

  lemma {:induction false} PairsFromExact(m: seq<Candidate>, i: nat, x: AmbiguousIdentity)
    ensures x in PairsFrom(m, i) <==> PairFrom(m, i, x)
    decreases |m| - i
  {
    if i < |m| {
      PairsWithExact(m, i, i + 1, x);
      PairsFromExact(m, i + 1, x);
      InEither(PairsWith(m, i, i + 1), PairsFrom(m, i + 1), x);
      PairFromStep(m, i, x);
    }
  }

  lemma InEither(a: seq<AmbiguousIdentity>, b: seq<AmbiguousIdentity>, x: AmbiguousIdentity)
    ensures x in a + b <==> x in a || x in b
  {
  }

  lemma PairFromStep(m: seq<Candidate>, i: nat, x: AmbiguousIdentity)
    requires i < |m|
    ensures PairFrom(m, i, x) <==> PairWith(m, i, i + 1, x) || PairFrom(m, i + 1, x)
  {
  }

  /** A pair is reported, in one order, exactly when both are registrations with equal definitions
      under different ids. */
  lemma AmbiguousExact(s: seq<Candidate>, a: Candidate, b: Candidate)
    requires DistinctRefs(s)
    ensures AmbiguousIdentity(a, b) in Ambiguities(s)
       <==> a in s && b in s && IsRegistration(a) && IsRegistration(b) && Suspicious(a, b) && StrLess(a.ref, b.ref)
  {
    var r, m := BucketOf(s, IsRegistration, true), Registrations(s);
    BucketMembers(s, IsRegistration, true);
    ByRefOrder();
    SortSorted(r, ByRef());
    SameMembers(r, m);
    var x := AmbiguousIdentity(a, b);
    PairsFromExact(m, 0, x);
    if x in Ambiguities(s) {
      var k, l :| 0 <= k < l < |m| && Pairs(m, k, l, x);
      assert m[k] in r && m[l] in r;
      assert !ByRef()(m[l], m[k]);
      StrTotal(a.ref, b.ref);
      DifferentRefs(s, a, b);
    }
    if a in s && b in s && IsRegistration(a) && IsRegistration(b) && Suspicious(a, b) && StrLess(a.ref, b.ref) {
      assert a in m && b in m;
      var k :| 0 <= k < |m| && m[k] == a;
      var l :| 0 <= l < |m| && m[l] == b;
      assert Pairs(m, k, l, x);
      LaterIsNotLess(m, k, l);
    }
  }

  lemma LaterIsNotLess(m: seq<Candidate>, k: nat, l: nat)
    requires SortedBy(m, ByRef()) && k < |m| && l < |m| && StrLess(m[k].ref, m[l].ref)
    ensures k < l
  {
    StrIrreflexive(m[k].ref);
    NotLess(m, l, k);
  }

  lemma NotLess(m: seq<Candidate>, l: nat, k: nat)
    requires SortedBy(m, ByRef()) && l < |m| && k < |m|
    ensures l < k ==> !StrLess(m[k].ref, m[l].ref)
  {
    assert l < k ==> !ByRef()(m[k], m[l]);
  }

  /** Each pair is reported once. */
  lemma AmbiguousOnce(s: seq<Candidate>)
    requires DistinctRefs(s)
    ensures NoDuplicates(Ambiguities(s))
  {
    SubsetRefs(s, IsRegistration, true);
    var r, m := BucketOf(s, IsRegistration, true), Registrations(s);
    ByRefOrder();
    SortSorted(r, ByRef());
    ProjectPermutation(r, m, RefOf);
    NoDuplicatesPermutation(Project(r, RefOf), Project(m, RefOf));
    forall i, j | 0 <= i < j < |m| ensures m[i] != m[j] {
      assert Project(m, RefOf)[i] != Project(m, RefOf)[j];
    }
    PairsOnce(m, 0);
  }

  lemma {:induction false} RowOnce(m: seq<Candidate>, i: nat, j: nat)
    requires NoDuplicates(m) && i < |m|
    ensures NoDuplicates(PairsWith(m, i, j))
    decreases |m| - j
  {
    if j < |m| {
      RowOnce(m, i, j + 1);
      var here, rest := PairHere(m, i, j), PairsWith(m, i, j + 1);
      forall x | x in here ensures x !in rest {
        PairsWithExact(m, i, j + 1, x);
      }
      AppendOnce(here, rest);
    }
  }

  lemma {:induction false} PairsOnce(m: seq<Candidate>, i: nat)
    requires NoDuplicates(m)
    ensures NoDuplicates(PairsFrom(m, i))
    decreases |m| - i
  {
    if i < |m| {
      PairsOnce(m, i + 1);
      RowOnce(m, i, i + 1);
      var row, rest := PairsWith(m, i, i + 1), PairsFrom(m, i + 1);
      forall x | x in row ensures x !in rest {
        PairsWithExact(m, i, i + 1, x);
        PairsFromExact(m, i + 1, x);
      }
      AppendOnce(row, rest);
    }
  }

  lemma AppendOnce(a: seq<AmbiguousIdentity>, b: seq<AmbiguousIdentity>)
    requires NoDuplicates(a) && NoDuplicates(b) && forall x | x in a :: x !in b
    ensures NoDuplicates(a + b)
  {
    var ab := a + b;
    forall i, j | 0 <= i < j < |ab| ensures ab[i] != ab[j] {
      if i < |a| <= j {
        assert a[i] in a && b[j - |a|] in b;
      }
    }
  }

  lemma DifferentRefs(s: seq<Candidate>, a: Candidate, b: Candidate)
    requires DistinctRefs(s) && a in s && b in s && a != b
    ensures a.ref != b.ref
  {
    var i :| 0 <= i < |s| && s[i] == a;
    var j :| 0 <= j < |s| && s[j] == b;
  }
}
