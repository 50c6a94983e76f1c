/** Duplicate capabilities: one logical tool reachable through more than one kind of source. */
module Duplicates {
  import opened Ordering
  import opened Buckets
  import opened Candidates
  import opened Identity

  datatype ToolSource = ToolSource(kind: string, owner: string, ref: string, tool: string)

  datatype DuplicateCapability = DuplicateCapability(fingerprint: string, sources: seq<ToolSource>)

  /* ---- fingerprints ---- */

  /** Lower case as far as it can yield a letter or a digit of ASCII: the Kelvin sign and the dotted
      capital I are the two characters from outside that do. */
  function Lower(c: char): char {
    if 'A' <= c <= 'Z' then (c as int + 32) as char
    else if c == '\U{212A}' then 'k'
    else if c == '\U{0130}' then 'i'
    else c
  }

  predicate IsPlain(c: char) {
    'a' <= c <= 'z' || '0' <= c <= '9'
  }

  function Fingerprint(tool: string): (f: string)
    ensures forall c :: c in f ==> IsPlain(c)
  {
    if tool == "" then ""
    else
      var rest := Fingerprint(tool[..|tool| - 1]);
      if IsPlain(Lower(tool[|tool| - 1])) then rest + [Lower(tool[|tool| - 1])] else rest
  }

  /** Fingerprints are taken character by character. */
  lemma {:induction false} FingerprintAppends(a: string, b: string)
    ensures Fingerprint(a + b) == Fingerprint(a) + Fingerprint(b)
  {
    if b == "" {
      assert a + b == a;
    } else {
      var p := b[..|b| - 1];
      assert (a + b)[..|a + b| - 1] == a + p;
      FingerprintAppends(a, p);
    }
  }

  /** Separators and letter case never tell two tools apart. */
  lemma SeparatorsAreIgnored(a: string, separator: string, b: string)
    requires forall c :: c in separator ==> !IsPlain(Lower(c))
    ensures Fingerprint(a + separator + b) == Fingerprint(a + b)
  {
    OnlySeparators(separator);
    FingerprintAppends(a + separator, b);
    FingerprintAppends(a, separator);
    FingerprintAppends(a, b);
  }

  lemma {:induction false} OnlySeparators(separator: string)
    requires forall c :: c in separator ==> !IsPlain(Lower(c))
    ensures Fingerprint(separator) == ""
  {
    if separator != "" {
      OnlySeparators(separator[..|separator| - 1]);
    }
  }

  /** A fingerprint is its own fingerprint, and nothing shorter identifies a plain name. */
  lemma {:induction false} FingerprintKeepsPlain(tool: string)
    requires forall c :: c in tool ==> IsPlain(c)
    ensures Fingerprint(tool) == tool
  {
    if tool != "" {
      FingerprintKeepsPlain(tool[..|tool| - 1]);
      assert IsPlain(tool[|tool| - 1]);
      assert tool == tool[..|tool| - 1] + [tool[|tool| - 1]];
    }
  }

  function FingerprintOf(s: ToolSource): string {
    Fingerprint(s.tool)
  }

  predicate IsNamed(s: ToolSource) {
    Fingerprint(s.tool) != ""
  }

  /* ---- tools of the registered servers ---- */

  function AsSource(c: Candidate): string -> ToolSource {
    (tool: string) => ToolSource("mcp", c.logicalId, c.ref, tool)
  }

  function ToolsOf(c: Candidate): seq<ToolSource> {
    if c.concept == MCP_SERVER then Project(c.tools, AsSource(c)) else []
  }

  method MCPToolSources(candidates: seq<Candidate>) returns (out: seq<ToolSource>)
    ensures out == Flat(candidates, ToolsOf)
  {
    out := [];
    for i := 0 to |candidates|
      invariant out == Flat(candidates[..i], ToolsOf)
    {
      FlatSnoc(candidates, i, ToolsOf);
      var c := candidates[i];
      if c.concept != MCP_SERVER {
        continue;
      }
      ghost var before := out;
      for j := 0 to |c.tools|
        invariant out == before + Project(c.tools[..j], AsSource(c))
      {
        ProjectSnoc(c.tools, j, AsSource(c));
        out := out + [ToolSource("mcp", c.logicalId, c.ref, c.tools[j])];
      }
      assert c.tools[..|c.tools|] == c.tools;
    }
    assert candidates[..|candidates|] == candidates;
  }

  /* ---- detection ---- */

  function BySource(): (ToolSource, ToolSource) -> bool {
    (a: ToolSource, b: ToolSource) => SourceLess(a, b)
  }

  predicate SourceLess(a: ToolSource, b: ToolSource) {
    if a.kind != b.kind then StrLess(a.kind, b.kind)
    else if a.owner != b.owner then StrLess(a.owner, b.owner)
    else StrLess(a.ref, b.ref)
  }

  lemma BySourceOrder()
    ensures StrictWeak(BySource())
  {
    forall a, b, c
      ensures SourceLess(a, b) ==> !SourceLess(b, a)
      ensures SourceLess(a, c) ==> SourceLess(a, b) || SourceLess(b, c)
    {
      StrOrder(a.kind, b.kind, c.kind);
      StrOrder(a.owner, b.owner, c.owner);
      StrOrder(a.ref, b.ref, c.ref);
    }
  }

  /** More than one kind among the sources. */
  predicate SeveralKinds(s: seq<ToolSource>) {
    exists i, j :: 0 <= i < j < |s| && s[i].kind != s[j].kind
  }

  function Named(sources: seq<ToolSource>): seq<ToolSource> {
    BucketOf(sources, IsNamed, true)
  }

  function Sharing(sources: seq<ToolSource>, fp: string): seq<ToolSource> {
    BucketOf(Named(sources), FingerprintOf, fp)
  }

  function ReportOne(sources: seq<ToolSource>, fp: string): seq<DuplicateCapability> {
    if SeveralKinds(Sharing(sources, fp)) then [DuplicateCapability(fp, Sort(Sharing(sources, fp), BySource()))] else []
  }

  function Report(sources: seq<ToolSource>): string -> seq<DuplicateCapability> {
    (fp: string) => ReportOne(sources, fp)
  }

  function Fingerprints(sources: seq<ToolSource>): seq<string> {
    Sort(KeysOf(Named(sources), FingerprintOf), StrLess)
  }

  function Reported(sources: seq<ToolSource>): seq<DuplicateCapability> {
    Flat(Fingerprints(sources), Report(sources))
  }

  /** The report, up to the order of sources that agree in kind, owner and reference. */
  ghost predicate IsReport(out: seq<DuplicateCapability>, sources: seq<ToolSource>) {
    IsReportOf(out, sources, Reported(sources))
  }

  ghost predicate IsReportOf(out: seq<DuplicateCapability>, sources: seq<ToolSource>, r: seq<DuplicateCapability>) {
    |out| == |r| && forall i :: 0 <= i < |r| ==> SameReport(out[i], r[i])
  }

  ghost predicate SameReport(d: DuplicateCapability, r: DuplicateCapability) {
    d.fingerprint == r.fingerprint && SortedBy(d.sources, BySource()) && multiset(d.sources) == multiset(r.sources)
  }

  method DetectDuplicateCapabilities(sources: seq<ToolSource>) returns (out: seq<DuplicateCapability>)
    ensures IsReport(out, sources)
  {
    var named: seq<ToolSource> := [];
    for i := 0 to |sources|
      invariant named == Named(sources[..i])
    {
      BucketSnoc(sources, i, IsNamed, true);
      if Fingerprint(sources[i].tool) == "" {
        continue;
      }
      named := named + [sources[i]];
    }
    assert sources[..|sources|] == sources;
    var order, byFingerprint := BucketBy(named, FingerprintOf);
    KeysMembers(named, FingerprintOf);
    SortedCopy(order);
    out := ReportGroups(sources, Sort(order, StrLess), byFingerprint);
  }

  method ReportGroups(ghost sources: seq<ToolSource>, order: seq<string>, byFingerprint: map<string, seq<ToolSource>>)
    returns (out: seq<DuplicateCapability>)
    requires forall fp | fp in order :: fp in byFingerprint && byFingerprint[fp] == Sharing(sources, fp)
    ensures IsReportOf(out, sources, Flat(order, Report(sources)))
  {
    out := [];
    for i := 0 to |order|
      invariant IsReportOf(out, sources, Flat(order[..i], Report(sources)))
    {
      FlatSnoc(order, i, Report(sources));
      var one := ReportGroup(sources, order[i], byFingerprint[order[i]]);
      out := out + one;
    }
    assert order[..|order|] == order;
  }

  method ReportGroup(ghost sources: seq<ToolSource>, fp: string, group: seq<ToolSource>)
    returns (one: seq<DuplicateCapability>)
    requires group == Sharing(sources, fp)
    ensures IsReportOf(one, sources, ReportOne(sources, fp))
  {
    var kinds: set<string> := {};
    for i := 0 to |group|
      invariant forall j :: 0 <= j < i ==> group[j].kind in kinds
      invariant forall k :: k in kinds ==> exists j :: 0 <= j < i && group[j].kind == k
    {
      kinds := kinds + {group[i].kind};
    }
    KindsExact(group, kinds);
    if |kinds| < 2 {
      return [];
    }
    BySourceOrder();
    SortSorted(group, BySource());
    var sorted := SortSlice(group, BySource());
    return [DuplicateCapability(fp, sorted)];
  }

  /** No two different sources of one reported capability agree in kind, owner and reference. */
  ghost predicate ToolsApart(sources: seq<ToolSource>) {
    forall d | d in Reported(sources) :: TiesEqual(d.sources, BySource())
  }

  /** There is only one report exactly when the sources of each are told apart. */
  lemma ReportUniqueExact(sources: seq<ToolSource>)
    ensures (forall out | IsReport(out, sources) :: out == Reported(sources)) <==> ToolsApart(sources)
  {
    if ToolsApart(sources) {
      forall out | IsReport(out, sources) ensures out == Reported(sources) {
        ReportUnique(out, sources);
      }
    } else {
      var r := Reported(sources);
      var d :| d in r && !TiesEqual(d.sources, BySource());
      var i :| 0 <= i < |r| && r[i] == d;
      var out := TiedToolsShow(sources, i);
    }
  }

  lemma ReportedIsReport(sources: seq<ToolSource>)
    ensures IsReport(Reported(sources), sources)
  {
    var r := Reported(sources);
    forall i | 0 <= i < |r| ensures SortedBy(r[i].sources, BySource()) {
      assert r[i] in r;
      ReportSorted(sources, Fingerprints(sources), r[i]);
    }
  }

  lemma ReportUnique(out: seq<DuplicateCapability>, sources: seq<ToolSource>)
    requires IsReport(out, sources) && ToolsApart(sources)
    ensures out == Reported(sources)
  {
    var r := Reported(sources);
    BySourceOrder();
    forall i | 0 <= i < |r| ensures out[i] == r[i] {
      assert r[i] in r;
      ReportSorted(sources, Fingerprints(sources), r[i]);
      SortedUnique(r[i].sources, out[i].sources, BySource());
    }
  }

  lemma {:induction false} ReportSorted(sources: seq<ToolSource>, ks: seq<string>, d: DuplicateCapability)
    requires d in Flat(ks, Report(sources))
    ensures SortedBy(d.sources, BySource())
  {
    var p, k := ks[..|ks| - 1], ks[|ks| - 1];
    BySourceOrder();
    SortSorted(Sharing(sources, k), BySource());
    assert Flat(ks, Report(sources)) == Flat(p, Report(sources)) + ReportOne(sources, k);
    if d in Flat(p, Report(sources)) {
      ReportSorted(sources, p, d);
    }
  }

  /** Two tools of one source that share a fingerprint with a source of another kind can be listed either
      way round. */
  lemma TiedToolsShow(sources: seq<ToolSource>, i: nat) returns (out: seq<DuplicateCapability>)
    requires i < |Reported(sources)| && !TiesEqual(Reported(sources)[i].sources, BySource())
    ensures IsReport(out, sources) && out != Reported(sources)
  {
    var r := Reported(sources);
    assert r[i] in r;
    ReportSorted(sources, Fingerprints(sources), r[i]);
    var other := SwapSources(r[i]);
    out := r[i := other];
    forall l | 0 <= l < |r| ensures SameReport(out[l], r[l]) {
      assert r[l] in r;
      ReportSorted(sources, Fingerprints(sources), r[l]);
    }
    assert out[i] != r[i];
  }

  lemma SwapSources(d: DuplicateCapability) returns (e: DuplicateCapability)
    requires SortedBy(d.sources, BySource()) && !TiesEqual(d.sources, BySource())
    ensures SameReport(e, d) && e != d
  {
    var t := d.sources;
    BySourceOrder();
    var j, k :| 0 <= j < |t| && 0 <= k < |t| && !BySource()(t[j], t[k]) && !BySource()(t[k], t[j]) && t[j] != t[k];
    SwapTied(t, j, k, BySource());
    e := DuplicateCapability(d.fingerprint, t[j := t[k]][k := t[j]]);
    assert e.sources[k] != t[k];
  }

  lemma KindsExact(group: seq<ToolSource>, kinds: set<string>)
    requires forall j :: 0 <= j < |group| ==> group[j].kind in kinds
    requires forall k :: k in kinds ==> exists j :: 0 <= j < |group| && group[j].kind == k
    ensures |kinds| >= 2 <==> SeveralKinds(group)
  {
    if SeveralKinds(group) {
      var i, j :| 0 <= i < j < |group| && group[i].kind != group[j].kind;
      assert {group[i].kind, group[j].kind} <= kinds;
      SubsetSize({group[i].kind, group[j].kind}, kinds);
    }
    if |kinds| >= 2 {
      var k :| k in kinds;
      assert |kinds - {k}| == |kinds| - 1;
      var l :| l in kinds - {k};
      var i :| 0 <= i < |group| && group[i].kind == k;
      var j :| 0 <= j < |group| && group[j].kind == l;
      assert i < j || j < i;
    }
  }

  lemma SubsetSize(a: set<string>, b: set<string>)
    requires a <= b
    ensures |a| <= |b|
  {
    assert b == a + (b - a);
  }

  /** A fingerprint is reported exactly when it is not empty and two kinds of source share it. */
  lemma DuplicatesExact(sources: seq<ToolSource>, fp: string)
    ensures fp in Project(Reported(sources), NameOf) <==> fp != "" && exists a, b :: Pair(sources, fp, a, b)
  {
    KeysMembers(Named(sources), FingerprintOf);
    SortedCopy(KeysOf(Named(sources), FingerprintOf));
    ReportedNames(sources, Fingerprints(sources));
    SharingExact(sources, fp);
    if fp in Project(Reported(sources), NameOf) {
      var s := Sharing(sources, fp);
      var i, j :| 0 <= i < j < |s| && s[i].kind != s[j].kind;
      assert Pair(sources, fp, s[i], s[j]);
    }
    if a, b :| fp != "" && Pair(sources, fp, a, b) {
      SharedKinds(sources, fp, a, b);
    }
  }

  /** Each report comes once, in increasing order, and lists every source that shares it. */
  lemma ReportsOrdered(sources: seq<ToolSource>)
    ensures SortedBy(Project(Reported(sources), NameOf), StrLess) && NoDuplicates(Project(Reported(sources), NameOf))
    ensures forall d :: d in Reported(sources) ==> multiset(d.sources) == multiset(Sharing(sources, d.fingerprint))
  {
    KeysMembers(Named(sources), FingerprintOf);
    SortedCopy(KeysOf(Named(sources), FingerprintOf));
    ReportedSubset(sources, Fingerprints(sources));
    ReportedComplete(sources, Fingerprints(sources));
  }

  lemma {:induction false} ReportedComplete(sources: seq<ToolSource>, ks: seq<string>)
    ensures forall d :: d in Flat(ks, Report(sources)) ==>
              multiset(d.sources) == multiset(Sharing(sources, d.fingerprint))
  {
    if ks != [] {
      ReportedComplete(sources, ks[..|ks| - 1]);
      BySourceOrder();
      SortSorted(Sharing(sources, ks[|ks| - 1]), BySource());
    }
  }

  ghost predicate Pair(sources: seq<ToolSource>, fp: string, a: ToolSource, b: ToolSource) {
    a in sources && b in sources && a.kind != b.kind && FingerprintOf(a) == fp && FingerprintOf(b) == fp
  }

  function NameOf(d: DuplicateCapability): string {
    d.fingerprint
  }

  lemma SharingExact(sources: seq<ToolSource>, fp: string)
    ensures forall s :: s in Sharing(sources, fp) <==> s in sources && FingerprintOf(s) == fp && fp != ""
  {
    BucketMembers(sources, IsNamed, true);
    BucketMembers(Named(sources), FingerprintOf, fp);
  }

  lemma SharedKinds(sources: seq<ToolSource>, fp: string, a: ToolSource, b: ToolSource)
    requires fp != "" && Pair(sources, fp, a, b)
    ensures SeveralKinds(Sharing(sources, fp)) && HasKey(Named(sources), FingerprintOf, fp)
  {
    SharingExact(sources, fp);
    var s := Sharing(sources, fp);
    var i :| 0 <= i < |s| && s[i] == a;
    var j :| 0 <= j < |s| && s[j] == b;
    assert i < j || j < i;
    BucketMembers(sources, IsNamed, true);
    var k :| 0 <= k < |Named(sources)| && Named(sources)[k] == a;
    assert FingerprintOf(Named(sources)[k]) == fp;
  }

  lemma {:induction false} ReportedNames(sources: seq<ToolSource>, ks: seq<string>)
    ensures forall fp :: fp in Project(Flat(ks, Report(sources)), NameOf)
              <==> fp in ks && SeveralKinds(Sharing(sources, fp))
  {
    if ks != [] {
      var p, k := ks[..|ks| - 1], ks[|ks| - 1];
      ReportedNames(sources, p);
      ProjectAppend(Flat(p, Report(sources)), ReportOne(sources, k), NameOf);
      assert ks == p + [k];
      OneName(sources, k);
    }
  }

  lemma OneName(sources: seq<ToolSource>, k: string)
    ensures Project(ReportOne(sources, k), NameOf) == if SeveralKinds(Sharing(sources, k)) then [k] else []
  {
  }

  /** What is reported keeps the order of the fingerprints. */
  lemma {:induction false} ReportedSubset(sources: seq<ToolSource>, ks: seq<string>)
    requires SortedBy(ks, StrLess) && NoDuplicates(ks)
    ensures SortedBy(Project(Flat(ks, Report(sources)), NameOf), StrLess)
    ensures NoDuplicates(Project(Flat(ks, Report(sources)), NameOf))
  {
    if ks != [] {
      var p, k := ks[..|ks| - 1], ks[|ks| - 1];
      ReportedSubset(sources, p);
      ReportedNames(sources, p);
      ProjectAppend(Flat(p, Report(sources)), ReportOne(sources, k), NameOf);
      OneName(sources, k);
      var names := Project(Flat(p, Report(sources)), NameOf);
      forall x | x in names ensures !StrLess(k, x) && x != k {
        BelowLast(ks, x);
      }
      AppendKeepsOrder(names, Project(ReportOne(sources, k), NameOf), k);
    }
  }

  lemma BelowLast(ks: seq<string>, x: string)
    requires SortedBy(ks, StrLess) && NoDuplicates(ks) && ks != [] && x in ks[..|ks| - 1]
    ensures !StrLess(ks[|ks| - 1], x) && x != ks[|ks| - 1]
  {
    var j :| 0 <= j < |ks| - 1 && ks[..|ks| - 1][j] == x;
    assert ks[j] == x;
  }

  lemma AppendKeepsOrder(names: seq<string>, more: seq<string>, k: string)
    requires SortedBy(names, StrLess) && NoDuplicates(names)
    requires more == [] || more == [k]
    requires forall x | x in names :: !StrLess(k, x) && x != k
    ensures SortedBy(names + more, StrLess) && NoDuplicates(names + more)
  {
  }
}
