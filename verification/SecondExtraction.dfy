/** Candidates are extracted again after the graph has been computed. Their tables are the observations' own,
    so what is read then is what deciding has left of them. */
module SecondExtraction {
  import opened Ordering
  import opened Buckets
  import opened DeepMerge
  import opened SharedTables
  import opened Candidates
  import opened MergeOperators
  import opened MergeLaws
  import opened Identity
  import opened Duplicates
  import opened EffectiveGraph
  import opened GraphLaws
  import opened GraphUniqueness

  /** Where there is structure the digest is that of the table. */
  ghost predicate Digested(s: seq<Candidate>, digest: Fields -> string) {
    forall c | c in s && c.fields.Some? :: c.digest == digest(c.fields.value)
  }

  /** What is read of a candidate whose table is as it was left. */
  function Reread(c: Candidate, left: seq<Candidate>, digest: Fields -> string): Candidate {
    var now := NowIn(left, c).fields;
    if now.Some? then c.(fields := now, digest := digest(now.value)) else c
  }

  function RereadBy(left: seq<Candidate>, digest: Fields -> string): Candidate -> Candidate {
    (c: Candidate) => Reread(c, left, digest)
  }

  /** The observation, its tables as they were left. */
  function Afterwards(left: seq<Candidate>, digest: Fields -> string): Observation -> Observation {
    (o: Observation) =>
      if o.extracted.Some? then o.(extracted := Some(Project(o.extracted.value, RereadBy(left, digest)))) else o
  }

  /** The candidates of the second extraction. */
  function SecondRead(s: seq<Observation>, left: seq<Candidate>, digest: Fields -> string): seq<Candidate> {
    Canonical(Project(s, Afterwards(left, digest)))
  }

  /* ---- the same candidates in the same order ---- */

  lemma {:induction false} InsertCommutes<T(!new)>(x: T, s: seq<T>, f: T -> T, less: (T, T) -> bool)
    requires forall a, b :: less(f(a), f(b)) == less(a, b)
    ensures Insert(f(x), Project(s, f), less) == Project(Insert(x, s, less), f)
  {
    if s != [] && less(s[0], x) {
      InsertCommutes(x, s[1..], f, less);
      assert Project(s, f)[1..] == Project(s[1..], f);
    }
  }

  lemma {:induction false} SortCommutes<T(!new)>(s: seq<T>, f: T -> T, less: (T, T) -> bool)
    requires forall a, b :: less(f(a), f(b)) == less(a, b)
    ensures Sort(Project(s, f), less) == Project(Sort(s, less), f)
  {
    if s != [] {
      SortCommutes(s[1..], f, less);
      assert Project(s, f)[1..] == Project(s[1..], f);
      InsertCommutes(s[0], Sort(s[1..], less), f, less);
    }
  }

  lemma {:induction false} YieldAfterwards(s: seq<Observation>, left: seq<Candidate>, digest: Fields -> string)
    ensures Flat(Project(s, Afterwards(left, digest)), Yield) == Project(Flat(s, Yield), RereadBy(left, digest))
  {
    if s != [] {
      var p, o := s[..|s| - 1], s[|s| - 1];
      YieldAfterwards(p, left, digest);
      assert Project(s, Afterwards(left, digest))[..|p|] == Project(p, Afterwards(left, digest));
      ProjectAppend(Flat(p, Yield), Yield(o), RereadBy(left, digest));
    }
  }

  /** The second extraction finds the same candidates in the same order, with the tables they were left. */
  lemma SecondReadExact(s: seq<Observation>, left: seq<Candidate>, digest: Fields -> string)
    ensures SecondRead(s, left, digest) == Project(Canonical(s), RereadBy(left, digest))
  {
    YieldAfterwards(s, left, digest);
    SortCommutes(Flat(s, Yield), RereadBy(left, digest), ByIdentity());
  }

  /* ---- when it reads what the first one read ---- */

  /** However tables are iterated, the second extraction reads what the first one read. */
  ghost predicate ReadsTheSame(host: string, version: string, s: seq<Observation>, k: Knowledge, opts: Options,
                               extra: seq<ToolSource>, digest: Fields -> string) {
    forall g, left | Gives(g, left, host, version, Canonical(s), k, opts, extra) ::
      SecondRead(s, left, digest) == Canonical(s)
  }

  /** It does exactly when deciding leaves every group's candidates as they were read. */
  lemma SecondExtractionExact(host: string, version: string, s: seq<Observation>, k: Knowledge, opts: Options,
                              extra: seq<ToolSource>, digest: Fields -> string)
    requires DistinctRefs(Flat(s, Yield)) && Digested(Flat(s, Yield), digest)
    ensures ReadsTheSame(host, version, s, k, opts, extra, digest) <==> AllUntouched(Canonical(s), k, opts)
  {
    CanonicalExact(s);
    SameMembers(Flat(s, Yield), Canonical(s));
    if AllUntouched(Canonical(s), k, opts) {
      forall g, left | Gives(g, left, host, version, Canonical(s), k, opts, extra)
        ensures SecondRead(s, left, digest) == Canonical(s)
      {
        UntouchedReadsSame(g, left, host, version, s, k, opts, extra, digest);
      }
    } else {
      var g :| g in Groups(Canonical(s)) && !Composes(k, g.concept)
               && !Untouched(g, k.programs, k.CapabilityOf(g.concept), opts);
      var graph, left := TouchedReadsOther(g, host, version, s, k, opts, extra, digest);
    }
  }

  ghost predicate AllUntouched(s: seq<Candidate>, k: Knowledge, opts: Options) {
    forall g | g in Groups(s) && !Composes(k, g.concept) :: Untouched(g, k.programs, k.CapabilityOf(g.concept), opts)
  }

  lemma UntouchedReadsSame(g: Graph, left: seq<Candidate>, host: string, version: string, s: seq<Observation>,
                           k: Knowledge, opts: Options, extra: seq<ToolSource>, digest: Fields -> string)
    requires DistinctRefs(Canonical(s)) && Digested(Canonical(s), digest) && AllUntouched(Canonical(s), k, opts)
    requires Gives(g, left, host, version, Canonical(s), k, opts, extra)
    ensures SecondRead(s, left, digest) == Canonical(s)
  {
    var all := Canonical(s);
    var ds :| SettlesAll(ds, Tasks(Groups(all), k), k, opts) && left == LeftAfter(ds);
    SecondReadExact(s, left, digest);
    forall j | 0 <= j < |all| ensures Reread(all[j], left, digest) == all[j] {
      StillThere(all, ds, k, opts, all[j]);
    }
  }

  lemma StillThere(all: seq<Candidate>, ds: seq<Decision>, k: Knowledge, opts: Options, c: Candidate)
    requires DistinctRefs(all) && AllUntouched(all, k, opts) && c in all
    requires SettlesAll(ds, Tasks(Groups(all), k), k, opts)
    ensures NowIn(LeftAfter(ds), c) == c
  {
    var i := CandidateTask(all, k, c);
    var t := Tasks(Groups(all), k)[i];
    assert Settles(ds[i], t, k, opts);
    assert ds[i].left == TaskMembers(t);
    FlatMembers(ds, LeftIn, c);
    assert ds[i] in ds && c in LeftIn(ds[i]);
    NowInMember(LeftAfter(ds), c, c);
    LeftDistinct(all, ds, k, opts);
    SameRefSame(LeftAfter(ds), NowIn(LeftAfter(ds), c), c);
  }

  lemma TouchedReadsOther(g: Group, host: string, version: string, s: seq<Observation>, k: Knowledge, opts: Options,
                          extra: seq<ToolSource>, digest: Fields -> string)
    returns (graph: Graph, left: seq<Candidate>)
    requires DistinctRefs(Canonical(s)) && g in Groups(Canonical(s)) && !Composes(k, g.concept)
    requires !Untouched(g, k.programs, k.CapabilityOf(g.concept), opts)
    ensures Gives(graph, left, host, version, Canonical(s), k, opts, extra)
    ensures SecondRead(s, left, digest) != Canonical(s)
  {
    var all := Canonical(s);
    var d :| Possible(d, g, k.programs, k.CapabilityOf(g.concept), opts) && d.left != g.candidates;
    var j := Touched(d, g, k, opts);
    var c := g.candidates[j];
    var ds;
    graph, ds := GraphAt(host, version, all, k, opts, extra, g, d);
    left := LeftAfter(ds);
    GroupRefsDistinct(all);
    LeftInGroup(all, ds, k, opts, g, d, j);
    SecondReadExact(s, left, digest);
    var l := MemberAt(all, g, j);
    assert SecondRead(s, left, digest)[l] == Reread(c, left, digest);
  }

  /** A decision that writes into a candidate leaves it structured. */
  lemma Touched(d: Decision, g: Group, k: Knowledge, opts: Options) returns (j: nat)
    requires Possible(d, g, k.programs, k.CapabilityOf(g.concept), opts) && d.left != g.candidates
    ensures |d.left| == |g.candidates| && j < |d.left|
    ensures d.left[j].ref == g.candidates[j].ref && d.left[j].fields.Some?
    ensures d.left[j].fields != g.candidates[j].fields
  {
    assert SameSources(d.left, g.candidates);
    j :| 0 <= j < |d.left| && d.left[j] != g.candidates[j];
  }

  lemma GraphAt(host: string, version: string, all: seq<Candidate>, k: Knowledge, opts: Options, extra: seq<ToolSource>,
                g: Group, d: Decision)
    returns (graph: Graph, ds: seq<Decision>)
    requires g in Groups(all) && !Composes(k, g.concept)
    requires Possible(d, g, k.programs, k.CapabilityOf(g.concept), opts)
    ensures SettlesAll(ds, Tasks(Groups(all), k), k, opts) && d in ds
    ensures Gives(graph, LeftAfter(ds), host, version, all, k, opts, extra)
  {
    var i := TaskAt(all, k, g);
    var a, b, es;
    a, b, ds, es := GraphsAt(host, version, all, k, opts, extra, i, d, d);
    graph := GraphWith(host, version, all, k, opts, extra, ds);
  }

  lemma LeftInGroup(all: seq<Candidate>, ds: seq<Decision>, k: Knowledge, opts: Options, g: Group, d: Decision, j: nat)
    requires DistinctRefs(all) && SettlesAll(ds, Tasks(Groups(all), k), k, opts) && d in ds
    requires j < |d.left| == |g.candidates| && d.left[j].ref == g.candidates[j].ref
    ensures NowIn(LeftAfter(ds), g.candidates[j]) == d.left[j]
  {
    var left, c, x := LeftAfter(ds), g.candidates[j], d.left[j];
    FlatMembers(ds, LeftIn, x);
    assert x in LeftIn(d);
    NowInMember(left, c, x);
    LeftDistinct(all, ds, k, opts);
    SameRefSame(left, NowIn(left, c), x);
  }

  lemma MemberAt(all: seq<Candidate>, g: Group, j: nat) returns (l: nat)
    requires g in Groups(all) && j < |g.candidates|
    ensures l < |all| && all[l] == g.candidates[j]
  {
    GroupsPartition(all);
    FlatMembers(Groups(all), Members, g.candidates[j]);
    assert g.candidates[j] in Members(g);
    SameMembers(Flat(Groups(all), Members), all);
    l :| 0 <= l < |all| && all[l] == g.candidates[j];
  }

  /** Where deep merges have two contents the second extraction reads what the first one read exactly when
      none of them adds anything below a subtable of the other. */
  lemma SecondExtractionOfTwo(host: string, version: string, s: seq<Observation>, k: Knowledge, opts: Options,
                              extra: seq<ToolSource>, digest: Fields -> string)
    requires DistinctRefs(Flat(s, Yield)) && Digested(Flat(s, Yield), digest)
    requires forall g | Iterated(Canonical(s), k, g) :: |Merged(g, opts)| == 2
    ensures ReadsTheSame(host, version, s, k, opts, extra, digest)
       <==> forall g | Iterated(Canonical(s), k, g) :: AddsNothing(Merged(g, opts)[0].fields, Merged(g, opts)[1].fields)
  {
    var all := Canonical(s);
    CanonicalExact(s);
    GroupRefsDistinct(all);
    SecondExtractionExact(host, version, s, k, opts, extra, digest);
    forall g | g in Groups(all) && !Composes(k, g.concept)
      ensures Untouched(g, k.programs, k.CapabilityOf(g.concept), opts)
         <==> (Iterated(all, k, g) ==> AddsNothing(Merged(g, opts)[0].fields, Merged(g, opts)[1].fields))
    {
      GroupUntouched(all, g, k, opts);
    }
    forall g | Iterated(all, k, g) ensures !Composes(k, g.concept) {
    }
  }

  lemma GroupUntouched(all: seq<Candidate>, g: Group, k: Knowledge, opts: Options)
    requires g in Groups(all) && DistinctRefs(g.candidates)
    requires Iterated(all, k, g) ==> |Merged(g, opts)| == 2
    ensures Untouched(g, k.programs, k.CapabilityOf(g.concept), opts)
       <==> (Iterated(all, k, g) ==> AddsNothing(Merged(g, opts)[0].fields, Merged(g, opts)[1].fields))
  {
    if Iterated(all, k, g) {
      var m := Merged(g, opts);
      assert m == [m[0], m[1]];
      TwoUntouchedExact(g, k.programs, k.CapabilityOf(g.concept), opts, m[0], m[1]);
    } else {
      NoMergeUntouched(g, k.programs, k.CapabilityOf(g.concept), opts);
    }
  }

  lemma NoMergeUntouched(g: Group, programs: seq<Program>, capability: Capability, opts: Options)
    requires !RunsMerge(g, programs, capability)
    ensures Untouched(g, programs, capability, opts)
  {
  }
}
