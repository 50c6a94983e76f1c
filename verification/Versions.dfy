/** Version ranges and Knowledge Pack resolution. */
module Versions {
  import opened Ordering
  import opened Text
  import opened Buckets

  /** Components fit the platform's 64-bit int, so differences never wrap. */
  const MAX_INT := 0x7FFF_FFFF_FFFF_FFFF

  datatype Semver = Semver(major: nat, minor: nat, patch: nat)

  /* ---- parsing ---- */

  predicate AllDigits(s: string) {
    s != "" && forall i | 0 <= i < |s| :: '0' <= s[i] <= '9'
  }

  function Number(s: string): nat
    requires forall i | 0 <= i < |s| :: '0' <= s[i] <= '9'
  {
    if s == "" then 0 else 10 * Number(s[..|s| - 1]) + (s[|s| - 1] as int - '0' as int)
  }

  function Atoi(s: string): Option<nat> {
    if AllDigits(s) && Number(s) <= MAX_INT then Some(Number(s)) else None
  }

  /** Index of the first character among `chars`, or the length. */
  function IndexAny(s: string, chars: string): (n: nat)
    ensures n <= |s|
  {
    if s == "" || s[0] in chars then 0 else 1 + IndexAny(s[1..], chars)
  }

  /** MAJOR.MINOR.PATCH in plain digits. */
  function ParseCore(s: string): Option<Semver> {
    var i := IndexAny(s, ".");
    if i == |s| then None
    else
      var rest := s[i + 1..];
      var j := IndexAny(rest, ".");
      if j == |rest| then None
      else match (Atoi(s[..i]), Atoi(rest[..j]), Atoi(rest[j + 1..]))
        case (Some(a), Some(b), Some(c)) => Some(Semver(a, b, c))
        case _ => None
  }

  /** The suffix from the first `-` or `+` on is ignored. */
  function ParseSemver(s: string): Option<Semver> {
    var core := TrimSpace(s);
    ParseCore(core[..IndexAny(core, "-+")])
  }

  function Sign(n: int): int {
    if n > 0 then 1 else if n < 0 then -1 else 0
  }

  function Compare(v: Semver, o: Semver): int {
    if v.major != o.major then Sign(v.major - o.major)
    else if v.minor != o.minor then Sign(v.minor - o.minor)
    else Sign(v.patch - o.patch)
  }

  datatype Op = Ge | Le | Gt | Lt | Eq

  datatype Term = Term(op: Op, version: Semver)

  function ParseTerm(f: string): Option<Term> {
    var (op, rest) :=
      if ">=" <= f then (Ge, f[2..])
      else if "<=" <= f then (Le, f[2..])
      else if ">" <= f then (Gt, f[1..])
      else if "<" <= f then (Lt, f[1..])
      else if "=" <= f then (Eq, f[1..])
      else (Eq, f);
    match ParseCore(rest)
    case Some(v) => Some(Term(op, v))
    case None => None
  }

  /** All terms parse, and there is at least one. */
  function ParseTerms(fs: seq<string>): Option<seq<Term>> {
    if fs == [] then Some([])
    else match (ParseTerms(fs[..|fs| - 1]), ParseTerm(fs[|fs| - 1]))
      case (Some(ts), Some(t)) => Some(ts + [t])
      case _ => None
  }

  function ParseRange(expr: string): Option<seq<Term>> {
    if Fields(expr) == [] then None else ParseTerms(Fields(expr))
  }

  predicate Holds(v: Semver, t: Term) {
    match t.op
    case Ge => Compare(v, t.version) >= 0
    case Le => Compare(v, t.version) <= 0
    case Gt => Compare(v, t.version) > 0
    case Lt => Compare(v, t.version) < 0
    case Eq => Compare(v, t.version) == 0
  }

  predicate HoldsAll(v: Semver, ts: seq<Term>) {
    forall i | 0 <= i < |ts| :: Holds(v, ts[i])
  }

  /** None is an error: an unreadable version or range. */
  function Satisfies(version: string, expr: string): Option<bool> {
    match (ParseSemver(version), ParseRange(expr))
    case (Some(v), Some(ts)) => Some(HoldsAll(v, ts))
    case _ => None
  }

  method ParseVersionRange(expr: string) returns (r: Option<seq<Term>>)
    ensures r == ParseRange(expr)
  {
    var fields := Fields(expr);
    if |fields| == 0 {
      return None;
    }
    var terms := [];
    for i := 0 to |fields|
      invariant ParseTerms(fields[..i]) == Some(terms)
    {
      assert fields[..i + 1][..i] == fields[..i];
      var t := ParseTerm(fields[i]);
      if t.None? {
        BadTermSpoils(fields, i);
        return None;
      }
      terms := terms + [t.value];
    }
    assert fields[..|fields|] == fields;
    return Some(terms);
  }

  lemma {:induction false} BadTermSpoils(fs: seq<string>, i: nat)
    requires i < |fs| && ParseTerm(fs[i]).None?
    ensures ParseTerms(fs).None?
  {
    if i < |fs| - 1 {
      BadTermSpoils(fs[..|fs| - 1], i);
    }
  }

  method VersionSatisfiesRange(version: string, expr: string) returns (r: Option<bool>)
    ensures r == Satisfies(version, expr)
  {
    var v := ParseSemver(version);
    if v.None? {
      return None;
    }
    var terms := ParseVersionRange(expr);
    if terms.None? {
      return None;
    }
    for i := 0 to |terms.value|
      invariant forall j | 0 <= j < i :: Holds(v.value, terms.value[j])
    {
      if !Holds(v.value, terms.value[i]) {
        return Some(false);
      }
    }
    return Some(true);
  }

  /* ---- the order and the ranges ---- */

  lemma CompareIsTotalOrder(a: Semver, b: Semver, c: Semver)
    ensures Compare(a, b) == -Compare(b, a)
    ensures Compare(a, b) == 0 <==> a == b
    ensures Compare(a, b) <= 0 && Compare(b, c) <= 0 ==> Compare(a, c) <= 0
    ensures Compare(a, b) <= 0 && Compare(b, c) < 0 ==> Compare(a, c) < 0
    ensures Compare(a, b) < 0 && Compare(b, c) <= 0 ==> Compare(a, c) < 0
  {
  }

  /** Every range is convex: what lies between two satisfying versions satisfies. */
  lemma RangeIsConvex(lo: Semver, v: Semver, hi: Semver, ts: seq<Term>)
    requires Compare(lo, v) <= 0 && Compare(v, hi) <= 0
    requires HoldsAll(lo, ts) && HoldsAll(hi, ts)
    ensures HoldsAll(v, ts)
  {
    forall i | 0 <= i < |ts| ensures Holds(v, ts[i]) {
      assert Holds(lo, ts[i]) && Holds(hi, ts[i]);
      CompareIsTotalOrder(lo, v, ts[i].version);
      CompareIsTotalOrder(ts[i].version, v, hi);
      CompareIsTotalOrder(ts[i].version, lo, v);
      CompareIsTotalOrder(v, hi, ts[i].version);
      CompareIsTotalOrder(lo, hi, v);
    }
  }

  /** A pre-release or build suffix never changes the outcome. */
  lemma SuffixIsIgnored(version: string, sep: char, suffix: string, expr: string)
    requires sep == '-' || sep == '+'
    requires version != "" ==> !IsSpace(version[|version| - 1])
    ensures Satisfies(version + [sep] + suffix, expr) == Satisfies(version, expr)
  {
    var tail := [sep] + suffix;
    assert version + [sep] + suffix == version + tail;
    TrimWithTail(version, tail);
    var core, kept := TrimLeft(version), TrimRight(tail);
    IndexAnyOfConcat(core, kept, "-+");
    if IndexAny(core, "-+") < |core| {
      assert (core + kept)[..IndexAny(core, "-+")] == core[..IndexAny(core, "-+")];
    } else {
      assert (core + kept)[..|core|] == core == core[..|core|];
    }
  }

  lemma TrimWithTail(s: string, tail: string)
    requires s != "" ==> !IsSpace(s[|s| - 1])
    requires tail != "" && !IsSpace(tail[0])
    ensures TrimSpace(s + tail) == TrimLeft(s) + TrimRight(tail) && TrimSpace(s) == TrimLeft(s)
    ensures TrimRight(tail) != "" && TrimRight(tail)[0] == tail[0]
  {
    TrimLeftWithTail(s, tail);
    TrimRightWithHead(TrimLeft(s), tail);
  }

  lemma {:induction false} TrimLeftWithTail(s: string, tail: string)
    requires s != "" ==> !IsSpace(s[|s| - 1])
    requires tail != "" && !IsSpace(tail[0])
    ensures TrimLeft(s + tail) == TrimLeft(s) + tail
    ensures TrimLeft(s) != "" ==> !IsSpace(TrimLeft(s)[|TrimLeft(s)| - 1])
  {
    if s == "" {
      assert s + tail == tail;
    } else if IsSpace(s[0]) {
      assert (s + tail)[1..] == s[1..] + tail;
      TrimLeftWithTail(s[1..], tail);
    }
  }

  lemma {:induction false} TrimRightWithHead(head: string, tail: string)
    requires tail != "" && !IsSpace(tail[0])
    ensures TrimRight(head + tail) == head + TrimRight(tail)
    ensures TrimRight(tail) != "" && TrimRight(tail)[0] == tail[0]
    decreases |tail|
  {
    if IsSpace(tail[|tail| - 1]) {
      assert (head + tail)[..|head + tail| - 1] == head + tail[..|tail| - 1];
      TrimRightWithHead(head, tail[..|tail| - 1]);
    }
  }

  lemma {:induction false} IndexAnyOfConcat(s: string, t: string, chars: string)
    requires t != "" && t[0] in chars
    ensures IndexAny(s + t, chars) == IndexAny(s, chars)
  {
    if s == "" {
      assert s + t == t;
    } else if s[0] !in chars {
      assert (s + t)[1..] == s[1..] + t;
      IndexAnyOfConcat(s[1..], t, chars);
    }
  }

  /* ---- pack resolution ---- */

  datatype Pack = Pack(id: string, host: string, surface: string, range: string)

  datatype Resolution = Qualified(pack: Pack) | Unmatched | Ambiguous(ids: seq<string>)

  predicate Matches(p: Pack, host: string, surface: string, version: string) {
    p.host == host && p.surface == surface && Satisfies(version, p.range) == Some(true)
  }

  function MatchesVersion(host: string, surface: string, version: string): Pack -> bool {
    (p: Pack) => Matches(p, host, surface, version)
  }

  function Matching(packs: seq<Pack>, host: string, surface: string, version: string): seq<Pack> {
    BucketOf(packs, MatchesVersion(host, surface, version), true)
  }

  function IdOf(p: Pack): string {
    p.id
  }

  function Ids(packs: seq<Pack>): seq<string> {
    Project(packs, IdOf)
  }

  function Resolved(packs: seq<Pack>, host: string, surface: string, version: string): Resolution {
    var m := Matching(packs, host, surface, version);
    if m == [] then Unmatched
    else if |m| == 1 then Qualified(m[0])
    else Ambiguous(Sort(Ids(m), StrLess))
  }

  method Resolve(packs: seq<Pack>, host: string, surface: string, version: string) returns (r: Resolution)
    ensures r == Resolved(packs, host, surface, version)
  {
    var candidates: seq<Pack> := [];
    for i := 0 to |packs|
      invariant candidates == Matching(packs[..i], host, surface, version)
    {
      BucketSnoc(packs, i, MatchesVersion(host, surface, version), true);
      var p := packs[i];
      if p.host != host || p.surface != surface {
        continue;
      }
      var ok := VersionSatisfiesRange(version, p.range);
      if ok.None? || !ok.value {
        continue;
      }
      candidates := candidates + [p];
    }
    assert packs[..|packs|] == packs;
    if |candidates| == 0 {
      return Unmatched;
    }
    if |candidates| == 1 {
      return Qualified(candidates[0]);
    }
    return Ambiguous(Sort(Ids(candidates), StrLess));
  }

  lemma MatchingMultiset(packs: seq<Pack>, host: string, surface: string, version: string, p: Pack)
    ensures multiset(Matching(packs, host, surface, version))[p]
         == if Matches(p, host, surface, version) then multiset(packs)[p] else 0
  {
    BucketMultiset(packs, MatchesVersion(host, surface, version), true, p);
  }

  /** Qualified exactly when one listed pack matches and no other does. */
  lemma QualifiedIffUnique(packs: seq<Pack>, host: string, surface: string, version: string, p: Pack)
    ensures Resolved(packs, host, surface, version) == Qualified(p)
       <==> Matches(p, host, surface, version) && multiset(packs)[p] == 1
            && forall q | q in packs && Matches(q, host, surface, version) :: q == p
  {
    var m := Matching(packs, host, surface, version);
    MatchingMultiset(packs, host, surface, version, p);
    if |m| == 1 {
      assert m == [m[0]];
      forall q | q in packs && Matches(q, host, surface, version) ensures q == m[0] {
        MatchingMultiset(packs, host, surface, version, q);
        assert multiset(packs)[q] > 0;
        assert q in multiset(m);
      }
    }
    if multiset(m)[p] == 1 && forall q | q in packs && Matches(q, host, surface, version) :: q == p {
      forall q | q in m ensures q == p {
        MatchingMultiset(packs, host, surface, version, q);
        assert q in multiset(m);
        assert q in multiset(packs);
      }
      AllSame(m, p);
    }
  }

  lemma {:induction false} AllSame(m: seq<Pack>, p: Pack)
    requires forall q | q in m :: q == p
    ensures multiset(m)[p] == |m|
  {
    if m != [] {
      assert m == [m[0]] + m[1..];
      forall q | q in m[1..] ensures q == p {
        assert q in m;
      }
      AllSame(m[1..], p);
      assert m[0] in m;
    }
  }

  /** The order packs were loaded in does not matter. */
  lemma ResolveIgnoresPackOrder(packs: seq<Pack>, others: seq<Pack>, host: string, surface: string, version: string)
    requires multiset(packs) == multiset(others)
    ensures Resolved(packs, host, surface, version) == Resolved(others, host, surface, version)
  {
    var m, n := Matching(packs, host, surface, version), Matching(others, host, surface, version);
    forall p ensures multiset(m)[p] == multiset(n)[p] {
      MatchingMultiset(packs, host, surface, version, p);
      MatchingMultiset(others, host, surface, version, p);
    }
    assert multiset(m) == multiset(n);
    assert |multiset(m)| == |m| && |multiset(n)| == |n|;
    if |m| == 1 {
      assert m[0] in multiset(n);
      assert n == [n[0]];
    }
    ProjectPermutation(m, n, IdOf);
    StringOrder();
    forall i, j | 0 <= i < |Ids(m)| && 0 <= j < |Ids(m)| && !StrLess(Ids(m)[i], Ids(m)[j])
      && !StrLess(Ids(m)[j], Ids(m)[i])
      ensures Ids(m)[i] == Ids(m)[j]
    {
      StrTotal(Ids(m)[i], Ids(m)[j]);
    }
    SortPermutation(Ids(m), Ids(n), StrLess);
  }

  /** No version satisfies the ranges of two different packs of one host and surface. */
  ghost predicate Disjoint(packs: seq<Pack>) {
    forall i, j, version | 0 <= i < j < |packs| && packs[i].host == packs[j].host
      && packs[i].surface == packs[j].surface ::
      !(Satisfies(version, packs[i].range) == Some(true) && Satisfies(version, packs[j].range) == Some(true))
  }

  /** Packs with pairwise disjoint ranges are never ambiguous. */
  lemma DisjointNeverAmbiguous(packs: seq<Pack>, host: string, surface: string, version: string)
    requires Disjoint(packs)
    ensures !Resolved(packs, host, surface, version).Ambiguous?
  {
    AtMostOne(packs, host, surface, version);
  }

  lemma {:induction false} AtMostOne(packs: seq<Pack>, host: string, surface: string, version: string)
    requires Disjoint(packs)
    ensures |Matching(packs, host, surface, version)| <= 1
    ensures (exists i :: 0 <= i < |packs| && Matches(packs[i], host, surface, version))
       <==> |Matching(packs, host, surface, version)| == 1
  {
    if packs != [] {
      var p := packs[..|packs| - 1];
      assert forall i :: 0 <= i < |p| ==> p[i] == packs[i];
      AtMostOne(p, host, surface, version);
      if Matches(packs[|packs| - 1], host, surface, version) {
        assert forall i :: 0 <= i < |p| ==> !Matches(p[i], host, surface, version);
      }
    }
  }
}
