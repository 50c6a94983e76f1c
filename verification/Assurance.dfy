/** Re-deriving evidence on a computed graph: a qualified resolution raises a claim to E2, the
    ceiling of (host, concept) then caps it, and a confirmation survives only at E3 or above. */
module Assurance {
  import opened Ordering
  import opened Candidates
  import opened MergeOperators
  import opened EffectiveGraph

  datatype Ceiling = Ceiling(host: string, concept: string, level: Level)

  /** The committed table, its documentation columns left out. */
  const CEILINGS := [
    Ceiling("codex", "instruction", E2),
    Ceiling("codex", "skill", E1),
    Ceiling("codex", "mcp_server", E1),
    Ceiling("claude-code", "instruction", E1),
    Ceiling("claude-code", "skill", E1),
    Ceiling("claude-code", "mcp_server", E1),
    Ceiling("pi", "instruction", E2),
    Ceiling("pi", "skill", E1),
    Ceiling("pi", "mcp_server", E1),
    Ceiling("codex", "host", E3),
    Ceiling("claude-code", "host", E3),
    Ceiling("pi", "host", E3)
  ]

  predicate Covers(c: Ceiling, host: string, concept: string) {
    c.host == host && c.concept == concept
  }

  /** The first row for the cell; a cell without one is capped at E1. */
  function CapOf(ceilings: seq<Ceiling>, host: string, concept: string): Level {
    if ceilings == [] then E1
    else if Covers(ceilings[0], host, concept) then ceilings[0].level
    else CapOf(ceilings[1..], host, concept)
  }

  method CeilingFor(ceilings: seq<Ceiling>, host: string, concept: string) returns (r: Option<Level>)
    ensures r.None? <==> forall i :: 0 <= i < |ceilings| ==> !Covers(ceilings[i], host, concept)
    ensures CapOf(ceilings, host, concept) == if r.Some? then r.value else E1
  {
    for i := 0 to |ceilings|
      invariant forall j :: 0 <= j < i ==> !Covers(ceilings[j], host, concept)
      invariant CapOf(ceilings, host, concept) == CapOf(ceilings[i..], host, concept)
    {
      assert ceilings[i..][1..] == ceilings[i + 1..];
      if Covers(ceilings[i], host, concept) {
        return Some(ceilings[i].level);
      }
    }
    return None;
  }

  /* ---- one entry, one conflict ---- */

  /** An operator really ran, and the capability backs it. */
  predicate ResolutionRan(e: Entry, capability: Capability) {
    capability.Qualified() && e.program != "" && e.operator.Some? && e.operator.value != OtherOperator("")
  }

  function Raised(e: Entry, capability: Capability): Level {
    if ResolutionRan(e, capability) && E2.Rank() > e.level.Rank() then E2 else e.level
  }

  function Clamp(level: Level, cap: Level): Level {
    if level.Rank() > cap.Rank() then cap else level
  }

  function VerifyEntry(host: string, e: Entry, capability: Capability, ceilings: seq<Ceiling>): Entry {
    var level := Clamp(Raised(e, capability), CapOf(ceilings, host, e.concept));
    e.(level := level, confirmed := e.confirmed && Confirms(level))
  }

  function VerifyConflict(host: string, c: Conflict, ceilings: seq<Ceiling>): Conflict {
    c.(level := Clamp(c.level, CapOf(ceilings, host, c.concept)))
  }

  /* ---- the graph ---- */

  ghost predicate Verified(host: string, g: Graph, k: Knowledge, ceilings: seq<Ceiling>, out: Graph) {
    && out == g.(entries := out.entries, conflicts := out.conflicts)
    && |out.entries| == |g.entries| && |out.conflicts| == |g.conflicts|
    && (forall i :: 0 <= i < |g.entries| ==>
          out.entries[i] == VerifyEntry(host, g.entries[i], k.CapabilityOf(g.entries[i].concept), ceilings))
    && (forall i :: 0 <= i < |g.conflicts| ==> out.conflicts[i] == VerifyConflict(host, g.conflicts[i], ceilings))
  }

  method VerifyGraphWithCeilings(host: string, g: Graph, k: Knowledge, ceilings: seq<Ceiling>) returns (out: Graph)
    ensures Verified(host, g, k, ceilings, out)
  {
    var entries: seq<Entry> := [];
    for i := 0 to |g.entries|
      invariant |entries| == i
      invariant forall j :: 0 <= j < i ==>
                  entries[j] == VerifyEntry(host, g.entries[j], k.CapabilityOf(g.entries[j].concept), ceilings)
    {
      var e := g.entries[i];
      var ceiling := CeilingFor(ceilings, host, e.concept);
      var level := Clamp(Raised(e, k.CapabilityOf(e.concept)), if ceiling.Some? then ceiling.value else E1);
      entries := entries + [e.(level := level, confirmed := e.confirmed && Confirms(level))];
    }
    var conflicts: seq<Conflict> := [];
    for i := 0 to |g.conflicts|
      invariant |conflicts| == i
      invariant forall j :: 0 <= j < i ==> conflicts[j] == VerifyConflict(host, g.conflicts[j], ceilings)
    {
      var c := g.conflicts[i];
      var ceiling := CeilingFor(ceilings, host, c.concept);
      conflicts := conflicts + [c.(level := Clamp(c.level, if ceiling.Some? then ceiling.value else E1))];
    }
    return g.(entries := entries, conflicts := conflicts);
  }

  /* ---- laws ---- */

  /** Clamping after raising settles in one pass. */
  lemma EntryIdempotent(host: string, e: Entry, capability: Capability, ceilings: seq<Ceiling>)
    ensures var v := VerifyEntry(host, e, capability, ceilings); VerifyEntry(host, v, capability, ceilings) == v
  {
  }

  /** Verifying a verified graph changes nothing. */
  lemma VerifyIdempotent(host: string, g: Graph, k: Knowledge, ceilings: seq<Ceiling>, once: Graph, twice: Graph)
    requires Verified(host, g, k, ceilings, once) && Verified(host, once, k, ceilings, twice)
    ensures twice == once
  {
    forall i | 0 <= i < |once.entries| ensures twice.entries[i] == once.entries[i] {
      EntryIdempotent(host, g.entries[i], k.CapabilityOf(g.entries[i].concept), ceilings);
    }
    assert twice.entries == once.entries;
    forall i | 0 <= i < |once.conflicts| ensures twice.conflicts[i] == once.conflicts[i] {
      assert once.conflicts[i] == VerifyConflict(host, g.conflicts[i], ceilings);
    }
    assert twice.conflicts == once.conflicts;
  }

  ghost predicate CapsBelow(host: string, low: seq<Ceiling>, high: seq<Ceiling>) {
    forall concept :: CapOf(low, host, concept).Rank() <= CapOf(high, host, concept).Rank()
  }

  /** Raising ceilings never lowers a level or loses a confirmation. */
  lemma VerifyMonotone(host: string, g: Graph, k: Knowledge, low: seq<Ceiling>, high: seq<Ceiling>, a: Graph, b: Graph)
    requires CapsBelow(host, low, high) && Verified(host, g, k, low, a) && Verified(host, g, k, high, b)
    ensures forall i :: 0 <= i < |a.entries| ==>
              a.entries[i].level.Rank() <= b.entries[i].level.Rank()
                && (a.entries[i].confirmed ==> b.entries[i].confirmed)
    ensures forall i :: 0 <= i < |a.conflicts| ==> a.conflicts[i].level.Rank() <= b.conflicts[i].level.Rank()
  {
    forall i | 0 <= i < |a.entries|
      ensures a.entries[i].level.Rank() <= b.entries[i].level.Rank()
                && (a.entries[i].confirmed ==> b.entries[i].confirmed)
    {
      assert CapOf(low, host, g.entries[i].concept).Rank() <= CapOf(high, host, g.entries[i].concept).Rank();
    }
    forall i | 0 <= i < |a.conflicts| ensures a.conflicts[i].level.Rank() <= b.conflicts[i].level.Rank() {
      assert CapOf(low, host, g.conflicts[i].concept).Rank() <= CapOf(high, host, g.conflicts[i].concept).Rank();
    }
  }

  /** No claim exceeds its cell's cap, confirmations are only lost and need E3, and nothing but
      level and confirmation moves. */
  lemma VerifyBounds(host: string, g: Graph, k: Knowledge, ceilings: seq<Ceiling>, out: Graph, i: nat)
    requires Verified(host, g, k, ceilings, out) && i < |g.entries|
    ensures var e, v := g.entries[i], out.entries[i];
            && v.level.Rank() <= CapOf(ceilings, host, e.concept).Rank()
            && (v.confirmed ==> e.confirmed && v.level.Rank() >= E3.Rank())
            && v == e.(level := v.level, confirmed := v.confirmed)
  {
  }

  /** The same for conflicts: capped, never raised, and nothing but the level moves. */
  lemma ConflictBounds(host: string, g: Graph, k: Knowledge, ceilings: seq<Ceiling>, out: Graph, i: nat)
    requires Verified(host, g, k, ceilings, out) && i < |g.conflicts|
    ensures var c, v := g.conflicts[i], out.conflicts[i];
            && v.level.Rank() == (if c.level.Rank() > CapOf(ceilings, host, c.concept).Rank()
                                  then CapOf(ceilings, host, c.concept).Rank() else c.level.Rank())
            && v == c.(level := v.level)
  {
    assert out.conflicts[i] == VerifyConflict(host, g.conflicts[i], ceilings);
  }

  /** A level only rises to E2, only after a qualified resolution, and never past the cap. */
  lemma VerifyRaises(host: string, g: Graph, k: Knowledge, ceilings: seq<Ceiling>, out: Graph, i: nat)
    requires Verified(host, g, k, ceilings, out) && i < |g.entries|
    requires out.entries[i].level.Rank() > g.entries[i].level.Rank()
    ensures ResolutionRan(g.entries[i], k.CapabilityOf(g.entries[i].concept))
    ensures g.entries[i].level.Rank() < out.entries[i].level.Rank() <= E2.Rank()
  {
    assert out.entries[i] == VerifyEntry(host, g.entries[i], k.CapabilityOf(g.entries[i].concept), ceilings);
  }

  lemma {:induction false} CapFromRow(ceilings: seq<Ceiling>, host: string, concept: string)
    ensures CapOf(ceilings, host, concept) == E1
         || exists c :: c in ceilings && Covers(c, host, concept) && c.level == CapOf(ceilings, host, concept)
  {
    if ceilings != [] && !Covers(ceilings[0], host, concept) {
      CapFromRow(ceilings[1..], host, concept);
    }
  }

  /** Under the committed table nothing but a claim about a host binary can stay confirmed: every
      entry about an instruction, a skill or a server is at E2 or below and unconfirmed. */
  lemma NothingConfirmedToday(host: string, g: Graph, k: Knowledge, out: Graph, i: nat)
    requires Verified(host, g, k, CEILINGS, out) && i < |g.entries| && g.entries[i].concept != "host"
    ensures !out.entries[i].confirmed && out.entries[i].level.Rank() <= E2.Rank()
  {
    var concept := g.entries[i].concept;
    CapFromRow(CEILINGS, host, concept);
    CommittedRows(concept);
    assert out.entries[i] == VerifyEntry(host, g.entries[i], k.CapabilityOf(concept), CEILINGS);
  }

  lemma CommittedRows(concept: string)
    requires concept != "host"
    ensures forall c :: c in CEILINGS && c.concept == concept ==> c.level.Rank() <= E2.Rank()
  {
  }

  /** Under the committed table. */
  method VerifyGraph(host: string, g: Graph, k: Knowledge) returns (out: Graph)
    ensures Verified(host, g, k, CEILINGS, out)
    ensures forall e | e in out.entries && e.concept != "host" :: !e.confirmed && e.level.Rank() <= E2.Rank()
  {
    out := VerifyGraphWithCeilings(host, g, k, CEILINGS);
    forall e | e in out.entries && e.concept != "host" ensures !e.confirmed && e.level.Rank() <= E2.Rank() {
      var i :| 0 <= i < |out.entries| && out.entries[i] == e;
      assert e.concept == g.entries[i].concept;
      NothingConfirmedToday(host, g, k, out, i);
    }
  }
}
