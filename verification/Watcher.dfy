/** The session watcher: per profile, file changes are debounced, with a maximum wait, into runs
    of the distiller. Times are clock readings; 0 is the zero time and means "not pending". */
module Watcher {
  import opened Ordering
  import opened Buckets

  datatype Windows = Windows(debounce: int, maxWait: int)

  datatype WatchState = WatchState(lastKnown: int, pendingSince: int, firstSince: int, runs: nat)

  /** One poll of one profile: the clock, and the newest modification time found. */
  datatype Poll = Poll(now: int, mtime: int)

  predicate Observes(st: WatchState, p: Poll) {
    p.mtime > st.lastKnown
  }

  function Noted(st: WatchState, p: Poll): WatchState {
    if Observes(st, p) then
      st.(lastKnown := p.mtime, pendingSince := p.now, firstSince := if st.firstSince
        == 0 then p.now else st.firstSince)
    else
      st
  }

  predicate Triggers(w: Windows, st: WatchState, p: Poll) {
    var n := Noted(st, p);
    || (n.pendingSince != 0 && p.now - n.pendingSince >= w.debounce)
    || (n.firstSince != 0 && p.now - n.firstSince >= w.maxWait)
  }

  function Polled(w: Windows, st: WatchState, p: Poll): WatchState {
    if Triggers(w, st, p) then Noted(st, p).(pendingSince := 0, firstSince := 0, runs := st.runs + 1)
    else Noted(st, p)
  }

  /** The state before poll `i`. */
  function Before(w: Windows, st: WatchState, polls: seq<Poll>, i: nat): WatchState
    requires i <= |polls|
  {
    if i == 0 then st else Polled(w, Before(w, st, polls, i - 1), polls[i - 1])
  }

  predicate Writes(w: Windows, st: WatchState, polls: seq<Poll>, i: nat)
    requires i < |polls|
  {
    Observes(Before(w, st, polls, i), polls[i])
  }

  predicate Runs(w: Windows, st: WatchState, polls: seq<Poll>, i: nat)
    requires i < |polls|
  {
    Triggers(w, Before(w, st, polls, i), polls[i])
  }

  /** A wall clock that does not go back. */
  predicate Clock(polls: seq<Poll>) {
    && (forall i | 0 <= i < |polls| :: polls[i].now > 0)
    && (forall i, j | 0 <= i < j < |polls| :: polls[i].now <= polls[j].now)
  }

  ghost predicate Idle(st: WatchState) {
    st.pendingSince == 0 && st.firstSince == 0
  }

  /** The write seen by poll `k` has not been covered by any poll before `i`. */
  ghost predicate Uncovered(w: Windows, st: WatchState, polls: seq<Poll>, k: nat, i: nat)
    requires k < i <= |polls|
  {
    Writes(w, st, polls, k) && forall r | k <= r < i :: !Runs(w, st, polls, r)
  }

  /** A state is idle, or its marks enclose the times of all uncovered writes. */
  ghost predicate Consistent(w: Windows, st: WatchState, polls: seq<Poll>, i: nat)
    requires i <= |polls|
  {
    var b := Before(w, st, polls, i);
    && (b.firstSince == 0 <==> b.pendingSince == 0)
    && 0 <= b.firstSince
    && (b.firstSince == 0 || (i > 0 && b.firstSince <= polls[i - 1].now))
    && forall k | 0 <= k < i && Uncovered(w, st, polls, k, i) :: 0 < b.firstSince <= polls[k].now <= b.pendingSince
  }

  lemma {:induction false} StatesConsistent(w: Windows, st: WatchState, polls: seq<Poll>, i: nat)
    requires Clock(polls) && i <= |polls| && Idle(st)
    ensures Consistent(w, st, polls, i)
  {
    if i > 0 {
      StatesConsistent(w, st, polls, i - 1);
      var a, b := Before(w, st, polls, i - 1), Before(w, st, polls, i);
      assert i > 1 ==> polls[i - 2].now <= polls[i - 1].now;
      forall k | 0 <= k < i && Uncovered(w, st, polls, k, i)
        ensures 0 < b.firstSince <= polls[k].now <= b.pendingSince
      {
        StillEnclosed(w, st, polls, k, i);
      }
    }
  }

  lemma StillEnclosed(w: Windows, st: WatchState, polls: seq<Poll>, k: nat, i: nat)
    requires Clock(polls) && k < i <= |polls| && Consistent(w, st, polls, i - 1) && Uncovered(w, st, polls, k, i)
    ensures var b := Before(w, st, polls, i); 0 < b.firstSince <= polls[k].now <= b.pendingSince
  {
    assert !Runs(w, st, polls, i - 1);
    assert Before(w, st, polls, i) == Noted(Before(w, st, polls, i - 1), polls[i - 1]);
    if k < i - 1 {
      assert Uncovered(w, st, polls, k, i - 1);
      assert polls[k].now <= polls[i - 1].now;
    }
  }

  /** Every observed write is covered by a run no later than the first poll at or after
      observation time + maxWait. */
  lemma WriteIsCovered(w: Windows, st: WatchState, polls: seq<Poll>, i: nat, j: nat)
    requires Clock(polls) && Idle(st) && i <= j < |polls|
    requires Writes(w, st, polls, i) && polls[j].now >= polls[i].now + w.maxWait
    ensures exists k :: i <= k <= j && Runs(w, st, polls, k)
  {
    if forall k | i <= k < j :: !Runs(w, st, polls, k) {
      StatesConsistent(w, st, polls, j);
      assert i < j ==> Uncovered(w, st, polls, i, j);
      assert Runs(w, st, polls, j);
    }
  }

  lemma {:induction false} StaysIdle(w: Windows, st: WatchState, polls: seq<Poll>, i: nat, j: nat)
    requires i <= j <= |polls| && Idle(Before(w, st, polls, i))
    requires forall k | i <= k < j :: !Writes(w, st, polls, k)
    ensures Idle(Before(w, st, polls, j)) && forall k | i <= k < j :: !Runs(w, st, polls, k)
    ensures Before(w, st, polls, j) == Before(w, st, polls, i)
    decreases j
  {
    if i < j {
      StaysIdle(w, st, polls, i, j - 1);
      assert !Writes(w, st, polls, j - 1);
    }
  }

  /** Between two runs of a profile there is an observed write. */
  lemma RunsNeedWrites(w: Windows, st: WatchState, polls: seq<Poll>, i: nat, j: nat)
    requires i < j < |polls| && Runs(w, st, polls, i) && Runs(w, st, polls, j)
    ensures exists k :: i < k <= j && Writes(w, st, polls, k)
  {
    if forall k | i + 1 <= k < j :: !Writes(w, st, polls, k) {
      StaysIdle(w, st, polls, i + 1, j);
      assert Writes(w, st, polls, j);
    }
  }

  /** A lone write waits for whichever window ends first. */
  function Shorter(w: Windows): int {
    if w.debounce < w.maxWait then w.debounce else w.maxWait
  }

  /** A single write followed by silence gives exactly one run, once a poll comes late enough,
      and none before. */
  lemma {:induction false} SingleWrite(w: Windows, st: WatchState, polls: seq<Poll>, n: nat)
    requires Clock(polls) && Idle(st) && 0 < n <= |polls|
    requires Writes(w, st, polls, 0) && forall k | 0 < k < n :: !Writes(w, st, polls, k)
    ensures var due := exists k :: 0 <= k < n && polls[k].now >= polls[0].now + Shorter(w);
            && Before(w, st, polls, n).runs == st.runs + (if due then 1 else 0)
            && (due ==> Idle(Before(w, st, polls, n)))
            && (!due ==> Before(w, st, polls, n).firstSince == Before(w, st, polls, n).pendingSince == polls[0].now)
  {
    if n == 1 {
      assert Before(w, st, polls, 0) == st;
    } else {
      SingleWrite(w, st, polls, n - 1);
      assert !Writes(w, st, polls, n - 1);
      var wait := Shorter(w);
      if k :| 0 <= k < n && polls[k].now >= polls[0].now + wait {
        assert polls[n - 1].now >= polls[0].now + wait;
      }
    }
  }

  /** A run is never early: the last write seen is a debounce old, or the oldest a maxWait. */
  lemma RunsAreDue(w: Windows, st: WatchState, polls: seq<Poll>, i: nat, k: nat)
    requires Clock(polls) && Idle(st) && i <= k < |polls| && Writes(w, st, polls, i) && Runs(w, st, polls, k)
    requires forall r | i <= r < k :: !Runs(w, st, polls, r)
    ensures polls[k].now - polls[i].now >= w.debounce
         || exists o :: 0 <= o <= k && Writes(w, st, polls, o) && polls[k].now - polls[o].now >= w.maxWait
  {
    StatesConsistent(w, st, polls, k);
    assert i < k ==> Uncovered(w, st, polls, i, k);
    FirstIsAWrite(w, st, polls, k);
    var n := Noted(Before(w, st, polls, k), polls[k]);
    if polls[k].now - n.firstSince >= w.maxWait {
      if Before(w, st, polls, k).firstSince == 0 {
        assert Writes(w, st, polls, k);
      }
    }
  }

  lemma {:induction false} FirstIsAWrite(w: Windows, st: WatchState, polls: seq<Poll>, i: nat)
    requires Clock(polls) && Idle(st) && i <= |polls|
    ensures var f := Before(w, st, polls, i).firstSince;
            f != 0 ==> exists o :: 0 <= o < i && Writes(w, st, polls, o) && polls[o].now == f
  {
    if i > 0 {
      FirstIsAWrite(w, st, polls, i - 1);
      var f := Before(w, st, polls, i).firstSince;
      if f != 0 && Before(w, st, polls, i - 1).firstSince == 0 {
        assert Writes(w, st, polls, i - 1);
      }
    }
  }

  /* ---- the worker ---- */

  class SessionWatcher {
    const windows: Windows
    var profiles: Option<set<string>>
    var states: map<string, WatchState>

    constructor (windows: Windows, profiles: Option<set<string>>)
      ensures this.windows == windows && this.profiles == profiles && states == map[]
    {
      this.windows, this.profiles, states := windows, profiles, map[];
    }

    /** A profile's state once its baseline is taken. */
    function Baselined(p: string, baseline: map<string, int>): WatchState
      requires p in baseline
      reads this
    {
      if p in states then states[p] else WatchState(baseline[p], 0, 0, 0)
    }

    method InitBaselines(baseline: map<string, int>)
      requires profiles.Some? && profiles.value <= baseline.Keys
      modifies this`states
      ensures states.Keys == old(states.Keys) + profiles.value
      ensures forall p | p in profiles.value :: states[p] == old(Baselined(p, baseline))
      ensures forall p | p in old(states.Keys) :: states[p] == old(states[p])
    {
      var todo := profiles.value;
      while todo != {}
        invariant todo <= profiles.value
        invariant states.Keys == old(states.Keys) + (profiles.value - todo)
        invariant forall p | p in old(states.Keys) :: states[p] == old(states[p])
        invariant forall p | p in profiles.value - todo :: states[p] == old(Baselined(p, baseline))
      {
        var p :| p in todo;
        todo := todo - {p};
        if p !in states {
          states := states[p := WatchState(baseline[p], 0, 0, 0)];
        }
      }
    }

    /** One poll of every configured profile, in name order. `baseline` and `current` are the
        newest modification times found by the two walks over each profile's paths. Each
        profile's next state is a function of its own state and its own files only. */
    method PollOnce(now: int, baseline: map<string, int>, current: map<string, int>) returns (triggered: seq<string>)
      requires profiles.Some? ==> profiles.value <= baseline.Keys && profiles.value <= current.Keys
      modifies this`states
      ensures profiles.None? ==> states == old(states) && triggered == []
      ensures profiles.Some? ==> states.Keys == old(states.Keys) + profiles.value
      ensures profiles.Some? ==> forall p | p in profiles.value ::
                states[p] == Polled(windows, old(Baselined(p, baseline)), Poll(now, current[p]))
      ensures profiles.Some? ==> forall p | p in old(states.Keys) && p !in profiles.value :: states[p] == old(states[p])
      ensures profiles.Some? ==> forall p :: p in triggered <==>
                p in profiles.value && Triggers(windows, old(Baselined(p, baseline)), Poll(now, current[p]))
      ensures forall i, j :: 0 <= i < j < |triggered| ==> StrLess(triggered[i], triggered[j])
    {
      triggered := [];
      if profiles.None? {
        return;
      }
      InitBaselines(baseline);
      var names := SortedNames(profiles.value);
      ghost var s0 := states;
      triggered := PollProfiles(names, now, current);
      FiringExact(windows, names, s0, now, current);
    }

    method PollProfiles(names: seq<string>, now: int, current: map<string, int>) returns (triggered: seq<string>)
      requires NoDuplicates(names) && forall p | p in names :: p in states && p in current
      modifies this`states
      ensures states.Keys == old(states.Keys)
      ensures forall p | p in states :: states[p] ==
                if p in names then Polled(windows, old(states[p]), Poll(now, current[p])) else old(states[p])
      ensures triggered == Firing(windows, names, old(states), now, current)
    {
      triggered := [];
      for n := 0 to |names|
        invariant states.Keys == old(states.Keys)
        invariant forall p | p in states :: states[p] ==
                    if p in names[..n] then Polled(windows, old(states[p]), Poll(now, current[p])) else old(states[p])
        invariant triggered == Firing(windows, names[..n], old(states), now, current)
      {
        var name := names[n];
        assert names[..n + 1] == names[..n] + [name] && name !in names[..n];
        var st, trigger := PollProfile(windows, states[name], now, current[name]);
        if trigger {
          triggered := triggered + [name];
        }
        states := states[name := st];
      }
      assert names[..|names|] == names;
    }
  }

  /** The names whose profile runs, in the order given. */
  function Firing(w: Windows, names: seq<string>, s0: map<string, WatchState>, now: int, current: map<string, int>)
    : seq<string>
    requires forall p | p in names :: p in s0 && p in current
  {
    if names == [] then []
    else
      var rest, p := names[..|names| - 1], names[|names| - 1];
      Firing(w, rest, s0, now, current) + if Triggers(w, s0[p], Poll(now, current[p])) then [p] else []
  }

  lemma {:induction false} FiringExact(w: Windows, names: seq<string>, s0: map<string, WatchState>, now: int,
                                       current: map<string, int>)
    requires forall p | p in names :: p in s0 && p in current
    requires forall i, j :: 0 <= i < j < |names| ==> StrLess(names[i], names[j])
    ensures var r := Firing(w, names, s0, now, current);
            && (forall p :: p in r <==> p in names && Triggers(w, s0[p], Poll(now, current[p])))
            && forall i, j :: 0 <= i < j < |r| ==> StrLess(r[i], r[j])
  {
    if names != [] {
      var rest, p := names[..|names| - 1], names[|names| - 1];
      FiringExact(w, rest, s0, now, current);
      var r := Firing(w, rest, s0, now, current);
      assert names == rest + [p];
      forall i | 0 <= i < |r| ensures StrLess(r[i], p) {
        assert r[i] in rest;
      }
    }
  }

  /** The body of the poll loop for one profile. */
  method PollProfile(w: Windows, before: WatchState, now: int, mtime: int) returns (st: WatchState, trigger: bool)
    ensures st == Polled(w, before, Poll(now, mtime)) && trigger == Triggers(w, before, Poll(now, mtime))
  {
    st, trigger := before, false;
    if mtime > st.lastKnown {
      st := st.(lastKnown := mtime);
      if st.firstSince == 0 {
        st := st.(firstSince := now);
      }
      st := st.(pendingSince := now);
    }
    if st.pendingSince != 0 && now - st.pendingSince >= w.debounce {
      trigger := true;
    } else if st.firstSince != 0 && now - st.firstSince >= w.maxWait {
      trigger := true;
    }
    if trigger {
      st := st.(pendingSince := 0, firstSince := 0, runs := st.runs + 1);
    }
  }

  method SortedNames(names: set<string>) returns (r: seq<string>)
    ensures NoDuplicates(r) && forall p :: p in r <==> p in names
    ensures forall i, j :: 0 <= i < j < |r| ==> StrLess(r[i], r[j])
  {
    var todo, s: seq<string> := names, [];
    while todo != {}
      invariant todo <= names && NoDuplicates(s)
      invariant forall p :: p in s <==> p in names - todo
    {
      var p :| p in todo;
      assert p !in s;
      todo := todo - {p};
      s := s + [p];
    }
    StringOrder();
    r := SortSlice(s, StrLess);
    SameMembers(r, s);
    NoDuplicatesPermutation(s, r);
    forall i, j | 0 <= i < j < |r| ensures StrLess(r[i], r[j]) {
      StrTotal(r[i], r[j]);
    }
  }
}
