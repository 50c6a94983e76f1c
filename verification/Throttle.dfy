/** The worker pool's rate limiter: a token bucket whose callers sleep while holding its lock.
    Time is real-valued; calls are serialized by the lock, which is held through the sleep. */
module Throttle {

  datatype Params = Params(capacity: real, rate: real) {
    /** At least one token fits, and a whole token refills in less than two seconds. */
    predicate Sane() {
      capacity >= 1.0 && rate > 0.5
    }
  }

  const POOL := Params(50.0, 50.0)
  const MAX_WAIT := 2.0

  datatype Bucket = Bucket(tokens: real, lastRefill: real)

  /** One call: when it got the lock and when it returned. */
  datatype Call = Call(enter: real, leave: real)

  /** Tokens earned in a stretch of time. */
  function Credit(p: Params, time: real): real {
    time * p.rate
  }

  function Refilled(p: Params, b: Bucket, now: real): real {
    var t := b.tokens + Credit(p, now - b.lastRefill);
    if t > p.capacity then p.capacity else t
  }

  function WaitTime(p: Params, tokens: real): real
    requires p.Sane()
  {
    (1.0 - tokens) / p.rate
  }

  predicate Sleeps(p: Params, b: Bucket, now: real)
    requires p.Sane()
  {
    var t := Refilled(p, b, now);
    t < 1.0 && 0.0 < WaitTime(p, t) < MAX_WAIT
  }

  /** How long a call entering at `now` sleeps before it returns. */
  function Pause(p: Params, b: Bucket, now: real): real
    requires p.Sane()
  {
    if Sleeps(p, b, now) then WaitTime(p, Refilled(p, b, now)) else 0.0
  }

  function After(p: Params, b: Bucket, now: real): Bucket
    requires p.Sane()
  {
    Bucket(if Sleeps(p, b, now) then 0.0 else Refilled(p, b, now) - 1.0, now)
  }

  /** Calls one after the other: each enters once the lock is free, and returns no sooner than
      its sleep allows. `free` is when the lock is next available. */
  predicate IsRun(p: Params, b: Bucket, free: real, calls: seq<Call>)
    requires p.Sane()
    decreases |calls|
  {
    calls == [] ||
    (&& free <= calls[0].enter
     && calls[0].enter + Pause(p, b, calls[0].enter) <= calls[0].leave
     && IsRun(p, After(p, b, calls[0].enter), calls[0].leave, calls[1..]))
  }

  function Final(p: Params, b: Bucket, calls: seq<Call>): Bucket
    requires p.Sane()
    decreases |calls|
  {
    if calls == [] then b else Final(p, After(p, b, calls[0].enter), calls[1..])
  }

  function Free(free: real, calls: seq<Call>): real {
    if calls == [] then free else calls[|calls| - 1].leave
  }

  ghost predicate Valid(p: Params, b: Bucket, free: real) {
    0.0 <= b.tokens <= p.capacity && b.lastRefill <= free
  }

  lemma RefillBounds(p: Params, b: Bucket, now: real)
    requires p.Sane() && Valid(p, b, now)
    ensures 0.0 <= Refilled(p, b, now) <= p.capacity
    ensures Refilled(p, b, now) <= b.tokens + Credit(p, now - b.lastRefill)
    ensures Refilled(p, b, now) < 1.0 ==> Sleeps(p, b, now)
  {
    CreditMonotone(p, 0.0, now - b.lastRefill);
    var t := Refilled(p, b, now);
    if t < 1.0 {
      WaitBounds(p, t);
    }
  }

  lemma WaitBounds(p: Params, t: real)
    requires p.Sane() && 0.0 <= t < 1.0
    ensures 0.0 < WaitTime(p, t) < MAX_WAIT && Credit(p, WaitTime(p, t)) == 1.0 - t
  {
    var w := WaitTime(p, t);
    assert w * p.rate == 1.0 - t;
    assert w <= 0.0 ==> w * p.rate <= 0.0;
    assert w >= MAX_WAIT ==> w * p.rate >= MAX_WAIT * p.rate;
  }

  /** One call keeps the tokens in range, so the branch for waits of two seconds or more is dead:
      a call short of a token always sleeps. */
  lemma CallKeepsValid(p: Params, b: Bucket, now: real, leave: real)
    requires p.Sane() && Valid(p, b, now) && now + Pause(p, b, now) <= leave
    ensures Valid(p, After(p, b, now), leave)
    ensures Refilled(p, b, now) < 1.0 ==> Sleeps(p, b, now)
  {
    RefillBounds(p, b, now);
  }

  /** Every state of every run has its tokens in [0, capacity]. */
  lemma {:induction false} RunKeepsValid(p: Params, b: Bucket, free: real, calls: seq<Call>)
    requires p.Sane() && Valid(p, b, free) && IsRun(p, b, free, calls)
    ensures Valid(p, Final(p, b, calls), Free(free, calls))
    decreases |calls|
  {
    if calls != [] {
      CallKeepsValid(p, b, calls[0].enter, calls[0].leave);
      RunKeepsValid(p, After(p, b, calls[0].enter), calls[0].leave, calls[1..]);
    }
  }

  lemma {:induction false} AdmissionsFrom(p: Params, b: Bucket, free: real, calls: seq<Call>)
    requires p.Sane() && Valid(p, b, free) && IsRun(p, b, free, calls) && calls != []
    ensures calls[0].enter <= Free(free, calls)
    ensures |calls| as real <= Refilled(p, b, calls[0].enter) + 2.0 * Credit(p, Free(free, calls) - calls[0].enter)
    decreases |calls|
  {
    var c, rest := calls[0], calls[1..];
    var t, leave := Refilled(p, b, c.enter), Free(free, calls);
    CallKeepsValid(p, b, c.enter, c.leave);
    RefillBounds(p, b, c.enter);
    var next := if rest == [] then c.leave else rest[0].enter;
    if t < 1.0 {
      WaitBounds(p, t);
      CreditMonotone(p, WaitTime(p, t), next - c.enter);
    }
    CreditMonotone(p, 0.0, next - c.enter);
    CreditAdds(p, next - c.enter, leave - next);
    if rest != [] {
      AdmissionsFrom(p, After(p, b, c.enter), c.leave, rest);
      RefillBounds(p, After(p, b, c.enter), next);
      assert Free(c.leave, rest) == leave;
    }
    CreditMonotone(p, 0.0, leave - next);
  }

  lemma CreditMonotone(p: Params, x: real, y: real)
    requires p.Sane() && x <= y
    ensures Credit(p, x) <= Credit(p, y) && (x >= 0.0 ==> Credit(p, x) >= 0.0)
  {
  }

  lemma CreditAdds(p: Params, x: real, y: real)
    ensures Credit(p, x) + Credit(p, y) == Credit(p, x + y)
  {
  }

  /** The rate limit: at most capacity + 2 * rate * T calls are admitted in any stretch of
      length T, measured from the first one's entry to the last one's return. */
  lemma {:induction false} AdmissionBound(p: Params, b: Bucket, free: real, calls: seq<Call>, i: nat, j: nat)
    requires p.Sane() && Valid(p, b, free) && IsRun(p, b, free, calls) && i <= j < |calls|
    ensures (j - i + 1) as real <= p.capacity + 2.0 * Credit(p, calls[j].leave - calls[i].enter)
    decreases i
  {
    var c := calls[0];
    if i > 0 {
      CallKeepsValid(p, b, c.enter, c.leave);
      AdmissionBound(p, After(p, b, c.enter), c.leave, calls[1..], i - 1, j - 1);
    } else {
      RunPrefix(p, b, free, calls, j + 1);
      AdmissionsFrom(p, b, free, calls[..j + 1]);
      RefillBounds(p, b, c.enter);
    }
  }

  lemma {:induction false} RunPrefix(p: Params, b: Bucket, free: real, calls: seq<Call>, n: nat)
    requires p.Sane() && IsRun(p, b, free, calls) && n <= |calls|
    ensures IsRun(p, b, free, calls[..n])
    decreases n
  {
    if n > 0 {
      RunPrefix(p, After(p, b, calls[0].enter), calls[0].leave, calls[1..], n - 1);
      assert calls[..n][1..] == calls[1..][..n - 1];
    }
  }

  /* ---- where every call's token comes from ---- */

  /** Credit that a full bucket turns away when a call refills it. */
  function Clip(p: Params, b: Bucket, now: real): real {
    b.tokens + Credit(p, now - b.lastRefill) - Refilled(p, b, now)
  }

  function Clipped(p: Params, b: Bucket, calls: seq<Call>): real
    requires p.Sane()
    decreases |calls|
  {
    if calls == [] then 0.0 else Clip(p, b, calls[0].enter) + Clipped(p, After(p, b, calls[0].enter), calls[1..])
  }

  /** All pauses together. */
  function Slept(p: Params, b: Bucket, calls: seq<Call>): real
    requires p.Sane()
    decreases |calls|
  {
    if calls == [] then 0.0 else Pause(p, b, calls[0].enter) + Slept(p, After(p, b, calls[0].enter), calls[1..])
  }

  lemma OneCallBalances(p: Params, b: Bucket, now: real)
    requires p.Sane() && Valid(p, b, now)
    ensures 1.0 + After(p, b, now).tokens + Clip(p, b, now)
              == b.tokens + Credit(p, now - b.lastRefill) + Credit(p, Pause(p, b, now))
    ensures Clip(p, b, now) >= 0.0 && Pause(p, b, now) >= 0.0
  {
    RefillBounds(p, b, now);
    if Refilled(p, b, now) < 1.0 {
      WaitBounds(p, Refilled(p, b, now));
    } else {
      assert Credit(p, 0.0) == 0.0;
    }
  }

  /** Conservation: the tokens at the start, the time that passed and the time slept pay for the calls, the
      tokens left and the credit turned away, to the last fraction. */
  lemma {:induction false} TokensConserved(p: Params, b: Bucket, free: real, calls: seq<Call>)
    requires p.Sane() && Valid(p, b, free) && IsRun(p, b, free, calls)
    ensures |calls| as real + Final(p, b, calls).tokens + Clipped(p, b, calls)
         == b.tokens + Credit(p, Final(p, b, calls).lastRefill - b.lastRefill) + Credit(p, Slept(p, b, calls))
    ensures Clipped(p, b, calls) >= 0.0 && Slept(p, b, calls) >= 0.0
    decreases |calls|
  {
    if calls == [] {
      assert Credit(p, 0.0) == 0.0;
    } else {
      var now, next, rest := calls[0].enter, After(p, b, calls[0].enter), calls[1..];
      CallKeepsValid(p, b, now, calls[0].leave);
      OneCallBalances(p, b, now);
      TokensConserved(p, next, calls[0].leave, rest);
      CreditAdds(p, now - b.lastRefill, Final(p, next, rest).lastRefill - now);
      CreditAdds(p, Pause(p, b, now), Slept(p, next, rest));
    }
  }

  /** The state in which call `i` finds the bucket. */
  lemma {:induction false} RunSuffix(p: Params, b: Bucket, free: real, calls: seq<Call>, i: nat)
    requires p.Sane() && Valid(p, b, free) && IsRun(p, b, free, calls) && i <= |calls|
    ensures IsRun(p, Final(p, b, calls[..i]), Free(free, calls[..i]), calls[i..])
    ensures Valid(p, Final(p, b, calls[..i]), Free(free, calls[..i]))
    decreases i
  {
    if i > 0 {
      var c := calls[0];
      CallKeepsValid(p, b, c.enter, c.leave);
      RunSuffix(p, After(p, b, c.enter), c.leave, calls[1..], i - 1);
      Unfold(p, b, free, calls, i);
    }
  }

  lemma Unfold(p: Params, b: Bucket, free: real, calls: seq<Call>, i: nat)
    requires p.Sane() && 0 < i <= |calls|
    ensures Final(p, b, calls[..i]) == Final(p, After(p, b, calls[0].enter), calls[1..][..i - 1])
    ensures Free(free, calls[..i]) == Free(calls[0].leave, calls[1..][..i - 1])
    ensures calls[i..] == calls[1..][i - 1..]
  {
    assert calls[..i][1..] == calls[1..][..i - 1];
  }

  lemma {:induction false} LastRefill(p: Params, b: Bucket, calls: seq<Call>)
    requires p.Sane() && calls != []
    ensures Final(p, b, calls).lastRefill == calls[|calls| - 1].enter
    decreases |calls|
  {
    if |calls| > 1 {
      LastRefill(p, After(p, b, calls[0].enter), calls[1..]);
    }
  }

  /** What may cover the credit of sleeps: room in the bucket at the first call, credit turned away since,
      tokens left, and the time from the last call's entry to its return. */
  function Slack(p: Params, b: Bucket, calls: seq<Call>): real
    requires p.Sane() && calls != []
  {
    var last := calls[|calls| - 1];
    p.capacity - Refilled(p, b, calls[0].enter) + Clipped(p, After(p, b, calls[0].enter), calls[1..])
    + Final(p, b, calls).tokens + Credit(p, last.leave - last.enter)
  }

  /** How many calls a run admits, exactly, and when that is within capacity + rate * T: exactly when
      the credit of the sleeps is covered. */
  lemma PlainBoundExact(p: Params, b: Bucket, free: real, calls: seq<Call>)
    requires p.Sane() && Valid(p, b, free) && IsRun(p, b, free, calls) && calls != []
    ensures var time := calls[|calls| - 1].leave - calls[0].enter;
            && |calls| as real == p.capacity + Credit(p, time) + Credit(p, Slept(p, b, calls)) - Slack(p, b, calls)
            && (|calls| as real <= p.capacity + Credit(p, time)
                <==> Credit(p, Slept(p, b, calls)) <= Slack(p, b, calls))
  {
    var first, last := calls[0], calls[|calls| - 1];
    TokensConserved(p, b, free, calls);
    LastRefill(p, b, calls);
    CreditAdds(p, first.enter - b.lastRefill, last.enter - first.enter);
    CreditAdds(p, last.enter - first.enter, last.leave - last.enter);
  }

  /** Any stretch of any run, by the time its calls slept: capacity + rate * (T + slept). Where none but the
      last call sleeps it meets capacity + rate * T. */
  lemma StretchBound(p: Params, b: Bucket, free: real, calls: seq<Call>, i: nat, j: nat)
    requires p.Sane() && Valid(p, b, free) && IsRun(p, b, free, calls) && i <= j < |calls|
    ensures var s, stretch, time := Final(p, b, calls[..i]), calls[i..j + 1], calls[j].leave - calls[i].enter;
            && (j - i + 1) as real <= p.capacity + Credit(p, time) + Credit(p, Slept(p, s, stretch))
            && (Slept(p, s, stretch[..j - i]) == 0.0 ==> (j - i + 1) as real <= p.capacity + Credit(p, time))
  {
    var s, f := Final(p, b, calls[..i]), Free(free, calls[..i]);
    RunSlice(p, b, free, calls, i, j + 1);
    RunBound(p, s, f, calls[i..j + 1]);
  }

  lemma RunSlice(p: Params, b: Bucket, free: real, calls: seq<Call>, i: nat, j: nat)
    requires p.Sane() && Valid(p, b, free) && IsRun(p, b, free, calls) && i <= j <= |calls|
    ensures IsRun(p, Final(p, b, calls[..i]), Free(free, calls[..i]), calls[i..j])
    ensures Valid(p, Final(p, b, calls[..i]), Free(free, calls[..i]))
  {
    RunSuffix(p, b, free, calls, i);
    RunPrefix(p, Final(p, b, calls[..i]), Free(free, calls[..i]), calls[i..], j - i);
    assert calls[i..][..j - i] == calls[i..j];
  }

  lemma RunBound(p: Params, b: Bucket, free: real, calls: seq<Call>)
    requires p.Sane() && Valid(p, b, free) && IsRun(p, b, free, calls) && calls != []
    ensures var n, time := |calls| - 1, calls[|calls| - 1].leave - calls[0].enter;
            && |calls| as real <= p.capacity + Credit(p, time) + Credit(p, Slept(p, b, calls))
            && (Slept(p, b, calls[..n]) == 0.0 ==> |calls| as real <= p.capacity + Credit(p, time))
  {
    SlackCoversLast(p, b, free, calls);
    PlainBoundExact(p, b, free, calls);
  }

  /** The last call's own pause is always covered. */
  lemma SlackCoversLast(p: Params, b: Bucket, free: real, calls: seq<Call>)
    requires p.Sane() && Valid(p, b, free) && IsRun(p, b, free, calls) && calls != []
    ensures 0.0 <= Slack(p, b, calls)
    ensures Slept(p, b, calls[..|calls| - 1]) == 0.0 ==> Credit(p, Slept(p, b, calls)) <= Slack(p, b, calls)
  {
    var n := |calls| - 1;
    SlackCoversTail(p, b, free, calls);
    RunSuffix(p, b, free, calls, n);
    LastPause(p, b, calls);
    var s := Final(p, b, calls[..n]);
    OneCallBalances(p, s, calls[n].enter);
    CreditMonotone(p, 0.0, Pause(p, s, calls[n].enter));
    CreditMonotone(p, Pause(p, s, calls[n].enter), calls[n].leave - calls[n].enter);
  }

  lemma SlackCoversTail(p: Params, b: Bucket, free: real, calls: seq<Call>)
    requires p.Sane() && Valid(p, b, free) && IsRun(p, b, free, calls) && calls != []
    ensures Credit(p, calls[|calls| - 1].leave - calls[|calls| - 1].enter) <= Slack(p, b, calls)
  {
    var first := calls[0];
    CallKeepsValid(p, b, first.enter, first.leave);
    TokensConserved(p, After(p, b, first.enter), first.leave, calls[1..]);
    RunKeepsValid(p, b, free, calls);
    RefillBounds(p, b, first.enter);
  }

  lemma LastPause(p: Params, b: Bucket, calls: seq<Call>)
    requires p.Sane() && calls != []
    ensures var n := |calls| - 1;
            Slept(p, b, calls) == Slept(p, b, calls[..n]) + Pause(p, Final(p, b, calls[..n]), calls[n].enter)
  {
    var n := |calls| - 1;
    SleptSplits(p, b, calls, n);
    assert calls[n..] == [calls[n]] && [calls[n]][1..] == [];
  }

  lemma {:induction false} SleptSplits(p: Params, b: Bucket, calls: seq<Call>, i: nat)
    requires p.Sane() && i <= |calls|
    ensures Slept(p, b, calls) == Slept(p, b, calls[..i]) + Slept(p, Final(p, b, calls[..i]), calls[i..])
    decreases i
  {
    if i > 0 {
      SleptSplits(p, After(p, b, calls[0].enter), calls[1..], i - 1);
      assert calls[..i][1..] == calls[1..][..i - 1];
      assert calls[i..] == calls[1..][i - 1..];
    }
  }

  /* ---- the factor two is real ---- */

  /** `n` calls at one instant. */
  function Burst(n: nat): seq<Call> {
    if n == 0 then [] else [Call(0.0, 0.0)] + Burst(n - 1)
  }

  /** `m` pairs: a call that sleeps 1/50 s, then one that is admitted at once because the
      sleep is credited again. */
  function Pairs(at: real, m: nat): seq<Call>
    decreases m
  {
    if m == 0 then [] else [Call(at, at + 0.02), Call(at + 0.02, at + 0.02)] + Pairs(at + 0.02, m - 1)
  }

  lemma {:induction false} PairsRun(at: real, m: nat)
    ensures IsRun(POOL, Bucket(0.0, at), at, Pairs(at, m)) && |Pairs(at, m)| == 2 * m
    ensures Free(at, Pairs(at, m)) == at + m as real / 50.0
    decreases m
  {
    if m > 0 {
      var rest := Pairs(at + 0.02, m - 1);
      PairsRun(at + 0.02, m - 1);
      PairRun(at, rest);
      FreeAfterPair(at, rest);
    }
  }

  lemma FreeAfterPair(at: real, rest: seq<Call>)
    ensures Free(at, [Call(at, at + 0.02), Call(at + 0.02, at + 0.02)] + rest) == Free(at + 0.02, rest)
  {
  }

  lemma PairRun(at: real, rest: seq<Call>)
    requires IsRun(POOL, Bucket(0.0, at + 0.02), at + 0.02, rest)
    ensures IsRun(POOL, Bucket(0.0, at), at, [Call(at, at + 0.02), Call(at + 0.02, at + 0.02)] + rest)
  {
    var t := at + 0.02;
    assert Pause(POOL, Bucket(0.0, at), at) == 0.02;
    assert After(POOL, Bucket(0.0, at), at) == Bucket(0.0, at);
    AdmittedByCredit(at, rest);
    var calls := [Call(at, t), Call(t, t)] + rest;
    assert calls[1..] == [Call(t, t)] + rest;
  }

  /** The sleep just taken is credited again. */
  lemma AdmittedByCredit(at: real, rest: seq<Call>)
    requires IsRun(POOL, Bucket(0.0, at + 0.02), at + 0.02, rest)
    ensures IsRun(POOL, Bucket(0.0, at), at + 0.02, [Call(at + 0.02, at + 0.02)] + rest)
  {
    var t := at + 0.02;
    assert Refilled(POOL, Bucket(0.0, at), t) == 1.0;
    assert After(POOL, Bucket(0.0, at), t) == Bucket(0.0, t);
    assert ([Call(t, t)] + rest)[1..] == rest;
  }

  lemma {:induction false} BurstRun(p: Params, n: nat, tail: seq<Call>)
    requires p.Sane() && n as real <= p.capacity && IsRun(p, Bucket(0.0, 0.0), 0.0, tail)
    ensures IsRun(p, Bucket(n as real, 0.0), 0.0, Burst(n) + tail) && |Burst(n)| == n
  {
    if n == 0 {
      assert Burst(0) + tail == tail;
    } else {
      BurstRun(p, n - 1, tail);
      assert Burst(n) + tail == [Call(0.0, 0.0)] + (Burst(n - 1) + tail);
      OneAtOnce(p, n as real, Burst(n - 1) + tail);
    }
  }

  /** A call that finds a token is admitted at once. */
  lemma OneAtOnce(p: Params, t: real, rest: seq<Call>)
    requires p.Sane() && 1.0 <= t <= p.capacity && IsRun(p, Bucket(t - 1.0, 0.0), 0.0, rest)
    ensures IsRun(p, Bucket(t, 0.0), 0.0, [Call(0.0, 0.0)] + rest)
  {
    var calls := [Call(0.0, 0.0)] + rest;
    assert Credit(p, 0.0) == 0.0;
    assert calls[1..] == rest;
  }

  /** The bound is met with equality for every length: from a full bucket, 50 + 2m calls return
      within m/50 seconds, so "capacity + rate * T" is not what the limiter enforces. */
  lemma BoundIsTight(n: nat, m: nat)
    requires n as real == POOL.capacity && m > 0
    ensures var calls := Burst(n) + Pairs(0.0, m);
            var T := Free(0.0, calls) - calls[0].enter;
            && IsRun(POOL, Bucket(POOL.capacity, 0.0), 0.0, calls)
            && |calls| as real == POOL.capacity + 2.0 * Credit(POOL, T)
            && |calls| as real > POOL.capacity + Credit(POOL, T)
  {
    TightRun(n, m);
    TightCount(Burst(n) + Pairs(0.0, m), n, m);
  }

  lemma TightRun(n: nat, m: nat)
    requires n as real == POOL.capacity && m > 0
    ensures var calls := Burst(n) + Pairs(0.0, m);
            && IsRun(POOL, Bucket(POOL.capacity, 0.0), 0.0, calls) && |calls| == n + 2 * m
            && calls[0].enter == 0.0 && Free(0.0, calls) == m as real / 50.0
  {
    PairsRun(0.0, m);
    BurstRun(POOL, n, Pairs(0.0, m));
    LastOfConcat(Burst(n), Pairs(0.0, m));
  }

  lemma TightCount(calls: seq<Call>, n: nat, m: nat)
    requires n as real == POOL.capacity && m > 0 && |calls| == n + 2 * m
    requires calls[0].enter == 0.0 && Free(0.0, calls) == m as real / 50.0
    ensures var T := Free(0.0, calls) - calls[0].enter;
            && |calls| as real == POOL.capacity + 2.0 * Credit(POOL, T)
            && |calls| as real > POOL.capacity + Credit(POOL, T)
  {
    CreditOfPairs(m);
  }

  /** The whole run starts at 0 and ends when its last pair does. */
  lemma LastOfConcat(burst: seq<Call>, pairs: seq<Call>)
    requires burst != [] && pairs != []
    ensures (burst + pairs)[0] == burst[0] && Free(0.0, burst + pairs) == Free(0.0, pairs)
  {
  }

  lemma CreditOfPairs(m: nat)
    ensures Credit(POOL, m as real / 50.0) == m as real
  {
  }

  /** The limiter's own fields. `now` is the clock reading under the lock. */
  class Limiter {
    const params: Params
    var tbTokens: real
    var tbLastRefill: real
    var rateLimited: nat

    constructor (now: real)
      ensures params == POOL && tbTokens == 50.0 && tbLastRefill == now && rateLimited == 0
    {
      params, tbTokens, tbLastRefill, rateLimited := POOL, POOL.capacity, now, 0;
    }

    function View(): Bucket
      reads this
    {
      Bucket(tbTokens, tbLastRefill)
    }

    /** Returns how long the caller sleeps before leaving. */
    method ThrottleRateLimit(now: real) returns (sleep: real)
      requires params.Sane()
      modifies this
      ensures View() == After(params, old(View()), now) && sleep == Pause(params, old(View()), now)
      ensures rateLimited == old(rateLimited) + if Refilled(params, old(View()), now) < 1.0 then 1 else 0
    {
      var elapsed := now - tbLastRefill;
      tbLastRefill := now;
      tbTokens := tbTokens + Credit(params, elapsed);
      if tbTokens > params.capacity {
        tbTokens := params.capacity;
      }
      assert tbTokens == Refilled(params, old(View()), now);
      if tbTokens < 1.0 {
        rateLimited := rateLimited + 1;
        var waitTime := (1.0 - tbTokens) / params.rate;
        if waitTime > 0.0 && waitTime < MAX_WAIT {
          sleep := waitTime;
          tbTokens := 0.0;
          return;
        }
      }
      sleep := 0.0;
      tbTokens := tbTokens - 1.0;
    }
  }
}
