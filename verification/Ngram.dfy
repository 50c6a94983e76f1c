/** The watchdog's loop detectors. */
module Ngram {
  import opened Text

  const WINDOW := 2000

  function Effective(value: int, atMost: int, fallback: nat): int {
    if value <= atMost then fallback else value
  }

  /** At least the last 2000 words are kept. */
  function Tail(words: seq<string>): seq<string> {
    if |words| > WINDOW then words[|words| - WINDOW..] else words
  }

  /** `length + n` words from `i` repeat with period `n`. */
  ghost predicate Repeats(words: seq<string>, i: nat, n: nat, length: nat)
    requires i + length + n <= |words|
  {
    forall j :: i <= j < i + length ==> words[j] == words[j + n]
  }

  /** The stretch of `r` blocks of `n` words from `i` repeats with period `n`. */
  ghost predicate Periodic(words: seq<string>, i: nat, n: nat, r: nat)
    requires r > 0 && i + n * r <= |words|
  {
    Within(n, r);
    Repeats(words, i, n, n * (r - 1))
  }

  lemma Within(n: nat, r: nat)
    requires r > 0
    ensures n * (r - 1) + n == n * r
  {
  }

  ghost predicate HasLoop(words: seq<string>, n: nat, r: nat)
    requires r > 0
  {
    exists i: nat :: i + n * r <= |words| && Periodic(words, i, n, r)
  }

  /** Comparing joined blocks is comparing words. */
  lemma BlocksEqual(words: seq<string>, a: nat, b: nat, n: nat)
    requires AreWords(words) && a + n <= |words| && b + n <= |words|
    ensures Join(words[a..a + n]) == Join(words[b..b + n]) <==> words[a..a + n] == words[b..b + n]
  {
    var u, v := words[a..a + n], words[b..b + n];
    assert forall k :: 0 <= k < n ==> u[k] == words[a + k] && v[k] == words[b + k];
    if Join(u) == Join(v) {
      JoinInjective(u, v);
    }
  }

  /** One more block: the stretch stays periodic exactly when the block equals the one before it. */
  lemma RepeatsStep(words: seq<string>, i: nat, n: nat, length: nat)
    requires i + length + n + n <= |words|
    ensures Repeats(words, i, n, length + n)
       <==> && Repeats(words, i, n, length)
            && words[i + length..i + length + n] == words[i + length + n..i + length + n + n]
  {
    var last, next := words[i + length..i + length + n], words[i + length + n..i + length + n + n];
    assert forall t :: 0 <= t < n ==> last[t] == words[i + length + t] && next[t] == words[i + length + n + t];
    if Repeats(words, i, n, length) && last == next {
      forall j | i <= j < i + length + n ensures words[j] == words[j + n] {
        if j >= i + length {
          assert last[j - (i + length)] == next[j - (i + length)];
        }
      }
    }
    if Repeats(words, i, n, length + n) {
      forall t | 0 <= t < n ensures last[t] == next[t] {
        assert words[i + length + t] == words[i + length + t + n];
      }
    }
  }

  lemma Monotone(n: nat, a: nat, b: nat)
    requires a <= b
    ensures n * a <= n * b
  {
  }

  /** Where the k-th block lies. */
  lemma BlockBounds(i: nat, n: nat, k: nat, r: nat)
    requires 0 < k < r
    ensures i + k * n == i + n * (k - 1) + n && n * (k - 1) + n == n * k && n * k <= n * (r - 1)
  {
    Monotone(n, k, r - 1);
  }

  /** Periodic so far, and the last block is the first one again. */
  ghost predicate Lined(words: seq<string>, i: nat, n: nat, length: nat)
    requires i + length + n <= |words|
  {
    Repeats(words, i, n, length) && words[i + length..i + length + n] == words[i..i + n]
  }

  lemma LinedStep(words: seq<string>, i: nat, n: nat, length: nat, next: nat)
    requires next == i + length + n && next + n <= |words| && Lined(words, i, n, length)
    ensures words[i..i + n] == words[next..next + n] ==> Lined(words, i, n, length + n)
    ensures words[i..i + n] != words[next..next + n] ==> !Repeats(words, i, n, length + n)
  {
    RepeatsStep(words, i, n, length);
  }

  /** A block that differs from the one before it breaks every longer stretch. */
  lemma BrokenStretch(words: seq<string>, i: nat, n: nat, length: nat, longer: nat)
    requires length <= longer && i + longer + n <= |words| && !Repeats(words, i, n, length)
    ensures !Repeats(words, i, n, longer)
  {
  }

  /** Does the stretch at `i` repeat? Blocks are compared with the first one, one by one. */
  method RepeatsAt(words: seq<string>, i: nat, n: nat, r: nat) returns (loop: bool)
    requires AreWords(words) && r > 0 && i + n * r <= |words|
    ensures loop <==> Periodic(words, i, n, r)
  {
    Within(n, r);
    loop := BlocksRepeat(words, i, n, r, n * (r - 1));
  }

  method BlocksRepeat(words: seq<string>, i: nat, n: nat, r: nat, ghost goal: nat) returns (loop: bool)
    requires AreWords(words) && r > 0 && goal == n * (r - 1) && i + goal + n <= |words|
    ensures loop <==> Repeats(words, i, n, goal)
  {
    var target := Join(words[i..i + n]);
    var k := 1;
    ghost var length := 0;
    while k < r
      invariant 1 <= k <= r && length == n * (k - 1) && length <= goal
      invariant Lined(words, i, n, length)
    {
      BlockBounds(i, n, k, r);
      var nextStart := i + k * n;
      var same := SameBlock(words, i, nextStart, n, target);
      LinedStep(words, i, n, length, nextStart);
      if !same {
        BrokenStretch(words, i, n, length + n, goal);
        return false;
      }
      k, length := k + 1, length + n;
    }
    return true;
  }

  method SameBlock(words: seq<string>, a: nat, b: nat, n: nat, target: string) returns (same: bool)
    requires AreWords(words) && a + n <= |words| && b + n <= |words| && target == Join(words[a..a + n])
    ensures same <==> words[a..a + n] == words[b..b + n]
  {
    var candidate := Join(words[b..b + n]);
    BlocksEqual(words, a, b, n);
    return candidate == target;
  }

  method FindLoop(words: seq<string>, n: nat, r: nat) returns (loop: bool)
    requires AreWords(words) && r > 0
    ensures loop <==> HasLoop(words, n, r)
  {
    var need := n * r;
    if |words| < need {
      return false;
    }
    var i := 0;
    while i <= |words| - need
      invariant 0 <= i <= |words| - need + 1
      invariant forall j: nat :: j < i ==> !Periodic(words, j, n, r)
    {
      var found := RepeatsAt(words, i, n, r);
      if found {
        return true;
      }
      i := i + 1;
    }
    return false;
  }

  /** True exactly when the last 2000 words contain a stretch of n * repeatThreshold words with
      period n (with the defaults 8 and 4 for out-of-range arguments). */
  method DetectNgramLoop(text: string, n: int, repeatThreshold: int) returns (loop: bool)
    ensures loop <==> HasLoop(Tail(Fields(text)), Effective(n, 0, 8), Effective(repeatThreshold, 1, 4))
  {
    var size: nat := if n <= 0 then 8 else n;
    var times: nat := if repeatThreshold <= 1 then 4 else repeatThreshold;
    var words := Fields(text);
    FieldsAreWords("", text);
    if |words| > WINDOW {
      words := words[|words| - WINDOW..];
    }
    loop := FindLoop(words, size, times);
  }

  /** The last `n` entries are the same. */
  ghost predicate LastAlike(history: seq<string>, n: nat)
    requires 0 < n <= |history|
  {
    forall i | |history| - n <= i < |history| :: history[i] == history[|history| - 1]
  }

  /** Flags a loop exactly when the last `threshold` calls (3 for out-of-range values) are alike. */
  method CheckCallLoop(history: seq<string>, threshold: int) returns (isLoop: bool)
    ensures var t := Effective(threshold, 1, 3); isLoop <==> t <= |history| && LastAlike(history, t)
  {
    var t := if threshold <= 1 then 3 else threshold;
    if |history| < t {
      return false;
    }
    var last := history[|history| - 1];
    var count := 0;
    var i := |history| - 1;
    while i >= 0
      invariant -1 <= i < |history| && count == |history| - 1 - i
      invariant forall j | i < j < |history| :: history[j] == last
    {
      if history[i] != last {
        break;
      }
      count := count + 1;
      i := i - 1;
    }
    isLoop := count >= t;
  }
}
