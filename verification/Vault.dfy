/** ExpandEnv: one left-to-right pass over the bytes of a template. Byte-wise character classes are
    exact; UTF-8 decoding and the Unicode tables behind `${name}` validity are parameters. */
module Vault {

  type Byte = b: int | 0 <= b < 256
  type Bytes = seq<Byte>

  const DOLLAR: Byte := 36
  const OPEN: Byte := 123
  const CLOSE: Byte := 125
  const UNDERSCORE: Byte := 95

  datatype Unicode = Unicode(letter: int -> bool, digit: int -> bool, decode: Bytes -> seq<int>)

  datatype Env = Env(file: map<Bytes, Bytes>, process: map<Bytes, Bytes>)

  const NO_ENV := Env(map[], map[])

  function LookupEnv(name: Bytes, env: Env): Bytes {
    if name in env.file then env.file[name]
    else if name in env.process then env.process[name]
    else []
  }

  /** A single byte read as a code point below 256. */
  predicate IsAlphaOrUnderscore(b: Byte) {
    || 65 <= b <= 90 || 97 <= b <= 122 || b == UNDERSCORE
    || b == 0xAA || b == 0xB5 || b == 0xBA || 0xC0 <= b <= 0xD6 || 0xD8 <= b <= 0xF6 || 0xF8 <= b
  }

  predicate IsAlnumOrUnderscore(b: Byte) {
    IsAlphaOrUnderscore(b) || 48 <= b <= 57
  }

  predicate ValidName(u: Unicode, name: Bytes) {
    var rs := u.decode(name);
    && name != []
    && (rs != [] ==> u.letter(rs[0]) || rs[0] == UNDERSCORE)
    && forall i | 1 <= i < |rs| :: u.letter(rs[i]) || u.digit(rs[i]) || rs[i] == UNDERSCORE
  }

  method IsValidEnvName(u: Unicode, name: Bytes) returns (ok: bool)
    ensures ok == ValidName(u, name)
  {
    if |name| == 0 {
      return false;
    }
    var rs := u.decode(name);
    for i := 0 to |rs|
      invariant i > 0 ==> u.letter(rs[0]) || rs[0] == UNDERSCORE
      invariant forall j | 1 <= j < i :: u.letter(rs[j]) || u.digit(rs[j]) || rs[j] == UNDERSCORE
    {
      if i == 0 {
        if !(u.letter(rs[i]) || rs[i] == UNDERSCORE) {
          return false;
        }
      } else if !(u.letter(rs[i]) || u.digit(rs[i]) || rs[i] == UNDERSCORE) {
        return false;
      }
    }
    return true;
  }

  /* ---- tokens ---- */

  datatype Token = Literal(b: Byte) | Escape | Braced(name: Bytes) | Bare(name: Bytes)

  function Spelling(t: Token): Bytes {
    match t
    case Literal(b) => [b]
    case Escape => [DOLLAR, DOLLAR]
    case Braced(name) => [DOLLAR, OPEN] + name + [CLOSE]
    case Bare(name) => [DOLLAR] + name
  }

  function Meaning(t: Token, env: Env): Bytes {
    match t
    case Literal(b) => [b]
    case Escape => [DOLLAR]
    case Braced(name) => LookupEnv(name, env)
    case Bare(name) => LookupEnv(name, env)
  }

  /** Number of bytes before the first `}`, or the whole length without one. */
  function UpToClose(s: Bytes): (n: nat)
    ensures n <= |s|
  {
    if s == [] || s[0] == CLOSE then 0 else 1 + UpToClose(s[1..])
  }

  function NameRun(s: Bytes): (n: nat)
    ensures n <= |s|
  {
    if s == [] || !IsAlnumOrUnderscore(s[0]) then 0 else 1 + NameRun(s[1..])
  }

  /** The token a non-empty text starts with. */
  function First(u: Unicode, s: Bytes): Token
    requires s != []
  {
    if s[0] != DOLLAR || |s| == 1 then Literal(s[0])
    else if s[1] == DOLLAR then Escape
    else if s[1] == OPEN then
      var n := UpToClose(s[2..]);
      if 2 + n < |s| && ValidName(u, s[2..2 + n]) then Braced(s[2..2 + n]) else Literal(DOLLAR)
    else if IsAlphaOrUnderscore(s[1]) then Bare(s[1..1 + NameRun(s[1..])])
    else Literal(DOLLAR)
  }

  lemma {:induction false} UpToCloseExact(s: Bytes)
    ensures var n := UpToClose(s); (n < |s| ==> s[n] == CLOSE) && CLOSE !in s[..n]
  {
    if s != [] && s[0] != CLOSE {
      UpToCloseExact(s[1..]);
      assert s[..UpToClose(s)] == [s[0]] + s[1..][..UpToClose(s[1..])];
    }
  }

  lemma {:induction false} NameRunExact(s: Bytes)
    ensures var n := NameRun(s);
            && (n < |s| ==> !IsAlnumOrUnderscore(s[n]))
            && forall i | 0 <= i < n :: IsAlnumOrUnderscore(s[i])
  {
    if s != [] && IsAlnumOrUnderscore(s[0]) {
      NameRunExact(s[1..]);
      forall i | 0 <= i < NameRun(s) ensures IsAlnumOrUnderscore(s[i]) {
        if i > 0 {
          assert s[i] == s[1..][i - 1];
        }
      }
    }
  }

  /** The first token spells a prefix of the text, and its name is as long as it can be. */
  lemma FirstIsPrefix(u: Unicode, s: Bytes)
    requires s != []
    ensures var t := First(u, s);
            && Spelling(t) <= s && Spelling(t) != []
            && (t.Braced? ==> CLOSE !in t.name && ValidName(u, t.name))
            && (t.Bare? ==> t.name != [] && IsAlphaOrUnderscore(t.name[0])
                            && (|Spelling(t)| < |s| ==> !IsAlnumOrUnderscore(s[|Spelling(t)|])))
  {
    if |s| > 1 {
      UpToCloseExact(s[2..]);
      NameRunExact(s[1..]);
      var n := UpToClose(s[2..]);
      if s[0] == DOLLAR && s[1] == OPEN && 2 + n < |s| {
        assert s[2..][n] == s[2 + n] && s[2..][..n] == s[2..2 + n];
        assert s[..3 + n] == [DOLLAR, OPEN] + s[2..2 + n] + [CLOSE];
      }
      var m := NameRun(s[1..]);
      if s[0] == DOLLAR {
        assert s[..1 + m] == [DOLLAR] + s[1..1 + m];
        assert 1 + m < |s| ==> s[1..][m] == s[1 + m];
      }
    }
  }

  function Tokenize(u: Unicode, s: Bytes): seq<Token>
    decreases |s|
  {
    if s == [] then []
    else
      FirstIsPrefix(u, s);
      [First(u, s)] + Tokenize(u, s[|Spelling(First(u, s))|..])
  }

  function SpellAll(ts: seq<Token>): Bytes {
    if ts == [] then [] else Spelling(ts[0]) + SpellAll(ts[1..])
  }

  function MeanAll(ts: seq<Token>, env: Env): Bytes {
    if ts == [] then [] else Meaning(ts[0], env) + MeanAll(ts[1..], env)
  }

  /** The tokens tile the text: nothing is skipped and nothing is read twice. */
  lemma {:induction false} TokensTile(u: Unicode, s: Bytes)
    ensures SpellAll(Tokenize(u, s)) == s
    decreases |s|
  {
    if s != [] {
      FirstIsPrefix(u, s);
      var t := First(u, s);
      var rest := s[|Spelling(t)|..];
      TokensTile(u, rest);
      SpellCons(t, Tokenize(u, rest));
      assert s == Spelling(t) + rest;
    }
  }

  lemma SpellCons(t: Token, ts: seq<Token>)
    ensures SpellAll([t] + ts) == Spelling(t) + SpellAll(ts)
  {
    assert ([t] + ts)[1..] == ts;
  }

  lemma MeanCons(t: Token, ts: seq<Token>, env: Env)
    ensures MeanAll([t] + ts, env) == Meaning(t, env) + MeanAll(ts, env)
  {
    assert ([t] + ts)[1..] == ts;
  }

  /** One step of the pass: what the token at `i` writes and how far it reaches. */
  method ExpandAt(u: Unicode, s: Bytes, i: nat, env: Env) returns (out: Bytes, j: nat)
    requires i < |s|
    ensures var t := First(u, s[i..]); out == Meaning(t, env) && j == i + |Spelling(t)|
  {
    ghost var rest := s[i..];
    var c := s[i];
    if c != DOLLAR || i + 1 >= |s| {
      return [c], i + 1;
    }
    var next := s[i + 1];
    assert rest[0] == c && rest[1] == next;
    if next == DOLLAR {
      return [DOLLAR], i + 2;
    }
    if next == OPEN {
      assert s[i + 2..] == rest[2..];
      var end := IndexClose(s[i + 2..]);
      if end < 0 {
        return [c], i + 1;
      }
      var name := s[i + 2..i + 2 + end];
      assert name == rest[2..2 + end];
      var valid := IsValidEnvName(u, name);
      if !valid {
        return [c], i + 1;
      }
      return LookupEnv(name, env), i + 2 + end + 1;
    }
    if IsAlphaOrUnderscore(next) {
      assert s[i + 1..] == rest[1..];
      var end := EndOfName(s, i + 1);
      var name := s[i + 1..end];
      assert name == rest[1..1 + NameRun(rest[1..])];
      return LookupEnv(name, env), end;
    }
    return [c], i + 1;
  }

  /** The pass over the bytes. Values are only ever written to the output, never read again: the
      result is the meanings of tokens that depend on the template alone. */
  method ExpandEnv(u: Unicode, s: Bytes, env: Env) returns (b: Bytes)
    ensures b == MeanAll(Tokenize(u, s), env)
  {
    b := [];
    var i := 0;
    assert s[0..] == s;
    while i < |s|
      invariant 0 <= i <= |s|
      invariant b + MeanAll(Tokenize(u, s[i..]), env) == MeanAll(Tokenize(u, s), env)
      decreases |s| - i
    {
      ghost var rest, t := s[i..], First(u, s[i..]);
      FirstIsPrefix(u, rest);
      assert rest[|Spelling(t)|..] == s[i + |Spelling(t)|..];
      MeanCons(t, Tokenize(u, s[i + |Spelling(t)|..]), env);
      var out, j := ExpandAt(u, s, i, env);
      b, i := b + out, j;
    }
    assert s[i..] == [];
  }

  /** Index of the first `}`, or -1. */
  method IndexClose(s: Bytes) returns (end: int)
    ensures end == if UpToClose(s) < |s| then UpToClose(s) else -1
  {
    var i := 0;
    assert s[0..] == s;
    while i < |s|
      invariant 0 <= i <= |s| && UpToClose(s) == i + UpToClose(s[i..])
    {
      assert s[i..][1..] == s[i + 1..];
      if s[i] == CLOSE {
        return i;
      }
      i := i + 1;
    }
    return -1;
  }

  method EndOfName(s: Bytes, start: nat) returns (j: nat)
    requires start <= |s|
    ensures start <= j <= |s| && j == start + NameRun(s[start..])
  {
    j := start;
    while j < |s| && IsAlnumOrUnderscore(s[j])
      invariant start <= j <= |s| && start + NameRun(s[start..]) == j + NameRun(s[j..])
    {
      assert s[j..][1..] == s[j + 1..];
      j := j + 1;
    }
  }

  /* ---- escaping ---- */

  /** Every `$` doubled. */
  function Doubled(s: Bytes): Bytes {
    if s == [] then [] else (if s[0] == DOLLAR then [DOLLAR, DOLLAR] else [s[0]]) + Doubled(s[1..])
  }

  /** Doubling every `$` protects any text from expansion under every environment. */
  lemma {:induction false} DoubledExpandsBack(u: Unicode, s: Bytes, env: Env)
    ensures MeanAll(Tokenize(u, Doubled(s)), env) == s
  {
    if s != [] {
      var d, rest := Doubled(s), Doubled(s[1..]);
      var t := First(u, d);
      assert t == if s[0] == DOLLAR then Escape else Literal(s[0]);
      assert d[|Spelling(t)|..] == rest;
      DoubledExpandsBack(u, s[1..], env);
      MeanCons(t, Tokenize(u, rest), env);
    }
  }

  lemma {:induction false} NeverLonger(ts: seq<Token>)
    ensures |MeanAll(ts, NO_ENV)| <= |SpellAll(ts)|
    ensures |MeanAll(ts, NO_ENV)| == |SpellAll(ts)| ==> forall t | t in ts :: t.Literal?
  {
    if ts != [] {
      NeverLonger(ts[1..]);
      assert ts == [ts[0]] + ts[1..];
    }
  }

  lemma {:induction false} LiteralsStay(ts: seq<Token>, env: Env)
    requires forall t | t in ts :: t.Literal?
    ensures MeanAll(ts, env) == SpellAll(ts)
  {
    if ts != [] {
      assert ts[0] in ts;
      LiteralsStay(ts[1..], env);
    }
  }

  ghost predicate Survives(ts: seq<Token>, s: Bytes) {
    forall env :: MeanAll(ts, env) == s
  }

  /** A text survives expansion under every environment exactly when it contains no reference and
      no escape: that is, when it survives under the empty one. */
  lemma FixedTexts(u: Unicode, s: Bytes)
    ensures Survives(Tokenize(u, s), s) <==> forall t | t in Tokenize(u, s) :: t.Literal?
    ensures Survives(Tokenize(u, s), s) <==> MeanAll(Tokenize(u, s), NO_ENV) == s
  {
    var ts := Tokenize(u, s);
    TokensTile(u, s);
    NeverLonger(ts);
    if forall t | t in ts :: t.Literal? {
      forall env ensures MeanAll(ts, env) == s {
        LiteralsStay(ts, env);
      }
    }
  }
}
