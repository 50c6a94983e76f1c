/** White space, trimming, splitting and joining, as the standard string library defines them. */
module Text {

  /** Unicode white space. */
  predicate IsSpace(c: char) {
    || '\t' <= c <= '\r' || c == ' ' || c == '\U{85}' || c == '\U{A0}' || c == '\U{1680}'
    || '\U{2000}' <= c <= '\U{200A}' || c == '\U{2028}' || c == '\U{2029}' || c == '\U{202F}'
    || c == '\U{205F}' || c == '\U{3000}'
  }

  function TrimLeft(s: string): string {
    if s != "" && IsSpace(s[0]) then TrimLeft(s[1..]) else s
  }

  function TrimRight(s: string): string {
    if s != "" && IsSpace(s[|s| - 1]) then TrimRight(s[..|s| - 1]) else s
  }

  function TrimSpace(s: string): string {
    TrimRight(TrimLeft(s))
  }

  lemma TrimmedEnds(s: string)
    ensures var t := TrimSpace(s); t != "" ==> !IsSpace(t[0]) && !IsSpace(t[|t| - 1])
  {
    TrimLeftEnd(s);
    TrimRightEnds(TrimLeft(s));
  }

  lemma {:induction false} TrimLeftEnd(s: string)
    ensures TrimLeft(s) != "" ==> !IsSpace(TrimLeft(s)[0])
  {
    if s != "" && IsSpace(s[0]) {
      TrimLeftEnd(s[1..]);
    }
  }

  lemma {:induction false} TrimRightEnds(s: string)
    ensures TrimRight(s) != "" ==> !IsSpace(TrimRight(s)[|TrimRight(s)| - 1]) && TrimRight(s)[0] == s[0]
    ensures TrimRight(s) != "" ==> s != ""
  {
    if s != "" && IsSpace(s[|s| - 1]) {
      TrimRightEnds(s[..|s| - 1]);
    }
  }

  /* ---- words ---- */

  ghost predicate IsWord(w: string) {
    w != "" && forall i | 0 <= i < |w| :: !IsSpace(w[i])
  }

  ghost predicate AreWords(ws: seq<string>) {
    forall i | 0 <= i < |ws| :: IsWord(ws[i])
  }

  function Flush(word: string): seq<string> {
    if word == "" then [] else [word]
  }

  /** The maximal runs of non-space characters, `word` being the run in progress. */
  function FieldsFrom(word: string, s: string): seq<string>
    decreases |s|
  {
    if s == "" then Flush(word)
    else if IsSpace(s[0]) then Flush(word) + FieldsFrom("", s[1..])
    else FieldsFrom(word + [s[0]], s[1..])
  }

  function Fields(s: string): seq<string> {
    FieldsFrom("", s)
  }

  lemma {:induction false} FieldsAreWords(word: string, s: string)
    requires word == "" || IsWord(word)
    ensures AreWords(FieldsFrom(word, s))
    decreases |s|
  {
    if s == "" {
    } else if IsSpace(s[0]) {
      FieldsAreWords("", s[1..]);
    } else {
      FieldsAreWords(word + [s[0]], s[1..]);
    }
  }

  /** Words separated by single spaces. */
  function Join(ws: seq<string>): string {
    if ws == [] then "" else if |ws| == 1 then ws[0] else ws[0] + " " + Join(ws[1..])
  }

  /** Joining loses nothing: equally many words with equal joins are the same words. */
  lemma {:induction false} JoinInjective(a: seq<string>, b: seq<string>)
    requires |a| == |b| && AreWords(a) && AreWords(b) && Join(a) == Join(b)
    ensures a == b
  {
    if |a| > 1 {
      SameFirst(a[0], Join(a[1..]), b[0], Join(b[1..]));
      JoinInjective(a[1..], b[1..]);
      assert a == [a[0]] + a[1..] && b == [b[0]] + b[1..];
    }
  }

  lemma SameFirst(u: string, x: string, v: string, y: string)
    requires IsWord(u) && IsWord(v) && u + " " + x == v + " " + y
    ensures u == v && x == y
  {
    var p, q := u + " " + x, v + " " + y;
    FirstSpace(u, x);
    FirstSpace(v, y);
    assert |u| == |v|;
    assert u == p[..|u|] && v == q[..|v|];
    assert x == p[|u| + 1..] && y == q[|v| + 1..];
  }

  lemma FirstSpace(w: string, x: string)
    requires IsWord(w)
    ensures (w + " " + x)[|w|] == ' ' && forall k :: 0 <= k < |w| ==> (w + " " + x)[k] != ' '
  {
  }
}
