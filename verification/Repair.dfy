/** JSONAutoRepair: closing a truncated JSON-looking text. */
module Repair {
  import opened Nesting
  import opened Text

  const MAX_BYTES := 10 * 1024 * 1024

  const TOO_LONG := "\n... [Truncated: exceeded 10MB safety limit]"
  const NOT_JSON := "\n... [Truncated at 150s SLA]"
  /** The injected member; key and value are given with their quotes. */
  function MemberText(key: string, value: string): string {
    "\"_meta\"" + ":" + ("{" + ("\"truncated\"" + ":true," + key + ":" + value) + "}")
  }

  const MEMBER := MemberText("\"reason\"", "\"SLA_150S_EXCEEDED\"")
  const META := "," + MEMBER
  const DEPTH_ERROR := "{" + MemberText("\"error\"", "\"MAX_NESTING_DEPTH_EXCEEDED\"") + "}"

  /** Length in bytes of the UTF-8 encoding. */
  function Bytes(s: string): nat {
    if s == "" then 0
    else
      var c := s[|s| - 1];
      Bytes(s[..|s| - 1]) + if c < '\U{80}' then 1 else if c < '\U{800}' then 2 else if c < '\U{10000}' then 3 else 4
  }

  predicate LooksLikeJson(t: string) {
    t != "" && (t[0] == '{' || t[0] == '[')
  }

  /* ---- what is written after the text ---- */

  function Reversed(s: string): string {
    if s == "" then "" else [s[|s| - 1]] + Reversed(s[..|s| - 1])
  }

  /** The text without a backslash whose escape was cut off. */
  function Kept(t: string, st: Scan): string {
    if st.escaped && t != "" then t[..|t| - 1] else t
  }

  /** Closers for everything still open; an open root object also gets the truncation member. */
  function ClosingWith(stack: string, meta: string): string {
    if stack != "" && stack[0] == '}' then Reversed(stack[1..]) + meta + "}" else Reversed(stack)
  }

  function Closing(stack: string): string {
    ClosingWith(stack, META)
  }

  function Closed(t: string, st: Scan): string {
    Kept(t, st) + (if st.inString then "\"" else "") + Closing(st.stack)
  }

  function Repaired(s: string): string {
    var t := TrimSpace(s);
    if t == "" then "{}"
    else if Bytes(s) > MAX_BYTES then s + TOO_LONG
    else if !LooksLikeJson(t) then s + NOT_JSON
    else if Scanned(START, t).tooDeep then DEPTH_ERROR
    else Closed(t, Scanned(START, t))
  }

  /** The inputs that are repaired rather than annotated. */
  predicate Repairable(s: string) {
    Bytes(s) <= MAX_BYTES && LooksLikeJson(TrimSpace(s))
  }

  method ScanText(text: string) returns (stack: string, inString: bool, escaped: bool, exceeded: bool)
    ensures Scan(stack, inString, escaped, exceeded) == Scanned(START, text)
  {
    stack, inString, escaped, exceeded := "", false, false, false;
    for i := 0 to |text|
      invariant !exceeded && Scan(stack, inString, escaped, exceeded) == Scanned(START, text[..i])
    {
      assert text[..i + 1][..i] == text[..i];
      stack, inString, escaped, exceeded := ScanChar(stack, inString, escaped, text[i]);
      if exceeded {
        RestIsIgnored(text, i + 1);
        return;
      }
    }
    assert text[..|text|] == text;
  }

  /** The body of the loop; `exceeded` is when the source returns its input. */
  method ScanChar(stack0: string, inString0: bool, escaped0: bool, r: char)
    returns (stack: string, inString: bool, escaped: bool, exceeded: bool)
    ensures Scan(stack, inString, escaped, exceeded) == Step(Scan(stack0, inString0, escaped0, false), r)
  {
    stack, inString, escaped, exceeded := stack0, inString0, escaped0, false;
    if inString {
      if escaped {
        escaped := false;
      } else if r == '\\' {
        escaped := true;
      } else if r == '"' {
        inString := false;
      }
      return;
    }
    if r == '"' {
      inString := true;
    } else if r == '{' || r == '[' {
      if |stack| >= MAX_DEPTH {
        exceeded := true;
      } else {
        stack := stack + [if r == '{' then '}' else ']'];
      }
    } else if r == '}' || r == ']' {
      if |stack| > 0 && stack[|stack| - 1] == r {
        stack := stack[..|stack| - 1];
      }
    }
  }

  lemma RestIsIgnored(text: string, i: nat)
    requires i <= |text| && Scanned(START, text[..i]).tooDeep
    ensures Scanned(START, text) == Scanned(START, text[..i])
  {
    assert text == text[..i] + text[i..];
    ScanConcat(START, text[..i], text[i..]);
    TooDeepStays(Scanned(START, text[..i]), text[i..]);
  }

  method JSONAutoRepair(s: string) returns (out: string)
    ensures out == Repaired(s)
  {
    var trimmed := TrimSpace(s);
    if trimmed == "" {
      return "{}";
    }
    if Bytes(s) > MAX_BYTES {
      return s + TOO_LONG;
    }
    if !LooksLikeJson(trimmed) {
      return s + NOT_JSON;
    }
    var stack, inString, escaped, exceeded := ScanText(trimmed);
    if exceeded {
      return DEPTH_ERROR;
    }
    if escaped {
      EscapedEndsInBackslash(trimmed);
    }
    out := CloseText(trimmed, stack, inString, escaped, META);
  }

  /** Drops a dangling backslash, ends an open string, then closes what is open. */
  method CloseText(trimmed: string, stack: string, inString: bool, escaped: bool, meta: string) returns (out: string)
    requires escaped ==> trimmed != ""
    ensures out == Kept(trimmed, Scan(stack, inString, escaped, false)) + (if inString then "\"" else "")
                   + ClosingWith(stack, meta)
  {
    var b := trimmed;
    if escaped {
      b := b[..|b| - 1];
    }
    if inString {
      b := b + "\"";
    }
    out := WriteClosers(b, stack, meta);
  }

  /** Pops the closers, innermost first; the root of an object gets `meta` before its own. */
  method WriteClosers(text: string, open: string, meta: string) returns (b: string)
    ensures b == text + ClosingWith(open, meta)
  {
    if |open| > 0 && open[0] == '}' {
      b := PopInner(text, open);
      b := b + meta;
      b := b + "}";
      Regroup(text, Reversed(open[1..]), meta, "}");
      return;
    }
    b := PopAll(text, open);
  }

  lemma Regroup(a: string, b: string, c: string, d: string)
    ensures a + b + c + d == a + (b + c + d)
  {
  }

  method PopInner(text: string, open: string) returns (b: string)
    requires open != ""
    ensures b == text + Reversed(open[1..])
  {
    b := text;
    var stack := open;
    while |stack| > 1
      invariant |stack| > 0
      invariant b + Reversed(stack[1..]) == text + Reversed(open[1..])
    {
      var closer := stack[|stack| - 1];
      assert stack[1..][..|stack| - 2] == stack[..|stack| - 1][1..];
      assert Reversed(stack[1..]) == [closer] + Reversed(stack[..|stack| - 1][1..]);
      b := b + [closer];
      stack := stack[..|stack| - 1];
    }
    assert stack[1..] == "";
  }

  method PopAll(text: string, stack: string) returns (b: string)
    ensures b == text + Reversed(stack)
  {
    b := text;
    var i := |stack|;
    assert stack[..i] == stack;
    while i > 0
      invariant 0 <= i <= |stack|
      invariant b + Reversed(stack[..i]) == text + Reversed(stack)
    {
      i := i - 1;
      assert stack[..i + 1][..i] == stack[..i];
      assert Reversed(stack[..i + 1]) == [stack[i]] + Reversed(stack[..i]);
      b := b + [stack[i]];
    }
  }

  /* ---- dangling escapes ---- */

  lemma {:induction false} EscapedOnlyInString(t: string)
    ensures !Scanned(START, t).inString ==> !Scanned(START, t).escaped
  {
    if t != "" {
      EscapedOnlyInString(t[..|t| - 1]);
    }
  }

  /** A pending escape is the text's last character, a backslash inside an open string; without it
      the scan stands in the same place. */
  lemma EscapedEndsInBackslash(t: string)
    requires Scanned(START, t).escaped && !Scanned(START, t).tooDeep
    ensures t != "" && t[|t| - 1] == '\\' && Scanned(START, t).inString
    ensures Scanned(START, t[..|t| - 1]) == Scanned(START, t).(escaped := false)
    ensures Strict(START, t[..|t| - 1]) <==> Strict(START, t)
  {
    EscapedOnlyInString(t);
    EscapedOnlyInString(t[..|t| - 1]);
  }

  /* ---- the closing text does what it should ---- */

  ghost predicate ClosersOnly(stack: string) {
    forall i | 0 <= i < |stack| :: stack[i] == '}' || stack[i] == ']'
  }

  lemma {:induction false} ScanClosers(stack: string, keep: string)
    requires ClosersOnly(stack)
    ensures Scanned(Scan(keep + stack, false, false, false), Reversed(stack)) == Scan(keep, false, false, false)
    ensures Strict(Scan(keep + stack, false, false, false), Reversed(stack))
  {
    if stack == "" {
      assert keep + stack == keep;
    } else {
      var rest, c := stack[..|stack| - 1], stack[|stack| - 1];
      assert keep + stack == (keep + rest) + [c];
      ScanCloser(keep + rest, c, Reversed(rest));
      ScanClosers(rest, keep);
    }
  }

  lemma ScanCloser(keep: string, c: char, more: string)
    requires c == '}' || c == ']'
    ensures var st, popped := Scan(keep + [c], false, false, false), Scan(keep, false, false, false);
            Scanned(st, [c] + more) == Scanned(popped, more) && (Strict(st, [c] + more) <==> Strict(popped, more))
  {
    var st := Scan(keep + [c], false, false, false);
    assert st.stack[..|st.stack| - 1] == keep;
    ScanOne(st, c);
    ScanConcat(st, [c], more);
  }

  lemma {:induction false} UnitsOf(s: string) returns (us: seq<Unit>)
    requires forall i | 0 <= i < |s| :: s[i] != '"' && s[i] != '\\'
    ensures RenderUnits(us) == s && forall i | 0 <= i < |us| :: UnitOk(us[i])
  {
    us := [];
    if s != "" {
      var p := UnitsOf(s[..|s| - 1]);
      us := p + [Plain(s[|s| - 1])];
      assert us[..|us| - 1] == p;
    }
  }

  /** A quoted word without escapes. */
  lemma ScanQuoted(st: Scan, word: string)
    requires Outside(st) && forall i | 0 <= i < |word| :: word[i] != '"' && word[i] != '\\'
    ensures Scanned(st, "\"" + word + "\"") == st && Strict(st, "\"" + word + "\"")
  {
    var us := UnitsOf(word);
    ScanString(st, us);
  }

  lemma ScanPair(st: Scan, a: string, b: string)
    requires Scanned(st, a) == st && Strict(st, a) && Scanned(st, b) == st && Strict(st, b)
    ensures Scanned(st, a + b) == st && Strict(st, a + b)
  {
    ScanConcat(st, a, b);
  }

  lemma ScanBraced(st: Scan, body: string)
    requires Outside(st) && |st.stack| < MAX_DEPTH
    requires var inside := st.(stack := st.stack + "}"); Scanned(inside, body) == inside && Strict(inside, body)
    ensures Scanned(st, "{" + body + "}") == st && Strict(st, "{" + body + "}")
  {
    assert st.stack + "}" == st.stack + ['}'];
    ScanGroup(st, '}', body, true);
    assert "{" + body + "}" == [Opener('}')] + body + ['}'];
  }

  /** A word in quotes, with nothing in it to escape. */
  predicate Quoted(w: string) {
    |w| >= 2 && w[0] == '"' && w[|w| - 1] == '"' && forall i | 1 <= i < |w| - 1 :: w[i] != '"' && w[i] != '\\'
  }

  lemma ScanQuotedWord(st: Scan, w: string)
    requires Outside(st) && Quoted(w)
    ensures Scanned(st, w) == st && Strict(st, w)
  {
    assert w == "\"" + w[1..|w| - 1] + "\"";
    ScanQuoted(st, w[1..|w| - 1]);
  }

  /** The injected member leaves the scanner where it was. */
  lemma ScanMember(st: Scan, key: string, value: string)
    requires Outside(st) && |st.stack| < MAX_DEPTH && Quoted(key) && Quoted(value)
    ensures Scanned(st, MemberText(key, value)) == st && Strict(st, MemberText(key, value))
  {
    var inside := st.(stack := st.stack + "}");
    ScanQuotedWord(inside, key);
    ScanQuotedWord(inside, value);
    ScanTruncated(inside);
    Nesting.ScanText(inside, ":");
    ScanFour(inside, "\"truncated\"" + ":true,", key, ":", value);
    var body := "\"truncated\"" + ":true," + key + ":" + value;
    ScanBraced(st, body);
    ScanMetaKey(st, "{" + body + "}");
  }

  lemma ScanMetaKey(st: Scan, value: string)
    requires Outside(st) && Scanned(st, value) == st && Strict(st, value)
    ensures Scanned(st, "\"_meta\"" + ":" + value) == st && Strict(st, "\"_meta\"" + ":" + value)
  {
    ScanQuotedWord(st, "\"_meta\"");
    Nesting.ScanText(st, ":");
    ScanPair(st, "\"_meta\"", ":");
    ScanPair(st, "\"_meta\"" + ":", value);
  }

  lemma ScanTruncated(st: Scan)
    requires Outside(st)
    ensures Scanned(st, "\"truncated\"" + ":true,") == st && Strict(st, "\"truncated\"" + ":true,")
  {
    ScanQuotedWord(st, "\"truncated\"");
    Nesting.ScanText(st, ":true,");
    ScanPair(st, "\"truncated\"", ":true,");
  }

  lemma ScanFour(st: Scan, a: string, b: string, c: string, d: string)
    requires Scanned(st, a) == st && Strict(st, a) && Scanned(st, b) == st && Strict(st, b)
    requires Scanned(st, c) == st && Strict(st, c) && Scanned(st, d) == st && Strict(st, d)
    ensures Scanned(st, a + b + c + d) == st && Strict(st, a + b + c + d)
  {
    ScanPair(st, a, b);
    ScanPair(st, a + b, c);
    ScanPair(st, a + b + c, d);
  }

  lemma ScanMeta(st: Scan)
    requires Outside(st) && |st.stack| < MAX_DEPTH
    ensures Scanned(st, META) == st && Strict(st, META)
  {
    ScanTruncatedMember(st);
    Nesting.ScanText(st, ",");
    ScanPair(st, ",", MEMBER);
  }

  lemma ScanTruncatedMember(st: Scan)
    requires Outside(st) && |st.stack| < MAX_DEPTH
    ensures Scanned(st, MEMBER) == st && Strict(st, MEMBER)
  {
    ScanMember(st, "\"reason\"", "\"SLA_150S_EXCEEDED\"");
  }

  lemma ScanDepthError()
    ensures Scanned(START, DEPTH_ERROR) == START && Strict(START, DEPTH_ERROR)
  {
    ScanMember(START.(stack := START.stack + "}"), "\"error\"", "\"MAX_NESTING_DEPTH_EXCEEDED\"");
    ScanBraced(START, MemberText("\"error\"", "\"MAX_NESTING_DEPTH_EXCEEDED\""));
  }

  lemma {:induction false} StackShape(t: string)
    ensures ClosersOnly(Scanned(START, t).stack) && |Scanned(START, t).stack| <= MAX_DEPTH
  {
    if t != "" {
      StackShape(t[..|t| - 1]);
    }
  }

  lemma ScanClosing(stack: string, meta: string)
    requires ClosersOnly(stack)
    requires var root := Scan("}", false, false, false); Scanned(root, meta) == root && Strict(root, meta)
    ensures Scanned(Scan(stack, false, false, false), ClosingWith(stack, meta)) == START
    ensures Strict(Scan(stack, false, false, false), ClosingWith(stack, meta))
  {
    var st := Scan(stack, false, false, false);
    if stack != "" && stack[0] == '}' {
      var root := Scan("}", false, false, false);
      assert stack == "}" + stack[1..];
      ScanClosers(stack[1..], "}");
      ScanConcat(st, Reversed(stack[1..]), meta);
      ScanConcat(st, Reversed(stack[1..]) + meta, "}");
      ScanOne(root, '}');
    } else {
      assert "" + stack == stack;
      ScanClosers(stack, "");
    }
  }

  /** Where the scan stands once the dangling escape is dropped and the open string closed. */
  lemma ScanKept(t: string)
    requires !Scanned(START, t).tooDeep
    ensures var st := Scanned(START, t);
            var head := Kept(t, st) + if st.inString then "\"" else "";
            && Scanned(START, head) == Scan(st.stack, false, false, false)
            && (Strict(START, head) <==> Strict(START, t))
  {
    var st := Scanned(START, t);
    if st.escaped {
      EscapedEndsInBackslash(t);
    } else {
      EscapedOnlyInString(t);
    }
    var kept := Kept(t, st);
    if st.inString {
      var here := Scanned(START, kept);
      ScanConcat(START, kept, "\"");
      ScanOne(here, '"');
    } else {
      assert kept + "" == kept;
    }
  }

  /** The repaired text rescans to an empty stack outside any string; it extends the trimmed input
      minus a dangling backslash; and it is strictly nested exactly when the input was. */
  lemma RepairRescansClean(s: string)
    requires Repairable(s)
    ensures var t := TrimSpace(s); var st := Scanned(START, t);
            && Scanned(START, Repaired(s)) == START
            && (!st.tooDeep ==> Kept(t, st) <= Repaired(s) && (Strict(START, Repaired(s)) <==> Strict(START, t)))
            && (st.tooDeep ==> Strict(START, Repaired(s)))
  {
    var t := TrimSpace(s);
    var st := Scanned(START, t);
    if st.tooDeep {
      ScanDepthError();
    } else {
      var head := Kept(t, st) + if st.inString then "\"" else "";
      ScanKept(t);
      StackShape(t);
      ScanMeta(Scan("}", false, false, false));
      ScanClosing(st.stack, META);
      ScanConcat(START, head, Closing(st.stack));
    }
  }

  /** Repairing a repaired text changes nothing while it stays under the size cap. */
  lemma RepairIdempotent(s: string)
    requires Repairable(s) && Bytes(Repaired(s)) <= MAX_BYTES
    ensures Repaired(Repaired(s)) == Repaired(s)
  {
    var out := Repaired(s);
    RepairRescansClean(s);
    RepairIsTrimmed(s);
    assert TrimSpace(out) == out;
    assert Closed(out, START) == out;
  }

  lemma {:induction false} ReversedLast(s: string)
    ensures |Reversed(s)| == |s| && (s != "" ==> Reversed(s)[|s| - 1] == s[0])
  {
    if s != "" {
      ReversedLast(s[..|s| - 1]);
    }
  }

  lemma BracketNotEscaped(t: string)
    requires LooksLikeJson(t)
    ensures Scanned(START, t).escaped ==> |t| > 1
  {
    assert t[..1] == [t[0]];
    ScanOne(START, t[0]);
    assert |t| == 1 ==> t == [t[0]];
  }

  lemma RepairIsTrimmed(s: string)
    requires Repairable(s)
    ensures TrimSpace(Repaired(s)) == Repaired(s) && LooksLikeJson(Repaired(s))
  {
    var t, out := TrimSpace(s), Repaired(s);
    var st := Scanned(START, t);
    TrimmedEnds(s);
    if !st.tooDeep {
      StackShape(t);
      ReversedLast(st.stack);
      if st.escaped {
        EscapedEndsInBackslash(t);
        BracketNotEscaped(t);
      }
      assert out[0] == t[0];
      assert !IsSpace(out[|out| - 1]);
    }
  }

  /** Whenever the trimmed input is the beginning of some strictly well-nested text, the repaired
      output is strictly well-nested, the truncation member included. */
  lemma RepairIsWellNested(s: string, rest: string)
    requires Repairable(s) && WellNested(TrimSpace(s) + rest)
    ensures WellNested(Repaired(s))
  {
    var t := TrimSpace(s);
    var ns :| NodesOk(ns) && RenderAll(ns) == t + rest;
    ScanNodes(START, ns);
    ScanConcat(START, t, rest);
    RepairRescansClean(s);
    CleanScanIsWellNested(Repaired(s));
  }

  /** And only then: a closer without its opener is kept, and no text containing it is well-nested. */
  lemma RepairWellNestedIff(s: string)
    requires Repairable(s) && !Scanned(START, TrimSpace(s)).tooDeep
    ensures WellNested(Repaired(s)) <==> Strict(START, TrimSpace(s))
  {
    RepairRescansClean(s);
    WellNestedIffStrict(Repaired(s));
  }

  /** A truncated object ends in the injected member, written directly inside the root object, and
      the root's brace. */
  lemma TruncatedObjectIsMarked(s: string)
    requires Repairable(s)
    requires var st := Scanned(START, TrimSpace(s)); !st.tooDeep && st.stack != "" && st.stack[0] == '}'
    ensures exists head :: Repaired(s) == head + (META + "}") && Scanned(START, head) == Scan("}", false, false, false)
  {
    var head := BeforeMeta(TrimSpace(s), META);
  }

  lemma BeforeMeta(t: string, meta: string) returns (head: string)
    requires var st := Scanned(START, t); !st.tooDeep && st.stack != "" && st.stack[0] == '}'
    ensures var st := Scanned(START, t);
            Kept(t, st) + (if st.inString then "\"" else "") + ClosingWith(st.stack, meta) == head + (meta + "}")
    ensures Scanned(START, head) == Scan("}", false, false, false)
  {
    var st := Scanned(START, t);
    var body, inner := Kept(t, st) + (if st.inString then "\"" else ""), st.stack[1..];
    ScanKept(t);
    StackShape(t);
    assert st.stack == "}" + inner;
    ScanClosers(inner, "}");
    ScanConcat(START, body, Reversed(inner));
    head := body + Reversed(inner);
    assert ClosingWith(st.stack, meta) == Reversed(inner) + meta + "}";
    Reassociate(body, Reversed(inner), meta, "}");
  }

  lemma Reassociate(a: string, b: string, c: string, d: string)
    ensures a + (b + c + d) == a + b + (c + d)
  {
  }
}
