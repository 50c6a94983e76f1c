/** Two views of nested text with strings: a grammar (text runs, quoted strings, bracketed groups)
    and the one-pass scanner that keeps a stack of expected closers. They agree. */
module Nesting {

  const MAX_DEPTH := 512

  /* ---- grammar ---- */

  datatype Unit = Plain(c: char) | Escape(c: char)

  datatype Node = Text(s: string) | Str(units: seq<Unit>) | Group(closer: char, nodes: seq<Node>)

  predicate Delimiter(c: char) {
    c == '"' || c == '{' || c == '}' || c == '[' || c == ']'
  }

  function Opener(closer: char): char {
    if closer == '}' then '{' else '['
  }

  predicate UnitOk(u: Unit) {
    u.Plain? ==> u.c != '"' && u.c != '\\'
  }

  predicate NodeOk(n: Node) {
    match n
    case Text(s) => forall i | 0 <= i < |s| :: !Delimiter(s[i])
    case Str(us) => forall i | 0 <= i < |us| :: UnitOk(us[i])
    case Group(closer, ns) => (closer == '}' || closer == ']') && forall i | 0 <= i < |ns| :: NodeOk(ns[i])
  }

  predicate NodesOk(ns: seq<Node>) {
    forall i | 0 <= i < |ns| :: NodeOk(ns[i])
  }

  function RenderUnits(us: seq<Unit>): string {
    if us == [] then ""
    else
      var u := us[|us| - 1];
      RenderUnits(us[..|us| - 1]) + if u.Plain? then [u.c] else ['\\', u.c]
  }

  function Render(n: Node): string
    decreases n, 1
  {
    match n
    case Text(s) => s
    case Str(us) => "\"" + RenderUnits(us) + "\""
    case Group(closer, ns) => [Opener(closer)] + RenderAll(ns) + [closer]
  }

  function RenderAll(ns: seq<Node>): string
    decreases ns, 0
  {
    if ns == [] then "" else RenderAll(ns[..|ns| - 1]) + Render(ns[|ns| - 1])
  }

  function Depth(n: Node): nat
    decreases n, 1
  {
    if n.Group? then 1 + DepthAll(n.nodes) else 0
  }

  function DepthAll(ns: seq<Node>): nat
    decreases ns, 0
  {
    if ns == [] then 0
    else
      var a, b := DepthAll(ns[..|ns| - 1]), Depth(ns[|ns| - 1]);
      if a < b then b else a
  }

  /** Strictly well-nested text: every closer closes the innermost open group. */
  ghost predicate WellNested(text: string) {
    exists ns :: NodesOk(ns) && RenderAll(ns) == text
  }

  /* ---- scanner ---- */

  datatype Scan = Scan(stack: string, inString: bool, escaped: bool, tooDeep: bool)

  const START := Scan("", false, false, false)

  /** One character. Closers that do not match the innermost open group are skipped; past the depth
      bound the scan has stopped. */
  function Step(st: Scan, c: char): Scan {
    if st.tooDeep then st
    else if st.inString then
      if st.escaped then st.(escaped := false)
      else if c == '\\' then st.(escaped := true)
      else if c == '"' then st.(inString := false)
      else st
    else if c == '"' then st.(inString := true)
    else if c == '{' || c == '[' then
      if |st.stack| >= MAX_DEPTH then st.(tooDeep := true)
      else st.(stack := st.stack + [if c == '{' then '}' else ']'])
    else if (c == '}' || c == ']') && st.stack != "" && st.stack[|st.stack| - 1] == c then
      st.(stack := st.stack[..|st.stack| - 1])
    else st
  }

  function Scanned(st: Scan, text: string): Scan {
    if text == "" then st else Step(Scanned(st, text[..|text| - 1]), text[|text| - 1])
  }

  /** The character is not a closer without its opener. */
  predicate StepOk(st: Scan, c: char) {
    st.tooDeep || st.inString || (c != '}' && c != ']') || (st.stack != "" && st.stack[|st.stack| - 1] == c)
  }

  /** No mismatched closer anywhere. */
  predicate Strict(st: Scan, text: string) {
    text == "" || (Strict(st, text[..|text| - 1]) && StepOk(Scanned(st, text[..|text| - 1]), text[|text| - 1]))
  }

  lemma {:induction false} ScanConcat(st: Scan, a: string, b: string)
    ensures Scanned(st, a + b) == Scanned(Scanned(st, a), b)
    ensures Strict(st, a + b) <==> Strict(st, a) && Strict(Scanned(st, a), b)
  {
    if b == "" {
      assert a + b == a;
    } else {
      var p := b[..|b| - 1];
      assert (a + b)[..|a + b| - 1] == a + p;
      ScanConcat(st, a, p);
    }
  }

  lemma ScanOne(st: Scan, c: char)
    ensures Scanned(st, [c]) == Step(st, c) && (Strict(st, [c]) <==> StepOk(st, c))
  {
    assert [c][..0] == "";
  }

  lemma {:induction false} TooDeepStays(st: Scan, text: string)
    requires st.tooDeep
    ensures Scanned(st, text) == st && Strict(st, text)
  {
    if text != "" {
      TooDeepStays(st, text[..|text| - 1]);
    }
  }

  /* ---- grammar to scanner ---- */

  predicate Outside(st: Scan) {
    !st.inString && !st.escaped && !st.tooDeep
  }

  lemma {:induction false} ScanText(st: Scan, s: string)
    requires Outside(st) && forall i | 0 <= i < |s| :: !Delimiter(s[i])
    ensures Scanned(st, s) == st && Strict(st, s)
  {
    if s != "" {
      ScanText(st, s[..|s| - 1]);
    }
  }

  lemma {:induction false} ScanUnits(st: Scan, us: seq<Unit>)
    requires st.inString && !st.escaped && !st.tooDeep && forall i | 0 <= i < |us| :: UnitOk(us[i])
    ensures Scanned(st, RenderUnits(us)) == st && Strict(st, RenderUnits(us))
  {
    if us != [] {
      var p, u := us[..|us| - 1], us[|us| - 1];
      ScanUnits(st, p);
      if u.Plain? {
        ScanConcat(st, RenderUnits(p), [u.c]);
        ScanOne(st, u.c);
      } else {
        ScanConcat(st, RenderUnits(p), ['\\', u.c]);
        assert ['\\', u.c] == ['\\'] + [u.c];
        ScanConcat(st, ['\\'], [u.c]);
        ScanOne(st, '\\');
        ScanOne(st.(escaped := true), u.c);
      }
    }
  }

  lemma ScanString(st: Scan, us: seq<Unit>)
    requires Outside(st) && forall i | 0 <= i < |us| :: UnitOk(us[i])
    ensures Scanned(st, Render(Str(us))) == st && Strict(st, Render(Str(us)))
  {
    var body, inside := RenderUnits(us), st.(inString := true);
    ScanOne(st, '"');
    ScanUnits(inside, us);
    ScanOne(inside, '"');
    ScanConcat(st, "\"", body);
    ScanConcat(st, "\"" + body, "\"");
  }

  /** A well-nested piece leaves the scanner where it was, unless it is nested past the bound;
      no closer in it is a mismatch. */
  lemma {:induction false} ScanNode(st: Scan, n: Node)
    requires Outside(st) && NodeOk(n) && |st.stack| <= MAX_DEPTH
    ensures Scanned(st, Render(n))
              == if |st.stack| + Depth(n) <= MAX_DEPTH then st else Scanned(st, Render(n)).(tooDeep := true)
    ensures Strict(st, Render(n))
    decreases n, 1
  {
    match n
    case Text(s) => ScanText(st, s);
    case Str(us) => ScanString(st, us);
    case Group(closer, ns) =>
      if |st.stack| < MAX_DEPTH {
        ScanNodes(st.(stack := st.stack + [closer]), ns);
      }
      ScanGroup(st, closer, RenderAll(ns), |st.stack| + Depth(n) <= MAX_DEPTH);
  }

  /** Brackets around a body that leaves the scanner where it was, or trips the bound. */
  lemma ScanGroup(st: Scan, closer: char, body: string, fits: bool)
    requires Outside(st) && (closer == '}' || closer == ']')
    requires |st.stack| >= MAX_DEPTH ==> !fits
    requires var inside := st.(stack := st.stack + [closer]);
             |st.stack| < MAX_DEPTH ==>
               (&& Strict(inside, body)
                && Scanned(inside, body) == if fits then inside else Scanned(inside, body).(tooDeep := true))
    ensures var text := [Opener(closer)] + body + [closer];
            && Strict(st, text)
            && Scanned(st, text) == if fits then st else Scanned(st, text).(tooDeep := true)
  {
    if |st.stack| < MAX_DEPTH {
      ScanEntered(st, closer, body, fits);
    } else {
      ScanTooDeep(st, closer, body);
    }
  }

  lemma ScanBrackets(st: Scan, closer: char, body: string)
    requires Outside(st) && (closer == '}' || closer == ']')
    ensures var text, inside := [Opener(closer)] + body + [closer], Step(st, Opener(closer));
            && Scanned(st, text) == Step(Scanned(inside, body), closer)
            && (Strict(st, text) <==> Strict(inside, body) && StepOk(Scanned(inside, body), closer))
  {
    var open := Opener(closer);
    ScanOne(st, open);
    ScanConcat(st, [open], body);
    ScanConcat(st, [open] + body, [closer]);
    ScanOne(Scanned(Step(st, open), body), closer);
  }

  lemma ScanTooDeep(st: Scan, closer: char, body: string)
    requires Outside(st) && (closer == '}' || closer == ']') && |st.stack| >= MAX_DEPTH
    ensures var text := [Opener(closer)] + body + [closer]; Strict(st, text) && Scanned(st, text).tooDeep
  {
    ScanBrackets(st, closer, body);
    TooDeepStays(Step(st, Opener(closer)), body);
  }

  lemma ScanEntered(st: Scan, closer: char, body: string, fits: bool)
    requires Outside(st) && (closer == '}' || closer == ']') && |st.stack| < MAX_DEPTH
    requires var inside := st.(stack := st.stack + [closer]);
             && Strict(inside, body)
             && Scanned(inside, body) == if fits then inside else Scanned(inside, body).(tooDeep := true)
    ensures var text := [Opener(closer)] + body + [closer];
            && Strict(st, text)
            && Scanned(st, text) == if fits then st else Scanned(st, text).(tooDeep := true)
  {
    var inside := st.(stack := st.stack + [closer]);
    assert Step(st, Opener(closer)) == inside;
    CloserReturns(st, closer, Scanned(inside, body), fits);
    ScanBrackets(st, closer, body);
  }

  lemma CloserReturns(st: Scan, closer: char, after: Scan, fits: bool)
    requires Outside(st) && (closer == '}' || closer == ']')
    requires if fits then after == st.(stack := st.stack + [closer]) else after.tooDeep
    ensures StepOk(after, closer) && Step(after, closer) == if fits then st else after
  {
    var inside := st.(stack := st.stack + [closer]);
    assert inside.stack[..|inside.stack| - 1] == st.stack;
  }

  lemma {:induction false} ScanNodes(st: Scan, ns: seq<Node>)
    requires Outside(st) && NodesOk(ns) && |st.stack| <= MAX_DEPTH
    ensures Scanned(st, RenderAll(ns))
              == if |st.stack| + DepthAll(ns) <= MAX_DEPTH then st else Scanned(st, RenderAll(ns)).(tooDeep := true)
    ensures Strict(st, RenderAll(ns))
    decreases ns, 0
  {
    if ns != [] {
      var p, n := ns[..|ns| - 1], ns[|ns| - 1];
      ScanNodes(st, p);
      ScanConcat(st, RenderAll(p), Render(n));
      if |st.stack| + DepthAll(p) <= MAX_DEPTH {
        ScanNode(st, n);
      } else {
        TooDeepStays(Scanned(st, RenderAll(p)), Render(n));
      }
    }
  }

  /* ---- scanner to grammar ---- */

  /** A partial parse: finished nodes per open level, and the string being read, if any. */
  datatype Parse = Parse(levels: seq<seq<Node>>, units: seq<Unit>)

  ghost predicate Matches(p: Parse, st: Scan) {
    && !st.tooDeep
    && |p.levels| == |st.stack| + 1
    && (forall i | 0 <= i < |p.levels| :: NodesOk(p.levels[i]))
    && (forall i | 0 <= i < |st.stack| :: st.stack[i] == '}' || st.stack[i] == ']')
    && (forall i | 0 <= i < |p.units| :: UnitOk(p.units[i]))
    && (st.escaped ==> st.inString)
    && (!st.inString ==> p.units == [])
  }

  function RenderLevels(levels: seq<seq<Node>>, stack: string): string
    requires |levels| == |stack| + 1
    decreases |stack|
  {
    if stack == "" then RenderAll(levels[0])
    else
      var k := |stack| - 1;
      RenderLevels(levels[..k + 1], stack[..k]) + [Opener(stack[k])] + RenderAll(levels[k + 1])
  }

  function RenderString(p: Parse, st: Scan): string {
    if !st.inString then "" else "\"" + RenderUnits(p.units) + if st.escaped then "\\" else ""
  }

  function RenderParse(p: Parse, st: Scan): string
    requires |p.levels| == |st.stack| + 1
  {
    RenderLevels(p.levels, st.stack) + RenderString(p, st)
  }

  /** Adding a node at the innermost level. */
  function Add(levels: seq<seq<Node>>, n: Node): seq<seq<Node>>
    requires levels != []
  {
    levels[|levels| - 1 := levels[|levels| - 1] + [n]]
  }

  lemma RenderAdd(levels: seq<seq<Node>>, stack: string, n: Node)
    requires |levels| == |stack| + 1
    ensures RenderLevels(Add(levels, n), stack) == RenderLevels(levels, stack) + Render(n)
  {
    var k := |levels| - 1;
    var added := levels[k] + [n];
    assert added[..|added| - 1] == levels[k];
    RenderReplace(levels, stack, added, Render(n));
  }

  lemma RenderReplace(levels: seq<seq<Node>>, stack: string, top: seq<Node>, x: string)
    requires |levels| == |stack| + 1
    requires RenderAll(top) == RenderAll(levels[|stack|]) + x
    ensures RenderLevels(levels[|stack| := top], stack) == RenderLevels(levels, stack) + x
  {
    if stack != "" {
      assert levels[|stack| := top][..|stack|] == levels[..|stack|];
    }
  }

  /** Every strict scan has a parse that renders to the text scanned. */
  lemma {:induction false} ParseExists(text: string) returns (p: Parse)
    requires Strict(START, text) && !Scanned(START, text).tooDeep
    ensures Matches(p, Scanned(START, text)) && RenderParse(p, Scanned(START, text)) == text
  {
    if text == "" {
      p := Parse([[]], []);
    } else {
      var before, c := text[..|text| - 1], text[|text| - 1];
      var st := Scanned(START, before);
      var q := ParseExists(before);
      assert text == before + [c];
      p := ParseStep(q, st, c);
    }
  }

  lemma ParseStep(q: Parse, st: Scan, c: char) returns (p: Parse)
    requires Matches(q, st) && StepOk(st, c) && !Step(st, c).tooDeep
    ensures Matches(p, Step(st, c)) && RenderParse(p, Step(st, c)) == RenderParse(q, st) + [c]
  {
    if st.inString {
      p := ParseInString(q, st, c);
    } else if c == '"' {
      p := q;
    } else if c == '{' || c == '[' {
      p := Parse(q.levels + [[]], []);
      var t := Step(st, c);
      assert p.levels[..|st.stack| + 1] == q.levels && t.stack[..|st.stack|] == st.stack;
    } else if c == '}' || c == ']' {
      p := ParseCloser(q, st, c);
    } else {
      p := Parse(Add(q.levels, Text([c])), []);
      RenderAdd(q.levels, st.stack, Text([c]));
    }
  }

  lemma ParseCloser(q: Parse, st: Scan, c: char) returns (p: Parse)
    requires Matches(q, st) && !st.inString && (c == '}' || c == ']') && StepOk(st, c)
    ensures Matches(p, Step(st, c)) && RenderParse(p, Step(st, c)) == RenderParse(q, st) + [c]
  {
    var k := |st.stack| - 1;
    var outer, group := q.levels[..k + 1], Group(c, q.levels[k + 1]);
    p := Parse(Add(outer, group), []);
    RenderAdd(outer, st.stack[..k], group);
    var A := RenderLevels(outer, st.stack[..k]);
    assert RenderParse(q, st) == A + [Opener(c)] + RenderAll(q.levels[k + 1]);
    assert Render(group) == [Opener(c)] + RenderAll(q.levels[k + 1]) + [c];
    assert RenderParse(p, Step(st, c)) == A + Render(group);
  }

  lemma ParseInString(q: Parse, st: Scan, c: char) returns (p: Parse)
    requires Matches(q, st) && st.inString
    ensures Matches(p, Step(st, c)) && RenderParse(p, Step(st, c)) == RenderParse(q, st) + [c]
  {
    if st.escaped {
      p := ParseEscaped(q, st, c);
    } else if c == '\\' {
      p := q;
      assert RenderString(p, Step(st, c)) == RenderString(q, st) + [c];
    } else if c == '"' {
      p := ParseQuote(q, st);
    } else {
      p := ParsePlain(q, st, c);
    }
  }

  lemma ParseEscaped(q: Parse, st: Scan, c: char) returns (p: Parse)
    requires Matches(q, st) && st.inString && st.escaped
    ensures Matches(p, Step(st, c)) && RenderParse(p, Step(st, c)) == RenderParse(q, st) + [c]
  {
    p := q.(units := q.units + [Escape(c)]);
    assert p.units[..|q.units|] == q.units;
    assert RenderUnits(p.units) == RenderUnits(q.units) + ['\\', c];
    assert RenderString(p, Step(st, c)) == RenderString(q, st) + [c];
  }

  lemma ParsePlain(q: Parse, st: Scan, c: char) returns (p: Parse)
    requires Matches(q, st) && st.inString && !st.escaped && c != '\\' && c != '"'
    ensures Matches(p, Step(st, c)) && RenderParse(p, Step(st, c)) == RenderParse(q, st) + [c]
  {
    p := q.(units := q.units + [Plain(c)]);
    assert p.units[..|q.units|] == q.units;
    assert RenderString(p, Step(st, c)) == RenderString(q, st) + [c];
  }

  lemma ParseQuote(q: Parse, st: Scan) returns (p: Parse)
    requires Matches(q, st) && st.inString && !st.escaped
    ensures Matches(p, Step(st, '"')) && RenderParse(p, Step(st, '"')) == RenderParse(q, st) + ['"']
  {
    p := Parse(Add(q.levels, Str(q.units)), []);
    RenderAdd(q.levels, st.stack, Str(q.units));
    assert Render(Str(q.units)) == RenderString(q, st) + ['"'];
  }

  /** Text whose strict scan ends where it started is well-nested. */
  lemma CleanScanIsWellNested(text: string)
    requires Strict(START, text) && Scanned(START, text) == START
    ensures WellNested(text)
  {
    var p := ParseExists(text);
    assert RenderAll(p.levels[0]) == text;
  }

  /** The two views agree: well-nested text is what scans strictly back to the start, and the depth
      bound trips exactly on text nested deeper than it. */
  lemma WellNestedIffStrict(text: string)
    requires !Scanned(START, text).tooDeep
    ensures WellNested(text) <==> Strict(START, text) && Scanned(START, text) == START
  {
    if ns :| NodesOk(ns) && RenderAll(ns) == text {
      ScanNodes(START, ns);
    }
    if Strict(START, text) && Scanned(START, text) == START {
      CleanScanIsWellNested(text);
    }
  }

  lemma DepthBoundExact(ns: seq<Node>)
    requires NodesOk(ns)
    ensures Scanned(START, RenderAll(ns)).tooDeep <==> DepthAll(ns) > MAX_DEPTH
  {
    ScanNodes(START, ns);
  }
}
