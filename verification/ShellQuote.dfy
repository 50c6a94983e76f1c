/** The export lines that a shell evaluates. The reader below follows the quoting rules of the
    POSIX.1-2017 Shell Command Language, sections 2.2.1 and 2.2.2, and the token rules of section
    2.3 for blanks and newlines; any other special character outside quotes makes it give up. */
module ShellQuote {

  datatype Mode = Bare | Quoted | Escaped

  /** Commands read so far, words of the current one, the word in progress if there is one. */
  datatype Reader = Reader(commands: seq<seq<string>>, words: seq<string>, inWord: bool, word: string, mode: Mode,
    bad: bool)

  const START := Reader([], [], false, "", Bare, false)

  predicate Special(c: char) {
    c in "|&;<>()$`\"*?[#~%\r"
  }

  function EndWord(r: Reader): Reader {
    if r.inWord then r.(words := r.words + [r.word], inWord := false, word := "") else r
  }

  function EndCommand(r: Reader): Reader {
    var e := EndWord(r);
    if e.words == [] then e else e.(commands := e.commands + [e.words], words := [])
  }

  function Put(r: Reader, c: char): Reader {
    r.(inWord := true, word := r.word + [c])
  }

  function Step(r: Reader, c: char): Reader {
    if r.bad then r
    else match r.mode
      case Quoted => if c == '\'' then r.(mode := Bare) else Put(r, c)
      case Escaped => if c == '\n' then r.(mode := Bare) else Put(r, c).(mode := Bare)
      case Bare =>
        if c == '\'' then r.(mode := Quoted, inWord := true)
        else if c == '\\' then r.(mode := Escaped)
        else if c == ' ' || c == '\t' then EndWord(r)
        else if c == '\n' then EndCommand(r)
        else if Special(c) then r.(bad := true)
        else Put(r, c)
  }

  function Read(r: Reader, text: string): Reader {
    if text == "" then r else Step(Read(r, text[..|text| - 1]), text[|text| - 1])
  }

  lemma {:induction false} ReadConcat(r: Reader, a: string, b: string)
    ensures Read(r, a + b) == Read(Read(r, a), b)
  {
    if b == "" {
      assert a + b == a;
    } else {
      assert (a + b)[..|a + b| - 1] == a + b[..|b| - 1];
      ReadConcat(r, a, b[..|b| - 1]);
    }
  }

  lemma ReadOne(r: Reader, c: char)
    ensures Read(r, [c]) == Step(r, c)
  {
    assert [c][..0] == "";
  }

  /* ---- quoting ---- */

  /** Every quote replaced by: close, escaped quote, reopen. */
  function Replaced(s: string): string {
    if s == "" then "" else Replaced(s[..|s| - 1]) + if s[|s| - 1] == '\'' then "'\\''" else [s[|s| - 1]]
  }

  function Quote(s: string): string {
    "'" + Replaced(s) + "'"
  }

  lemma {:induction false} ReadReplaced(r: Reader, s: string)
    requires !r.bad && r.mode == Quoted && r.inWord
    ensures Read(r, Replaced(s)) == r.(word := r.word + s)
  {
    if s == "" {
      assert r.word + s == r.word;
    } else {
      var p, c := s[..|s| - 1], s[|s| - 1];
      ReadReplaced(r, p);
      assert s == p + [c];
      var here := r.(word := r.word + p);
      if c == '\'' {
        ReadConcat(r, Replaced(p), "'\\''");
        ReadEscapedQuote(here);
      } else {
        ReadConcat(r, Replaced(p), [c]);
        ReadOne(here, c);
      }
      assert here.word + [c] == r.word + s;
    }
  }

  lemma ReadEscapedQuote(r: Reader)
    requires !r.bad && r.mode == Quoted && r.inWord
    ensures Read(r, "'\\''") == r.(word := r.word + "'")
  {
    assert "'\\''" == ['\''] + ['\\'] + ['\''] + ['\''];
    ReadConcat(r, ['\''] + ['\\'] + ['\''], ['\'']);
    ReadConcat(r, ['\''] + ['\\'], ['\'']);
    ReadConcat(r, ['\''], ['\\']);
    ReadOne(r, '\'');
    ReadOne(r.(mode := Bare), '\\');
    ReadOne(r.(mode := Escaped), '\'');
    ReadOne(r.(mode := Bare, word := r.word + "'"), '\'');
  }

  /** Quoted text reads as exactly its content, appended to the word in progress, whatever
      characters it contains. */
  lemma ReadQuote(r: Reader, s: string)
    requires !r.bad && r.mode == Bare
    ensures Read(r, Quote(s)) == r.(inWord := true, word := r.word + s)
  {
    var open := r.(mode := Quoted, inWord := true);
    ReadConcat(r, "'" + Replaced(s), "'");
    ReadConcat(r, "'", Replaced(s));
    ReadOne(r, '\'');
    ReadReplaced(open, s);
    ReadOne(open.(word := r.word + s), '\'');
  }

  /** A quoted value alone is the single word it quotes. */
  lemma QuoteIsOneWord(s: string)
    ensures var r := EndWord(Read(START, Quote(s))); !r.bad && r.mode == Bare && r.words == [s]
  {
    ReadQuote(START, s);
    assert "" + s == s;
  }

  /* ---- the export lines ---- */

  datatype Variable = Variable(name: string, value: string)

  datatype ExportVars = ExportVars(contextId: string, worktreeId: string, realHome: string, stateDir: string,
    shimDir: string)

  function Export(v: Variable): string {
    "export " + (v.name + "=") + Quote(v.value) + "\n"
  }

  function ExportAll(vs: seq<Variable>): string {
    if vs == [] then "" else ExportAll(vs[..|vs| - 1]) + Export(vs[|vs| - 1])
  }

  /** The five assignments; a sixth line extends PATH with a double-quoted expansion. */
  function Variables(v: ExportVars): seq<Variable> {
    [Variable("OMCA_CONTEXT_ID", v.contextId), Variable("OMCA_WORKTREE_ID", v.worktreeId),
     Variable("OMCA_REAL_HOME", v.realHome), Variable("OMCA_STATE_DIR", v.stateDir),
     Variable("OMCA_SHIM_DIR", v.shimDir)]
  }

  function Assignment(v: Variable): seq<string> {
    ["export", v.name + "=" + v.value]
  }

  function Assignments(vs: seq<Variable>): seq<seq<string>> {
    if vs == [] then [] else Assignments(vs[..|vs| - 1]) + [Assignment(vs[|vs| - 1])]
  }

  /** Letters, digits, `_` and `=`: never special to the shell. */
  predicate PlainWord(w: string) {
    forall i | 0 <= i < |w| :: 'A' <= w[i] <= 'Z' || 'a' <= w[i] <= 'z' || '0' <= w[i] <= '9' || w[i] == '_'
      || w[i] == '='
  }

  lemma {:induction false} ReadPlain(r: Reader, w: string)
    requires !r.bad && r.mode == Bare && PlainWord(w)
    ensures Read(r, w) == r.(inWord := r.inWord || w != "", word := r.word + w)
  {
    if w == "" {
      assert r.word + w == r.word;
    } else {
      var p, c := w[..|w| - 1], w[|w| - 1];
      ReadPlain(r, p);
      assert r.word + p + [c] == r.word + w;
    }
  }

  /** Between words, nothing of the next one read yet. */
  predicate Between(r: Reader) {
    !r.bad && r.mode == Bare && !r.inWord && r.word == ""
  }

  lemma ReadWordAndBlank(r: Reader, w: string)
    requires Between(r) && w != "" && PlainWord(w)
    ensures Read(r, w + " ") == r.(words := r.words + [w])
  {
    ReadPlain(r, w);
    assert "" + w == w;
    ReadConcat(r, w, " ");
    ReadOne(r.(inWord := true, word := w), ' ');
  }

  lemma ReadAssignment(r: Reader, v: Variable)
    requires Between(r) && PlainWord(v.name)
    ensures Read(r, (v.name + "=") + Quote(v.value)) == r.(inWord := true, word := v.name + "=" + v.value)
  {
    var key := v.name + "=";
    ReadPlain(r, key);
    assert "" + key == key;
    ReadConcat(r, key, Quote(v.value));
    ReadQuote(r.(inWord := true, word := key), v.value);
  }

  lemma ReadExport(r: Reader, v: Variable)
    requires Between(r) && r.words == [] && PlainWord(v.name)
    ensures Read(r, Export(v)) == r.(commands := r.commands + [Assignment(v)])
  {
    var rest := (v.name + "=") + Quote(v.value);
    var r1 := r.(words := ["export"]);
    var r2 := r1.(inWord := true, word := v.name + "=" + v.value);
    ReadWordAndBlank(r, "export");
    assert "export" + " " == "export " && r.words + ["export"] == ["export"];
    ReadAssignment(r1, v);
    ReadConcat(r, "export ", rest);
    assert Read(r, "export " + rest) == r2;
    ReadConcat(r, "export " + rest, "\n");
    ReadOne(r2, '\n');
    assert Export(v) == ("export " + rest) + "\n";
    assert ["export"] + [v.name + "=" + v.value] == Assignment(v);
  }

  /** A shell reads one export command per line, each carrying its value unchanged. */
  lemma {:induction false} ExportsReadBack(vs: seq<Variable>)
    requires forall i | 0 <= i < |vs| :: PlainWord(vs[i].name)
    ensures Read(START, ExportAll(vs)) == START.(commands := Assignments(vs))
  {
    if vs != [] {
      var p, v := vs[..|vs| - 1], vs[|vs| - 1];
      ExportsReadBack(p);
      ReadConcat(START, ExportAll(p), Export(v));
      ReadExport(START.(commands := Assignments(p)), v);
    }
  }

  lemma PrintedExportsReadBack(v: ExportVars)
    ensures Read(START, ExportAll(Variables(v))) == START.(commands := Assignments(Variables(v)))
  {
    NamesArePlain();
    ExportsReadBack(Variables(v));
  }

  lemma NamesArePlain()
    ensures PlainWord("OMCA_CONTEXT_ID") && PlainWord("OMCA_WORKTREE_ID") && PlainWord("OMCA_REAL_HOME")
    ensures PlainWord("OMCA_STATE_DIR") && PlainWord("OMCA_SHIM_DIR")
  {
  }
}
