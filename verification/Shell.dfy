// The `export` lines cmd/configenv prints for shell scripts, and a reader that
// takes them apart as a POSIX shell does (Shell Command Language of
// POSIX.1-2017, sections 2.2.1, 2.2.2 and 2.3). Strings are byte strings.

module Shell {
  import opened Options

  // ---------------------------------------------------------------- the writer

  datatype Var = Var(name: string, value: string)

  /** strings.ReplaceAll(s, "'", `'\''`) */
  function Escaped(s: string): string {
    if s == "" then ""
    else (if s[0] == '\'' then ['\'', '\\', '\'', '\''] else [s[0]]) + Escaped(s[1..])
  }

  function ShellQuote(s: string): string { ['\''] + Escaped(s) + ['\''] }

  function Line(v: Var): string { "export " + v.name + "=" + ShellQuote(v.value) + "\n" }

  function Rendered(vars: seq<Var>): string {
    if vars == [] then "" else Rendered(vars[..|vars| - 1]) + Line(vars[|vars| - 1])
  }

  const NAMES := ["DB_HOST", "DB_PORT", "DB_USER", "DB_PASSWORD", "DB_NAME", "CASHI_SECRET_KEY", "APP_ENVIRONMENT"]

  /** The values are the configuration's, in the order of NAMES. */
  method Render(values: seq<string>) returns (out: string)
    requires |values| == |NAMES|
    ensures out == Rendered(Vars(values))
  {
    out := "";
    var vars := Vars(values);
    for i := 0 to |vars|
      invariant out == Rendered(vars[..i])
    {
      assert vars[..i + 1][..i] == vars[..i];
      out := out + "export " + vars[i].name + "=" + ShellQuote(vars[i].value) + "\n";
      assert out == Rendered(vars[..i]) + Line(vars[i]);
    }
    assert vars[..|vars|] == vars;
  }

  function Vars(values: seq<string>): seq<Var>
    requires |values| == |NAMES|
  {
    seq(|NAMES|, i requires 0 <= i < |NAMES| => Var(NAMES[i], values[i]))
  }

  // ---------------------------------------------------------------- the reader

  /** Between words, in a word outside quotes, or inside single quotes. */
  datatype Mode = Between | InWord | InQuote

  /** Characters that mean something to a shell when they are not quoted; the
      reader gives up on them, so what it accepts has only literal words. */
  predicate IsSpecial(c: char) { c in "|&;<>()$`\"*?[]#~!{}%\r\0" }

  predicate IsBlank(c: char) { c == ' ' || c == '\t' }

  /** The commands of a script, each a list of words after quote removal; None
      where the script ends inside quotes or leaves this fragment. */
  function Read(s: string, mode: Mode, word: string, command: seq<string>, done: seq<seq<string>>): Option<seq<seq<string>>>
  {
    if s == "" then
      if mode == InQuote then None else Some(Finish(mode, word, command, done))
    else if s[0] == '\0' then None
    else if mode == InQuote then
      // 2.2.2: everything up to the next single quote is literal.
      if s[0] == '\'' then Read(s[1..], InWord, word, command, done)
      else Read(s[1..], InQuote, word + [s[0]], command, done)
    else if s[0] == '\'' then Read(s[1..], InQuote, word, command, done)
    else if s[0] == '\\' then
      // 2.2.1: a backslash keeps the next character, and joins lines at a newline.
      if |s| == 1 || s[1] == '\0' then None
      else if s[1] == '\n' then Read(s[2..], mode, word, command, done)
      else Read(s[2..], InWord, word + [s[1]], command, done)
    else if s[0] == '\n' then Read(s[1..], Between, "", [], Finish(mode, word, command, done))
    else if IsBlank(s[0]) then Read(s[1..], Between, "", Close(mode, word, command), done)
    else if IsSpecial(s[0]) then None
    else Read(s[1..], InWord, word + [s[0]], command, done)
  }

  function Close(mode: Mode, word: string, command: seq<string>): seq<string> {
    if mode == Between then command else command + [word]
  }

  function Finish(mode: Mode, word: string, command: seq<string>, done: seq<seq<string>>): seq<seq<string>> {
    if Close(mode, word, command) == [] then done else done + [Close(mode, word, command)]
  }

  predicate IsNameChar(c: char) {
    'A' <= c <= 'Z' || 'a' <= c <= 'z' || '0' <= c <= '9' || c == '_'
  }

  predicate IsName(s: string) {
    s != "" && !('0' <= s[0] <= '9') && forall c <- s :: IsNameChar(c)
  }

  /** An argument of export: a name, the first '=', and the value. */
  function SplitAssignment(s: string): Option<Var> {
    if s == "" then None
    else if s[0] == '=' then Some(Var("", s[1..]))
    else match SplitAssignment(s[1..])
      case None => None
      case Some(v) => Some(Var([s[0]] + v.name, v.value))
  }

  /** The assignments of a script made of `export NAME=VALUE` commands only. */
  function Assignments(commands: seq<seq<string>>): Option<seq<Var>> {
    if commands == [] then Some([])
    else
      var n := |commands| - 1;
      var before := Assignments(commands[..n]);
      if before.None? || |commands[n]| != 2 || commands[n][0] != "export" then None
      else match SplitAssignment(commands[n][1])
        case None => None
        case Some(v) => if IsName(v.name) then Some(before.value + [v]) else None
  }

  function Evaluated(script: string): Option<seq<Var>> {
    match Read(script, Between, "", [], [])
    case None => None
    case Some(commands) => Assignments(commands)
  }

  /** What "$(…)" hands on: the output without its trailing newlines. */
  function Captured(s: string): string {
    if s != "" && s[|s| - 1] == '\n' then Captured(s[..|s| - 1]) else s
  }

  /** The value a variable has after the assignments, the last one winning. */
  function ValueOf(vars: seq<Var>, name: string): Option<string> {
    if vars == [] then None
    else if vars[|vars| - 1].name == name then Some(vars[|vars| - 1].value)
    else ValueOf(vars[..|vars| - 1], name)
  }

  // ---------------------------------------------------------------- reading back

  predicate NulFree(s: string) { '\0' !in s }

  /** One character of input, by what it is. */
  lemma ReadFirst(c: char, rest: string, mode: Mode, word: string, command: seq<string>, done: seq<seq<string>>)
    requires c != '\0'
    ensures mode == InQuote && c != '\'' ==> Read([c] + rest, mode, word, command, done) == Read(rest, InQuote, word + [c], command, done)
    ensures mode == InQuote && c == '\'' ==> Read([c] + rest, mode, word, command, done) == Read(rest, InWord, word, command, done)
    ensures mode != InQuote && c == '\'' ==> Read([c] + rest, mode, word, command, done) == Read(rest, InQuote, word, command, done)
    ensures mode != InQuote && c == '\n' ==> Read([c] + rest, mode, word, command, done) == Read(rest, Between, "", [], Finish(mode, word, command, done))
    ensures mode != InQuote && c == ' ' ==> Read([c] + rest, mode, word, command, done) == Read(rest, Between, "", Close(mode, word, command), done)
    ensures mode != InQuote && IsPlain(c) ==> Read([c] + rest, mode, word, command, done) == Read(rest, InWord, word + [c], command, done)
  {
    hide IsSpecial, Close, Finish;
    var s := [c] + rest;
    assert s[0] == c && s[1..] == rest;
  }

  lemma ReadBackslash(c: char, rest: string, mode: Mode, word: string, command: seq<string>, done: seq<seq<string>>)
    requires c != '\0' && c != '\n' && mode != InQuote
    ensures Read(['\\', c] + rest, mode, word, command, done) == Read(rest, InWord, word + [c], command, done)
  {
    hide IsSpecial, Close, Finish;
    var s := ['\\', c] + rest;
    assert s[0] == '\\' && s[1] == c && s[2..] == rest;
  }

  /** A quoted value is read as itself, whatever comes before and after it. */
  lemma {:induction false} ReadEscaped(v: string, rest: string, word: string, command: seq<string>, done: seq<seq<string>>)
    requires NulFree(v)
    ensures Read(Escaped(v) + ['\''] + rest, InQuote, word, command, done) == Read(rest, InWord, word + v, command, done)
  {
    hide Read;
    if v == "" {
      ReadFirst('\'', rest, InQuote, word, command, done);
      assert Escaped(v) + ['\''] + rest == ['\''] + rest;
      assert word + v == word;
    } else {
      var tail := Escaped(v[1..]) + ['\''] + rest;
      var longer := word + [v[0]];
      ReadEscaped(v[1..], rest, longer, command, done);
      assert word + v == longer + v[1..];
      if v[0] == '\'' {
        var reopened := ['\''] + tail;
        ReadFirst('\'', ['\\', '\''] + reopened, InQuote, word, command, done);
        ReadBackslash('\'', reopened, InWord, word, command, done);
        ReadFirst('\'', tail, InWord, longer, command, done);
        assert Escaped(v) + ['\''] + rest == ['\''] + (['\\', '\''] + reopened);
      } else {
        ReadFirst(v[0], tail, InQuote, word, command, done);
        assert Escaped(v) + ['\''] + rest == [v[0]] + tail;
      }
    }
  }

  predicate IsPlain(c: char) {
    !IsSpecial(c) && !IsBlank(c) && c != '\n' && c != '\'' && c != '\\' && c != '\0'
  }

  lemma {:induction false} ReadPlain(p: string, rest: string, mode: Mode, word: string, command: seq<string>, done: seq<seq<string>>)
    requires forall c <- p :: IsPlain(c)
    requires mode == InWord || (mode == Between && p != "")
    ensures Read(p + rest, mode, word, command, done) == Read(rest, InWord, word + p, command, done)
  {
    hide Read, IsSpecial;
    if p == "" {
      assert p + rest == rest && word + p == word;
    } else {
      ReadPlain(p[1..], rest, InWord, word + [p[0]], command, done);
      assert IsPlain(p[0]) by { assert p[0] in p; }
      ReadFirst(p[0], p[1..] + rest, mode, word, command, done);
      assert p + rest == [p[0]] + (p[1..] + rest);
      assert word + [p[0]] + p[1..] == word + p;
    }
  }

  function Command(v: Var): seq<string> { ["export", v.name + "=" + v.value] }

  lemma ReadLine(v: Var, rest: string, done: seq<seq<string>>)
    requires IsName(v.name) && NulFree(v.value)
    ensures Read(Line(v) + rest, Between, "", [], done) == Read(rest, Between, "", [], done + [Command(v)])
    ensures Read(Line(v)[..|Line(v)| - 1], Between, "", [], done) == Some(done + [Command(v)])
  {
    hide Read, Escaped;
    ReadUpToNewline(v, "\n" + rest, done);
    ReadFirst('\n', rest, InWord, v.name + "=" + v.value, ["export"], done);
    assert Line(v) + rest == "export " + v.name + "=" + ShellQuote(v.value) + ("\n" + rest);
    assert ["export"] + [v.name + "=" + v.value] == Command(v);
    ReadUpToNewline(v, "", done);
    ReadEnd(v.name + "=" + v.value, ["export"], done);
    assert Line(v)[..|Line(v)| - 1] == "export " + v.name + "=" + ShellQuote(v.value) + "";
  }

  lemma ReadEnd(word: string, command: seq<string>, done: seq<seq<string>>)
    ensures Read("", InWord, word, command, done) == Some(done + [command + [word]])
  {}

  lemma NameIsPlain(name: string)
    requires IsName(name)
    ensures forall c <- name + "=" :: IsPlain(c)
  {}

  lemma ReadExport(rest: string, done: seq<seq<string>>)
    ensures Read("export " + rest, Between, "", [], done) == Read(rest, Between, "", ["export"], done)
  {
    hide Read, IsSpecial;
    NameIsPlain("export");
    assert forall c <- "export" :: c in "export" + "=";
    ReadPlain("export", [' '] + rest, Between, "", [], done);
    assert "" + "export" == "export";
    ReadFirst(' ', rest, InWord, "export", [], done);
    assert Close(InWord, "export", []) == ["export"];
    assert "export " + rest == "export" + ([' '] + rest);
  }

  lemma ReadUpToNewline(v: Var, rest: string, done: seq<seq<string>>)
    requires IsName(v.name) && NulFree(v.value)
    ensures Read("export " + v.name + "=" + ShellQuote(v.value) + rest, Between, "", [], done)
            == Read(rest, InWord, v.name + "=" + v.value, ["export"], done)
  {
    hide Escaped, Read, IsSpecial;
    var assigning := v.name + "=";
    NameIsPlain(v.name);
    var quoted := Escaped(v.value) + ['\''] + rest;
    var third := ['\''] + quoted;
    var second := assigning + third;
    ReadExport(second, done);
    ReadPlain(assigning, third, Between, "", ["export"], done);
    assert "" + assigning == assigning;
    ReadFirst('\'', quoted, InWord, assigning, ["export"], done);
    ReadEscaped(v.value, rest, assigning, ["export"], done);
    assert "export " + v.name + "=" + ShellQuote(v.value) + rest == "export " + second;
  }

  function Commands(vars: seq<Var>): seq<seq<string>> {
    if vars == [] then [] else Commands(vars[..|vars| - 1]) + [Command(vars[|vars| - 1])]
  }

  predicate Exportable(vars: seq<Var>) {
    forall v <- vars :: IsName(v.name) && NulFree(v.value)
  }

  lemma {:induction false} ReadRendered(vars: seq<Var>, rest: string)
    requires Exportable(vars)
    ensures Read(Rendered(vars) + rest, Between, "", [], []) == Read(rest, Between, "", [], Commands(vars))
  {
    if vars == [] {
      assert Rendered(vars) + rest == rest;
    } else {
      var n := |vars| - 1;
      ReadRendered(vars[..n], Line(vars[n]) + rest);
      assert Rendered(vars) + rest == Rendered(vars[..n]) + (Line(vars[n]) + rest);
      ReadLine(vars[n], rest, Commands(vars[..n]));
    }
  }

  lemma {:induction false} SplitsAtFirst(name: string, value: string)
    requires '=' !in name
    ensures SplitAssignment(name + "=" + value) == Some(Var(name, value))
  {
    var s := name + "=" + value;
    if name == "" {
      assert s[1..] == value;
    } else {
      SplitsAtFirst(name[1..], value);
      assert s[0] == name[0] && s[1..] == name[1..] + "=" + value;
      assert [name[0]] + name[1..] == name;
    }
  }

  lemma {:induction false} AssignmentsOf(vars: seq<Var>)
    requires Exportable(vars)
    ensures Assignments(Commands(vars)) == Some(vars)
  {
    if vars != [] {
      var n := |vars| - 1;
      AssignmentsOf(vars[..n]);
      SplitsAtFirst(vars[n].name, vars[n].value);
      CommandsLength(vars[..n]);
      var commands := Commands(vars);
      assert commands[..n] == Commands(vars[..n]) && commands[n] == Command(vars[n]);
      assert vars == vars[..n] + [vars[n]] && vars[n] in vars;
      assert Var(vars[n].name, vars[n].value) == vars[n];
      assert '=' !in vars[n].name;
    }
  }

  lemma {:induction false} CommandsLength(vars: seq<Var>)
    ensures |Commands(vars)| == |vars|
  {
    if vars != [] { CommandsLength(vars[..|vars| - 1]); }
  }

  // ---------------------------------------------------------------- NUL

  /** A script with a NUL anywhere is not read at all. */
  lemma {:induction false} NulIsRefused(s: string, mode: Mode, word: string, command: seq<string>, done: seq<seq<string>>)
    requires '\0' in s
    ensures Read(s, mode, word, command, done) == None
    decreases |s|
  {
    if s[0] != '\0' {
      assert s == [s[0]] + s[1..];
      if mode == InQuote {
        NulIsRefused(s[1..], if s[0] == '\'' then InWord else InQuote, if s[0] == '\'' then word else word + [s[0]], command, done);
      } else if s[0] == '\\' {
        if |s| > 1 && s[1] != '\0' {
          assert s == s[..2] + s[2..];
          assert s[..2] == [s[0], s[1]];
          NulIsRefused(s[2..], if s[1] == '\n' then mode else InWord, if s[1] == '\n' then word else word + [s[1]], command, done);
        }
      } else {
        forall m: Mode, w, c, d ensures Read(s[1..], m, w, c, d) == None { NulIsRefused(s[1..], m, w, c, d); }
      }
    }
  }

  lemma {:induction false} EscapedKeepsNul(v: string)
    requires '\0' in v
    ensures '\0' in Escaped(v)
  {
    if v[0] != '\0' {
      assert v == [v[0]] + v[1..];
      EscapedKeepsNul(v[1..]);
    }
  }

  lemma {:induction false} RenderedKeepsNul(vars: seq<Var>, i: nat)
    requires i < |vars| && !NulFree(vars[i].value)
    ensures '\0' in Rendered(vars)
  {
    var n := |vars| - 1;
    if i == n {
      EscapedKeepsNul(vars[n].value);
      assert '\0' in ShellQuote(vars[n].value);
      assert '\0' in Line(vars[n]);
    } else {
      RenderedKeepsNul(vars[..n], i);
    }
  }

  // ---------------------------------------------------------------- the round trip

  /** A shell that reads the rendered lines performs exactly the assignments they
      were rendered from, in order and byte for byte, exactly if no value holds a
      NUL. The same for the captured output, without its last newline. */
  lemma RoundTrip(vars: seq<Var>)
    requires forall v <- vars :: IsName(v.name)
    ensures Evaluated(Rendered(vars)) == Some(vars) <==> forall v <- vars :: NulFree(v.value)
    ensures Exportable(vars) ==> Evaluated(Captured(Rendered(vars))) == Some(vars)
  {
    if Exportable(vars) {
      assert Rendered(vars) + "" == Rendered(vars);
      ReadRendered(vars, "");
      AssignmentsOf(vars);
      if vars != [] { ReadCaptured(vars); }
    } else {
      var v :| v in vars && !NulFree(v.value);
      var i :| 0 <= i < |vars| && vars[i] == v;
      RenderedKeepsNul(vars, i);
      NulIsRefused(Rendered(vars), Between, "", [], []);
    }
  }

  lemma ReadCaptured(vars: seq<Var>)
    requires vars != [] && Exportable(vars)
    ensures Read(Captured(Rendered(vars)), Between, "", [], []) == Some(Commands(vars))
  {
    var n := |vars| - 1;
    var line := Line(vars[n]);
    var cut := line[..|line| - 1];
    var s := Rendered(vars);
    assert s[..|s| - 1] == Rendered(vars[..n]) + cut;
    assert cut[|cut| - 1] == '\'' by {
      assert line[|line| - 2] == ShellQuote(vars[n].value)[|ShellQuote(vars[n].value)| - 1];
    }
    assert Captured(s) == s[..|s| - 1];
    ReadRendered(vars[..n], cut);
    ReadLine(vars[n], "", Commands(vars[..n]));
  }

  lemma NamesAreNames()
    ensures forall i :: 0 <= i < |NAMES| ==> IsName(NAMES[i])
    ensures forall i, j :: 0 <= i < j < |NAMES| ==> NAMES[i] != NAMES[j]
  {
    var firsts := seq(|NAMES|, i requires 0 <= i < |NAMES| => (|NAMES[i]|, NAMES[i][0], NAMES[i][3]));
    assert firsts == [(7, 'D', 'H'), (7, 'D', 'P'), (7, 'D', 'U'), (11, 'D', 'P'), (7, 'D', 'N'), (16, 'C', 'H'), (15, 'A', '_')];
  }

  /** The variables the scripts read get exactly the configuration's values. */
  lemma ScriptsSeeTheConfig(values: seq<string>, i: nat)
    requires |values| == |NAMES| && i < |NAMES|
    requires forall v <- values :: NulFree(v)
    ensures Evaluated(Captured(Rendered(Vars(values)))).Some?
    ensures ValueOf(Evaluated(Captured(Rendered(Vars(values)))).value, NAMES[i]) == Some(values[i])
  {
    var vars := Vars(values);
    forall v | v in vars ensures IsName(v.name) && NulFree(v.value) {
      var j :| 0 <= j < |vars| && vars[j] == v;
      assert values[j] in values;
      NamesAreNames();
    }
    hide Evaluated, Captured, Rendered;
    RoundTrip(vars);
    NamesAreNames();
    LastWins(vars, i);
  }

  lemma {:induction false} LastWins(vars: seq<Var>, i: nat)
    requires i < |vars| && forall j :: i < j < |vars| ==> vars[j].name != vars[i].name
    ensures ValueOf(vars, vars[i].name) == Some(vars[i].value)
  {
    if i < |vars| - 1 { LastWins(vars[..|vars| - 1], i); }
  }
}
