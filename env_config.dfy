/**
 * The Python API's configuration (python_api/config.py): `_load_env_file` copies the pairs of
 * the first `.env.local` that exists into the process environment without overwriting anything,
 * `load_from_env` reads the settings from the environment over the class defaults, and
 * `validate` refuses a configuration without database name or user.
 * The file system is a map from path to file text; os.environ is the Environment object.
 */
module EnvConfig {
  import opened Wrappers
  import Text

  /** os.environ. */
  class Environment {
    var vars: map<string, string>

    constructor(initial: map<string, string>)
      ensures vars == initial
    {
      vars := initial;
    }

    /** os.environ.setdefault(key, value); false is the ValueError of a pair putenv refuses, which sets nothing. */
    method SetDefault(key: string, value: string) returns (ok: bool)
      modifies this
      ensures ok <==> !Raises(old(vars), key, value)
      ensures vars == if ok then WithDefault(old(vars), key, value) else old(vars)
    {
      if key in vars {
        return true;
      }
      if !Settable(key, value) {
        return false;
      }
      vars := vars[key := value];
      ok := true;
    }
  }

  /** The candidate files, in the order they are tried: beside config.py, then the PHP API's. */
  const LocalEnvPath: string := "python_api/.env.local"
  const PhpEnvPath: string := "php-api/.env.local"

  // ---------------------------------------------------------------------------------------
  // One line
  // ---------------------------------------------------------------------------------------

  predicate WsFree(s: string) {
    s == [] || (s[0] !in Text.PyWhitespace && s[|s| - 1] !in Text.PyWhitespace)
  }

  /** str.strip(). */
  function Strip(s: string): string {
    Text.Trim(s, Text.PyWhitespace)
  }

  /** `value.strip().strip('"').strip("'")`. */
  function StripValue(v: string): string {
    Text.Trim(Text.Trim(Strip(v), {'"'}), {'\''})
  }

  /** The key and the value either side of the '=' at i. */
  function SplitAt(t: string, i: nat): (string, string)
    requires i < |t|
  {
    (Strip(t[..i]), StripValue(t[i + 1..]))
  }

  /** A stripped line that is skipped: empty, a comment, or without '='. */
  predicate Skipped(t: string) {
    t == [] || t[0] == '#' || '=' !in t
  }

  /**
   * A line of the file: stripped; skipped (None) when empty, a comment or without '='; else
   * split at the first '=', the key stripped, the value stripped of whitespace, then of every
   * leading and trailing '"', then of every leading and trailing "'".
   */
  function ParseLine(line: string): Option<(string, string)> {
    var t := Strip(line);
    if t == [] || t[0] == '#' then None
    else
      match Text.IndexOf(t, '=')
      case None => None
      case Some(i) => Some(SplitAt(t, i))
  }

  /** Exactly the empty lines, the comments and the lines without '=' are skipped. */
  lemma ParseLineSkips(line: string)
    ensures ParseLine(line).None? <==> Skipped(Strip(line))
  {
  }

  /** A key holds no '=' and no surrounding whitespace. */
  lemma ParseLineKey(line: string)
    ensures ParseLine(line).Some? ==> '=' !in ParseLine(line).value.0 && WsFree(ParseLine(line).value.0)
  {
    var t := Strip(line);
    if ParseLine(line).Some? {
      var i := Text.IndexOf(t, '=').value;
      TrimKeepsAbsent(t[..i], Text.PyWhitespace, '=');
    }
  }

  /** Neither end of v is a single quote. */
  predicate Unquoted(v: string) {
    v == [] || (v[0] != '\'' && v[|v| - 1] != '\'')
  }

  /** A value has no surrounding single quote. */
  lemma ParseLineValue(line: string)
    ensures ParseLine(line).Some? ==> Unquoted(ParseLine(line).value.1)
  {
    if ParseLine(line).Some? {
      ParseLineSome(line);
      StripValueEnds(Strip(line)[Text.IndexOf(Strip(line), '=').value + 1..]);
    }
  }

  /** A parsed line is the split of its stripped text at the first '='. */
  lemma ParseLineSome(line: string)
    requires ParseLine(line).Some?
    ensures Strip(line) != [] && Text.IndexOf(Strip(line), '=').Some?
    ensures ParseLine(line).value == SplitAt(Strip(line), Text.IndexOf(Strip(line), '=').value)
  {
  }

  lemma StripValueEnds(v: string)
    ensures Unquoted(StripValue(v))
  {
    TrimUnquoted(Text.Trim(Strip(v), {'"'}));
  }

  lemma TrimUnquoted(a: string)
    ensures Unquoted(Text.Trim(a, {'\''}))
  {
  }

  lemma TrimKeepsAbsent(s: string, cs: set<char>, c: char)
    requires c !in s
    ensures c !in Text.Trim(s, cs)
  {
    var r := Text.Trim(s, cs);
    var j := Text.TrimIsSlice(s, cs);
    forall k | 0 <= k < |r|
      ensures r[k] != c
    {
      assert r[k] == s[j + k];
    }
  }

  /** A value that no stripping step changes. */
  predicate PlainValue(v: string) {
    WsFree(v) && (v == [] || (v[0] != '"' && v[|v| - 1] != '"' && v[0] != '\'' && v[|v| - 1] != '\''))
  }

  /** Writing `key=value` and reading the line back gives the pair, for any key and value that survive stripping. */
  lemma ParseLineOfPair(key: string, value: string)
    requires '=' !in key && WsFree(key) && (key == [] || key[0] != '#')
    requires PlainValue(value)
    ensures ParseLine(key + ['='] + value) == Some((key, value))
  {
    var line := key + ['='] + value;
    PairLineStripped(key, value);
    IndexAfterPrefix(key, value);
    ParseOfStripped(line, |key|);
    SplitOfPair(key, value);
    Text.TrimFixed(key, Text.PyWhitespace);
    StripValueFixed(value);
  }

  lemma ParseOfStripped(line: string, i: nat)
    requires Strip(line) == line && line != [] && line[0] != '#'
    requires Text.IndexOf(line, '=') == Some(i)
    ensures ParseLine(line) == Some(SplitAt(line, i))
  {
  }

  lemma SplitOfPair(key: string, value: string)
    ensures SplitAt(key + ['='] + value, |key|) == (Strip(key), StripValue(value))
  {
    var line := key + ['='] + value;
    assert line[..|key|] == key && line[|key| + 1..] == value;
  }

  lemma PairLineStripped(key: string, value: string)
    requires WsFree(key) && WsFree(value) && (key == [] || key[0] != '#')
    ensures |key + ['='] + value| > 0 && (key + ['='] + value)[0] != '#'
    ensures Strip(key + ['='] + value) == key + ['='] + value
  {
    var line := key + ['='] + value;
    assert line[0] == (if key == [] then '=' else key[0]);
    assert line[|line| - 1] == (if value == [] then '=' else value[|value| - 1]);
    EqualsIsNotWhitespace();
    Text.TrimFixed(line, Text.PyWhitespace);
  }

  lemma StripValueFixed(value: string)
    requires PlainValue(value)
    ensures StripValue(value) == value
  {
    Text.TrimFixed(value, Text.PyWhitespace);
    Text.TrimFixed(value, {'"'});
    Text.TrimFixed(value, {'\''});
  }

  lemma EqualsIsNotWhitespace()
    ensures '=' !in Text.PyWhitespace
  {
  }

  lemma IndexAfterPrefix(key: string, value: string)
    requires '=' !in key
    ensures Text.IndexOf(key + ['='] + value, '=') == Some(|key|)
  {
    var line := key + ['='] + value;
    assert line[|key|] == '=';
    assert forall k :: 0 <= k < |key| ==> line[k] == key[k];
  }

  // ---------------------------------------------------------------------------------------
  // A file's lines into the environment (os.environ.setdefault)
  // ---------------------------------------------------------------------------------------

  /** os.environ.setdefault(key, value) when it does not raise: a key already present keeps its value. */
  function WithDefault(vars: map<string, string>, key: string, value: string): (r: map<string, string>)
    ensures key in r && r[key] == (if key in vars then vars[key] else value)
    ensures forall k :: k != key ==> (k in r <==> k in vars) && (k in vars ==> r[k] == vars[k])
  {
    if key in vars then vars else vars[key := value]
  }

  /**
   * A pair POSIX putenv accepts: a non-empty name without '=', and no NUL in name or value.
   * Otherwise os.environ's item assignment raises ValueError.
   */
  predicate Settable(key: string, value: string) {
    key != [] && '=' !in key && '\0' !in key && '\0' !in value
  }

  /** setdefault only assigns, and so only raises, when the key is absent. */
  predicate Raises(vars: map<string, string>, key: string, value: string) {
    key !in vars && !Settable(key, value)
  }

  /**
   * One line: the environment after setdefault of the line's pair, if any, and false when that
   * setdefault raises, which leaves the environment as it was.
   */
  function Apply(vars: map<string, string>, line: string): (map<string, string>, bool) {
    var parsed := ParseLine(line);
    if parsed.None? then (vars, true)
    else if Raises(vars, parsed.value.0, parsed.value.1) then (vars, false)
    else (WithDefault(vars, parsed.value.0, parsed.value.1), true)
  }

  /**
   * The environment after the lines in file order, and whether every line went through: the
   * first raising line ends the loop, and _load_env_file with it, keeping what was set before.
   */
  function Load(vars: map<string, string>, lines: seq<string>): (map<string, string>, bool)
  {
    Fold(vars, lines, Apply)
  }

  /**
   * A loop over lines whose body may raise: the state after the lines, the body applied to each
   * in order, and whether every line went through; the first raising line ends the loop.
   */
  function Fold(vars: map<string, string>, lines: seq<string>,
                step: (map<string, string>, string) -> (map<string, string>, bool)): (map<string, string>, bool)
  {
    if lines == [] then (vars, true)
    else
      var before := Fold(vars, lines[..|lines| - 1], step);
      if !before.1 then before else step(before.0, lines[|lines| - 1])
  }

  /** The value of the first line that holds key, if one does. */
  function FirstValue(lines: seq<string>, key: string): Option<string>
  {
    if lines == [] then None
    else
      var parsed := ParseLine(lines[0]);
      if parsed.Some? && parsed.value.0 == key then Some(parsed.value.1) else FirstValue(lines[1..], key)
  }

  lemma {:induction false} FirstValueAppend(lines: seq<string>, line: string, key: string)
    ensures FirstValue(lines + [line], key) ==
      if FirstValue(lines, key).Some? then FirstValue(lines, key)
      else if ParseLine(line).Some? && ParseLine(line).value.0 == key then Some(ParseLine(line).value.1)
      else None
  {
    if lines == [] {
      assert [line][1..] == [];
    } else {
      assert (lines + [line])[1..] == lines[1..] + [line];
      FirstValueAppend(lines[1..], line, key);
    }
  }

  /**
   * Nothing already set is overwritten, even when a line raises; and when every line went
   * through, a key the environment lacks gets the value of its first line in the file.
   */
  lemma {:induction false} LoadedKeepsAndTakesFirst(vars: map<string, string>, lines: seq<string>, key: string)
    ensures key in vars ==> key in Load(vars, lines).0 && Load(vars, lines).0[key] == vars[key]
    ensures Load(vars, lines).1 ==>
      (key in Load(vars, lines).0 <==> key in vars || FirstValue(lines, key).Some?)
    ensures Load(vars, lines).1 && key !in vars && FirstValue(lines, key).Some? ==>
      Load(vars, lines).0[key] == FirstValue(lines, key).value
  {
    if lines != [] {
      var init := lines[..|lines| - 1];
      var last := lines[|lines| - 1];
      LoadedKeepsAndTakesFirst(vars, init, key);
      assert init + [last] == lines;
      LoadedStep(vars, init, last);
      FirstValueAppend(init, last, key);
      ApplyAt(Load(vars, init).0, last, key);
    }
  }

  /** What one line does to one key, when it does not raise; a raising line changes nothing. */
  lemma ApplyAt(vars: map<string, string>, line: string, key: string)
    ensures var p := ParseLine(line); var r := Apply(vars, line);
      (r.1 ==> (key in r.0 <==> key in vars || (p.Some? && p.value.0 == key))) &&
      (key in vars ==> key in r.0 && r.0[key] == vars[key]) &&
      (r.1 && key !in vars && p.Some? && p.value.0 == key ==> r.0[key] == p.value.1) &&
      (!r.1 ==> r.0 == vars)
  {
  }

  /** Exactly the lines whose pair is new and rejected by putenv raise. */
  lemma ApplyRaises(vars: map<string, string>, line: string)
    ensures !Apply(vars, line).1 <==> ParseLine(line).Some? && Raises(vars, ParseLine(line).value.0, ParseLine(line).value.1)
  {
  }

  /** A line `=value` has the empty key, which putenv refuses unless the environment has it already. */
  lemma EmptyKeyRaises(vars: map<string, string>, value: string)
    requires "" !in vars && PlainValue(value)
    ensures !Apply(vars, ['='] + value).1
  {
    var line := "" + ['='] + value;
    assert line == ['='] + value;
    ParseLineOfPair("", value);
    ApplyOfPair(vars, line, "", value);
  }

  lemma ApplyOfPair(vars: map<string, string>, line: string, key: string, value: string)
    requires ParseLine(line) == Some((key, value))
    ensures Apply(vars, line).1 <==> !Raises(vars, key, value)
  {
  }

  lemma LoadedStep(vars: map<string, string>, lines: seq<string>, line: string)
    ensures Load(vars, lines + [line]) ==
      if Load(vars, lines).1 then Apply(Load(vars, lines).0, line) else Load(vars, lines)
  {
    FoldStep(vars, lines, line, Apply);
  }

  lemma FoldStep(vars: map<string, string>, lines: seq<string>, line: string,
                 step: (map<string, string>, string) -> (map<string, string>, bool))
    ensures Fold(vars, lines + [line], step) ==
      if Fold(vars, lines, step).1 then step(Fold(vars, lines, step).0, line) else Fold(vars, lines, step)
  {
    assert (lines + [line])[..|lines|] == lines;
  }

  /** Once a line has raised, the lines after it change nothing. */
  lemma LoadAfterFailure(vars: map<string, string>, lines: seq<string>, n: nat)
    requires n <= |lines| && !Load(vars, lines[..n]).1
    ensures Load(vars, lines) == Load(vars, lines[..n])
  {
    FoldAfterFailure(vars, lines, n, Apply);
  }

  lemma {:induction false} FoldAfterFailure(vars: map<string, string>, lines: seq<string>, n: nat,
                                            step: (map<string, string>, string) -> (map<string, string>, bool))
    requires n <= |lines| && !Fold(vars, lines[..n], step).1
    ensures Fold(vars, lines, step) == Fold(vars, lines[..n], step)
    decreases |lines|
  {
    if n == |lines| {
      assert lines[..n] == lines;
    } else {
      var init := lines[..|lines| - 1];
      assert init[..n] == lines[..n];
      FoldAfterFailure(vars, init, n, step);
    }
  }

  lemma RaisingLineKeeps(vars: map<string, string>, line: string)
    ensures !Apply(vars, line).1 ==> Apply(vars, line).0 == vars
  {
  }

  /**
   * A load that did not go through stopped at line i: the lines before it went through, line i
   * raised, and the environment is what those lines made of it.
   */
  lemma LoadStopsAtFirstRaise(vars: map<string, string>, lines: seq<string>)
    returns (i: nat, before: map<string, string>)
    requires !Load(vars, lines).1
    ensures i < |lines| && Load(vars, lines[..i]) == (before, true)
    ensures !Apply(before, lines[i]).1
    ensures Load(vars, lines) == (before, false)
  {
    i, before := FoldFirstFailure(vars, lines, Apply);
    RaisingLineKeeps(before, lines[i]);
  }

  /** The line at which a failing loop stops, and the state before it. */
  lemma {:induction false} FoldFirstFailure(vars: map<string, string>, lines: seq<string>,
                                            step: (map<string, string>, string) -> (map<string, string>, bool))
    returns (i: nat, before: map<string, string>)
    requires !Fold(vars, lines, step).1
    ensures i < |lines| && Fold(vars, lines[..i], step) == (before, true)
    ensures !step(before, lines[i]).1 && Fold(vars, lines, step) == step(before, lines[i])
    decreases |lines|
  {
    var init := lines[..|lines| - 1];
    if Fold(vars, init, step).1 {
      i, before := |init|, Fold(vars, init, step).0;
    } else {
      i, before := FoldFirstFailure(vars, init, step);
      assert init[..i] == lines[..i] && init[i] == lines[i];
    }
  }

  /** A file none of whose pairs putenv refuses goes through whatever the environment holds. */
  lemma {:induction false} LoadCompletes(vars: map<string, string>, lines: seq<string>)
    requires forall j :: 0 <= j < |lines| && ParseLine(lines[j]).Some? ==>
      Settable(ParseLine(lines[j]).value.0, ParseLine(lines[j]).value.1)
    ensures Load(vars, lines).1
  {
    if lines != [] {
      LoadCompletes(vars, lines[..|lines| - 1]);
    }
  }

  /** One pass of the loop body: parse the line and setdefault its pair; false when that raises. */
  method LoadLine(env: Environment, line: string) returns (ok: bool)
    modifies env
    ensures (env.vars, ok) == Apply(old(env.vars), line)
  {
    var parsed := ParseLine(line);
    ok := true;
    if parsed.Some? {
      ok := env.SetDefault(parsed.value.0, parsed.value.1);
    }
  }

  /** The `for line in f` loop; false when a line raised, ending it there. */
  method LoadLines(env: Environment, lines: seq<string>) returns (ok: bool)
    modifies env
    ensures (env.vars, ok) == Load(old(env.vars), lines)
  {
    for i := 0 to |lines|
      invariant (env.vars, true) == Load(old(env.vars), lines[..i])
    {
      assert lines[..i + 1] == lines[..i] + [lines[i]];
      LoadedStep(old(env.vars), lines[..i], lines[i]);
      ok := LoadLine(env, lines[i]);
      if !ok {
        LoadAfterFailure(old(env.vars), lines, i + 1);
        return;
      }
    }
    assert lines[..|lines|] == lines;
    ok := true;
  }

  /** The candidate files, in the order they are tried. */
  const EnvPaths: seq<string> := [LocalEnvPath, PhpEnvPath]

  /** The text of the first of paths that exists. */
  function FirstFile(files: map<string, string>, paths: seq<string>): (r: Option<string>)
    ensures r.None? <==> forall i :: 0 <= i < |paths| ==> paths[i] !in files
    ensures r.Some? ==> exists i :: 0 <= i < |paths| && paths[i] in files && r.value == files[paths[i]]
  {
    if paths == [] then None
    else if paths[0] in files then Some(files[paths[0]])
    else FirstFile(files, paths[1..])
  }

  /** The text of the file _load_env_file reads. */
  function EnvFile(files: map<string, string>): Option<string> {
    FirstFile(files, EnvPaths)
  }

  /**
   * open(path, "r") reads in universal-newline mode: a "\r\n" pair and a lone '\r' each become
   * one '\n'.
   */
  function Newlines(t: string): (r: string)
    ensures |r| <= |t|
    decreases |t|
  {
    if t == [] then []
    else if t[0] == '\r' then
      if |t| > 1 && t[1] == '\n' then ['\n'] + Newlines(t[2..]) else ['\n'] + Newlines(t[1..])
    else [t[0]] + Newlines(t[1..])
  }

  /** No '\r' survives the translation. */
  lemma {:induction false} NewlinesHaveNoReturn(t: string)
    ensures '\r' !in Newlines(t)
    decreases |t|
  {
    if t != [] {
      if t[0] == '\r' && |t| > 1 && t[1] == '\n' {
        NewlinesHaveNoReturn(t[2..]);
      } else {
        NewlinesHaveNoReturn(t[1..]);
      }
    }
  }

  /** Text without a '\r' reads back unchanged. */
  lemma {:induction false} NewlinesFixed(t: string)
    requires '\r' !in t
    ensures Newlines(t) == t
    decreases |t|
  {
    if t != [] {
      assert t[1..] == t[1..] && '\r' !in t[1..] by {
        forall k | 0 <= k < |t[1..]| ensures t[1..][k] != '\r' {
          assert t[1..][k] == t[k + 1];
        }
      }
      NewlinesFixed(t[1..]);
      assert t == [t[0]] + t[1..];
    }
  }

  /** Stretches translate separately unless the first ends in '\r' and the second begins with '\n'. */
  lemma {:induction false} NewlinesAppend(a: string, b: string)
    requires a == [] || a[|a| - 1] != '\r'
    ensures Newlines(a + b) == Newlines(a) + Newlines(b)
    decreases |a|
  {
    if a != [] {
      var ab := a + b;
      assert ab[0] == a[0];
      if a[0] != '\r' {
        assert ab[1..] == a[1..] + b;
        NewlinesAppend(a[1..], b);
        assert Newlines(ab) == [a[0]] + Newlines(a[1..] + b);
        assert Newlines(a) == [a[0]] + Newlines(a[1..]);
      } else {
        assert |a| > 1;
        assert ab[1] == a[1];
        if a[1] == '\n' {
          assert ab[2..] == a[2..] + b;
          NewlinesAppend(a[2..], b);
          assert Newlines(ab) == ['\n'] + Newlines(a[2..] + b);
          assert Newlines(a) == ['\n'] + Newlines(a[2..]);
        } else {
          assert ab[1..] == a[1..] + b;
          NewlinesAppend(a[1..], b);
          assert Newlines(ab) == ['\n'] + Newlines(a[1..] + b);
          assert Newlines(a) == ['\n'] + Newlines(a[1..]);
        }
      }
    } else {
      assert a + b == b;
    }
  }

  /** Each of the three line endings ends a line. */
  lemma NewlinesOfEnding(a: string, ending: string, b: string)
    requires '\r' !in a
    requires IsEnding(ending, b)
    ensures Newlines(a + ending + b) == a + "\n" + Newlines(b)
  {
    var t := ending + b;
    assert Newlines(a + t) == a + Newlines(t) by {
      assert a != [] ==> a[|a| - 1] in a;
      NewlinesAppend(a, t);
      NewlinesFixed(a);
    }
    assert a + Newlines(t) == a + "\n" + Newlines(b) by {
      EndingBecomesNewline(ending, b);
    }
    assert a + ending + b == a + t;
  }

  /** A line ending, where a lone '\r' is not followed by the '\n' that would make it a pair. */
  predicate IsEnding(ending: string, b: string) {
    ending == "\n" || ending == "\r\n" || (ending == "\r" && (b == [] || b[0] != '\n'))
  }

  lemma EndingBecomesNewline(ending: string, b: string)
    requires IsEnding(ending, b)
    ensures Newlines(ending + b) == "\n" + Newlines(b)
  {
    var t := ending + b;
    if ending == "\r\n" {
      assert t[0] == '\r' && t[1] == '\n' && t[2..] == b;
    } else {
      assert t[1..] == b;
    }
  }

  /** `for line in f` yields the file's lines; each is stripped before use, so its newline does not matter. */
  function Lines(text: string): (r: seq<string>)
    ensures forall line :: line in r ==> '\n' !in line && '\r' !in line
  {
    var parts := Text.Split(Newlines(text), '\n');
    NewlinesHaveNoReturn(text);
    Text.SplitKeepsAbsent(Newlines(text), '\n', '\r');
    parts
  }

  /** A lone '\r' ends a line, as it does in universal-newline mode. */
  lemma ReturnEndsLine()
    ensures Lines("A=1\rB=2") == ["A=1", "B=2"]
  {
    NewlinesOfEnding("A=1", "\r", "B=2");
    assert "A=1" + "\r" + "B=2" == "A=1\rB=2";
    NewlinesFixed("B=2");
    Text.SplitTwo("A=1", '\n', "B=2");
    assert "A=1" + "\n" + "B=2" == "A=1" + ['\n'] + "B=2";
  }


  /** The environment after _load_env_file, and false when a line of the file raised. */
  function AfterEnvFile(vars: map<string, string>, files: map<string, string>): (map<string, string>, bool) {
    match EnvFile(files)
    case None => (vars, true)
    case Some(text) => Load(vars, Lines(text))
  }

  /**
   * _load_env_file: the candidates are tried in order and the loop breaks after the first file
   * that exists; with neither present the environment is unchanged. False when a line raised.
   */
  method LoadEnvFile(env: Environment, files: map<string, string>) returns (ok: bool)
    modifies env
    ensures (env.vars, ok) == AfterEnvFile(old(env.vars), files)
  {
    var paths := EnvPaths;
    for p := 0 to |paths|
      invariant env.vars == old(env.vars)
      invariant FirstFile(files, paths) == FirstFile(files, paths[p..])
    {
      assert paths[p..][1..] == paths[p + 1..];
      if paths[p] in files {
        ok := LoadLines(env, Lines(files[paths[p]]));
        return;
      }
    }
    ok := true;
  }

  /** With the local file present, the PHP API's file is never read. */
  lemma OnlyFirstFileRead(vars: map<string, string>, files: map<string, string>, other: string)
    requires LocalEnvPath in files
    ensures AfterEnvFile(vars, files[PhpEnvPath := other]) == AfterEnvFile(vars, files)
  {
    assert LocalEnvPath != PhpEnvPath;
  }

  // ---------------------------------------------------------------------------------------
  // Config
  // ---------------------------------------------------------------------------------------

  /** The values of Config's class attributes. */
  datatype Settings = Settings(
    dbHost: string,
    dbPort: int,
    dbName: Option<string>,
    dbUser: Option<string>,
    dbPassword: string,
    pythonAsrUrl: string,
    smtpHost: string,
    smtpPort: int,
    smtpUser: Option<string>,
    smtpPassword: Option<string>,
    smtpFromName: string,
    codeExpireMinutes: int)

  const Defaults: Settings := Settings(
    "localhost", 5432, None, None, "", "http://127.0.0.1:50000/api/v1/asr",
    "smtp.qq.com", 587, None, None, "方言宝", 10)

  const MissingDbMessage: string := "数据库配置缺失: DB_NAME 和 DB_USER 是必需的"

  /** os.getenv(key, default). */
  function GetEnv(e: map<string, string>, key: string, default: string): (r: string)
    ensures key in e ==> r == e[key]
    ensures key !in e ==> r == default
  {
    if key in e then e[key] else default
  }

  /** os.getenv(key): None when unset. */
  function Lookup(e: map<string, string>, key: string): (r: Option<string>)
    ensures r.Some? <==> key in e
    ensures r.Some? ==> r.value == e[key]
  {
    if key in e then Some(e[key]) else None
  }

  /** `int(os.getenv(key, str(current)))`; None is the ValueError of a malformed number. */
  function IntSetting(e: map<string, string>, key: string, current: int): Option<int> {
    Text.ParseInt(GetEnv(e, key, Text.IntToString(current)))
  }

  /**
   * load_from_env after the file: the settings in assignment order, and whether it ran to the
   * end. A malformed DB_PORT, SMTP_PORT or CODE_EXPIRE_MINUTES raises, leaving the attributes
   * assigned before it changed and the rest as they were.
   */
  function FromEnv(s: Settings, e: map<string, string>): (Settings, bool) {
    Assign(s, e, IntSetting(e, "DB_PORT", s.dbPort), IntSetting(e, "SMTP_PORT", s.smtpPort),
           IntSetting(e, "CODE_EXPIRE_MINUTES", s.codeExpireMinutes))
  }

  /** The assignments of load_from_env, given the outcomes of its three int() conversions. */
  function Assign(s: Settings, e: map<string, string>, dbPort: Option<int>, smtpPort: Option<int>,
                  minutes: Option<int>): (Settings, bool)
  {
    var s1 := s.(dbHost := GetEnv(e, "DB_HOST", s.dbHost));
    if dbPort.None? then (s1, false) else
    var s2 := s1.(dbPort := dbPort.value, dbName := Lookup(e, "DB_NAME"), dbUser := Lookup(e, "DB_USER"),
                  dbPassword := GetEnv(e, "DB_PASSWORD", s.dbPassword),
                  pythonAsrUrl := GetEnv(e, "PYTHON_ASR_URL", s.pythonAsrUrl),
                  smtpHost := GetEnv(e, "SMTP_HOST", s.smtpHost));
    if smtpPort.None? then (s2, false) else
    var s3 := s2.(smtpPort := smtpPort.value, smtpUser := Lookup(e, "SMTP_USER"),
                  smtpPassword := Lookup(e, "SMTP_PASSWORD"),
                  smtpFromName := GetEnv(e, "SMTP_FROM_NAME", s.smtpFromName));
    if minutes.None? then (s3, false) else (s3.(codeExpireMinutes := minutes.value), true)
  }

  /** An unset integer setting keeps its current value: int(str(n)) == n. */
  lemma UnsetIntKept(e: map<string, string>, key: string, current: int)
    requires key !in e
    ensures IntSetting(e, key, current).Some? && IntSetting(e, key, current).value == current
  {
    Text.ParseIntToString(current);
  }

  /**
   * With none of the keys set, loading succeeds and keeps every attribute except the four
   * read without a default, which become None.
   */
  lemma UnsetKeysFallBack(s: Settings, e: map<string, string>)
    requires forall k :: k in e ==> k !in ConfigKeys
    ensures FromEnv(s, e) == (s.(dbName := None, dbUser := None, smtpUser := None, smtpPassword := None), true)
  {
    UnsetIntKept(e, "DB_PORT", s.dbPort);
    UnsetIntKept(e, "SMTP_PORT", s.smtpPort);
    UnsetIntKept(e, "CODE_EXPIRE_MINUTES", s.codeExpireMinutes);
  }

  const ConfigKeys: set<string> := {
    "DB_HOST", "DB_PORT", "DB_NAME", "DB_USER", "DB_PASSWORD", "PYTHON_ASR_URL",
    "SMTP_HOST", "SMTP_PORT", "SMTP_USER", "SMTP_PASSWORD", "SMTP_FROM_NAME", "CODE_EXPIRE_MINUTES"
  }

  /** Python truthiness of an optional string: not None and not empty. */
  predicate Given(s: Option<string>) {
    s.Some? && s.value != ""
  }

  /** A loaded configuration passes validate exactly when DB_NAME and DB_USER are set and non-empty. */
  lemma ValidAfterLoad(s: Settings, e: map<string, string>, dbPort: Option<int>, smtpPort: Option<int>,
                       minutes: Option<int>)
    requires Assign(s, e, dbPort, smtpPort, minutes).1
    ensures var r := Assign(s, e, dbPort, smtpPort, minutes).0;
      Given(r.dbName) && Given(r.dbUser) <==>
      "DB_NAME" in e && e["DB_NAME"] != "" && "DB_USER" in e && e["DB_USER"] != ""
  {
  }

  /** Config: its class attributes, held as one Settings record that load_from_env reassigns field by field. */
  class Config {
    var attrs: Settings

    /** The class body's defaults. */
    constructor()
      ensures attrs == Defaults
    {
      attrs := Defaults;
    }

    /**
     * load_from_env: the .env.local file, then each attribute from the environment; false where
     * a line of the file raises (no attribute is assigned then) or where int() raises.
     */
    method LoadFromEnv(env: Environment, files: map<string, string>) returns (ok: bool)
      modifies this, env
      ensures env.vars == AfterEnvFile(old(env.vars), files).0
      ensures !AfterEnvFile(old(env.vars), files).1 ==> !ok && attrs == old(attrs)
      ensures AfterEnvFile(old(env.vars), files).1 ==> (attrs, ok) == FromEnv(old(attrs), env.vars)
    {
      ok := LoadEnvFile(env, files);
      if !ok {
        return;
      }
      ok := ReadSettings(env.vars);
    }

    /** The assignments of load_from_env from the environment e, in source order. */
    method ReadSettings(e: map<string, string>) returns (ok: bool)
      modifies this
      ensures (attrs, ok) == FromEnv(old(attrs), e)
    {
      attrs := attrs.(dbHost := GetEnv(e, "DB_HOST", attrs.dbHost));
      var port := IntSetting(e, "DB_PORT", attrs.dbPort);
      if port.None? {
        return false;
      }
      attrs := attrs.(dbPort := port.value);
      attrs := attrs.(dbName := Lookup(e, "DB_NAME"));
      attrs := attrs.(dbUser := Lookup(e, "DB_USER"));
      attrs := attrs.(dbPassword := GetEnv(e, "DB_PASSWORD", attrs.dbPassword));
      attrs := attrs.(pythonAsrUrl := GetEnv(e, "PYTHON_ASR_URL", attrs.pythonAsrUrl));
      attrs := attrs.(smtpHost := GetEnv(e, "SMTP_HOST", attrs.smtpHost));
      var sport := IntSetting(e, "SMTP_PORT", attrs.smtpPort);
      if sport.None? {
        return false;
      }
      attrs := attrs.(smtpPort := sport.value);
      attrs := attrs.(smtpUser := Lookup(e, "SMTP_USER"));
      attrs := attrs.(smtpPassword := Lookup(e, "SMTP_PASSWORD"));
      attrs := attrs.(smtpFromName := GetEnv(e, "SMTP_FROM_NAME", attrs.smtpFromName));
      var minutes := IntSetting(e, "CODE_EXPIRE_MINUTES", attrs.codeExpireMinutes);
      if minutes.None? {
        return false;
      }
      attrs := attrs.(codeExpireMinutes := minutes.value);
      ok := true;
    }

    /** validate: the RuntimeError's message when DB_NAME or DB_USER is None or empty. */
    method Validate() returns (error: Option<string>)
      ensures error.Some? <==> !Given(attrs.dbName) || !Given(attrs.dbUser)
      ensures error.Some? ==> error.value == MissingDbMessage
    {
      if !Given(attrs.dbName) || !Given(attrs.dbUser) {
        return Some(MissingDbMessage);
      }
      return None;
    }
  }
}
