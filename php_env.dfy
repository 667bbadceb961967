/**
 * The PHP API's `.env.local` loader (php-api/common.php, load_env_local): every `KEY=value`
 * line of the file is written to the process environment, to $_ENV and to $_SERVER, so a later
 * line overrides an earlier one and any value that was already set. The file system is a map
 * from path to file text.
 */
module PhpEnv {
  import opened Wrappers
  import Text

  /** `__DIR__ . '/.env.local'`. */
  const DefaultPath: string := "php-api/.env.local"

  /** PHP truthiness of the optional $file argument: null, "" and "0" are false. */
  predicate GivenPath(file: Option<string>) {
    file.Some? && file.value != "" && file.value != "0"
  }

  /** `$file ?: __DIR__ . '/.env.local'`. */
  function PathOf(file: Option<string>): (r: string)
    ensures GivenPath(file) ==> r == file.value
    ensures !GivenPath(file) ==> r == DefaultPath
  {
    if GivenPath(file) then file.value else DefaultPath
  }

  // ---------------------------------------------------------------------------------------
  // file($path, FILE_IGNORE_NEW_LINES | FILE_SKIP_EMPTY_LINES)
  // ---------------------------------------------------------------------------------------

  /**
   * A line without its line ending: the '\n' is gone already, a '\r' before it is dropped.
   * PHP keeps the '\r' of a last line that has no '\n' after it; chomping that one too makes
   * no difference: the loop trims the line for the comment test and trims the key and the value,
   * with a character set that holds '\r', and a final '\r' does not move the first '='.
   */
  function Chomp(piece: string): (r: string)
    ensures |r| <= |piece| && r == piece[..|r|]
    ensures piece != [] && piece[|piece| - 1] == '\r' ==> r + ['\r'] == piece
    ensures piece == [] || piece[|piece| - 1] != '\r' ==> r == piece
  {
    if piece != [] && piece[|piece| - 1] == '\r' then piece[..|piece| - 1] else piece
  }

  /** The non-empty lines of the text, in order. */
  function NonEmptyLines(pieces: seq<string>): (r: seq<string>)
    ensures forall i :: 0 <= i < |r| ==> r[i] != []
    ensures |r| <= |pieces|
  {
    if pieces == [] then []
    else
      var line := Chomp(pieces[0]);
      (if line == [] then [] else [line]) + NonEmptyLines(pieces[1..])
  }

  /** The lines of two stretches of text are the lines of the first, then those of the second. */
  lemma {:induction false} NonEmptyLinesAppend(a: seq<string>, b: seq<string>)
    ensures NonEmptyLines(a + b) == NonEmptyLines(a) + NonEmptyLines(b)
  {
    if a == [] {
      assert a + b == b;
    } else {
      var head: seq<string> := if Chomp(a[0]) == [] then [] else [Chomp(a[0])];
      PiecesAfterFirst(a, b);
      NonEmptyLinesAppend(a[1..], b);
      AppendAssociates(head, NonEmptyLines(a[1..]), NonEmptyLines(b));
    }
  }

  lemma PiecesAfterFirst(a: seq<string>, b: seq<string>)
    requires a != []
    ensures (a + b)[0] == a[0] && (a + b)[1..] == a[1..] + b
  {
  }

  lemma AppendAssociates<T>(x: seq<T>, y: seq<T>, z: seq<T>)
    ensures x + (y + z) == x + y + z
  {
  }

  /** A line is kept exactly when it is a non-empty chomped piece. */
  lemma {:induction false} NonEmptyLinesMember(pieces: seq<string>, x: string)
    ensures x in NonEmptyLines(pieces) <==> x != [] && exists i :: 0 <= i < |pieces| && Chomp(pieces[i]) == x
  {
    if pieces != [] {
      NonEmptyLinesMember(pieces[1..], x);
      if x != [] && Chomp(pieces[0]) != x && (exists i :: 0 <= i < |pieces| && Chomp(pieces[i]) == x) {
        var i :| 0 <= i < |pieces| && Chomp(pieces[i]) == x;
        assert pieces[1..][i - 1] == pieces[i];
      }
      if exists i :: 0 <= i < |pieces| - 1 && Chomp(pieces[1..][i]) == x {
        var i :| 0 <= i < |pieces| - 1 && Chomp(pieces[1..][i]) == x;
        assert pieces[i + 1] == pieces[1..][i];
      }
    }
  }

  /** The lines file() returns; every piece is chomped, the last one included (see Chomp). */
  function FileLines(text: string): seq<string> {
    NonEmptyLines(Text.Split(text, '\n'))
  }

  // ---------------------------------------------------------------------------------------
  // One line
  // ---------------------------------------------------------------------------------------

  /** trim() with its default character list. */
  function PhpTrim(s: string): string {
    Text.Trim(s, Text.PhpWhitespace)
  }

  /** v starts and ends with the same quote character and has room for both. */
  predicate Quoted(v: string) {
    |v| >= 2 && ((v[0] == '"' && v[|v| - 1] == '"') || (v[0] == '\'' && v[|v| - 1] == '\''))
  }

  /** One pair of enclosing quotes removed: `substr($val, 1, -1)`. */
  function Unquote(v: string): (r: string)
    ensures Quoted(v) ==> |r| == |v| - 2
    ensures !Quoted(v) ==> r == v
  {
    if Quoted(v) then v[1..|v| - 1] else v
  }

  /** A line starting with '#' after trimming. */
  predicate Comment(line: string) {
    var t := PhpTrim(line);
    t != [] && t[0] == '#'
  }

  /** The key and the value either side of the '=' at eq. */
  function SplitAt(line: string, eq: nat): (string, string)
    requires eq < |line|
  {
    (PhpTrim(line[..eq]), Unquote(PhpTrim(line[eq + 1..])))
  }

  /**
   * A line of the file: None for a comment or a line without '='; else split at the first
   * '=' of the untrimmed line, both sides trimmed, and one pair of quotes taken off the value.
   */
  function ParsePhpLine(line: string): Option<(string, string)> {
    if Comment(line) then None
    else
      match Text.IndexOf(line, '=')
      case None => None
      case Some(eq) => Some(SplitAt(line, eq))
  }

  /** Exactly the comments and the lines without '=' are skipped. */
  lemma ParsePhpLineSkips(line: string)
    ensures ParsePhpLine(line).None? <==> Comment(line) || '=' !in line
  {
  }

  /** A parsed line is the split of the line at its first '='. */
  lemma ParsePhpLineSome(line: string)
    requires ParsePhpLine(line).Some?
    ensures Text.IndexOf(line, '=').Some?
    ensures ParsePhpLine(line).value == SplitAt(line, Text.IndexOf(line, '=').value)
  {
  }

  /** A key holds no '=' and no surrounding trim() characters. */
  lemma ParsePhpLineKey(line: string)
    ensures ParsePhpLine(line).Some? ==>
      var k := ParsePhpLine(line).value.0;
      '=' !in k && (k == [] || (k[0] !in Text.PhpWhitespace && k[|k| - 1] !in Text.PhpWhitespace))
  {
    if ParsePhpLine(line).Some? {
      ParsePhpLineSome(line);
      var eq := Text.IndexOf(line, '=').value;
      KeyOfSplit(line, eq);
    }
  }

  lemma KeyOfSplit(line: string, eq: nat)
    requires eq < |line| && '=' !in line[..eq]
    ensures var k := SplitAt(line, eq).0;
      '=' !in k && (k == [] || (k[0] !in Text.PhpWhitespace && k[|k| - 1] !in Text.PhpWhitespace))
  {
    var s := line[..eq];
    var k := PhpTrim(s);
    var j := Text.TrimIsSlice(s, Text.PhpWhitespace);
    forall i | 0 <= i < |k|
      ensures k[i] != '='
    {
      assert k[i] == s[j + i];
    }
  }

  /** Quoting a value and unquoting it gives the value back, whatever it contains. */
  lemma UnquoteQuoted(q: char, v: string)
    requires q == '"' || q == '\''
    ensures Unquote([q] + v + [q]) == v
  {
    var w := [q] + v + [q];
    assert w[0] == q && w[|w| - 1] == q;
    assert w[1..|w| - 1] == v;
  }

  predicate TrimFree(s: string) {
    s == [] || (s[0] !in Text.PhpWhitespace && s[|s| - 1] !in Text.PhpWhitespace)
  }

  /**
   * A line `key="value"` (or with single quotes) reads back as exactly (key, value): the quotes
   * protect surrounding blanks, inner quotes and '=' signs in the value.
   */
  lemma ParseQuotedPair(key: string, q: char, value: string)
    requires q == '"' || q == '\''
    requires '=' !in key && TrimFree(key) && (key == [] || key[0] != '#')
    ensures ParsePhpLine(key + ['='] + ([q] + value + [q])) == Some((key, value))
  {
    var v := [q] + value + [q];
    var line := key + ['='] + v;
    assert v[0] == q && v[|v| - 1] == q;
    NotComment(key, v);
    IndexAfterKey(key, v);
    ParseOfPlain(line, |key|);
    SplitOfQuoted(key, q, value);
  }

  lemma SplitOfQuoted(key: string, q: char, value: string)
    requires q == '"' || q == '\''
    requires TrimFree(key)
    ensures SplitAt(key + ['='] + ([q] + value + [q]), |key|) == (key, value)
  {
    var v := [q] + value + [q];
    var line := key + ['='] + v;
    assert line[..|key|] == key && line[|key| + 1..] == v;
    Text.TrimFixed(key, Text.PhpWhitespace);
    QuotesKeptByTrim(q, v);
    UnquoteQuoted(q, value);
  }

  lemma QuotesKeptByTrim(q: char, v: string)
    requires q == '"' || q == '\''
    requires |v| >= 2 && v[0] == q && v[|v| - 1] == q
    ensures PhpTrim(v) == v
  {
    Text.TrimFixed(v, Text.PhpWhitespace);
  }

  lemma NotComment(key: string, v: string)
    requires TrimFree(key) && (key == [] || key[0] != '#')
    requires v != [] && v[|v| - 1] !in Text.PhpWhitespace
    ensures !Comment(key + ['='] + v)
  {
    var line := key + ['='] + v;
    assert line[0] == (if key == [] then '=' else key[0]);
    assert line[|line| - 1] == v[|v| - 1];
    Text.TrimFixed(line, Text.PhpWhitespace);
  }

  lemma IndexAfterKey(key: string, v: string)
    requires '=' !in key
    ensures Text.IndexOf(key + ['='] + v, '=') == Some(|key|)
  {
    var line := key + ['='] + v;
    assert line[|key|] == '=';
    assert forall k :: 0 <= k < |key| ==> line[k] == key[k];
  }

  lemma ParseOfPlain(line: string, eq: nat)
    requires !Comment(line) && Text.IndexOf(line, '=') == Some(eq)
    ensures ParsePhpLine(line) == Some(SplitAt(line, eq))
  {
  }

  // ---------------------------------------------------------------------------------------
  // The environment
  // ---------------------------------------------------------------------------------------

  /** The line's pair written over vars, if the line holds one. */
  function Put(vars: map<string, string>, line: string): map<string, string> {
    var parsed := ParsePhpLine(line);
    if parsed.None? then vars else vars[parsed.value.0 := parsed.value.1]
  }

  /** vars after the lines, in file order. */
  function Applied(vars: map<string, string>, lines: seq<string>): map<string, string> {
    if lines == [] then vars else Put(Applied(vars, lines[..|lines| - 1]), lines[|lines| - 1])
  }

  /** The value of the last line that holds key, if one does. */
  function LastValue(lines: seq<string>, key: string): Option<string> {
    if lines == [] then None
    else
      var parsed := ParsePhpLine(lines[|lines| - 1]);
      if parsed.Some? && parsed.value.0 == key then Some(parsed.value.1)
      else LastValue(lines[..|lines| - 1], key)
  }

  lemma PutAt(vars: map<string, string>, line: string, key: string)
    ensures var p := ParsePhpLine(line); var r := Put(vars, line);
      (key in r <==> key in vars || (p.Some? && p.value.0 == key)) &&
      (p.Some? && p.value.0 == key ==> r[key] == p.value.1) &&
      (!(p.Some? && p.value.0 == key) && key in vars ==> r[key] == vars[key])
  {
  }

  /** The last line for a key decides its value; a key no line names keeps what it had. */
  lemma {:induction false} LastLineWins(vars: map<string, string>, lines: seq<string>, key: string)
    ensures key in Applied(vars, lines) <==> key in vars || LastValue(lines, key).Some?
    ensures LastValue(lines, key).Some? ==> Applied(vars, lines)[key] == LastValue(lines, key).value
    ensures LastValue(lines, key).None? && key in vars ==> Applied(vars, lines)[key] == vars[key]
  {
    if lines != [] {
      var init, last := lines[..|lines| - 1], lines[|lines| - 1];
      var before := Applied(vars, init);
      var p := ParsePhpLine(last);
      assert Applied(vars, lines) == Put(before, last);
      LastLineWins(vars, init, key);
      PutAt(before, last, key);
      if p.Some? && p.value.0 == key {
        assert LastValue(lines, key) == Some(p.value.1);
      } else {
        assert LastValue(lines, key) == LastValue(init, key);
      }
    }
  }

  lemma AppliedPrefix(vars: map<string, string>, lines: seq<string>, i: nat)
    requires i < |lines|
    ensures Applied(vars, lines[..i + 1]) == Put(Applied(vars, lines[..i]), lines[i])
  {
    assert lines[..i + 1][..i] == lines[..i];
  }

  /** getenv/putenv, $_ENV and $_SERVER. */
  class Environment {
    var env: map<string, string>
    var envArray: map<string, string>
    var server: map<string, string>

    constructor(env0: map<string, string>, envArray0: map<string, string>, server0: map<string, string>)
      ensures env == env0 && envArray == envArray0 && server == server0
    {
      env := env0;
      envArray := envArray0;
      server := server0;
    }

    /** `putenv("$key=$val"); $_ENV[$key] = $val; $_SERVER[$key] = $val;` */
    method Set(key: string, val: string)
      modifies this
      ensures env == old(env)[key := val]
      ensures envArray == old(envArray)[key := val]
      ensures server == old(server)[key := val]
    {
      env := env[key := val];
      envArray := envArray[key := val];
      server := server[key := val];
    }

    /** The body of the foreach loop. */
    method LoadLine(line: string)
      modifies this
      ensures env == Put(old(env), line)
      ensures envArray == Put(old(envArray), line)
      ensures server == Put(old(server), line)
    {
      var parsed := ParsePhpLine(line);
      if parsed.Some? {
        Set(parsed.value.0, parsed.value.1);
      }
    }

    /** The foreach loop over the file's lines. */
    method LoadLines(lines: seq<string>)
      modifies this
      ensures env == Applied(old(env), lines)
      ensures envArray == Applied(old(envArray), lines)
      ensures server == Applied(old(server), lines)
    {
      for i := 0 to |lines|
        invariant env == Applied(old(env), lines[..i])
        invariant envArray == Applied(old(envArray), lines[..i])
        invariant server == Applied(old(server), lines[..i])
      {
        AppliedPrefix(old(env), lines, i);
        AppliedPrefix(old(envArray), lines, i);
        AppliedPrefix(old(server), lines, i);
        LoadLine(lines[i]);
      }
      assert lines[..|lines|] == lines;
    }

    /** load_env_local: nothing changes when the file does not exist. */
    method LoadEnvLocal(files: map<string, string>, file: Option<string>)
      modifies this
      ensures PathOf(file) !in files ==> env == old(env) && envArray == old(envArray) && server == old(server)
      ensures PathOf(file) in files ==>
        var lines := FileLines(files[PathOf(file)]);
        env == Applied(old(env), lines) && envArray == Applied(old(envArray), lines) &&
        server == Applied(old(server), lines)
    {
      var path := PathOf(file);
      if path !in files {
        return;
      }
      var lines := FileLines(files[path]);
      LoadLines(lines);
    }
  }
}
