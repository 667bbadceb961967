/**
 * String helpers shared by the models: trimming by a character set (Python's str.strip and
 * PHP's trim), Python's str.split with a one-character separator, character search, and
 * decimal rendering and parsing of integers.
 */
module Text {
  import opened Wrappers

  /** The characters Python's str.isspace() accepts: tab to carriage return, the four separators 0x1C-0x1F, space, and the Unicode spaces. */
  predicate IsPySpace(c: char) {
    ('\t' <= c <= '\r') || ('\U{1C}' <= c <= ' ') || c == '\U{85}' || c == '\U{A0}' || c == '\U{1680}' ||
    ('\U{2000}' <= c <= '\U{200A}') || c == '\U{2028}' || c == '\U{2029}' || c == '\U{202F}' ||
    c == '\U{205F}' || c == '\U{3000}'
  }

  /** str.strip() without arguments removes these. */
  const PyWhitespace: set<char> := set c: char | IsPySpace(c)

  /**
   * The whitespace int() skips around a number. int() first maps every non-ASCII whitespace
   * character to a space and keeps ASCII as it is, then skips only the C-locale spaces: tab to
   * carriage return and space. So the separators 0x1C-0x1F, which str.strip() removes, are not
   * skipped.
   */
  predicate IsIntSpace(c: char) {
    IsPySpace(c) && !('\U{1C}' <= c <= '\U{1F}')
  }

  const IntWhitespace: set<char> := set c: char | IsIntSpace(c)

  /** PHP trim()'s default character list: space, tab, LF, CR, NUL and vertical tab. */
  const PhpWhitespace: set<char> := {' ', '\t', '\n', '\r', '\0', '\U{0B}'}

  /** Removes the longest prefix made of characters of cs. */
  function TrimLeft(s: string, cs: set<char>): (r: string)
    ensures |r| <= |s| && r == s[|s| - |r|..]
    ensures r == [] || r[0] !in cs
    ensures forall i :: 0 <= i < |s| - |r| ==> s[i] in cs
  {
    if s != [] && s[0] in cs then TrimLeft(s[1..], cs) else s
  }

  /** Removes the longest suffix made of characters of cs. */
  function TrimRight(s: string, cs: set<char>): (r: string)
    ensures |r| <= |s| && r == s[..|r|]
    ensures r == [] || r[|r| - 1] !in cs
    ensures forall i :: |r| <= i < |s| ==> s[i] in cs
  {
    if s != [] && s[|s| - 1] in cs then TrimRight(s[..|s| - 1], cs) else s
  }

  /** Both ends trimmed: Python's s.strip(chars) and PHP's trim($s, $chars). */
  function Trim(s: string, cs: set<char>): (r: string)
    ensures |r| <= |s|
    ensures r == [] || (r[0] !in cs && r[|r| - 1] !in cs)
  {
    TrimRight(TrimLeft(s, cs), cs)
  }

  /**
   * What Trim keeps is one contiguous piece of its input, starting at the returned offset, and
   * every character it removes on either side is in cs.
   */
  lemma TrimIsSlice(s: string, cs: set<char>) returns (i: nat)
    ensures i + |Trim(s, cs)| <= |s| && Trim(s, cs) == s[i..i + |Trim(s, cs)|]
    ensures forall j :: 0 <= j < i || i + |Trim(s, cs)| <= j < |s| ==> s[j] in cs
  {
    var t := Trim(s, cs);
    var lead, trail := TrimParts(s, cs);
    i := |lead|;
    assert s[i..i + |t|] == t;
    forall j | 0 <= j < i || i + |t| <= j < |s|
      ensures s[j] in cs
    {
      if j < i {
        assert s[j] == lead[j];
      } else {
        assert s[j] == trail[j - i - |t|];
      }
    }
  }

  /** Trim removes exactly the padding of cs characters around a core whose ends are not in cs. */
  lemma TrimOfPadded(lead: string, core: string, trail: string, cs: set<char>)
    requires forall j :: 0 <= j < |lead| ==> lead[j] in cs
    requires forall j :: 0 <= j < |trail| ==> trail[j] in cs
    requires core != [] && core[0] !in cs && core[|core| - 1] !in cs
    ensures Trim(lead + core + trail, cs) == core
  {
    assert lead + core + trail == lead + (core + trail);
    TrimLeftOfPadded(lead, core + trail, cs);
    TrimRightOfPadded(core, trail, cs);
  }

  lemma {:induction false} TrimLeftOfPadded(lead: string, rest: string, cs: set<char>)
    requires forall j :: 0 <= j < |lead| ==> lead[j] in cs
    requires rest != [] && rest[0] !in cs
    ensures TrimLeft(lead + rest, cs) == rest
  {
    if lead == [] {
      assert lead + rest == rest;
    } else {
      assert (lead + rest)[1..] == lead[1..] + rest;
      TrimLeftOfPadded(lead[1..], rest, cs);
    }
  }

  lemma {:induction false} TrimRightOfPadded(rest: string, trail: string, cs: set<char>)
    requires forall j :: 0 <= j < |trail| ==> trail[j] in cs
    requires rest != [] && rest[|rest| - 1] !in cs
    ensures TrimRight(rest + trail, cs) == rest
  {
    if trail == [] {
      assert rest + trail == rest;
    } else {
      var s := rest + trail;
      assert s[..|s| - 1] == rest + trail[..|trail| - 1];
      TrimRightOfPadded(rest, trail[..|trail| - 1], cs);
    }
  }

  /** A string whose ends are not in cs is left alone by Trim. */
  lemma TrimFixed(s: string, cs: set<char>)
    requires s == [] || (s[0] !in cs && s[|s| - 1] !in cs)
    ensures Trim(s, cs) == s
  {
  }

  /** Trimming twice is trimming once. */
  lemma TrimIdempotent(s: string, cs: set<char>)
    ensures Trim(Trim(s, cs), cs) == Trim(s, cs)
  {
    TrimFixed(Trim(s, cs), cs);
  }

  /** Index of the first occurrence of c in s. */
  function IndexOf(s: string, c: char): (r: Option<nat>)
    ensures r.None? ==> c !in s
    ensures r.Some? ==> r.value < |s| && s[r.value] == c && c !in s[..r.value]
  {
    if s == [] then None
    else if s[0] == c then Some(0)
    else match IndexOf(s[1..], c)
      case None => None
      case Some(i) => assert s[1..][..i] == s[1..i + 1]; Some(i + 1)
  }

  /** Number of occurrences of c in s. */
  function Count(s: string, c: char): nat
  {
    if s == [] then 0 else (if s[0] == c then 1 else 0) + Count(s[1..], c)
  }

  lemma CountAppend(a: string, b: string, c: char)
    ensures Count(a + b, c) == Count(a, c) + Count(b, c)
  {
    if a == [] {
      assert a + b == b;
    } else {
      assert (a + b)[1..] == a[1..] + b;
      CountAppend(a[1..], b, c);
    }
  }

  lemma CountAbsent(s: string, c: char)
    requires c !in s
    ensures Count(s, c) == 0
  {
    if s != [] {
      CountAbsent(s[1..], c);
    }
  }

  /** Python's s.split(sep) for a one-character sep: the pieces between separators, empty ones kept. */
  function Split(s: string, sep: char): (parts: seq<string>)
    ensures |parts| >= 1
    ensures forall p :: p in parts ==> sep !in p
    decreases |s|
  {
    match IndexOf(s, sep)
    case None => [s]
    case Some(i) => [s[..i]] + Split(s[i + 1..], sep)
  }

  /** A character absent from s is absent from each of its pieces. */
  lemma {:induction false} SplitKeepsAbsent(s: string, sep: char, c: char)
    requires c !in s
    ensures forall p :: p in Split(s, sep) ==> c !in p
    decreases |s|
  {
    match IndexOf(s, sep)
    case None =>
    case Some(i) =>
      var head, rest := s[..i], s[i + 1..];
      assert c !in rest by {
        forall k | 0 <= k < |rest| ensures rest[k] != c {
          assert rest[k] == s[i + 1 + k];
        }
      }
      assert c !in head by {
        forall k | 0 <= k < |head| ensures head[k] != c {
          assert head[k] == s[k];
        }
      }
      SplitKeepsAbsent(s[i + 1..], sep, c);
  }

  /** Two separator-free stretches around one separator split into exactly those two. */
  lemma SplitTwo(a: string, sep: char, b: string)
    requires sep !in a && sep !in b
    ensures Split(a + [sep] + b, sep) == [a, b]
  {
    var s := a + [sep] + b;
    assert s[|a|] == sep;
    match IndexOf(s, sep)
    case None =>
      assert false;
    case Some(i) =>
      assert i == |a|;
      assert s[..i] == a && s[i + 1..] == b;
      assert IndexOf(b, sep) == None;
  }

  /** Python's sep.join(parts). */
  function Join(parts: seq<string>, sep: char): string
  {
    if parts == [] then []
    else if |parts| == 1 then parts[0]
    else parts[0] + [sep] + Join(parts[1..], sep)
  }

  /** str.split yields one piece more than there are separators. */
  lemma {:induction false} SplitLength(s: string, sep: char)
    ensures |Split(s, sep)| == Count(s, sep) + 1
    decreases |s|
  {
    match IndexOf(s, sep)
    case None =>
      CountAbsent(s, sep);
    case Some(i) =>
      assert s == s[..i] + [sep] + s[i + 1..];
      CountAppend(s[..i] + [sep], s[i + 1..], sep);
      CountAppend(s[..i], [sep], sep);
      CountAbsent(s[..i], sep);
      SplitLength(s[i + 1..], sep);
  }

  /** Joining the pieces with the separator gives the original string back. */
  lemma {:induction false} JoinSplit(s: string, sep: char)
    ensures Join(Split(s, sep), sep) == s
    decreases |s|
  {
    match IndexOf(s, sep)
    case None =>
    case Some(i) =>
      var rest := Split(s[i + 1..], sep);
      var parts := [s[..i]] + rest;
      assert parts[0] == s[..i] && parts[1..] == rest;
      assert Join(parts, sep) == s[..i] + [sep] + Join(rest, sep);
      JoinSplit(s[i + 1..], sep);
      assert s == s[..i] + [sep] + s[i + 1..];
  }

  /** Decimal rendering of a natural number (Python's str() / f-string of a non-negative int). */
  function NatToString(n: nat): (r: string)
    ensures |r| >= 1
    ensures forall i :: 0 <= i < |r| ==> '0' <= r[i] <= '9'
  {
    if n < 10 then [DigitChar(n)] else NatToString(n / 10) + [DigitChar(n % 10)]
  }

  function DigitChar(d: nat): (c: char)
    requires d < 10
    ensures '0' <= c <= '9' && c as int == '0' as int + d
  {
    ('0' as int + d) as char
  }

  predicate IsAsciiDigit(c: char) {
    '0' <= c <= '9'
  }

  function DigitValue(c: char): (d: nat)
    requires IsAsciiDigit(c)
    ensures d < 10 && DigitChar(d) == c
  {
    (c as int - '0' as int) as nat
  }

  /** Value of a string of ASCII digits read left to right. */
  function DigitsValue(s: string): nat
    requires forall i :: 0 <= i < |s| ==> IsAsciiDigit(s[i])
  {
    if s == [] then 0 else DigitsValue(s[..|s| - 1]) * 10 + DigitValue(s[|s| - 1])
  }

  /** Digits with single underscores between them, as Python's int() accepts them. */
  predicate IsDigitGroup(s: string) {
    |s| >= 1 && IsAsciiDigit(s[0]) && IsAsciiDigit(s[|s| - 1]) &&
    (forall i :: 0 <= i < |s| ==> IsAsciiDigit(s[i]) || s[i] == '_') &&
    (forall i :: 0 <= i < |s| - 1 ==> !(s[i] == '_' && s[i + 1] == '_'))
  }

  function RemoveUnderscores(s: string): (r: string)
    ensures forall i :: 0 <= i < |r| ==> r[i] != '_'
    ensures (forall i :: 0 <= i < |s| ==> IsAsciiDigit(s[i]) || s[i] == '_') ==>
              forall i :: 0 <= i < |r| ==> IsAsciiDigit(r[i])
  {
    if s == [] then [] else (if s[0] == '_' then [] else [s[0]]) + RemoveUnderscores(s[1..])
  }

  /**
   * Python's int(s) for base 10 on ASCII input: surrounding whitespace is ignored, an optional
   * sign, then digits with optional single underscores between them. None is the ValueError.
   */
  function ParseInt(s: string): (r: Option<int>)
    ensures r.Some? ==> Trim(s, IntWhitespace) != []
  {
    ParseSigned(Trim(s, IntWhitespace))
  }

  /** int() on text already stripped: an optional sign, then a digit group. */
  function ParseSigned(t: string): (r: Option<int>)
    ensures r.Some? ==> t != []
  {
    if t == [] then None
    else
      var neg := t[0] == '-';
      var body := if t[0] == '-' || t[0] == '+' then t[1..] else t;
      if IsDigitGroup(body) then
        var v: int := DigitsValue(RemoveUnderscores(body));
        Some(if neg then -v else v)
      else None
  }

  /** The signs int() accepts in front of the digits. */
  predicate IsSign(sign: string) {
    sign == [] || sign == ['+'] || sign == ['-']
  }

  /** The value of a digit group under a sign. */
  function SignedValue(sign: string, d: string): int
    requires IsDigitGroup(d)
  {
    var v: int := DigitsValue(RemoveUnderscores(d));
    if sign == ['-'] then -v else v
  }

  /** int() accepts whitespace, an optional sign, a digit group and whitespace, and reads the signed value. */
  lemma {:induction false} ParseIntOfLiteral(lead: string, sign: string, d: string, trail: string)
    requires forall j :: 0 <= j < |lead| ==> lead[j] in IntWhitespace
    requires forall j :: 0 <= j < |trail| ==> trail[j] in IntWhitespace
    requires IsSign(sign) && IsDigitGroup(d)
    ensures ParseInt(lead + sign + d + trail) == Some(SignedValue(sign, d))
  {
    var core := sign + d;
    assert lead + sign + d + trail == lead + core + trail;
    assert core[|core| - 1] == d[|d| - 1];
    DigitIsNotWhitespace(d[|d| - 1]);
    if sign == [] {
      DigitIsNotWhitespace(d[0]);
    } else {
      assert core[0] !in IntWhitespace;
    }
    TrimOfPadded(lead, core, trail, IntWhitespace);
    ParseSignedOf(sign, d);
  }

  lemma {:induction false} ParseSignedOf(sign: string, d: string)
    requires IsSign(sign) && IsDigitGroup(d)
    ensures ParseSigned(sign + d) == Some(SignedValue(sign, d))
  {
    var t := sign + d;
    if sign == [] {
      assert t == d;
      assert t[0] != '-' && t[0] != '+';
    } else {
      assert t[0] == sign[0];
      assert t[1..] == d;
    }
  }

  /** Every string int() accepts has that form, and its value is the signed value of its digits. */
  lemma ParseIntSome(s: string) returns (lead: string, sign: string, d: string, trail: string)
    requires ParseInt(s).Some?
    ensures s == lead + sign + d + trail
    ensures forall j :: 0 <= j < |lead| ==> lead[j] in IntWhitespace
    ensures forall j :: 0 <= j < |trail| ==> trail[j] in IntWhitespace
    ensures IsSign(sign) && IsDigitGroup(d)
    ensures ParseInt(s).value == SignedValue(sign, d)
  {
    lead, sign, d, trail := TrimmedShape(s, IntWhitespace);
  }

  /** The shape of s when ParseSigned accepts what Trim keeps of it. */
  lemma TrimmedShape(s: string, cs: set<char>) returns (lead: string, sign: string, d: string, trail: string)
    requires ParseSigned(Trim(s, cs)).Some?
    ensures s == lead + sign + d + trail
    ensures forall j :: 0 <= j < |lead| ==> lead[j] in cs
    ensures forall j :: 0 <= j < |trail| ==> trail[j] in cs
    ensures IsSign(sign) && IsDigitGroup(d)
    ensures ParseSigned(Trim(s, cs)).value == SignedValue(sign, d)
  {
    lead, trail := TrimParts(s, cs);
    sign, d := ParseSignedShape(Trim(s, cs));
    Regroup(lead, sign, d, trail);
  }

  lemma Regroup(a: string, b: string, c: string, d: string)
    ensures a + (b + c) + d == a + b + c + d
  {
  }

  /** s is what Trim keeps with cs characters on either side. */
  lemma TrimParts(s: string, cs: set<char>) returns (lead: string, trail: string)
    ensures s == lead + Trim(s, cs) + trail
    ensures forall j :: 0 <= j < |lead| ==> lead[j] in cs
    ensures forall j :: 0 <= j < |trail| ==> trail[j] in cs
  {
    var l := TrimLeft(s, cs);
    lead := TrimLeftParts(s, cs);
    trail := TrimRightParts(l, cs);
    assert Trim(s, cs) == TrimRight(l, cs);
    Associate(lead, TrimRight(l, cs), trail);
  }

  lemma Associate(a: string, b: string, c: string)
    ensures a + (b + c) == a + b + c
  {
  }

  lemma TrimLeftParts(s: string, cs: set<char>) returns (lead: string)
    ensures s == lead + TrimLeft(s, cs)
    ensures forall j :: 0 <= j < |lead| ==> lead[j] in cs
  {
    var r := TrimLeft(s, cs);
    lead := s[..|s| - |r|];
    assert s == lead + s[|s| - |r|..];
  }

  lemma TrimRightParts(s: string, cs: set<char>) returns (trail: string)
    ensures s == TrimRight(s, cs) + trail
    ensures forall j :: 0 <= j < |trail| ==> trail[j] in cs
  {
    var r := TrimRight(s, cs);
    trail := s[|r|..];
    assert s == s[..|r|] + trail;
    forall j | 0 <= j < |trail|
      ensures trail[j] in cs
    {
      assert trail[j] == s[|r| + j];
    }
  }

  lemma ParseSignedShape(t: string) returns (sign: string, d: string)
    requires ParseSigned(t).Some?
    ensures t == sign + d && IsSign(sign) && IsDigitGroup(d)
    ensures ParseSigned(t).value == SignedValue(sign, d)
  {
    if t[0] == '-' || t[0] == '+' {
      sign, d := [t[0]], t[1..];
    } else {
      sign, d := [], t;
    }
    assert t == sign + d;
  }

  /** int() refuses a number padded with one of the separator characters 0x1C-0x1F. */
  lemma SeparatorIsNotIntSpace()
    ensures ParseInt("\U{1C}5").None? && ParseInt("5\U{1F}").None?
  {
    var a, b := "\U{1C}5", "5\U{1F}";
    assert a[0] !in IntWhitespace && a[1] !in IntWhitespace;
    TrimFixed(a, IntWhitespace);
    assert !IsDigitGroup(a) by { assert !IsAsciiDigit(a[0]); }
    assert b[0] !in IntWhitespace && b[1] !in IntWhitespace;
    TrimFixed(b, IntWhitespace);
    assert !IsDigitGroup(b) by { assert !IsAsciiDigit(b[1]); }
  }

  /** str.strip() does remove such a separator, so the two whitespace sets differ. */
  lemma SeparatorIsPyWhitespace()
    ensures Trim("\U{1C}5", PyWhitespace) == "5"
  {
    var a := "\U{1C}5";
    assert a[0] in PyWhitespace && a[1] !in PyWhitespace;
    TrimOfPadded([a[0]], "5", [], PyWhitespace);
    assert [a[0]] + "5" + [] == a;
  }

  /** Text int() refuses: a stray letter, a sign without digits, a doubled underscore. */
  lemma MalformedIntegers()
    ensures ParseInt("12a").None? && ParseInt("+").None? && ParseInt("1__2").None?
  {
    assert !IsDigitGroup("12a") by { assert !IsAsciiDigit("12a"[2]); }
    assert !IsDigitGroup("1__2") by { assert "1__2"[1] == '_' && "1__2"[2] == '_'; }
    assert "12a"[0] !in IntWhitespace && "12a"[2] !in IntWhitespace;
    assert "1__2"[0] !in IntWhitespace && "1__2"[3] !in IntWhitespace;
    assert "+"[0] !in IntWhitespace;
    TrimFixed("12a", IntWhitespace);
    TrimFixed("1__2", IntWhitespace);
    TrimFixed("+", IntWhitespace);
    assert "+"[1..] == [];
  }

  /** No digit string is empty, so each rendered number parses back. */
  lemma {:induction false} DigitsValueOfNatToString(n: nat)
    ensures forall i :: 0 <= i < |NatToString(n)| ==> IsAsciiDigit(NatToString(n)[i])
    ensures DigitsValue(NatToString(n)) == n
  {
    if n >= 10 {
      DigitsValueOfNatToString(n / 10);
      var s := NatToString(n);
      assert s[..|s| - 1] == NatToString(n / 10);
      assert DigitValue(s[|s| - 1]) == n % 10;
      assert DigitsValue(s) == (n / 10) * 10 + n % 10;
    }
  }

  lemma NoUnderscoreFixed(s: string)
    requires forall i :: 0 <= i < |s| ==> s[i] != '_'
    ensures RemoveUnderscores(s) == s
  {
  }

  lemma DigitIsNotWhitespace(c: char)
    requires IsAsciiDigit(c)
    ensures c !in IntWhitespace
  {
  }

  /** int(str(n)) == n: rendering and parsing are inverse on natural numbers. */
  lemma ParseNatToString(n: nat)
    ensures ParseInt(NatToString(n)).Some? && ParseInt(NatToString(n)).value == n
  {
    var s := NatToString(n);
    DigitsValueOfNatToString(n);
    DigitsTrimmed(s);
    NoUnderscoreFixed(s);
    ParseSignedDigits(s);
  }

  lemma DigitsTrimmed(s: string)
    requires |s| >= 1 && forall i :: 0 <= i < |s| ==> IsAsciiDigit(s[i])
    ensures Trim(s, IntWhitespace) == s
  {
    DigitIsNotWhitespace(s[0]);
    DigitIsNotWhitespace(s[|s| - 1]);
    TrimFixed(s, IntWhitespace);
  }

  lemma ParseSignedDigits(d: string)
    requires |d| >= 1 && forall i :: 0 <= i < |d| ==> IsAsciiDigit(d[i])
    requires RemoveUnderscores(d) == d
    ensures ParseSigned(d).Some? && ParseSigned(d).value == DigitsValue(d)
  {
    assert IsDigitGroup(d);
  }

  /** Python's str(n) for an int. */
  function IntToString(n: int): (r: string)
    ensures |r| >= 1
  {
    if n < 0 then ['-'] + NatToString(-n) else NatToString(n)
  }

  /** int(str(n)) == n for every int. */
  lemma ParseIntToString(n: int)
    ensures ParseInt(IntToString(n)).Some? && ParseInt(IntToString(n)).value == n
  {
    if n >= 0 {
      assert IntToString(n) == NatToString(n);
      ParseNatToString(n);
    } else {
      var m: nat := -n;
      var s := ['-'] + NatToString(m);
      assert IntToString(n) == s;
      ParseMinusNatToString(m);
    }
  }

  lemma ParseMinusNatToString(m: nat)
    ensures ParseInt(['-'] + NatToString(m)).Some? && ParseInt(['-'] + NatToString(m)).value == -(m as int)
  {
    var d := NatToString(m);
    DigitsValueOfNatToString(m);
    assert '0' <= d[0] <= '9' && '0' <= d[|d| - 1] <= '9';
    NoUnderscoreFixed(d);
    ParseNegative(d);
  }

  lemma ParseNegative(d: string)
    requires IsDigitGroup(d) && RemoveUnderscores(d) == d
    ensures ParseInt(['-'] + d).Some? && ParseInt(['-'] + d).value == -(DigitsValue(d) as int)
  {
    MinusDigitsTrimmed(d);
    ParseSignedNegative(d);
  }

  lemma MinusDigitsTrimmed(d: string)
    requires IsDigitGroup(d)
    ensures Trim(['-'] + d, IntWhitespace) == ['-'] + d
  {
    var s := ['-'] + d;
    assert s[0] == '-' && s[|s| - 1] == d[|d| - 1];
    DigitIsNotWhitespace(d[|d| - 1]);
    MinusIsNotWhitespace();
    TrimFixed(s, IntWhitespace);
  }

  lemma ParseSignedNegative(d: string)
    requires IsDigitGroup(d) && RemoveUnderscores(d) == d
    ensures ParseSigned(['-'] + d).Some? && ParseSigned(['-'] + d).value == -(DigitsValue(d) as int)
  {
    assert (['-'] + d)[1..] == d;
  }

  lemma MinusIsNotWhitespace()
    ensures '-' !in IntWhitespace
  {
  }
}
