/**
 * Post-processing of SenseVoice's tagged transcripts (SenseVoice/api.py): the three regular
 * expressions regex_tag, regex_emo and regex_event, as re.findall and re.sub apply them.
 *
 * regex_tag is `<\|.*\|>`: `.*` is greedy and `.` matches every character except '\n', so one
 * match runs from a "<|" to the LAST "|>" of the same line, plain text in between included.
 */
module Tags {
  import opened Wrappers
  import Text

  const EmotionNames: seq<string> := ["HAPPY", "SAD", "ANGRY", "NEUTRAL", "FEARFUL", "DISGUSTED", "SURPRISED"]
  const EventNames: seq<string> := ["BGM", "Speech", "Applause", "Laughter", "Cry", "Sneeze", "Breath", "Cough"]

  /** The literal text `<|name|>`. */
  function Tag(name: string): string {
    "<|" + name + "|>"
  }

  lemma TagChars(n: string)
    ensures |Tag(n)| == |n| + 4 && Tag(n)[..2] == "<|" && Tag(n)[2..|n| + 2] == n
    ensures Tag(n)[0] == '<' && Tag(n)[1] == '|' && Tag(n)[|n| + 2] == '|' && Tag(n)[|n| + 3] == '>'
  {
    assert Tag(n) == "<|" + n + "|>";
  }

  /** A tag name that cannot interfere with tag delimiters: no '<', no '|', no line break. */
  predicate PlainName(n: string) {
    '<' !in n && '|' !in n && '\n' !in n
  }

  predicate PlainNames(names: seq<string>) {
    forall n :: n in names ==> PlainName(n)
  }

  lemma EmotionNamesArePlain()
    ensures PlainNames(EmotionNames)
  {
    PlainEmotionsFirst();
    PlainEmotionsLast();
  }

  lemma PlainEmotionsFirst()
    ensures PlainName("HAPPY") && PlainName("SAD") && PlainName("ANGRY") && PlainName("NEUTRAL")
  {
  }

  lemma PlainEmotionsLast()
    ensures PlainName("FEARFUL") && PlainName("DISGUSTED") && PlainName("SURPRISED")
  {
  }

  lemma EventNamesArePlain()
    ensures PlainNames(EventNames)
  {
    PlainEventsFirst();
    PlainEventsLast();
  }

  lemma PlainEventsFirst()
    ensures PlainName("BGM") && PlainName("Speech") && PlainName("Applause") && PlainName("Laughter")
  {
  }

  lemma PlainEventsLast()
    ensures PlainName("Cry") && PlainName("Sneeze") && PlainName("Breath") && PlainName("Cough")
  {
  }

  // ---------------------------------------------------------------------------------------
  // re.findall(regex_emo, text) and re.findall(regex_event, text)
  // ---------------------------------------------------------------------------------------

  /** The alternation `(A|B|...)` between `<\|` and `\|>`: the first name whose tag starts s. */
  function MatchName(s: string, names: seq<string>): (r: Option<string>)
    ensures r.Some? ==> r.value in names && Tag(r.value) <= s
    ensures r.None? ==> forall n :: n in names ==> !(Tag(n) <= s)
  {
    if names == [] then None
    else if Tag(names[0]) <= s then Some(names[0])
    else MatchName(s, names[1..])
  }

  /** re.findall with one group: scan left to right, report the group, resume after the match. */
  function FindAll(s: string, names: seq<string>): seq<string>
    decreases |s|
  {
    if s == [] then []
    else match MatchName(s, names)
      case Some(n) => [n] + FindAll(s[|Tag(n)|..], names)
      case None => FindAll(s[1..], names)
  }

  /** `emotions` of a result record. */
  function Emotions(raw: string): seq<string> {
    FindAll(raw, EmotionNames)
  }

  /** `events` of a result record. */
  function Events(raw: string): seq<string> {
    FindAll(raw, EventNames)
  }

  /** Reference definition: the names of the tags found at EVERY position, left to right. */
  function Occurrences(s: string, names: seq<string>): seq<string>
    decreases |s|
  {
    if s == [] then []
    else (match MatchName(s, names) case Some(n) => [n] case None => []) + Occurrences(s[1..], names)
  }

  /** Every tag starts with '<'. */
  lemma MatchNeedsOpen(s: string, names: seq<string>)
    requires MatchName(s, names).Some?
    ensures |s| >= 4 && s[0] == '<' && s[1] == '|'
  {
    var n := MatchName(s, names).value;
    assert s[..|Tag(n)|] == Tag(n);
    assert Tag(n)[0] == '<' && Tag(n)[1] == '|';
  }

  /** Positions without a '<' contribute nothing to Occurrences. */
  lemma {:induction false} OccurrencesSkip(s: string, names: seq<string>, m: nat)
    requires m <= |s|
    requires forall j :: 0 <= j < m ==> s[j] != '<'
    ensures Occurrences(s, names) == Occurrences(s[m..], names)
    decreases m
  {
    if m > 0 {
      if MatchName(s, names).Some? {
        MatchNeedsOpen(s, names);
      }
      assert s[1..][m - 1..] == s[m..];
      OccurrencesSkip(s[1..], names, m - 1);
    }
  }

  /** Inside a tag `<|n|>` with a plain name, no character after the first is '<'. */
  lemma TagInteriorHasNoOpen(n: string, rest: string, j: nat)
    requires PlainName(n)
    requires 1 <= j < |Tag(n)|
    ensures (Tag(n) + rest)[j] != '<'
  {
    if 2 <= j < 2 + |n| {
      assert (Tag(n) + rest)[j] == n[j - 2];
    }
  }

  /**
   * re.findall's non-overlapping scan finds exactly the occurrences at every position: tags
   * cannot overlap, because a tag with a plain name contains '<' only at its start.
   */
  lemma {:induction false} FindAllIsOccurrences(s: string, names: seq<string>)
    requires PlainNames(names)
    ensures FindAll(s, names) == Occurrences(s, names)
    decreases |s|
  {
    if s != [] {
      match MatchName(s, names)
      case None =>
        FindAllIsOccurrences(s[1..], names);
      case Some(n) =>
        var l := |Tag(n)|;
        assert s[..l] == Tag(n);
        assert s == Tag(n) + s[l..];
        forall j | 0 <= j < l - 1
          ensures s[1..][j] != '<'
        {
          TagInteriorHasNoOpen(n, s[l..], j + 1);
        }
        assert s[1..][l - 1..] == s[l..];
        OccurrencesSkip(s[1..], names, l - 1);
        FindAllIsOccurrences(s[l..], names);
    }
  }

  /** Two tags of '|'-free names that both start s are the same tag. */
  lemma TagPrefixUnique(s: string, a: string, b: string)
    requires '|' !in a && '|' !in b
    requires Tag(a) <= s && Tag(b) <= s
    ensures a == b
  {
    TagPrefixShape(s, a);
    TagPrefixShape(s, b);
    assert |a| == |b|;
  }

  /** A tag of a '|'-free name at the front of s: the name runs up to the first '|' after "<|". */
  lemma TagPrefixShape(s: string, n: string)
    requires '|' !in n && Tag(n) <= s
    ensures |n| + 4 <= |s| && s[|n| + 2] == '|' && s[2..|n| + 2] == n
    ensures forall j :: 2 <= j < |n| + 2 ==> s[j] != '|'
  {
    assert s[..|n| + 4] == Tag(n);
    assert s[|n| + 2] == Tag(n)[|n| + 2];
    forall j | 2 <= j < |n| + 2 ensures s[j] != '|' {
      assert s[j] == Tag(n)[j] == n[j - 2];
      assert n[j - 2] in n;
    }
    assert s[2..|n| + 2] == Tag(n)[2..|n| + 2];
  }

  /** A known tag at the front contributes its name, then the scan goes on after it. */
  lemma FindAllKnownTag(n: string, rest: string, names: seq<string>)
    requires PlainNames(names) && n in names
    ensures FindAll(Tag(n) + rest, names) == [n] + FindAll(rest, names)
  {
    var s := Tag(n) + rest;
    assert Tag(n) <= s;
    var m := MatchName(s, names);
    assert m.Some?;
    TagPrefixUnique(s, m.value, n);
    assert s[|Tag(n)|..] == rest;
  }

  /** A tag whose name is not in the list contributes nothing. */
  lemma FindAllOtherTag(n: string, rest: string, names: seq<string>)
    requires PlainNames(names) && PlainName(n) && n !in names
    ensures FindAll(Tag(n) + rest, names) == FindAll(rest, names)
  {
    var s := Tag(n) + rest;
    if MatchName(s, names).Some? {
      TagPrefixUnique(s, MatchName(s, names).value, n);
    }
    FindAllIsOccurrences(s[1..], names);
    FindAllIsOccurrences(rest, names);
    forall j | 0 <= j < |Tag(n)| - 1
      ensures s[1..][j] != '<'
    {
      TagInteriorHasNoOpen(n, rest, j + 1);
    }
    assert s[1..][|Tag(n)| - 1..] == rest;
    OccurrencesSkip(s[1..], names, |Tag(n)| - 1);
  }

  /** Plain text without '<' contributes nothing. */
  lemma FindAllPlain(p: string, rest: string, names: seq<string>)
    requires PlainNames(names) && '<' !in p
    ensures FindAll(p + rest, names) == FindAll(rest, names)
  {
    FindAllIsOccurrences(p + rest, names);
    FindAllIsOccurrences(rest, names);
    assert (p + rest)[|p|..] == rest;
    OccurrencesSkip(p + rest, names, |p|);
  }

  // ---------------------------------------------------------------------------------------
  // A transcript as a stream of plain runs and tags (the tokenizer view of the same text)
  // ---------------------------------------------------------------------------------------

  datatype Token = Plain(text: string) | Marker(name: string)

  predicate WellFormed(ts: seq<Token>) {
    forall t :: t in ts ==> if t.Plain? then '<' !in t.text else PlainName(t.name)
  }

  function Render(ts: seq<Token>): string {
    if ts == [] then [] else (if ts[0].Plain? then ts[0].text else Tag(ts[0].name)) + Render(ts[1..])
  }

  /** The names of the markers of ts that belong to names, in order, duplicates kept. */
  function MarkersIn(ts: seq<Token>, names: seq<string>): seq<string> {
    if ts == [] then []
    else (if ts[0].Marker? && ts[0].name in names then [ts[0].name] else []) + MarkersIn(ts[1..], names)
  }

  /**
   * The emotion (or event) list of a rendered token stream is the list of its emotion (or event)
   * markers, in left-to-right order and with duplicates kept; other markers and text add nothing.
   */
  lemma {:induction false} FindAllRender(ts: seq<Token>, names: seq<string>)
    requires WellFormed(ts) && PlainNames(names)
    ensures FindAll(Render(ts), names) == MarkersIn(ts, names)
  {
    if ts != [] {
      assert WellFormed(ts[1..]) by {
        forall t | t in ts[1..] ensures if t.Plain? then '<' !in t.text else PlainName(t.name) {
          assert t in ts;
        }
      }
      FindAllRender(ts[1..], names);
      assert ts[0] in ts;
      match ts[0]
      case Plain(p) =>
        FindAllPlain(p, Render(ts[1..]), names);
      case Marker(n) =>
        if n in names {
          FindAllKnownTag(n, Render(ts[1..]), names);
        } else {
          FindAllOtherTag(n, Render(ts[1..]), names);
        }
    }
  }

  // ---------------------------------------------------------------------------------------
  // re.sub(regex_tag, "", text).strip()
  // ---------------------------------------------------------------------------------------

  predicate IsOpen(s: string, i: int) {
    0 <= i && i + 2 <= |s| && s[i] == '<' && s[i + 1] == '|'
  }

  predicate IsClose(s: string, k: int) {
    0 <= k && k + 2 <= |s| && s[k] == '|' && s[k + 1] == '>'
  }

  /** No line break among s[i..j] (the part of s that the range covers). */
  predicate NoBreak(s: string, i: int, j: int) {
    forall m :: i <= m < j && 0 <= m < |s| ==> s[m] != '\n'
  }

  predicate OneLine(s: string) {
    NoBreak(s, 0, |s|)
  }

  lemma OneLineDrop(s: string, i: nat)
    requires i <= |s| && OneLine(s)
    ensures OneLine(s[i..])
  {
    var t := s[i..];
    forall m | 0 <= m < |t| ensures t[m] != '\n' {
      assert t[m] == s[m + i];
    }
  }

  /** Index of the first line break of s, or |s|: where `.` stops matching. */
  function LineEnd(s: string): (e: nat)
    ensures e <= |s| && NoBreak(s, 0, e)
    ensures e < |s| ==> s[e] == '\n'
  {
    if s == [] || s[0] == '\n' then 0
    else
      var e := LineEnd(s[1..]);
      assert forall m :: 1 <= m < 1 + e ==> s[m] == s[1..][m - 1];
      1 + e
  }

  /** The greatest k with lo <= k and k + 2 <= e at which a "|>" starts. */
  function LastClose(s: string, lo: nat, e: nat): (r: Option<nat>)
    requires e <= |s|
    ensures r.Some? ==> lo <= r.value && r.value + 2 <= e && IsClose(s, r.value)
    ensures r.Some? ==> forall k :: r.value < k && k + 2 <= e ==> !IsClose(s, k)
    ensures r.None? ==> forall k :: lo <= k && k + 2 <= e ==> !IsClose(s, k)
    decreases e
  {
    if e < lo + 2 then None
    else if IsClose(s, e - 2) then Some(e - 2)
    else LastClose(s, lo, e - 1)
  }

  /**
   * The match of regex_tag at the start of s, if any: Some(k) means that s[..k + 2] is matched,
   * k being the last "|>" of the first line that starts at or after index 2 (greedy `.*`).
   */
  function TagMatch(s: string): (r: Option<nat>)
    ensures r.Some? ==> IsOpen(s, 0) && 2 <= r.value && IsClose(s, r.value) && r.value + 2 <= LineEnd(s)
  {
    if IsOpen(s, 0) then LastClose(s, 2, LineEnd(s)) else None
  }

  /** re.sub(regex_tag, "", s): each leftmost match removed, the scan resuming after it. */
  function Sub(s: string): (r: string)
    ensures |r| <= |s|
    decreases |s|
  {
    if s == [] then []
    else match TagMatch(s)
      case Some(k) => Sub(s[k + 2..])
      case None => [s[0]] + Sub(s[1..])
  }

  /** `clean_text` of a result record. */
  function CleanText(raw: string): string {
    Text.Trim(Sub(raw), Text.PyWhitespace)
  }

  /** s contains a substring that regex_tag matches. */
  ghost predicate ContainsTag(s: string) {
    exists p, q :: IsOpen(s, p) && IsClose(s, q) && p + 2 <= q && NoBreak(s, p + 2, q)
  }

  /** A match inside a slice of s is a match in s. */
  lemma SliceTag(s: string, i: nat, j: nat)
    requires i <= j <= |s| && ContainsTag(s[i..j])
    ensures ContainsTag(s)
  {
    var t := s[i..j];
    var p, q :| IsOpen(t, p) && IsClose(t, q) && p + 2 <= q && NoBreak(t, p + 2, q);
    forall m | i + p + 2 <= m < i + q ensures s[m] != '\n' {
      assert s[m] == t[m - i];
    }
    assert IsOpen(s, i + p) && IsClose(s, i + q);
  }

  /** A match of regex_tag at the front is a match somewhere. */
  lemma MatchIsTag(s: string)
    ensures TagMatch(s).Some? ==> ContainsTag(s)
  {
    if TagMatch(s).Some? {
      var k := TagMatch(s).value;
      assert IsOpen(s, 0) && IsClose(s, k) && NoBreak(s, 2, k);
    }
  }

  /** re.sub leaves a string without any match unchanged. */
  lemma {:induction false} SubNoTag(s: string)
    requires !ContainsTag(s)
    ensures Sub(s) == s
    decreases |s|
  {
    if s != [] {
      MatchIsTag(s);
      if ContainsTag(s[1..]) {
        assert s[1..|s|] == s[1..];
        SliceTag(s, 1, |s|);
      }
      SubNoTag(s[1..]);
    }
  }

  /** A tag at the front of s is a match of regex_tag. */
  lemma TagIsMatch(s: string, n: string)
    requires PlainName(n) && Tag(n) <= s
    ensures ContainsTag(s)
  {
    var l := |n| + 2;
    assert s[..l + 2] == Tag(n);
    forall m | 2 <= m < l ensures s[m] != '\n' {
      assert s[m] == Tag(n)[m] == n[m - 2];
    }
    assert IsOpen(s, 0) && IsClose(s, l);
  }

  /** Without a match of regex_tag there is nothing for regex_emo or regex_event to find. */
  lemma {:induction false} FindAllNoTag(s: string, names: seq<string>)
    requires PlainNames(names) && !ContainsTag(s)
    ensures FindAll(s, names) == []
    decreases |s|
  {
    if s != [] {
      match MatchName(s, names)
      case Some(n) =>
        TagIsMatch(s, n);
        assert false;
      case None =>
        if ContainsTag(s[1..]) {
          assert s[1..|s|] == s[1..];
          SliceTag(s, 1, |s|);
        }
        FindAllNoTag(s[1..], names);
    }
  }

  /**
   * A transcript in which regex_tag matches nothing: clean_text is the stripped input and
   * neither emotions nor events are found.
   */
  lemma UntaggedTranscript(raw: string)
    requires !ContainsTag(raw)
    ensures CleanText(raw) == Text.Trim(raw, Text.PyWhitespace)
    ensures Emotions(raw) == [] && Events(raw) == []
  {
    SubNoTag(raw);
    EmotionNamesArePlain();
    EventNamesArePlain();
    FindAllNoTag(raw, EmotionNames);
    FindAllNoTag(raw, EventNames);
  }

  // ---------------------------------------------------------------------------------------
  // Reference definition of the substitution on one line: cut from the first "<|" to the last "|>"
  // ---------------------------------------------------------------------------------------

  function FirstOpen(s: string): (r: Option<nat>)
    ensures r.Some? ==> IsOpen(s, r.value) && forall j :: 0 <= j < r.value ==> !IsOpen(s, j)
    ensures r.None? ==> forall j :: !IsOpen(s, j)
  {
    if |s| < 2 then None
    else if IsOpen(s, 0) then Some(0)
    else match FirstOpen(s[1..])
      case None =>
        assert forall j :: IsOpen(s, j) && j >= 1 ==> IsOpen(s[1..], j - 1);
        None
      case Some(i) =>
        assert forall j :: IsOpen(s, j) && j >= 1 ==> IsOpen(s[1..], j - 1);
        assert IsOpen(s, i + 1);
        Some(i + 1)
  }

  function LastCloseAll(s: string): (r: Option<nat>)
    ensures r.Some? ==> IsClose(s, r.value) && forall j :: r.value < j ==> !IsClose(s, j)
    ensures r.None? ==> forall j :: !IsClose(s, j)
  {
    if |s| < 2 then None
    else match LastCloseAll(s[1..])
      case Some(k) =>
        assert forall j :: IsClose(s, j) && j >= 1 ==> IsClose(s[1..], j - 1);
        assert IsClose(s, k + 1);
        Some(k + 1)
      case None =>
        assert forall j :: IsClose(s, j) && j >= 1 ==> IsClose(s[1..], j - 1);
        if IsClose(s, 0) then Some(0) else None
  }

  /** What the greedy pattern removes from a single line: first "<|" through last "|>". */
  function GreedyCut(s: string): string {
    match (FirstOpen(s), LastCloseAll(s))
    case (Some(i), Some(k)) => if i + 2 <= k then s[..i] + s[k + 2..] else s
    case _ => s
  }

  /** The cut never leaves a match behind: no "<|" before the cut meets a "|>" after it. */
  lemma GreedyCutHasNoTag(s: string)
    ensures !ContainsTag(GreedyCut(s))
  {
    var r := GreedyCut(s);
    match (FirstOpen(s), LastCloseAll(s))
    case (Some(i), Some(k)) =>
      if i + 2 <= k {
        assert |r| == i + |s| - k - 2;
        forall j | IsOpen(r, j) && j + 2 <= i ensures IsOpen(s, j) {
          assert r[j] == s[j] && r[j + 1] == s[j + 1];
        }
        forall j | IsClose(r, j) && j >= i ensures IsClose(s, j - i + k + 2) {
          assert r[j] == s[j - i + k + 2] && r[j + 1] == s[j - i + k + 3];
        }
      }
    case _ =>
  }

  /** Shifting by one character moves every "<|" and "|>" by one position. */
  lemma TailShift(s: string)
    requires s != []
    ensures forall j :: IsOpen(s, j) && j >= 1 ==> IsOpen(s[1..], j - 1)
    ensures forall j :: IsClose(s, j) && j >= 1 ==> IsClose(s[1..], j - 1)
    ensures forall j :: IsOpen(s[1..], j) ==> IsOpen(s, j + 1)
    ensures forall j :: IsClose(s[1..], j) ==> IsClose(s, j + 1)
  {
  }

  lemma GreedyCutTailOpen(s: string)
    requires |s| >= 2 && OneLine(s) && TagMatch(s).None? && IsOpen(s, 0)
    ensures GreedyCut(s) == s && GreedyCut(s[1..]) == s[1..]
  {
    TailShift(s);
    var e := LineEnd(s);
    assert e == |s|;
    assert FirstOpen(s) == Some(0);
    assert !IsOpen(s[1..], 0);
  }

  lemma GreedyCutTailPlain(s: string)
    requires |s| >= 1 && !IsOpen(s, 0)
    ensures GreedyCut(s) == [s[0]] + GreedyCut(s[1..])
  {
    var t := s[1..];
    assert s == [s[0]] + t;
    TailShift(s);
    match (FirstOpen(t), LastCloseAll(t))
    case (Some(i), Some(k)) =>
      assert FirstOpen(s) == Some(i + 1);
      assert LastCloseAll(s) == Some(k + 1);
      if i + 2 <= k {
        assert s[..i + 1] == [s[0]] + t[..i];
        assert s[k + 3..] == t[k + 2..];
      }
    case (Some(i), None) =>
      assert FirstOpen(s) == Some(i + 1);
    case (None, _) =>
      assert FirstOpen(s).None?;
  }

  /** Where regex_tag does not match at the front, the front character survives the cut. */
  lemma GreedyCutTail(s: string)
    requires s != [] && OneLine(s) && TagMatch(s).None?
    ensures GreedyCut(s) == [s[0]] + GreedyCut(s[1..])
  {
    if IsOpen(s, 0) {
      GreedyCutTailOpen(s);
    } else {
      GreedyCutTailPlain(s);
    }
  }

  /** Where regex_tag matches at the front of a line, it consumes the whole greedy cut. */
  lemma SubOnOneLineMatch(s: string, k: nat)
    requires OneLine(s) && TagMatch(s) == Some(k)
    ensures Sub(s) == GreedyCut(s)
  {
    var e := LineEnd(s);
    assert e == |s|;
    assert FirstOpen(s) == Some(0);
    assert LastCloseAll(s) == Some(k);
    var rest := s[k + 2..];
    assert LastClose(s, 2, |s|) == Some(k);
    forall j | IsClose(rest, j) ensures IsClose(s, j + k + 2) {
      assert rest[j] == s[j + k + 2] && rest[j + 1] == s[j + k + 3];
    }
    SubNoTag(rest);
  }

  /** On a line without '\n', re.sub(regex_tag, "", s) is exactly the greedy cut. */
  lemma {:induction false} SubOnOneLine(s: string)
    requires OneLine(s)
    ensures Sub(s) == GreedyCut(s)
    decreases |s|
  {
    if s != [] {
      match TagMatch(s)
      case Some(k) =>
        SubOnOneLineMatch(s, k);
      case None =>
        OneLineDrop(s, 1);
        SubOnOneLine(s[1..]);
        GreedyCutTail(s);
    }
  }

  /** On one line, clean_text contains nothing regex_tag would match. */
  lemma CleanTextHasNoTag(raw: string)
    requires OneLine(raw)
    ensures !ContainsTag(CleanText(raw))
  {
    SubOnOneLine(raw);
    GreedyCutHasNoTag(raw);
    TrimKeepsNoTag(Sub(raw), Text.PyWhitespace);
  }

  /** Trimming cuts out a slice, and a slice of text without a tag has none. */
  lemma TrimKeepsNoTag(u: string, cs: set<char>)
    requires !ContainsTag(u)
    ensures !ContainsTag(Text.Trim(u, cs))
  {
    var c := Text.Trim(u, cs);
    var i := Text.TrimIsSlice(u, cs);
    if ContainsTag(c) {
      SliceTag(u, i, i + |c|);
    }
  }

  /** clean_text is never longer than the raw transcript. */
  lemma CleanTextShorter(raw: string)
    ensures |CleanText(raw)| <= |raw|
  {
  }

  /** On one line, cleaning clean_text again leaves it unchanged. */
  lemma CleanTextIdempotent(raw: string)
    requires OneLine(raw)
    ensures CleanText(CleanText(raw)) == CleanText(raw)
  {
    CleanTextHasNoTag(raw);
    SubNoTag(CleanText(raw));
    Text.TrimIdempotent(Sub(raw), Text.PyWhitespace);
  }

  // ---------------------------------------------------------------------------------------
  // Several lines: the substitution works line by line
  // ---------------------------------------------------------------------------------------

  lemma {:induction false} LastCloseSamePrefix(s: string, t: string, lo: nat, e: nat)
    requires e <= |s| && e <= |t| && s[..e] == t[..e]
    ensures LastClose(s, lo, e) == LastClose(t, lo, e)
    decreases e
  {
    if e >= lo + 2 {
      assert s[e - 2] == s[..e][e - 2] && s[e - 1] == s[..e][e - 1];
      assert t[e - 2] == t[..e][e - 2] && t[e - 1] == t[..e][e - 1];
      assert s[..e - 1] == s[..e][..e - 1] && t[..e - 1] == t[..e][..e - 1];
      LastCloseSamePrefix(s, t, lo, e - 1);
    }
  }

  /** A line break ends every match: the match at the front of a line ignores what follows it. */
  lemma TagMatchStopsAtNewline(a: string, b: string)
    requires OneLine(a)
    ensures TagMatch(a + ['\n'] + b) == TagMatch(a)
  {
    var t := a + ['\n'] + b;
    assert t[|a|] == '\n';
    assert t[..|a|] == a;
    assert LineEnd(t) == |a|;
    assert LineEnd(a) == |a|;
    assert IsOpen(t, 0) <==> IsOpen(a, 0);
    LastCloseSamePrefix(t, a, 2, |a|);
  }

  lemma SubAcrossNewlineMatch(a: string, b: string, k: nat)
    requires OneLine(a) && TagMatch(a) == Some(k)
    requires Sub(a[k + 2..] + ['\n'] + b) == Sub(a[k + 2..]) + ['\n'] + Sub(b)
    ensures Sub(a + ['\n'] + b) == Sub(a) + ['\n'] + Sub(b)
  {
    SubMatchThenNewline(a, b, k);
    SubAtMatch(a, k);
  }

  lemma SubMatchThenNewline(a: string, b: string, k: nat)
    requires OneLine(a) && TagMatch(a) == Some(k)
    ensures Sub(a + ['\n'] + b) == Sub(a[k + 2..] + ['\n'] + b)
  {
    var t := a + ['\n'] + b;
    TagMatchStopsAtNewline(a, b);
    SubAtMatch(t, k);
    DropBeforeNewline(a, b, k + 2);
  }

  lemma DropBeforeNewline(a: string, b: string, n: nat)
    requires n <= |a|
    ensures (a + ['\n'] + b)[n..] == a[n..] + ['\n'] + b
  {
  }

  lemma SubAtMatch(s: string, k: nat)
    requires TagMatch(s) == Some(k)
    ensures Sub(s) == Sub(s[k + 2..])
  {
  }

  lemma ConcatAssoc(u: string, x: string, y: string)
    ensures u + (x + ['\n'] + y) == (u + x) + ['\n'] + y
  {
  }

  lemma SubAcrossNewlinePlain(a: string, b: string)
    requires a != [] && OneLine(a) && TagMatch(a).None?
    requires Sub(a[1..] + ['\n'] + b) == Sub(a[1..]) + ['\n'] + Sub(b)
    ensures Sub(a + ['\n'] + b) == Sub(a) + ['\n'] + Sub(b)
  {
    var t := a + ['\n'] + b;
    TagMatchStopsAtNewline(a, b);
    var x, y := Sub(a[1..]), Sub(b);
    calc {
      Sub(t);
      { SubAtPlain(t); }
      [t[0]] + Sub(t[1..]);
      { DropBeforeNewline(a, b, 1); }
      [a[0]] + Sub(a[1..] + ['\n'] + b);
      [a[0]] + (x + ['\n'] + y);
      { ConcatAssoc([a[0]], x, y); }
      ([a[0]] + x) + ['\n'] + y;
      { SubAtPlain(a); }
      Sub(a) + ['\n'] + y;
    }
  }

  lemma SubAtPlain(s: string)
    requires s != [] && TagMatch(s).None?
    ensures Sub(s) == [s[0]] + Sub(s[1..])
  {
  }

  /** re.sub treats a line break as a wall: each line is substituted on its own. */
  lemma {:induction false} SubAcrossNewline(a: string, b: string)
    requires OneLine(a)
    ensures Sub(a + ['\n'] + b) == Sub(a) + ['\n'] + Sub(b)
    decreases |a|
  {
    var t := a + ['\n'] + b;
    if a == [] {
      assert t == ['\n'] + b;
      assert t[1..] == b;
    } else {
      match TagMatch(a)
      case Some(k) =>
        OneLineDrop(a, k + 2);
        SubAcrossNewline(a[k + 2..], b);
        SubAcrossNewlineMatch(a, b, k);
      case None =>
        OneLineDrop(a, 1);
        SubAcrossNewline(a[1..], b);
        SubAcrossNewlinePlain(a, b);
    }
  }

  function MapGreedyCut(lines: seq<string>): (r: seq<string>)
    ensures |r| == |lines|
  {
    if lines == [] then [] else [GreedyCut(lines[0])] + MapGreedyCut(lines[1..])
  }

  lemma NotInIsOneLine(s: string)
    requires '\n' !in s
    ensures OneLine(s)
  {
    forall m | 0 <= m < |s| ensures s[m] != '\n' {
      assert s[m] in s;
    }
  }

  /**
   * The whole substitution: split the text at '\n', give every line its greedy cut, and join
   * the lines again with '\n'.
   */
  lemma {:induction false} SubIsGreedyPerLine(s: string)
    ensures Sub(s) == Text.Join(MapGreedyCut(Text.Split(s, '\n')), '\n')
    decreases |s|
  {
    match Text.IndexOf(s, '\n')
    case None =>
      NotInIsOneLine(s);
      SubOnOneLine(s);
    case Some(i) =>
      var a, b := s[..i], s[i + 1..];
      assert s == a + ['\n'] + b;
      NotInIsOneLine(a);
      SubAcrossNewline(a, b);
      SubOnOneLine(a);
      SubIsGreedyPerLine(b);
      var rest := MapGreedyCut(Text.Split(b, '\n'));
      assert MapGreedyCut(Text.Split(s, '\n')) == [GreedyCut(a)] + rest;
      assert |rest| >= 1;
  }

  // ---------------------------------------------------------------------------------------
  // The examples of the design notes
  // ---------------------------------------------------------------------------------------

  /** `<|HAPPY|>嗯<|SAD|>好的`: emotions HAPPY then SAD, and no events. */
  lemma RepeatedEmotionsTags()
    ensures Emotions("<|HAPPY|>嗯<|SAD|>好的") == ["HAPPY", "SAD"]
    ensures Events("<|HAPPY|>嗯<|SAD|>好的") == []
  {
    var ts := [Marker("HAPPY"), Plain("嗯"), Marker("SAD"), Plain("好的")];
    RepeatedEmotionsRender();
    RepeatedEmotionsWellFormed();
    EmotionNamesArePlain();
    EventNamesArePlain();
    FindAllRender(ts, EmotionNames);
    FindAllRender(ts, EventNames);
    RepeatedEmotionsMarkers();
  }

  lemma RepeatedEmotionsRender()
    ensures Render([Marker("HAPPY"), Plain("嗯"), Marker("SAD"), Plain("好的")]) == "<|HAPPY|>嗯<|SAD|>好的"
  {
  }

  lemma RepeatedEmotionsWellFormed()
    ensures WellFormed([Marker("HAPPY"), Plain("嗯"), Marker("SAD"), Plain("好的")])
  {
  }

  lemma RepeatedEmotionsMarkers()
    ensures MarkersIn([Marker("HAPPY"), Plain("嗯"), Marker("SAD"), Plain("好的")], EmotionNames) == ["HAPPY", "SAD"]
    ensures MarkersIn([Marker("HAPPY"), Plain("嗯"), Marker("SAD"), Plain("好的")], EventNames) == []
  {
  }

  /**
   * A line that starts with "<|" and whose last tag is followed by text without '|' (the shape
   * of SenseVoice's output: language, emotion, event and normalisation tags, then the words):
   * the greedy cut leaves exactly that text.
   */
  lemma CutAfterLastTag(h: string, n: string, tail: string)
    requires PlainName(n) && '|' !in tail && IsOpen(h + Tag(n), 0)
    ensures GreedyCut(h + Tag(n) + tail) == tail
  {
    var u := h + Tag(n);
    var s := u + tail;
    assert IsOpen(s, 0);
    assert FirstOpen(s) == Some(0);
    var k := |u| - 2;
    TagChars(n);
    assert s[k] == Tag(n)[|n| + 2] && s[k + 1] == Tag(n)[|n| + 3];
    assert IsClose(s, k);
    forall j | k < j ensures !IsClose(s, j) {
      if k + 1 < j < |s| {
        assert s[j] == tail[j - |u|];
        assert tail[j - |u|] in tail;
      }
    }
    assert LastCloseAll(s) == Some(k);
    assert s[|u|..] == tail;
  }

  /** For such a line, clean_text is the stripped text after the last tag. */
  lemma CleanTextAfterTags(h: string, n: string, tail: string)
    requires PlainName(n) && '|' !in tail && IsOpen(h + Tag(n), 0) && OneLine(h + Tag(n) + tail)
    ensures CleanText(h + Tag(n) + tail) == Text.Trim(tail, Text.PyWhitespace)
  {
    SubOnOneLine(h + Tag(n) + tail);
    CutAfterLastTag(h, n, tail);
  }
}
