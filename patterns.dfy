/**
 * The regular expressions of the two ContentParser classes, written out as scanners over
 * strings. MatchAt is the match the backtracking engine prefers when it tries one pattern at
 * one position; that match is determined, although a lazy pattern may match in other ways too
 * (`({[\s\S]*?})` on `{a}b}` could also end at the second `}`). Most greedy repetitions end at a
 * character they cannot consume, lazy ones stop at the first place where the rest matches, and
 * the one exception, pattern 3's `[^\s"']+` before `\.js`, can only give characters back to the
 * single place where its maximal run ends in `.js` and a quote follows. AllMatches is the global
 * scan, `String.prototype.matchAll` in JavaScript and `re.finditer` in Python: leftmost match
 * first, resuming where the previous match ended.
 */
module Patterns {
  import opened Wrappers

  /** The regular-expression engine that interprets a pattern. */
  datatype Dialect = JavaScript | Python

  /** `\s`: JavaScript's white space and line terminators; Python's `str.isspace`. */
  predicate IsSpace(d: Dialect, c: char) {
    || c == ' ' || '\t' <= c <= '\r'
    || c == '\U{A0}' || c == '\U{1680}' || '\U{2000}' <= c <= '\U{200A}'
    || c == '\U{2028}' || c == '\U{2029}' || c == '\U{202F}' || c == '\U{205F}' || c == '\U{3000}'
    || (d == JavaScript && c == '\U{FEFF}')
    || (d == Python && ('\U{1C}' <= c <= '\U{1F}' || c == '\U{85}'))
  }

  /** `\w`: ASCII letters, digits and the underscore. */
  predicate IsWord(c: char) {
    'a' <= c <= 'z' || 'A' <= c <= 'Z' || '0' <= c <= '9' || c == '_'
  }

  predicate IsQuote(c: char) {
    c == '"' || c == '\''
  }

  /** The characters JavaScript's `.` refuses. */
  predicate IsLineTerminator(c: char) {
    c == '\n' || c == '\r' || c == '\U{2028}' || c == '\U{2029}'
  }

  const Quotes: set<char> := {'"', '\''}

  /** The character classes that the patterns repeat. */
  datatype CharClass =
    | Space          // \s
    | Word           // \w
    | Lower          // [a-z]
    | UrlChar        // neither a quote nor \s
    | NonQuote       // not a quote
    | NonTerminator  // JavaScript's .

  predicate InClass(d: Dialect, cls: CharClass, c: char) {
    match cls
    case Space => IsSpace(d, c)
    case Word => IsWord(c)
    case Lower => 'a' <= c <= 'z'
    case UrlChar => !IsQuote(c) && !IsSpace(d, c)
    case NonQuote => !IsQuote(c)
    case NonTerminator => !IsLineTerminator(c)
  }

  /** Every character of s[lo..hi] belongs to the class. */
  ghost predicate AllIn(d: Dialect, cls: CharClass, s: string, lo: nat, hi: nat)
    requires lo <= hi <= |s|
  {
    forall k :: lo <= k < hi ==> InClass(d, cls, s[k])
  }

  /** Where a greedy run of `cls` characters that starts at `from` ends. */
  function Skip(d: Dialect, cls: CharClass, s: string, from: nat): (e: nat)
    requires from <= |s|
    ensures from <= e <= |s|
    ensures forall k :: from <= k < e ==> InClass(d, cls, s[k])
    ensures e < |s| ==> !InClass(d, cls, s[e])
    decreases |s| - from
  {
    if from == |s| || !InClass(d, cls, s[from]) then from else Skip(d, cls, s, from + 1)
  }

  /** The first position at or after `from` that holds a character of `cs`, or |s| if none does. */
  function Find(s: string, cs: set<char>, from: nat): (k: nat)
    requires from <= |s|
    ensures from <= k <= |s|
    ensures k < |s| ==> s[k] in cs
    ensures forall j :: from <= j < k ==> s[j] !in cs
    decreases |s| - from
  {
    if from == |s| || s[from] in cs then from else Find(s, cs, from + 1)
  }

  /** A character of `cs` followed by `next` stands at position k. */
  predicate PairAt(s: string, k: nat, cs: set<char>, next: char) {
    k + 1 < |s| && s[k] in cs && s[k + 1] == next
  }

  /** The first position at or after `from` where PairAt holds, or |s|: where a lazy `*?` stops. */
  function FindPair(s: string, cs: set<char>, next: char, from: nat): (k: nat)
    requires from <= |s|
    ensures from <= k <= |s|
    ensures k < |s| ==> PairAt(s, k, cs, next)
    ensures forall j :: from <= j < k ==> !PairAt(s, j, cs, next)
    decreases |s| - from
  {
    if from == |s| || PairAt(s, from, cs, next) then from else FindPair(s, cs, next, from + 1)
  }

  /** `w` occurs in `s` at position i. */
  predicate HasAt(s: string, i: nat, w: string) {
    i + |w| <= |s| && forall j :: 0 <= j < |w| ==> s[i + j] == w[j]
  }

  datatype Span = Span(lo: nat, hi: nat)

  /** One match: the matched text is s[start..end]; `groups` are the capturing groups in order. */
  datatype Match = Match(start: nat, end: nat, groups: seq<Span>)

  /** The match is non-empty and it and its groups lie inside s. */
  predicate Fits(s: string, m: Match) {
    && m.start < m.end <= |s|
    && forall j :: 0 <= j < |m.groups| ==> m.start <= m.groups[j].lo <= m.groups[j].hi <= m.end
  }

  function Text(s: string, g: Span): string
    requires g.lo <= g.hi <= |s|
  {
    s[g.lo..g.hi]
  }

  /** `match[k]` in JavaScript, `match.group(k)` in Python; None where the pattern has no group k. */
  function Group(s: string, m: Match, k: nat): (g: Option<string>)
    requires Fits(s, m)
    ensures g.Some? <==> k <= |m.groups|
  {
    if k == 0 then Some(s[m.start..m.end])
    else if k <= |m.groups| then Some(Text(s, m.groups[k - 1]))
    else None
  }

  /** The patterns of the two extractors, in the order the source lists them. */
  datatype Pattern =
    | JsonObject      // a brace span anywhere in the page
    | JsonAssignment  // `var`, `let` or `const` name = brace span closed by `};`
    | ApiPath         // a quoted path under api/
    | FullUrl         // a quoted http or https URL
    | ScriptFile      // a quoted absolute path ending in .js
    | FetchCall       // the quoted argument of fetch(...)
    | AxiosCall       // the quoted argument of axios.<verb>(...)

  /** How many capturing groups the pattern has (the same in both versions). */
  function GroupCount(p: Pattern): nat {
    match p
    case JsonObject => 1
    case JsonAssignment => 2
    case ApiPath | FullUrl | ScriptFile => 0
    case FetchCall | AxiosCall => 1
  }

  /** An opening brace and everything up to the first closing brace after it, as group 1. */
  function ObjectAt(s: string, i: nat): (r: Option<Match>)
    requires i < |s|
    ensures r.Some? ==> r.value.start == i && Fits(s, r.value) && |r.value.groups| == 1
  {
    if s[i] != '{' then None
    else
      var k := Find(s, {'}'}, i + 1);
      if k == |s| then None else Some(Match(i, k + 1, [Span(i, k + 1)]))
  }

  /** Where the declarator keyword `var`, `let` or `const` that starts at i ends. */
  function DeclaratorEnd(s: string, i: nat): (k: Option<nat>)
    ensures k.Some? ==> i < k.value <= |s|
  {
    if HasAt(s, i, "var") || HasAt(s, i, "let") then Some(i + 3)
    else if HasAt(s, i, "const") then Some(i + 5)
    else None
  }

  /** Optional white space, `=`, optional white space, `{` from n: the position of the brace. */
  function BraceAfterEquals(d: Dialect, s: string, n: nat): (b: Option<nat>)
    requires n <= |s|
    ensures b.Some? ==> n < b.value < |s| && s[b.value] == '{'
  {
    var e := Skip(d, Space, s, n);
    if e == |s| || s[e] != '=' then None
    else
      var b := Skip(d, Space, s, e + 1);
      if b == |s| || s[b] != '{' then None else Some(b)
  }

  /**
   * A declarator, white space, a word (group 1), optional white space, `=`, optional white
   * space, then the shortest text from `{` to a `}` that a `;` follows (group 2, without `;`).
   */
  function AssignmentAt(d: Dialect, s: string, i: nat): (r: Option<Match>)
    requires i < |s|
    ensures r.Some? ==> r.value.start == i && Fits(s, r.value) && |r.value.groups| == 2
  {
    match DeclaratorEnd(s, i)
    case None => None
    case Some(k) =>
      var w := Skip(d, Space, s, k);
      var n := Skip(d, Word, s, w);
      if w == k || n == w then None
      else
        match BraceAfterEquals(d, s, n)
        case None => None
        case Some(b) =>
          var c := FindPair(s, {'}'}, ';', b + 1);
          if c == |s| then None else Some(Match(i, c + 2, [Span(w, n), Span(b, c + 1)]))
  }

  /** One or more characters that are neither quotes nor white space, then a quote, from j. */
  function UrlTail(d: Dialect, s: string, j: nat): (e: Option<nat>)
    requires j <= |s|
    ensures e.Some? ==> j < e.value <= |s|
  {
    var k := Skip(d, UrlChar, s, j);
    if k == j || k == |s| || !IsQuote(s[k]) then None else Some(k + 1)
  }

  function Literal(i: nat, e: Option<nat>): Option<Match> {
    if e.Some? then Some(Match(i, e.value, [])) else None
  }

  /** A quote, `/api/` (JavaScript: also `api/`), the path, a quote; no group. */
  function ApiPathAt(d: Dialect, s: string, i: nat): (r: Option<Match>)
    requires i < |s|
    ensures r.Some? ==> r.value.start == i && Fits(s, r.value) && r.value.groups == []
  {
    if !IsQuote(s[i]) then None
    else if HasAt(s, i + 1, "/api/") then Literal(i, UrlTail(d, s, i + 6))
    else if d == JavaScript && HasAt(s, i + 1, "api/") then Literal(i, UrlTail(d, s, i + 5))
    else None
  }

  /** A quote, `https://` or `http://`, the rest of the URL, a quote; no group. */
  function FullUrlAt(d: Dialect, s: string, i: nat): (r: Option<Match>)
    requires i < |s|
    ensures r.Some? ==> r.value.start == i && Fits(s, r.value) && r.value.groups == []
  {
    if !IsQuote(s[i]) then None
    else if HasAt(s, i + 1, "https://") then Literal(i, UrlTail(d, s, i + 9))
    else if HasAt(s, i + 1, "http://") then Literal(i, UrlTail(d, s, i + 8))
    else None
  }

  /** A quote, `/`, at least one more path character, `.js`, a quote; no group. */
  function ScriptFileAt(d: Dialect, s: string, i: nat): (r: Option<Match>)
    requires i < |s|
    ensures r.Some? ==> r.value.start == i && Fits(s, r.value) && r.value.groups == []
  {
    if !IsQuote(s[i]) || !HasAt(s, i + 1, "/") then None
    else
      var e := Skip(d, UrlChar, s, i + 2);
      if e < i + 6 || !HasAt(s, e - 3, ".js") || e == |s| || !IsQuote(s[e]) then None
      else Some(Match(i, e + 1, []))
  }

  /**
   * The argument of a call that starts at q, up to a quote that `)` follows: the position of
   * that quote. JavaScript's lazy `(.*?)` stops at the first such quote and may not cross a
   * line terminator; Python's `([^"']+)` takes a non-empty run without quotes.
   */
  function ArgumentEnd(d: Dialect, s: string, q: nat): (k: Option<nat>)
    requires q <= |s|
    ensures k.Some? ==> q <= k.value && PairAt(s, k.value, Quotes, ')')
  {
    if d == JavaScript then
      var k := FindPair(s, Quotes, ')', q);
      if k == |s| || Skip(d, NonTerminator, s, q) < k then None else Some(k)
    else
      var e := Skip(d, NonQuote, s, q);
      if e == q || !PairAt(s, e, Quotes, ')') then None else Some(e)
  }

  function Call(i: nat, q: nat, k: Option<nat>): Option<Match> {
    if k.Some? then Some(Match(i, k.value + 2, [Span(q, k.value)])) else None
  }

  /** `fetch(`, a quote, the argument (group 1), a quote, `)`. */
  function FetchAt(d: Dialect, s: string, i: nat): (r: Option<Match>)
    requires i < |s|
    ensures r.Some? ==> r.value.start == i && Fits(s, r.value) && |r.value.groups| == 1
  {
    if HasAt(s, i, "fetch(") && i + 6 < |s| && IsQuote(s[i + 6]) then
      Call(i, i + 7, ArgumentEnd(d, s, i + 7))
    else None
  }

  /** `axios.`, a lower-case verb, `(`, a quote, the argument (group 1), a quote, `)`. */
  function AxiosAt(d: Dialect, s: string, i: nat): (r: Option<Match>)
    requires i < |s|
    ensures r.Some? ==> r.value.start == i && Fits(s, r.value) && |r.value.groups| == 1
  {
    if !HasAt(s, i, "axios.") then None
    else
      var v := Skip(d, Lower, s, i + 6);
      if v == i + 6 || !(v + 1 < |s| && s[v] == '(' && IsQuote(s[v + 1])) then None
      else Call(i, v + 2, ArgumentEnd(d, s, v + 2))
  }

  /** The match the engine finds when it tries pattern p at position i, if any. */
  function MatchAt(d: Dialect, p: Pattern, s: string, i: nat): (r: Option<Match>)
    requires i < |s|
    ensures r.Some? ==> r.value.start == i && Fits(s, r.value) && |r.value.groups| == GroupCount(p)
  {
    match p
    case JsonObject => ObjectAt(s, i)
    case JsonAssignment => AssignmentAt(d, s, i)
    case ApiPath => ApiPathAt(d, s, i)
    case FullUrl => FullUrlAt(d, s, i)
    case ScriptFile => ScriptFileAt(d, s, i)
    case FetchCall => FetchAt(d, s, i)
    case AxiosCall => AxiosAt(d, s, i)
  }

  /**
   * `matchAll` / `finditer` of pattern p over s from position `from`: try each position in turn
   * and, after a match, go on where it ended. The matches come left to right and do not overlap.
   */
  function AllMatches(d: Dialect, p: Pattern, s: string, from: nat): (ms: seq<Match>)
    requires from <= |s|
    ensures forall k :: 0 <= k < |ms| ==> Fits(s, ms[k]) && from <= ms[k].start && |ms[k].groups| == GroupCount(p)
    ensures forall k :: 0 < k < |ms| ==> ms[k - 1].end <= ms[k].start
    decreases |s| - from
  {
    if from == |s| then []
    else
      match MatchAt(d, p, s, from)
      case Some(m) => [m] + AllMatches(d, p, s, m.end)
      case None => AllMatches(d, p, s, from + 1)
  }

  /** Where the pattern does not match, the scan moves on by one position. */
  lemma AllMatchesSkip(d: Dialect, p: Pattern, s: string, from: nat)
    requires from < |s| && MatchAt(d, p, s, from).None?
    ensures AllMatches(d, p, s, from) == AllMatches(d, p, s, from + 1)
  {
  }

  /** Where the pattern matches, the scan reports the match and resumes at its end. */
  lemma AllMatchesTake(d: Dialect, p: Pattern, s: string, from: nat, m: Match)
    requires from < |s| && MatchAt(d, p, s, from) == Some(m)
    ensures AllMatches(d, p, s, from) == [m] + AllMatches(d, p, s, m.end)
  {
  }

  /** Every match in ms is the engine's match at its own start. */
  ghost predicate AtOwnStarts(d: Dialect, p: Pattern, s: string, ms: seq<Match>) {
    forall k :: 0 <= k < |ms| ==> ms[k].start < |s| && MatchAt(d, p, s, ms[k].start) == Some(ms[k])
  }

  lemma AtOwnStartsCons(d: Dialect, p: Pattern, s: string, m: Match, rest: seq<Match>)
    requires m.start < |s| && MatchAt(d, p, s, m.start) == Some(m) && AtOwnStarts(d, p, s, rest)
    ensures AtOwnStarts(d, p, s, [m] + rest)
  {
    forall k | 0 < k < |rest| + 1 ensures ([m] + rest)[k] == rest[k - 1] {
    }
  }

  lemma SoundTake(d: Dialect, p: Pattern, s: string, from: nat, m: Match)
    requires from < |s| && MatchAt(d, p, s, from) == Some(m)
    requires AtOwnStarts(d, p, s, AllMatches(d, p, s, m.end))
    ensures AtOwnStarts(d, p, s, AllMatches(d, p, s, from))
  {
    AtOwnStartsCons(d, p, s, m, AllMatches(d, p, s, m.end));
    AllMatchesTake(d, p, s, from, m);
  }

  /** Each scanned match is the engine's match at its own start. */
  lemma {:induction false} AllMatchesSound(d: Dialect, p: Pattern, s: string, from: nat)
    requires from <= |s|
    ensures AtOwnStarts(d, p, s, AllMatches(d, p, s, from))
    decreases |s| - from
  {
    if from < |s| {
      var r := MatchAt(d, p, s, from);
      if r.Some? {
        AllMatchesSound(d, p, s, r.value.end);
        SoundTake(d, p, s, from, r.value);
      } else {
        AllMatchesSound(d, p, s, from + 1);
        AllMatchesSkip(d, p, s, from);
      }
    }
  }

  /** Position i lies inside one of the matches. */
  ghost predicate Covered(ms: seq<Match>, i: nat) {
    exists k :: 0 <= k < |ms| && ms[k].start <= i < ms[k].end
  }

  lemma CoveredCons(m: Match, rest: seq<Match>, i: nat)
    requires m.start <= i < m.end || Covered(rest, i)
    ensures Covered([m] + rest, i)
  {
    if m.start <= i < m.end {
      assert ([m] + rest)[0] == m;
    } else {
      var k :| 0 <= k < |rest| && rest[k].start <= i < rest[k].end;
      assert ([m] + rest)[k + 1] == rest[k];
    }
  }

  lemma CoverTake(d: Dialect, p: Pattern, s: string, from: nat, m: Match, i: nat)
    requires from < |s| && MatchAt(d, p, s, from) == Some(m)
    requires m.start <= i < m.end || Covered(AllMatches(d, p, s, m.end), i)
    ensures Covered(AllMatches(d, p, s, from), i)
  {
    CoveredCons(m, AllMatches(d, p, s, m.end), i);
    AllMatchesTake(d, p, s, from, m);
  }

  /** Leftmost first: every position where the pattern matches lies inside some scanned match. */
  lemma {:induction false} AllMatchesCover(d: Dialect, p: Pattern, s: string, from: nat, i: nat)
    requires from <= i < |s| && MatchAt(d, p, s, i).Some?
    ensures Covered(AllMatches(d, p, s, from), i)
    decreases |s| - from
  {
    var r := MatchAt(d, p, s, from);
    if r.Some? {
      if i >= r.value.end {
        AllMatchesCover(d, p, s, r.value.end, i);
      }
      CoverTake(d, p, s, from, r.value, i);
    } else {
      AllMatchesCover(d, p, s, from + 1, i);
      AllMatchesSkip(d, p, s, from);
    }
  }

  /** The scan reports something exactly when the pattern matches somewhere at or after `from`. */
  lemma AllMatchesNonEmpty(d: Dialect, p: Pattern, s: string, from: nat)
    requires from <= |s|
    ensures AllMatches(d, p, s, from) != [] <==>
      exists i :: from <= i < |s| && MatchAt(d, p, s, i).Some?
  {
    var ms := AllMatches(d, p, s, from);
    if ms != [] {
      AllMatchesSound(d, p, s, from);
      assert MatchAt(d, p, s, ms[0].start).Some?;
    }
    if i :| from <= i < |s| && MatchAt(d, p, s, i).Some? {
      AllMatchesCover(d, p, s, from, i);
    }
  }

  /** When the first match at or after `from` is m, the scan reports m and resumes at its end. */
  lemma {:induction false} AllMatchesFirst(d: Dialect, p: Pattern, s: string, from: nat, m: Match)
    requires from <= m.start < |s| && MatchAt(d, p, s, m.start) == Some(m)
    requires forall j :: from <= j < m.start ==> MatchAt(d, p, s, j).None?
    ensures AllMatches(d, p, s, from) == [m] + AllMatches(d, p, s, m.end)
    decreases m.start - from
  {
    if from < m.start {
      assert MatchAt(d, p, s, from).None?;
      AllMatchesSkip(d, p, s, from);
      AllMatchesFirst(d, p, s, from + 1, m);
    } else {
      AllMatchesTake(d, p, s, from, m);
    }
  }

  /** When the pattern matches nowhere at or after `from`, the scan reports nothing. */
  lemma {:induction false} AllMatchesNone(d: Dialect, p: Pattern, s: string, from: nat)
    requires from <= |s|
    requires forall j :: from <= j < |s| ==> MatchAt(d, p, s, j).None?
    ensures AllMatches(d, p, s, from) == []
    decreases |s| - from
  {
    if from < |s| {
      AllMatchesNone(d, p, s, from + 1);
      AllMatchesSkip(d, p, s, from);
    }
  }
}
