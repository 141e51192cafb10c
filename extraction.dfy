/**
 * What the two ContentParser classes compute from a page, as functions: the JSON findings and the
 * endpoint candidates. The foreign parts are parameters: the JSON decoder (`JSON.parse`,
 * `json.loads`) answers None where it would throw, the HTML parser is the sequence of inline
 * script bodies it reports (None for a script without inline text), and URL resolution (`new URL`,
 * `urljoin`) is a function of the base URL and the path.
 */
module Extraction {
  import opened Wrappers
  import opened Patterns
  import opened PatternDefs
  import opened PatternLaws

  /** A decoded value found on a page: a brace span of the page text, or `{name: value}` from a script. */
  datatype Finding<J> = Untagged(value: J) | Tagged(name: string, value: J)

  /** The foreign calls the extractors make. */
  datatype Library<J> = Library(
    decode: string -> Option<J>,
    scripts: string -> seq<Option<string>>,
    resolve: (string, string) -> string)

  /** A script whose inline text is truthy: present and not empty. */
  predicate Present(script: Option<string>) {
    script.Some? && script.value != ""
  }

  // ---------------------------------------------------------------------------------------------
  // JSON findings
  // ---------------------------------------------------------------------------------------------

  predicate IsJsonPattern(p: Pattern) {
    p == JsonObject || p == JsonAssignment
  }

  /** Every match lies inside s and has the pattern's groups. */
  ghost predicate AllFit(s: string, p: Pattern, ms: seq<Match>) {
    forall m <- ms :: Fits(s, m) && |m.groups| == GroupCount(p)
  }

  lemma AllMatchesFit(d: Dialect, p: Pattern, s: string)
    ensures AllFit(s, p, AllMatches(d, p, s, 0))
  {
  }

  /**
   * What one match contributes: the decoded brace span (group 1 of the page-wide pattern), or the
   * decoded group 2 of an assignment tagged with its name (group 1). Nothing when decoding fails.
   */
  function FindingOf<J>(decode: string -> Option<J>, s: string, p: Pattern, m: Match): Option<Finding<J>>
    requires IsJsonPattern(p) && Fits(s, m) && |m.groups| == GroupCount(p)
  {
    if p == JsonObject then
      match decode(Text(s, m.groups[0]))
      case None => None
      case Some(v) => Some(Untagged(v))
    else
      match decode(Text(s, m.groups[1]))
      case None => None
      case Some(v) => Some(Tagged(Text(s, m.groups[0]), v))
  }

  /** The findings of a sequence of matches, in match order. */
  function Findings<J>(decode: string -> Option<J>, s: string, p: Pattern, ms: seq<Match>): (fs: seq<Finding<J>>)
    requires IsJsonPattern(p) && AllFit(s, p, ms)
    ensures |fs| <= |ms|
  {
    if ms == [] then []
    else
      var rest := Findings(decode, s, p, ms[..|ms| - 1]);
      match FindingOf(decode, s, p, ms[|ms| - 1])
      case None => rest
      case Some(f) => rest + [f]
  }

  /** The page-wide scan for brace spans. */
  function DocumentFindings<J>(d: Dialect, decode: string -> Option<J>, html: string): seq<Finding<J>> {
    AllMatchesFit(d, JsonObject, html);
    Findings(decode, html, JsonObject, AllMatches(d, JsonObject, html, 0))
  }

  /** The assignments of one script. */
  function ScriptFindings<J>(d: Dialect, decode: string -> Option<J>, script: string): seq<Finding<J>> {
    AllMatchesFit(d, JsonAssignment, script);
    Findings(decode, script, JsonAssignment, AllMatches(d, JsonAssignment, script, 0))
  }

  /** The assignments of all scripts, in script order; absent and empty scripts are skipped. */
  function AllScriptFindings<J>(d: Dialect, decode: string -> Option<J>, scripts: seq<Option<string>>): seq<Finding<J>> {
    if scripts == [] then []
    else
      var rest := AllScriptFindings(d, decode, scripts[..|scripts| - 1]);
      var last := scripts[|scripts| - 1];
      if Present(last) then rest + ScriptFindings(d, decode, last.value) else rest
  }

  /** `findJsonContent` / `find_json_content`: the page-wide findings, then the script findings. */
  function JsonFindings<J>(d: Dialect, lib: Library<J>, html: string): seq<Finding<J>> {
    DocumentFindings(d, lib.decode, html) + AllScriptFindings(d, lib.decode, lib.scripts(html))
  }

  lemma FitPrefix(s: string, p: Pattern, ms: seq<Match>, k: nat)
    requires AllFit(s, p, ms) && k <= |ms|
    ensures AllFit(s, p, ms[..k])
  {
    forall m <- ms[..k] ensures Fits(s, m) && |m.groups| == GroupCount(p) {
      var j :| 0 <= j < k && ms[..k][j] == m;
      assert ms[j] == m;
    }
  }

  /** Findings of concatenated matches are concatenated findings: match order is kept. */
  lemma {:induction false} FindingsAppend<J>(decode: string -> Option<J>, s: string, p: Pattern, a: seq<Match>, b: seq<Match>)
    requires IsJsonPattern(p) && AllFit(s, p, a) && AllFit(s, p, b)
    ensures AllFit(s, p, a + b)
    ensures Findings(decode, s, p, a + b) == Findings(decode, s, p, a) + Findings(decode, s, p, b)
    decreases |b|
  {
    assert AllFit(s, p, a + b) by {
      forall m <- a + b ensures Fits(s, m) && |m.groups| == GroupCount(p) {
        assert m in a || m in b;
      }
    }
    if b != [] {
      var b' := b[..|b| - 1];
      FitPrefix(s, p, b, |b| - 1);
      FindingsAppend(decode, s, p, a, b');
      assert (a + b)[..|a + b| - 1] == a + b';
      assert (a + b)[|a + b| - 1] == b[|b| - 1];
    } else {
      assert a + b == a;
    }
  }

  /** A value is found exactly when some match decodes to it; failed decodes are dropped. */
  lemma {:induction false} FindingsMember<J>(decode: string -> Option<J>, s: string, p: Pattern, ms: seq<Match>, f: Finding<J>)
    requires IsJsonPattern(p) && AllFit(s, p, ms)
    ensures f in Findings(decode, s, p, ms) <==> exists m <- ms :: FindingOf(decode, s, p, m) == Some(f)
    decreases |ms|
  {
    if ms != [] {
      var ms', last := ms[..|ms| - 1], ms[|ms| - 1];
      FitPrefix(s, p, ms, |ms| - 1);
      FindingsMember(decode, s, p, ms', f);
      assert f in Findings(decode, s, p, ms) <==>
        f in Findings(decode, s, p, ms') || FindingOf(decode, s, p, last) == Some(f);
      assert (exists m <- ms :: FindingOf(decode, s, p, m) == Some(f)) <==>
        (exists m <- ms' :: FindingOf(decode, s, p, m) == Some(f)) || FindingOf(decode, s, p, last) == Some(f) by {
        assert ms == ms' + [last];
        if exists m <- ms :: FindingOf(decode, s, p, m) == Some(f) {
          var m :| m in ms && FindingOf(decode, s, p, m) == Some(f);
          if m != last {
            assert m in ms';
          }
        }
      }
    }
  }

  /** Page-wide findings are untagged, script findings tagged. */
  lemma {:induction false} FindingsKind<J>(decode: string -> Option<J>, s: string, p: Pattern, ms: seq<Match>)
    requires IsJsonPattern(p) && AllFit(s, p, ms)
    ensures forall f <- Findings(decode, s, p, ms) :: f.Tagged? <==> p == JsonAssignment
    decreases |ms|
  {
    if ms != [] {
      FitPrefix(s, p, ms, |ms| - 1);
      FindingsKind(decode, s, p, ms[..|ms| - 1]);
    }
  }

  lemma {:induction false} AllScriptFindingsTagged<J>(d: Dialect, decode: string -> Option<J>, scripts: seq<Option<string>>)
    ensures forall f <- AllScriptFindings(d, decode, scripts) :: f.Tagged?
    decreases |scripts|
  {
    if scripts != [] {
      AllScriptFindingsTagged(d, decode, scripts[..|scripts| - 1]);
      var last := scripts[|scripts| - 1];
      if Present(last) {
        AllMatchesFit(d, JsonAssignment, last.value);
        FindingsKind(decode, last.value, JsonAssignment, AllMatches(d, JsonAssignment, last.value, 0));
      }
    }
  }

  /** Every untagged page-wide finding comes before every tagged script finding. */
  lemma JsonFindingsOrder<J>(d: Dialect, lib: Library<J>, html: string)
    ensures var r, n := JsonFindings(d, lib, html), |DocumentFindings(d, lib.decode, html)|;
      && (forall k :: 0 <= k < n ==> r[k].Untagged?)
      && (forall k :: n <= k < |r| ==> r[k].Tagged?)
  {
    var doc := DocumentFindings(d, lib.decode, html);
    var tail := AllScriptFindings(d, lib.decode, lib.scripts(html));
    AllMatchesFit(d, JsonObject, html);
    FindingsKind(lib.decode, html, JsonObject, AllMatches(d, JsonObject, html, 0));
    AllScriptFindingsTagged(d, lib.decode, lib.scripts(html));
    var r := doc + tail;
    forall k | 0 <= k < |doc| ensures r[k].Untagged? {
      assert r[k] == doc[k] && doc[k] in doc;
    }
    forall k | |doc| <= k < |r| ensures r[k].Tagged? {
      assert r[k] == tail[k - |doc|] && tail[k - |doc|] in tail;
    }
  }

  /** Script findings follow script order: the findings of two runs of scripts are concatenated. */
  lemma {:induction false} AllScriptFindingsAppend<J>(d: Dialect, decode: string -> Option<J>, a: seq<Option<string>>, b: seq<Option<string>>)
    ensures AllScriptFindings(d, decode, a + b) == AllScriptFindings(d, decode, a) + AllScriptFindings(d, decode, b)
    decreases |b|
  {
    if b == [] {
      assert a + b == a;
    } else {
      var b' := b[..|b| - 1];
      AllScriptFindingsAppend(d, decode, a, b');
      assert (a + b)[..|a + b| - 1] == a + b';
      assert (a + b)[|a + b| - 1] == b[|b| - 1];
    }
  }

  /** A script without inline text contributes nothing, wherever it stands. */
  lemma AbsentScriptFindings<J>(d: Dialect, decode: string -> Option<J>, a: seq<Option<string>>, script: Option<string>, b: seq<Option<string>>)
    requires !Present(script)
    ensures AllScriptFindings(d, decode, a + [script] + b) == AllScriptFindings(d, decode, a + b)
  {
    AllScriptFindingsAppend(d, decode, a + [script], b);
    AllScriptFindingsAppend(d, decode, a, b);
    assert (a + [script])[..|a + [script]| - 1] == a;
  }

  /**
   * The page-wide candidates: each is a `{` and the first `}` after it, they come left to right
   * without overlapping, and no `{` with a `}` somewhere after it is left outside all of them.
   */
  lemma DocumentCandidates(d: Dialect, html: string)
    ensures var ms := AllMatches(d, JsonObject, html, 0);
      && (forall k :: 0 <= k < |ms| ==> IsObjectMatch(html, ms[k]))
      && (forall k :: 0 < k < |ms| ==> ms[k - 1].end <= ms[k].start)
      && (forall i :: 0 <= i < |html| && html[i] == '{' && '}' in html[i + 1..] ==> Covered(ms, i))
  {
    var ms := AllMatches(d, JsonObject, html, 0);
    AllMatchesAreMatches(d, JsonObject, html, 0);
    forall k | 0 <= k < |ms| ensures IsObjectMatch(html, ms[k]) {
      assert ms[k] in ms;
    }
    forall i | 0 <= i < |html| && html[i] == '{' && '}' in html[i + 1..] ensures Covered(ms, i) {
      var j :| 0 <= j < |html[i + 1..]| && html[i + 1..][j] == '}';
      assert html[i + 1 + j] == '}';
      assert MatchAt(d, JsonObject, html, i).Some?;
      AllMatchesCover(d, JsonObject, html, 0, i);
    }
  }

  /** A page-wide finding is the decoded text of one of those candidates, and every decodable one is found. */
  lemma DocumentFindingsMember<J>(d: Dialect, decode: string -> Option<J>, html: string, v: J)
    ensures Untagged(v) in DocumentFindings(d, decode, html) <==>
      exists m <- AllMatches(d, JsonObject, html, 0) :: decode(html[m.start..m.end]) == Some(v)
  {
    var ms := AllMatches(d, JsonObject, html, 0);
    AllMatchesFit(d, JsonObject, html);
    AllMatchesAreMatches(d, JsonObject, html, 0);
    FindingsMember(decode, html, JsonObject, ms, Untagged(v));
    forall m <- ms ensures Text(html, m.groups[0]) == html[m.start..m.end] {
      assert IsObjectMatch(html, m);
    }
  }

  /**
   * A script finding is `{name: value}` for an assignment match of the script whose group 2
   * decodes to value, and every such match is found.
   */
  lemma ScriptFindingsMember<J>(d: Dialect, decode: string -> Option<J>, script: string, name: string, v: J)
    ensures Tagged(name, v) in ScriptFindings(d, decode, script) <==>
      exists m <- AllMatches(d, JsonAssignment, script, 0) ::
        IsAssignmentMatch(d, script, m)
        && name == script[m.groups[0].lo..m.groups[0].hi]
        && decode(script[m.groups[1].lo..m.groups[1].hi]) == Some(v)
  {
    var ms := AllMatches(d, JsonAssignment, script, 0);
    AllMatchesFit(d, JsonAssignment, script);
    AllMatchesAreMatches(d, JsonAssignment, script, 0);
    FindingsMember(decode, script, JsonAssignment, ms, Tagged(name, v));
  }

  // ---------------------------------------------------------------------------------------------
  // Endpoint candidates
  // ---------------------------------------------------------------------------------------------

  /** The endpoint patterns, in the order the source lists them. */
  const EndpointPatterns: seq<Pattern> := [ApiPath, FullUrl, ScriptFile, FetchCall, AxiosCall]

  /** Patterns 1 to 3: a quoted literal, without a capturing group. */
  predicate IsLiteralPattern(p: Pattern) {
    p == ApiPath || p == FullUrl || p == ScriptFile
  }

  /** Patterns 4 and 5: a call whose argument is group 1. */
  predicate IsCallPattern(p: Pattern) {
    p == FetchCall || p == AxiosCall
  }

  /**
   * The text the `(` test looks at: `pattern.toString()` in JavaScript (the literal with its
   * slashes and flag), the raw string in Python.
   */
  function Source(d: Dialect, p: Pattern): string {
    match (d, p)
    case (JavaScript, ApiPath) => @"/(?:""|')\/?api\/[^""'\s]+(?:""|')/g"
    case (JavaScript, FullUrl) => @"/(?:""|\')https?:\/\/[^""'\s]+(?:""|')/g"
    case (JavaScript, ScriptFile) => @"/(?:""|\')\/[^\s""']+\.js(?:""|')/g"
    case (JavaScript, FetchCall) => @"/fetch\(['""](.*?)['""]\)/g"
    case (JavaScript, AxiosCall) => @"/axios\.[a-z]+\(['""](.*?)['""]\)/g"
    case (Python, ApiPath) => @"(?:""|\')/api/[^""\'\s]+(?:""|\')"
    case (Python, FullUrl) => @"(?:""|\')https?://[^""\'\s]+(?:""|\')"
    case (Python, ScriptFile) => @"(?:""|\')/[^\s""\']+\.js(?:""|\')"
    case (Python, FetchCall) => @"fetch\([""\']([^""\']+)[""\']\)"
    case (Python, AxiosCall) => @"axios\.[a-z]+\([""\']([^""\']+)[""\']\)"
    case (_, JsonObject) => @"({[\s\S]*?})"
    case (_, JsonAssignment) => @"(?:var|let|const)\s+(\w+)\s*=\s*({[\s\S]*?});"
  }

  /** `t.includes(c)` / `c in t`, scanning from the front. */
  function Contains(t: string, c: char): bool {
    t != [] && (t[0] == c || Contains(t[1..], c))
  }

  lemma {:induction false} ContainsIff(t: string, c: char)
    ensures Contains(t, c) <==> c in t
    decreases |t|
  {
    if t != [] {
      ContainsIff(t[1..], c);
      assert t == [t[0]] + t[1..];
    }
  }

  lemma {:induction false} ContainsAt(t: string, c: char, i: nat)
    requires i < |t| && t[i] == c
    ensures Contains(t, c)
    decreases i
  {
    if i > 0 {
      ContainsAt(t[1..], c, i - 1);
    }
  }

  /** Every endpoint pattern's text contains `(`, so the test always asks for group 1. */
  lemma SourceHasParen(d: Dialect, p: Pattern)
    requires p in EndpointPatterns
    ensures Contains(Source(d, p), '(')
  {
    if d == JavaScript {
      JavaScriptSourceHasParen(p);
    } else {
      PythonSourceHasParen(p);
    }
  }

  lemma JavaScriptSourceHasParen(p: Pattern)
    requires p in EndpointPatterns
    ensures Contains(Source(JavaScript, p), '(')
  {
    var i := match p
      case FetchCall => 7
      case AxiosCall => 15
      case _ => 1;
    assert Source(JavaScript, p)[i] == '(';
    ContainsAt(Source(JavaScript, p), '(', i);
  }

  lemma PythonSourceHasParen(p: Pattern)
    requires p in EndpointPatterns
    ensures Contains(Source(Python, p), '(')
  {
    var i := match p
      case FetchCall => 6
      case AxiosCall => 14
      case _ => 0;
    assert Source(Python, p)[i] == '(';
    ContainsAt(Source(Python, p), '(', i);
  }

  /** `t.replace(/['"]/g, "")`: every quote removed. */
  function RemoveQuotes(t: string): string {
    if t == [] then [] else (if IsQuote(t[0]) then [] else [t[0]]) + RemoveQuotes(t[1..])
  }

  /** No quote is left, and nothing is added. */
  lemma {:induction false} RemoveQuotesLeavesNone(t: string)
    ensures forall k :: 0 <= k < |RemoveQuotes(t)| ==> !IsQuote(RemoveQuotes(t)[k])
    ensures |RemoveQuotes(t)| <= |t|
    decreases |t|
  {
    if t != [] {
      RemoveQuotesLeavesNone(t[1..]);
    }
  }

  /** Leading quotes removed. */
  function TrimStart(t: string): string {
    if t != [] && IsQuote(t[0]) then TrimStart(t[1..]) else t
  }

  /** A suffix is left that does not start with a quote, and only quotes were cut off. */
  lemma {:induction false} TrimStartShape(t: string)
    ensures |TrimStart(t)| <= |t| && TrimStart(t) == t[|t| - |TrimStart(t)|..]
    ensures TrimStart(t) != [] ==> !IsQuote(TrimStart(t)[0])
    ensures forall k :: 0 <= k < |t| - |TrimStart(t)| ==> IsQuote(t[k])
    decreases |t|
  {
    if t != [] && IsQuote(t[0]) {
      TrimStartShape(t[1..]);
      var r := TrimStart(t);
      assert t[|t| - |r|..] == t[1..][|t| - 1 - |r|..];
      forall k | 0 < k < |t| - |r| ensures IsQuote(t[k]) {
        assert t[k] == t[1..][k - 1];
      }
    }
  }

  /** Trailing quotes removed. */
  function TrimEnd(t: string): string {
    if t != [] && IsQuote(t[|t| - 1]) then TrimEnd(t[..|t| - 1]) else t
  }

  /** A prefix is left that does not end with a quote, and only quotes were cut off. */
  lemma {:induction false} TrimEndShape(t: string)
    ensures |TrimEnd(t)| <= |t| && TrimEnd(t) == t[..|TrimEnd(t)|]
    ensures TrimEnd(t) != [] ==> !IsQuote(TrimEnd(t)[|TrimEnd(t)| - 1])
    ensures forall k :: |TrimEnd(t)| <= k < |t| ==> IsQuote(t[k])
    decreases |t|
  {
    if t != [] && IsQuote(t[|t| - 1]) {
      TrimEndShape(t[..|t| - 1]);
      var r := TrimEnd(t);
      assert t[..|r|] == t[..|t| - 1][..|r|];
      forall k | |r| <= k < |t| - 1 ensures IsQuote(t[k]) {
        assert t[k] == t[..|t| - 1][k];
      }
    }
  }

  /** JavaScript's `replace` of every quote, Python's `strip("'\"")` of quotes at both ends. */
  function StripQuotes(d: Dialect, t: string): string {
    if d == JavaScript then RemoveQuotes(t) else TrimEnd(TrimStart(t))
  }

  lemma {:induction false} RemoveQuotesNone(t: string)
    requires forall k :: 0 <= k < |t| ==> !IsQuote(t[k])
    ensures RemoveQuotes(t) == t
    decreases |t|
  {
    if t != [] {
      RemoveQuotesNone(t[1..]);
    }
  }

  /** Both ways of stripping turn a quoted literal without inner quotes into the text between the quotes. */
  lemma StripQuotedLiteral(d: Dialect, t: string)
    requires 2 < |t| && IsQuote(t[0]) && IsQuote(t[|t| - 1])
    requires forall k :: 0 < k < |t| - 1 ==> !IsQuote(t[k])
    ensures StripQuotes(d, t) == t[1..|t| - 1]
  {
    if d == JavaScript {
      RemoveQuotedLiteral(t);
    } else {
      TrimQuotedLiteral(t);
    }
  }

  lemma RemoveQuotedLiteral(t: string)
    requires 2 < |t| && IsQuote(t[0]) && IsQuote(t[|t| - 1])
    requires forall k :: 0 < k < |t| - 1 ==> !IsQuote(t[k])
    ensures RemoveQuotes(t) == t[1..|t| - 1]
  {
    var inner, last := t[1..|t| - 1], t[|t| - 1];
    assert RemoveQuotes(inner) == inner by {
      RemoveQuotesNone(inner);
    }
    assert RemoveQuotes([last]) == [] by {
      assert [last][1..] == [];
    }
    assert RemoveQuotes(t[1..]) == RemoveQuotes(inner) + RemoveQuotes([last]) by {
      assert t[1..] == inner + [last];
      RemoveQuotesAppend(inner, [last]);
    }
  }

  lemma TrimQuotedLiteral(t: string)
    requires 2 < |t| && IsQuote(t[0]) && IsQuote(t[|t| - 1])
    requires forall k :: 0 < k < |t| - 1 ==> !IsQuote(t[k])
    ensures TrimEnd(TrimStart(t)) == t[1..|t| - 1]
  {
    var inner := t[1..|t| - 1];
    var rest := t[1..];
    assert TrimStart(t) == TrimStart(rest);
    assert !IsQuote(rest[0]);
    assert TrimStart(rest) == rest;
    assert rest[..|rest| - 1] == inner;
    assert TrimEnd(rest) == TrimEnd(inner);
    assert !IsQuote(inner[|inner| - 1]);
    assert TrimEnd(inner) == inner;
  }

  lemma {:induction false} RemoveQuotesAppend(a: string, b: string)
    ensures RemoveQuotes(a + b) == RemoveQuotes(a) + RemoveQuotes(b)
    decreases |a|
  {
    if a == [] {
      assert a + b == b;
    } else {
      assert (a + b)[1..] == a[1..] + b;
      RemoveQuotesAppend(a[1..], b);
    }
  }

  /**
   * How a candidate is taken from a match of pattern p: group 1 where the choice holds, the whole
   * match without its quotes otherwise.
   */
  type GroupChoice = Pattern -> bool

  /** The source's `(` test: group 1 when the pattern text contains `(`. */
  function ParenTest(d: Dialect): GroupChoice {
    p => Contains(Source(d, p), '(')
  }

  /** The evidently intended choice: group 1 exactly where the pattern has one. */
  function GroupTest(): GroupChoice {
    p => GroupCount(p) > 0
  }

  /** The candidate a match yields; None where group 1 is asked for and the match has none. */
  function Extracted(useGroup: bool, d: Dialect, s: string, m: Match): Option<string>
    requires Fits(s, m)
  {
    if useGroup then Group(s, m, 1)
    else
      match Group(s, m, 0)
      case None => None
      case Some(t) => Some(StripQuotes(d, t))
  }

  /** The candidates of a sequence of matches, in match order. */
  function MatchUrls(useGroup: bool, d: Dialect, s: string, ms: seq<Match>): (us: seq<Option<string>>)
    requires forall m <- ms :: Fits(s, m)
    ensures |us| == |ms|
  {
    if ms == [] then []
    else
      assert forall m <- ms[..|ms| - 1] :: m in ms;
      MatchUrls(useGroup, d, s, ms[..|ms| - 1]) + [Extracted(useGroup, d, s, ms[|ms| - 1])]
  }

  /** The candidates of one pattern over one script. */
  function PatternUrls(g: GroupChoice, d: Dialect, s: string, p: Pattern): seq<Option<string>> {
    AllMatchesFit(d, p, s);
    MatchUrls(g(p), d, s, AllMatches(d, p, s, 0))
  }

  /** The candidates of the given patterns over one script, pattern by pattern. */
  function PatternsUrls(g: GroupChoice, d: Dialect, s: string, ps: seq<Pattern>): seq<Option<string>> {
    if ps == [] then []
    else PatternsUrls(g, d, s, ps[..|ps| - 1]) + PatternUrls(g, d, s, ps[|ps| - 1])
  }

  /** The candidates of every present script, script by script, each with the five patterns. */
  function AllUrls(g: GroupChoice, d: Dialect, scripts: seq<Option<string>>): seq<Option<string>> {
    if scripts == [] then []
    else
      var rest := AllUrls(g, d, scripts[..|scripts| - 1]);
      var last := scripts[|scripts| - 1];
      if Present(last) then rest + PatternsUrls(g, d, last.value, EndpointPatterns) else rest
  }


  /** `url.startsWith("/")`: such a path is resolved against the base URL, anything else kept as it is. */
  function Normalize(resolve: (string, string) -> string, base: string, url: string): string {
    if |url| > 0 && url[0] == '/' then resolve(base, url) else url
  }

  /** Adding to a set that remembers insertion order (a JavaScript Set). */
  function Insert(e: seq<string>, u: string): seq<string> {
    if u in e then e else e + [u]
  }

  /**
   * Adding the candidates to the endpoint set one by one; None as soon as a candidate is missing,
   * where the source raises.
   */
  function Collect(resolve: (string, string) -> string, base: string, urls: seq<Option<string>>): Option<seq<string>> {
    if urls == [] then Some([])
    else
      match Collect(resolve, base, urls[..|urls| - 1])
      case None => None
      case Some(e) =>
        match urls[|urls| - 1]
        case None => None
        case Some(u) => Some(Insert(e, Normalize(resolve, base, u)))
  }

  // ------------------------------- laws of Collect ---------------------------------------------

  predicate NoDuplicates(e: seq<string>) {
    forall i, j :: 0 <= i < j < |e| ==> e[i] != e[j]
  }

  /** Collecting fails exactly when some candidate is missing. */
  lemma {:induction false} CollectFailsIff(resolve: (string, string) -> string, base: string, urls: seq<Option<string>>)
    ensures Collect(resolve, base, urls).None? <==> exists k :: 0 <= k < |urls| && urls[k].None?
    decreases |urls|
  {
    if urls != [] {
      var init := urls[..|urls| - 1];
      CollectFailsIff(resolve, base, init);
      if exists k :: 0 <= k < |init| && init[k].None? {
        var k :| 0 <= k < |init| && init[k].None?;
        assert urls[k] == init[k];
      }
      if k :| 0 <= k < |urls| && urls[k].None? {
        if k < |init| {
          assert init[k] == urls[k];
        }
      }
    }
  }

  /**
   * A successful collection holds no string twice, and holds exactly the normalized candidates.
   */
  lemma {:induction false} CollectContents(resolve: (string, string) -> string, base: string, urls: seq<Option<string>>)
    requires Collect(resolve, base, urls).Some?
    ensures NoDuplicates(Collect(resolve, base, urls).value)
    ensures forall x :: x in Collect(resolve, base, urls).value <==>
      exists k :: 0 <= k < |urls| && urls[k].Some? && Normalize(resolve, base, urls[k].value) == x
    decreases |urls|
  {
    if urls != [] {
      var init := urls[..|urls| - 1];
      CollectContents(resolve, base, init);
      var e := Collect(resolve, base, init).value;
      var u := urls[|urls| - 1].value;
      forall x ensures x in Collect(resolve, base, urls).value <==>
        exists k :: 0 <= k < |urls| && urls[k].Some? && Normalize(resolve, base, urls[k].value) == x
      {
        if x in e {
          var k :| 0 <= k < |init| && init[k].Some? && Normalize(resolve, base, init[k].value) == x;
          assert urls[k] == init[k];
        }
        if k :| 0 <= k < |urls| && urls[k].Some? && Normalize(resolve, base, urls[k].value) == x {
          if k < |init| {
            assert init[k] == urls[k];
          }
        }
      }
    }
  }

  /** A collection extends every earlier one: endpoints keep the order of their first insertion. */
  lemma {:induction false} CollectExtends(resolve: (string, string) -> string, base: string, a: seq<Option<string>>, b: seq<Option<string>>)
    requires Collect(resolve, base, a + b).Some?
    ensures Collect(resolve, base, a).Some?
    ensures Collect(resolve, base, a).value <= Collect(resolve, base, a + b).value
    decreases |b|
  {
    if b == [] {
      assert a + b == a;
    } else {
      var b' := b[..|b| - 1];
      assert (a + b)[..|a + b| - 1] == a + b';
      assert (a + b)[|a + b| - 1] == b[|b| - 1];
      CollectExtends(resolve, base, a, b');
    }
  }

  // ------------------------------- laws of the candidates --------------------------------------

  /** A pattern matches somewhere in s: the reference definition holds for a match inside it. */
  ghost predicate MatchesIn(d: Dialect, p: Pattern, s: string) {
    exists m: Match :: m.start < |s| && IsMatch(d, p, s, m)
  }

  lemma MatchesInIff(d: Dialect, p: Pattern, s: string)
    ensures AllMatches(d, p, s, 0) != [] <==> MatchesIn(d, p, s)
  {
    AllMatchesNonEmpty(d, p, s, 0);
    if i :| 0 <= i < |s| && MatchAt(d, p, s, i).Some? {
      MatchAtIff(d, p, s, i, MatchAt(d, p, s, i).value);
    }
    if m: Match :| m.start < |s| && IsMatch(d, p, s, m) {
      MatchAtIff(d, p, s, m.start, m);
    }
  }

  /** The choice takes group 1 of every endpoint pattern. */
  ghost predicate AsksGroup(g: GroupChoice) {
    forall p <- EndpointPatterns :: g(p)
  }

  /** As written, every endpoint pattern takes group 1: each pattern text contains `(`. */
  lemma ParenTestAsksGroup(d: Dialect)
    ensures AsksGroup(ParenTest(d))
  {
    forall p <- EndpointPatterns ensures ParenTest(d)(p) {
      SourceHasParen(d, p);
    }
  }

  /** A candidate is missing exactly when group 1 is asked of a pattern that has no group. */
  lemma {:induction false} MatchUrlsFail(useGroup: bool, d: Dialect, s: string, p: Pattern, ms: seq<Match>)
    requires AllFit(s, p, ms)
    ensures None in MatchUrls(useGroup, d, s, ms) <==> ms != [] && useGroup && GroupCount(p) == 0
    decreases |ms|
  {
    if ms != [] {
      FitPrefix(s, p, ms, |ms| - 1);
      MatchUrlsFail(useGroup, d, s, p, ms[..|ms| - 1]);
    }
  }

  /** The k-th candidate is the one the k-th match yields. */
  lemma {:induction false} MatchUrlsAt(useGroup: bool, d: Dialect, s: string, ms: seq<Match>, k: nat)
    requires forall m <- ms :: Fits(s, m)
    requires k < |ms|
    ensures MatchUrls(useGroup, d, s, ms)[k] == Extracted(useGroup, d, s, ms[k])
    decreases |ms|
  {
    if k < |ms| - 1 {
      assert forall m <- ms[..|ms| - 1] :: m in ms;
      MatchUrlsAt(useGroup, d, s, ms[..|ms| - 1], k);
    }
  }

  /** Pattern p is asked for group 1, has none, and matches in s. */
  predicate FailsOn(g: GroupChoice, d: Dialect, s: string, p: Pattern) {
    g(p) && GroupCount(p) == 0 && AllMatches(d, p, s, 0) != []
  }

  lemma PatternUrlsFail(g: GroupChoice, d: Dialect, s: string, p: Pattern)
    ensures None in PatternUrls(g, d, s, p) <==> FailsOn(g, d, s, p)
  {
    AllMatchesFit(d, p, s);
    MatchUrlsFail(g(p), d, s, p, AllMatches(d, p, s, 0));
  }

  /** One of the patterns ps fails on s. */
  predicate SomeFailsOn(g: GroupChoice, d: Dialect, s: string, ps: seq<Pattern>) {
    exists k :: 0 <= k < |ps| && FailsOn(g, d, s, ps[k])
  }

  lemma {:induction false} PatternsUrlsFail(g: GroupChoice, d: Dialect, s: string, ps: seq<Pattern>)
    ensures None in PatternsUrls(g, d, s, ps) <==> SomeFailsOn(g, d, s, ps)
    decreases |ps|
  {
    if ps != [] {
      var init, p := ps[..|ps| - 1], ps[|ps| - 1];
      PatternsUrlsFail(g, d, s, init);
      PatternUrlsFail(g, d, s, p);
      SomeFailsOnSplit(g, d, s, ps);
    }
  }

  lemma SomeFailsOnSplit(g: GroupChoice, d: Dialect, s: string, ps: seq<Pattern>)
    requires ps != []
    ensures SomeFailsOn(g, d, s, ps) <==> SomeFailsOn(g, d, s, ps[..|ps| - 1]) || FailsOn(g, d, s, ps[|ps| - 1])
  {
    var init := ps[..|ps| - 1];
    if SomeFailsOn(g, d, s, init) {
      var k :| 0 <= k < |init| && FailsOn(g, d, s, init[k]);
      assert ps[k] == init[k];
    }
    if SomeFailsOn(g, d, s, ps) {
      var k :| 0 <= k < |ps| && FailsOn(g, d, s, ps[k]);
      if k < |init| {
        assert init[k] == ps[k];
      }
    }
  }

  /** Pattern 1, 2 or 3 has a match in s, by the reference definitions. */
  ghost predicate LiteralMatchesIn(d: Dialect, s: string) {
    MatchesIn(d, ApiPath, s) || MatchesIn(d, FullUrl, s) || MatchesIn(d, ScriptFile, s)
  }

  /** When every endpoint pattern takes group 1, exactly the literal patterns can fail. */
  lemma SomeFailsOnIff(g: GroupChoice, d: Dialect, s: string)
    requires AsksGroup(g)
    ensures SomeFailsOn(g, d, s, EndpointPatterns) <==> LiteralMatchesIn(d, s)
  {
    MatchesInIff(d, ApiPath, s);
    MatchesInIff(d, FullUrl, s);
    MatchesInIff(d, ScriptFile, s);
    var ps := EndpointPatterns;
    assert ps[0] == ApiPath && ps[1] == FullUrl && ps[2] == ScriptFile;
    assert ps[3] == FetchCall && ps[4] == AxiosCall;
    assert g(ApiPath) && g(FullUrl) && g(ScriptFile);
  }

  /** Some present script holds a quoted `/api/` path, a quoted http(s) URL or a quoted `/….js` path. */
  ghost predicate AnyLiteralMatch(d: Dialect, scripts: seq<Option<string>>) {
    exists j :: 0 <= j < |scripts| && Present(scripts[j]) && LiteralMatchesIn(d, scripts[j].value)
  }

  lemma {:induction false} AllUrlsFail(g: GroupChoice, d: Dialect, scripts: seq<Option<string>>)
    requires AsksGroup(g)
    ensures None in AllUrls(g, d, scripts) <==> AnyLiteralMatch(d, scripts)
    decreases |scripts|
  {
    if scripts != [] {
      var last := scripts[|scripts| - 1];
      AllUrlsFail(g, d, scripts[..|scripts| - 1]);
      if Present(last) {
        PatternsUrlsFail(g, d, last.value, EndpointPatterns);
        SomeFailsOnIff(g, d, last.value);
      }
      AnyLiteralMatchSplit(d, scripts);
    }
  }

  lemma AnyLiteralMatchSplit(d: Dialect, scripts: seq<Option<string>>)
    requires scripts != []
    ensures var last := scripts[|scripts| - 1];
      AnyLiteralMatch(d, scripts) <==>
        AnyLiteralMatch(d, scripts[..|scripts| - 1]) || (Present(last) && LiteralMatchesIn(d, last.value))
  {
    var init := scripts[..|scripts| - 1];
    if AnyLiteralMatch(d, init) {
      var j :| 0 <= j < |init| && Present(init[j]) && LiteralMatchesIn(d, init[j].value);
      assert scripts[j] == init[j];
    }
    if AnyLiteralMatch(d, scripts) {
      var j :| 0 <= j < |scripts| && Present(scripts[j]) && LiteralMatchesIn(d, scripts[j].value);
      if j < |init| {
        assert init[j] == scripts[j];
      }
    }
  }

  /**
   * As written, a candidate is missing (and the source raises) exactly when some present
   * script holds a match of pattern 1, 2 or 3.
   */
  lemma AsWrittenFailIff(d: Dialect, scripts: seq<Option<string>>)
    ensures None in AllUrls(ParenTest(d), d, scripts) <==> AnyLiteralMatch(d, scripts)
  {
    ParenTestAsksGroup(d);
    AllUrlsFail(ParenTest(d), d, scripts);
  }

  /** u is group 1 of a call match (`fetch(…)` or `axios.<verb>(…)`) of the script s. */
  ghost predicate CallArgument(d: Dialect, s: string, u: string) {
    exists p, m :: IsCallPattern(p) && m in AllMatches(d, p, s, 0) && IsMatch(d, p, s, m)
      && |m.groups| == 1 && m.groups[0].lo <= m.groups[0].hi <= |s| && s[m.groups[0].lo..m.groups[0].hi] == u
  }

  /** A call argument is the text of a span that the argument rule accepts. */
  lemma CallArgumentSpan(d: Dialect, s: string, u: string)
    requires CallArgument(d, s, u)
    ensures exists q: nat, e: nat :: q <= e <= |s| && s[q..e] == u && IsArgument(d, s, q, e)
  {
    var p, m :| IsCallPattern(p) && m in AllMatches(d, p, s, 0) && IsMatch(d, p, s, m)
      && |m.groups| == 1 && m.groups[0].lo <= m.groups[0].hi <= |s| && s[m.groups[0].lo..m.groups[0].hi] == u;
    if p == FetchCall {
      assert IsFetchMatch(d, s, m);
    } else {
      assert IsAxiosMatch(d, s, m);
    }
    assert IsArgument(d, s, m.groups[0].lo, m.groups[0].hi);
  }

  lemma PatternUrlsArguments(g: GroupChoice, d: Dialect, s: string, p: Pattern, u: string)
    requires p in EndpointPatterns && g(p)
    requires Some(u) in PatternUrls(g, d, s, p)
    ensures CallArgument(d, s, u)
  {
    AllMatchesFit(d, p, s);
    var ms := AllMatches(d, p, s, 0);
    var k :| 0 <= k < |ms| && MatchUrls(true, d, s, ms)[k] == Some(u);
    MatchUrlsAt(true, d, s, ms, k);
    assert ms[k] in ms;
    CallMatchArgument(d, s, p, ms[k], u);
  }

  /** An endpoint pattern whose match has a group 1 is a call pattern, and the group is its argument. */
  lemma CallMatchArgument(d: Dialect, s: string, p: Pattern, m: Match, u: string)
    requires p in EndpointPatterns && m in AllMatches(d, p, s, 0)
    requires Fits(s, m) && |m.groups| == GroupCount(p) && Group(s, m, 1) == Some(u)
    ensures CallArgument(d, s, u)
  {
    assert IsCallPattern(p);
    AllMatchesAreMatches(d, p, s, 0);
    assert s[m.groups[0].lo..m.groups[0].hi] == u;
  }

  lemma {:induction false} PatternsUrlsArguments(g: GroupChoice, d: Dialect, s: string, ps: seq<Pattern>, u: string)
    requires forall p <- ps :: p in EndpointPatterns && g(p)
    requires Some(u) in PatternsUrls(g, d, s, ps)
    ensures CallArgument(d, s, u)
    decreases |ps|
  {
    var init, p := ps[..|ps| - 1], ps[|ps| - 1];
    if Some(u) in PatternsUrls(g, d, s, init) {
      assert forall q <- init :: q in ps;
      PatternsUrlsArguments(g, d, s, init, u);
    } else {
      PatternUrlsArguments(g, d, s, p, u);
    }
  }

  lemma {:induction false} AllUrlsArguments(g: GroupChoice, d: Dialect, scripts: seq<Option<string>>, u: string)
    requires AsksGroup(g)
    requires Some(u) in AllUrls(g, d, scripts)
    ensures exists j :: 0 <= j < |scripts| && Present(scripts[j]) && CallArgument(d, scripts[j].value, u)
    decreases |scripts|
  {
    var init, last := scripts[..|scripts| - 1], scripts[|scripts| - 1];
    if Some(u) in AllUrls(g, d, init) {
      AllUrlsArguments(g, d, init, u);
      var j :| 0 <= j < |init| && Present(init[j]) && CallArgument(d, init[j].value, u);
      assert scripts[j] == init[j];
    } else {
      PatternsUrlsArguments(g, d, last.value, EndpointPatterns, u);
      assert scripts[|scripts| - 1] == last;
    }
  }

  /** As written, every candidate that is there is the argument of a `fetch` or `axios` call. */
  lemma AsWrittenArguments(d: Dialect, scripts: seq<Option<string>>, u: string)
    requires Some(u) in AllUrls(ParenTest(d), d, scripts)
    ensures exists j :: 0 <= j < |scripts| && Present(scripts[j]) && CallArgument(d, scripts[j].value, u)
  {
    ParenTestAsksGroup(d);
    AllUrlsArguments(ParenTest(d), d, scripts, u);
  }

  // ------------------------------- the evidently intended dispatch -----------------------------

  lemma PatternsUrlsTotal(d: Dialect, s: string, ps: seq<Pattern>)
    ensures None !in PatternsUrls(GroupTest(), d, s, ps)
  {
    PatternsUrlsFail(GroupTest(), d, s, ps);
  }

  /** With the intended dispatch no candidate is ever missing, so collecting always succeeds. */
  lemma {:induction false} IntendedNeverFails(resolve: (string, string) -> string, base: string, d: Dialect, scripts: seq<Option<string>>)
    ensures None !in AllUrls(GroupTest(), d, scripts)
    ensures Collect(resolve, base, AllUrls(GroupTest(), d, scripts)).Some?
    decreases |scripts|
  {
    if scripts != [] {
      IntendedNeverFails(resolve, base, d, scripts[..|scripts| - 1]);
      var last := scripts[|scripts| - 1];
      if Present(last) {
        PatternsUrlsTotal(d, last.value, EndpointPatterns);
      }
    }
    var urls := AllUrls(GroupTest(), d, scripts);
    CollectFailsIff(resolve, base, urls);
    forall k | 0 <= k < |urls| ensures urls[k].Some? {
      assert urls[k] in urls;
    }
  }

  /** Where a choice that takes group 1 goes on, the intended choice yields the same candidates. */
  lemma PatternUrlsAgree(g: GroupChoice, d: Dialect, s: string, p: Pattern)
    requires g(p)
    requires None !in PatternUrls(g, d, s, p)
    ensures PatternUrls(g, d, s, p) == PatternUrls(GroupTest(), d, s, p)
  {
    PatternUrlsFail(g, d, s, p);
  }

  lemma {:induction false} PatternsUrlsAgree(g: GroupChoice, d: Dialect, s: string, ps: seq<Pattern>)
    requires forall p <- ps :: g(p)
    requires None !in PatternsUrls(g, d, s, ps)
    ensures PatternsUrls(g, d, s, ps) == PatternsUrls(GroupTest(), d, s, ps)
    decreases |ps|
  {
    if ps != [] {
      var init, p := ps[..|ps| - 1], ps[|ps| - 1];
      assert forall q <- init :: q in ps;
      PatternsUrlsAgree(g, d, s, init);
      PatternUrlsAgree(g, d, s, p);
    }
  }

  lemma {:induction false} AllUrlsAgree(g: GroupChoice, d: Dialect, scripts: seq<Option<string>>)
    requires AsksGroup(g)
    requires None !in AllUrls(g, d, scripts)
    ensures AllUrls(g, d, scripts) == AllUrls(GroupTest(), d, scripts)
    decreases |scripts|
  {
    if scripts != [] {
      AllUrlsAgree(g, d, scripts[..|scripts| - 1]);
      var last := scripts[|scripts| - 1];
      if Present(last) {
        PatternsUrlsAgree(g, d, last.value, EndpointPatterns);
      }
    }
  }

  /** Where the source as written returns normally, the intended dispatch yields the same candidates. */
  lemma IntendedAgrees(d: Dialect, scripts: seq<Option<string>>)
    requires None !in AllUrls(ParenTest(d), d, scripts)
    ensures AllUrls(ParenTest(d), d, scripts) == AllUrls(GroupTest(), d, scripts)
  {
    ParenTestAsksGroup(d);
    AllUrlsAgree(ParenTest(d), d, scripts);
  }

  /** A match of pattern 1, 2 or 3 is a quote, at least one character that is not a quote, and a quote. */
  lemma LiteralShape(d: Dialect, s: string, p: Pattern, m: Match)
    requires IsLiteralPattern(p) && IsMatch(d, p, s, m)
    ensures m.start + 2 < m.end <= |s| && IsQuote(s[m.start]) && IsQuote(s[m.end - 1])
    ensures forall k :: m.start < k < m.end - 1 ==> !IsQuote(s[k])
  {
    if p == ApiPath {
      if IsQuotedMatch(d, s, m, "/api/") {
        QuotedShape(d, s, m, "/api/");
      } else {
        QuotedShape(d, s, m, "api/");
      }
    } else if p == FullUrl {
      if IsQuotedMatch(d, s, m, "https://") {
        QuotedShape(d, s, m, "https://");
      } else {
        QuotedShape(d, s, m, "http://");
      }
    } else {
      ScriptFileShape(d, s, m);
    }
  }

  lemma QuotedShape(d: Dialect, s: string, m: Match, prefix: string)
    requires IsQuotedMatch(d, s, m, prefix)
    requires forall j :: 0 <= j < |prefix| ==> !IsQuote(prefix[j])
    ensures m.start + 2 < m.end <= |s| && IsQuote(s[m.start]) && IsQuote(s[m.end - 1])
    ensures forall k :: m.start < k < m.end - 1 ==> !IsQuote(s[k])
  {
    forall k | m.start < k < m.end - 1 ensures !IsQuote(s[k]) {
      if k < m.start + 1 + |prefix| {
        HasAtChar(s, m.start + 1, prefix, k - m.start - 1);
      }
    }
  }

  lemma ScriptFileShape(d: Dialect, s: string, m: Match)
    requires IsScriptFileMatch(d, s, m)
    ensures m.start + 2 < m.end <= |s| && IsQuote(s[m.start]) && IsQuote(s[m.end - 1])
    ensures forall k :: m.start < k < m.end - 1 ==> !IsQuote(s[k])
  {
    forall k | m.start < k < m.end - 1 ensures !IsQuote(s[k]) {
      if k >= m.end - 4 {
        HasAtChar(s, m.end - 4, ".js", k - (m.end - 4));
      }
    }
  }

  /** With the intended dispatch, a literal match yields the text between its quotes. */
  lemma IntendedLiteral(d: Dialect, s: string, p: Pattern, m: Match)
    requires IsLiteralPattern(p) && IsMatch(d, p, s, m) && Fits(s, m)
    ensures Extracted(false, d, s, m) == Some(s[m.start + 1..m.end - 1])
  {
    LiteralShape(d, s, p, m);
    StripQuotedSpan(d, s, m);
  }

  lemma StripQuotedSpan(d: Dialect, s: string, m: Match)
    requires m.start + 2 < m.end <= |s| && IsQuote(s[m.start]) && IsQuote(s[m.end - 1])
    requires forall k :: m.start < k < m.end - 1 ==> !IsQuote(s[k])
    ensures StripQuotes(d, s[m.start..m.end]) == s[m.start + 1..m.end - 1]
  {
    var t := s[m.start..m.end];
    assert 2 < |t| && IsQuote(t[0]) && IsQuote(t[|t| - 1]);
    assert forall k :: 0 < k < |t| - 1 ==> !IsQuote(t[k]) by {
      forall k | 0 < k < |t| - 1 ensures !IsQuote(t[k]) {
        assert t[k] == s[m.start + k];
      }
    }
    StripQuotedLiteral(d, t);
    SliceInner(s, m.start, m.end);
  }

  lemma SliceInner(s: string, a: nat, b: nat)
    requires a + 2 <= b <= |s|
    ensures s[a..b][1..b - a - 1] == s[a + 1..b - 1]
  {
    var t := s[a..b];
    var inner, middle := t[1..b - a - 1], s[a + 1..b - 1];
    forall k | 0 <= k < b - a - 2 ensures inner[k] == middle[k] {
      assert t[1 + k] == s[a + 1 + k];
    }
  }

  // ------------------------------- what the intended dispatch collects -------------------------

  lemma {:induction false} PatternsUrlsHas(g: GroupChoice, d: Dialect, s: string, ps: seq<Pattern>, k: nat, u: Option<string>)
    requires k < |ps| && u in PatternUrls(g, d, s, ps[k])
    ensures u in PatternsUrls(g, d, s, ps)
    decreases |ps|
  {
    if k < |ps| - 1 {
      assert ps[..|ps| - 1][k] == ps[k];
      PatternsUrlsHas(g, d, s, ps[..|ps| - 1], k, u);
    }
  }

  lemma {:induction false} AllUrlsHas(g: GroupChoice, d: Dialect, scripts: seq<Option<string>>, j: nat, u: Option<string>)
    requires j < |scripts| && Present(scripts[j])
    requires u in PatternsUrls(g, d, scripts[j].value, EndpointPatterns)
    ensures u in AllUrls(g, d, scripts)
    decreases |scripts|
  {
    if j < |scripts| - 1 {
      assert scripts[..|scripts| - 1][j] == scripts[j];
      AllUrlsHas(g, d, scripts[..|scripts| - 1], j, u);
    }
  }

  /**
   * u is what the intended dispatch takes from a scanned match of an endpoint pattern in a
   * present script: group 1 of a call, the unquoted text of a literal.
   */
  ghost predicate Candidate(d: Dialect, scripts: seq<Option<string>>, u: string) {
    exists j, p, m :: 0 <= j < |scripts| && Present(scripts[j]) && p in EndpointPatterns
      && m in AllMatches(d, p, scripts[j].value, 0) && Fits(scripts[j].value, m)
      && Extracted(GroupCount(p) > 0, d, scripts[j].value, m) == Some(u)
  }

  /** The argument of a `fetch`/`axios` call in a present script is a candidate. */
  lemma CallArgumentCandidate(d: Dialect, scripts: seq<Option<string>>, j: nat, u: string)
    requires j < |scripts| && Present(scripts[j]) && CallArgument(d, scripts[j].value, u)
    ensures Candidate(d, scripts, u)
  {
    var s := scripts[j].value;
    var p, m :| IsCallPattern(p) && m in AllMatches(d, p, s, 0) && IsMatch(d, p, s, m)
      && |m.groups| == 1 && m.groups[0].lo <= m.groups[0].hi <= |s| && s[m.groups[0].lo..m.groups[0].hi] == u;
    AllMatchesFit(d, p, s);
    assert p in EndpointPatterns;
    assert Extracted(GroupCount(p) > 0, d, s, m) == Some(u);
  }

  lemma PatternUrlsCandidate(d: Dialect, s: string, p: Pattern, u: string)
    requires Some(u) in PatternUrls(GroupTest(), d, s, p)
    ensures exists m :: m in AllMatches(d, p, s, 0) && Fits(s, m) && Extracted(GroupCount(p) > 0, d, s, m) == Some(u)
  {
    AllMatchesFit(d, p, s);
    var ms := AllMatches(d, p, s, 0);
    var k :| 0 <= k < |ms| && MatchUrls(GroupCount(p) > 0, d, s, ms)[k] == Some(u);
    MatchUrlsAt(GroupCount(p) > 0, d, s, ms, k);
    assert ms[k] in ms;
  }

  lemma {:induction false} PatternsUrlsCandidate(d: Dialect, s: string, ps: seq<Pattern>, u: string)
    requires Some(u) in PatternsUrls(GroupTest(), d, s, ps)
    ensures exists p, m ::
      p in ps && m in AllMatches(d, p, s, 0) && Fits(s, m) && Extracted(GroupCount(p) > 0, d, s, m) == Some(u)
    decreases |ps|
  {
    var init, p := ps[..|ps| - 1], ps[|ps| - 1];
    if Some(u) in PatternsUrls(GroupTest(), d, s, init) {
      PatternsUrlsCandidate(d, s, init, u);
      var q, m :| q in init && m in AllMatches(d, q, s, 0) && Fits(s, m) && Extracted(GroupCount(q) > 0, d, s, m) == Some(u);
      assert q in ps;
    } else {
      PatternUrlsCandidate(d, s, p, u);
      assert p in ps;
    }
  }

  lemma {:induction false} AllUrlsCandidate(d: Dialect, scripts: seq<Option<string>>, u: string)
    requires Some(u) in AllUrls(GroupTest(), d, scripts)
    ensures Candidate(d, scripts, u)
    decreases |scripts|
  {
    var init, last := scripts[..|scripts| - 1], scripts[|scripts| - 1];
    if Some(u) in AllUrls(GroupTest(), d, init) {
      AllUrlsCandidate(d, init, u);
      var j, p, m :| 0 <= j < |init| && Present(init[j]) && p in EndpointPatterns
        && m in AllMatches(d, p, init[j].value, 0) && Fits(init[j].value, m)
        && Extracted(GroupCount(p) > 0, d, init[j].value, m) == Some(u);
      assert scripts[j] == init[j];
    } else {
      PatternsUrlsCandidate(d, last.value, EndpointPatterns, u);
      assert scripts[|scripts| - 1] == last;
    }
  }

  /** The candidate a scanned match yields is among the pattern's candidates. */
  lemma MatchCandidate(d: Dialect, s: string, p: Pattern, m: Match, u: string)
    requires m in AllMatches(d, p, s, 0) && Fits(s, m) && Extracted(GroupCount(p) > 0, d, s, m) == Some(u)
    ensures Some(u) in PatternUrls(GroupTest(), d, s, p)
  {
    AllMatchesFit(d, p, s);
    var ms := AllMatches(d, p, s, 0);
    var i :| 0 <= i < |ms| && ms[i] == m;
    MatchUrlsAt(GroupCount(p) > 0, d, s, ms, i);
  }

  lemma CandidateUrls(d: Dialect, scripts: seq<Option<string>>, u: string)
    requires Candidate(d, scripts, u)
    ensures Some(u) in AllUrls(GroupTest(), d, scripts)
  {
    var j, p, m :| 0 <= j < |scripts| && Present(scripts[j]) && p in EndpointPatterns
      && m in AllMatches(d, p, scripts[j].value, 0) && Fits(scripts[j].value, m)
      && Extracted(GroupCount(p) > 0, d, scripts[j].value, m) == Some(u);
    CandidateUrlsAt(d, scripts, j, p, m, u);
  }

  lemma CandidateUrlsAt(d: Dialect, scripts: seq<Option<string>>, j: nat, p: Pattern, m: Match, u: string)
    requires j < |scripts| && Present(scripts[j]) && p in EndpointPatterns
    requires m in AllMatches(d, p, scripts[j].value, 0) && Fits(scripts[j].value, m)
    requires Extracted(GroupCount(p) > 0, d, scripts[j].value, m) == Some(u)
    ensures Some(u) in AllUrls(GroupTest(), d, scripts)
  {
    var s := scripts[j].value;
    MatchCandidate(d, s, p, m, u);
    var k :| 0 <= k < |EndpointPatterns| && EndpointPatterns[k] == p;
    PatternsUrlsHas(GroupTest(), d, s, EndpointPatterns, k, Some(u));
    AllUrlsHas(GroupTest(), d, scripts, j, Some(u));
  }

  /** Exactly the candidates of the scanned matches are there, with the intended dispatch. */
  lemma IntendedUrlsIff(d: Dialect, scripts: seq<Option<string>>, u: string)
    ensures Some(u) in AllUrls(GroupTest(), d, scripts) <==> Candidate(d, scripts, u)
  {
    if Some(u) in AllUrls(GroupTest(), d, scripts) {
      AllUrlsCandidate(d, scripts, u);
    }
    if Candidate(d, scripts, u) {
      CandidateUrls(d, scripts, u);
    }
  }

  /**
   * With the intended dispatch the endpoint set holds no string twice and holds exactly the
   * normalized candidates of the scanned matches.
   */
  lemma IntendedContents(resolve: (string, string) -> string, base: string, d: Dialect, scripts: seq<Option<string>>)
    ensures Collect(resolve, base, AllUrls(GroupTest(), d, scripts)).Some?
    ensures NoDuplicates(Collect(resolve, base, AllUrls(GroupTest(), d, scripts)).value)
    ensures forall x :: x in Collect(resolve, base, AllUrls(GroupTest(), d, scripts)).value <==>
      exists u :: Candidate(d, scripts, u) && Normalize(resolve, base, u) == x
  {
    var urls := AllUrls(GroupTest(), d, scripts);
    IntendedNeverFails(resolve, base, d, scripts);
    CollectContents(resolve, base, urls);
    var e := Collect(resolve, base, urls).value;
    forall x ensures x in e <==> exists u :: Candidate(d, scripts, u) && Normalize(resolve, base, u) == x {
      if x in e {
        var k :| 0 <= k < |urls| && urls[k].Some? && Normalize(resolve, base, urls[k].value) == x;
        assert urls[k] in urls;
        IntendedUrlsIff(d, scripts, urls[k].value);
      }
      if u :| Candidate(d, scripts, u) && Normalize(resolve, base, u) == x {
        IntendedUrlsIff(d, scripts, u);
        var k :| 0 <= k < |urls| && urls[k] == Some(u);
      }
    }
  }

  /**
   * With the intended dispatch, the text between the quotes of every scanned match of pattern
   * 1, 2 or 3 in a present script is in the endpoint set, normalized.
   */
  lemma IntendedFindsLiteral(resolve: (string, string) -> string, base: string, d: Dialect,
                             scripts: seq<Option<string>>, j: nat, p: Pattern, m: Match)
    requires j < |scripts| && Present(scripts[j]) && IsLiteralPattern(p)
    requires m in AllMatches(d, p, scripts[j].value, 0)
    ensures m.start + 2 < m.end <= |scripts[j].value|
    ensures Collect(resolve, base, AllUrls(GroupTest(), d, scripts)).Some?
    ensures Normalize(resolve, base, scripts[j].value[m.start + 1..m.end - 1])
      in Collect(resolve, base, AllUrls(GroupTest(), d, scripts)).value
  {
    var s := scripts[j].value;
    AllMatchesFit(d, p, s);
    AllMatchesAreMatches(d, p, s, 0);
    LiteralShape(d, s, p, m);
    IntendedLiteral(d, s, p, m);
    assert Candidate(d, scripts, s[m.start + 1..m.end - 1]);
    IntendedContents(resolve, base, d, scripts);
  }

  /** In `fetch('/api/items')` pattern 1 matches the quoted path at position 6. */
  lemma ApiItemsMatchAt(d: Dialect)
    ensures MatchAt(d, ApiPath, "fetch('/api/items')", 6) == Some(Match(6, 18, []))
  {
    var s := "fetch('/api/items')";
    assert HasAt(s, 7, "/api/");
    assert IsQuotedMatch(d, s, Match(6, 18, []), "/api/");
    MatchAtIff(d, ApiPath, s, 6, Match(6, 18, []));
  }

  /** ... and nowhere before it, where no quote is. */
  lemma ApiItemsNoEarlierMatch(d: Dialect)
    ensures forall i | 0 <= i < 6 :: MatchAt(d, ApiPath, "fetch('/api/items')", i).None?
  {
    var s := "fetch('/api/items')";
    forall i | 0 <= i < 6 ensures MatchAt(d, ApiPath, s, i).None? {
      if MatchAt(d, ApiPath, s, i).Some? {
        MatchAtIff(d, ApiPath, s, i, MatchAt(d, ApiPath, s, i).value);
        assert !IsQuote(s[i]);
      }
    }
  }

  /** So the scan of `fetch('/api/items')` for pattern 1 starts with that match. */
  lemma FetchApiItemsMatch(d: Dialect)
    ensures AllMatches(d, ApiPath, "fetch('/api/items')", 0) == [Match(6, 18, [])] + AllMatches(d, ApiPath, "fetch('/api/items')", 18)
  {
    ApiItemsMatchAt(d);
    ApiItemsNoEarlierMatch(d);
    AllMatchesFirst(d, ApiPath, "fetch('/api/items')", 0, Match(6, 18, []));
  }

  /** On the one script `fetch('/api/items')` the source as written raises, in both versions. */
  lemma FetchApiItemsRaises(resolve: (string, string) -> string, base: string, d: Dialect)
    ensures Collect(resolve, base, AllUrls(ParenTest(d), d, [Some("fetch('/api/items')")])).None?
  {
    var s := "fetch('/api/items')";
    var scripts := [Some(s)];
    FetchApiItemsMatch(d);
    assert Match(6, 18, []) in AllMatches(d, ApiPath, s, 0);
    AllMatchesAreMatches(d, ApiPath, s, 0);
    assert MatchesIn(d, ApiPath, s);
    assert Present(scripts[0]) && LiteralMatchesIn(d, scripts[0].value);
    AsWrittenFailIff(d, scripts);
    var urls := AllUrls(ParenTest(d), d, scripts);
    var k :| 0 <= k < |urls| && urls[k] == None;
    CollectFailsIff(resolve, base, urls);
  }

  lemma ApiItemsPath()
    ensures "fetch('/api/items')"[7..17] == "/api/items"
  {
  }

  /** On the same script the intended dispatch collects the resolved `/api/items`. */
  lemma FetchApiItemsIntended(resolve: (string, string) -> string, base: string, d: Dialect)
    ensures Collect(resolve, base, AllUrls(GroupTest(), d, [Some("fetch('/api/items')")])).Some?
    ensures resolve(base, "/api/items") in Collect(resolve, base, AllUrls(GroupTest(), d, [Some("fetch('/api/items')")])).value
  {
    var s := "fetch('/api/items')";
    FetchApiItemsMatch(d);
    assert Match(6, 18, []) in AllMatches(d, ApiPath, s, 0);
    IntendedFindsLiteral(resolve, base, d, [Some(s)], 0, ApiPath, Match(6, 18, []));
    ApiItemsPath();
  }

  // ------------------------------- steps of the imperative extractors --------------------------

  lemma FindingsSnoc<J>(decode: string -> Option<J>, s: string, p: Pattern, ms: seq<Match>, i: nat)
    requires IsJsonPattern(p) && AllFit(s, p, ms) && i < |ms|
    ensures AllFit(s, p, ms[..i]) && AllFit(s, p, ms[..i + 1])
    ensures Findings(decode, s, p, ms[..i + 1]) ==
      match FindingOf(decode, s, p, ms[i])
      case None => Findings(decode, s, p, ms[..i])
      case Some(f) => Findings(decode, s, p, ms[..i]) + [f]
  {
    FitPrefix(s, p, ms, i);
    FitPrefix(s, p, ms, i + 1);
    assert ms[..i + 1][..i] == ms[..i];
  }

  lemma AllScriptFindingsSnoc<J>(d: Dialect, decode: string -> Option<J>, scripts: seq<Option<string>>, j: nat)
    requires j < |scripts|
    ensures AllScriptFindings(d, decode, scripts[..j + 1]) ==
      if Present(scripts[j]) then AllScriptFindings(d, decode, scripts[..j]) + ScriptFindings(d, decode, scripts[j].value)
      else AllScriptFindings(d, decode, scripts[..j])
  {
    assert scripts[..j + 1][..j] == scripts[..j];
  }

  lemma MatchUrlsSnoc(useGroup: bool, d: Dialect, s: string, ms: seq<Match>, i: nat)
    requires (forall m <- ms :: Fits(s, m)) && i < |ms|
    ensures forall m <- ms[..i + 1] :: Fits(s, m)
    ensures MatchUrls(useGroup, d, s, ms[..i + 1]) == MatchUrls(useGroup, d, s, ms[..i]) + [Extracted(useGroup, d, s, ms[i])]
  {
    assert forall m <- ms[..i + 1] :: m in ms;
    assert ms[..i + 1][..i] == ms[..i];
  }

  lemma PatternsUrlsSnoc(g: GroupChoice, d: Dialect, s: string, ps: seq<Pattern>, k: nat)
    requires k < |ps|
    ensures PatternsUrls(g, d, s, ps[..k + 1]) == PatternsUrls(g, d, s, ps[..k]) + PatternUrls(g, d, s, ps[k])
  {
    assert ps[..k + 1][..k] == ps[..k];
  }

  lemma AllUrlsSnoc(g: GroupChoice, d: Dialect, scripts: seq<Option<string>>, j: nat)
    requires j < |scripts|
    ensures AllUrls(g, d, scripts[..j + 1]) ==
      if Present(scripts[j]) then AllUrls(g, d, scripts[..j]) + PatternsUrls(g, d, scripts[j].value, EndpointPatterns)
      else AllUrls(g, d, scripts[..j])
  {
    assert scripts[..j + 1][..j] == scripts[..j];
  }

  /** One more candidate that is there: the collection grows by its normalized form. */
  lemma CollectSnoc(resolve: (string, string) -> string, base: string, urls: seq<Option<string>>, u: string)
    requires Collect(resolve, base, urls).Some?
    ensures Collect(resolve, base, urls + [Some(u)]) == Some(Insert(Collect(resolve, base, urls).value, Normalize(resolve, base, u)))
  {
    assert (urls + [Some(u)])[..|urls|] == urls;
  }

  /** A collection that succeeds had every candidate. */
  lemma {:induction false} CollectSomeAll(resolve: (string, string) -> string, base: string, urls: seq<Option<string>>)
    requires Collect(resolve, base, urls).Some?
    ensures None !in urls
    decreases |urls|
  {
    if urls != [] {
      CollectSomeAll(resolve, base, urls[..|urls| - 1]);
      assert urls == urls[..|urls| - 1] + [urls[|urls| - 1]];
    }
  }

  /** A missing candidate in any present script makes the whole collection fail. */
  lemma MissingAborts(resolve: (string, string) -> string, base: string, g: GroupChoice, d: Dialect,
                      scripts: seq<Option<string>>, j: nat)
    requires j < |scripts| && Present(scripts[j])
    requires None in PatternsUrls(g, d, scripts[j].value, EndpointPatterns)
    ensures Collect(resolve, base, AllUrls(g, d, scripts)).None?
  {
    AllUrlsHas(g, d, scripts, j, None);
    if Collect(resolve, base, AllUrls(g, d, scripts)).Some? {
      CollectSomeAll(resolve, base, AllUrls(g, d, scripts));
      assert false;
    }
  }

  /**
   * The loop of `findJsonContent` / `find_json_content` over the matches of one JSON pattern:
   * each match whose span decodes is pushed, the others are skipped.
   */
  method PushFindings<J>(decode: string -> Option<J>, s: string, p: Pattern, ms: seq<Match>, jsonData: seq<Finding<J>>)
    returns (pushed: seq<Finding<J>>)
    requires IsJsonPattern(p) && AllFit(s, p, ms)
    ensures pushed == jsonData + Findings(decode, s, p, ms)
  {
    pushed := jsonData;
    for i := 0 to |ms|
      invariant AllFit(s, p, ms[..i])
      invariant pushed == jsonData + Findings(decode, s, p, ms[..i])
    {
      FindingsSnoc(decode, s, p, ms, i);
      var m := ms[i];
      if p == JsonObject {
        match decode(Text(s, m.groups[0]))
        case None =>
        case Some(data) =>
          AppendAssoc(jsonData, Findings(decode, s, p, ms[..i]), [Untagged(data)]);
          pushed := pushed + [Untagged(data)];
      } else {
        match decode(Text(s, m.groups[1]))
        case None =>
        case Some(data) =>
          AppendAssoc(jsonData, Findings(decode, s, p, ms[..i]), [Tagged(Text(s, m.groups[0]), data)]);
          pushed := pushed + [Tagged(Text(s, m.groups[0]), data)];
      }
    }
    assert ms[..|ms|] == ms;
  }

  lemma AppendAssoc<T>(a: seq<T>, b: seq<T>, c: seq<T>)
    ensures (a + b) + c == a + (b + c)
  {
  }

  /**
   * The loop of `findJsonContent` / `find_json_content` over the scripts: the assignments of
   * every present script, pushed script by script.
   */
  method PushScriptFindings<J>(d: Dialect, decode: string -> Option<J>, scripts: seq<Option<string>>, jsonData: seq<Finding<J>>)
    returns (pushed: seq<Finding<J>>)
    ensures pushed == jsonData + AllScriptFindings(d, decode, scripts)
  {
    pushed := jsonData;
    for j := 0 to |scripts|
      invariant pushed == jsonData + AllScriptFindings(d, decode, scripts[..j])
    {
      AllScriptFindingsSnoc(d, decode, scripts, j);
      var scriptContent := scripts[j];
      if Present(scriptContent) {
        var jsonVars := AllMatches(d, JsonAssignment, scriptContent.value, 0);
        AllMatchesFit(d, JsonAssignment, scriptContent.value);
        ghost var before := pushed;
        pushed := PushFindings(decode, scriptContent.value, JsonAssignment, jsonVars, pushed);
        assert pushed == jsonData + (AllScriptFindings(d, decode, scripts[..j]) + ScriptFindings(d, decode, scriptContent.value)) by {
          AppendAssoc(jsonData, AllScriptFindings(d, decode, scripts[..j]), ScriptFindings(d, decode, scriptContent.value));
        }
      }
    }
    assert scripts[..|scripts|] == scripts;
  }
}
