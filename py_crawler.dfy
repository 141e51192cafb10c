/**
 * The Python `ContentParser` (1-python-crawler/a.py): a class with the base URL and the delay as
 * fields, whose extractors append to a list and add to a set in nested loops. The foreign calls
 * (BeautifulSoup's `script.string`, `json.loads`, `urljoin`) come in as a Library, and the
 * outcome of the HTTP request as a value.
 */
module PyCrawler {
  import opened Wrappers
  import opened Patterns
  import opened PatternDefs
  import opened Extraction

  /** What `session.get(url)` ended with: a `RequestException`, or a response with its status and text. */
  datatype FetchOutcome = RequestFailed | Response(status: int, text: string)

  /**
   * `get_page_content` after the request: `raise_for_status` raises for a 4xx or 5xx status, and
   * every `RequestException` is caught and answered with None.
   */
  function PageContent(outcome: FetchOutcome): (content: Option<string>)
    ensures content.None? <==> outcome.RequestFailed? || 400 <= outcome.status < 600
    ensures content.Some? ==> content.value == outcome.text
  {
    match outcome
    case RequestFailed => None
    case Response(status, text) => if 400 <= status < 600 then None else Some(text)
  }

  /** The one exception the extractors raise: `match.group(1)` on a pattern without group 1. */
  datatype PyError = IndexError

  /** The dict `analyze_page` builds. */
  datatype Results<J> = Results(jsonData: seq<Finding<J>>, jsEndpoints: set<string>, url: string)

  /** The members of an insertion-ordered collection, forgetting the order. */
  function Members(e: seq<string>): set<string> {
    set x | x in e
  }

  /** `list(endpoints)` has one entry per distinct endpoint: a collection without repeats loses none. */
  lemma {:induction false} MembersCard(e: seq<string>)
    requires NoDuplicates(e)
    ensures |Members(e)| == |e|
  {
    if e != [] {
      var init := e[..|e| - 1];
      assert NoDuplicates(init) by {
        forall i, j | 0 <= i < j < |init| ensures init[i] != init[j] {
          assert init[i] == e[i] && init[j] == e[j];
        }
      }
      MembersCard(init);
      assert e == init + [e[|e| - 1]];
      assert Members(e) == Members(init) + {e[|e| - 1]};
      assert e[|e| - 1] !in Members(init) by {
        forall k | 0 <= k < |init| ensures init[k] != e[|e| - 1] {
          assert init[k] == e[k];
        }
      }
    }
  }

  /** What `find_js_endpoints` returns, as a set since `list(set)` has no specified order, or the IndexError it raises. */
  function PyEndpoints<J>(lib: Library<J>, baseUrl: string, html: string): Result<set<string>, PyError> {
    match Collect(lib.resolve, baseUrl, AllUrls(ParenTest(Python), Python, lib.scripts(html)))
    case None => Err(IndexError)
    case Some(e) => Ok(Members(e))
  }

  /**
   * What `analyze_page` returns for the outcome of the request: None for falsy content, the
   * dict of both findings otherwise, or the IndexError of the endpoint finder.
   */
  function Analysis<J>(lib: Library<J>, baseUrl: string, url: string, outcome: FetchOutcome): Result<Option<Results<J>>, PyError> {
    var content := PageContent(outcome);
    if content.None? || content.value == "" then Ok(None)
    else
      match PyEndpoints(lib, baseUrl, content.value)
      case Err(e) => Err(e)
      case Ok(endpoints) => Ok(Some(Results(JsonFindings(Python, lib, content.value), endpoints, url)))
  }

  /** With resolution taken as total, `find_js_endpoints` raises exactly when a present script holds a match of pattern 1, 2 or 3. */
  lemma PyEndpointsRaiseIff<J>(lib: Library<J>, baseUrl: string, html: string)
    ensures PyEndpoints(lib, baseUrl, html).Err? <==> AnyLiteralMatch(Python, lib.scripts(html))
  {
    var urls := AllUrls(ParenTest(Python), Python, lib.scripts(html));
    AsWrittenFailIff(Python, lib.scripts(html));
    CollectFailsIff(lib.resolve, baseUrl, urls);
    if k :| 0 <= k < |urls| && urls[k].None? {
      assert urls[k] in urls;
    }
  }

  /**
   * On normal return the endpoints are exactly the `fetch`/`axios` arguments of the present
   * scripts, each joined to the base URL when it starts with `/`.
   */
  lemma PyEndpointsOk<J>(lib: Library<J>, baseUrl: string, html: string, x: string)
    requires PyEndpoints(lib, baseUrl, html).Ok?
    ensures x in PyEndpoints(lib, baseUrl, html).value <==>
      exists u, j :: 0 <= j < |lib.scripts(html)| && Present(lib.scripts(html)[j])
        && CallArgument(Python, lib.scripts(html)[j].value, u) && Normalize(lib.resolve, baseUrl, u) == x
  {
    var scripts := lib.scripts(html);
    var urls := AllUrls(ParenTest(Python), Python, scripts);
    CollectContents(lib.resolve, baseUrl, urls);
    if x in PyEndpoints(lib, baseUrl, html).value {
      var k :| 0 <= k < |urls| && urls[k].Some? && Normalize(lib.resolve, baseUrl, urls[k].value) == x;
      assert urls[k] in urls;
      AsWrittenArguments(Python, scripts, urls[k].value);
    }
    if (exists u, j :: 0 <= j < |scripts| && Present(scripts[j])
          && CallArgument(Python, scripts[j].value, u) && Normalize(lib.resolve, baseUrl, u) == x) {
      var u, j :| 0 <= j < |scripts| && Present(scripts[j])
        && CallArgument(Python, scripts[j].value, u) && Normalize(lib.resolve, baseUrl, u) == x;
      CallArgumentCandidate(Python, scripts, j, u);
      PyEndpointsIntended(lib, baseUrl, html);
      IntendedContents(lib.resolve, baseUrl, Python, scripts);
    }
  }

  /** A Python call argument is `[^"']+`: not empty and free of quotes. */
  lemma PythonArgumentShape(s: string, u: string)
    requires CallArgument(Python, s, u)
    ensures |u| > 0 && forall k :: 0 <= k < |u| ==> !IsQuote(u[k])
  {
    CallArgumentSpan(Python, s, u);
    var q: nat, e: nat :| q <= e <= |s| && s[q..e] == u && IsArgument(Python, s, q, e);
    forall k | 0 <= k < |u|
      ensures !IsQuote(u[k])
    {
      assert u[k] == s[q + k];
      assert InClass(Python, NonQuote, s[q + k]);
    }
  }

  /** On normal return the endpoints are those of the intended dispatch. */
  lemma PyEndpointsIntended<J>(lib: Library<J>, baseUrl: string, html: string)
    requires PyEndpoints(lib, baseUrl, html).Ok?
    ensures Collect(lib.resolve, baseUrl, AllUrls(GroupTest(), Python, lib.scripts(html))).Some?
    ensures PyEndpoints(lib, baseUrl, html).value
      == Members(Collect(lib.resolve, baseUrl, AllUrls(GroupTest(), Python, lib.scripts(html))).value)
  {
    var scripts := lib.scripts(html);
    var urls := AllUrls(ParenTest(Python), Python, scripts);
    CollectSomeAll(lib.resolve, baseUrl, urls);
    IntendedAgrees(Python, scripts);
  }

  /** `analyze_page` answers None exactly for a failed request or falsy content, and otherwise keeps the URL. */
  lemma AnalysisShape<J>(lib: Library<J>, baseUrl: string, url: string, outcome: FetchOutcome)
    ensures Analysis(lib, baseUrl, url, outcome) == Ok(None) <==>
      outcome.RequestFailed? || 400 <= outcome.status < 600 || outcome.text == ""
    ensures Analysis(lib, baseUrl, url, outcome).Err? <==>
      outcome.Response? && !(400 <= outcome.status < 600) && outcome.text != ""
      && AnyLiteralMatch(Python, lib.scripts(outcome.text))
    ensures Analysis(lib, baseUrl, url, outcome).Ok? && Analysis(lib, baseUrl, url, outcome).value.Some? ==>
      Analysis(lib, baseUrl, url, outcome).value.value.url == url
  {
    var content := PageContent(outcome);
    if content.Some? && content.value != "" {
      PyEndpointsRaiseIff(lib, baseUrl, content.value);
    }
  }

  /** Adding one more element to the ordered collection adds it to its members. */
  lemma MembersInsert(e: seq<string>, u: string)
    ensures Members(Insert(e, u)) == Members(e) + {u}
  {
  }

  class ContentParser {
    var baseUrl: string
    var delay: int

    /** `__init__`: the base URL, and the delay in seconds, one by default. */
    constructor(baseUrl: string, delay: int := 1)
      ensures this.baseUrl == baseUrl && this.delay == delay
    {
      this.baseUrl := baseUrl;
      this.delay := delay;
    }

    /** `get_page_content`, given the outcome of the request. */
    method GetPageContent(outcome: FetchOutcome) returns (content: Option<string>)
      ensures content == PageContent(outcome)
    {
      match outcome
      case RequestFailed =>
        return None;
      case Response(status, text) =>
        if 400 <= status < 600 {
          return None;
        }
        return Some(text);
    }

    /** `find_json_content`: the page-wide brace spans that decode, then each script's assignments. */
    method FindJsonContent<J>(lib: Library<J>, htmlContent: string) returns (jsonData: seq<Finding<J>>)
      ensures jsonData == JsonFindings(Python, lib, htmlContent)
    {
      var potentialJson := AllMatches(Python, JsonObject, htmlContent, 0);
      AllMatchesFit(Python, JsonObject, htmlContent);
      jsonData := PushFindings(lib.decode, htmlContent, JsonObject, potentialJson, []);
      jsonData := PushScriptFindings(Python, lib.decode, lib.scripts(htmlContent), jsonData);
    }

    /**
     * `find_js_endpoints`: the matches of the five patterns in every present script, script by
     * script and pattern by pattern, added to a set; the IndexError where there is no group 1.
     */
    method FindJsEndpoints<J>(lib: Library<J>, htmlContent: string) returns (r: Result<set<string>, PyError>)
      ensures r == PyEndpoints(lib, baseUrl, htmlContent)
    {
      var endpoints: set<string> := {};
      var scripts := lib.scripts(htmlContent);
      ghost var urls: seq<Option<string>> := [];
      ghost var ordered: seq<string> := [];
      for j := 0 to |scripts|
        invariant urls == AllUrls(ParenTest(Python), Python, scripts[..j])
        invariant Collect(lib.resolve, baseUrl, urls) == Some(ordered)
        invariant endpoints == Members(ordered)
      {
        AllUrlsSnoc(ParenTest(Python), Python, scripts, j);
        var script := scripts[j];
        if Present(script) {
          var added := ScriptEndpoints(lib.resolve, baseUrl, script.value, endpoints, ordered, urls);
          if added.None? {
            MissingAborts(lib.resolve, baseUrl, ParenTest(Python), Python, scripts, j);
            return Err(IndexError);
          }
          endpoints := added.value;
          urls := urls + PatternsUrls(ParenTest(Python), Python, script.value, EndpointPatterns);
          ordered := Collect(lib.resolve, baseUrl, urls).value;
        }
      }
      assert scripts[..|scripts|] == scripts;
      return Ok(endpoints);
    }

    /** `analyze_page`, given the outcome of the request that `get_page_content` makes. */
    method AnalyzePage<J>(lib: Library<J>, url: string, outcome: FetchOutcome) returns (r: Result<Option<Results<J>>, PyError>)
      ensures r == Analysis(lib, baseUrl, url, outcome)
    {
      var content := GetPageContent(outcome);
      if content.None? || content.value == "" {
        return Ok(None);
      }
      var jsonData := FindJsonContent(lib, content.value);
      var jsEndpoints := FindJsEndpoints(lib, content.value);
      match jsEndpoints
      case Err(e) => return Err(e);
      case Ok(endpoints) => return Ok(Some(Results(jsonData, endpoints, url)));
    }
  }

  /**
   * The loop of `find_js_endpoints` over the five patterns for one script; None, where the source
   * raises, at the first match without group 1. `ordered` is the insertion order of the set so far.
   */
  method ScriptEndpoints(resolve: (string, string) -> string, baseUrl: string, s: string, endpoints: set<string>,
                         ghost ordered: seq<string>, ghost urls: seq<Option<string>>)
    returns (r: Option<set<string>>)
    requires Collect(resolve, baseUrl, urls) == Some(ordered) && endpoints == Members(ordered)
    ensures r.None? <==> None in PatternsUrls(ParenTest(Python), Python, s, EndpointPatterns)
    ensures r.Some? ==>
      && Collect(resolve, baseUrl, urls + PatternsUrls(ParenTest(Python), Python, s, EndpointPatterns)).Some?
      && r.value == Members(Collect(resolve, baseUrl, urls + PatternsUrls(ParenTest(Python), Python, s, EndpointPatterns)).value)
  {
    var added := endpoints;
    ghost var done := urls;
    ghost var seen := ordered;
    for k := 0 to |EndpointPatterns|
      invariant done == urls + PatternsUrls(ParenTest(Python), Python, s, EndpointPatterns[..k])
      invariant None !in PatternsUrls(ParenTest(Python), Python, s, EndpointPatterns[..k])
      invariant Collect(resolve, baseUrl, done) == Some(seen) && added == Members(seen)
    {
      PatternsUrlsSnoc(ParenTest(Python), Python, s, EndpointPatterns, k);
      var pattern := EndpointPatterns[k];
      var matches := AllMatches(Python, pattern, s, 0);
      AllMatchesFit(Python, pattern, s);
      var next := AddMatchEndpoints(resolve, baseUrl, ParenTest(Python)(pattern), s, matches, added, seen, done);
      if next.None? {
        PatternsUrlsHas(ParenTest(Python), Python, s, EndpointPatterns, k, None);
        return None;
      }
      added := next.value;
      AppendAssoc(urls, PatternsUrls(ParenTest(Python), Python, s, EndpointPatterns[..k]), PatternUrls(ParenTest(Python), Python, s, pattern));
      done := done + PatternUrls(ParenTest(Python), Python, s, pattern);
      seen := Collect(resolve, baseUrl, done).value;
    }
    assert EndpointPatterns[..|EndpointPatterns|] == EndpointPatterns;
    return Some(added);
  }

  /**
   * The loop over one pattern's matches in `find_js_endpoints`: group 1 or the match with its
   * quotes stripped, as the `(` test decided, joined to the base URL when it starts with `/` and
   * added to the set; None, where the source raises, at the first match without group 1.
   */
  method AddMatchEndpoints(resolve: (string, string) -> string, baseUrl: string, useGroup: bool, s: string,
                           matches: seq<Match>, endpoints: set<string>,
                           ghost ordered: seq<string>, ghost urls: seq<Option<string>>)
    returns (r: Option<set<string>>)
    requires forall m <- matches :: Fits(s, m)
    requires Collect(resolve, baseUrl, urls) == Some(ordered) && endpoints == Members(ordered)
    ensures r.None? <==> None in MatchUrls(useGroup, Python, s, matches)
    ensures r.Some? ==>
      && Collect(resolve, baseUrl, urls + MatchUrls(useGroup, Python, s, matches)).Some?
      && r.value == Members(Collect(resolve, baseUrl, urls + MatchUrls(useGroup, Python, s, matches)).value)
  {
    var added := endpoints;
    ghost var done := urls;
    ghost var seen := ordered;
    for i := 0 to |matches|
      invariant done == urls + MatchUrls(useGroup, Python, s, matches[..i])
      invariant None !in MatchUrls(useGroup, Python, s, matches[..i])
      invariant Collect(resolve, baseUrl, done) == Some(seen) && added == Members(seen)
    {
      MatchUrlsSnoc(useGroup, Python, s, matches, i);
      var m := matches[i];
      assert m in matches;
      if useGroup && |m.groups| == 0 {
        MatchUrlsAt(useGroup, Python, s, matches, i);
        return None;
      }
      var url := if useGroup then Text(s, m.groups[0]) else StripQuotes(Python, s[m.start..m.end]);
      CollectSnoc(resolve, baseUrl, done, url);
      MembersInsert(seen, Normalize(resolve, baseUrl, url));
      AppendAssoc(urls, MatchUrls(useGroup, Python, s, matches[..i]), [Some(url)]);
      done := done + [Some(url)];
      seen := Insert(seen, Normalize(resolve, baseUrl, url));
      if |url| > 0 && url[0] == '/' {
        url := resolve(baseUrl, url);
      }
      added := added + {url};
    }
    assert matches[..|matches|] == matches;
    return Some(added);
  }
}
