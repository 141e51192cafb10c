/**
 * The TypeScript `ContentParser` (ts-crawler/crawler-2.ts): a class with the base URL and the
 * delay as fields, whose extractors push onto an array and add to a Set in nested loops. The
 * foreign calls (cheerio's script bodies, `JSON.parse`, `new URL`) come in as a Library.
 */
module TsCrawler {
  import opened Wrappers
  import opened Patterns
  import opened Extraction

  /** `ParserConfig`: the base URL and an optional delay in milliseconds. */
  datatype ParserConfig = ParserConfig(baseUrl: string, delay: Option<int>)

  /** `config.delay || 1000`: a missing or zero delay becomes one second. */
  function DelayOrDefault(delay: Option<int>): (ms: int)
    ensures ms != 0
    ensures delay.Some? && delay.value != 0 ==> ms == delay.value
    ensures delay.None? || delay.value == 0 ==> ms == 1000
  {
    if delay.Some? && delay.value != 0 then delay.value else 1000
  }

  /** The one exception the extractors raise: `url.startsWith` on an undefined `match[1]`. */
  datatype JsError = TypeError

  /** `ParsedResults`. */
  datatype ParsedResults<J> = ParsedResults(jsonData: seq<Finding<J>>, jsEndpoints: seq<string>, url: string)

  /** What `findJsEndpoints` returns, or the TypeError it throws. */
  function JsEndpoints<J>(lib: Library<J>, baseUrl: string, html: string): Result<seq<string>, JsError> {
    match Collect(lib.resolve, baseUrl, AllUrls(ParenTest(JavaScript), JavaScript, lib.scripts(html)))
    case None => Err(TypeError)
    case Some(e) => Ok(e)
  }

  /**
   * What `analyzePage` returns for the fetched content (None for `null`): null for falsy
   * content, the record of both findings otherwise, or the TypeError of the endpoint finder.
   */
  function Analysis<J>(lib: Library<J>, baseUrl: string, url: string, content: Option<string>): Result<Option<ParsedResults<J>>, JsError> {
    if content.None? || content.value == "" then Ok(None)
    else
      match JsEndpoints(lib, baseUrl, content.value)
      case Err(e) => Err(e)
      case Ok(endpoints) => Ok(Some(ParsedResults(JsonFindings(JavaScript, lib, content.value), endpoints, url)))
  }

  /** With resolution taken as total, `findJsEndpoints` throws exactly when a present script holds a match of pattern 1, 2 or 3. */
  lemma JsEndpointsThrowIff<J>(lib: Library<J>, baseUrl: string, html: string)
    ensures JsEndpoints(lib, baseUrl, html).Err? <==> AnyLiteralMatch(JavaScript, lib.scripts(html))
  {
    var urls := AllUrls(ParenTest(JavaScript), JavaScript, lib.scripts(html));
    AsWrittenFailIff(JavaScript, lib.scripts(html));
    CollectFailsIff(lib.resolve, baseUrl, urls);
    if None in urls {
      var k :| 0 <= k < |urls| && urls[k] == None;
    }
    if k :| 0 <= k < |urls| && urls[k].None? {
      assert urls[k] in urls;
    }
  }

  /**
   * On normal return the endpoints hold no string twice, and they are exactly the `fetch`/`axios`
   * arguments of the present scripts, each resolved when it starts with `/`.
   */
  lemma JsEndpointsOk<J>(lib: Library<J>, baseUrl: string, html: string, x: string)
    requires JsEndpoints(lib, baseUrl, html).Ok?
    ensures NoDuplicates(JsEndpoints(lib, baseUrl, html).value)
    ensures x in JsEndpoints(lib, baseUrl, html).value <==>
      exists u, j :: 0 <= j < |lib.scripts(html)| && Present(lib.scripts(html)[j])
        && CallArgument(JavaScript, lib.scripts(html)[j].value, u) && Normalize(lib.resolve, baseUrl, u) == x
  {
    var scripts := lib.scripts(html);
    var urls := AllUrls(ParenTest(JavaScript), JavaScript, scripts);
    CollectContents(lib.resolve, baseUrl, urls);
    if x in JsEndpoints(lib, baseUrl, html).value {
      var k :| 0 <= k < |urls| && urls[k].Some? && Normalize(lib.resolve, baseUrl, urls[k].value) == x;
      assert urls[k] in urls;
      AsWrittenArguments(JavaScript, scripts, urls[k].value);
    }
    if (exists u, j :: 0 <= j < |scripts| && Present(scripts[j])
          && CallArgument(JavaScript, scripts[j].value, u) && Normalize(lib.resolve, baseUrl, u) == x) {
      var u, j :| 0 <= j < |scripts| && Present(scripts[j])
        && CallArgument(JavaScript, scripts[j].value, u) && Normalize(lib.resolve, baseUrl, u) == x;
      CallArgumentCandidate(JavaScript, scripts, j, u);
      JsEndpointsIntended(lib, baseUrl, html);
      IntendedContents(lib.resolve, baseUrl, JavaScript, scripts);
    }
  }

  /** On normal return the endpoints are those of the intended dispatch. */
  lemma JsEndpointsIntended<J>(lib: Library<J>, baseUrl: string, html: string)
    requires JsEndpoints(lib, baseUrl, html).Ok?
    ensures Some(JsEndpoints(lib, baseUrl, html).value)
      == Collect(lib.resolve, baseUrl, AllUrls(GroupTest(), JavaScript, lib.scripts(html)))
  {
    var scripts := lib.scripts(html);
    var urls := AllUrls(ParenTest(JavaScript), JavaScript, scripts);
    CollectSomeAll(lib.resolve, baseUrl, urls);
    IntendedAgrees(JavaScript, scripts);
  }

  /** `analyzePage` answers null exactly for falsy content, and otherwise keeps the URL it was given. */
  lemma AnalysisShape<J>(lib: Library<J>, baseUrl: string, url: string, content: Option<string>)
    ensures Analysis(lib, baseUrl, url, content) == Ok(None) <==> content.None? || content.value == ""
    ensures Analysis(lib, baseUrl, url, content).Err? <==>
      content.Some? && content.value != "" && AnyLiteralMatch(JavaScript, lib.scripts(content.value))
    ensures Analysis(lib, baseUrl, url, content).Ok? && Analysis(lib, baseUrl, url, content).value.Some? ==>
      Analysis(lib, baseUrl, url, content).value.value.url == url
  {
    if content.Some? && content.value != "" {
      JsEndpointsThrowIff(lib, baseUrl, content.value);
    }
  }

  class ContentParser {
    var baseUrl: string
    var delay: int

    /** `constructor(config)`: the base URL, and the delay with its default. */
    constructor(config: ParserConfig)
      ensures baseUrl == config.baseUrl && delay == DelayOrDefault(config.delay)
    {
      baseUrl := config.baseUrl;
      delay := DelayOrDefault(config.delay);
    }

    /** `findJsonContent`: the page-wide brace spans that decode, then each script's assignments. */
    method FindJsonContent<J>(lib: Library<J>, htmlContent: string) returns (jsonData: seq<Finding<J>>)
      ensures jsonData == JsonFindings(JavaScript, lib, htmlContent)
    {
      var potentialJson := AllMatches(JavaScript, JsonObject, htmlContent, 0);
      AllMatchesFit(JavaScript, JsonObject, htmlContent);
      jsonData := PushFindings(lib.decode, htmlContent, JsonObject, potentialJson, []);
      jsonData := PushScriptFindings(JavaScript, lib.decode, lib.scripts(htmlContent), jsonData);
    }

    /**
     * `findJsEndpoints`: the matches of the five patterns in every present script, script by
     * script and pattern by pattern, added to an insertion-ordered set; the TypeError where
     * group 1 is undefined.
     */
    method FindJsEndpoints<J>(lib: Library<J>, htmlContent: string) returns (r: Result<seq<string>, JsError>)
      ensures r == JsEndpoints(lib, baseUrl, htmlContent)
    {
      var endpoints: seq<string> := [];
      var scripts := lib.scripts(htmlContent);
      ghost var urls: seq<Option<string>> := [];
      for j := 0 to |scripts|
        invariant urls == AllUrls(ParenTest(JavaScript), JavaScript, scripts[..j])
        invariant Collect(lib.resolve, baseUrl, urls) == Some(endpoints)
      {
        AllUrlsSnoc(ParenTest(JavaScript), JavaScript, scripts, j);
        var scriptContent := scripts[j];
        if Present(scriptContent) {
          var added := ScriptEndpoints(lib.resolve, baseUrl, scriptContent.value, endpoints, urls);
          if added.None? {
            MissingAborts(lib.resolve, baseUrl, ParenTest(JavaScript), JavaScript, scripts, j);
            return Err(TypeError);
          }
          endpoints := added.value;
          urls := urls + PatternsUrls(ParenTest(JavaScript), JavaScript, scriptContent.value, EndpointPatterns);
        }
      }
      assert scripts[..|scripts|] == scripts;
      return Ok(endpoints);
    }

    /** `analyzePage`, given what `getPageContent` returned (None for `null`). */
    method AnalyzePage<J>(lib: Library<J>, url: string, content: Option<string>) returns (r: Result<Option<ParsedResults<J>>, JsError>)
      ensures r == Analysis(lib, baseUrl, url, content)
    {
      if content.None? || content.value == "" {
        return Ok(None);
      }
      var jsonData := FindJsonContent(lib, content.value);
      var jsEndpoints := FindJsEndpoints(lib, content.value);
      match jsEndpoints
      case Err(e) => return Err(e);
      case Ok(endpoints) => return Ok(Some(ParsedResults(jsonData, endpoints, url)));
    }
  }

  /**
   * The loop of `findJsEndpoints` over the five patterns for one script; None, where the source
   * throws, at the first match without group 1.
   */
  method ScriptEndpoints(resolve: (string, string) -> string, baseUrl: string, s: string,
                         endpoints: seq<string>, ghost urls: seq<Option<string>>)
    returns (r: Option<seq<string>>)
    requires Collect(resolve, baseUrl, urls) == Some(endpoints)
    ensures r.None? <==> None in PatternsUrls(ParenTest(JavaScript), JavaScript, s, EndpointPatterns)
    ensures r.Some? ==> r == Collect(resolve, baseUrl, urls + PatternsUrls(ParenTest(JavaScript), JavaScript, s, EndpointPatterns))
  {
    var added := endpoints;
    ghost var done := urls;
    for k := 0 to |EndpointPatterns|
      invariant done == urls + PatternsUrls(ParenTest(JavaScript), JavaScript, s, EndpointPatterns[..k])
      invariant None !in PatternsUrls(ParenTest(JavaScript), JavaScript, s, EndpointPatterns[..k])
      invariant Collect(resolve, baseUrl, done) == Some(added)
    {
      PatternsUrlsSnoc(ParenTest(JavaScript), JavaScript, s, EndpointPatterns, k);
      var pattern := EndpointPatterns[k];
      var matches := AllMatches(JavaScript, pattern, s, 0);
      AllMatchesFit(JavaScript, pattern, s);
      var next := AddMatchEndpoints(resolve, baseUrl, ParenTest(JavaScript)(pattern), s, matches, added, done);
      if next.None? {
        PatternsUrlsHas(ParenTest(JavaScript), JavaScript, s, EndpointPatterns, k, None);
        return None;
      }
      added := next.value;
      AppendAssoc(urls, PatternsUrls(ParenTest(JavaScript), JavaScript, s, EndpointPatterns[..k]), PatternUrls(ParenTest(JavaScript), JavaScript, s, pattern));
      done := done + PatternUrls(ParenTest(JavaScript), JavaScript, s, pattern);
    }
    assert EndpointPatterns[..|EndpointPatterns|] == EndpointPatterns;
    return Some(added);
  }

  /**
   * The `for…of` over one pattern's matches in `findJsEndpoints`: group 1 or the unquoted match,
   * as the `(` test decided, resolved when it starts with `/` and added to the insertion-ordered
   * set; None, where the source throws, at the first match without group 1.
   */
  method AddMatchEndpoints(resolve: (string, string) -> string, baseUrl: string, useGroup: bool, s: string,
                           matches: seq<Match>, endpoints: seq<string>, ghost urls: seq<Option<string>>)
    returns (r: Option<seq<string>>)
    requires forall m <- matches :: Fits(s, m)
    requires Collect(resolve, baseUrl, urls) == Some(endpoints)
    ensures r.None? <==> None in MatchUrls(useGroup, JavaScript, s, matches)
    ensures r.Some? ==> r == Collect(resolve, baseUrl, urls + MatchUrls(useGroup, JavaScript, s, matches))
  {
    var added := endpoints;
    ghost var done := urls;
    for i := 0 to |matches|
      invariant done == urls + MatchUrls(useGroup, JavaScript, s, matches[..i])
      invariant None !in MatchUrls(useGroup, JavaScript, s, matches[..i])
      invariant Collect(resolve, baseUrl, done) == Some(added)
    {
      MatchUrlsSnoc(useGroup, JavaScript, s, matches, i);
      var m := matches[i];
      assert m in matches;
      if useGroup && |m.groups| == 0 {
        MatchUrlsAt(useGroup, JavaScript, s, matches, i);
        return None;
      }
      var candidate := if useGroup then Text(s, m.groups[0]) else StripQuotes(JavaScript, s[m.start..m.end]);
      CollectSnoc(resolve, baseUrl, done, candidate);
      var url := candidate;
      if |url| > 0 && url[0] == '/' {
        url := resolve(baseUrl, url);
      }
      if url !in added {
        added := added + [url];
      }
      AppendAssoc(urls, MatchUrls(useGroup, JavaScript, s, matches[..i]), [Some(candidate)]);
      done := done + [Some(candidate)];
    }
    assert matches[..|matches|] == matches;
    return Some(added);
  }
}
