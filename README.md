# ContentParser content extraction, modelled in Dafny

The repository holds two versions of a small page analyser called `ContentParser`: a
TypeScript class (`ts-crawler/crawler-2.ts`) and a Python class (`1-python-crawler/a.py`). Each
version has three operations:

- **JSON finding.** It scans the page text for brace spans with the lazy pattern
  `{[\s\S]*?}` and keeps the spans that decode. It then scans every inline `<script>` body for
  `var|let|const <name> = {…};` and keeps `{name: value}` whenever the right-hand side decodes.
- **Endpoint finding.** It runs five regular expressions over every inline script and adds
  what they capture to a set. Those expressions are a quoted `/api/` path, a quoted `http(s)://`
  URL, a quoted `/….js` path, `fetch('…')` and `axios.<verb>('…')`. An entry that starts with
  `/` is first resolved against the base URL.
- **Page analysis.** The fetched content is `null`/`None`, or a record of both findings and the
  URL.

The model has these modules:

- `Patterns` (patterns.dfy): each regular expression as an explicit scanner.
  - `MatchAt` is the match the engine finds at one position.
  - `AllMatches` is `String.prototype.matchAll` / `re.finditer`: the leftmost match first, resuming where the last match ended.
  - The two engines' `\s` differ, so a `Dialect` (JavaScript or Python) selects the character classes.
- `PatternDefs` (pattern_defs.dfy): reference definitions of each pattern, read off the
  expression.
- `PatternLaws` (pattern_laws.dfy): each scanner proved equal to its reference definition.
- `Extraction` (extraction.dfy): what the extractors compute, as functions.
  - The JSON findings and the endpoint candidates.
  - The insertion-ordered set that `Collect` fills.
  - The `(` test that chooses between group 1 and the quote-stripped match.
  - The laws of all of these.
  - The two loops shared by both versions: `PushFindings` and `PushScriptFindings`.
- `TsCrawler` (ts_crawler.dfy): the TypeScript class.
  - Fields `baseUrl` and `delay`.
  - Imperative methods proved against the functions.
  - The endpoint list in insertion order.
- `PyCrawler` (py_crawler.dfy): the Python class.
  - The same structure as the TypeScript one.
  - The endpoints as a `set`, since `list(set)` has no specified order.
  - `get_page_content`'s failure-to-None rule.
- `JsonExample` (json_example.dfy): a worked page on which both JSON scans find the same
  object and both findings are kept.

The model takes three foreign calls as parameters, in a `Library` value:

- the HTML parser, as the sequence of optional script bodies it yields (`$(el).html()` /
  `script.string`);
- the JSON decoder, as a function `string -> Option<J>`;
- URL resolution (`new URL(u, base).toString()` / `urljoin(base, u)`), as a function of base and path.

The HTTP request and the delay before it are not modelled. For TypeScript the fetched content
comes in as `Option<string>`. For Python the outcome of the request comes in as a value
(`RequestFailed` or a status and a text).

Both versions choose between "take group 1" and "strip the quotes from the whole match" with
one test: does the pattern's text contain `(`? The model states this choice faithfully. Every
one of the five patterns contains `(`, through `(?:"|')` or through `fetch\(`/`axios…\(`. So
group 1 is always requested, including from patterns 1 to 3, which have no group. Their
matches make TypeScript's `url.startsWith` throw a TypeError and Python's `match.group(1)`
raise IndexError. The class methods therefore return a `Result`: the endpoints, or that error.
The evidently intended dispatch uses group 1 exactly where the pattern has one, and is
modelled beside the as-written one (`GroupTest` against `ParenTest`); see "## Findings".

## Model

| member | source | states |
|---|---|---|
| `Patterns.MatchAt` | ts-crawler/crawler-2.ts:92-98 | a match found at position i starts at i, lies inside the text and has exactly the pattern's capturing groups |
| `Patterns.AllMatches` | ts-crawler/crawler-2.ts:104 | `matchAll`'s matches lie inside the text and start at or after the scan start, with the pattern's groups; they come left to right and do not overlap |
| `Patterns.AllMatchesSound` | ts-crawler/crawler-2.ts:54 | every scanned match is the engine's match at its own start |
| `Patterns.AllMatchesCover` | ts-crawler/crawler-2.ts:72 | leftmost first: every position at which the pattern matches lies inside one of the scanned matches |
| `Patterns.AllMatchesNonEmpty` | 1-python-crawler/a.py:45 | `finditer` yields something exactly when the pattern matches at some position at or after the start |
| `Patterns.AllMatchesFirst` | 1-python-crawler/a.py:92 | when m is the first match at or after the start, the scan yields m and then resumes at m's end |
| `Patterns.AllMatchesNone` | 1-python-crawler/a.py:61-63 | a pattern that matches nowhere yields no match |
| `Patterns.ObjectAt` | ts-crawler/crawler-2.ts:53 | scanner for `({[\s\S]*?})` at one position: a match starts there, lies inside the text and has one group; `PatternLaws.ObjectAtIff` characterizes it |
| `Patterns.AssignmentAt` | ts-crawler/crawler-2.ts:71 | scanner for the assignment pattern at one position: a match starts there, lies inside the text and has two groups; `PatternLaws.AssignmentAtIff` characterizes it |
| `Patterns.ApiPathAt` | ts-crawler/crawler-2.ts:93 | scanner for pattern 1 at one position, the optional `/` only in JavaScript (`1-python-crawler/a.py:82` has none): a match starts there, lies inside the text and has no group; `PatternLaws.ApiPathAtIff` characterizes it |
| `Patterns.FullUrlAt` | ts-crawler/crawler-2.ts:94 | scanner for pattern 2 at one position: a match starts there, lies inside the text and has no group; `PatternLaws.FullUrlAtIff` characterizes it |
| `Patterns.ScriptFileAt` | ts-crawler/crawler-2.ts:95 | scanner for pattern 3 at one position, taking the maximal URL run and testing that it ends in `.js` with a quote after it: a match starts there, lies inside the text and has no group; `PatternLaws.ScriptFileAtIff` characterizes it |
| `Patterns.FetchAt` | ts-crawler/crawler-2.ts:96 | scanner for pattern 4 at one position: a match starts there, lies inside the text and has one group; `PatternLaws.FetchAtIff` characterizes it |
| `Patterns.AxiosAt` | ts-crawler/crawler-2.ts:97 | scanner for pattern 5 at one position: a match starts there, lies inside the text and has one group; `PatternLaws.AxiosAtIff` characterizes it |
| `PatternLaws.ObjectAtIff` | ts-crawler/crawler-2.ts:53 | `({[\s\S]*?})` matches at i exactly a `{` at i up to the first `}` after it, with group 1 the whole span |
| `PatternLaws.AssignmentAtIff` | ts-crawler/crawler-2.ts:71 | the assignment pattern matches at i exactly: `var`/`let`/`const`, white space, a `\w+` name (group 1), `=` with optional white space, and the shortest brace span followed by `;` (group 2) |
| `PatternLaws.ApiPathAtIff` | ts-crawler/crawler-2.ts:93 | pattern 1 matches exactly a quote, `/api/` (also `api/` in JavaScript), one or more characters that are neither quotes nor white space, and a quote; the Python dialect gives `1-python-crawler/a.py:82` |
| `PatternLaws.FullUrlAtIff` | ts-crawler/crawler-2.ts:94 | pattern 2 matches exactly a quote, `http://` or `https://`, one or more URL characters and a quote (the same for `1-python-crawler/a.py:83`) |
| `PatternLaws.ScriptFileAtIff` | ts-crawler/crawler-2.ts:95 | pattern 3 matches exactly a quote, `/`, one or more URL characters, `.js` and a quote (the same for `1-python-crawler/a.py:84`) |
| `PatternLaws.ArgumentEndIff` | ts-crawler/crawler-2.ts:96-97 | where a call argument ends: in JavaScript the lazy `.*?` stops at the first quote followed by `)`, without crossing a line terminator; in Python `[^"']+` is non-empty and quote-free (`1-python-crawler/a.py:85-86`) |
| `PatternLaws.FetchAtIff` | ts-crawler/crawler-2.ts:96 | pattern 4 matches exactly `fetch(`, a quote, the argument (group 1) and a quote with `)` |
| `PatternLaws.AxiosAtIff` | ts-crawler/crawler-2.ts:97 | pattern 5 matches exactly `axios.`, one or more lower-case letters, `(`, a quote, the argument (group 1) and a quote with `)` |
| `PatternLaws.MatchAtIff` | 1-python-crawler/a.py:81-87 | for every pattern, the scanner at i yields m exactly when m starts at i and meets the pattern's reference definition |
| `PatternLaws.AllMatchesAreMatches` | ts-crawler/crawler-2.ts:104 | every match of the global scan meets the pattern's reference definition |
| `Extraction.FindingOf` | ts-crawler/crawler-2.ts:56-63 | definition: what one match contributes, the decoded brace span bare or the decoded assignment value tagged with its name, nothing when decoding fails |
| `Extraction.Findings` | ts-crawler/crawler-2.ts:56-63 | definition: the findings of a run of matches in match order, never more than the matches; `Extraction.FindingsMember` and `Extraction.FindingsAppend` characterize it |
| `Extraction.DocumentFindings` | ts-crawler/crawler-2.ts:53-63 | definition: the page-wide scan for brace spans; `Extraction.DocumentFindingsMember` characterizes it |
| `Extraction.ScriptFindings` | ts-crawler/crawler-2.ts:71-81 | definition: the assignment findings of one script; `Extraction.ScriptFindingsMember` characterizes it |
| `Extraction.AllScriptFindings` | ts-crawler/crawler-2.ts:67-83 | definition: the assignment findings of every present script, in script order; `Extraction.AllScriptFindingsAppend` and `Extraction.AbsentScriptFindings` characterize it |
| `Extraction.JsonFindings` | 1-python-crawler/a.py:39-71 | definition: `find_json_content`, the page-wide findings and then the script findings; `Extraction.JsonFindingsOrder` and `Extraction.FindingsKind` characterize it |
| `Extraction.FindingsMember` | ts-crawler/crawler-2.ts:56-63 | a value is found exactly when some match decodes to it; a match whose text fails to decode is skipped without error |
| `Extraction.FindingsAppend` | ts-crawler/crawler-2.ts:74-81 | findings follow match order: the findings of concatenated matches are the concatenated findings |
| `Extraction.FindingsKind` | 1-python-crawler/a.py:50 | page-wide findings are pushed bare, assignment findings as `{name: value}` |
| `Extraction.JsonFindingsOrder` | 1-python-crawler/a.py:41-71 | every untagged page-wide finding comes before every tagged script finding |
| `Extraction.AllScriptFindingsAppend` | ts-crawler/crawler-2.ts:67-83 | script findings follow script order |
| `Extraction.AbsentScriptFindings` | ts-crawler/crawler-2.ts:68-69 | a script whose inline text is absent or empty contributes nothing, wherever it stands |
| `Extraction.DocumentCandidates` | 1-python-crawler/a.py:44-47 | each page-wide candidate is a `{` with the first `}` after it and no other `}`; the candidates are disjoint and left to right; no `{` that has a `}` after it lies outside all of them |
| `Extraction.DocumentFindingsMember` | ts-crawler/crawler-2.ts:58-59 | an untagged finding is the decoded text of a page-wide candidate, and every candidate that decodes is found |
| `Extraction.ScriptFindingsMember` | 1-python-crawler/a.py:61-67 | a tagged finding `{name: v}` comes from an assignment match whose group 1 is name and whose group 2 decodes to v, and every such match is found |
| `Extraction.PushFindings` | 1-python-crawler/a.py:47-52 | the loop over one pattern's matches appends exactly the findings of those matches to the list |
| `Extraction.PushScriptFindings` | ts-crawler/crawler-2.ts:67-83 | the loop over the scripts appends exactly the script findings, script by script |
| `Extraction.Source` | ts-crawler/crawler-2.ts:92-98 | definition: the text the `(` test looks at, the regex literal with slashes and flag in JavaScript and the raw string in Python (`1-python-crawler/a.py:81-87`); `Extraction.SourceHasParen` characterizes it |
| `Extraction.ParenTest` | ts-crawler/crawler-2.ts:106 | definition: the dispatch as written, group 1 when the pattern text contains `(`; `Extraction.ParenTestAsksGroup` characterizes it |
| `Extraction.GroupTest` | 1-python-crawler/a.py:94-98 | definition: the intended dispatch, group 1 exactly where the pattern has a group; `Extraction.PatternsUrlsTotal` and `Extraction.IntendedNeverFails` characterize it |
| `Extraction.ContainsIff` | ts-crawler/crawler-2.ts:106 | `includes("(")` holds exactly when `(` occurs in the text |
| `Extraction.SourceHasParen` | ts-crawler/crawler-2.ts:92-98 | the text of each of the five endpoint patterns contains `(` (in both versions) |
| `Extraction.ParenTestAsksGroup` | 1-python-crawler/a.py:94-96 | as written, group 1 is requested of every endpoint pattern |
| `Extraction.StripQuotes` | ts-crawler/crawler-2.ts:108 | definition: the quote removal of each version, every quote in JavaScript and quotes at both ends in Python (`1-python-crawler/a.py:97`); `Extraction.StripQuotedLiteral` characterizes it |
| `Extraction.RemoveQuotesLeavesNone` | ts-crawler/crawler-2.ts:108 | `replace(/['"]/g, "")` leaves no quote and never lengthens the text |
| `Extraction.RemoveQuotesAppend` | ts-crawler/crawler-2.ts:108 | removing quotes distributes over concatenation |
| `Extraction.TrimStartShape` | 1-python-crawler/a.py:97 | the left half of `strip("'\"")`: a suffix of the text whose first character is not a quote, with only quotes cut off |
| `Extraction.TrimEndShape` | 1-python-crawler/a.py:97 | the right half of `strip("'\"")`: a prefix of the text whose last character is not a quote, with only quotes cut off |
| `Extraction.StripQuotedLiteral` | 1-python-crawler/a.py:97 | both ways of stripping turn a quoted literal without inner quotes into the text between its quotes |
| `Extraction.Extracted` | ts-crawler/crawler-2.ts:106-108 | definition: the candidate one match yields, its group 1 or its text without quotes, missing where group 1 is asked of a match without one; `Extraction.MatchUrlsFail` characterizes it |
| `Extraction.MatchUrls` | ts-crawler/crawler-2.ts:105-108 | exactly one candidate (present or missing) per match |
| `Extraction.MatchUrlsFail` | ts-crawler/crawler-2.ts:106-110 | a candidate is missing (`match[1]` undefined) exactly when group 1 is asked of a pattern without groups that has a match |
| `Extraction.MatchUrlsAt` | ts-crawler/crawler-2.ts:105-108 | the k-th candidate is the one the k-th match yields |
| `Extraction.PatternUrls` | ts-crawler/crawler-2.ts:104-108 | definition: the candidates of one pattern over one script; `Extraction.PatternUrlsFail` and `Extraction.PatternUrlsArguments` characterize it |
| `Extraction.PatternsUrls` | ts-crawler/crawler-2.ts:103-115 | definition: the candidates of the five patterns over one script, pattern by pattern; `Extraction.PatternsUrlsFail` and `Extraction.PatternsUrlsHas` characterize it |
| `Extraction.AllUrls` | ts-crawler/crawler-2.ts:100-117 | definition: the candidates of every present script, script by script; `Extraction.AllUrlsFail`, `Extraction.AllUrlsArguments` and `Extraction.AllUrlsHas` characterize it |
| `Extraction.PatternUrlsFail` | ts-crawler/crawler-2.ts:104-110 | one pattern over one script fails exactly when it is asked for group 1, has none and matches |
| `Extraction.PatternsUrlsFail` | ts-crawler/crawler-2.ts:103-115 | the patterns over one script fail exactly when one of them does |
| `Extraction.SomeFailsOnIff` | 1-python-crawler/a.py:91-98 | when every pattern is asked for group 1, a script fails exactly when pattern 1, 2 or 3 matches in it |
| `Extraction.AllUrlsFail` | ts-crawler/crawler-2.ts:100-117 | under that choice a candidate is missing exactly when some present script holds a match of pattern 1, 2 or 3 |
| `Extraction.AsWrittenFailIff` | 1-python-crawler/a.py:89-98 | as written, a candidate is missing exactly when some present script holds a quoted `/api/` path, a quoted http(s) URL or a quoted `/….js` path |
| `Extraction.Normalize` | ts-crawler/crawler-2.ts:110-112 | definition: a candidate starting with `/` is resolved against the base URL and anything else is kept (`1-python-crawler/a.py:99-100`); resolution is a total parameter |
| `Extraction.Insert` | ts-crawler/crawler-2.ts:113 | definition: `Set.add`, which appends a string not yet present and leaves the set unchanged otherwise; `PyCrawler.MembersInsert` characterizes its members |
| `Extraction.Collect` | ts-crawler/crawler-2.ts:89-119 | definition: adding the candidates one by one to the insertion-ordered set, failing at the first missing one; `Extraction.CollectFailsIff` and `Extraction.CollectContents` characterize it |
| `Extraction.CollectFailsIff` | ts-crawler/crawler-2.ts:110-113 | adding the candidates fails (the exception) exactly when one of them is missing |
| `Extraction.CollectContents` | ts-crawler/crawler-2.ts:110-119 | a successful collection holds no string twice, and holds exactly the candidates, each resolved when it starts with `/` |
| `Extraction.CollectExtends` | ts-crawler/crawler-2.ts:119 | each collection extends every earlier one, so `Array.from(Set)` keeps first-insertion order |
| `Extraction.CollectSnoc` | ts-crawler/crawler-2.ts:110-113 | one more candidate that is there adds its normalized form to the set |
| `Extraction.CollectSomeAll` | 1-python-crawler/a.py:94-101 | a collection that succeeded had every candidate |
| `Extraction.MissingAborts` | ts-crawler/crawler-2.ts:110 | a missing candidate in any present script makes the whole collection fail |
| `Extraction.MatchesInIff` | ts-crawler/crawler-2.ts:104 | the scan yields something exactly when the reference definition holds of some match inside the script |
| `Extraction.PatternUrlsArguments` | ts-crawler/crawler-2.ts:96-97 | a candidate taken as group 1 is the argument of a `fetch`/`axios` call |
| `Extraction.PatternsUrlsArguments` | ts-crawler/crawler-2.ts:103-107 | over all patterns of one script, every candidate taken as group 1 is a call argument |
| `Extraction.AllUrlsArguments` | ts-crawler/crawler-2.ts:100-107 | every candidate there is a call argument of some present script |
| `Extraction.CallArgumentCandidate` | ts-crawler/crawler-2.ts:96-108 | conversely, the argument of every `fetch`/`axios` call in a present script is a candidate of the intended choice |
| `Extraction.AsWrittenArguments` | 1-python-crawler/a.py:85-95 | as written, every candidate that is there is the argument of a `fetch` or `axios` call in a present script |
| `Extraction.PatternsUrlsTotal` | ts-crawler/crawler-2.ts:106-108 | with the intended choice no pattern ever misses a candidate |
| `Extraction.IntendedNeverFails` | ts-crawler/crawler-2.ts:88-120 | with the intended choice no candidate is missing, so the endpoint finder never raises for a missing group |
| `Extraction.PatternUrlsAgree` | ts-crawler/crawler-2.ts:106-108 | where a pattern asked for group 1 does not fail, its candidates equal those of the intended choice |
| `Extraction.PatternsUrlsAgree` | ts-crawler/crawler-2.ts:103-115 | the same for all patterns over one script |
| `Extraction.AllUrlsAgree` | ts-crawler/crawler-2.ts:100-117 | the same for all scripts |
| `Extraction.IntendedAgrees` | 1-python-crawler/a.py:89-101 | wherever the source as written returns normally, it yields the candidates of the intended choice |
| `Extraction.LiteralShape` | ts-crawler/crawler-2.ts:93-95 | a match of pattern 1, 2 or 3 is a quote, at least one non-quote character, and a quote |
| `Extraction.IntendedLiteral` | ts-crawler/crawler-2.ts:108 | with the strip branch, a literal match yields the text between its quotes |
| `Extraction.PatternsUrlsHas` | ts-crawler/crawler-2.ts:103 | a candidate of any one pattern is among the script's candidates |
| `Extraction.AllUrlsHas` | ts-crawler/crawler-2.ts:100-102 | a candidate of any present script is among all candidates |
| `Extraction.IntendedUrlsIff` | ts-crawler/crawler-2.ts:100-114 | with the intended choice, u is a candidate exactly when a scanned match of an endpoint pattern in a present script yields it |
| `Extraction.IntendedContents` | ts-crawler/crawler-2.ts:88-120 | with the intended choice the finder succeeds, holds no string twice, and holds exactly the normalized candidates of the scanned matches |
| `Extraction.IntendedFindsLiteral` | 1-python-crawler/a.py:97-101 | with the intended choice, the text inside the quotes of every match of pattern 1, 2 or 3 ends up in the set, normalized |
| `Extraction.ApiItemsMatchAt` | ts-crawler/crawler-2.ts:93 | in `fetch('/api/items')` pattern 1 matches the quoted path at position 6 |
| `Extraction.ApiItemsNoEarlierMatch` | ts-crawler/crawler-2.ts:93 | pattern 1 matches nowhere in `fetch('/api/items')` before position 6 |
| `Extraction.FetchApiItemsMatch` | 1-python-crawler/a.py:82 | the scan of `fetch('/api/items')` for pattern 1 starts with that match |
| `Extraction.FetchApiItemsRaises` | ts-crawler/crawler-2.ts:106-110 | as written, a page whose one script is `fetch('/api/items')` makes the endpoint finder raise, in both versions |
| `Extraction.FetchApiItemsIntended` | 1-python-crawler/a.py:94-100 | with the intended choice the same page yields the resolved `/api/items` |
| `TsCrawler.DelayOrDefault` | ts-crawler/crawler-2.ts:22 | the delay is `config.delay` when it is truthy and 1000 otherwise, an explicit 0 included; it is never 0 |
| `TsCrawler.JsEndpoints` | ts-crawler/crawler-2.ts:88-120 | definition: `findJsEndpoints` as written, the collection of the candidates under the `(` test or the TypeError; `TsCrawler.JsEndpointsThrowIff` and `TsCrawler.JsEndpointsOk` characterize it |
| `TsCrawler.Analysis` | ts-crawler/crawler-2.ts:122-135 | definition: `analyzePage` for given content; `TsCrawler.AnalysisShape` characterizes it |
| `TsCrawler.JsEndpointsThrowIff` | ts-crawler/crawler-2.ts:92-111 | under total resolution, `findJsEndpoints` throws a TypeError exactly when a present script holds a match of pattern 1, 2 or 3 |
| `TsCrawler.JsEndpointsOk` | ts-crawler/crawler-2.ts:110-119 | on normal return the array has no duplicates and holds exactly the `fetch`/`axios` arguments of the present scripts, each resolved when it starts with `/` and kept verbatim otherwise |
| `TsCrawler.JsEndpointsIntended` | ts-crawler/crawler-2.ts:106-119 | on normal return the array equals what the intended dispatch collects |
| `TsCrawler.AnalysisShape` | ts-crawler/crawler-2.ts:122-135 | `analyzePage` yields null exactly for null or empty content; under total resolution it throws exactly when a present script holds a match of pattern 1, 2 or 3; otherwise the record's `url` is the argument |
| `TsCrawler.ContentParser.constructor` | ts-crawler/crawler-2.ts:20-22 | the fields are the base URL and the defaulted delay |
| `TsCrawler.ContentParser.FindJsonContent` | ts-crawler/crawler-2.ts:49-86 | the pushed array is exactly the JSON findings of the page |
| `TsCrawler.ContentParser.FindJsEndpoints` | ts-crawler/crawler-2.ts:88-120 | the nested loops return exactly the collected endpoints, or the TypeError where a group is missing (resolution taken as total) |
| `TsCrawler.ContentParser.AnalyzePage` | ts-crawler/crawler-2.ts:122-135 | the method returns exactly the analysis of the fetched content |
| `TsCrawler.ScriptEndpoints` | ts-crawler/crawler-2.ts:103-115 | the loop over the five patterns for one script fails exactly when a candidate of that script is missing; otherwise it extends the set by that script's candidates |
| `TsCrawler.AddMatchEndpoints` | ts-crawler/crawler-2.ts:104-114 | the loop over one pattern's matches fails exactly at a missing group; otherwise it extends the set by the matches' candidates |
| `PyCrawler.PageContent` | 1-python-crawler/a.py:28-37 | the content is None exactly when the request raised or the status is 4xx or 5xx (`raise_for_status`); otherwise it is the response text |
| `PyCrawler.Members` | 1-python-crawler/a.py:103 | definition: the members of the collection without their order; `PyCrawler.MembersInsert` and `PyCrawler.MembersCard` characterize it |
| `PyCrawler.MembersCard` | 1-python-crawler/a.py:103 | a collection without repeats keeps every entry, so `list(endpoints)` has one entry per distinct endpoint |
| `PyCrawler.MembersInsert` | 1-python-crawler/a.py:101 | `endpoints.add(url)` adds exactly url to the members |
| `PyCrawler.PyEndpoints` | 1-python-crawler/a.py:73-103 | definition: `find_js_endpoints` as written, the members of the collection under the `(` test or the IndexError; `PyCrawler.PyEndpointsRaiseIff` and `PyCrawler.PyEndpointsOk` characterize it |
| `PyCrawler.Analysis` | 1-python-crawler/a.py:105-118 | definition: `analyze_page` for the outcome of the request; `PyCrawler.AnalysisShape` characterizes it |
| `PyCrawler.PyEndpointsRaiseIff` | 1-python-crawler/a.py:89-98 | under total resolution, `find_js_endpoints` raises IndexError exactly when a present script holds a match of pattern 1, 2 or 3 |
| `PyCrawler.PyEndpointsOk` | 1-python-crawler/a.py:94-103 | on normal return the set holds exactly the `fetch`/`axios` arguments of the present scripts, each joined to the base URL when it starts with `/` |
| `PyCrawler.PythonArgumentShape` | 1-python-crawler/a.py:85-86 | a Python call argument is non-empty and holds no quote |
| `PyCrawler.PyEndpointsIntended` | 1-python-crawler/a.py:94-103 | on normal return the set equals the members of what the intended dispatch collects |
| `PyCrawler.AnalysisShape` | 1-python-crawler/a.py:105-118 | `analyze_page` yields None exactly for a failed request, a 4xx/5xx status or empty text; under total resolution it raises exactly when a present script holds a match of pattern 1, 2 or 3; otherwise the dict's `url` is the argument |
| `PyCrawler.ContentParser.constructor` | 1-python-crawler/a.py:10-19 | the fields are the base URL and the delay, one second by default |
| `PyCrawler.ContentParser.GetPageContent` | 1-python-crawler/a.py:28-37 | the method returns the content rule's answer for the request's outcome |
| `PyCrawler.ContentParser.FindJsonContent` | 1-python-crawler/a.py:39-71 | the appended list is exactly the JSON findings of the page |
| `PyCrawler.ContentParser.FindJsEndpoints` | 1-python-crawler/a.py:73-103 | the nested loops return exactly the endpoint set, or IndexError where a group is missing (resolution taken as total) |
| `PyCrawler.ContentParser.AnalyzePage` | 1-python-crawler/a.py:105-118 | the method returns exactly the analysis of the request's outcome |
| `PyCrawler.ScriptEndpoints` | 1-python-crawler/a.py:91-101 | the loop over the five patterns for one script fails exactly when a candidate of that script is missing; otherwise it adds that script's candidates to the set |
| `PyCrawler.AddMatchEndpoints` | 1-python-crawler/a.py:92-101 | the loop over one pattern's matches fails exactly at a missing group; otherwise it adds the matches' candidates to the set |
| `JsonExample.PageObjects` | ts-crawler/crawler-2.ts:53-54 | on `<script>const d = {"a":1};</script>` the page-wide scan yields the one span `{"a":1}` |
| `JsonExample.ScriptAssignments` | ts-crawler/crawler-2.ts:71-72 | in `const d = {"a":1};` the assignment scan yields one match: name `d`, value `{"a":1}` |
| `JsonExample.DuplicatesKept` | ts-crawler/crawler-2.ts:50-85 | on that page `findJsonContent` yields `{"a":1}` once bare and once as `{d: …}`; nothing is deduplicated |

## Left out

- HTTP: the axios client, the `requests` session and their headers, and the delay before each request (`sleep` / `time.sleep`) are I/O and wall-clock time. TypeScript's fetched content is a parameter `Option<string>`. For Python the parameter is the outcome of the request: a `RequestException`, or a response with a status and a text.
- An axios response body that is not a string is not modelled; the content is a string or null.
- HTML parsing by cheerio and BeautifulSoup is a foreign library. The model takes the sequence of script bodies it yields, with None for a script without inline text. The model does not capture how `$(el).html()` and `script.string` differ.
- JSON decoding (`JSON.parse` / `json.loads`) is a parameter `string -> Option<J>`. Only whether decoding succeeds, and the value it gives, are modelled; the decoder's own grammar is not.
  - TypeScript catches every error of `JSON.parse` (ts-crawler/crawler-2.ts:61 and 79), so there the model's skipping of a failed candidate is the whole story.
  - Python catches only `json.JSONDecodeError` (1-python-crawler/a.py:51 and 68). Any other exception of `json.loads` leaves `find_json_content` and `analyze_page`. In CPython this includes a plain ValueError for an integer literal longer than the integer-string conversion limit (4300 digits by default), and a RecursionError for a brace span nested too deeply. The model's decoder cannot raise, so the Python JSON extractor is total in the model.
- Extraction.JsonFindings: for Python, the findings are those of a decoder that either succeeds or raises `json.JSONDecodeError`. A `json.loads` exception that 1-python-crawler/a.py:51 and 68 do not catch is not modelled.
- Extraction.PushFindings: the loop at 1-python-crawler/a.py:47-52 and 64-69 can also stop with an uncaught `json.loads` exception. The model's loop always appends every finding.
- PyCrawler.ContentParser.FindJsonContent: returns exactly the JSON findings. A ValueError or RecursionError escaping `json.loads` is not modelled.
- PyCrawler.Analysis: its only error is the IndexError of the endpoint finder. An uncaught `json.loads` exception from `find_json_content` also propagates out of `analyze_page`.
- PyCrawler.ContentParser.AnalyzePage: equals `PyCrawler.Analysis`, so it carries the same gap, an uncaught `json.loads` exception.
- URL resolution (`new URL(u, base).toString()` / `urljoin`) is a total parameter `(string, string) -> string`. The model therefore has no resolution failures, and the source does:
  - `new URL` (ts-crawler/crawler-2.ts:111) throws a TypeError when the base URL is invalid.
  - It also throws for some candidates that start with `/` when the base is valid. For example, a script `fetch('//')` matches none of patterns 1–3, and pattern 4 yields `//`. Then `new URL("//", "https://example.com")` throws, because a special scheme cannot have an empty host.
  - `urljoin` (1-python-crawler/a.py:100) raises ValueError for a candidate such as `//[x` (from `fetch('//[x')`), an invalid IPv6 host.
  - The only exceptions in the model are the missing-group ones: the TypeError of `url.startsWith` and Python's IndexError.
- TsCrawler.JsEndpointsThrowIff: holds under total resolution. In the source, `findJsEndpoints` also throws when `new URL` rejects a candidate or the base URL, and this contract does not state that.
- PyCrawler.PyEndpointsRaiseIff: holds under total resolution. In the source, `find_js_endpoints` also raises ValueError when `urljoin` rejects a candidate, and this contract does not state that.
- TsCrawler.AnalysisShape: its error case is the missing-group TypeError only. A resolution failure inside `findJsEndpoints` also propagates out of `analyzePage`.
- PyCrawler.AnalysisShape: its error case is the IndexError only. A ValueError from `urljoin` also propagates out of `analyze_page`, and so does a `json.loads` exception other than `json.JSONDecodeError`.
- Extraction.IntendedNeverFails: "never raises" concerns the missing group. The corrected dispatch still calls `new URL` / `urljoin`, which can fail as described above.
- `console.log`, `console.error` and `print`, and with them `printResults` / `print_results`, are console output.
- The `async`/`Promise` machinery is not modelled; the model is sequential.
- The rest of the repository (the browser-driven crawlers, the downloaders and the OCR script) is not part of this model.
- `\w` is modelled as ASCII letters, digits and `_` in both versions. Python's `\w` on `str` also accepts non-ASCII letters and digits.
- `TsCrawler.DelayOrDefault` takes the delay as an integer. A `NaN` or fractional delay is not modelled. `PyCrawler.ContentParser.constructor` likewise takes an integer delay, although `time.sleep` also accepts floats.
- `PyCrawler.ContentParser.FindJsEndpoints` returns a `set`. The order of `list(endpoints)` is unspecified in Python and is not modelled.
- `PyCrawler.PageContent` models `raise_for_status` as raising for a status from 400 to 599. Any other `RequestException` (a connection error, a timeout) is the `RequestFailed` outcome.
- Regular-expression matching is modelled by position, not by backtracking. At each position the match the engine prefers is determined, and `MatchAt` is that match. A lazy pattern may also match in other ways: `({[\s\S]*?})` on `{a}b}` could end at either `}`, and the engine prefers the first.
  - Most greedy parts are followed by a character they cannot consume. The lazy parts stop at the first place where the rest of the pattern matches.
  - Pattern 3 (`["']\/[^\s"']+\.js["']`) does backtrack: `[^\s"']+` also consumes `.`, `j` and `s`, so on `'/a.js.js'` the engine gives characters back. The run stops only at a quote or white space. So the only place the engine can succeed is where the maximal run ends in `.js` with a quote after it. `ScriptFileAt` takes the maximal run and tests exactly that.
- The JavaScript and Python extractors run in one sequential order and stop at the first exception. Endpoints added before the exception are discarded with it, so that order does not show in the model.

## Findings

| source | as written | input that shows it | evidently intended | confidence | as-written member | corrected member |
|---|---|---|---|---|---|---|
| ts-crawler/crawler-2.ts:106-110 | `pattern.toString().includes("(")` is true for all five patterns, because each contains `(?:` or `\(`. So `match[1]` is read for patterns 1–3 too. They have no group, so `url` is `undefined` and `url.startsWith` throws a TypeError: any page with a quoted `/api/…`, `http(s)://…` or `/….js` in a script breaks `analyzePage` | a page whose one script is `fetch('/api/items')` (pattern 1 matches `'/api/items'`) | take group 1 only from patterns that have one (4 and 5) and strip the quotes from the others; the page then yields the resolved `/api/items` | not executed | `Extraction.FetchApiItemsRaises` | `Extraction.FetchApiItemsIntended` |
| 1-python-crawler/a.py:94-98 | `"(" in pattern` is true for all five patterns, so `match.group(1)` is called on matches of patterns 1–3, which have no group, and raises IndexError ("no such group") | a page whose one script is `fetch('/api/items')` | the same dispatch by whether the pattern has a group; the finder then never raises IndexError and collects exactly the normalized candidates | not executed | `Extraction.AsWrittenFailIff` | `Extraction.IntendedContents` |

The class methods keep the behaviour the code has as written. They return the error, and
`TsCrawler.JsEndpointsIntended` and `PyCrawler.PyEndpointsIntended` show that the result agrees
with the corrected dispatch wherever no error is raised.
