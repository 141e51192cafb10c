/**
 * Reference definitions of the patterns, read off the regular expressions themselves: the
 * pieces a match is made of, with the engine's preference written out where it matters (a lazy
 * `*?` stops at the first place the rest of the pattern fits).
 */
module PatternDefs {
  import opened Wrappers
  import opened Patterns

  /** An opening brace, no closing brace, and the closing brace that ends the match. */
  ghost predicate IsObjectMatch(s: string, m: Match) {
    && m.start + 1 < m.end <= |s|
    && s[m.start] == '{' && s[m.end - 1] == '}'
    && (forall k :: m.start < k < m.end - 1 ==> s[k] != '}')
    && m.groups == [Span(m.start, m.end)]
  }

  /** `var`, `let` or `const` at i, followed by white space up to w. */
  ghost predicate DeclaratorThenSpace(d: Dialect, s: string, i: nat, w: nat)
    requires w <= |s|
  {
    || ((HasAt(s, i, "var") || HasAt(s, i, "let")) && i + 3 < w && AllIn(d, Space, s, i + 3, w))
    || (HasAt(s, i, "const") && i + 5 < w && AllIn(d, Space, s, i + 5, w))
  }

  /** Optional white space, `=` at e, optional white space, from lo up to hi. */
  ghost predicate EqualsAt(d: Dialect, s: string, lo: nat, e: nat, hi: nat)
    requires hi <= |s|
  {
    lo <= e < hi && AllIn(d, Space, s, lo, e) && s[e] == '=' && AllIn(d, Space, s, e + 1, hi)
  }

  /** Group 1 is the declared name, group 2 the shortest brace span that `;` follows. */
  ghost predicate IsAssignmentMatch(d: Dialect, s: string, m: Match) {
    && |m.groups| == 2
    && var name, body := m.groups[0], m.groups[1];
    && m.start < name.lo < name.hi < body.lo && body.lo + 1 < body.hi < |s|
    && m.end == body.hi + 1
    && DeclaratorThenSpace(d, s, m.start, name.lo)
    && AllIn(d, Word, s, name.lo, name.hi)
    && (exists e :: EqualsAt(d, s, name.hi, e, body.lo))
    && s[body.lo] == '{' && s[body.hi - 1] == '}' && s[body.hi] == ';'
    && forall k :: body.lo < k < body.hi - 1 ==> !PairAt(s, k, {'}'}, ';')
  }

  /** A quote, `prefix`, at least one character that is neither a quote nor white space, a quote. */
  ghost predicate IsQuotedMatch(d: Dialect, s: string, m: Match, prefix: string) {
    && m.groups == []
    && m.start + 1 + |prefix| < m.end - 1 && m.end <= |s|
    && IsQuote(s[m.start]) && HasAt(s, m.start + 1, prefix)
    && AllIn(d, UrlChar, s, m.start + 1 + |prefix|, m.end - 1)
    && IsQuote(s[m.end - 1])
  }

  ghost predicate IsApiPathMatch(d: Dialect, s: string, m: Match) {
    IsQuotedMatch(d, s, m, "/api/") || (d == JavaScript && IsQuotedMatch(d, s, m, "api/"))
  }

  ghost predicate IsFullUrlMatch(d: Dialect, s: string, m: Match) {
    IsQuotedMatch(d, s, m, "https://") || IsQuotedMatch(d, s, m, "http://")
  }

  /** A quote, `/`, at least one path character, `.js`, a quote. */
  ghost predicate IsScriptFileMatch(d: Dialect, s: string, m: Match) {
    && m.groups == []
    && m.start + 6 < m.end <= |s|
    && IsQuote(s[m.start]) && s[m.start + 1] == '/'
    && AllIn(d, UrlChar, s, m.start + 2, m.end - 4)
    && HasAt(s, m.end - 4, ".js")
    && IsQuote(s[m.end - 1])
  }

  /**
   * s[q..k] is the argument of a call and s[k..k+2] its closing quote and parenthesis.
   * JavaScript: no line terminator, and no earlier place where a quote and `)` follow;
   * Python: non-empty and without quotes.
   */
  ghost predicate IsArgument(d: Dialect, s: string, q: nat, k: nat) {
    && q <= k && PairAt(s, k, Quotes, ')')
    && if d == JavaScript then
         AllIn(d, NonTerminator, s, q, k) && forall j :: q <= j < k ==> !PairAt(s, j, Quotes, ')')
       else
         q < k && AllIn(d, NonQuote, s, q, k)
  }

  ghost predicate IsFetchMatch(d: Dialect, s: string, m: Match) {
    && HasAt(s, m.start, "fetch(") && m.start + 6 < |s| && IsQuote(s[m.start + 6])
    && |m.groups| == 1 && m.groups[0].lo == m.start + 7
    && IsArgument(d, s, m.groups[0].lo, m.groups[0].hi)
    && m.end == m.groups[0].hi + 2
  }

  ghost predicate IsAxiosMatch(d: Dialect, s: string, m: Match) {
    && HasAt(s, m.start, "axios.")
    && |m.groups| == 1
    && var q := m.groups[0].lo;
    && m.start + 6 < q - 2 && q <= |s|
    && AllIn(d, Lower, s, m.start + 6, q - 2) && s[q - 2] == '(' && IsQuote(s[q - 1])
    && IsArgument(d, s, q, m.groups[0].hi)
    && m.end == m.groups[0].hi + 2
  }

  /** The reference definition of every pattern. */
  ghost predicate IsMatch(d: Dialect, p: Pattern, s: string, m: Match) {
    match p
    case JsonObject => IsObjectMatch(s, m)
    case JsonAssignment => IsAssignmentMatch(d, s, m)
    case ApiPath => IsApiPathMatch(d, s, m)
    case FullUrl => IsFullUrlMatch(d, s, m)
    case ScriptFile => IsScriptFileMatch(d, s, m)
    case FetchCall => IsFetchMatch(d, s, m)
    case AxiosCall => IsAxiosMatch(d, s, m)
  }
}
