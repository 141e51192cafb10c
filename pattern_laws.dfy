/** The scanners of Patterns find exactly the matches of PatternDefs, in both directions. */
module PatternLaws {
  import opened Wrappers
  import opened Patterns
  import opened PatternDefs

  lemma SkipIs(d: Dialect, cls: CharClass, s: string, from: nat, e: nat)
    requires from <= e <= |s| && AllIn(d, cls, s, from, e) && (e < |s| ==> !InClass(d, cls, s[e]))
    ensures Skip(d, cls, s, from) == e
  {
  }

  lemma FindPairIs(s: string, cs: set<char>, next: char, from: nat, k: nat)
    requires from <= k < |s| && PairAt(s, k, cs, next)
    requires forall j :: from <= j < k ==> !PairAt(s, j, cs, next)
    ensures FindPair(s, cs, next, from) == k
  {
  }

  lemma HasAtChar(s: string, i: nat, w: string, j: nat)
    requires HasAt(s, i, w) && j < |w|
    ensures s[i + j] == w[j]
  {
  }

  lemma ObjectAtIff(s: string, i: nat, m: Match)
    requires i < |s|
    ensures ObjectAt(s, i) == Some(m) <==> m.start == i && IsObjectMatch(s, m)
  {
  }

  lemma DeclaratorEndOf(d: Dialect, s: string, i: nat, w: nat)
    requires w <= |s| && DeclaratorThenSpace(d, s, i, w)
    ensures DeclaratorEnd(s, i).Some? && DeclaratorEnd(s, i).value < w
    ensures AllIn(d, Space, s, DeclaratorEnd(s, i).value, w)
  {
    if HasAt(s, i, "const") {
      HasAtChar(s, i, "const", 0);
      if HasAt(s, i, "var") {
        HasAtChar(s, i, "var", 0);
      }
      if HasAt(s, i, "let") {
        HasAtChar(s, i, "let", 0);
      }
    }
  }

  lemma BraceAfterEqualsSound(d: Dialect, s: string, n: nat)
    requires n <= |s| && BraceAfterEquals(d, s, n).Some?
    ensures exists e :: EqualsAt(d, s, n, e, BraceAfterEquals(d, s, n).value)
  {
    var e := Skip(d, Space, s, n);
    assert EqualsAt(d, s, n, e, BraceAfterEquals(d, s, n).value);
  }

  lemma BraceAfterEqualsIs(d: Dialect, s: string, n: nat, e: nat, b: nat)
    requires b < |s| && EqualsAt(d, s, n, e, b) && s[b] == '{'
    ensures BraceAfterEquals(d, s, n) == Some(b)
  {
    SkipIs(d, Space, s, n, e);
    SkipIs(d, Space, s, e + 1, b);
  }

  lemma AssignmentAtSound(d: Dialect, s: string, i: nat, m: Match)
    requires i < |s| && AssignmentAt(d, s, i) == Some(m)
    ensures m.start == i && IsAssignmentMatch(d, s, m)
  {
    var k := DeclaratorEnd(s, i).value;
    var n := Skip(d, Word, s, Skip(d, Space, s, k));
    BraceAfterEqualsSound(d, s, n);
  }

  lemma WordIsNotSpace(d: Dialect, c: char)
    requires IsWord(c)
    ensures !IsSpace(d, c)
  {
  }

  /** The name ends where the word characters end, and the `=` and the brace follow it. */
  lemma AssignmentNameIs(d: Dialect, s: string, i: nat, m: Match)
    requires i < |s| && m.start == i && IsAssignmentMatch(d, s, m)
    ensures Skip(d, Word, s, m.groups[0].lo) == m.groups[0].hi
    ensures BraceAfterEquals(d, s, m.groups[0].hi) == Some(m.groups[1].lo)
  {
    var name, body := m.groups[0], m.groups[1];
    var e: nat :| EqualsAt(d, s, name.hi, e, body.lo);
    if name.hi < e {
      assert IsSpace(d, s[name.hi]);
      if IsWord(s[name.hi]) {
        WordIsNotSpace(d, s[name.hi]);
      }
    }
    SkipIs(d, Word, s, name.lo, name.hi);
    BraceAfterEqualsIs(d, s, name.hi, e, body.lo);
  }

  /** The declarator and the white space after it end where the name begins. */
  lemma AssignmentHeadIs(d: Dialect, s: string, i: nat, m: Match)
    requires i < |s| && m.start == i && IsAssignmentMatch(d, s, m)
    ensures DeclaratorEnd(s, i).Some?
    ensures DeclaratorEnd(s, i).value < m.groups[0].lo
    ensures Skip(d, Space, s, DeclaratorEnd(s, i).value) == m.groups[0].lo
  {
    var lo := m.groups[0].lo;
    DeclaratorEndOf(d, s, i, lo);
    WordIsNotSpace(d, s[lo]);
    SkipIs(d, Space, s, DeclaratorEnd(s, i).value, lo);
  }

  lemma AssignmentAtComplete(d: Dialect, s: string, i: nat, m: Match)
    requires i < |s| && m.start == i && IsAssignmentMatch(d, s, m)
    ensures AssignmentAt(d, s, i) == Some(m)
  {
    AssignmentHeadIs(d, s, i, m);
    AssignmentNameIs(d, s, i, m);
    var name, body := m.groups[0], m.groups[1];
    FindPairIs(s, {'}'}, ';', body.lo + 1, body.hi - 1);
    assert m.groups == [name, body];
  }

  lemma AssignmentAtIff(d: Dialect, s: string, i: nat, m: Match)
    requires i < |s|
    ensures AssignmentAt(d, s, i) == Some(m) <==> m.start == i && IsAssignmentMatch(d, s, m)
  {
    if AssignmentAt(d, s, i) == Some(m) {
      AssignmentAtSound(d, s, i, m);
    }
    if m.start == i && IsAssignmentMatch(d, s, m) {
      AssignmentAtComplete(d, s, i, m);
    }
  }

  /** After a quote and `prefix` at i, what the tail scanner finds is a quoted match. */
  lemma QuotedTailSound(d: Dialect, s: string, i: nat, prefix: string, m: Match)
    requires i < |s| && IsQuote(s[i]) && HasAt(s, i + 1, prefix)
    requires Literal(i, UrlTail(d, s, i + 1 + |prefix|)) == Some(m)
    ensures m.start == i && IsQuotedMatch(d, s, m, prefix)
  {
  }

  /** A quoted match is what the tail scanner finds after its quote and prefix. */
  lemma QuotedTailComplete(d: Dialect, s: string, i: nat, prefix: string, m: Match)
    requires i < |s| && m.start == i && IsQuotedMatch(d, s, m, prefix)
    ensures Literal(i, UrlTail(d, s, i + 1 + |prefix|)) == Some(m)
  {
    SkipIs(d, UrlChar, s, i + 1 + |prefix|, m.end - 1);
  }

  lemma ApiPathAtSound(d: Dialect, s: string, i: nat, m: Match)
    requires i < |s| && ApiPathAt(d, s, i) == Some(m)
    ensures m.start == i && IsApiPathMatch(d, s, m)
  {
    if HasAt(s, i + 1, "/api/") {
      QuotedTailSound(d, s, i, "/api/", m);
    } else {
      QuotedTailSound(d, s, i, "api/", m);
    }
  }

  lemma ApiPathAtComplete(d: Dialect, s: string, i: nat, m: Match)
    requires i < |s| && m.start == i && IsApiPathMatch(d, s, m)
    ensures ApiPathAt(d, s, i) == Some(m)
  {
    if HasAt(s, i + 1, "/api/") {
      if !IsQuotedMatch(d, s, m, "/api/") {
        HasAtChar(s, i + 1, "/api/", 0);
        HasAtChar(s, i + 1, "api/", 0);
        assert false;
      }
      QuotedTailComplete(d, s, i, "/api/", m);
    } else {
      QuotedTailComplete(d, s, i, "api/", m);
    }
  }

  lemma ApiPathAtIff(d: Dialect, s: string, i: nat, m: Match)
    requires i < |s|
    ensures ApiPathAt(d, s, i) == Some(m) <==> m.start == i && IsApiPathMatch(d, s, m)
  {
    if ApiPathAt(d, s, i) == Some(m) {
      ApiPathAtSound(d, s, i, m);
    }
    if m.start == i && IsApiPathMatch(d, s, m) {
      ApiPathAtComplete(d, s, i, m);
    }
  }

  lemma FullUrlAtSound(d: Dialect, s: string, i: nat, m: Match)
    requires i < |s| && FullUrlAt(d, s, i) == Some(m)
    ensures m.start == i && IsFullUrlMatch(d, s, m)
  {
    if HasAt(s, i + 1, "https://") {
      QuotedTailSound(d, s, i, "https://", m);
    } else {
      QuotedTailSound(d, s, i, "http://", m);
    }
  }

  lemma FullUrlAtComplete(d: Dialect, s: string, i: nat, m: Match)
    requires i < |s| && m.start == i && IsFullUrlMatch(d, s, m)
    ensures FullUrlAt(d, s, i) == Some(m)
  {
    if HasAt(s, i + 1, "https://") {
      if !IsQuotedMatch(d, s, m, "https://") {
        HasAtChar(s, i + 1, "https://", 4);
        HasAtChar(s, i + 1, "http://", 4);
        assert false;
      }
      QuotedTailComplete(d, s, i, "https://", m);
    } else {
      QuotedTailComplete(d, s, i, "http://", m);
    }
  }

  lemma FullUrlAtIff(d: Dialect, s: string, i: nat, m: Match)
    requires i < |s|
    ensures FullUrlAt(d, s, i) == Some(m) <==> m.start == i && IsFullUrlMatch(d, s, m)
  {
    if FullUrlAt(d, s, i) == Some(m) {
      FullUrlAtSound(d, s, i, m);
    }
    if m.start == i && IsFullUrlMatch(d, s, m) {
      FullUrlAtComplete(d, s, i, m);
    }
  }

  lemma ScriptFileAtSound(d: Dialect, s: string, i: nat, m: Match)
    requires i < |s| && ScriptFileAt(d, s, i) == Some(m)
    ensures m.start == i && IsScriptFileMatch(d, s, m)
  {
    HasAtChar(s, i + 1, "/", 0);
  }

  lemma ScriptFileAtComplete(d: Dialect, s: string, i: nat, m: Match)
    requires i < |s| && m.start == i && IsScriptFileMatch(d, s, m)
    ensures ScriptFileAt(d, s, i) == Some(m)
  {
    var e := m.end - 1;
    HasAtChar(s, e - 3, ".js", 0);
    HasAtChar(s, e - 3, ".js", 1);
    HasAtChar(s, e - 3, ".js", 2);
    SkipIs(d, UrlChar, s, i + 2, e);
  }

  lemma ScriptFileAtIff(d: Dialect, s: string, i: nat, m: Match)
    requires i < |s|
    ensures ScriptFileAt(d, s, i) == Some(m) <==> m.start == i && IsScriptFileMatch(d, s, m)
  {
    if ScriptFileAt(d, s, i) == Some(m) {
      ScriptFileAtSound(d, s, i, m);
    }
    if m.start == i && IsScriptFileMatch(d, s, m) {
      ScriptFileAtComplete(d, s, i, m);
    }
  }

  lemma ArgumentEndIff(d: Dialect, s: string, q: nat, k: nat)
    requires q <= |s|
    ensures ArgumentEnd(d, s, q) == Some(k) <==> IsArgument(d, s, q, k)
  {
    if IsArgument(d, s, q, k) {
      if d == JavaScript {
        FindPairIs(s, Quotes, ')', q, k);
      } else {
        SkipIs(d, NonQuote, s, q, k);
      }
    }
  }

  lemma FetchAtSound(d: Dialect, s: string, i: nat, m: Match)
    requires i < |s| && FetchAt(d, s, i) == Some(m)
    ensures m.start == i && IsFetchMatch(d, s, m)
  {
    ArgumentEndIff(d, s, i + 7, m.groups[0].hi);
  }

  lemma FetchAtComplete(d: Dialect, s: string, i: nat, m: Match)
    requires i < |s| && m.start == i && IsFetchMatch(d, s, m)
    ensures FetchAt(d, s, i) == Some(m)
  {
    ArgumentEndIff(d, s, i + 7, m.groups[0].hi);
    assert m.groups == [Span(i + 7, m.groups[0].hi)];
  }

  lemma FetchAtIff(d: Dialect, s: string, i: nat, m: Match)
    requires i < |s|
    ensures FetchAt(d, s, i) == Some(m) <==> m.start == i && IsFetchMatch(d, s, m)
  {
    if FetchAt(d, s, i) == Some(m) {
      FetchAtSound(d, s, i, m);
    }
    if m.start == i && IsFetchMatch(d, s, m) {
      FetchAtComplete(d, s, i, m);
    }
  }

  lemma AxiosAtSound(d: Dialect, s: string, i: nat, m: Match)
    requires i < |s| && AxiosAt(d, s, i) == Some(m)
    ensures m.start == i && IsAxiosMatch(d, s, m)
  {
    ArgumentEndIff(d, s, Skip(d, Lower, s, i + 6) + 2, m.groups[0].hi);
  }

  lemma AxiosAtComplete(d: Dialect, s: string, i: nat, m: Match)
    requires i < |s| && m.start == i && IsAxiosMatch(d, s, m)
    ensures AxiosAt(d, s, i) == Some(m)
  {
    var q := m.groups[0].lo;
    SkipIs(d, Lower, s, i + 6, q - 2);
    ArgumentEndIff(d, s, q, m.groups[0].hi);
    assert m.groups == [Span(q, m.groups[0].hi)];
  }

  lemma AxiosAtIff(d: Dialect, s: string, i: nat, m: Match)
    requires i < |s|
    ensures AxiosAt(d, s, i) == Some(m) <==> m.start == i && IsAxiosMatch(d, s, m)
  {
    if AxiosAt(d, s, i) == Some(m) {
      AxiosAtSound(d, s, i, m);
    }
    if m.start == i && IsAxiosMatch(d, s, m) {
      AxiosAtComplete(d, s, i, m);
    }
  }

  /** The scanners find exactly the matches of the reference definitions. */
  lemma MatchAtIff(d: Dialect, p: Pattern, s: string, i: nat, m: Match)
    requires i < |s|
    ensures MatchAt(d, p, s, i) == Some(m) <==> m.start == i && IsMatch(d, p, s, m)
  {
    match p
    case JsonObject => ObjectAtIff(s, i, m);
    case JsonAssignment => AssignmentAtIff(d, s, i, m);
    case ApiPath => ApiPathAtIff(d, s, i, m);
    case FullUrl => FullUrlAtIff(d, s, i, m);
    case ScriptFile => ScriptFileAtIff(d, s, i, m);
    case FetchCall => FetchAtIff(d, s, i, m);
    case AxiosCall => AxiosAtIff(d, s, i, m);
  }

  /** Every match of the global scan satisfies its pattern's reference definition. */
  lemma AllMatchesAreMatches(d: Dialect, p: Pattern, s: string, from: nat)
    requires from <= |s|
    ensures forall m <- AllMatches(d, p, s, from) :: IsMatch(d, p, s, m)
  {
    var ms := AllMatches(d, p, s, from);
    AllMatchesSound(d, p, s, from);
    forall k | 0 <= k < |ms| ensures IsMatch(d, p, s, ms[k]) {
      MatchAtIff(d, p, s, ms[k].start, ms[k]);
    }
  }
}
