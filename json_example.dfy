/**
 * A worked page for the JSON extractor: `<script>const d = {"a":1};</script>`. The brace span is
 * found twice, once by the page-wide scan and once as the right-hand side of the assignment, and
 * both findings are kept.
 */
module JsonExample {
  import opened Wrappers
  import opened Patterns
  import opened PatternDefs
  import opened PatternLaws
  import opened Extraction

  const Page: string := "<script>const d = {\"a\":1};</script>"
  const Script: string := "const d = {\"a\":1};"
  const Object: string := "{\"a\":1}"

  /** The page-wide pattern matches `{"a":1}` at position 18 ... */
  lemma PageObjectAt(d: Dialect)
    ensures MatchAt(d, JsonObject, Page, 18) == Some(Match(18, 25, [Span(18, 25)]))
  {
    var m := Match(18, 25, [Span(18, 25)]);
    assert Page[18] == '{' && Page[24] == '}';
    assert forall k :: 18 < k < 24 ==> Page[k] != '}';
    ObjectAtIff(Page, 18, m);
  }

  /** ... nowhere before it, where no `{` is ... */
  lemma PageNoObjectBefore(d: Dialect)
    ensures forall i | 0 <= i < 18 :: MatchAt(d, JsonObject, Page, i).None?
  {
    forall i | 0 <= i < 18 ensures MatchAt(d, JsonObject, Page, i).None? {
      assert Page[i] != '{';
      if MatchAt(d, JsonObject, Page, i).Some? {
        ObjectAtIff(Page, i, MatchAt(d, JsonObject, Page, i).value);
      }
    }
  }

  /** ... and nowhere after it, where no `{` is either. */
  lemma PageNoObjectAfter(d: Dialect)
    ensures forall i | 25 <= i < |Page| :: MatchAt(d, JsonObject, Page, i).None?
  {
    forall i | 25 <= i < |Page| ensures MatchAt(d, JsonObject, Page, i).None? {
      assert Page[i] != '{';
      if MatchAt(d, JsonObject, Page, i).Some? {
        ObjectAtIff(Page, i, MatchAt(d, JsonObject, Page, i).value);
      }
    }
  }

  lemma PageObjectText()
    ensures Page[18..25] == Object
  {
  }

  /** The page-wide scan finds the one brace span. */
  lemma PageObjects(d: Dialect)
    ensures AllMatches(d, JsonObject, Page, 0) == [Match(18, 25, [Span(18, 25)])]
  {
    PageObjectAt(d);
    PageNoObjectBefore(d);
    PageNoObjectAfter(d);
    AllMatchesNone(d, JsonObject, Page, 25);
    AllMatchesFirst(d, JsonObject, Page, 0, Match(18, 25, [Span(18, 25)]));
  }

  /** The script reads `const`, a space, the name `d`, ` = ` and a brace span closed by `};`. */
  lemma ScriptIsAssignment(d: Dialect)
    ensures IsAssignmentMatch(d, Script, Match(0, 18, [Span(6, 7), Span(10, 17)]))
  {
    assert HasAt(Script, 0, "const");
    assert DeclaratorThenSpace(d, Script, 0, 6);
    assert EqualsAt(d, Script, 7, 8, 10);
    assert forall k :: 10 < k < 16 ==> !PairAt(Script, k, {'}'}, ';');
  }

  /** The assignment pattern matches the whole script: name `d`, value `{"a":1}`. */
  lemma ScriptAssignmentAt(d: Dialect)
    ensures AssignmentAt(d, Script, 0) == Some(Match(0, 18, [Span(6, 7), Span(10, 17)]))
  {
    ScriptIsAssignment(d);
    AssignmentAtIff(d, Script, 0, Match(0, 18, [Span(6, 7), Span(10, 17)]));
  }

  lemma ScriptTexts()
    ensures Script[6..7] == "d" && Script[10..17] == Object
  {
  }

  /** The assignment scan finds that one match: it spans the whole script. */
  lemma ScriptAssignments(d: Dialect)
    ensures AllMatches(d, JsonAssignment, Script, 0) == [Match(0, 18, [Span(6, 7), Span(10, 17)])]
  {
    ScriptAssignmentAt(d);
    var m := Match(0, 18, [Span(6, 7), Span(10, 17)]);
    AllMatchesFirst(d, JsonAssignment, Script, 0, m);
  }

  /** The page-wide scan of the page finds `{"a":1}`, bare. */
  lemma PageFindings<J>(d: Dialect, decode: string -> Option<J>, v: J)
    requires decode(Object) == Some(v)
    ensures DocumentFindings(d, decode, Page) == [Untagged(v)]
  {
    PageObjects(d);
    PageObjectText();
    var ms := AllMatches(d, JsonObject, Page, 0);
    assert ms[..0] == [];
  }

  /** The assignment scan of the script finds `{d: {"a":1}}`. */
  lemma ScriptFindingsOf<J>(d: Dialect, decode: string -> Option<J>, v: J)
    requires decode(Object) == Some(v)
    ensures ScriptFindings(d, decode, Script) == [Tagged("d", v)]
  {
    ScriptAssignments(d);
    ScriptTexts();
    var ms := AllMatches(d, JsonAssignment, Script, 0);
    assert ms[..0] == [];
  }

  /**
   * When the page's one script is `const d = {"a":1};` and `{"a":1}` decodes to v, both
   * extractors report v: untagged from the page-wide scan, then tagged `{d: v}`. Nothing is
   * deduplicated.
   */
  lemma DuplicatesKept<J>(d: Dialect, lib: Library<J>, v: J)
    requires lib.scripts(Page) == [Some(Script)]
    requires lib.decode(Object) == Some(v)
    ensures JsonFindings(d, lib, Page) == [Untagged(v), Tagged("d", v)]
  {
    PageFindings(d, lib.decode, v);
    ScriptFindingsOf(d, lib.decode, v);
    OneScriptFindings(d, lib.decode, lib.scripts(Page));
  }

  lemma OneScriptFindings<J>(d: Dialect, decode: string -> Option<J>, scripts: seq<Option<string>>)
    requires scripts == [Some(Script)]
    ensures AllScriptFindings(d, decode, scripts) == ScriptFindings(d, decode, Script)
  {
    assert scripts[..0] == [];
    assert Present(scripts[0]);
  }
}
