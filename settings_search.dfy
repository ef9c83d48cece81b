/**
 * The settings search box: a full-text index over the setting definitions,
 * the query sanitiser, and the component state driven by typing, focus,
 * mouse-over and the Enter / Up / Down keys.
 *
 * The full-text index itself (lunr) is a black box: `search` maps the query
 * string handed to the index to the refs of the matching documents, in rank
 * order. `buildSettingLink` (the router destination of a definition) is a black
 * box too; it is also handed `undefined` (`None`) when the selected key is
 * not a known definition.
 */
module SettingsSearch {
  import opened Wrappers
  import opened Strings

  datatype Definition = Definition(
    key: string, name: string, description: string, category: string, subCategory: string)

  /** A document of the full-text index: its ref and its four searchable fields. */
  datatype Document = Document(
    ref: string, key: string, name: string, description: string, splitkey: string)

  /** A router destination `{pathname, query, hash}`. */
  datatype Location = Location(pathname: string, query: map<string, string>, hash: string)

  const KEY_ENTER := 13
  const KEY_UP_ARROW := 38
  const KEY_DOWN_ARROW := 40

  // ---------------------------------------------------------------------------
  // Query sanitising and the query string handed to the index
  // ---------------------------------------------------------------------------

  /** The characters that are operators of the index's query syntax. */
  predicate IsQueryOperator(c: char) {
    c == '^' || c == '-' || c == '+' || c == ':' || c == '~' || c == '*'
  }

  /** `query.replace(/[\^\-+:~*]/g, '')`. */
  function CleanQuery(query: string): (r: string)
    ensures |r| <= |query|
    ensures forall i :: 0 <= i < |r| ==> !IsQueryOperator(r[i])
    ensures forall i :: 0 <= i < |r| ==> r[i] in query
  {
    if |query| == 0 then ""
    else if IsQueryOperator(query[0]) then CleanQuery(query[1..])
    else [query[0]] + CleanQuery(query[1..])
  }

  /** Cleaning works character by character: it distributes over concatenation. */
  lemma {:induction false} CleanQueryConcat(a: string, b: string)
    ensures CleanQuery(a + b) == CleanQuery(a) + CleanQuery(b)
  {
    if |a| == 0 {
      assert a + b == b;
    } else {
      assert (a + b)[0] == a[0];
      assert (a + b)[1..] == a[1..] + b;
      CleanQueryConcat(a[1..], b);
    }
  }

  /** A query without operators is left exactly as it is. */
  lemma {:induction false} CleanQueryKeepsPlainText(query: string)
    requires forall i :: 0 <= i < |query| ==> !IsQueryOperator(query[i])
    ensures CleanQuery(query) == query
  {
    if |query| > 0 {
      CleanQueryKeepsPlainText(query[1..]);
      assert query == [query[0]] + query[1..];
    }
  }

  /** A query made only of operators cleans to the empty string. */
  lemma {:induction false} CleanQueryOfOperatorsIsEmpty(query: string)
    requires forall i :: 0 <= i < |query| ==> IsQueryOperator(query[i])
    ensures CleanQuery(query) == ""
  {
    if |query| > 0 { CleanQueryOfOperatorsIsEmpty(query[1..]); }
  }

  lemma CleanQueryIdempotent(query: string)
    ensures CleanQuery(CleanQuery(query)) == CleanQuery(query)
  {
    CleanQueryKeepsPlainText(CleanQuery(query));
  }

  /** The two clauses of one token: one edit of fuzziness, and the wildcard form. */
  function TokenClauses(token: string): string {
    token + "~1 *" + token + "*"
  }

  function Clauses(tokens: seq<string>): (r: seq<string>)
    ensures |r| == |tokens|
    ensures forall k :: 0 <= k < |tokens| ==> r[k] == TokenClauses(tokens[k])
  {
    seq(|tokens|, k requires 0 <= k < |tokens| => TokenClauses(tokens[k]))
  }

  /** The string passed to the index for a cleaned, non-empty query; a single word becomes its own clause. */
  function IndexQuery(cleanQuery: string): (r: string)
    ensures NoWhitespace(cleanQuery) && cleanQuery != "" ==> r == TokenClauses(cleanQuery)
  {
    var r := Join(Clauses(SplitWhitespace(cleanQuery)), " ");
    if NoWhitespace(cleanQuery) && cleanQuery != "" then
      SplitJoinWords([cleanQuery]);
      r
    else r
  }

  /**
   * For words typed with single spaces between them, the index query is the
   * words' clauses, in order, separated by single spaces.
   */
  lemma IndexQueryOfWords(words: seq<string>)
    requires |words| >= 1
    requires forall k :: 0 <= k < |words| ==> NoWhitespace(words[k]) && words[k] != ""
    ensures IndexQuery(Join(words, " ")) == Join(Clauses(words), " ")
  {
    SplitJoinWords(words);
  }

  /** Every clause handed to the index is built from a whitespace-free token. */
  lemma IndexQueryTokensHaveNoWhitespace(cleanQuery: string)
    ensures forall k :: 0 <= k < |SplitWhitespace(cleanQuery)| ==>
      NoWhitespace(SplitWhitespace(cleanQuery)[k])
  {
    SplitPiecesHaveNoWhitespace(cleanQuery);
  }

  // ---------------------------------------------------------------------------
  // Building the index
  // ---------------------------------------------------------------------------

  /** The index of the first `.` in `key`, or -1 when there is none. */
  function IndexOfDot(key: string): (r: int)
    ensures -1 <= r < |key|
    ensures r == -1 <==> forall i :: 0 <= i < |key| ==> key[i] != '.'
    ensures r >= 0 ==> key[r] == '.' && forall j :: 0 <= j < r ==> key[j] != '.'
  {
    if |key| == 0 then -1
    else if key[0] == '.' then 0
    else
      var i := IndexOfDot(key[1..]);
      if i == -1 then -1 else i + 1
  }

  /** `key.replace('.', ' ')`: only the first dot becomes a space. */
  function SplitKey(key: string): (r: string)
    ensures |r| == |key|
    ensures IndexOfDot(key) == -1 ==> r == key
    ensures IndexOfDot(key) >= 0 ==>
      r == key[..IndexOfDot(key)] + " " + key[IndexOfDot(key) + 1..]
  {
    if |key| == 0 then ""
    else if key[0] == '.' then " " + key[1..]
    else
      var rest := SplitKey(key[1..]);
      var d := IndexOfDot(key[1..]);
      assert IndexOfDot(key) == if d == -1 then -1 else d + 1;
      assert d >= 0 ==> key[..d + 1] == [key[0]] + key[1..][..d] && key[d + 2..] == key[1..][d + 1..];
      assert d == -1 ==> key == [key[0]] + key[1..];
      [key[0]] + rest
  }

  function DocumentFor(d: Definition): Document {
    Document(d.key, d.key, d.name, d.description, SplitKey(d.key))
  }

  /** The refs of the documents built from `definitions`. */
  function IndexedRefs(definitions: seq<Definition>): set<string> {
    set i | 0 <= i < |definitions| :: definitions[i].key
  }

  /** The index-building callback: one document per definition, in order. */
  method BuildSearchIndex(definitions: seq<Definition>) returns (docs: seq<Document>)
    ensures |docs| == |definitions|
    ensures forall i :: 0 <= i < |definitions| ==>
      docs[i].ref == definitions[i].key && docs[i] == DocumentFor(definitions[i])
  {
    docs := [];
    var i := 0;
    while i < |definitions|
      invariant 0 <= i <= |definitions|
      invariant |docs| == i
      invariant forall j :: 0 <= j < i ==> docs[j] == DocumentFor(definitions[j])
    {
      docs := docs + [DocumentFor(definitions[i])];
      i := i + 1;
    }
  }

  /** lodash `keyBy(definitions, 'key')`: a later definition with the same key wins. */
  function KeyBy(definitions: seq<Definition>): (r: map<string, Definition>)
    ensures forall k :: k in r ==> r[k].key == k
    ensures |definitions| > 0 ==>
      definitions[|definitions| - 1].key in r && r[definitions[|definitions| - 1].key] == definitions[|definitions| - 1]
  {
    if |definitions| == 0 then map[]
    else
      var last := definitions[|definitions| - 1];
      KeyBy(definitions[..|definitions| - 1])[last.key := last]
  }

  /** Whether no later definition shares the key of definition `i`. */
  predicate LastWithItsKey(definitions: seq<Definition>, i: nat)
    requires i < |definitions|
  {
    forall j :: i < j < |definitions| ==> definitions[j].key != definitions[i].key
  }

  lemma {:induction false} KeyByKeys(definitions: seq<Definition>)
    ensures KeyBy(definitions).Keys == IndexedRefs(definitions)
  {
    if |definitions| > 0 {
      var init := definitions[..|definitions| - 1];
      var last := definitions[|definitions| - 1];
      assert definitions == init + [last];
      KeyByKeys(init);
      forall k | k in IndexedRefs(definitions) ensures k in IndexedRefs(init) + {last.key} {
        var i :| 0 <= i < |definitions| && definitions[i].key == k;
        if i < |init| { assert init[i] == definitions[i]; }
      }
      forall k | k in IndexedRefs(init) ensures k in IndexedRefs(definitions) {
        var i :| 0 <= i < |init| && init[i].key == k;
        assert definitions[i] == init[i];
      }
    }
  }

  lemma {:induction false} KeyByValues(definitions: seq<Definition>)
    ensures forall k :: k in KeyBy(definitions) ==>
      KeyBy(definitions)[k].key == k && KeyBy(definitions)[k] in definitions
  {
    if |definitions| > 0 {
      var init := definitions[..|definitions| - 1];
      assert definitions == init + [definitions[|definitions| - 1]];
      KeyByValues(init);
    }
  }

  lemma {:induction false} KeyByLastWins(definitions: seq<Definition>, i: nat)
    requires i < |definitions| && LastWithItsKey(definitions, i)
    ensures definitions[i].key in KeyBy(definitions) && KeyBy(definitions)[definitions[i].key] == definitions[i]
  {
    var init := definitions[..|definitions| - 1];
    var last := definitions[|definitions| - 1];
    if i < |init| {
      assert init[i] == definitions[i];
      assert LastWithItsKey(init, i);
      KeyByLastWins(init, i);
    }
  }

  /**
   * The map has exactly the definitions' keys, maps each key to a definition
   * carrying it, and that definition is the last one with that key.
   */
  lemma KeyByMapsEachKeyToItsLastDefinition(definitions: seq<Definition>)
    ensures KeyBy(definitions).Keys == IndexedRefs(definitions)
    ensures forall k :: k in KeyBy(definitions) ==>
      KeyBy(definitions)[k].key == k && KeyBy(definitions)[k] in definitions
    ensures forall i :: 0 <= i < |definitions| && LastWithItsKey(definitions, i) ==>
      definitions[i].key in KeyBy(definitions) && KeyBy(definitions)[definitions[i].key] == definitions[i]
  {
    KeyByKeys(definitions);
    KeyByValues(definitions);
    forall i | 0 <= i < |definitions| && LastWithItsKey(definitions, i)
      ensures definitions[i].key in KeyBy(definitions) && KeyBy(definitions)[definitions[i].key] == definitions[i]
    {
      KeyByLastWins(definitions, i);
    }
  }

  /** With distinct keys, every definition is found under its own key. */
  lemma KeyByFindsEveryDefinition(definitions: seq<Definition>, i: nat)
    requires i < |definitions|
    requires forall a, b :: 0 <= a < b < |definitions| ==> definitions[a].key != definitions[b].key
    ensures definitions[i].key in KeyBy(definitions) && KeyBy(definitions)[definitions[i].key] == definitions[i]
  {
    KeyByMapsEachKeyToItsLastDefinition(definitions);
    assert LastWithItsKey(definitions, i);
  }

  // ---------------------------------------------------------------------------
  // Keyboard selection
  // ---------------------------------------------------------------------------

  /** `results.findIndex(r => r.key === key)`. */
  function FindIndex(results: seq<Definition>, key: string): (r: int)
    ensures -1 <= r < |results|
    ensures r == -1 <==> forall i :: 0 <= i < |results| ==> results[i].key != key
    ensures r >= 0 ==> results[r].key == key && forall j :: 0 <= j < r ==> results[j].key != key
  {
    if |results| == 0 then -1
    else if results[0].key == key then 0
    else
      var i := FindIndex(results[1..], key);
      if i == -1 then -1 else i + 1
  }

  /** The selection after `selectPrevious`. */
  function PreviousSelection(results: Option<seq<Definition>>, selected: Option<string>): (r: Option<string>)
    ensures results.None? ==> r == selected
    ensures r != selected ==> results.Some? && r.Some? && exists j :: 0 <= j < |results.value| && results.value[j].key == r.value
  {
    if results.Some? && TruthyString(selected) then
      var i := FindIndex(results.value, selected.value);
      if i > 0 then Some(results.value[i - 1].key) else selected
    else selected
  }

  /** The selection after `selectNext`. */
  function NextSelection(results: Option<seq<Definition>>, selected: Option<string>): (r: Option<string>)
    ensures results.None? ==> r == selected
    ensures r != selected ==> results.Some? && r.Some? && exists j :: 0 <= j < |results.value| && results.value[j].key == r.value
  {
    if results.Some? && TruthyString(selected) then
      var i := FindIndex(results.value, selected.value);
      if i < |results.value| - 1 then Some(results.value[i + 1].key) else selected
    else selected
  }

  predicate DistinctKeys(results: seq<Definition>) {
    forall a, b :: 0 <= a < b < |results| ==> results[a].key != results[b].key
  }

  /** `selectPrevious` moves up exactly when the selection sits below the first result. */
  lemma PreviousSelectionMoves(results: seq<Definition>, selected: Option<string>)
    ensures PreviousSelection(Some(results), selected) != selected ==>
      TruthyString(selected) && FindIndex(results, selected.value) > 0
    ensures TruthyString(selected) && FindIndex(results, selected.value) > 0 ==>
      PreviousSelection(Some(results), selected) == Some(results[FindIndex(results, selected.value) - 1].key)
      && PreviousSelection(Some(results), selected) != selected
  {
  }

  /**
   * `selectNext` is a no-op without a (truthy) selection or at the last result,
   * and a selection missing from non-empty results jumps to the first one.
   */
  lemma NextSelectionCases(results: seq<Definition>, selected: Option<string>)
    ensures !TruthyString(selected) ==> NextSelection(Some(results), selected) == selected
    ensures (TruthyString(selected) && |results| > 0 && results[|results| - 1].key == selected.value
             && DistinctKeys(results)) ==> NextSelection(Some(results), selected) == selected
    ensures TruthyString(selected) && |results| > 0 && FindIndex(results, selected.value) == -1 ==>
      NextSelection(Some(results), selected) == Some(results[0].key)
    ensures |results| == 0 ==> NextSelection(Some(results), selected) == selected
  {
    if TruthyString(selected) && |results| > 0 && results[|results| - 1].key == selected.value
      && DistinctKeys(results) {
      assert FindIndex(results, selected.value) == |results| - 1;
    }
  }

  /** Pressing Down then Up returns to the same result, when keys are distinct and non-empty. */
  lemma {:induction false} NextThenPrevious(results: seq<Definition>, i: nat)
    requires i + 1 < |results|
    requires DistinctKeys(results)
    requires forall k :: 0 <= k < |results| ==> results[k].key != ""
    ensures NextSelection(Some(results), Some(results[i].key)) == Some(results[i + 1].key)
    ensures PreviousSelection(Some(results), NextSelection(Some(results), Some(results[i].key)))
      == Some(results[i].key)
  {
    FirstIndexOfKey(results, i);
    FirstIndexOfKey(results, i + 1);
  }

  /** Pressing Up then Down returns to the same result, when keys are distinct and non-empty. */
  lemma {:induction false} PreviousThenNext(results: seq<Definition>, i: nat)
    requires 0 < i < |results|
    requires DistinctKeys(results)
    requires forall k :: 0 <= k < |results| ==> results[k].key != ""
    ensures PreviousSelection(Some(results), Some(results[i].key)) == Some(results[i - 1].key)
    ensures NextSelection(Some(results), PreviousSelection(Some(results), Some(results[i].key)))
      == Some(results[i].key)
  {
    FirstIndexOfKey(results, i);
    FirstIndexOfKey(results, i - 1);
  }

  lemma FirstIndexOfKey(results: seq<Definition>, i: nat)
    requires i < |results|
    requires DistinctKeys(results)
    ensures FindIndex(results, results[i].key) == i
  {
  }

  /** A selection that is one of the results; the selection stays among the results. */
  predicate SelectionAmong(results: Option<seq<Definition>>, selected: Option<string>) {
    selected.Some? ==> results.Some? && FindIndex(results.value, selected.value) >= 0
  }

  lemma SelectionStaysAmongResults(results: Option<seq<Definition>>, selected: Option<string>)
    requires SelectionAmong(results, selected)
    ensures SelectionAmong(results, NextSelection(results, selected))
    ensures SelectionAmong(results, PreviousSelection(results, selected))
  {
    if results.Some? && TruthyString(selected) {
      var i := FindIndex(results.value, selected.value);
      if i < |results.value| - 1 {
        assert FindIndex(results.value, results.value[i + 1].key) >= 0;
      }
      if i > 0 {
        assert FindIndex(results.value, results.value[i - 1].key) >= 0;
      }
    }
  }

  /** Scenario of the keyboard test: Down moves from "foo" to the last result, then stays. */
  lemma ScenarioDownArrow()
    ensures var results := Some([Definition("foo", "", "", "foo category", ""),
                                 Definition("sonar.new_code_period", "", "", "", "")]);
      NextSelection(results, Some("foo")) == Some("sonar.new_code_period")
      && NextSelection(results, Some("sonar.new_code_period")) == Some("sonar.new_code_period")
      && NextSelection(results, None) == None
  {
  }

  /** `definitionsByKey[key]`: `None` stands for JavaScript's `undefined`. */
  function DefinitionByKey(definitionsByKey: map<string, Definition>, key: string): (r: Option<Definition>)
    ensures r.Some? <==> key in definitionsByKey
    ensures r.Some? ==> r.value == definitionsByKey[key]
  {
    if key in definitionsByKey then Some(definitionsByKey[key]) else None
  }

  // ---------------------------------------------------------------------------
  // The component
  // ---------------------------------------------------------------------------

  class SettingsSearch {
    /** The indexed definitions by key (lodash keyBy). */
    const definitionsByKey: map<string, Definition>
    /** The documents added to the full-text index. */
    const index: seq<Document>
    /** The index's `search`: the refs matching a query string, best first. */
    const search: string -> seq<string>
    const buildSettingLink: Option<Definition> -> Location

    var searchQuery: string
    var results: Option<seq<Definition>>
    var selectedResult: Option<string>
    var showResults: bool
    /** The destinations pushed to the router, oldest first. */
    var navigations: seq<Location>

    ghost predicate Valid()
      reads this
    {
      && (forall k :: k in definitionsByKey ==> definitionsByKey[k].key == k)
      && (forall q, ref :: ref in search(q) ==> ref in definitionsByKey)
      && (results.Some? ==> forall i :: 0 <= i < |results.value| ==> results.value[i].key in definitionsByKey)
    }

    /**
     * Indexes the supplied definitions followed by the additional ones. The
     * index can only return refs of documents it was given.
     */
    constructor (definitions: seq<Definition>, additional: seq<Definition>,
                 search: string -> seq<string>, buildSettingLink: Option<Definition> -> Location)
      requires forall q, ref :: ref in search(q) ==> ref in IndexedRefs(definitions + additional)
      ensures Valid()
      ensures |index| == |definitions + additional|
      ensures forall i :: 0 <= i < |index| ==> index[i] == DocumentFor((definitions + additional)[i])
      ensures definitionsByKey == KeyBy(definitions + additional)
      ensures this.search == search && this.buildSettingLink == buildSettingLink
      ensures searchQuery == "" && !showResults && results == None && selectedResult == None
      ensures navigations == []
    {
      var all := definitions + additional;
      var docs := BuildSearchIndex(all);
      index := docs;
      definitionsByKey := KeyBy(all);
      KeyByMapsEachKeyToItsLastDefinition(all);
      this.search := search;
      this.buildSettingLink := buildSettingLink;
      searchQuery := "";
      results := None;
      selectedResult := None;
      showResults := false;
      navigations := [];
    }

    /**
     * Runs a query. An operator-only query only hides the results; otherwise the
     * results are the hits in rank order and the first one is selected.
     */
    method DoSearch(query: string)
      requires Valid()
      modifies this
      ensures Valid()
      ensures searchQuery == old(searchQuery) && navigations == old(navigations)
      ensures CleanQuery(query) == "" ==>
        !showResults && results == old(results) && selectedResult == old(selectedResult)
      ensures CleanQuery(query) != "" ==>
        var refs := search(IndexQuery(CleanQuery(query)));
        && showResults
        && results.Some? && |results.value| == |refs|
        && (forall i :: 0 <= i < |refs| ==> results.value[i] == definitionsByKey[refs[i]])
        && selectedResult == (if |refs| == 0 then None else Some(refs[0]))
        && SelectionAmong(results, selectedResult)
    {
      var clean := CleanQuery(query);
      if clean == "" {
        showResults := false;
      } else {
        var refs := search(IndexQuery(clean));
        assert forall i :: 0 <= i < |refs| ==> refs[i] in definitionsByKey;
        var hits := seq(|refs|, i requires 0 <= i < |refs| => definitionsByKey[refs[i]]);
        if |hits| > 0 {
          assert FindIndex(hits, hits[0].key) == 0;
        }
        results := Some(hits);
        selectedResult := if |hits| == 0 then None else Some(hits[0].key);
        showResults := true;
      }
    }

    method HideResults()
      requires Valid()
      modifies this
      ensures Valid()
      ensures !showResults
      ensures searchQuery == old(searchQuery) && results == old(results)
      ensures selectedResult == old(selectedResult) && navigations == old(navigations)
    {
      showResults := false;
    }

    /** Focus shows the results again only when there is a query and they are hidden. */
    method HandleFocus()
      requires Valid()
      modifies this
      ensures Valid()
      ensures showResults == (old(showResults) || searchQuery != "")
      ensures searchQuery == old(searchQuery) && results == old(results)
      ensures selectedResult == old(selectedResult) && navigations == old(navigations)
    {
      if searchQuery != "" && !showResults {
        showResults := true;
      }
    }

    /** Typing records the query at once and then runs the (debounced) search. */
    method HandleSearchChange(query: string)
      requires Valid()
      modifies this
      ensures Valid()
      ensures searchQuery == query && navigations == old(navigations)
      ensures CleanQuery(query) == "" ==>
        !showResults && results == old(results) && selectedResult == old(selectedResult)
      ensures CleanQuery(query) != "" ==>
        var refs := search(IndexQuery(CleanQuery(query)));
        && showResults
        && results.Some? && |results.value| == |refs|
        && (forall i :: 0 <= i < |refs| ==> results.value[i] == definitionsByKey[refs[i]])
        && selectedResult == (if |refs| == 0 then None else Some(refs[0]))
    {
      searchQuery := query;
      DoSearch(query);
    }

    /** Hovering a result selects its key, whatever the key is. */
    method HandleMouseOverResult(key: string)
      requires Valid()
      modifies this
      ensures Valid()
      ensures selectedResult == Some(key)
      ensures searchQuery == old(searchQuery) && results == old(results)
      ensures showResults == old(showResults) && navigations == old(navigations)
    {
      selectedResult := Some(key);
    }

    method SelectPrevious()
      requires Valid()
      modifies this
      ensures Valid()
      ensures selectedResult == PreviousSelection(old(results), old(selectedResult))
      ensures searchQuery == old(searchQuery) && results == old(results)
      ensures showResults == old(showResults) && navigations == old(navigations)
    {
      if results.Some? && TruthyString(selectedResult) {
        var i := FindIndex(results.value, selectedResult.value);
        if i > 0 {
          selectedResult := Some(results.value[i - 1].key);
        }
      }
    }

    method SelectNext()
      requires Valid()
      modifies this
      ensures Valid()
      ensures selectedResult == NextSelection(old(results), old(selectedResult))
      ensures searchQuery == old(searchQuery) && results == old(results)
      ensures showResults == old(showResults) && navigations == old(navigations)
    {
      if results.Some? && TruthyString(selectedResult) {
        var i := FindIndex(results.value, selectedResult.value);
        if i < |results.value| - 1 {
          selectedResult := Some(results.value[i + 1].key);
        }
      }
    }

    /** Enter: navigate to the selected definition and hide the results; nothing without a selection. */
    method OpenSelected()
      requires Valid()
      modifies this
      ensures Valid()
      ensures TruthyString(old(selectedResult)) ==>
        navigations == old(navigations) + [buildSettingLink(DefinitionByKey(definitionsByKey, old(selectedResult).value))]
        && !showResults
      ensures !TruthyString(old(selectedResult)) ==>
        navigations == old(navigations) && showResults == old(showResults)
      ensures searchQuery == old(searchQuery) && results == old(results)
      ensures selectedResult == old(selectedResult)
    {
      if TruthyString(selectedResult) {
        var definition := DefinitionByKey(definitionsByKey, selectedResult.value);
        navigations := navigations + [buildSettingLink(definition)];
        showResults := false;
      }
    }

    /**
     * Enter, Up and Down suppress the browser default and dispatch to open,
     * previous and next; every other key changes nothing.
     */
    method HandleKeyDown(keyCode: int) returns (preventDefault: bool)
      requires Valid()
      modifies this
      ensures Valid()
      ensures preventDefault <==> keyCode in {KEY_ENTER, KEY_UP_ARROW, KEY_DOWN_ARROW}
      ensures keyCode == KEY_ENTER ==>
        (TruthyString(old(selectedResult)) ==>
          navigations == old(navigations) + [buildSettingLink(DefinitionByKey(definitionsByKey, old(selectedResult).value))]
          && !showResults)
        && (!TruthyString(old(selectedResult)) ==> navigations == old(navigations) && showResults == old(showResults))
        && selectedResult == old(selectedResult)
      ensures keyCode == KEY_UP_ARROW ==>
        selectedResult == PreviousSelection(old(results), old(selectedResult))
        && showResults == old(showResults) && navigations == old(navigations)
      ensures keyCode == KEY_DOWN_ARROW ==>
        selectedResult == NextSelection(old(results), old(selectedResult))
        && showResults == old(showResults) && navigations == old(navigations)
      ensures keyCode !in {KEY_ENTER, KEY_UP_ARROW, KEY_DOWN_ARROW} ==>
        selectedResult == old(selectedResult) && showResults == old(showResults)
        && navigations == old(navigations)
      ensures searchQuery == old(searchQuery) && results == old(results)
    {
      if keyCode == KEY_ENTER {
        preventDefault := true;
        OpenSelected();
      } else if keyCode == KEY_UP_ARROW {
        preventDefault := true;
        SelectPrevious();
      } else if keyCode == KEY_DOWN_ARROW {
        preventDefault := true;
        SelectNext();
      } else {
        preventDefault := false;
      }
    }
  }
}
