/**
 * The list of sub-categories of one settings category: grouping the settings
 * by sub-category, sorting and filtering the groups, the `data-key` selector
 * built from the URL hash, and the refetch / scroll decisions taken when the
 * component's props change.
 */
module SubCategoryDefinitionsList {
  import opened Wrappers
  import opened Strings
  import opened Sorting
  import opened Sequences

  datatype Definition = Definition(key: string, category: string, subCategory: string)
  datatype Setting = Setting(definition: Definition)

  /** A component reference: `ref` stands for the object's identity. */
  datatype Component = Component(ref: nat, key: string)

  datatype Props = Props(
    category: string, component: Option<Component>, settings: seq<Setting>,
    subCategory: Option<string>, hash: string)

  /** One entry of the list: a sub-category, its label, and its settings. */
  datatype SubCategory = SubCategory(
    key: string, name: string, description: Option<string>, settings: seq<Setting>)

  // ---------------------------------------------------------------------------
  // The selector for the URL hash
  // ---------------------------------------------------------------------------

  predicate IsSelectorSpecial(c: char) {
    c == '.' || c == '#' || c == '/'
  }

  /** `s.replace(/[.#/]/g, '\\$&')`: put a backslash before every `.`, `#` and `/`. */
  function EscapeSelector(s: string): (r: string)
    ensures |r| >= |s|
    ensures forall i :: 0 <= i < |r| && IsSelectorSpecial(r[i]) ==> i > 0 && r[i - 1] == '\\'
    ensures |r| > 0 ==> !IsSelectorSpecial(r[0])
  {
    if |s| == 0 then ""
    else
      var rest := EscapeSelector(s[1..]);
      if IsSelectorSpecial(s[0]) then "\\" + [s[0]] + rest else [s[0]] + rest
  }

  /** Drops the backslash in front of every `.`, `#` and `/`. */
  function UnescapeSelector(r: string): string
    decreases |r|
  {
    if |r| == 0 then ""
    else if |r| >= 2 && r[0] == '\\' && IsSelectorSpecial(r[1]) then [r[1]] + UnescapeSelector(r[2..])
    else [r[0]] + UnescapeSelector(r[1..])
  }

  /** Escaping loses nothing: every other character is kept, in order. */
  lemma {:induction false} UnescapeEscapeSelector(s: string)
    ensures UnescapeSelector(EscapeSelector(s)) == s
  {
    if |s| > 0 {
      UnescapeEscapeSelector(s[1..]);
      var rest := EscapeSelector(s[1..]);
      if IsSelectorSpecial(s[0]) {
        assert ("\\" + [s[0]] + rest)[2..] == rest;
      } else {
        assert ([s[0]] + rest)[1..] == rest;
      }
      assert s == [s[0]] + s[1..];
    }
  }

  /** `hash.substr(1)`. */
  function WithoutLeadingChar(hash: string): string {
    if |hash| == 0 then "" else hash[1..]
  }

  /** The `querySelector` argument for a hash. */
  function DataKeySelector(hash: string): string {
    "[data-key=" + EscapeSelector(WithoutLeadingChar(hash)) + "]"
  }

  // ---------------------------------------------------------------------------
  // componentDidUpdate, scrolling and fetching
  // ---------------------------------------------------------------------------

  function DefinitionKeys(settings: seq<Setting>): (keys: seq<string>)
    ensures |keys| == |settings|
    ensures forall i :: 0 <= i < |settings| ==> keys[i] == settings[i].definition.key
  {
    seq(|settings|, i requires 0 <= i < |settings| => settings[i].definition.key)
  }

  /** The arguments of the `fetchValues` prop: the keys joined by `,`, and the component key. */
  datatype FetchRequest = FetchRequest(keys: string, componentKey: Option<string>)

  /** `fetchValues`: the definition keys joined by `,` (`join()`), and the component key if any. */
  function FetchValuesRequest(props: Props): (r: FetchRequest)
    ensures r.componentKey.Some? <==> props.component.Some?
    ensures props.component.Some? ==> r.componentKey == Some(props.component.value.key)
    ensures r.keys == Join(DefinitionKeys(props.settings), ",")
    ensures |props.settings| == 0 ==> r.keys == ""
    ensures |props.settings| == 1 ==> r.keys == props.settings[0].definition.key
  {
    FetchRequest(Join(DefinitionKeys(props.settings), ","),
                 if props.component.Some? then Some(props.component.value.key) else None)
  }

  /**
   * The key list loses nothing: when no key contains a comma, splitting it on
   * `,` gives the definition keys back, in order.
   */
  lemma FetchedKeysSplitBack(props: Props)
    requires |props.settings| >= 1
    requires forall i :: 0 <= i < |props.settings| ==> ',' !in props.settings[i].definition.key
    ensures Split(FetchValuesRequest(props).keys, ',') == DefinitionKeys(props.settings)
  {
    SplitJoin(DefinitionKeys(props.settings), ',');
  }

  /** The side effects `componentDidUpdate` triggers. */
  datatype UpdateEffects = UpdateEffects(fetch: Option<FetchRequest>, selectorQuery: Option<string>)

  function DidUpdate(prev: Props, props: Props): (e: UpdateEffects)
    ensures e.fetch.Some? <==>
      prev.component != props.component || DefinitionKeys(prev.settings) != DefinitionKeys(props.settings)
    ensures e.fetch.Some? ==> e.fetch.value == FetchValuesRequest(props)
    ensures e.selectorQuery.Some? <==> props.hash != "" && prev.hash != props.hash
    ensures e.selectorQuery.Some? ==> e.selectorQuery.value == DataKeySelector(props.hash)
  {
    UpdateEffects(
      if prev.component != props.component || DefinitionKeys(prev.settings) != DefinitionKeys(props.settings)
      then Some(FetchValuesRequest(props)) else None,
      if props.hash != "" && prev.hash != props.hash then Some(DataKeySelector(props.hash)) else None)
  }

  /** A rendered heading or list item, with its `data-key` attribute (null when absent). */
  datatype Element = Element(dataKey: Option<string>)

  /** `scrollToSubCategoryOrDefinition`: whether the element is scrolled to. */
  predicate ScrollsTo(element: Option<Element>, hash: string) {
    element.Some? && hash != "" && element.value.dataKey == Some(WithoutLeadingChar(hash))
  }

  lemma ScrollsOnlyToTheHashTarget(element: Option<Element>, hash: string)
    ensures ScrollsTo(element, hash) ==>
      |hash| > 0 && element.value.dataKey.Some? && element.value.dataKey.value == hash[1..]
    ensures element.None? || hash == "" ==> !ScrollsTo(element, hash)
  {
  }

  // ---------------------------------------------------------------------------
  // render: group, sort, filter
  // ---------------------------------------------------------------------------

  /** The distinct sub-category keys, in order of first appearance. */
  function SubCategoryKeys(settings: seq<Setting>): (keys: seq<string>)
    ensures forall a, b :: 0 <= a < b < |keys| ==> keys[a] != keys[b]
    ensures forall k :: k in keys <==> exists i :: 0 <= i < |settings| && settings[i].definition.subCategory == k
  {
    if |settings| == 0 then []
    else
      var init := settings[..|settings| - 1];
      var last := settings[|settings| - 1].definition.subCategory;
      var keys := SubCategoryKeys(init);
      assert forall i :: 0 <= i < |init| ==> init[i] == settings[i];
      if last in keys then keys else keys + [last]
  }

  function InSubCategory(subCategory: string): Setting -> bool {
    (s: Setting) => s.definition.subCategory == subCategory
  }

  /**
   * The settings of one sub-category: the setting at each index whose
   * sub-category it is, in their original order.
   */
  function SettingsOf(settings: seq<Setting>, subCategory: string): (r: seq<Setting>)
    ensures var idx := Matches(settings, InSubCategory(subCategory));
      |r| == |idx| && forall k :: 0 <= k < |r| ==> r[k] == settings[idx[k]]
    ensures forall s :: s in r <==> s in settings && s.definition.subCategory == subCategory
  {
    FilterIndices(settings, InSubCategory(subCategory));
    Filter(settings, InSubCategory(subCategory))
  }

  /** Some setting of the list belongs to sub-category `k`. */
  predicate UsedSubCategory(settings: seq<Setting>, k: string) {
    exists i :: 0 <= i < |settings| && settings[i].definition.subCategory == k
  }

  lemma SettingsOfUsedIsNonEmpty(settings: seq<Setting>, k: string)
    requires UsedSubCategory(settings, k)
    ensures |SettingsOf(settings, k)| > 0
  {
    var i :| 0 <= i < |settings| && settings[i].definition.subCategory == k;
    assert settings[i] in SettingsOf(settings, k);
  }

  /** The list entry for sub-category `k`, labelled from its first setting's category. */
  function Entry(settings: seq<Setting>, k: string,
                 nameOf: (string, string) -> string,
                 descriptionOf: (string, string) -> Option<string>): (c: SubCategory)
    requires UsedSubCategory(settings, k)
    ensures c.key == k && c.settings == SettingsOf(settings, k) && |c.settings| > 0
    ensures c.name == nameOf(c.settings[0].definition.category, k)
    ensures c.description == descriptionOf(c.settings[0].definition.category, k)
  {
    SettingsOfUsedIsNonEmpty(settings, k);
    var group := SettingsOf(settings, k);
    SubCategory(k, nameOf(group[0].definition.category, k),
                descriptionOf(group[0].definition.category, k), group)
  }

  /** `groupBy` on the sub-category, then one entry per group. */
  function Group(settings: seq<Setting>,
                 nameOf: (string, string) -> string,
                 descriptionOf: (string, string) -> Option<string>): (r: seq<SubCategory>)
    ensures |r| == |SubCategoryKeys(settings)|
    ensures forall i :: 0 <= i < |r| ==> UsedSubCategory(settings, SubCategoryKeys(settings)[i])
    ensures forall i :: 0 <= i < |r| ==>
      r[i] == Entry(settings, SubCategoryKeys(settings)[i], nameOf, descriptionOf)
  {
    var keys := SubCategoryKeys(settings);
    assert forall i :: 0 <= i < |keys| ==> UsedSubCategory(settings, keys[i]) by {
      forall i | 0 <= i < |keys| ensures UsedSubCategory(settings, keys[i]) {
        assert keys[i] in keys;
      }
    }
    seq(|keys|, i requires 0 <= i < |keys| => Entry(settings, keys[i], nameOf, descriptionOf))
  }

  function LowerName(c: SubCategory): string {
    Lower(c.name)
  }

  function HasKey(key: string): SubCategory -> bool {
    (c: SubCategory) => c.key == key
  }

  /** The filter on the `subCategory` prop: with a (truthy) prop only the entries with that key stay, in order. */
  function KeepSelected(entries: seq<SubCategory>, subCategory: Option<string>): (r: seq<SubCategory>)
    ensures !TruthyString(subCategory) ==> r == entries
    ensures TruthyString(subCategory) ==>
      var idx := Matches(entries, HasKey(subCategory.value));
      |r| == |idx| && forall k :: 0 <= k < |r| ==> r[k] == entries[idx[k]]
    ensures TruthyString(subCategory) ==>
      forall c :: c in r <==> c in entries && c.key == subCategory.value
  {
    if !TruthyString(subCategory) then entries
    else
      FilterIndices(entries, HasKey(subCategory.value));
      Filter(entries, HasKey(subCategory.value))
  }

  /** The sub-categories the list renders, in order. */
  function RenderedSubCategories(props: Props,
                                 nameOf: (string, string) -> string,
                                 descriptionOf: (string, string) -> Option<string>): (r: seq<SubCategory>)
    ensures SortedBy(r, LowerName)
    ensures forall c :: c in r ==> c in Group(props.settings, nameOf, descriptionOf)
  {
    var g := Group(props.settings, nameOf, descriptionOf);
    KeepSelectedKeepsOrder(SortBy(g, LowerName), props.subCategory);
    KeepSelectedKeepsEntries(g, SortBy(g, LowerName), props.subCategory);
    KeepSelected(SortBy(g, LowerName), props.subCategory)
  }

  lemma KeepSelectedKeepsOrder(entries: seq<SubCategory>, subCategory: Option<string>)
    requires SortedBy(entries, LowerName)
    ensures SortedBy(KeepSelected(entries, subCategory), LowerName)
  {
    if TruthyString(subCategory) {
      var r := KeepSelected(entries, subCategory);
      var idx := Matches(entries, HasKey(subCategory.value));
      forall i, j | 0 <= i < j < |r| ensures LexLe(LowerName(r[i]), LowerName(r[j])) {
        assert idx[i] < idx[j];
      }
    }
  }

  lemma KeepSelectedKeepsEntries(g: seq<SubCategory>, entries: seq<SubCategory>, subCategory: Option<string>)
    requires multiset(entries) == multiset(g)
    ensures forall c :: c in KeepSelected(entries, subCategory) ==> c in g
  {
    forall c | c in KeepSelected(entries, subCategory) ensures c in g {
      assert c in multiset(entries);
    }
  }

  predicate DistinctEntryKeys(r: seq<SubCategory>) {
    forall a, b :: 0 <= a < b < |r| ==> r[a].key != r[b].key
  }

  predicate HasEntry(r: seq<SubCategory>, k: string) {
    exists c :: c in r && c.key == k
  }

  /** In a list with distinct keys, no entry occurs twice. */
  lemma {:induction false} DistinctEntryKeysOccurOnce(g: seq<SubCategory>, x: SubCategory)
    requires DistinctEntryKeys(g)
    ensures multiset(g)[x] <= 1
  {
    if |g| > 0 {
      assert g == [g[0]] + g[1..];
      assert DistinctEntryKeys(g[1..]) by {
        forall a, b | 0 <= a < b < |g| - 1 ensures g[1..][a].key != g[1..][b].key {
          assert g[1..][a] == g[a + 1] && g[1..][b] == g[b + 1];
        }
      }
      DistinctEntryKeysOccurOnce(g[1..], x);
    }
  }

  /** A permutation of a list with distinct keys has distinct keys. */
  lemma DistinctEntryKeysPermuted(g: seq<SubCategory>, r: seq<SubCategory>)
    requires DistinctEntryKeys(g) && multiset(g) == multiset(r)
    ensures DistinctEntryKeys(r)
  {
    forall a, b | 0 <= a < b < |r| ensures r[a].key != r[b].key {
      if r[a] == r[b] {
        assert r == r[..b] + r[b..];
        assert r[a] in r[..b] && r[b] in r[b..];
        assert multiset(r)[r[b]] == multiset(r[..b])[r[b]] + multiset(r[b..])[r[b]];
        DistinctEntryKeysOccurOnce(g, r[b]);
      } else {
        assert r[a] in multiset(g) && r[b] in multiset(g);
        var ia :| 0 <= ia < |g| && g[ia] == r[a];
        var ib :| 0 <= ib < |g| && g[ib] == r[b];
        assert ia != ib;
      }
    }
  }

  /** The grouped entries have distinct keys, one for each sub-category in use. */
  lemma GroupCoversSubCategories(settings: seq<Setting>,
                                 nameOf: (string, string) -> string,
                                 descriptionOf: (string, string) -> Option<string>)
    ensures DistinctEntryKeys(Group(settings, nameOf, descriptionOf))
    ensures forall k :: HasEntry(Group(settings, nameOf, descriptionOf), k) <==> UsedSubCategory(settings, k)
  {
    var g := Group(settings, nameOf, descriptionOf);
    var keys := SubCategoryKeys(settings);
    forall k ensures HasEntry(g, k) <==> UsedSubCategory(settings, k) {
      if HasEntry(g, k) {
        var c :| c in g && c.key == k;
        var i :| 0 <= i < |g| && g[i] == c;
        assert keys[i] in keys;
      }
      if UsedSubCategory(settings, k) {
        assert k in keys;
        var i :| 0 <= i < |keys| && keys[i] == k;
        assert g[i] in g;
      }
    }
  }

  /**
   * Without a sub-category prop there is exactly one entry per distinct
   * sub-category of the settings, ordered by lower-cased name.
   */
  lemma OneEntryPerSubCategory(props: Props,
                               nameOf: (string, string) -> string,
                               descriptionOf: (string, string) -> Option<string>)
    requires !TruthyString(props.subCategory)
    ensures var r := RenderedSubCategories(props, nameOf, descriptionOf);
      SortedBy(r, LowerName) && DistinctEntryKeys(r)
      && forall k :: HasEntry(r, k) <==> UsedSubCategory(props.settings, k)
  {
    var g := Group(props.settings, nameOf, descriptionOf);
    var r := SortBy(g, LowerName);
    GroupCoversSubCategories(props.settings, nameOf, descriptionOf);
    DistinctEntryKeysPermuted(g, r);
    forall k ensures HasEntry(r, k) <==> HasEntry(g, k) {
      if HasEntry(r, k) {
        var c :| c in r && c.key == k;
        assert c in multiset(g);
      }
      if HasEntry(g, k) {
        var c :| c in g && c.key == k;
        assert c in multiset(r);
      }
    }
  }

  /** With a sub-category prop, only entries with exactly that key are rendered. */
  lemma SubCategoryPropKeepsOnlyItsEntry(props: Props,
                                         nameOf: (string, string) -> string,
                                         descriptionOf: (string, string) -> Option<string>)
    requires TruthyString(props.subCategory)
    ensures forall c :: c in RenderedSubCategories(props, nameOf, descriptionOf) ==>
      c.key == props.subCategory.value
  {
  }

  // ---------------------------------------------------------------------------
  // renderEmailForm
  // ---------------------------------------------------------------------------

  /** `renderEmailForm`: the email form follows the `email` sub-category of the `general` category. */
  predicate RendersEmailForm(category: string, subCategoryKey: string) {
    category == "general" && subCategoryKey == "email"
  }

  /**
   * Without a sub-category prop the email form is rendered at most once, and
   * it is rendered exactly on the `general` category when some setting
   * belongs to the `email` sub-category.
   */
  lemma EmailFormAtMostOnce(props: Props,
                            nameOf: (string, string) -> string,
                            descriptionOf: (string, string) -> Option<string>)
    requires !TruthyString(props.subCategory)
    ensures var r := RenderedSubCategories(props, nameOf, descriptionOf);
      forall a, b :: 0 <= a < b < |r| ==> !(RendersEmailForm(props.category, r[a].key) && RendersEmailForm(props.category, r[b].key))
    ensures var r := RenderedSubCategories(props, nameOf, descriptionOf);
      (exists i :: 0 <= i < |r| && RendersEmailForm(props.category, r[i].key)) <==>
        props.category == "general" && UsedSubCategory(props.settings, "email")
  {
    var r := RenderedSubCategories(props, nameOf, descriptionOf);
    OneEntryPerSubCategory(props, nameOf, descriptionOf);
    if props.category == "general" && UsedSubCategory(props.settings, "email") {
      assert HasEntry(r, "email");
      var c :| c in r && c.key == "email";
      var i :| 0 <= i < |r| && r[i] == c;
      assert RendersEmailForm(props.category, r[i].key);
    }
    if exists i :: 0 <= i < |r| && RendersEmailForm(props.category, r[i].key) {
      var i :| 0 <= i < |r| && RendersEmailForm(props.category, r[i].key);
      assert r[i] in r;
      assert HasEntry(r, "email");
    }
  }
}
