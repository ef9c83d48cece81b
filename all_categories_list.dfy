/**
 * The side menu of the settings page: the categories defined by the server,
 * minus those that have a dedicated page, plus the additional categories
 * that apply to the current context, sorted by lower-cased name, each with
 * its link and its "active" flag.
 */
module AllCategoriesList {
  import opened Wrappers
  import opened Strings
  import opened Sorting
  import opened Sequences

  /** One of the additional, client-side categories. */
  datatype AdditionalCategory = AdditionalCategory(
    key: string, name: string, displayTab: bool, availableGlobally: bool,
    availableForProject: bool, requiresBranchesEnabled: bool)

  datatype Category = Category(key: string, name: string)

  datatype Props = Props(
    branchesEnabled: bool, categories: seq<string>, componentKey: Option<string>,
    defaultCategory: string, selectedCategory: string)

  /** The target of a menu entry; `category` is absent for the default category. */
  datatype Link =
    | ProjectSettings(component: string, category: Option<string>)
    | GlobalSettings(category: Option<string>)

  datatype MenuEntry = MenuEntry(key: string, name: string, active: bool, to: Link)

  /**
   * `overridden` holds the lower-cased keys the overrides table maps to a
   * truthy value; `categoryName` is the translation lookup.
   */
  datatype Context = Context(
    overridden: set<string>, additional: seq<AdditionalCategory>, categoryName: string -> string)

  /** The server-side filter: a key stays unless the overrides table claims its lower-cased form. */
  function KeptServerKey(ctx: Context): string -> bool {
    key => Lower(key) !in ctx.overridden
  }

  /**
   * Server categories that keep their place in the menu, with their names:
   * one category for each kept key, in the order of the keys.
   */
  function ServerCategories(keys: seq<string>, ctx: Context): (r: seq<Category>)
    ensures var idx := Matches(keys, KeptServerKey(ctx));
      |r| == |idx| && forall k :: 0 <= k < |r| ==>
        r[k] == Category(keys[idx[k]], ctx.categoryName(keys[idx[k]]))
  {
    FilterIndices(keys, KeptServerKey(ctx));
    var kept := Filter(keys, KeptServerKey(ctx));
    seq(|kept|, i requires 0 <= i < |kept| => Category(kept[i], ctx.categoryName(kept[i])))
  }

  /** The server categories are exactly those of the keys the overrides table does not claim. */
  lemma ServerCategoriesMembers(keys: seq<string>, ctx: Context)
    ensures forall c :: c in ServerCategories(keys, ctx) <==>
      exists i :: 0 <= i < |keys| && Lower(keys[i]) !in ctx.overridden
        && c == Category(keys[i], ctx.categoryName(keys[i]))
  {
    var r := ServerCategories(keys, ctx);
    var idx := Matches(keys, KeptServerKey(ctx));
    forall c ensures c in r <==>
      exists i :: 0 <= i < |keys| && Lower(keys[i]) !in ctx.overridden
        && c == Category(keys[i], ctx.categoryName(keys[i]))
    {
      if c in r {
        var k :| 0 <= k < |r| && r[k] == c;
        assert KeptServerKey(ctx)(keys[idx[k]]);
      }
      if (exists i :: 0 <= i < |keys| && Lower(keys[i]) !in ctx.overridden
            && c == Category(keys[i], ctx.categoryName(keys[i]))) {
        var i :| 0 <= i < |keys| && Lower(keys[i]) !in ctx.overridden
          && c == Category(keys[i], ctx.categoryName(keys[i]));
        assert KeptServerKey(ctx)(keys[i]);
        assert i in idx;
        var k :| 0 <= k < |idx| && idx[k] == i;
        assert r[k] == c;
      }
    }
  }

  /**
   * Whether an additional category is shown in this context: the conjunction
   * of the three chained filters.
   */
  predicate Shown(c: AdditionalCategory, props: Props) {
    && c.displayTab
    && (if props.componentKey.Some? then c.availableForProject else c.availableGlobally)
    && (props.branchesEnabled || !c.requiresBranchesEnabled)
  }

  function ShownIn(props: Props): AdditionalCategory -> bool {
    c => Shown(c, props)
  }

  /** The additional categories shown in this context, each once, in their order. */
  function ShownAdditional(additional: seq<AdditionalCategory>, props: Props): (r: seq<Category>)
    ensures var idx := Matches(additional, ShownIn(props));
      |r| == |idx| && forall k :: 0 <= k < |r| ==>
        r[k] == Category(additional[idx[k]].key, additional[idx[k]].name)
  {
    FilterIndices(additional, ShownIn(props));
    var shown := Filter(additional, ShownIn(props));
    seq(|shown|, i requires 0 <= i < |shown| => Category(shown[i].key, shown[i].name))
  }

  /** The shown additional categories are exactly those of the additional categories `Shown` accepts. */
  lemma ShownAdditionalMembers(additional: seq<AdditionalCategory>, props: Props)
    ensures forall c :: c in ShownAdditional(additional, props) <==>
      exists a :: a in additional && Shown(a, props) && c == Category(a.key, a.name)
  {
    var r := ShownAdditional(additional, props);
    var idx := Matches(additional, ShownIn(props));
    forall c ensures c in r <==> exists a :: a in additional && Shown(a, props) && c == Category(a.key, a.name) {
      if c in r {
        var k :| 0 <= k < |r| && r[k] == c;
        assert ShownIn(props)(additional[idx[k]]);
        assert additional[idx[k]] in additional;
      }
      if exists a :: a in additional && Shown(a, props) && c == Category(a.key, a.name) {
        var a :| a in additional && Shown(a, props) && c == Category(a.key, a.name);
        var i :| 0 <= i < |additional| && additional[i] == a;
        assert ShownIn(props)(additional[i]);
        assert i in idx;
        var k :| 0 <= k < |idx| && idx[k] == i;
        assert r[k] == c;
      }
    }
  }

  function LowerName(c: Category): string {
    Lower(c.name)
  }

  /** The categories of the menu in display order. */
  function SortedCategories(props: Props, ctx: Context): (r: seq<Category>)
    ensures multiset(r) == multiset(ServerCategories(props.categories, ctx) + ShownAdditional(ctx.additional, props))
    ensures SortedBy(r, LowerName)
  {
    SortBy(ServerCategories(props.categories, ctx) + ShownAdditional(ctx.additional, props), LowerName)
  }

  /** The link of a menu entry: the default category links to the settings root. */
  function LinkFor(c: Category, props: Props): (l: Link)
    ensures l.category.None? <==> c.key == props.defaultCategory
    ensures l.category.Some? ==> l.category.value == Lower(c.key)
    ensures l.ProjectSettings? <==> props.componentKey.Some?
    ensures l.ProjectSettings? ==> l.component == props.componentKey.value
  {
    var category := if c.key != props.defaultCategory then Some(Lower(c.key)) else None;
    if props.componentKey.Some? then ProjectSettings(props.componentKey.value, category)
    else GlobalSettings(category)
  }

  function Entry(c: Category, props: Props): (e: MenuEntry)
    ensures e.key == c.key && e.name == c.name && e.to == LinkFor(c, props)
    ensures e.active <==> Lower(c.key) == Lower(props.selectedCategory)
  {
    MenuEntry(c.key, c.name, Lower(c.key) == Lower(props.selectedCategory), LinkFor(c, props))
  }

  function Entries(cs: seq<Category>, props: Props): (r: seq<MenuEntry>)
    ensures |r| == |cs|
    ensures forall i :: 0 <= i < |cs| ==> r[i] == Entry(cs[i], props)
  {
    seq(|cs|, i requires 0 <= i < |cs| => Entry(cs[i], props))
  }

  /** `CategoriesList`: the rendered menu. */
  function CategoriesList(props: Props, ctx: Context): (r: seq<MenuEntry>)
    ensures |r| == |SortedCategories(props, ctx)|
    ensures forall i :: 0 <= i < |r| ==>
      r[i].key == SortedCategories(props, ctx)[i].key && r[i].name == SortedCategories(props, ctx)[i].name
    ensures forall i :: 0 <= i < |r| ==> (r[i].active <==> Lower(r[i].key) == Lower(props.selectedCategory))
  {
    Entries(SortedCategories(props, ctx), props)
  }

  /**
   * The menu holds the non-overridden server categories and the additional
   * categories shown in this context, each as often as it is kept and no
   * other, in lower-cased name order.
   */
  lemma MenuHasTheRightCategories(props: Props, ctx: Context)
    ensures var menu := CategoriesList(props, ctx);
      forall i, j :: 0 <= i < j < |menu| ==> LexLe(Lower(menu[i].name), Lower(menu[j].name))
    ensures |CategoriesList(props, ctx)| ==
      |Matches(props.categories, KeptServerKey(ctx))| + |Matches(ctx.additional, ShownIn(props))|
    ensures multiset(SortedCategories(props, ctx)) ==
      multiset(ServerCategories(props.categories, ctx)) + multiset(ShownAdditional(ctx.additional, props))
    ensures forall c :: c in SortedCategories(props, ctx) <==>
      (exists i :: 0 <= i < |props.categories| && Lower(props.categories[i]) !in ctx.overridden
         && c == Category(props.categories[i], ctx.categoryName(props.categories[i])))
      || (exists a :: a in ctx.additional && Shown(a, props) && c == Category(a.key, a.name))
  {
    MenuSize(props, ctx);
    MenuMembers(props, ctx);
    ServerCategoriesMembers(props.categories, ctx);
    ShownAdditionalMembers(ctx.additional, props);
  }

  lemma MenuSize(props: Props, ctx: Context)
    ensures |CategoriesList(props, ctx)| ==
      |ServerCategories(props.categories, ctx)| + |ShownAdditional(ctx.additional, props)|
  {
    var server := ServerCategories(props.categories, ctx);
    var extra := ShownAdditional(ctx.additional, props);
    var sorted := SortedCategories(props, ctx);
    assert |sorted| == |multiset(sorted)| == |multiset(server + extra)| == |server + extra|;
  }

  lemma MenuMembers(props: Props, ctx: Context)
    ensures forall c :: c in SortedCategories(props, ctx) <==>
      c in ServerCategories(props.categories, ctx) || c in ShownAdditional(ctx.additional, props)
  {
    var server := ServerCategories(props.categories, ctx);
    var extra := ShownAdditional(ctx.additional, props);
    var sorted := SortedCategories(props, ctx);
    forall c ensures c in sorted <==> c in server || c in extra {
      calc {
        c in sorted;
        c in multiset(sorted);
        c in multiset(server + extra);
        c in server + extra;
      }
    }
  }

  /**
   * A server category the overrides table claims never shows up from the
   * server list: every menu entry with its key, in any case, is one of the
   * additional categories shown in this context.
   */
  lemma OverriddenCategoryIsHidden(props: Props, ctx: Context, key: string)
    requires Lower(key) in ctx.overridden
    ensures forall e :: e in CategoriesList(props, ctx) && Lower(e.key) == Lower(key) ==>
      exists a :: a in ctx.additional && Shown(a, props) && a.key == e.key && a.name == e.name
  {
    var sorted := SortedCategories(props, ctx);
    MenuHasTheRightCategories(props, ctx);
    forall e | e in CategoriesList(props, ctx) && Lower(e.key) == Lower(key)
      ensures exists a :: a in ctx.additional && Shown(a, props) && a.key == e.key && a.name == e.name
    {
      var i :| 0 <= i < |sorted| && CategoriesList(props, ctx)[i] == e;
      var c := sorted[i];
      assert c in sorted;
      assert c.key == e.key && c.name == e.name;
    }
  }
}
