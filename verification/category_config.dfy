/** The priority categories (src/data/categoryConfig.js): how each category of
    item is shown, and the lookup by category id. */
module CategoryConfig {
  import opened JsText

  /** How a category is displayed, and where it ranks. */
  datatype Category = Category(labelText: string, shortLabel: string, icon: string, color: string, bgColor: string, priority: int)

  /** `PRIORITY_CATEGORIES`, its entries in the order the object lists them. */
  const PRIORITY_CATEGORIES: seq<(string, Category)> := [
    ("base_component", Category("Base Component", "Base", "\U{1F9F1}", "#6b7280", "rgba(107, 114, 128, 0.15)", 1)),
    ("core_component", Category("Core Component", "Core", "\U{2699}\U{FE0F}", "#f59e0b", "rgba(245, 158, 11, 0.15)", 2)),
    ("high_priority_component", Category("High Priority", "Priority", "\U{2B50}", "#dc2626", "rgba(220, 38, 38, 0.15)", 3)),
    ("donor", Category("Donor Item", "Donor", "\U{267B}\U{FE0F}", "#a855f7", "rgba(168, 85, 247, 0.15)", 4)),
    ("safe_to_sell", Category("Safe to Sell", "Sellable", "\U{1F4B0}", "#22c55e", "rgba(34, 197, 94, 0.15)", 5))
  ]

  /** The category ids, in table order. */
  const CATEGORY_IDS: seq<string> := ["base_component", "core_component", "high_priority_component", "donor", "safe_to_sell"]

  /** `getCategoryConfig(categoryId)`: the entry for one of the five ids, null for
      any other. */
  function GetCategoryConfig(categoryId: string): (r: Option<Category>)
    ensures r.Some? <==> categoryId in CATEGORY_IDS
    ensures r.Some? ==> (categoryId, r.value) in PRIORITY_CATEGORIES
  {
    assert forall i :: 0 <= i < 5 ==> PRIORITY_CATEGORIES[i].0 == CATEGORY_IDS[i];
    Lookup(PRIORITY_CATEGORIES, categoryId)
  }

  /** There are exactly five categories, with distinct ids, listed in the order of
      `CATEGORY_IDS`. */
  lemma FiveCategories()
    ensures |PRIORITY_CATEGORIES| == |CATEGORY_IDS| == 5
    ensures forall i :: 0 <= i < 5 ==> PRIORITY_CATEGORIES[i].0 == CATEGORY_IDS[i]
    ensures forall i, j :: 0 <= i < j < 5 ==> CATEGORY_IDS[i] != CATEGORY_IDS[j]
  {
  }

  /** The priorities run 1 to 5 in table order: base, core, high priority, donor,
      safe to sell. */
  lemma PrioritiesInOrder()
    ensures forall i :: 0 <= i < |PRIORITY_CATEGORIES| ==> PRIORITY_CATEGORIES[i].1.priority == i + 1
  {
  }

  /** Each of the five ids gets its own row of the table. */
  lemma {:induction false} ConfigOfEachId(i: int)
    requires 0 <= i < 5
    ensures GetCategoryConfig(CATEGORY_IDS[i]) == Some(PRIORITY_CATEGORIES[i].1)
  {
    FiveCategories();
    var r := GetCategoryConfig(CATEGORY_IDS[i]);
    var j :| 0 <= j < 5 && PRIORITY_CATEGORIES[j] == (CATEGORY_IDS[i], r.value);
    assert CATEGORY_IDS[j] == CATEGORY_IDS[i];
  }
}
