/**
 * The card colours of `src/theme/categoryClasses.js`: a constant table from
 * category to class string, and a lookup that falls back to the
 * uncategorised card for `null`, `undefined` and every unknown key.
 */
module CategoryClasses {
  import opened Wrappers

  const QuizClass: string := "category-card category-card--quiz"
  const HwClass: string := "category-card category-card--hw"
  const UncategorizedClass: string := "category-card category-card--uncategorized"

  /** `CATEGORY_CARD_CLASSES`. */
  const CardClasses: map<string, string> :=
    map["quiz" := QuizClass, "hw" := HwClass, "未分類" := UncategorizedClass, "none" := UncategorizedClass]

  /**
   * `getCategoryClass(category)`: `category ?? '未分類'` looked up in the table,
   * `||` the uncategorised class (every class in the table is non-empty, so
   * only a missing key falls through).
   */
  function GetCategoryClass(category: Option<string>): (r: string)
    ensures r in CardClasses.Values
    ensures r == QuizClass <==> category == Some("quiz")
    ensures r == HwClass <==> category == Some("hw")
    ensures r == UncategorizedClass <==> category != Some("quiz") && category != Some("hw")
  {
    var key := category.GetOr("未分類");
    if key in CardClasses && CardClasses[key] != "" then CardClasses[key] else CardClasses["未分類"]
  }

  /**
   * The table's promises: quiz and hw have classes of their own, 'none' and
   * 未分類 share the uncategorised one, and `null`/`undefined`, "" or any
   * other key fall back to it.
   */
  lemma CategoryClassCases(other: string)
    requires other !in CardClasses
    ensures GetCategoryClass(Some("quiz")) != GetCategoryClass(Some("hw"))
    ensures GetCategoryClass(Some("none")) == GetCategoryClass(Some("未分類")) == UncategorizedClass
    ensures GetCategoryClass(None) == UncategorizedClass
    ensures GetCategoryClass(Some("")) == UncategorizedClass
    ensures GetCategoryClass(Some(other)) == UncategorizedClass
  {
  }
}
