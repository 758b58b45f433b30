/** Dish search (src/pages/SearchDishPage.tsx): the dishes narrowed to one
    category and to a case-insensitive text query over name and description. */
module SearchDishPage {
  import opened Models
  import opened Sequences
  import opened Text

  /** The query test: the lower-cased name, or the lower-cased description
      when there is one, contains `query`. */
  function Matches(query: string): Dish -> bool
  {
    (d: Dish) => Contains(Lower(d.fields.name), query) ||
                 (d.fields.description.Some? && Contains(Lower(d.fields.description.value), query))
  }

  /** `filteredDishes`: first the category filter (unless 'all'), then, when
      the query is not blank, the text filter with the lower-cased, trimmed query. */
  function FilteredDishes(dishes: seq<Dish>, searchQuery: string, selectedCategoryId: string): (r: seq<Dish>)
    ensures SubsequenceOf(r, dishes)
    ensures forall d :: d in r <==>
      && d in dishes
      && (selectedCategoryId == ALL || d.fields.categoryId == selectedCategoryId)
      && (Trim(searchQuery) == "" || Matches(Trim(Lower(searchQuery)))(d))
    ensures selectedCategoryId == ALL && Trim(searchQuery) == "" ==> r == dishes
  {
    var byCategory := if selectedCategoryId != ALL then Filter(dishes, InCategory(selectedCategoryId)) else dishes;
    FilterIsSubsequence(dishes, InCategory(selectedCategoryId));
    SubsequenceOfSelf(dishes);
    if Trim(searchQuery) != "" then
      var query := Trim(Lower(searchQuery));
      FilterIsSubsequence(byCategory, Matches(query));
      SubsequenceTrans(Filter(byCategory, Matches(query)), byCategory, dishes);
      Filter(byCategory, Matches(query))
    else
      byCategory
  }

  /** The search ignores case: a query typed in capitals finds the same dishes. */
  lemma {:induction false} SearchIgnoresCase(dishes: seq<Dish>, searchQuery: string, selectedCategoryId: string)
    ensures FilteredDishes(dishes, Lower(searchQuery), selectedCategoryId) == FilteredDishes(dishes, searchQuery, selectedCategoryId)
  {
    LowerIdempotent(searchQuery);
    TrimLower(searchQuery);
    TrimLower(Lower(searchQuery));
  }
}
