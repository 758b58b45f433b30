/** The menu (src/pages/MenuPage.tsx): one section per active category, in
    `sortOrder`, each listing that category's dishes in their stored order. */
module MenuPage {
  import opened Models
  import opened Sequences
  import opened MenuViews

  /** One `CategorySection`: a category and the dishes shown under it. */
  datatype Section = Section(category: Category, dishes: seq<Dish>)

  /** What the page renders for the loaded dishes and categories. */
  function Sections(dishes: seq<Dish>, categories: seq<Category>): (r: seq<Section>)
    ensures |r| == |ActiveSorted(categories)|
    ensures forall i, j :: 0 <= i < j < |r| ==> r[i].category.fields.sortOrder <= r[j].category.fields.sortOrder
    ensures forall i :: 0 <= i < |r| ==> r[i].category in categories && r[i].category.fields.isActive
    ensures forall i :: 0 <= i < |r| ==> r[i].category == ActiveSorted(categories)[i]
  {
    var sorted := ActiveSorted(categories);
    seq(|sorted|, i requires 0 <= i < |sorted| => Section(sorted[i], Group(dishes, CategoryKey, sorted[i].id)))
  }

  /** The members of a category's group. */
  lemma {:induction false} GroupMembers(dishes: seq<Dish>, categoryId: Id)
    ensures forall d :: d in Group(dishes, CategoryKey, categoryId) <==> d in dishes && d.fields.categoryId == categoryId
  {
    var p := KeyIs(CategoryKey, categoryId);
    forall d ensures p(d) <==> d.fields.categoryId == categoryId {
      assert p(d) == (CategoryKey(d) == categoryId);
    }
  }

  /** A section lists exactly the loaded dishes of its category, in their stored order. */
  lemma {:induction false} SectionDishes(dishes: seq<Dish>, categories: seq<Category>, i: nat)
    requires i < |Sections(dishes, categories)|
    ensures var sec := Sections(dishes, categories)[i];
      && (forall d :: d in sec.dishes <==> d in dishes && d.fields.categoryId == sec.category.id)
      && SubsequenceOf(sec.dishes, dishes)
  {
    var sorted := ActiveSorted(categories);
    var sec := Sections(dishes, categories)[i];
    assert sec == Section(sorted[i], Group(dishes, CategoryKey, sorted[i].id));
    GroupMembers(dishes, sec.category.id);
    FilterIsSubsequence(dishes, KeyIs(CategoryKey, sec.category.id));
  }

  /** `dishesByCategory[category.id] || []` is the category's group. */
  lemma {:induction false} DishesOfIsGroup(dishes: seq<Dish>, categoryId: Id)
    ensures DishesOf(GroupBy(dishes, CategoryKey), categoryId) == Group(dishes, CategoryKey, categoryId)
  {
    GroupByIsPartition(dishes, CategoryKey, categoryId);
    if categoryId !in GroupBy(dishes, CategoryKey) {
      GroupOfAbsentKey(dishes, CategoryKey, categoryId);
    }
  }

  /** The page: group the dishes once, then map the sorted active categories to sections. */
  method MenuSections(dishes: seq<Dish>, categories: seq<Category>) returns (sections: seq<Section>)
    ensures sections == Sections(dishes, categories)
  {
    var grouped := DishesByCategory(dishes);
    var sorted := ActiveSorted(categories);
    sections := seq(|sorted|, i requires 0 <= i < |sorted| => Section(sorted[i], DishesOf(grouped, sorted[i].id)));
    forall i | 0 <= i < |sorted|
      ensures DishesOf(grouped, sorted[i].id) == Group(dishes, CategoryKey, sorted[i].id)
    {
      DishesOfIsGroup(dishes, sorted[i].id);
    }
  }

  /** A dish in a section is loaded and belongs to an active listed category. */
  lemma {:induction false} ShownDishIsListed(dishes: seq<Dish>, categories: seq<Category>, d: Dish, i: nat)
    requires i < |Sections(dishes, categories)| && d in Sections(dishes, categories)[i].dishes
    ensures d in dishes && exists c :: c in categories && c.fields.isActive && c.id == d.fields.categoryId
  {
    var s := Sections(dishes, categories);
    SectionDishes(dishes, categories, i);
    assert s[i].category in categories && s[i].category.fields.isActive;
  }

  /** A loaded dish of an active listed category is in that category's section. */
  lemma {:induction false} ListedDishIsShown(dishes: seq<Dish>, categories: seq<Category>, d: Dish, c: Category)
    requires d in dishes && c in categories && c.fields.isActive && c.id == d.fields.categoryId
    ensures exists i :: 0 <= i < |Sections(dishes, categories)| && d in Sections(dishes, categories)[i].dishes
  {
    var sorted := ActiveSorted(categories);
    assert c in sorted;
    var i :| 0 <= i < |sorted| && sorted[i] == c;
    SectionDishes(dishes, categories, i);
  }

  /** A dish is on the menu exactly when it is loaded and an active category
      carries its `categoryId`; dishes of inactive or missing categories are not shown. */
  lemma {:induction false} DishShown(dishes: seq<Dish>, categories: seq<Category>, d: Dish)
    ensures (exists i :: 0 <= i < |Sections(dishes, categories)| && d in Sections(dishes, categories)[i].dishes) <==>
      d in dishes && exists c :: c in categories && c.fields.isActive && c.id == d.fields.categoryId
  {
    var s := Sections(dishes, categories);
    if exists i :: 0 <= i < |s| && d in s[i].dishes {
      var i :| 0 <= i < |s| && d in s[i].dishes;
      ShownDishIsListed(dishes, categories, d, i);
    }
    if d in dishes && exists c :: c in categories && c.fields.isActive && c.id == d.fields.categoryId {
      var c :| c in categories && c.fields.isActive && c.id == d.fields.categoryId;
      ListedDishIsShown(dishes, categories, d, c);
    }
  }
}
