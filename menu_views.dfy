/** The menu views shared by the menu, search and menu-management pages
    (src/pages/MenuPage.tsx, src/pages/SearchDishPage.tsx,
    src/pages/ManageMenuPage.tsx): dishes grouped by category, categories in
    their `sortOrder`, and the largest `sortOrder` in use. */
module MenuViews {
  import opened Models
  import opened Sequences

  // ---- Dishes by category ----

  function CategoryKey(d: Dish): string { d.fields.categoryId }

  /** `dishesByCategory`: the `forEach`/`push` loop over the dishes. */
  method DishesByCategory(dishes: seq<Dish>) returns (grouped: map<Id, seq<Dish>>)
    ensures grouped == GroupBy(dishes, CategoryKey)
  {
    grouped := GroupItems(dishes, CategoryKey);
  }

  /** Every dish is in the group of its category and only there, the groups
      keep the dishes' order, and only categories that some dish uses have a group. */
  lemma {:induction false} DishesByCategoryPartition(dishes: seq<Dish>, categoryId: Id)
    ensures categoryId in GroupBy(dishes, CategoryKey) <==> exists j :: 0 <= j < |dishes| && dishes[j].fields.categoryId == categoryId
    ensures categoryId in GroupBy(dishes, CategoryKey) ==>
      var g := GroupBy(dishes, CategoryKey)[categoryId];
      && (forall d :: d in g <==> d in dishes && d.fields.categoryId == categoryId)
      && SubsequenceOf(g, dishes)
  {
    GroupByIsPartition(dishes, CategoryKey, categoryId);
    FilterIsSubsequence(dishes, KeyIs(CategoryKey, categoryId));
  }

  /** `dishesByCategory[id] || []`: the dishes of one category, in order. */
  function DishesOf(grouped: map<Id, seq<Dish>>, categoryId: Id): seq<Dish>
  {
    if categoryId in grouped then grouped[categoryId] else []
  }

  // ---- Categories in order ----

  /** Nondecreasing by `sortOrder`. */
  predicate SortedByOrder(cs: seq<Category>)
  {
    forall i, j :: 0 <= i < j < |cs| ==> cs[i].fields.sortOrder <= cs[j].fields.sortOrder
  }

  /** Put `c` before the first category of the list whose `sortOrder` is not
      smaller, so it stays ahead of those with an equal one. */
  function InsertByOrder(c: Category, s: seq<Category>): (r: seq<Category>)
    ensures |r| == |s| + 1
  {
    if s == [] || c.fields.sortOrder <= s[0].fields.sortOrder then [c] + s
    else [s[0]] + InsertByOrder(c, s[1..])
  }

  /** A lower bound shared by `c` and every entry of the list bounds every entry of the insertion. */
  lemma {:induction false} InsertByOrderBounds(c: Category, s: seq<Category>, lb: int)
    requires lb <= c.fields.sortOrder
    requires forall i :: 0 <= i < |s| ==> lb <= s[i].fields.sortOrder
    ensures forall i :: 0 <= i < |s| + 1 ==> lb <= InsertByOrder(c, s)[i].fields.sortOrder
  {
    if s != [] && c.fields.sortOrder > s[0].fields.sortOrder {
      InsertByOrderBounds(c, s[1..], lb);
    }
  }

  /** A list led by an entry no later than any of a sorted rest is sorted. */
  lemma {:induction false} SortedCons(x: Category, s: seq<Category>)
    requires SortedByOrder(s)
    requires forall i :: 0 <= i < |s| ==> x.fields.sortOrder <= s[i].fields.sortOrder
    ensures SortedByOrder([x] + s)
  {
    forall i, j | 0 <= i < j < |[x] + s|
      ensures ([x] + s)[i].fields.sortOrder <= ([x] + s)[j].fields.sortOrder
    {
      assert ([x] + s)[j] == s[j - 1];
      if i > 0 {
        assert ([x] + s)[i] == s[i - 1];
      }
    }
  }

  /** Inserting into a sorted list gives a sorted list. */
  lemma {:induction false} InsertByOrderSorted(c: Category, s: seq<Category>)
    requires SortedByOrder(s)
    ensures SortedByOrder(InsertByOrder(c, s))
  {
    if s == [] || c.fields.sortOrder <= s[0].fields.sortOrder {
      SortedCons(c, s);
    } else {
      var tail := s[1..];
      assert SortedByOrder(tail) by {
        forall i, j | 0 <= i < j < |tail| ensures tail[i].fields.sortOrder <= tail[j].fields.sortOrder {
          assert tail[i] == s[i + 1] && tail[j] == s[j + 1];
        }
      }
      assert forall i :: 0 <= i < |tail| ==> s[0].fields.sortOrder <= tail[i].fields.sortOrder by {
        forall i | 0 <= i < |tail| ensures s[0].fields.sortOrder <= tail[i].fields.sortOrder {
          assert tail[i] == s[i + 1];
        }
      }
      InsertByOrderSorted(c, tail);
      InsertByOrderBounds(c, tail, s[0].fields.sortOrder);
      SortedCons(s[0], InsertByOrder(c, tail));
    }
  }

  /** Inserting adds exactly one `c` to the list's contents. */
  lemma {:induction false} InsertByOrderAdds(c: Category, s: seq<Category>)
    ensures multiset(InsertByOrder(c, s)) == multiset(s) + multiset{c}
  {
    if s != [] && c.fields.sortOrder > s[0].fields.sortOrder {
      InsertByOrderAdds(c, s[1..]);
      assert s == [s[0]] + s[1..];
    }
  }

  /** `[...cs].sort((a, b) => a.sortOrder - b.sortOrder)`, a stable sort. */
  function SortByOrder(cs: seq<Category>): (r: seq<Category>)
    ensures SortedByOrder(r)
    ensures multiset(r) == multiset(cs)
    ensures |r| == |cs|
  {
    if cs == [] then []
    else
      assert cs == [cs[0]] + cs[1..];
      InsertByOrderSorted(cs[0], SortByOrder(cs[1..]));
      InsertByOrderAdds(cs[0], SortByOrder(cs[1..]));
      InsertByOrder(cs[0], SortByOrder(cs[1..]))
  }

  function OrderIs(k: int): Category -> bool { (c: Category) => c.fields.sortOrder == k }

  /** Inserting puts `c` ahead of every category with the same `sortOrder`. */
  lemma {:induction false} InsertKeepsTies(c: Category, s: seq<Category>, k: int)
    ensures Filter(InsertByOrder(c, s), OrderIs(k)) == (if c.fields.sortOrder == k then [c] else []) + Filter(s, OrderIs(k))
  {
    var p := OrderIs(k);
    assert p(c) == (c.fields.sortOrder == k);
    if s == [] || c.fields.sortOrder <= s[0].fields.sortOrder {
      assert InsertByOrder(c, s) == [c] + s;
      FilterCons(c, s, p);
    } else {
      InsertKeepsTies(c, s[1..], k);
      InsertPastHeadKeepsTies(c, s, k);
    }
  }

  /** The step of `InsertKeepsTies` where `c` goes past the head of the list. */
  lemma {:induction false} InsertPastHeadKeepsTies(c: Category, s: seq<Category>, k: int)
    requires s != [] && c.fields.sortOrder > s[0].fields.sortOrder
    requires Filter(InsertByOrder(c, s[1..]), OrderIs(k)) ==
      (if c.fields.sortOrder == k then [c] else []) + Filter(s[1..], OrderIs(k))
    ensures Filter(InsertByOrder(c, s), OrderIs(k)) == (if c.fields.sortOrder == k then [c] else []) + Filter(s, OrderIs(k))
  {
    var p := OrderIs(k);
    assert p(c) == (c.fields.sortOrder == k);
    var tail := s[1..];
    var rest := InsertByOrder(c, tail);
    assert InsertByOrder(c, s) == [s[0]] + rest;
    FilterCons(s[0], rest, p);
    assert s == [s[0]] + tail;
    FilterCons(s[0], tail, p);
    if p(c) {
      // s[0] sorts strictly before c, so it is not a tie
      assert !p(s[0]);
      assert Filter(s, p) == Filter(tail, p);
      assert Filter(InsertByOrder(c, s), p) == Filter(rest, p);
    } else {
      assert Filter(rest, p) == Filter(tail, p);
    }
  }

  /** The sort is stable: categories with the same `sortOrder` keep their relative order. */
  lemma {:induction false} SortByOrderIsStable(cs: seq<Category>, k: int)
    ensures Filter(SortByOrder(cs), OrderIs(k)) == Filter(cs, OrderIs(k))
  {
    if cs != [] {
      SortByOrderIsStable(cs[1..], k);
      InsertKeepsTies(cs[0], SortByOrder(cs[1..]), k);
    }
  }

  function IsActiveCategory(c: Category): bool { c.fields.isActive }

  /** `categories.filter(cat => cat.isActive).sort(...)`: exactly the active
      categories, each as often as it is listed, in `sortOrder`. */
  function ActiveSorted(categories: seq<Category>): (r: seq<Category>)
    ensures SortedByOrder(r)
    ensures forall c :: c in r <==> c in categories && c.fields.isActive
    ensures multiset(r) == multiset(Filter(categories, IsActiveCategory))
  {
    var active := Filter(categories, IsActiveCategory);
    var r := SortByOrder(active);
    assert forall c :: c in r <==> c in multiset(r);
    assert forall c :: c in active <==> c in multiset(active);
    r
  }

  // ---- The largest sortOrder ----

  /** `Math.max(...categories.map(c => c.sortOrder), 0)`. */
  function MaxSortOrder(categories: seq<Category>): (m: int)
    ensures m >= 0
    ensures forall i :: 0 <= i < |categories| ==> categories[i].fields.sortOrder <= m
    ensures m == 0 || exists i :: 0 <= i < |categories| && categories[i].fields.sortOrder == m
  {
    if categories == [] then 0
    else
      var rest := MaxSortOrder(categories[1..]);
      assert forall i :: 1 <= i < |categories| ==> categories[i] == categories[1..][i - 1];
      if categories[0].fields.sortOrder > rest then categories[0].fields.sortOrder
      else
        assert rest != 0 ==> exists i :: 1 <= i < |categories| && categories[i].fields.sortOrder == rest by {
          if rest != 0 {
            var i :| 0 <= i < |categories[1..]| && categories[1..][i].fields.sortOrder == rest;
            assert categories[i + 1].fields.sortOrder == rest;
          }
        }
        rest
  }
}
