/** Menu management (src/pages/ManageMenuPage.tsx): saving a dish or a
    category from its form, deleting a category, and putting a dish on or
    off the stop list. The page's lists are passed in; fresh ids and the clock
    are parameters. */
module ManageMenuPage {
  import opened Wrappers
  import opened Models
  import opened Sequences
  import opened Text
  import opened StorageService
  import opened Repositories
  import opened MenuViews

  /** `s.trim() || undefined`. */
  function OptionalText(s: string): (r: Option<string>)
    ensures r.None? <==> Trim(s) == ""
    ensures r.Some? ==> r.value == Trim(s)
  {
    if Trim(s) == "" then None else Some(Trim(s))
  }

  // ---- Dishes ----

  /** The price field as `parseFloat` sees it: empty, not a number, or a number. */
  datatype PriceInput = Blank | NotANumber | Amount(value: int)

  datatype DishForm = DishForm(name: string, description: string, price: PriceInput, categoryId: Id)

  datatype DishError = MissingFields | BadPrice

  /** What a valid dish form contributes to the stored dish. */
  datatype DishInput = DishInput(name: string, description: Option<string>, price: int, categoryId: Id)

  /** The checks of `handleSaveDish`: a blank name, an empty price field or no
      category first; then a price that is not a number or not above zero. */
  function ValidateDish(form: DishForm): (r: Result<DishInput, DishError>)
    ensures r == Failure(MissingFields) <==> Trim(form.name) == "" || form.price.Blank? || form.categoryId == ""
    ensures r == Failure(BadPrice) <==>
      Trim(form.name) != "" && form.categoryId != "" &&
      (form.price.NotANumber? || (form.price.Amount? && form.price.value <= 0))
    ensures r.Success? ==>
      && r.value.name == Trim(form.name) && r.value.name != ""
      && r.value.price > 0 && form.price == Amount(r.value.price)
      && r.value.categoryId == form.categoryId
      && r.value.description == OptionalText(form.description)
  {
    if Trim(form.name) == "" || form.price.Blank? || form.categoryId == "" then Failure(MissingFields)
    else if form.price.NotANumber? || form.price.value <= 0 then Failure(BadPrice)
    else Success(DishInput(Trim(form.name), OptionalText(form.description), form.price.value, form.categoryId))
  }

  /** The edited dish: the form's fields over the old record; the id, the
      availability, the creation time and the other fields stay. */
  function EditedDish(d: Dish, input: DishInput, now: Timestamp): (r: Dish)
    ensures r.id == d.id && r.createdAt == d.createdAt && r.updatedAt == now
    ensures r.fields.isAvailable == d.fields.isAvailable && r.fields.imageUrl == d.fields.imageUrl
    ensures r.fields.name == input.name && r.fields.description == input.description
    ensures r.fields.price == input.price && r.fields.categoryId == input.categoryId
  {
    d.(fields := d.fields.(name := input.name, description := input.description, price := input.price,
                           categoryId := input.categoryId),
       updatedAt := now)
  }

  /** The added dish: available, with the form's fields. */
  function NewDish(input: DishInput, freshId: Id, now: Timestamp): (r: Dish)
    ensures r.id == freshId && r.fields.isAvailable && r.createdAt == now && r.updatedAt == now
    ensures r.fields.name == input.name && r.fields.description == input.description
    ensures r.fields.price == input.price && r.fields.categoryId == input.categoryId
  {
    Entity(freshId, DishFields(input.name, input.description, input.price, input.categoryId, None, true, None, None), now, now)
  }

  /** `handleSaveDish`: a refused form writes nothing and leaves the list on
      screen; otherwise the edited dish replaces the stored one, or the new
      dish is appended, and the list is read back. */
  method HandleSaveDish(dishes: Repository<DishFields>, editing: Option<Dish>, form: DishForm,
                        shown: seq<Dish>, freshId: Id, now: Timestamp)
    returns (result: Result<Dish, DishError>, next: seq<Dish>)
    requires dishes.Valid()
    modifies dishes, dishes.store
    ensures dishes.Valid()
    ensures AgreeOutside(old(dishes.store.items), dishes.store.items, {dishes.key})
    ensures ValidateDish(form).Failure? ==>
      result == Failure(ValidateDish(form).error) && next == shown && dishes.store.items == old(dishes.store.items)
    ensures ValidateDish(form).Success? ==>
      result == Success(if editing.Some? then EditedDish(editing.value, ValidateDish(form).value, now)
                        else NewDish(ValidateDish(form).value, freshId, now))
    ensures result.Success? && (dishes.store.writable || old(dishes.Seeding())) ==>
      next == if editing.Some? then Updated(old(dishes.View()), result.value, now) else old(dishes.View()) + [result.value]
  {
    var checked := ValidateDish(form);
    if checked.Failure? {
      return Failure(checked.error), shown;
    }
    if editing.Some? {
      var updated := EditedDish(editing.value, checked.value, now);
      dishes.Update(updated, now);
      result := Success(updated);
    } else {
      var added := NewDish(checked.value, freshId, now);
      dishes.Add(added);
      result := Success(added);
    }
    next := dishes.GetAll();
  }

  /** The stop-list toggle: only the availability flips (and the stamp). */
  function Toggled(d: Dish, now: Timestamp): (r: Dish)
    ensures r.id == d.id && r.createdAt == d.createdAt && r.updatedAt == now
    ensures r.fields == d.fields.(isAvailable := !d.fields.isAvailable)
  {
    d.(fields := d.fields.(isAvailable := !d.fields.isAvailable), updatedAt := now)
  }

  /** Toggling twice gives back the dish, with only the later stamp changed. */
  lemma {:induction false} ToggleTwice(d: Dish, t1: Timestamp, t2: Timestamp)
    ensures Toggled(Toggled(d, t1), t2) == d.(updatedAt := t2)
  {
  }

  /** The stop-list button: the toggled dish replaces the stored one and the list is read back. */
  method ToggleAvailability(dishes: Repository<DishFields>, d: Dish, now: Timestamp) returns (next: seq<Dish>)
    requires dishes.Valid()
    modifies dishes, dishes.store
    ensures dishes.Valid()
    ensures AgreeOutside(old(dishes.store.items), dishes.store.items, {dishes.key})
    ensures dishes.store.writable || old(dishes.Seeding()) ==> next == Updated(old(dishes.View()), Toggled(d, now), now)
  {
    dishes.Update(Toggled(d, now), now);
    next := dishes.GetAll();
  }

  // ---- Categories ----

  datatype CategoryForm = CategoryForm(name: string, description: string, icon: string)

  datatype CategoryError = EmptyName

  /** The edited category: the form's name, description and icon; the order and activity stay. */
  function EditedCategory(c: Category, form: CategoryForm, now: Timestamp): (r: Category)
    ensures r.id == c.id && r.createdAt == c.createdAt && r.updatedAt == now
    ensures r.fields.sortOrder == c.fields.sortOrder && r.fields.isActive == c.fields.isActive
    ensures r.fields.name == Trim(form.name)
    ensures r.fields.description == OptionalText(form.description) && r.fields.icon == OptionalText(form.icon)
  {
    c.(fields := c.fields.(name := Trim(form.name), description := OptionalText(form.description),
                           icon := OptionalText(form.icon)),
       updatedAt := now)
  }

  /** The added category: active, and ordered after every category on the page. */
  function NewCategory(form: CategoryForm, categories: seq<Category>, freshId: Id, now: Timestamp): (r: Category)
    ensures r.id == freshId && r.fields.isActive && r.fields.name == Trim(form.name)
    ensures r.fields.sortOrder == MaxSortOrder(categories) + 1
    ensures r.fields.sortOrder >= 1
    ensures forall i :: 0 <= i < |categories| ==> categories[i].fields.sortOrder < r.fields.sortOrder
  {
    Entity(freshId,
      CategoryFields(Trim(form.name), OptionalText(form.description), MaxSortOrder(categories) + 1,
                     OptionalText(form.icon), true),
      now, now)
  }

  /** Inserting ahead of a last entry that sorts after `c` inserts before it. */
  lemma {:induction false} InsertBeforeLast(c: Category, s: seq<Category>, x: Category)
    requires c.fields.sortOrder < x.fields.sortOrder
    ensures InsertByOrder(c, s + [x]) == InsertByOrder(c, s) + [x]
  {
    if s == [] {
      assert s + [x] == [x];
    } else {
      assert (s + [x])[0] == s[0] && (s + [x])[1..] == s[1..] + [x];
      if c.fields.sortOrder > s[0].fields.sortOrder {
        InsertBeforeLast(c, s[1..], x);
      }
    }
  }

  /** A category ordered after all others comes last in the sorted list. */
  lemma {:induction false} SortAppendLast(cs: seq<Category>, x: Category)
    requires forall i :: 0 <= i < |cs| ==> cs[i].fields.sortOrder < x.fields.sortOrder
    ensures SortByOrder(cs + [x]) == SortByOrder(cs) + [x]
  {
    if cs == [] {
      assert cs + [x] == [x];
      assert SortByOrder([x]) == InsertByOrder(x, []);
    } else {
      assert (cs + [x])[0] == cs[0] && (cs + [x])[1..] == cs[1..] + [x];
      SortAppendLast(cs[1..], x);
      InsertBeforeLast(cs[0], SortByOrder(cs[1..]), x);
    }
  }

  /** A category added from the page shows last in the sorted list. */
  lemma {:induction false} NewCategorySortsLast(form: CategoryForm, categories: seq<Category>, freshId: Id, now: Timestamp)
    ensures var c := NewCategory(form, categories, freshId, now);
      SortByOrder(categories + [c]) == SortByOrder(categories) + [c]
  {
    SortAppendLast(categories, NewCategory(form, categories, freshId, now));
  }

  /** `handleSaveCategory`: a blank name writes nothing; otherwise the edited
      category replaces the stored one, or the new one is appended after the
      largest `sortOrder` on the page, and the list is read back. */
  method HandleSaveCategory(categories: Repository<CategoryFields>, editing: Option<Category>, form: CategoryForm,
                            shown: seq<Category>, freshId: Id, now: Timestamp)
    returns (result: Result<Category, CategoryError>, next: seq<Category>)
    requires categories.Valid()
    modifies categories, categories.store
    ensures categories.Valid()
    ensures AgreeOutside(old(categories.store.items), categories.store.items, {categories.key})
    ensures Trim(form.name) == "" ==>
      result == Failure(EmptyName) && next == shown && categories.store.items == old(categories.store.items)
    ensures Trim(form.name) != "" ==>
      result == Success(if editing.Some? then EditedCategory(editing.value, form, now)
                        else NewCategory(form, shown, freshId, now))
    ensures result.Success? && (categories.store.writable || old(categories.Seeding())) ==>
      next == if editing.Some? then Updated(old(categories.View()), result.value, now)
              else old(categories.View()) + [result.value]
  {
    if Trim(form.name) == "" {
      return Failure(EmptyName), shown;
    }
    if editing.Some? {
      var updated := EditedCategory(editing.value, form, now);
      categories.Update(updated, now);
      result := Success(updated);
    } else {
      var added := NewCategory(form, shown, freshId, now);
      categories.Add(added);
      result := Success(added);
    }
    next := categories.GetAll();
  }

  /** `handleDeleteCategory`: refused while a dish on the page is in the
      category; otherwise the category is deleted and the list read back. */
  method HandleDeleteCategory(categories: Repository<CategoryFields>, dishes: seq<Dish>, categoryId: Id,
                              shown: seq<Category>) returns (deleted: bool, next: seq<Category>)
    requires categories.Valid()
    modifies categories.store
    ensures deleted <==> forall j :: 0 <= j < |dishes| ==> dishes[j].fields.categoryId != categoryId
    ensures !deleted ==> next == shown && categories.store.items == old(categories.store.items)
    ensures deleted ==> AgreeOutside(old(categories.store.items), categories.store.items, {categories.key})
    ensures deleted && !categories.store.writable ==>
      next == old(categories.View()) && categories.store.items == old(categories.store.items)
    ensures deleted && categories.store.writable ==>
      next == if WithoutId(old(categories.View()), categoryId) == [] && categories.seed.Some? then categories.seed.value
              else WithoutId(old(categories.View()), categoryId)
  {
    var inCategory := Filter(dishes, InCategory(categoryId));
    if |inCategory| > 0 {
      assert inCategory[0] in dishes;
      return false, shown;
    }
    forall j | 0 <= j < |dishes| ensures dishes[j].fields.categoryId != categoryId {
      assert dishes[j] in dishes;
    }
    categories.Delete(categoryId);
    deleted := true;
    next := categories.GetAll();
  }
}
