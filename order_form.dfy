/** The order form (src/components/OrderForm.tsx): editing the line items of a
    new or existing order and building the record handed to `onSave`. Every
    handler computes a new state from the old one; the item id generator and
    the clock are parameters. */
module OrderForm {
  import opened Wrappers
  import opened Models
  import opened Sequences
  import opened Text
  import opened Repositories

  /** The form's state. An empty id means "nothing chosen", as in the source's `<select>`. */
  datatype FormState = FormState(
    selectedTableId: string,
    selectedVipCabinId: string,
    items: seq<OrderItem>,
    notes: string,
    status: OrderStatus)

  /** JavaScript's `a || b` on an optional text: an absent or empty `a` falls through. */
  function OrElse(a: Option<string>, b: string): (r: string)
    ensures r == b || (a.Some? && r == a.value && a.value != "")
    ensures a.Some? && a.value != "" ==> r == a.value
    ensures a.None? || a.value == "" ==> r == b
  {
    if a.Some? && a.value != "" then a.value else b
  }

  /** The state the form opens with, from the order being edited (if any) and the preselected place. */
  function InitialState(order: Option<FormOrder>, initialTableId: Option<Id>, initialVipCabinId: Option<Id>): (r: FormState)
    ensures order.Some? ==> r.items == order.value.fields.items && r.status == order.value.fields.status
    ensures order.None? ==> r.items == [] && r.status == OrderStatus.New && r.notes == ""
    ensures order.None? ==> r.selectedTableId == OrElse(initialTableId, "") && r.selectedVipCabinId == OrElse(initialVipCabinId, "")
    ensures order.Some? && order.value.fields.tableId.Some? && order.value.fields.tableId.value != "" ==>
      r.selectedTableId == order.value.fields.tableId.value
    ensures order.Some? && (order.value.fields.tableId.None? || order.value.fields.tableId.value == "") ==>
      r.selectedTableId == OrElse(initialTableId, "")
    ensures order.Some? && order.value.fields.vipCabinId.Some? && order.value.fields.vipCabinId.value != "" ==>
      r.selectedVipCabinId == order.value.fields.vipCabinId.value
    ensures order.Some? && (order.value.fields.vipCabinId.None? || order.value.fields.vipCabinId.value == "") ==>
      r.selectedVipCabinId == OrElse(initialVipCabinId, "")
    ensures order.Some? ==> r.notes == (if order.value.fields.notes.Some? then order.value.fields.notes.value else "")
  {
    var tableId := if order.Some? then order.value.fields.tableId else None;
    var cabinId := if order.Some? then order.value.fields.vipCabinId else None;
    FormState(
      OrElse(tableId, OrElse(initialTableId, "")),
      OrElse(cabinId, OrElse(initialVipCabinId, "")),
      if order.Some? then order.value.fields.items else [],
      OrElse(if order.Some? then order.value.fields.notes else None, ""),
      if order.Some? then order.value.fields.status else OrderStatus.New)
  }

  /** At most one of a table and a cabin is chosen. */
  predicate AtMostOnePlace(s: FormState)
  {
    s.selectedTableId == "" || s.selectedVipCabinId == ""
  }

  /** Choosing a table in its `<select>` clears the cabin. */
  function SelectTable(s: FormState, tableId: string): (r: FormState)
    ensures AtMostOnePlace(r) && r.selectedTableId == tableId
    ensures r.items == s.items && r.notes == s.notes && r.status == s.status
  {
    s.(selectedTableId := tableId, selectedVipCabinId := "")
  }

  /** Choosing a cabin in its `<select>` clears the table. */
  function SelectCabin(s: FormState, cabinId: string): (r: FormState)
    ensures AtMostOnePlace(r) && r.selectedVipCabinId == cabinId
    ensures r.items == s.items && r.notes == s.notes && r.status == s.status
  {
    s.(selectedVipCabinId := cabinId, selectedTableId := "")
  }

  // ---- The dish picker ----

  /** The picker's test: the dish is not marked unavailable and, unless the
      query is empty, its lower-cased name contains the lower-cased query. */
  function Offered(query: string): Dish -> bool
  {
    (d: Dish) => d.fields.isAvailable && (query == "" || Contains(Lower(d.fields.name), Lower(query)))
  }

  /** `availableDishes`. */
  function AvailableDishes(dishes: seq<Dish>, query: string): (r: seq<Dish>)
    ensures forall d :: d in r <==> d in dishes && d.fields.isAvailable &&
                                    (query == "" || Contains(Lower(d.fields.name), Lower(query)))
    ensures SubsequenceOf(r, dishes)
    ensures query == "" ==> r == Filter(dishes, IsAvailable)
  {
    FilterIsSubsequence(dishes, Offered(query));
    if query == "" then
      FilterCongruent(dishes, Offered(query), IsAvailable);
      Filter(dishes, Offered(query))
    else
      Filter(dishes, Offered(query))
  }

  // ---- The line items ----

  function DishIs(dishId: Id): OrderItem -> bool { (it: OrderItem) => it.dishId == dishId }
  function ItemIsNot(itemId: Id): OrderItem -> bool { (it: OrderItem) => it.id != itemId }

  /** Item ids and dish ids are each unique, and every quantity is at least one. */
  predicate ValidItems(items: seq<OrderItem>)
  {
    && (forall i, j :: 0 <= i < j < |items| ==> items[i].id != items[j].id && items[i].dishId != items[j].dishId)
    && (forall i :: 0 <= i < |items| ==> items[i].quantity >= 1)
  }

  function ItemTotal(it: OrderItem): int { it.price * it.quantity }

  /** `totalAmount`: the sum of price × quantity over the items. */
  function TotalAmount(items: seq<OrderItem>): (r: int)
    ensures items == [] ==> r == 0
    ensures |items| == 1 ==> r == items[0].price * items[0].quantity
    ensures (forall i :: 0 <= i < |items| ==> items[i].price >= 0 && items[i].quantity >= 0) ==> r >= 0
  {
    assert |items| == 1 ==> Sum(items, ItemTotal) == ItemTotal(items[0]) by {
      if |items| == 1 {
        assert items[..0] == [];
        assert Sum(items, ItemTotal) == Sum(items[..0], ItemTotal) + ItemTotal(items[0]);
      }
    }
    if forall i :: 0 <= i < |items| ==> items[i].price >= 0 && items[i].quantity >= 0 then
      assert forall i :: 0 <= i < |items| ==> ItemTotal(items[i]) >= 0;
      SumNonNegative(items, ItemTotal);
      Sum(items, ItemTotal)
    else
      Sum(items, ItemTotal)
  }

  function ItemQuantity(itemId: Id): OrderItem -> int
  {
    (it: OrderItem) => if it.id == itemId then it.quantity else 0
  }

  /** How many portions the item with this id holds (0 when there is none). */
  function QuantityOfItem(items: seq<OrderItem>, itemId: Id): int
  {
    Sum(items, ItemQuantity(itemId))
  }

  /** `handleAddDish`: one more portion on the item already holding the dish
      (found by its item id), or a new item of one portion with a fresh id. */
  function AddDish(items: seq<OrderItem>, dish: Dish, freshId: Id, now: Timestamp): (r: seq<OrderItem>)
    ensures FindWhere(items, DishIs(dish.id)).Some? ==> |r| == |items|
    ensures FindWhere(items, DishIs(dish.id)).None? ==>
      r == items + [OrderItem(freshId, dish.id, dish.fields.name, dish.fields.price, 1, None, now)]
    ensures forall i :: 0 <= i < |items| ==> r[i] == items[i] || r[i] == items[i].(quantity := items[i].quantity + 1)
  {
    match FindWhere(items, DishIs(dish.id))
    case Some(existing) =>
      seq(|items|, k requires 0 <= k < |items| =>
        if items[k].id == existing.id then items[k].(quantity := items[k].quantity + 1) else items[k])
    case None =>
      items + [OrderItem(freshId, dish.id, dish.fields.name, dish.fields.price, 1, None, now)]
  }

  /** With valid items, the merge bumps exactly the position holding the dish. */
  lemma {:induction false} AddDishAsUpdate(items: seq<OrderItem>, dish: Dish, freshId: Id, now: Timestamp) returns (i: nat)
    requires ValidItems(items) && FindWhere(items, DishIs(dish.id)).Some?
    ensures i < |items| && items[i].dishId == dish.id
    ensures AddDish(items, dish, freshId, now) == items[i := items[i].(quantity := items[i].quantity + 1)]
  {
    i := IndexWhere(items, DishIs(dish.id));
  }

  /** Adding a dish keeps the items valid, given an item id not yet in use. */
  lemma {:induction false} AddDishKeepsValid(items: seq<OrderItem>, dish: Dish, freshId: Id, now: Timestamp)
    requires ValidItems(items)
    requires forall i :: 0 <= i < |items| ==> items[i].id != freshId
    ensures ValidItems(AddDish(items, dish, freshId, now))
  {
    if FindWhere(items, DishIs(dish.id)).Some? {
      var i := AddDishAsUpdate(items, dish, freshId, now);
    }
  }

  /** Adding a dish raises the total by one portion of the matching item, or by the dish's price. */
  lemma {:induction false} AddDishTotal(items: seq<OrderItem>, dish: Dish, freshId: Id, now: Timestamp)
    requires ValidItems(items)
    ensures TotalAmount(AddDish(items, dish, freshId, now)) == TotalAmount(items) +
      if FindWhere(items, DishIs(dish.id)).Some? then FindWhere(items, DishIs(dish.id)).value.price else dish.fields.price
  {
    if FindWhere(items, DishIs(dish.id)).Some? {
      var i := AddDishAsUpdate(items, dish, freshId, now);
      assert FindWhere(items, DishIs(dish.id)).value == items[i];
      var bumped := items[i].(quantity := items[i].quantity + 1);
      assert ItemTotal(bumped) == ItemTotal(items[i]) + items[i].price by {
        assert items[i].price * (items[i].quantity + 1) == items[i].price * items[i].quantity + items[i].price;
      }
      SumUpdate(items, i, bumped, ItemTotal);
    } else {
      var item := OrderItem(freshId, dish.id, dish.fields.name, dish.fields.price, 1, None, now);
      SumAppend(items, [item], ItemTotal);
      assert Sum([item], ItemTotal) == dish.fields.price;
    }
  }

  /** `handleQuantityChange`: the item's quantity moves by `delta`, and an item
      that reaches 0 or less is dropped; the other items stay, in order. */
  function QuantityChange(items: seq<OrderItem>, itemId: Id, delta: int): (r: seq<OrderItem>)
    ensures |r| <= |items|
  {
    if items == [] then []
    else
      var rest := QuantityChange(items[1..], itemId, delta);
      var it := items[0];
      if it.id != itemId then [it] + rest
      else if it.quantity + delta <= 0 then rest
      else [it.(quantity := it.quantity + delta)] + rest
  }

  /** A quantity change leaves the items with other ids exactly as they were, in order. */
  lemma {:induction false} QuantityChangeOthers(items: seq<OrderItem>, itemId: Id, delta: int)
    ensures Filter(QuantityChange(items, itemId, delta), ItemIsNot(itemId)) == Filter(items, ItemIsNot(itemId))
  {
    if items != [] {
      QuantityChangeOthers(items[1..], itemId, delta);
      var it := items[0];
      var rest := QuantityChange(items[1..], itemId, delta);
      if it.id != itemId {
        assert ([it] + rest)[1..] == rest;
      } else if it.quantity + delta > 0 {
        assert ([it.(quantity := it.quantity + delta)] + rest)[1..] == rest;
      }
    }
  }

  /** Without an item of that id, a quantity change does nothing. */
  lemma {:induction false} QuantityChangeAbsent(items: seq<OrderItem>, itemId: Id, delta: int)
    requires forall i :: 0 <= i < |items| ==> items[i].id != itemId
    ensures QuantityChange(items, itemId, delta) == items
  {
    if items != [] {
      QuantityChangeAbsent(items[1..], itemId, delta);
      assert [items[0]] + items[1..] == items;
    }
  }

  /** Some item carries this id. */
  predicate HasItem(items: seq<OrderItem>, itemId: Id)
  {
    exists i :: 0 <= i < |items| && items[i].id == itemId
  }

  /** With a unique item of that id, the change leaves it with old + delta
      portions, or removes it (0 portions) when that is 0 or less. */
  lemma {:induction false} QuantityChangeCounts(items: seq<OrderItem>, itemId: Id, delta: int)
    requires forall i, j :: 0 <= i < j < |items| ==> items[i].id != items[j].id
    ensures var q := QuantityOfItem(items, itemId);
      QuantityOfItem(QuantityChange(items, itemId, delta), itemId) ==
        if HasItem(items, itemId) && q + delta > 0 then q + delta else 0
  {
    if items == [] {
    } else if items[0].id == itemId {
      HeadAbsentFromTail(items);
      assert [items[0]] + items[1..] == items;
      QuantityChangeAtHead(items[0], items[1..], delta);
    } else {
      var it, tail := items[0], items[1..];
      var rest := QuantityChange(tail, itemId, delta);
      var f := ItemQuantity(itemId);
      QuantityChangeCounts(tail, itemId, delta);
      SumFirst(items, f);
      SumFirst([it] + rest, f);
      assert ([it] + rest)[1..] == rest;
      HasItemTail(items, itemId);
    }
  }

  /** Past a head with another id, the id is present iff it is in the tail. */
  lemma {:induction false} HasItemTail(items: seq<OrderItem>, itemId: Id)
    requires items != [] && items[0].id != itemId
    ensures HasItem(items, itemId) == HasItem(items[1..], itemId)
  {
    if HasItem(items, itemId) {
      var i :| 0 <= i < |items| && items[i].id == itemId;
      assert items[1..][i - 1].id == itemId;
    }
    if HasItem(items[1..], itemId) {
      var i :| 0 <= i < |items[1..]| && items[1..][i].id == itemId;
      assert items[i + 1].id == itemId;
    }
  }

  /** With unique ids, the head's id does not recur in the tail. */
  lemma {:induction false} HeadAbsentFromTail(items: seq<OrderItem>)
    requires items != []
    requires forall i, j :: 0 <= i < j < |items| ==> items[i].id != items[j].id
    ensures forall i :: 0 <= i < |items[1..]| ==> items[1..][i].id != items[0].id
  {
    forall i | 0 <= i < |items[1..]| ensures items[1..][i].id != items[0].id {
      assert items[1..][i] == items[i + 1];
    }
  }

  lemma {:induction false} QuantityChangeAtHead(it: OrderItem, tail: seq<OrderItem>, delta: int)
    requires forall i :: 0 <= i < |tail| ==> tail[i].id != it.id
    ensures var q := QuantityOfItem([it] + tail, it.id);
      QuantityOfItem(QuantityChange([it] + tail, it.id, delta), it.id) == if q + delta > 0 then q + delta else 0
  {
    var items := [it] + tail;
    var f := ItemQuantity(it.id);
    assert items[0] == it && items[1..] == tail;
    QuantityChangeAbsent(tail, it.id, delta);
    ZeroQuantityOf(tail, it.id);
    SumFirst(items, f);
    assert QuantityOfItem(items, it.id) == it.quantity;
    if it.quantity + delta > 0 {
      var bumped := [it.(quantity := it.quantity + delta)] + tail;
      assert QuantityChange(items, it.id, delta) == bumped;
      assert bumped[0] == it.(quantity := it.quantity + delta) && bumped[1..] == tail;
      SumFirst(bumped, f);
    } else {
      assert QuantityChange(items, it.id, delta) == tail;
    }
  }

  /** The sum folds from the left, but also splits off its first term. */
  lemma {:induction false} SumFirst<T>(xs: seq<T>, f: T -> int)
    requires xs != []
    ensures Sum(xs, f) == f(xs[0]) + Sum(xs[1..], f)
  {
    assert xs == [xs[0]] + xs[1..];
    SumAppend([xs[0]], xs[1..], f);
  }

  lemma {:induction false} ZeroQuantityOf(items: seq<OrderItem>, itemId: Id)
    requires forall i :: 0 <= i < |items| ==> items[i].id != itemId
    ensures QuantityOfItem(items, itemId) == 0
  {
    SumZero(items, ItemQuantity(itemId));
  }

  /** Item ids are pairwise distinct. */
  predicate UniqueIds(items: seq<OrderItem>)
  {
    forall a, b :: 0 <= a < b < |items| ==> items[a].id != items[b].id
  }

  /** With unique item ids, the change is a point edit of the item's position:
      its quantity moves by `delta` and every other field stays, or, when that
      reaches 0 or less, the item is cut out and the rest keep their order. */
  lemma {:induction false} QuantityChangeAt(items: seq<OrderItem>, itemId: Id, delta: int, i: nat)
    requires UniqueIds(items)
    requires i < |items| && items[i].id == itemId
    ensures items[i].quantity + delta > 0 ==>
      QuantityChange(items, itemId, delta) == items[i := items[i].(quantity := items[i].quantity + delta)]
    ensures items[i].quantity + delta <= 0 ==>
      QuantityChange(items, itemId, delta) == items[..i] + items[i + 1..]
  {
    if i == 0 {
      QuantityChangeAtFirst(items, itemId, delta);
    } else {
      var tail := items[1..];
      assert UniqueIds(tail) by {
        forall a, b | 0 <= a < b < |tail| ensures tail[a].id != tail[b].id {
          assert tail[a] == items[a + 1] && tail[b] == items[b + 1];
        }
      }
      QuantityChangeAt(tail, itemId, delta, i - 1);
      QuantityChangePastHead(items, itemId, delta, i);
    }
  }

  /** The case of `QuantityChangeAt` where the item comes first. */
  lemma {:induction false} QuantityChangeAtFirst(items: seq<OrderItem>, itemId: Id, delta: int)
    requires UniqueIds(items)
    requires items != [] && items[0].id == itemId
    ensures items[0].quantity + delta > 0 ==>
      QuantityChange(items, itemId, delta) == items[0 := items[0].(quantity := items[0].quantity + delta)]
    ensures items[0].quantity + delta <= 0 ==>
      QuantityChange(items, itemId, delta) == items[1..]
  {
    var tail := items[1..];
    HeadAbsentFromTail(items);
    QuantityChangeAbsent(tail, itemId, delta);
    assert items[0 := items[0].(quantity := items[0].quantity + delta)] == [items[0].(quantity := items[0].quantity + delta)] + tail;
  }

  /** The step of `QuantityChangeAt` past a head with another id, given the tail's case. */
  lemma {:induction false} QuantityChangePastHead(items: seq<OrderItem>, itemId: Id, delta: int, i: nat)
    requires UniqueIds(items)
    requires 0 < i < |items| && items[i].id == itemId
    requires var tail := items[1..];
      && (items[i].quantity + delta > 0 ==>
            QuantityChange(tail, itemId, delta) == tail[i - 1 := items[i].(quantity := items[i].quantity + delta)])
      && (items[i].quantity + delta <= 0 ==>
            QuantityChange(tail, itemId, delta) == tail[..i - 1] + tail[i..])
    ensures items[i].quantity + delta > 0 ==>
      QuantityChange(items, itemId, delta) == items[i := items[i].(quantity := items[i].quantity + delta)]
    ensures items[i].quantity + delta <= 0 ==>
      QuantityChange(items, itemId, delta) == items[..i] + items[i + 1..]
  {
    var tail := items[1..];
    assert items[0].id != itemId;
    var rest := QuantityChange(tail, itemId, delta);
    assert QuantityChange(items, itemId, delta) == [items[0]] + rest;
    if items[i].quantity + delta > 0 {
      assert [items[0]] + tail[i - 1 := items[i].(quantity := items[i].quantity + delta)] ==
        items[i := items[i].(quantity := items[i].quantity + delta)];
    } else {
      assert [items[0]] + (tail[..i - 1] + tail[i..]) == items[..i] + items[i + 1..];
    }
  }

  /** Cutting one position out of valid items leaves them valid. */
  lemma {:induction false} CutKeepsValid(items: seq<OrderItem>, i: nat)
    requires ValidItems(items) && i < |items|
    ensures ValidItems(items[..i] + items[i + 1..])
  {
    var r := items[..i] + items[i + 1..];
    assert forall a :: 0 <= a < |r| ==> r[a] == items[if a < i then a else a + 1];
  }

  /** A quantity change keeps the items valid: ids and dishes unique, every quantity at least one. */
  lemma {:induction false} QuantityChangeKeepsValid(items: seq<OrderItem>, itemId: Id, delta: int)
    requires ValidItems(items)
    ensures ValidItems(QuantityChange(items, itemId, delta))
  {
    assert UniqueIds(items);
    if HasItem(items, itemId) {
      var i :| 0 <= i < |items| && items[i].id == itemId;
      QuantityChangeAt(items, itemId, delta, i);
      if items[i].quantity + delta <= 0 {
        CutKeepsValid(items, i);
      }
    } else {
      QuantityChangeAbsent(items, itemId, delta);
    }
  }

  /** The total after a quantity change: `delta` more portions of the item, or
      all of its portions gone when it is removed. */
  lemma {:induction false} QuantityChangeTotal(items: seq<OrderItem>, itemId: Id, delta: int, i: nat)
    requires UniqueIds(items)
    requires i < |items| && items[i].id == itemId
    ensures TotalAmount(QuantityChange(items, itemId, delta)) == TotalAmount(items) +
      if items[i].quantity + delta > 0 then items[i].price * delta else - items[i].price * items[i].quantity
  {
    QuantityChangeAt(items, itemId, delta, i);
    var r := QuantityChange(items, itemId, delta);
    if items[i].quantity + delta > 0 {
      assert r == items[i := items[i].(quantity := items[i].quantity + delta)];
      BumpTotal(items, i, delta);
    } else {
      assert r == items[..i] + items[i + 1..];
      SumCut(items, i, ItemTotal);
      assert TotalAmount(r) == TotalAmount(items) - ItemTotal(items[i]);
    }
  }

  /** Moving one item's quantity by `delta` moves the total by `delta` of its price. */
  lemma {:induction false} BumpTotal(items: seq<OrderItem>, i: nat, delta: int)
    requires i < |items|
    ensures TotalAmount(items[i := items[i].(quantity := items[i].quantity + delta)]) == TotalAmount(items) + items[i].price * delta
  {
    var it := items[i];
    var bumped := it.(quantity := it.quantity + delta);
    assert ItemTotal(bumped) == ItemTotal(it) + it.price * delta by {
      assert it.price * (it.quantity + delta) == it.price * it.quantity + it.price * delta;
    }
    SumUpdate(items, i, bumped, ItemTotal);
  }

  /** `handleRemoveItem`: every item with that id goes, the rest stay in order. */
  function RemoveItem(items: seq<OrderItem>, itemId: Id): (r: seq<OrderItem>)
    ensures forall it :: it in r <==> it in items && it.id != itemId
    ensures SubsequenceOf(r, items)
  {
    FilterIsSubsequence(items, ItemIsNot(itemId));
    Filter(items, ItemIsNot(itemId))
  }

  /** Valid items led by an item that differs from all of them in id and dish are valid. */
  lemma {:induction false} ConsKeepsValid(x: OrderItem, s: seq<OrderItem>)
    requires ValidItems(s) && x.quantity >= 1
    requires forall k :: 0 <= k < |s| ==> s[k].id != x.id && s[k].dishId != x.dishId
    ensures ValidItems([x] + s)
  {
    var r := [x] + s;
    forall a | 1 <= a < |r| ensures r[a] == s[a - 1] { }
  }

  /** Removing an item keeps the rest valid. */
  lemma {:induction false} RemoveItemKeepsValid(items: seq<OrderItem>, itemId: Id)
    requires ValidItems(items)
    ensures ValidItems(RemoveItem(items, itemId))
  {
    if items != [] {
      var x, tail := items[0], items[1..];
      assert ValidItems(tail) by {
        forall a | 0 <= a < |tail| ensures tail[a] == items[a + 1] { }
      }
      RemoveItemKeepsValid(tail, itemId);
      assert items == [x] + tail;
      FilterCons(x, tail, ItemIsNot(itemId));
      var rest := RemoveItem(tail, itemId);
      if x.id != itemId {
        forall k | 0 <= k < |rest| ensures rest[k].id != x.id && rest[k].dishId != x.dishId {
          assert rest[k] in tail;
          var a :| 0 <= a < |tail| && tail[a] == rest[k];
          assert tail[a] == items[a + 1];
        }
        ConsKeepsValid(x, rest);
      }
    }
  }

  // ---- Saving ----

  datatype SaveError = NoPlace | NoItems

  /** `handleSave`: the record passed to `onSave`, or the reason it is refused:
      neither a table nor a cabin (checked first), then no items. An edited
      order keeps its id and creation time; a new one gets `freshId` and `now`. */
  function Save(s: FormState, order: Option<FormOrder>, tables: seq<Table>, cabins: seq<VipCabin>,
                freshId: Id, now: Timestamp): (r: Result<FormOrder, SaveError>)
    ensures r == Failure(NoPlace) <==> s.selectedTableId == "" && s.selectedVipCabinId == ""
    ensures r == Failure(NoItems) <==> (s.selectedTableId != "" || s.selectedVipCabinId != "") && s.items == []
    ensures r.Success? ==>
      && r.value.fields.items == s.items && r.value.fields.status == s.status
      && r.value.fields.totalAmount == TotalAmount(s.items)
      && r.value.updatedAt == now
      && r.value.fields.tableId == (if s.selectedTableId == "" then None else Some(s.selectedTableId))
      && r.value.fields.vipCabinId == (if s.selectedVipCabinId == "" then None else Some(s.selectedVipCabinId))
      && (r.value.fields.tableName.Some? <==> FirstWithId(tables, s.selectedTableId).Some?)
      && (r.value.fields.vipCabinName.Some? <==> FirstWithId(cabins, s.selectedVipCabinId).Some?)
      && (FirstWithId(tables, s.selectedTableId).Some? ==>
            r.value.fields.tableName == Some(FirstWithId(tables, s.selectedTableId).value.fields.name))
      && (FirstWithId(cabins, s.selectedVipCabinId).Some? ==>
            r.value.fields.vipCabinName == Some(FirstWithId(cabins, s.selectedVipCabinId).value.fields.name))
      && r.value.fields.notes == (if s.notes == "" then None else Some(s.notes))
    ensures r.Success? && order.Some? && order.value.id != "" ==> r.value.id == order.value.id
    ensures r.Success? && order.Some? && order.value.createdAt != "" ==> r.value.createdAt == order.value.createdAt
    ensures r.Success? && order.None? ==> r.value.id == freshId && r.value.createdAt == now
  {
    if s.selectedTableId == "" && s.selectedVipCabinId == "" then Failure(NoPlace)
    else if s.items == [] then Failure(NoItems)
    else
      var table := FirstWithId(tables, s.selectedTableId);
      var cabin := FirstWithId(cabins, s.selectedVipCabinId);
      Success(Entity(
        OrElse(if order.Some? then Some(order.value.id) else None, freshId),
        OrderFields(
          if s.selectedTableId == "" then None else Some(s.selectedTableId),
          if s.selectedVipCabinId == "" then None else Some(s.selectedVipCabinId),
          if table.Some? then Some(table.value.fields.name) else None,
          if cabin.Some? then Some(cabin.value.fields.name) else None,
          None,
          s.items,
          s.status,
          TotalAmount(s.items),
          if s.notes == "" then None else Some(s.notes)),
        OrElse(if order.Some? then Some(order.value.createdAt) else None, now),
        now))
  }
}
