/** The orders page (src/pages/OrdersPage.tsx): composing an order from
    dishes, creating it against a table or a cabin, and moving an order
    through its statuses. The page's React state is passed in and returned
    explicitly; the order id and the clock are parameters. */
module OrdersPage {
  import opened Wrappers
  import opened Models
  import opened Sequences
  import opened StorageService
  import opened Repositories

  /** The order being composed: the chosen table or cabin, its lines and its notes. */
  datatype Draft = Draft(selectedTable: Option<Table>, selectedCabin: Option<VipCabin>, items: seq<OrderLine>, notes: string)

  const EmptyDraft: Draft := Draft(None, None, [], "")

  // ---- The dish picker ----

  /** The dishes offered: the available ones, narrowed to one category unless 'all' is chosen. */
  function FilteredDishes(dishes: seq<Dish>, selectedCategory: string): (r: seq<Dish>)
    ensures forall d :: d in r <==> d in dishes && d.fields.isAvailable &&
                                    (selectedCategory == ALL || d.fields.categoryId == selectedCategory)
    ensures SubsequenceOf(r, dishes)
  {
    var available := Filter(dishes, IsAvailable);
    FilterIsSubsequence(dishes, IsAvailable);
    if selectedCategory == ALL then available
    else
      FilterIsSubsequence(available, InCategory(selectedCategory));
      SubsequenceTrans(Filter(available, InCategory(selectedCategory)), available, dishes);
      Filter(available, InCategory(selectedCategory))
  }

  // ---- Choosing where the order goes ----

  /** Choosing a table drops the cabin, the lines and the notes. */
  function SelectTable(draft: Draft, t: Table): (r: Draft)
    ensures r.selectedTable == Some(t) && r.selectedCabin.None? && r.items == [] && r.notes == ""
  {
    Draft(Some(t), None, [], "")
  }

  /** Choosing a cabin drops the table, the lines and the notes. */
  function SelectCabin(draft: Draft, c: VipCabin): (r: Draft)
    ensures r.selectedCabin == Some(c) && r.selectedTable.None? && r.items == [] && r.notes == ""
  {
    Draft(None, Some(c), [], "")
  }

  // ---- The order lines ----

  function DishIs(dishId: Id): OrderLine -> bool { (l: OrderLine) => l.dishId == dishId }
  function DishIsNot(dishId: Id): OrderLine -> bool { (l: OrderLine) => l.dishId != dishId }

  /** No two lines are for the same dish. */
  predicate UniqueDishes(items: seq<OrderLine>)
  {
    forall i, j :: 0 <= i < j < |items| ==> items[i].dishId != items[j].dishId
  }

  /** Every line holds at least one portion. */
  predicate PositiveQuantities(items: seq<OrderLine>)
  {
    forall i :: 0 <= i < |items| ==> items[i].quantity >= 1
  }

  predicate ValidLines(items: seq<OrderLine>)
  {
    UniqueDishes(items) && PositiveQuantities(items)
  }

  function LineTotal(l: OrderLine): int { l.price * l.quantity }

  /** `totalPrice`: the sum of price × quantity over the lines. */
  function TotalPrice(items: seq<OrderLine>): (r: int)
    ensures items == [] ==> r == 0
    ensures |items| == 1 ==> r == items[0].price * items[0].quantity
    ensures (forall i :: 0 <= i < |items| ==> items[i].price >= 0 && items[i].quantity >= 0) ==> r >= 0
  {
    assert |items| == 1 ==> Sum(items, LineTotal) == LineTotal(items[0]) by {
      if |items| == 1 {
        assert items[..0] == [];
        assert Sum(items, LineTotal) == Sum(items[..0], LineTotal) + LineTotal(items[0]);
      }
    }
    if forall i :: 0 <= i < |items| ==> items[i].price >= 0 && items[i].quantity >= 0 then
      assert forall i :: 0 <= i < |items| ==> LineTotal(items[i]) >= 0;
      SumNonNegative(items, LineTotal);
      Sum(items, LineTotal)
    else
      Sum(items, LineTotal)
  }

  function LineQuantity(dishId: Id): OrderLine -> int
  {
    (l: OrderLine) => if l.dishId == dishId then l.quantity else 0
  }

  /** How many portions of a dish the lines hold (0 when the dish is absent). */
  function QuantityOf(items: seq<OrderLine>, dishId: Id): int
  {
    Sum(items, LineQuantity(dishId))
  }

  /** `handleAddDish`: one more portion on the dish's line, or a new line of one
      portion carrying the dish's name and price. */
  function AddDish(items: seq<OrderLine>, dish: Dish): (r: seq<OrderLine>)
    ensures |r| == if FindWhere(items, DishIs(dish.id)).Some? then |items| else |items| + 1
    ensures forall i :: 0 <= i < |items| ==> r[i].dishId == items[i].dishId && r[i].price == items[i].price
    ensures FindWhere(items, DishIs(dish.id)).None? ==>
      r == items + [OrderLine(dish.id, dish.fields.name, 1, dish.fields.price, None)]
  {
    if FindWhere(items, DishIs(dish.id)).Some? then
      seq(|items|, k requires 0 <= k < |items| =>
        if items[k].dishId == dish.id then items[k].(quantity := items[k].quantity + 1) else items[k])
    else
      items + [OrderLine(dish.id, dish.fields.name, 1, dish.fields.price, None)]
  }

  /** `handleUpdateQuantity`: a quantity of 0 or less removes the dish's line,
      any other sets it. */
  function UpdateQuantity(items: seq<OrderLine>, dishId: Id, quantity: int): (r: seq<OrderLine>)
    ensures quantity <= 0 ==> forall l :: l in r <==> l in items && l.dishId != dishId
    ensures quantity <= 0 ==> SubsequenceOf(r, items)
    ensures quantity > 0 ==> |r| == |items|
    ensures quantity > 0 ==> forall i :: 0 <= i < |items| ==>
      r[i] == if items[i].dishId == dishId then items[i].(quantity := quantity) else items[i]
  {
    if quantity <= 0 then
      FilterIsSubsequence(items, DishIsNot(dishId));
      Filter(items, DishIsNot(dishId))
    else
      seq(|items|, k requires 0 <= k < |items| =>
        if items[k].dishId == dishId then items[k].(quantity := quantity) else items[k])
  }

  /** With unique dishes, bumping the dish's line is a point update of its one position. */
  lemma {:induction false} AddDishAsUpdate(items: seq<OrderLine>, dish: Dish) returns (i: nat)
    requires UniqueDishes(items) && FindWhere(items, DishIs(dish.id)).Some?
    ensures i < |items| && items[i].dishId == dish.id
    ensures AddDish(items, dish) == items[i := items[i].(quantity := items[i].quantity + 1)]
  {
    i := IndexWhere(items, DishIs(dish.id));
  }

  /** Adding a dish keeps the dishes unique and every quantity at least one. */
  lemma {:induction false} AddDishKeepsValid(items: seq<OrderLine>, dish: Dish)
    requires ValidLines(items)
    ensures ValidLines(AddDish(items, dish))
  {
    if FindWhere(items, DishIs(dish.id)).Some? {
      var i := AddDishAsUpdate(items, dish);
    }
  }

  /** Adding a dish gives that dish exactly one more portion and no other dish any. */
  lemma {:induction false} AddDishCounts(items: seq<OrderLine>, dish: Dish, dishId: Id)
    requires UniqueDishes(items)
    ensures QuantityOf(AddDish(items, dish), dishId) == QuantityOf(items, dishId) + if dishId == dish.id then 1 else 0
  {
    if FindWhere(items, DishIs(dish.id)).Some? {
      var i := AddDishAsUpdate(items, dish);
      SumUpdate(items, i, items[i].(quantity := items[i].quantity + 1), LineQuantity(dishId));
    } else {
      SumAppend(items, [OrderLine(dish.id, dish.fields.name, 1, dish.fields.price, None)], LineQuantity(dishId));
      assert Sum([OrderLine(dish.id, dish.fields.name, 1, dish.fields.price, None)], LineQuantity(dishId))
          == if dishId == dish.id then 1 else 0;
    }
  }

  /** Adding a dish raises the total by exactly one portion's price. */
  lemma {:induction false} AddDishTotal(items: seq<OrderLine>, dish: Dish)
    requires UniqueDishes(items)
    ensures TotalPrice(AddDish(items, dish)) == TotalPrice(items) +
      if FindWhere(items, DishIs(dish.id)).Some? then FindWhere(items, DishIs(dish.id)).value.price else dish.fields.price
  {
    if FindWhere(items, DishIs(dish.id)).Some? {
      var i := AddDishAsUpdate(items, dish);
      assert FindWhere(items, DishIs(dish.id)).value == items[i];
      var bumped := items[i].(quantity := items[i].quantity + 1);
      assert LineTotal(bumped) == LineTotal(items[i]) + items[i].price by {
        assert items[i].price * (items[i].quantity + 1) == items[i].price * items[i].quantity + items[i].price;
      }
      SumUpdate(items, i, bumped, LineTotal);
    } else {
      SumAppend(items, [OrderLine(dish.id, dish.fields.name, 1, dish.fields.price, None)], LineTotal);
      assert Sum([OrderLine(dish.id, dish.fields.name, 1, dish.fields.price, None)], LineTotal) == dish.fields.price;
    }
  }

  /** Filtering lines keeps the dishes unique. */
  lemma {:induction false} FilterKeepsUnique(items: seq<OrderLine>, p: OrderLine -> bool)
    requires UniqueDishes(items)
    ensures UniqueDishes(Filter(items, p))
  {
    if items != [] {
      FilterKeepsUnique(items[1..], p);
      var rest := Filter(items[1..], p);
      forall j | 0 <= j < |rest|
        ensures rest[j].dishId != items[0].dishId
      {
        assert rest[j] in items[1..];
      }
    }
  }

  /** Updating a quantity keeps the dishes unique and every quantity at least one. */
  lemma {:induction false} UpdateQuantityKeepsValid(items: seq<OrderLine>, dishId: Id, quantity: int)
    requires ValidLines(items)
    ensures ValidLines(UpdateQuantity(items, dishId, quantity))
  {
    if quantity <= 0 {
      FilterKeepsUnique(items, DishIsNot(dishId));
    }
  }

  /** Updating a quantity gives the dish exactly that many portions (none when
      it is 0 or less, or when the dish has no line) and leaves other dishes alone. */
  lemma {:induction false} UpdateQuantityCounts(items: seq<OrderLine>, dishId: Id, quantity: int, other: Id)
    requires UniqueDishes(items)
    ensures QuantityOf(UpdateQuantity(items, dishId, quantity), other) ==
      if other != dishId then QuantityOf(items, other)
      else if quantity <= 0 || FindWhere(items, DishIs(dishId)).None? then 0
      else quantity
  {
    var r := UpdateQuantity(items, dishId, quantity);
    if quantity <= 0 {
      SumFilterSplit(items, DishIsNot(dishId), DishIs(dishId), LineQuantity(other));
      if other != dishId {
        var removed := Filter(items, DishIs(dishId));
        forall j | 0 <= j < |removed| ensures LineQuantity(other)(removed[j]) == 0 {
          assert removed[j] in removed;
        }
        SumZero(removed, LineQuantity(other));
      } else {
        forall j | 0 <= j < |r| ensures LineQuantity(other)(r[j]) == 0 {
          assert r[j] in r;
        }
        SumZero(r, LineQuantity(other));
      }
    } else if FindWhere(items, DishIs(dishId)).Some? {
      var i := IndexWhere(items, DishIs(dishId));
      assert r == items[i := items[i].(quantity := quantity)];
      SumUpdate(items, i, items[i].(quantity := quantity), LineQuantity(other));
      if other == dishId {
        assert QuantityOf(items, dishId) - items[i].quantity == 0 by {
          SumUpdate(items, i, items[i].(quantity := 0), LineQuantity(dishId));
          var zeroed := items[i := items[i].(quantity := 0)];
          forall j | 0 <= j < |zeroed| ensures LineQuantity(dishId)(zeroed[j]) == 0 {
          }
          SumZero(zeroed, LineQuantity(dishId));
        }
      }
    } else {
      assert r == items;
      if other == dishId {
        SumZero(items, LineQuantity(dishId));
      }
    }
  }

  // ---- Creating an order ----

  datatype CreateError = NoItems | NoPlace

  /** The order `handleCreateOrder` builds, or the reason it refuses: no lines
      (checked first), then neither a table nor a cabin. */
  function CreateOrder(draft: Draft, orderId: Id, now: Timestamp): (r: Result<Order, CreateError>)
    ensures draft.items == [] <==> r == Failure(NoItems)
    ensures r == Failure(NoPlace) <==> draft.items != [] && draft.selectedTable.None? && draft.selectedCabin.None?
    ensures r.Success? ==>
      && r.value.id == orderId && r.value.createdAt == now && r.value.updatedAt == now
      && r.value.fields.status == OrderStatus.New
      && r.value.fields.items == draft.items
      && r.value.fields.totalAmount == TotalPrice(draft.items)
      && r.value.fields.tableId == (if draft.selectedTable.Some? then Some(draft.selectedTable.value.id) else None)
      && r.value.fields.vipCabinId == (if draft.selectedCabin.Some? then Some(draft.selectedCabin.value.id) else None)
      && r.value.fields.notes == (if draft.notes == "" then None else Some(draft.notes))
  {
    if draft.items == [] then Failure(NoItems)
    else if draft.selectedTable.None? && draft.selectedCabin.None? then Failure(NoPlace)
    else
      var tableId := if draft.selectedTable.Some? then Some(draft.selectedTable.value.id) else None;
      var cabinId := if draft.selectedCabin.Some? then Some(draft.selectedCabin.value.id) else None;
      var notes := if draft.notes == "" then None else Some(draft.notes);
      Success(Entity(orderId,
        OrderFields(tableId, cabinId, None, None, None, draft.items, OrderStatus.New, TotalPrice(draft.items), notes),
        now, now))
  }

  /** The selected table, now occupied by the order. */
  function OccupiedTable(t: Table, orderId: Id, now: Timestamp): (r: Table)
    ensures r.id == t.id && r.fields.status == TableStatus.Occupied && r.fields.currentOrderId == Some(orderId)
    ensures r.fields.currentReservationId == t.fields.currentReservationId && r.createdAt == t.createdAt
  {
    t.(fields := t.fields.(status := TableStatus.Occupied, currentOrderId := Some(orderId)), updatedAt := now)
  }

  /** The selected cabin, now occupied by the order. */
  function OccupiedCabin(c: VipCabin, orderId: Id, now: Timestamp): (r: VipCabin)
    ensures r.id == c.id && r.fields.status == VipCabinStatus.Occupied && r.fields.currentOrderId == Some(orderId)
    ensures r.fields.currentReservationId == c.fields.currentReservationId && r.createdAt == c.createdAt
  {
    c.(fields := c.fields.(status := VipCabinStatus.Occupied, currentOrderId := Some(orderId)), updatedAt := now)
  }

  /** The three repositories the page writes, over one store. */
  ghost predicate Wired(orders: Repository<OrderFields<OrderLine>>, tables: Repository<TableFields>, cabins: Repository<VipCabinFields>)
    reads orders, tables, cabins
  {
    && orders.Valid() && tables.Valid() && cabins.Valid() && orders.seed.None?
    && SameStore(orders, tables) && SameStore(orders, cabins) && SameStore(tables, cabins)
  }

  /** `handleCreateOrder`: store the order, then mark the chosen table and/or
      cabin occupied by it, then reset the draft. A refused order writes nothing. */
  method HandleCreateOrder(orders: Repository<OrderFields<OrderLine>>, tables: Repository<TableFields>,
                           cabins: Repository<VipCabinFields>, draft: Draft, orderId: Id, now: Timestamp)
    returns (result: Result<Order, CreateError>, next: Draft)
    requires Wired(orders, tables, cabins)
    modifies orders, tables, cabins, orders.store
    ensures Wired(orders, tables, cabins)
    ensures result == CreateOrder(draft, orderId, now)
    ensures next == if result.Success? then EmptyDraft else draft
    ensures result.Failure? ==> orders.store.items == old(orders.store.items)
    ensures AgreeOutside(old(orders.store.items), orders.store.items, {orders.key, tables.key, cabins.key})
    ensures !orders.store.writable ==> orders.store.items == old(orders.store.items)
    ensures result.Success? && orders.store.writable ==> orders.View() == old(orders.View()) + [result.value]
    ensures tables.View() == if result.Success? && (orders.store.writable || old(tables.Seeding()))
                             then TablesAfterOrder(old(tables.View()), draft, orderId, now) else old(tables.View())
    ensures cabins.View() == if result.Success? && (orders.store.writable || old(cabins.Seeding()))
                             then CabinsAfterOrder(old(cabins.View()), draft, orderId, now) else old(cabins.View())
  {
    next := draft;
    if draft.items == [] {
      return Failure(NoItems), next;
    }
    if draft.selectedTable.None? && draft.selectedCabin.None? {
      return Failure(NoPlace), next;
    }
    var order := CreateOrder(draft, orderId, now).value;
    PlaceOrder(orders, tables, cabins, order, draft, orderId, now);
    result, next := Success(order), EmptyDraft;
  }

  /** The writes of an accepted `handleCreateOrder`: the order is added, then
      the chosen places are occupied by it. */
  method PlaceOrder(orders: Repository<OrderFields<OrderLine>>, tables: Repository<TableFields>,
                    cabins: Repository<VipCabinFields>, order: Order, draft: Draft, orderId: Id, now: Timestamp)
    requires Wired(orders, tables, cabins)
    modifies orders, tables, cabins, orders.store
    ensures Wired(orders, tables, cabins)
    ensures AgreeOutside(old(orders.store.items), orders.store.items, {orders.key, tables.key, cabins.key})
    ensures !orders.store.writable ==> orders.store.items == old(orders.store.items)
    ensures orders.store.writable ==> orders.View() == old(orders.View()) + [order]
    ensures tables.View() == if orders.store.writable || old(tables.Seeding())
                             then TablesAfterOrder(old(tables.View()), draft, orderId, now) else old(tables.View())
    ensures cabins.View() == if orders.store.writable || old(cabins.Seeding())
                             then CabinsAfterOrder(old(cabins.View()), draft, orderId, now) else old(cabins.View())
  {
    ghost var before := orders.store.items;
    orders.Add(order);
    ghost var added := orders.store.items;
    LoadAgrees(before, added, {orders.key}, tables.key, [], tables.unwrap);
    LoadAgrees(before, added, {orders.key}, cabins.key, [], cabins.unwrap);
    OccupyPlaces(orders, tables, cabins, draft, orderId, now);
    AgreeOutsideTrans(before, added, orders.store.items, {orders.key}, {tables.key, cabins.key});
  }

  /** The tables once an order is placed: the chosen table, if any, is occupied by it. */
  function TablesAfterOrder(ts: seq<Table>, draft: Draft, orderId: Id, now: Timestamp): seq<Table>
  {
    if draft.selectedTable.Some? then Updated(ts, OccupiedTable(draft.selectedTable.value, orderId, now), now) else ts
  }

  /** The cabins once an order is placed: the chosen cabin, if any, is occupied by it. */
  function CabinsAfterOrder(cs: seq<VipCabin>, draft: Draft, orderId: Id, now: Timestamp): seq<VipCabin>
  {
    if draft.selectedCabin.Some? then Updated(cs, OccupiedCabin(draft.selectedCabin.value, orderId, now), now) else cs
  }

  /** The second half of `handleCreateOrder`: the chosen table and/or cabin
      become occupied by the order; the orders are not touched. */
  method OccupyPlaces(orders: Repository<OrderFields<OrderLine>>, tables: Repository<TableFields>,
                      cabins: Repository<VipCabinFields>, draft: Draft, orderId: Id, now: Timestamp)
    requires Wired(orders, tables, cabins)
    modifies tables, cabins, orders.store
    ensures Wired(orders, tables, cabins)
    ensures AgreeOutside(old(orders.store.items), orders.store.items, {tables.key, cabins.key})
    ensures !orders.store.writable ==> orders.store.items == old(orders.store.items)
    ensures orders.View() == old(orders.View())
    ensures tables.View() == if orders.store.writable || old(tables.Seeding())
                             then TablesAfterOrder(old(tables.View()), draft, orderId, now) else old(tables.View())
    ensures cabins.View() == if orders.store.writable || old(cabins.Seeding())
                             then CabinsAfterOrder(old(cabins.View()), draft, orderId, now) else old(cabins.View())
  {
    if draft.selectedTable.Some? {
      OccupyTable(orders, tables, cabins, draft.selectedTable.value, orderId, now);
    }
    if draft.selectedCabin.Some? {
      OccupyCabin(orders, tables, cabins, draft.selectedCabin.value, orderId, now);
    }
  }

  method OccupyTable(orders: Repository<OrderFields<OrderLine>>, tables: Repository<TableFields>,
                     cabins: Repository<VipCabinFields>, t: Table, orderId: Id, now: Timestamp)
    requires Wired(orders, tables, cabins)
    modifies tables, orders.store
    ensures Wired(orders, tables, cabins)
    ensures AgreeOutside(old(orders.store.items), orders.store.items, {tables.key})
    ensures !orders.store.writable ==> orders.store.items == old(orders.store.items)
    ensures orders.View() == old(orders.View()) && cabins.View() == old(cabins.View())
    ensures tables.View() == if orders.store.writable || old(tables.Seeding())
                             then Updated(old(tables.View()), OccupiedTable(t, orderId, now), now) else old(tables.View())
  {
    tables.Update(OccupiedTable(t, orderId, now), now);
    LoadAgrees(old(orders.store.items), orders.store.items, {tables.key}, orders.key, [], orders.unwrap);
    LoadAgrees(old(orders.store.items), orders.store.items, {tables.key}, cabins.key, [], cabins.unwrap);
  }

  method OccupyCabin(orders: Repository<OrderFields<OrderLine>>, tables: Repository<TableFields>,
                     cabins: Repository<VipCabinFields>, c: VipCabin, orderId: Id, now: Timestamp)
    requires Wired(orders, tables, cabins)
    modifies cabins, orders.store
    ensures Wired(orders, tables, cabins)
    ensures AgreeOutside(old(orders.store.items), orders.store.items, {cabins.key})
    ensures !orders.store.writable ==> orders.store.items == old(orders.store.items)
    ensures orders.View() == old(orders.View()) && tables.View() == old(tables.View())
    ensures cabins.View() == if orders.store.writable || old(cabins.Seeding())
                             then Updated(old(cabins.View()), OccupiedCabin(c, orderId, now), now) else old(cabins.View())
  {
    cabins.Update(OccupiedCabin(c, orderId, now), now);
    LoadAgrees(old(orders.store.items), orders.store.items, {cabins.key}, orders.key, [], orders.unwrap);
    LoadAgrees(old(orders.store.items), orders.store.items, {cabins.key}, tables.key, [], tables.unwrap);
  }

  /** After a created order, the table it went to is found occupied by that order. */
  lemma {:induction false} CreatedOrderOccupiesTable(ts: seq<Table>, t: Table, orderId: Id, now: Timestamp)
    requires exists j :: 0 <= j < |ts| && ts[j].id == t.id
    ensures var found := FirstWithId(Updated(ts, OccupiedTable(t, orderId, now), now), t.id);
      found.Some? && found.value.fields.status == TableStatus.Occupied && found.value.fields.currentOrderId == Some(orderId)
  {
    FindAfterUpdate(ts, OccupiedTable(t, orderId, now), now);
  }

  /** After a created order, the cabin it went to is found occupied by that order. */
  lemma {:induction false} CreatedOrderOccupiesCabin(cs: seq<VipCabin>, c: VipCabin, orderId: Id, now: Timestamp)
    requires exists j :: 0 <= j < |cs| && cs[j].id == c.id
    ensures var found := FirstWithId(Updated(cs, OccupiedCabin(c, orderId, now), now), c.id);
      found.Some? && found.value.fields.status == VipCabinStatus.Occupied && found.value.fields.currentOrderId == Some(orderId)
  {
    FindAfterUpdate(cs, OccupiedCabin(c, orderId, now), now);
  }

  // ---- Changing an order's status ----

  /** The order with the new status, stamped with `now`. */
  function WithStatus(o: Order, status: OrderStatus, now: Timestamp): (r: Order)
    ensures r.id == o.id && r.createdAt == o.createdAt && r.updatedAt == now
    ensures r.fields == o.fields.(status := status)
  {
    o.(fields := o.fields.(status := status), updatedAt := now)
  }

  /** The stored orders after `handleUpdateOrderStatus(orderId, status)`. */
  function StatusUpdated(orders: seq<Order>, orderId: Id, status: OrderStatus, now: Timestamp): (r: seq<Order>)
    ensures |r| == |orders|
    ensures forall j :: 0 <= j < |orders| ==> r[j].id == orders[j].id
    ensures forall j :: 0 <= j < |orders| && orders[j].id != orderId ==> r[j] == orders[j]
    ensures FirstWithId(orders, orderId).None? ==> r == orders
  {
    match FirstWithId(orders, orderId)
    case None => orders
    case Some(o) => Updated(orders, WithStatus(o, status, now), now)
  }

  /** A status change touches only the status and the stamp of the first order
      with that id; every other order, and every other field, stays as it was. */
  lemma {:induction false} StatusUpdateOnlyStatus(orders: seq<Order>, orderId: Id, status: OrderStatus, now: Timestamp)
    ensures var r := StatusUpdated(orders, orderId, status, now);
      && |r| == |orders|
      && (forall j :: 0 <= j < |orders| ==>
            r[j].id == orders[j].id && r[j].createdAt == orders[j].createdAt &&
            r[j].fields == (if j == IndexWhere(orders, HasId(orderId)) then orders[j].fields.(status := status) else orders[j].fields))
      && (FirstWithId(orders, orderId).None? ==> r == orders)
  {
    var i := IndexWhere(orders, HasId(orderId));
    if i >= 0 {
      assert FirstWithId(orders, orderId) == Some(orders[i]);
      IndexWhereFirst(orders, HasId(WithStatus(orders[i], status, now).id), i);
    }
  }

  /** `handleUpdateOrderStatus`: find the order and store it with the new status;
      an unknown id writes nothing. Tables and cabins are not touched. */
  method HandleUpdateOrderStatus(orders: Repository<OrderFields<OrderLine>>, orderId: Id, status: OrderStatus, now: Timestamp)
    requires orders.Valid() && orders.seed.None?
    modifies orders, orders.store
    ensures orders.Valid() && orders.seed.None?
    ensures AgreeOutside(old(orders.store.items), orders.store.items, {orders.key})
    ensures FirstWithId(old(orders.View()), orderId).None? ==> orders.store.items == old(orders.store.items)
    ensures orders.store.writable ==> orders.View() == StatusUpdated(old(orders.View()), orderId, status, now)
  {
    var order := orders.FindById(orderId);
    if order.Some? {
      orders.Update(WithStatus(order.value, status, now), now);
    }
  }
}
