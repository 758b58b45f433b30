/** The six repositories (the *Repository.ts files under src/services). They share one shape:
    a storage key, a whole-list load and save, and `add`, `update`,
    `delete` and `findById` written on top of them. Tables, cabins, dishes
    and categories also carry a sample list that `getAll` hands out, and
    writes, whenever the stored list is empty; orders and reservations do
    not. One generic class models all six. */
module Repositories {
  import opened Wrappers
  import opened Models
  import opened Sequences
  import opened StorageService

  /** The test `e => e.id === id`. */
  function HasId<F>(id: Id): Entity<F> -> bool
  {
    (e: Entity<F>) => e.id == id
  }

  /** The test `e => e.id !== id`. */
  function LacksId<F>(id: Id): Entity<F> -> bool
  {
    (e: Entity<F>) => e.id != id
  }

  /** `list.find(e => e.id === id)`. */
  function FirstWithId<F>(xs: seq<Entity<F>>, id: Id): (r: Option<Entity<F>>)
    ensures r.None? <==> forall j :: 0 <= j < |xs| ==> xs[j].id != id
    ensures r.Some? ==> r.value.id == id && r.value in xs
    ensures r.Some? ==> exists i :: 0 <= i < |xs| && xs[i] == r.value && forall j :: 0 <= j < i ==> xs[j].id != id
  {
    var p := HasId<F>(id);
    assert forall j :: 0 <= j < |xs| ==> p(xs[j]) == (xs[j].id == id);
    FindWhere(xs, p)
  }

  /** The list `update(x)` leaves: the first entry with x's id replaced by x
      stamped with `now`, and the list unchanged when no entry has that id. */
  function Updated<F>(xs: seq<Entity<F>>, x: Entity<F>, now: Timestamp): (r: seq<Entity<F>>)
    ensures |r| == |xs|
    ensures forall j :: 0 <= j < |xs| ==> r[j].id == xs[j].id
    ensures forall j :: 0 <= j < |xs| && xs[j].id != x.id ==> r[j] == xs[j]
    ensures (forall j :: 0 <= j < |xs| ==> xs[j].id != x.id) ==> r == xs
    ensures (exists j :: 0 <= j < |xs| && xs[j].id == x.id) ==>
      exists i :: 0 <= i < |xs| && xs[i].id == x.id && (forall j :: 0 <= j < i ==> xs[j].id != x.id) &&
                  r == xs[i := x.(updatedAt := now)]
  {
    var p := HasId<F>(x.id);
    assert forall j :: 0 <= j < |xs| ==> p(xs[j]) == (xs[j].id == x.id);
    var i := IndexWhere(xs, p);
    if i < 0 then xs else xs[i := x.(updatedAt := now)]
  }

  /** The list `delete(id)` leaves: every entry but those with that id, in order. */
  function WithoutId<F(!new)>(xs: seq<Entity<F>>, id: Id): (r: seq<Entity<F>>)
    ensures forall e :: e in r <==> e in xs && e.id != id
    ensures SubsequenceOf(r, xs)
    ensures (forall j :: 0 <= j < |xs| ==> xs[j].id != id) ==> r == xs
  {
    FilterIsSubsequence(xs, LacksId(id));
    if forall j :: 0 <= j < |xs| ==> xs[j].id != id then
      FilterKeepsAll(xs, LacksId(id));
      Filter(xs, LacksId(id))
    else
      Filter(xs, LacksId(id))
  }

  /** A stored list read back through `unwrap` is the list written by `wrap`. */
  ghost predicate RoundTrips<F(!new)>(wrap: seq<Entity<F>> -> Json, unwrap: Json -> Option<seq<Entity<F>>>)
  {
    forall xs :: unwrap(wrap(xs)) == Some(xs)
  }

  class Repository<F(!new)> {
    const store: LocalStorage
    /** `STORAGE_KEYS.TABLES`, ... */
    const key: string
    const wrap: seq<Entity<F>> -> Json
    const unwrap: Json -> Option<seq<Entity<F>>>
    /** The module-level sample list (`mockTables`, ...). `getAll` returns this
        very list when the stored one is empty, so an `add` or `update` made
        on that result changes it in place. None for orders and reservations. */
    var seed: Option<seq<Entity<F>>>

    ghost predicate Valid()
      reads this
    {
      RoundTrips(wrap, unwrap) && (seed.Some? ==> seed.value != [])
    }

    /** `loadFromStorage(storageKey, [])`. */
    function Loaded(): seq<Entity<F>>
      reads store
    {
      Load(store.items, key, [], unwrap)
    }

    /** `getAll()` falls back to the sample list. */
    predicate Seeding()
      reads this, store
    {
      Loaded() == [] && seed.Some?
    }

    /** What `getAll()` returns. */
    function View(): seq<Entity<F>>
      reads this, store
    {
      if Seeding() then seed.value else Loaded()
    }

    /** The store after `getAll()`, which writes the sample list when it falls back to it. */
    ghost function AfterGetAll(): map<string, Json>
      reads this, store
    {
      if Seeding() then AfterSave(store.items, store.writable, key, wrap(seed.value)) else store.items
    }

    constructor (store: LocalStorage, key: string, wrap: seq<Entity<F>> -> Json,
                 unwrap: Json -> Option<seq<Entity<F>>>, seed: Option<seq<Entity<F>>>)
      requires RoundTrips(wrap, unwrap)
      requires seed.Some? ==> seed.value != []
      ensures this.store == store && this.key == key && this.wrap == wrap && this.unwrap == unwrap
      ensures this.seed == seed && Valid()
    {
      this.store := store;
      this.key := key;
      this.wrap := wrap;
      this.unwrap := unwrap;
      this.seed := seed;
    }

    method GetAll() returns (xs: seq<Entity<F>>)
      modifies store
      ensures xs == old(View())
      ensures store.items == old(AfterGetAll())
      ensures Valid() ==> View() == old(View())
    {
      xs := store.LoadFromStorage(key, [], unwrap);
      if xs == [] && seed.Some? {
        SaveAll(seed.value);
        xs := seed.value;
      }
    }

    /** The store holds the stored list read back through this repository. */
    lemma {:induction false} LoadedAfterSave(xs: seq<Entity<F>>)
      requires Valid() && store.writable && key in store.items && store.items[key] == wrap(xs)
      ensures Loaded() == xs
    {
    }

    method SaveAll(xs: seq<Entity<F>>)
      modifies store
      ensures store.items == AfterSave(old(store.items), store.writable, key, wrap(xs))
      ensures AgreeOutside(old(store.items), store.items, {key})
      ensures Valid() && store.writable ==> Loaded() == xs
      ensures Valid() && store.writable && xs != [] ==> View() == xs
    {
      store.SaveToStorage(key, wrap(xs));
    }

    method Add(x: Entity<F>)
      requires Valid()
      modifies this, store
      ensures Valid()
      ensures store.items == AfterSave(old(store.items), store.writable, key, wrap(old(View()) + [x]))
      ensures AgreeOutside(old(store.items), store.items, {key})
      ensures seed == if old(Seeding()) then Some(old(View()) + [x]) else old(seed)
      ensures store.writable || old(Seeding()) ==> View() == old(View()) + [x]
    {
      var fromSeed := Seeding();
      var xs := GetAll();
      xs := xs + [x];
      if fromSeed {
        seed := Some(xs);
      }
      SaveAll(xs);
    }

    method Update(x: Entity<F>, now: Timestamp)
      requires Valid()
      modifies this, store
      ensures Valid()
      ensures AgreeOutside(old(store.items), store.items, {key})
      ensures !store.writable ==> store.items == old(store.items)
      ensures FirstWithId(old(View()), x.id).None? ==> store.items == old(AfterGetAll())
      ensures seed == if old(Seeding()) then Some(Updated(old(View()), x, now)) else old(seed)
      ensures store.writable || old(Seeding()) ==> View() == Updated(old(View()), x, now)
    {
      var fromSeed := Seeding();
      var xs := GetAll();
      var i := IndexWhere(xs, HasId(x.id));
      if i != -1 {
        xs := xs[i := x.(updatedAt := now)];
        if fromSeed {
          seed := Some(xs);
        }
        SaveAll(xs);
      }
    }

    method Delete(id: Id)
      requires Valid()
      modifies store
      ensures store.items == AfterSave(old(store.items), store.writable, key, wrap(WithoutId(old(View()), id)))
      ensures AgreeOutside(old(store.items), store.items, {key})
      ensures store.writable ==> Loaded() == WithoutId(old(View()), id)
      ensures store.writable ==> View() == if WithoutId(old(View()), id) == [] && seed.Some? then seed.value
                                           else WithoutId(old(View()), id)
    {
      var xs := GetAll();
      ghost var read := store.items;
      var filtered := Filter(xs, LacksId(id));
      assert filtered == WithoutId(xs, id);
      SaveAll(filtered);
      if store.writable {
        assert store.items == read[key := wrap(filtered)];
        assert read == old(store.items) || read == old(store.items)[key := read[key]];
        assert store.items == old(store.items)[key := wrap(filtered)];
      }
    }

    method FindById(id: Id) returns (r: Option<Entity<F>>)
      requires Valid()
      modifies store
      ensures r == FirstWithId(old(View()), id)
      ensures store.items == old(AfterGetAll())
      ensures View() == old(View())
    {
      var xs := GetAll();
      r := FindWhere(xs, HasId(id));
    }

    /** `getAll()` of a repository without a sample list: a plain load, no write. */
    method ReadAll() returns (xs: seq<Entity<F>>)
      requires seed.None?
      ensures xs == View()
    {
      xs := store.LoadFromStorage(key, [], unwrap);
    }
  }

  /** Finding by id after an `update` of a present id gives the new entry. */
  lemma {:induction false} FindAfterUpdate<F>(xs: seq<Entity<F>>, x: Entity<F>, now: Timestamp)
    requires exists j :: 0 <= j < |xs| && xs[j].id == x.id
    ensures FirstWithId(Updated(xs, x, now), x.id) == Some(x.(updatedAt := now))
  {
    var i := IndexWhere(xs, HasId(x.id));
    var r := Updated(xs, x, now);
    assert r[i] == x.(updatedAt := now);
    assert IndexWhere(r, HasId(x.id)) == i by {
      IndexWhereFirst(r, HasId(x.id), i);
    }
  }

  /** An index that satisfies `p`, with none before it, is the one `findIndex` returns. */
  lemma {:induction false} IndexWhereFirst<T>(xs: seq<T>, p: T -> bool, i: int)
    requires 0 <= i < |xs| && p(xs[i]) && forall j :: 0 <= j < i ==> !p(xs[j])
    ensures IndexWhere(xs, p) == i
  {
  }

  /** After `delete(id)` no entry with that id is found. */
  lemma {:induction false} FindAfterDelete<F(!new)>(xs: seq<Entity<F>>, id: Id)
    ensures FirstWithId(WithoutId(xs, id), id).None?
  {
    var r := WithoutId(xs, id);
    forall j | 0 <= j < |r|
      ensures r[j].id != id
    {
      assert r[j] in r;
    }
  }

  /** After `add(x)` of a new id, finding that id gives x. */
  lemma {:induction false} FindAfterAdd<F>(xs: seq<Entity<F>>, x: Entity<F>)
    requires forall j :: 0 <= j < |xs| ==> xs[j].id != x.id
    ensures FirstWithId(xs + [x], x.id) == Some(x)
  {
    IndexWhereFirst(xs + [x], HasId(x.id), |xs|);
  }

  /** Two repositories that share one store under different keys, as all six do. */
  ghost predicate SameStore<A(!new), B(!new)>(a: Repository<A>, b: Repository<B>)
  {
    a.store == b.store && a.key != b.key
  }

  // ---- The six repositories ----

  function UnwrapTables(j: Json): Option<seq<Table>> { if j.TablesJson? then Some(j.tables) else None }
  function UnwrapCabins(j: Json): Option<seq<VipCabin>> { if j.CabinsJson? then Some(j.cabins) else None }
  function UnwrapDishes(j: Json): Option<seq<Dish>> { if j.DishesJson? then Some(j.dishes) else None }
  function UnwrapCategories(j: Json): Option<seq<Category>> { if j.CategoriesJson? then Some(j.categories) else None }
  function UnwrapOrders(j: Json): Option<seq<Order>> { if j.OrdersJson? then Some(j.orders) else None }
  function UnwrapReservations(j: Json): Option<seq<Reservation>> { if j.ReservationsJson? then Some(j.reservations) else None }

  /** `new TablesRepository()`, seeded with `mockTables`. */
  method NewTablesRepository(store: LocalStorage, mockTables: seq<Table>) returns (r: Repository<TableFields>)
    requires mockTables != []
    ensures fresh(r) && r.store == store && r.key == TABLES_KEY && r.seed == Some(mockTables) && r.Valid()
  {
    r := new Repository(store, TABLES_KEY, xs => TablesJson(xs), UnwrapTables, Some(mockTables));
  }

  /** `new VipCabinsRepository()`, seeded with `mockVipCabins`. */
  method NewVipCabinsRepository(store: LocalStorage, mockVipCabins: seq<VipCabin>) returns (r: Repository<VipCabinFields>)
    requires mockVipCabins != []
    ensures fresh(r) && r.store == store && r.key == VIP_CABINS_KEY && r.seed == Some(mockVipCabins) && r.Valid()
  {
    r := new Repository(store, VIP_CABINS_KEY, xs => CabinsJson(xs), UnwrapCabins, Some(mockVipCabins));
  }

  /** `new DishesRepository()`, seeded with `mockDishes`. */
  method NewDishesRepository(store: LocalStorage, mockDishes: seq<Dish>) returns (r: Repository<DishFields>)
    requires mockDishes != []
    ensures fresh(r) && r.store == store && r.key == DISHES_KEY && r.seed == Some(mockDishes) && r.Valid()
  {
    r := new Repository(store, DISHES_KEY, xs => DishesJson(xs), UnwrapDishes, Some(mockDishes));
  }

  /** `new CategoriesRepository()`, seeded with `mockCategories`. */
  method NewCategoriesRepository(store: LocalStorage, mockCategories: seq<Category>) returns (r: Repository<CategoryFields>)
    requires mockCategories != []
    ensures fresh(r) && r.store == store && r.key == CATEGORIES_KEY && r.seed == Some(mockCategories) && r.Valid()
  {
    r := new Repository(store, CATEGORIES_KEY, xs => CategoriesJson(xs), UnwrapCategories, Some(mockCategories));
  }

  /** `new OrdersRepository()`: no sample list, and the undefined key. */
  method NewOrdersRepository(store: LocalStorage) returns (r: Repository<OrderFields<OrderLine>>)
    ensures fresh(r) && r.store == store && r.key == ORDERS_KEY && r.seed.None? && r.Valid()
  {
    r := new Repository(store, ORDERS_KEY, xs => OrdersJson(xs), UnwrapOrders, None);
  }

  /** `new ReservationsRepository()`: no sample list. */
  method NewReservationsRepository(store: LocalStorage) returns (r: Repository<ReservationFields>)
    ensures fresh(r) && r.store == store && r.key == RESERVATIONS_KEY && r.seed.None? && r.Valid()
  {
    r := new Repository(store, RESERVATIONS_KEY, xs => ReservationsJson(xs), UnwrapReservations, None);
  }

  // ---- The orders repository's queries ----

  function TableIs(tableId: Id): Order -> bool { (o: Order) => o.fields.tableId == Some(tableId) }
  function CabinIs(cabinId: Id): Order -> bool { (o: Order) => o.fields.vipCabinId == Some(cabinId) }

  /** `findByTableId`: the orders of one table, in stored order. */
  function OrdersForTable(orders: seq<Order>, tableId: Id): (r: seq<Order>)
    ensures forall o :: o in r <==> o in orders && o.fields.tableId == Some(tableId)
    ensures SubsequenceOf(r, orders)
  {
    FilterIsSubsequence(orders, TableIs(tableId));
    Filter(orders, TableIs(tableId))
  }

  /** `findByVipCabinId`: the orders of one cabin, in stored order. */
  function OrdersForCabin(orders: seq<Order>, cabinId: Id): (r: seq<Order>)
    ensures forall o :: o in r <==> o in orders && o.fields.vipCabinId == Some(cabinId)
    ensures SubsequenceOf(r, orders)
  {
    FilterIsSubsequence(orders, CabinIs(cabinId));
    Filter(orders, CabinIs(cabinId))
  }

  /** `getActiveOrders`: the orders neither paid nor cancelled, in stored order. */
  function ActiveOrders(orders: seq<Order>): (r: seq<Order>)
    ensures forall o :: o in r <==> o in orders && IsActiveOrder(o)
    ensures SubsequenceOf(r, orders)
  {
    FilterIsSubsequence(orders, IsActiveOrder);
    Filter(orders, IsActiveOrder)
  }

  method FindOrdersByTableId(orders: Repository<OrderFields<OrderLine>>, tableId: Id) returns (r: seq<Order>)
    requires orders.seed.None?
    ensures r == OrdersForTable(orders.View(), tableId)
  {
    var all := orders.ReadAll();
    r := Filter(all, TableIs(tableId));
  }

  method FindOrdersByVipCabinId(orders: Repository<OrderFields<OrderLine>>, cabinId: Id) returns (r: seq<Order>)
    requires orders.seed.None?
    ensures r == OrdersForCabin(orders.View(), cabinId)
  {
    var all := orders.ReadAll();
    r := Filter(all, CabinIs(cabinId));
  }

  method GetActiveOrders(orders: Repository<OrderFields<OrderLine>>) returns (r: seq<Order>)
    requires orders.seed.None?
    ensures r == ActiveOrders(orders.View())
  {
    var all := orders.ReadAll();
    r := Filter(all, IsActiveOrder);
  }

  // ---- The reservations repository's queries ----

  function HoldsTable(tableId: Id): Reservation -> bool
  {
    (r: Reservation) => r.fields.tableId == Some(tableId) && IsCurrentReservation(r)
  }

  function HoldsCabin(cabinId: Id): Reservation -> bool
  {
    (r: Reservation) => r.fields.vipCabinId == Some(cabinId) && IsCurrentReservation(r)
  }

  /** `findByTableId`: the first reservation of the table that is neither completed nor cancelled. */
  function CurrentReservationForTable(rs: seq<Reservation>, tableId: Id): (r: Option<Reservation>)
    ensures r.None? <==> forall j :: 0 <= j < |rs| ==> !(rs[j].fields.tableId == Some(tableId) && IsCurrentReservation(rs[j]))
    ensures r.Some? ==> exists i :: 0 <= i < |rs| && rs[i] == r.value && r.value.fields.tableId == Some(tableId) &&
                                    IsCurrentReservation(r.value) && forall j :: 0 <= j < i ==> !HoldsTable(tableId)(rs[j])
  {
    FindWhere(rs, HoldsTable(tableId))
  }

  /** `findByVipCabinId`: the first reservation of the cabin that is neither completed nor cancelled. */
  function CurrentReservationForCabin(rs: seq<Reservation>, cabinId: Id): (r: Option<Reservation>)
    ensures r.None? <==> forall j :: 0 <= j < |rs| ==> !(rs[j].fields.vipCabinId == Some(cabinId) && IsCurrentReservation(rs[j]))
    ensures r.Some? ==> exists i :: 0 <= i < |rs| && rs[i] == r.value && r.value.fields.vipCabinId == Some(cabinId) &&
                                    IsCurrentReservation(r.value) && forall j :: 0 <= j < i ==> !HoldsCabin(cabinId)(rs[j])
  {
    FindWhere(rs, HoldsCabin(cabinId))
  }

  method FindReservationByTableId(reservations: Repository<ReservationFields>, tableId: Id) returns (r: Option<Reservation>)
    requires reservations.seed.None?
    ensures r == CurrentReservationForTable(reservations.View(), tableId)
  {
    var all := reservations.ReadAll();
    r := FindWhere(all, HoldsTable(tableId));
  }

  method FindReservationByVipCabinId(reservations: Repository<ReservationFields>, cabinId: Id) returns (r: Option<Reservation>)
    requires reservations.seed.None?
    ensures r == CurrentReservationForCabin(reservations.View(), cabinId)
  {
    var all := reservations.ReadAll();
    r := FindWhere(all, HoldsCabin(cabinId));
  }
}
