/** The floor plan (src/pages/TablesPage.tsx): reordering the table and cabin
    cards by drag and drop, adding tables and cabins, and editing them. The
    page's React state (the lists on screen, the card being dragged, the item
    being edited) is passed in and handed back explicitly. */
module TablesPage {
  import opened Wrappers
  import opened Models
  import opened Sequences
  import opened StorageService
  import opened Repositories

  datatype PlaceKind = TableCard | CabinCard

  /** `draggedItem`: which kind of card is being dragged, and its id. */
  datatype Dragged = Dragged(kind: PlaceKind, id: Id)

  // ---- Reordering ----

  /** The list after dropping the card `fromId` on the card `toId`: the two
      exchange places. None when either id is not on the list. */
  function SwappedById<F>(xs: seq<Entity<F>>, fromId: Id, toId: Id): (r: Option<seq<Entity<F>>>)
    ensures r.None? <==> FirstWithId(xs, fromId).None? || FirstWithId(xs, toId).None?
  {
    var i := IndexWhere(xs, HasId(fromId));
    var j := IndexWhere(xs, HasId(toId));
    if i == -1 || j == -1 then None else Some(Swap(xs, i, j))
  }

  /** A swap by ids moves the two cards into each other's places, keeps every
      other position, and is a permutation. */
  lemma {:induction false} SwappedByIdMoves<F>(xs: seq<Entity<F>>, fromId: Id, toId: Id)
    requires SwappedById(xs, fromId, toId).Some?
    ensures var r := SwappedById(xs, fromId, toId).value;
      var i, j := IndexWhere(xs, HasId(fromId)), IndexWhere(xs, HasId(toId));
      && 0 <= i < |xs| && 0 <= j < |xs|
      && xs[i].id == fromId && xs[j].id == toId
      && r[i] == xs[j] && r[j] == xs[i]
      && (forall k :: 0 <= k < |xs| && k != i && k != j ==> r[k] == xs[k])
      && |r| == |xs| && multiset(r) == multiset(xs)
  {
  }

  /** The list after dropping the card `id` on the empty part of its zone: it
      moves to the end. None when the id is not on the list. */
  function MovedToEndById<F>(xs: seq<Entity<F>>, id: Id): (r: Option<seq<Entity<F>>>)
    ensures r.None? <==> FirstWithId(xs, id).None?
  {
    var i := IndexWhere(xs, HasId(id));
    if i == -1 then None else Some(MoveToEnd(xs, i))
  }

  /** Moving to the end puts the dragged card last and keeps the others in order. */
  lemma {:induction false} MovedToEndByIdMoves<F>(xs: seq<Entity<F>>, id: Id)
    requires MovedToEndById(xs, id).Some?
    ensures var r := MovedToEndById(xs, id).value;
      var i := IndexWhere(xs, HasId(id));
      && 0 <= i < |xs| && r[|r| - 1] == xs[i] && r[|r| - 1].id == id
      && r[..|r| - 1] == xs[..i] + xs[i + 1..]
      && |r| == |xs| && multiset(r) == multiset(xs)
  {
  }

  /** The destructuring swap `[items[i], items[j]] = [items[j], items[i]]` on a copy of the list. */
  method SwapCopy<T>(prev: seq<T>, i: nat, j: nat) returns (items: seq<T>)
    requires i < |prev| && j < |prev|
    ensures items == Swap(prev, i, j)
  {
    var a := new T[|prev|](k requires 0 <= k < |prev| => prev[k]);
    a[i], a[j] := a[j], a[i];
    items := a[..];
  }

  /** `splice(i, 1)` followed by `push(moved)` on a copy of the list. */
  method SpliceToEnd<T>(prev: seq<T>, i: nat) returns (items: seq<T>)
    requires i < |prev|
    ensures items == MoveToEnd(prev, i)
  {
    items := prev;
    var moved := items[i];
    items := items[..i] + items[i + 1..];
    items := items + [moved];
  }

  /** The new order after dropping the dragged card on the card `targetId` in
      the zone of `kind`, or None when the drop changes nothing: no card is
      dragged, it is of the other kind, it is the target itself, or either id
      is not on the list. */
  function CardDrop<F>(prev: seq<Entity<F>>, kind: PlaceKind, dragged: Option<Dragged>, targetId: Id): (r: Option<seq<Entity<F>>>)
    ensures dragged.None? || dragged.value.kind != kind || dragged.value.id == targetId ==> r.None?
    ensures r.Some? <==> dragged.Some? && dragged.value.kind == kind && dragged.value.id != targetId &&
                         FirstWithId(prev, dragged.value.id).Some? && FirstWithId(prev, targetId).Some?
    ensures dragged.Some? && dragged.value.kind == kind && dragged.value.id != targetId ==>
      r == SwappedById(prev, dragged.value.id, targetId)
    ensures r.Some? ==> multiset(r.value) == multiset(prev)
  {
    if dragged.None? || dragged.value.kind != kind || dragged.value.id == targetId then None
    else
      var r := SwappedById(prev, dragged.value.id, targetId);
      if r.Some? then
        SwappedByIdMoves(prev, dragged.value.id, targetId);
        r
      else
        r
  }

  /** The new order after dropping the dragged card on the empty part of the
      zone of `kind`, or None when no card of that kind is dragged or it is not on the list. */
  function ContainerDrop<F>(prev: seq<Entity<F>>, kind: PlaceKind, dragged: Option<Dragged>): (r: Option<seq<Entity<F>>>)
    ensures dragged.None? || dragged.value.kind != kind ==> r.None?
    ensures r.Some? <==> dragged.Some? && dragged.value.kind == kind && FirstWithId(prev, dragged.value.id).Some?
    ensures dragged.Some? && dragged.value.kind == kind ==> r == MovedToEndById(prev, dragged.value.id)
    ensures r.Some? ==> multiset(r.value) == multiset(prev) && |r.value| == |prev| > 0 && r.value[|prev| - 1].id == dragged.value.id
    ensures r.Some? ==> var i := IndexWhere(prev, HasId(dragged.value.id));
      0 <= i < |prev| && r.value[..|prev| - 1] == prev[..i] + prev[i + 1..]
  {
    if dragged.None? || dragged.value.kind != kind then None
    else
      var r := MovedToEndById(prev, dragged.value.id);
      if r.Some? then
        MovedToEndByIdMoves(prev, dragged.value.id);
        r
      else
        r
  }

  /** `handleTableDropOnCard` and `handleCabinDropOnCard`: the swapped list is
      saved and shown; a drop that changes nothing writes nothing. */
  method DropOnCard<F(!new)>(repo: Repository<F>, kind: PlaceKind, dragged: Option<Dragged>, targetId: Id,
                             prev: seq<Entity<F>>) returns (next: seq<Entity<F>>)
    modifies repo.store
    ensures var r := CardDrop(prev, kind, dragged, targetId);
      && next == (if r.Some? then r.value else prev)
      && repo.store.items == if r.Some? then AfterSave(old(repo.store.items), repo.store.writable, repo.key, repo.wrap(next))
                             else old(repo.store.items)
    ensures CardDrop(prev, kind, dragged, targetId).Some? && repo.Valid() && repo.store.writable && next != [] ==>
      repo.View() == next
  {
    if dragged.None? || dragged.value.kind != kind || dragged.value.id == targetId {
      return prev;
    }
    var fromIndex := IndexWhere(prev, HasId(dragged.value.id));
    var toIndex := IndexWhere(prev, HasId(targetId));
    if fromIndex == -1 || toIndex == -1 {
      return prev;
    }
    next := SwapCopy(prev, fromIndex, toIndex);
    repo.SaveAll(next);
  }

  /** `handleTableDropContainer` and `handleCabinDropContainer`: the list with
      the dragged card moved last is saved and shown; a drop that changes nothing writes nothing. */
  method DropOnContainer<F(!new)>(repo: Repository<F>, kind: PlaceKind, dragged: Option<Dragged>,
                                  prev: seq<Entity<F>>) returns (next: seq<Entity<F>>)
    modifies repo.store
    ensures var r := ContainerDrop(prev, kind, dragged);
      && next == (if r.Some? then r.value else prev)
      && repo.store.items == if r.Some? then AfterSave(old(repo.store.items), repo.store.writable, repo.key, repo.wrap(next))
                             else old(repo.store.items)
    ensures ContainerDrop(prev, kind, dragged).Some? && repo.Valid() && repo.store.writable ==> repo.View() == next
  {
    if dragged.None? || dragged.value.kind != kind {
      return prev;
    }
    var fromIndex := IndexWhere(prev, HasId(dragged.value.id));
    if fromIndex == -1 {
      return prev;
    }
    next := SpliceToEnd(prev, fromIndex);
    repo.SaveAll(next);
  }

  // ---- Adding ----

  /** The table built by `handleAddTable`: free, with the form's name, capacity and location. */
  function NewTable(name: string, capacity: int, location: string, freshId: Id, now: Timestamp): (t: Table)
    ensures t.id == freshId && t.fields.status == TableStatus.Free
    ensures t.fields.name == name && t.fields.capacity == capacity && t.fields.location == Some(location)
    ensures t.fields.currentOrderId.None? && t.fields.currentReservationId.None?
  {
    Entity(freshId, TableFields(name, TableStatus.Free, capacity, Some(location), None, None, None), now, now)
  }

  /** The cabin built by `handleAddVipCabin`: free, with the form's name, capacity, hourly price and location. */
  function NewCabin(name: string, capacity: int, pricePerHour: int, location: string, freshId: Id, now: Timestamp): (c: VipCabin)
    ensures c.id == freshId && c.fields.status == VipCabinStatus.Free
    ensures c.fields.name == name && c.fields.capacity == capacity
    ensures c.fields.pricePerHour == Some(pricePerHour) && c.fields.location == Some(location)
    ensures c.fields.currentOrderId.None? && c.fields.currentReservationId.None?
  {
    Entity(freshId, VipCabinFields(name, VipCabinStatus.Free, capacity, Some(pricePerHour), None, Some(location), None, None, None), now, now)
  }

  /** `handleAddTable`: the new table is appended and the list re-read. */
  method HandleAddTable(tables: Repository<TableFields>, name: string, capacity: int, location: string,
                        freshId: Id, now: Timestamp) returns (next: seq<Table>)
    requires tables.Valid()
    modifies tables, tables.store
    ensures tables.Valid()
    ensures AgreeOutside(old(tables.store.items), tables.store.items, {tables.key})
    ensures tables.store.writable || old(tables.Seeding()) ==>
      next == old(tables.View()) + [NewTable(name, capacity, location, freshId, now)]
  {
    tables.Add(NewTable(name, capacity, location, freshId, now));
    next := tables.GetAll();
  }

  /** `handleAddVipCabin`: the new cabin is appended and the list re-read. */
  method HandleAddVipCabin(cabins: Repository<VipCabinFields>, name: string, capacity: int, pricePerHour: int,
                           location: string, freshId: Id, now: Timestamp) returns (next: seq<VipCabin>)
    requires cabins.Valid()
    modifies cabins, cabins.store
    ensures cabins.Valid()
    ensures AgreeOutside(old(cabins.store.items), cabins.store.items, {cabins.key})
    ensures cabins.store.writable || old(cabins.Seeding()) ==>
      next == old(cabins.View()) + [NewCabin(name, capacity, pricePerHour, location, freshId, now)]
  {
    cabins.Add(NewCabin(name, capacity, pricePerHour, location, freshId, now));
    next := cabins.GetAll();
  }

  /** With an id not yet in use, the added table is the one found under it. */
  lemma {:induction false} AddedTableIsFound(xs: seq<Table>, name: string, capacity: int, location: string, freshId: Id, now: Timestamp)
    requires forall j :: 0 <= j < |xs| ==> xs[j].id != freshId
    ensures var t := FirstWithId(xs + [NewTable(name, capacity, location, freshId, now)], freshId);
      t.Some? && t.value.fields.status == TableStatus.Free && t.value.fields.name == name
  {
    FindAfterAdd(xs, NewTable(name, capacity, location, freshId, now));
  }

  // ---- Editing ----

  /** The edited table: the form's name, capacity and location over the old record. */
  function EditedTable(t: Table, name: string, capacity: int, location: Option<string>, now: Timestamp): (r: Table)
    ensures r.id == t.id && r.createdAt == t.createdAt && r.updatedAt == now
    ensures r.fields.name == name && r.fields.capacity == capacity && r.fields.location == location
    ensures r.fields.status == t.fields.status && r.fields.currentOrderId == t.fields.currentOrderId
    ensures r.fields.currentReservationId == t.fields.currentReservationId && r.fields.notes == t.fields.notes
  {
    t.(fields := t.fields.(name := name, capacity := capacity, location := location), updatedAt := now)
  }

  /** The edited cabin: the form's name, capacity, location and hourly price over the old record. */
  function EditedCabin(c: VipCabin, name: string, capacity: int, location: Option<string>,
                       pricePerHour: Option<int>, now: Timestamp): (r: VipCabin)
    ensures r.id == c.id && r.createdAt == c.createdAt && r.updatedAt == now
    ensures r.fields.name == name && r.fields.capacity == capacity && r.fields.location == location
    ensures r.fields.pricePerHour == pricePerHour
    ensures r.fields.status == c.fields.status && r.fields.currentOrderId == c.fields.currentOrderId
    ensures r.fields.currentReservationId == c.fields.currentReservationId
    ensures r.fields.amenities == c.fields.amenities && r.fields.notes == c.fields.notes
  {
    c.(fields := c.fields.(name := name, capacity := capacity, location := location, pricePerHour := pricePerHour),
       updatedAt := now)
  }

  /** `handleSaveEdit` for a table: the edited record replaces the stored one. */
  method SaveTableEdit(tables: Repository<TableFields>, t: Table, name: string, capacity: int,
                       location: Option<string>, now: Timestamp) returns (next: seq<Table>)
    requires tables.Valid()
    modifies tables, tables.store
    ensures tables.Valid()
    ensures AgreeOutside(old(tables.store.items), tables.store.items, {tables.key})
    ensures tables.store.writable || old(tables.Seeding()) ==>
      next == Updated(old(tables.View()), EditedTable(t, name, capacity, location, now), now)
  {
    tables.Update(EditedTable(t, name, capacity, location, now), now);
    next := tables.GetAll();
  }

  /** `handleSaveEdit` for a cabin: the edited record replaces the stored one. */
  method SaveCabinEdit(cabins: Repository<VipCabinFields>, c: VipCabin, name: string, capacity: int,
                       location: Option<string>, pricePerHour: Option<int>, now: Timestamp) returns (next: seq<VipCabin>)
    requires cabins.Valid()
    modifies cabins, cabins.store
    ensures cabins.Valid()
    ensures AgreeOutside(old(cabins.store.items), cabins.store.items, {cabins.key})
    ensures cabins.store.writable || old(cabins.Seeding()) ==>
      next == Updated(old(cabins.View()), EditedCabin(c, name, capacity, location, pricePerHour, now), now)
  {
    cabins.Update(EditedCabin(c, name, capacity, location, pricePerHour, now), now);
    next := cabins.GetAll();
  }

  /** Editing a table on the plan leaves its status and its order and reservation links as they were. */
  lemma {:induction false} EditKeepsTableState(xs: seq<Table>, t: Table, name: string, capacity: int, location: Option<string>, now: Timestamp)
    requires exists j :: 0 <= j < |xs| && xs[j].id == t.id
    ensures var found := FirstWithId(Updated(xs, EditedTable(t, name, capacity, location, now), now), t.id);
      && found.Some?
      && found.value.fields.status == t.fields.status
      && found.value.fields.currentOrderId == t.fields.currentOrderId
      && found.value.fields.currentReservationId == t.fields.currentReservationId
      && found.value.fields.name == name && found.value.fields.capacity == capacity
  {
    FindAfterUpdate(xs, EditedTable(t, name, capacity, location, now), now);
  }
}
