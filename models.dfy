/** The entities of the restaurant front-of-house tool (the files under src/models).
    Every stored entity carries an id and two timestamps; the envelope
    `Entity<F>` holds those, and `F` holds the entity's own fields. */
module Models {
  import opened Wrappers

  type Id = string
  /** An ISO-8601 timestamp, produced by the caller's clock. */
  type Timestamp = string

  datatype Entity<F> = Entity(id: Id, fields: F, createdAt: Timestamp, updatedAt: Timestamp)

  // ---- Table (src/models/Table.ts) ----

  datatype TableStatus = Free | Occupied | Reserved | WaitingPayment | Closed

  datatype TableFields = TableFields(
    name: string,
    status: TableStatus,
    capacity: int,
    location: Option<string>,
    currentOrderId: Option<Id>,
    currentReservationId: Option<Id>,
    notes: Option<string>)

  type Table = Entity<TableFields>

  // ---- VIP cabin (src/models/VipCabin.ts) ----

  datatype VipCabinStatus = Free | Occupied | Reserved | Maintenance

  datatype VipCabinFields = VipCabinFields(
    name: string,
    status: VipCabinStatus,
    capacity: int,
    pricePerHour: Option<int>,
    amenities: Option<seq<string>>,
    location: Option<string>,
    currentOrderId: Option<Id>,
    currentReservationId: Option<Id>,
    notes: Option<string>)

  type VipCabin = Entity<VipCabinFields>

  // ---- Menu (src/models/Category.ts, src/models/Dish.ts) ----

  datatype CategoryFields = CategoryFields(
    name: string,
    description: Option<string>,
    sortOrder: int,
    icon: Option<string>,
    isActive: bool)

  type Category = Entity<CategoryFields>

  /** Prices are whole currency units; the source's floating-point prices are not modelled. */
  datatype DishFields = DishFields(
    name: string,
    description: Option<string>,
    price: int,
    categoryId: Id,
    imageUrl: Option<string>,
    isAvailable: bool,
    preparationTime: Option<int>,
    allergens: Option<seq<string>>)

  type Dish = Entity<DishFields>

  /** The category filters' choice of every category. */
  const ALL: string := "all"

  /** The dish is not in the stop list. */
  function IsAvailable(d: Dish): bool { d.fields.isAvailable }

  /** The test `dish => dish.categoryId === categoryId`. */
  function InCategory(categoryId: Id): Dish -> bool { (d: Dish) => d.fields.categoryId == categoryId }

  // ---- Orders (src/models/Order.ts, src/models/OrderItem.ts) ----

  datatype OrderStatus = New | InProgress | Ready | Served | Paid | Cancelled

  /** The line item of src/models/Order.ts: no id of its own, keyed by dish. */
  datatype OrderLine = OrderLine(dishId: Id, dishName: string, quantity: int, price: int, notes: Option<string>)

  /** The line item of src/models/OrderItem.ts: has its own id and creation time. */
  datatype OrderItem = OrderItem(
    id: Id,
    dishId: Id,
    dishName: string,
    price: int,
    quantity: int,
    notes: Option<string>,
    createdAt: Timestamp)

  /** An order, parameterised by the shape of its line items. `tableName` and
      `vipCabinName` are the display snapshots that the order form writes. */
  datatype OrderFields<I> = OrderFields(
    tableId: Option<Id>,
    vipCabinId: Option<Id>,
    tableName: Option<string>,
    vipCabinName: Option<string>,
    waiterName: Option<string>,
    items: seq<I>,
    status: OrderStatus,
    totalAmount: int,
    notes: Option<string>)

  type Order = Entity<OrderFields<OrderLine>>
  type FormOrder = Entity<OrderFields<OrderItem>>

  /** Orders still in service: neither paid nor cancelled. */
  predicate IsActiveOrder(o: Order) {
    o.fields.status != OrderStatus.Paid && o.fields.status != OrderStatus.Cancelled
  }

  // ---- Reservations (src/models/Reservation.ts) ----

  datatype ReservationStatus = Pending | Confirmed | CheckedIn | Completed | Cancelled

  datatype ReservationType = TableBooking | CabinBooking

  datatype ReservationFields = ReservationFields(
    kind: ReservationType,
    tableId: Option<Id>,
    vipCabinId: Option<Id>,
    guestName: string,
    guestPhone: string,
    guestEmail: Option<string>,
    numberOfGuests: int,
    reservationDate: string,
    reservationTime: string,
    duration: Option<int>,
    status: ReservationStatus,
    specialRequests: Option<string>,
    notes: Option<string>)

  type Reservation = Entity<ReservationFields>

  /** A reservation that still holds its table or cabin. */
  predicate IsCurrentReservation(r: Reservation) {
    r.fields.status != ReservationStatus.Completed && r.fields.status != ReservationStatus.Cancelled
  }
}
