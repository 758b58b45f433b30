/** Reservations (src/pages/ReservationsPage.tsx): booking a table or cabin for
    a time, freeing it again, the time shown on its card, and the tables
    grouped by hall. The page's lists are passed in; the reservation id and
    the clock are parameters. */
module ReservationsPage {
  import opened Wrappers
  import opened Models
  import opened Sequences
  import opened Text
  import opened StorageService
  import opened Repositories

  /** `showReservationForm`: the table or cabin being booked. */
  datatype Booking = Booking(kind: ReservationType, id: Id, name: string)

  /** JavaScript truthiness of an optional id: absent and empty are both false. */
  predicate IsSet(o: Option<Id>)
  {
    o.Some? && o.value != ""
  }

  const DEFAULT_GUEST_NAME: string := "Гость"
  const DEFAULT_GUESTS: int := 2

  /** The reservation built by `handleConfirmReservation` from the form's
      `date time` text: the part before the first space is the date, the
      part after it (up to a second space) the time. */
  function NewReservation(booking: Booking, timeString: string, reservationId: Id, now: Timestamp): (r: Reservation)
    ensures r.id == reservationId && r.createdAt == now && r.updatedAt == now
    ensures r.fields.status == ReservationStatus.Confirmed && r.fields.kind == booking.kind
    ensures booking.kind == TableBooking ==> r.fields.tableId == Some(booking.id) && r.fields.vipCabinId.None?
    ensures booking.kind == CabinBooking ==> r.fields.vipCabinId == Some(booking.id) && r.fields.tableId.None?
    ensures r.fields.guestName == DEFAULT_GUEST_NAME && r.fields.guestPhone == "" && r.fields.numberOfGuests == DEFAULT_GUESTS
    ensures ' ' !in r.fields.reservationDate && ' ' !in r.fields.reservationTime
    ensures r.fields.reservationDate == Split(timeString, ' ')[0]
    ensures r.fields.reservationTime == if |Split(timeString, ' ')| >= 2 then Split(timeString, ' ')[1] else ""
  {
    var parts := Split(timeString, ' ');
    var date := parts[0];
    var time := if |parts| >= 2 then parts[1] else "";
    Entity(reservationId,
      ReservationFields(
        booking.kind,
        if booking.kind == TableBooking then Some(booking.id) else None,
        if booking.kind == CabinBooking then Some(booking.id) else None,
        DEFAULT_GUEST_NAME, "", None, DEFAULT_GUESTS,
        date, time, None, ReservationStatus.Confirmed, None, None),
      now, now)
  }

  /** The date is the text before the first space and the time the text after
      it, up to a second space; with no space the whole text is the date and
      the time is empty. */
  lemma {:induction false} NewReservationTimePieces(booking: Booking, timeString: string, reservationId: Id, now: Timestamp, k: nat)
    requires k < |timeString| && timeString[k] == ' ' && ' ' !in timeString[..k]
    ensures var r := NewReservation(booking, timeString, reservationId, now);
      && r.fields.reservationDate == timeString[..k]
      && r.fields.reservationTime == Split(timeString[k + 1..], ' ')[0]
  {
    assert timeString == timeString[..k] + [' '] + timeString[k + 1..];
    SplitThenSeparator(timeString[..k], ' ', timeString[k + 1..]);
  }

  /** A text with no space is all date, with an empty time. */
  lemma {:induction false} NewReservationWithoutSpace(booking: Booking, timeString: string, reservationId: Id, now: Timestamp)
    requires ' ' !in timeString
    ensures var r := NewReservation(booking, timeString, reservationId, now);
      r.fields.reservationDate == timeString && r.fields.reservationTime == ""
  {
    SplitPiece(timeString, ' ');
  }

  /** The form sends `${date} ${time}`; the page splits it back into the same two halves. */
  lemma {:induction false} ConfirmedTimeRoundTrip(booking: Booking, date: string, time: string, reservationId: Id, now: Timestamp)
    requires ' ' !in date && ' ' !in time
    ensures var r := NewReservation(booking, date + " " + time, reservationId, now);
      r.fields.reservationDate == date && r.fields.reservationTime == time
  {
    JoinedDateTimeSplits(date, time);
  }

  /** The booked table: reserved, pointing at the reservation. */
  function ReservedTable(t: Table, reservationId: Id, now: Timestamp): (r: Table)
    ensures r.id == t.id && r.fields.status == TableStatus.Reserved && r.fields.currentReservationId == Some(reservationId)
    ensures r.fields.currentOrderId == t.fields.currentOrderId && r.fields.name == t.fields.name
  {
    t.(fields := t.fields.(status := TableStatus.Reserved, currentReservationId := Some(reservationId)), updatedAt := now)
  }

  /** The booked cabin: reserved, pointing at the reservation. */
  function ReservedCabin(c: VipCabin, reservationId: Id, now: Timestamp): (r: VipCabin)
    ensures r.id == c.id && r.fields.status == VipCabinStatus.Reserved && r.fields.currentReservationId == Some(reservationId)
    ensures r.fields.currentOrderId == c.fields.currentOrderId && r.fields.name == c.fields.name
  {
    c.(fields := c.fields.(status := VipCabinStatus.Reserved, currentReservationId := Some(reservationId)), updatedAt := now)
  }

  /** The freed table: free, with no reservation. */
  function FreedTable(t: Table, now: Timestamp): (r: Table)
    ensures r.id == t.id && r.fields.status == TableStatus.Free && r.fields.currentReservationId.None?
    ensures r.fields.currentOrderId == t.fields.currentOrderId && r.fields.name == t.fields.name
  {
    t.(fields := t.fields.(status := TableStatus.Free, currentReservationId := None), updatedAt := now)
  }

  /** The freed cabin: free, with no reservation. */
  function FreedCabin(c: VipCabin, now: Timestamp): (r: VipCabin)
    ensures r.id == c.id && r.fields.status == VipCabinStatus.Free && r.fields.currentReservationId.None?
    ensures r.fields.currentOrderId == c.fields.currentOrderId && r.fields.name == c.fields.name
  {
    c.(fields := c.fields.(status := VipCabinStatus.Free, currentReservationId := None), updatedAt := now)
  }

  /** The stored reservations after cancelling the one with this id, if there is one. */
  function Cancelled(rs: seq<Reservation>, reservationId: Id, now: Timestamp): (r: seq<Reservation>)
    ensures |r| == |rs|
    ensures FirstWithId(rs, reservationId).None? ==> r == rs
    ensures FirstWithId(rs, reservationId).Some? ==>
      var found := FirstWithId(r, reservationId);
      found.Some? && found.value.fields.status == ReservationStatus.Cancelled &&
      found.value.fields == FirstWithId(rs, reservationId).value.fields.(status := ReservationStatus.Cancelled)
    ensures forall j :: 0 <= j < |rs| && rs[j].id != reservationId ==> r[j] == rs[j]
    ensures FirstWithId(rs, reservationId).Some? ==>
      exists i :: 0 <= i < |rs| && rs[i].id == reservationId && (forall j :: 0 <= j < i ==> rs[j].id != reservationId) &&
                  r == rs[i := rs[i].(fields := rs[i].fields.(status := ReservationStatus.Cancelled), updatedAt := now)]
  {
    match FirstWithId(rs, reservationId)
    case None => rs
    case Some(res) =>
      var cancelled := res.(fields := res.fields.(status := ReservationStatus.Cancelled), updatedAt := now);
      FindAfterUpdate(rs, cancelled, now);
      Updated(rs, cancelled, now)
  }

  /** The three repositories the page writes, over one store. */
  ghost predicate Wired(reservations: Repository<ReservationFields>, tables: Repository<TableFields>, cabins: Repository<VipCabinFields>)
    reads reservations, tables, cabins
  {
    && reservations.Valid() && tables.Valid() && cabins.Valid() && reservations.seed.None?
    && SameStore(reservations, tables) && SameStore(reservations, cabins) && SameStore(tables, cabins)
  }

  // ---- Confirming a booking ----

  /** The stored tables after a booking: the booked table, when it is on the
      page's list, replaced by its reserved copy. */
  function TablesAfterBooking(ts: seq<Table>, booking: Booking, tableList: seq<Table>, reservationId: Id, now: Timestamp): seq<Table>
  {
    var t := FirstWithId(tableList, booking.id);
    if booking.kind == TableBooking && t.Some? then Updated(ts, ReservedTable(t.value, reservationId, now), now) else ts
  }

  /** The stored cabins after a booking, likewise. */
  function CabinsAfterBooking(cs: seq<VipCabin>, booking: Booking, cabinList: seq<VipCabin>, reservationId: Id, now: Timestamp): seq<VipCabin>
  {
    var c := FirstWithId(cabinList, booking.id);
    if booking.kind == CabinBooking && c.Some? then Updated(cs, ReservedCabin(c.value, reservationId, now), now) else cs
  }

  /** `handleConfirmReservation`: store the new reservation, then mark the
      booked table or cabin (looked up in the page's list) reserved by it.
      Without an open booking form nothing happens. */
  method HandleConfirmReservation(reservations: Repository<ReservationFields>, tables: Repository<TableFields>,
                                  cabins: Repository<VipCabinFields>, booking: Option<Booking>, timeString: string,
                                  tableList: seq<Table>, cabinList: seq<VipCabin>, reservationId: Id, now: Timestamp)
    requires Wired(reservations, tables, cabins)
    modifies reservations, tables, cabins, reservations.store
    ensures Wired(reservations, tables, cabins)
    ensures booking.None? ==> reservations.store.items == old(reservations.store.items)
    ensures AgreeOutside(old(reservations.store.items), reservations.store.items, {reservations.key, tables.key, cabins.key})
    ensures reservations.View() == if booking.Some? && reservations.store.writable
      then old(reservations.View()) + [NewReservation(booking.value, timeString, reservationId, now)]
      else old(reservations.View())
    ensures tables.View() == if booking.Some? && (reservations.store.writable || old(tables.Seeding()))
      then TablesAfterBooking(old(tables.View()), booking.value, tableList, reservationId, now)
      else old(tables.View())
    ensures cabins.View() == if booking.Some? && (reservations.store.writable || old(cabins.Seeding()))
      then CabinsAfterBooking(old(cabins.View()), booking.value, cabinList, reservationId, now)
      else old(cabins.View())
  {
    if booking.None? {
      return;
    }
    ghost var before := reservations.store.items;
    reservations.Add(NewReservation(booking.value, timeString, reservationId, now));
    ghost var added := reservations.store.items;
    LoadAgrees(before, added, {reservations.key}, tables.key, [], tables.unwrap);
    LoadAgrees(before, added, {reservations.key}, cabins.key, [], cabins.unwrap);
    ReservePlace(reservations, tables, cabins, booking.value, tableList, cabinList, reservationId, now);
    AgreeOutsideTrans(before, added, reservations.store.items, {reservations.key}, {tables.key, cabins.key});
  }

  /** The second half of `handleConfirmReservation`: the booked table or
      cabin, when it is on the page's list, becomes reserved. */
  method ReservePlace(reservations: Repository<ReservationFields>, tables: Repository<TableFields>,
                      cabins: Repository<VipCabinFields>, booking: Booking, tableList: seq<Table>,
                      cabinList: seq<VipCabin>, reservationId: Id, now: Timestamp)
    requires Wired(reservations, tables, cabins)
    modifies tables, cabins, reservations.store
    ensures Wired(reservations, tables, cabins)
    ensures AgreeOutside(old(reservations.store.items), reservations.store.items, {tables.key, cabins.key})
    ensures reservations.View() == old(reservations.View())
    ensures tables.View() == if reservations.store.writable || old(tables.Seeding())
                             then TablesAfterBooking(old(tables.View()), booking, tableList, reservationId, now)
                             else old(tables.View())
    ensures cabins.View() == if reservations.store.writable || old(cabins.Seeding())
                             then CabinsAfterBooking(old(cabins.View()), booking, cabinList, reservationId, now)
                             else old(cabins.View())
  {
    if booking.kind == TableBooking {
      var t := FindWhere(tableList, HasId(booking.id));
      if t.Some? {
        ReserveTable(reservations, tables, cabins, t.value, reservationId, now);
      }
    } else {
      var c := FindWhere(cabinList, HasId(booking.id));
      if c.Some? {
        ReserveCabin(reservations, tables, cabins, c.value, reservationId, now);
      }
    }
  }

  /** The second half of a confirmed booking for a table. */
  method ReserveTable(reservations: Repository<ReservationFields>, tables: Repository<TableFields>,
                      cabins: Repository<VipCabinFields>, t: Table, reservationId: Id, now: Timestamp)
    requires Wired(reservations, tables, cabins)
    modifies tables, reservations.store
    ensures Wired(reservations, tables, cabins)
    ensures AgreeOutside(old(reservations.store.items), reservations.store.items, {tables.key})
    ensures reservations.View() == old(reservations.View()) && cabins.View() == old(cabins.View())
    ensures tables.View() == if reservations.store.writable || old(tables.Seeding())
                             then Updated(old(tables.View()), ReservedTable(t, reservationId, now), now) else old(tables.View())
  {
    tables.Update(ReservedTable(t, reservationId, now), now);
    LoadAgrees(old(reservations.store.items), reservations.store.items, {tables.key}, reservations.key, [], reservations.unwrap);
    LoadAgrees(old(reservations.store.items), reservations.store.items, {tables.key}, cabins.key, [], cabins.unwrap);
  }

  /** The second half of a confirmed booking for a cabin. */
  method ReserveCabin(reservations: Repository<ReservationFields>, tables: Repository<TableFields>,
                      cabins: Repository<VipCabinFields>, c: VipCabin, reservationId: Id, now: Timestamp)
    requires Wired(reservations, tables, cabins)
    modifies cabins, reservations.store
    ensures Wired(reservations, tables, cabins)
    ensures AgreeOutside(old(reservations.store.items), reservations.store.items, {cabins.key})
    ensures reservations.View() == old(reservations.View()) && tables.View() == old(tables.View())
    ensures cabins.View() == if reservations.store.writable || old(cabins.Seeding())
                             then Updated(old(cabins.View()), ReservedCabin(c, reservationId, now), now) else old(cabins.View())
  {
    cabins.Update(ReservedCabin(c, reservationId, now), now);
    LoadAgrees(old(reservations.store.items), reservations.store.items, {cabins.key}, reservations.key, [], reservations.unwrap);
    LoadAgrees(old(reservations.store.items), reservations.store.items, {cabins.key}, tables.key, [], tables.unwrap);
  }

  /** After a confirmed booking, the booked table is found reserved by the new reservation. */
  lemma {:induction false} ConfirmedTableIsReserved(ts: seq<Table>, t: Table, reservationId: Id, now: Timestamp)
    requires exists j :: 0 <= j < |ts| && ts[j].id == t.id
    ensures var found := FirstWithId(Updated(ts, ReservedTable(t, reservationId, now), now), t.id);
      found.Some? && found.value.fields.status == TableStatus.Reserved &&
      found.value.fields.currentReservationId == Some(reservationId)
  {
    FindAfterUpdate(ts, ReservedTable(t, reservationId, now), now);
  }

  // ---- Freeing ----

  /** `reservationsRepository.findById` followed by an `update` to `cancelled`, when found. */
  method CancelReservation(reservations: Repository<ReservationFields>, tables: Repository<TableFields>,
                           cabins: Repository<VipCabinFields>, reservationId: Id, now: Timestamp)
    requires Wired(reservations, tables, cabins)
    modifies reservations, reservations.store
    ensures Wired(reservations, tables, cabins)
    ensures AgreeOutside(old(reservations.store.items), reservations.store.items, {reservations.key})
    ensures tables.View() == old(tables.View()) && cabins.View() == old(cabins.View())
    ensures reservations.View() == if reservations.store.writable
      then Cancelled(old(reservations.View()), reservationId, now) else old(reservations.View())
  {
    var found := reservations.FindById(reservationId);
    if found.Some? {
      var res := found.value;
      reservations.Update(res.(fields := res.fields.(status := ReservationStatus.Cancelled), updatedAt := now), now);
    }
    LoadAgrees(old(reservations.store.items), reservations.store.items, {reservations.key}, tables.key, [], tables.unwrap);
    LoadAgrees(old(reservations.store.items), reservations.store.items, {reservations.key}, cabins.key, [], cabins.unwrap);
  }

  /** `handleFreeTable`: for a table on the page that points at a reservation,
      cancel that reservation (if it is still stored) and free the table.
      An unknown table, or one without a reservation, changes nothing. */
  method HandleFreeTable(reservations: Repository<ReservationFields>, tables: Repository<TableFields>,
                         cabins: Repository<VipCabinFields>, tableList: seq<Table>, tableId: Id, now: Timestamp)
    requires Wired(reservations, tables, cabins)
    modifies reservations, tables, reservations.store
    ensures Wired(reservations, tables, cabins)
    ensures var t := FirstWithId(tableList, tableId);
      t.None? || !IsSet(t.value.fields.currentReservationId) ==> reservations.store.items == old(reservations.store.items)
    ensures AgreeOutside(old(reservations.store.items), reservations.store.items, {reservations.key, tables.key})
    ensures cabins.View() == old(cabins.View())
    ensures var t := FirstWithId(tableList, tableId);
      reservations.View() == if t.Some? && IsSet(t.value.fields.currentReservationId) && reservations.store.writable
        then Cancelled(old(reservations.View()), t.value.fields.currentReservationId.value, now)
        else old(reservations.View())
    ensures var t := FirstWithId(tableList, tableId);
      tables.View() == if t.Some? && IsSet(t.value.fields.currentReservationId)
                          && (reservations.store.writable || old(tables.Seeding()))
        then Updated(old(tables.View()), FreedTable(t.value, now), now)
        else old(tables.View())
  {
    var t := FindWhere(tableList, HasId(tableId));
    if t.None? || !IsSet(t.value.fields.currentReservationId) {
      return;
    }
    ghost var before := reservations.store.items;
    CancelReservation(reservations, tables, cabins, t.value.fields.currentReservationId.value, now);
    ghost var cancelled := reservations.store.items;
    FreeTableRecord(reservations, tables, cabins, t.value, now);
    AgreeOutsideTrans(before, cancelled, reservations.store.items, {reservations.key}, {tables.key});
  }

  /** `handleFreeCabin`: as for a table, over the cabins. */
  method HandleFreeCabin(reservations: Repository<ReservationFields>, tables: Repository<TableFields>,
                         cabins: Repository<VipCabinFields>, cabinList: seq<VipCabin>, cabinId: Id, now: Timestamp)
    requires Wired(reservations, tables, cabins)
    modifies reservations, cabins, reservations.store
    ensures Wired(reservations, tables, cabins)
    ensures var c := FirstWithId(cabinList, cabinId);
      c.None? || !IsSet(c.value.fields.currentReservationId) ==> reservations.store.items == old(reservations.store.items)
    ensures AgreeOutside(old(reservations.store.items), reservations.store.items, {reservations.key, cabins.key})
    ensures tables.View() == old(tables.View())
    ensures var c := FirstWithId(cabinList, cabinId);
      reservations.View() == if c.Some? && IsSet(c.value.fields.currentReservationId) && reservations.store.writable
        then Cancelled(old(reservations.View()), c.value.fields.currentReservationId.value, now)
        else old(reservations.View())
    ensures var c := FirstWithId(cabinList, cabinId);
      cabins.View() == if c.Some? && IsSet(c.value.fields.currentReservationId)
                          && (reservations.store.writable || old(cabins.Seeding()))
        then Updated(old(cabins.View()), FreedCabin(c.value, now), now)
        else old(cabins.View())
  {
    var c := FindWhere(cabinList, HasId(cabinId));
    if c.None? || !IsSet(c.value.fields.currentReservationId) {
      return;
    }
    ghost var before := reservations.store.items;
    CancelReservation(reservations, tables, cabins, c.value.fields.currentReservationId.value, now);
    ghost var cancelled := reservations.store.items;
    FreeCabinRecord(reservations, tables, cabins, c.value, now);
    AgreeOutsideTrans(before, cancelled, reservations.store.items, {reservations.key}, {cabins.key});
  }

  /** The second half of `handleFreeTable`: the table is stored free. */
  method FreeTableRecord(reservations: Repository<ReservationFields>, tables: Repository<TableFields>,
                         cabins: Repository<VipCabinFields>, t: Table, now: Timestamp)
    requires Wired(reservations, tables, cabins)
    modifies tables, reservations.store
    ensures Wired(reservations, tables, cabins)
    ensures AgreeOutside(old(reservations.store.items), reservations.store.items, {tables.key})
    ensures reservations.View() == old(reservations.View()) && cabins.View() == old(cabins.View())
    ensures tables.View() == if reservations.store.writable || old(tables.Seeding())
                             then Updated(old(tables.View()), FreedTable(t, now), now) else old(tables.View())
  {
    tables.Update(FreedTable(t, now), now);
    LoadAgrees(old(reservations.store.items), reservations.store.items, {tables.key}, reservations.key, [], reservations.unwrap);
    LoadAgrees(old(reservations.store.items), reservations.store.items, {tables.key}, cabins.key, [], cabins.unwrap);
  }

  /** The second half of `handleFreeCabin`: the cabin is stored free. */
  method FreeCabinRecord(reservations: Repository<ReservationFields>, tables: Repository<TableFields>,
                         cabins: Repository<VipCabinFields>, c: VipCabin, now: Timestamp)
    requires Wired(reservations, tables, cabins)
    modifies cabins, reservations.store
    ensures Wired(reservations, tables, cabins)
    ensures AgreeOutside(old(reservations.store.items), reservations.store.items, {cabins.key})
    ensures reservations.View() == old(reservations.View()) && tables.View() == old(tables.View())
    ensures cabins.View() == if reservations.store.writable || old(cabins.Seeding())
                             then Updated(old(cabins.View()), FreedCabin(c, now), now) else old(cabins.View())
  {
    cabins.Update(FreedCabin(c, now), now);
    LoadAgrees(old(reservations.store.items), reservations.store.items, {cabins.key}, reservations.key, [], reservations.unwrap);
    LoadAgrees(old(reservations.store.items), reservations.store.items, {cabins.key}, tables.key, [], tables.unwrap);
  }

  /** After freeing, the table is found free with no reservation. */
  lemma {:induction false} FreedTableIsFree(ts: seq<Table>, t: Table, now: Timestamp)
    requires exists j :: 0 <= j < |ts| && ts[j].id == t.id
    ensures var found := FirstWithId(Updated(ts, FreedTable(t, now), now), t.id);
      found.Some? && found.value.fields.status == TableStatus.Free && found.value.fields.currentReservationId.None?
  {
    FindAfterUpdate(ts, FreedTable(t, now), now);
  }

  // ---- The time on a card ----

  /** The table or cabin a card shows, reduced to what the time lookup needs. */
  function ReservationRef(kind: ReservationType, id: Id, tableList: seq<Table>, cabinList: seq<VipCabin>): Option<Id>
  {
    if kind == TableBooking then
      match FirstWithId(tableList, id)
      case None => None
      case Some(t) => t.fields.currentReservationId
    else
      match FirstWithId(cabinList, id)
      case None => None
      case Some(c) => c.fields.currentReservationId
  }

  /** `getReservationTime`: `date time` of the reservation the card points at,
      only while that reservation is neither cancelled nor completed. */
  function GetReservationTime(kind: ReservationType, id: Id, tableList: seq<Table>, cabinList: seq<VipCabin>,
                              reservations: seq<Reservation>): (r: Option<string>)
    ensures var ref := ReservationRef(kind, id, tableList, cabinList);
      r.Some? <==> IsSet(ref) && FirstWithId(reservations, ref.value).Some? &&
                   IsCurrentReservation(FirstWithId(reservations, ref.value).value)
    ensures r.Some? ==>
      var res := FirstWithId(reservations, ReservationRef(kind, id, tableList, cabinList).value).value;
      r.value == res.fields.reservationDate + " " + res.fields.reservationTime
  {
    var ref := ReservationRef(kind, id, tableList, cabinList);
    if !IsSet(ref) then None
    else
      match FirstWithId(reservations, ref.value)
      case Some(res) =>
        if IsCurrentReservation(res) then Some(res.fields.reservationDate + " " + res.fields.reservationTime) else None
      case None => None
  }

  /** The time shown on a card splits back into the reservation's date and time. */
  lemma {:induction false} ShownTimeSplits(kind: ReservationType, id: Id, tableList: seq<Table>, cabinList: seq<VipCabin>,
                        reservations: seq<Reservation>)
    requires GetReservationTime(kind, id, tableList, cabinList, reservations).Some?
    requires forall j :: 0 <= j < |reservations| ==>
      ' ' !in reservations[j].fields.reservationDate && ' ' !in reservations[j].fields.reservationTime
    ensures var res := FirstWithId(reservations, ReservationRef(kind, id, tableList, cabinList).value).value;
      Split(GetReservationTime(kind, id, tableList, cabinList, reservations).value, ' ') ==
        [res.fields.reservationDate, res.fields.reservationTime]
  {
    var res := FirstWithId(reservations, ReservationRef(kind, id, tableList, cabinList).value).value;
    var j :| 0 <= j < |reservations| && reservations[j] == res;
    JoinedDateTimeSplits(res.fields.reservationDate, res.fields.reservationTime);
  }

  // ---- Tables by hall ----

  const OTHER_LOCATION: string := "Другое"

  /** `table.location || 'Другое'`. */
  function LocationKey(t: Table): (r: string)
    ensures r != ""
    ensures t.fields.location.Some? && t.fields.location.value != "" ==> r == t.fields.location.value
    ensures t.fields.location.None? || t.fields.location.value == "" ==> r == OTHER_LOCATION
  {
    if t.fields.location.Some? && t.fields.location.value != "" then t.fields.location.value else OTHER_LOCATION
  }

  /** `tablesByLocation`: the tables grouped by hall, with the tables without one under "Другое". */
  method TablesByLocation(tables: seq<Table>) returns (grouped: map<string, seq<Table>>)
    ensures grouped == GroupBy(tables, LocationKey)
  {
    grouped := GroupItems(tables, LocationKey);
  }

  /** Every table lands in the group of its hall, every group holds exactly
      the tables of that hall in their order on the plan, and no group is empty. */
  lemma {:induction false} TablesByLocationPartition(tables: seq<Table>, location: string)
    ensures location in GroupBy(tables, LocationKey) <==> exists j :: 0 <= j < |tables| && LocationKey(tables[j]) == location
    ensures location in GroupBy(tables, LocationKey) ==>
      var g := GroupBy(tables, LocationKey)[location];
      && (forall t :: t in g <==> t in tables && LocationKey(t) == location)
      && SubsequenceOf(g, tables)
  {
    GroupByIsPartition(tables, LocationKey, location);
    FilterIsSubsequence(tables, KeyIs(LocationKey, location));
  }
}
