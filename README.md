# Cafe admin: storage, repositories and page handlers

This project models the data layer and the page logic of a small cafe
administration app (a React single-page app that keeps everything in the
browser's `localStorage`). It covers:

- the storage service: a key/value store of parsed JSON values, with save,
  load (default on a missing or unreadable value), and clear;
- the six repositories (tables, VIP cabins, dishes, categories, orders,
  reservations) as one generic `Repository<F>` class over an entity envelope
  `Entity<F>(id, fields, createdAt, updatedAt)`: `getAll` (which writes and
  returns the sample list when the stored list is empty, for the four seeded
  collections), `saveAll`, `add`, `update`, `delete`, `findById`, and the
  order and reservation queries;
- the handlers of the orders page, the order form, the tables page (drag and
  drop reordering, add, edit), the reservations page (confirm, free, time
  display, grouping by location), menu management (save dish, save and
  delete category, stop-list toggle), dish search and the menu.

Handlers take the page's current lists as parameters; the clock (`now`) and
fresh ids (`Date.now()` based) are parameters too. Store writes go through
`LocalStorage.items`, and each handler states the new store and the lists it
reads back. Item edits, totals, filters and validation are functions with
lemmas; loops in the source (`forEach`/`push` grouping, `clearStorage`) are
methods with loop invariants; the swap and move-to-end of the tables page
work on a copied array.

Properties proved include: save/load round trips and isolation of other
keys; `clearStorage` removing exactly the listed keys; `add` appending one
entry; `update` replacing only the first entry with the id, with an unknown
id writing nothing; `delete` keeping the others in order; order creation
refusing empty or placeless drafts and occupying the chosen table or cabin;
dish ids staying unique and quantities positive under item edits; the
quantity of an item after a change; the swap and move-to-end being
permutations; the reservation date/time split inverting the join; grouping
as an order-preserving partition; the category sort being sorted, a
permutation and stable; a new category sorting last; and a dish being on the
menu exactly when an active category carries its id.

## Model

| member | source | states |
|---|---|---|
| StorageService.Load | src/services/storageService.ts:27-38 | a missing key gives the default; a present key gives its parsed value, or the default when it does not parse as the expected kind |
| StorageService.LocalStorage.SaveToStorage | src/services/storageService.ts:16-22 | the key gets the value; a store refusing writes is left as it was, with no error |
| StorageService.LocalStorage.LoadFromStorage | src/services/storageService.ts:27-38 | returns the stored value when it parses, else the default |
| StorageService.LocalStorage.ClearStorage | src/services/storageService.ts:43-47 | removes exactly the keys of STORAGE_KEYS; every other key keeps its value |
| StorageService.LoadAfterSave | src/services/storageService.ts:16-34 | loading a key right after saving a readable value under it gives that value |
| StorageService.SaveKeepsOtherKeys | src/services/storageService.ts:16-22 | saving under one key leaves every other key's load unchanged |
| StorageService.LoadAfterClear | src/services/storageService.ts:43-47 | after clearing, every STORAGE_KEYS key loads the default, and the orders key loads what it did before |
| StorageService.LoadAgrees | src/services/storageService.ts:27-38 | two stores agreeing outside a set of keys load the same value for a key outside it |
| Repositories.FirstWithId | src/services/tablesRepository.ts:64-67 | none exactly when no entry has the id; otherwise the entry at the first position holding that id |
| Repositories.Updated | src/services/tablesRepository.ts:43-50 | an absent id changes nothing; otherwise exactly the first position holding the id is replaced by the entry stamped with `now`, so later duplicates and other ids stay |
| Repositories.WithoutId | src/services/tablesRepository.ts:55-59 | exactly the entries without the id, as an order-preserving subsequence; unchanged when the id is absent |
| Repositories.Repository.GetAll | src/services/tablesRepository.ts:14-22 | returns the stored list, or the sample list when the stored one is empty, and writes the sample list in that case |
| Repositories.Repository.SaveAll | src/services/tablesRepository.ts:27-29 | the key holds the list; other keys untouched; a non-empty saved list is what `getAll` returns next |
| Repositories.Repository.Add | src/services/tablesRepository.ts:34-38 | the list read back is the old one with the entry appended; other keys untouched |
| Repositories.Repository.Update | src/services/tablesRepository.ts:43-50 | the list read back is `Updated` (first entry with the id replaced and stamped); an unknown id writes nothing beyond `getAll`'s own write |
| Repositories.Repository.Delete | src/services/tablesRepository.ts:55-59 | the stored list is `WithoutId` of the old one; other keys untouched |
| Repositories.Repository.FindById | src/services/tablesRepository.ts:64-67 | returns `FirstWithId` of the list `getAll` returns |
| Repositories.Repository.ReadAll | src/services/ordersRepository.ts:13-15 | an unseeded repository returns the stored list, or the empty list |
| Repositories.FindAfterUpdate | src/services/tablesRepository.ts:43-50 | after an update of an existing id, `findById` finds the new entry with the new stamp |
| Repositories.FindAfterDelete | src/services/tablesRepository.ts:55-67 | after a delete, `findById` finds nothing with that id |
| Repositories.FindAfterAdd | src/services/tablesRepository.ts:34-38 | after adding an entry with a new id, `findById` finds it |
| Repositories.NewTablesRepository | src/services/tablesRepository.ts:8-9 | the tables repository reads the tables key and seeds from the sample tables |
| Repositories.NewVipCabinsRepository | src/services/vipCabinsRepository.ts:8-9 | the cabins repository reads the cabins key and seeds from the sample cabins |
| Repositories.NewDishesRepository | src/services/dishesRepository.ts:8-9 | the dishes repository reads the dishes key and seeds from the sample dishes |
| Repositories.NewCategoriesRepository | src/services/categoriesRepository.ts:8-9 | the categories repository reads the categories key and seeds from the sample categories |
| Repositories.NewOrdersRepository | src/services/ordersRepository.ts:7-8 | the orders repository reads the orders key and is never seeded |
| Repositories.NewReservationsRepository | src/services/reservationsRepository.ts:7-8 | the reservations repository reads the reservations key and is never seeded |
| Repositories.OrdersForTable | src/services/ordersRepository.ts:65-68 | exactly the orders of that table, in stored order |
| Repositories.OrdersForCabin | src/services/ordersRepository.ts:73-76 | exactly the orders of that cabin, in stored order |
| Repositories.ActiveOrders | src/services/ordersRepository.ts:81-86 | exactly the orders neither paid nor cancelled, in stored order |
| Repositories.FindOrdersByTableId | src/services/ordersRepository.ts:65-68 | returns `OrdersForTable` of the stored orders |
| Repositories.FindOrdersByVipCabinId | src/services/ordersRepository.ts:73-76 | returns `OrdersForCabin` of the stored orders |
| Repositories.GetActiveOrders | src/services/ordersRepository.ts:81-86 | returns `ActiveOrders` of the stored orders |
| Repositories.CurrentReservationForTable | src/services/reservationsRepository.ts:65-68 | the first reservation of the table that is neither completed nor cancelled; none exactly when there is no such reservation |
| Repositories.CurrentReservationForCabin | src/services/reservationsRepository.ts:70-73 | the same for a cabin |
| Repositories.FindReservationByTableId | src/services/reservationsRepository.ts:65-68 | returns `CurrentReservationForTable` of the stored reservations |
| Repositories.FindReservationByVipCabinId | src/services/reservationsRepository.ts:70-73 | returns `CurrentReservationForCabin` of the stored reservations |
| OrdersPage.FilteredDishes | src/pages/OrdersPage.tsx:43-46 | exactly the available dishes of the chosen category (all of them for 'all'), in order |
| OrdersPage.SelectTable | src/pages/OrdersPage.tsx:49-54 | the table is chosen, the cabin cleared, the items and notes emptied |
| OrdersPage.SelectCabin | src/pages/OrdersPage.tsx:56-61 | the cabin is chosen, the table cleared, the items and notes emptied |
| OrdersPage.AddDish | src/pages/OrdersPage.tsx:64-87 | a dish already present keeps the length; otherwise a line of quantity 1 with the dish's name and price is appended; dish ids and prices of existing lines stay |
| OrdersPage.AddDishAsUpdate | src/pages/OrdersPage.tsx:64-78 | with unique dish ids, adding a present dish raises only its line's quantity by 1 |
| OrdersPage.AddDishKeepsValid | src/pages/OrdersPage.tsx:64-87 | unique dish ids and positive quantities are kept by adding a dish |
| OrdersPage.AddDishCounts | src/pages/OrdersPage.tsx:64-87 | the quantity of the added dish grows by 1 and every other dish's quantity is unchanged |
| OrdersPage.AddDishTotal | src/pages/OrdersPage.tsx:64-87 | the total grows by the price of the line bumped, or by the dish's price |
| OrdersPage.UpdateQuantity | src/pages/OrdersPage.tsx:90-100 | quantity 0 or less removes the dish's lines and keeps the others in order (a subsequence); otherwise only that dish's lines get the quantity |
| OrdersPage.UpdateQuantityKeepsValid | src/pages/OrdersPage.tsx:90-100 | unique dish ids and positive quantities are kept by a quantity update |
| OrdersPage.UpdateQuantityCounts | src/pages/OrdersPage.tsx:90-100 | the dish's quantity becomes the new one (0 when removed or absent); other dishes' quantities are unchanged |
| OrdersPage.CreateOrder | src/pages/OrdersPage.tsx:103-129 | refused exactly for no items, then for no place; otherwise a new order with the items, their total, the place ids and the notes |
| OrdersPage.OccupiedTable | src/pages/OrdersPage.tsx:135-144 | the table becomes occupied by the order; its reservation link stays |
| OrdersPage.OccupiedCabin | src/pages/OrdersPage.tsx:146-155 | the cabin becomes occupied by the order; its reservation link stays |
| OrdersPage.HandleCreateOrder | src/pages/OrdersPage.tsx:103-162 | a refused draft writes nothing; otherwise the order is appended, the chosen table and/or cabin are occupied, and the draft is reset; a store refusing writes keeps every list, except that a table or cabin list read from its sample list is changed in that sample list |
| OrdersPage.PlaceOrder | src/pages/OrdersPage.tsx:131-155 | the order is appended and the chosen places occupied; only the three keys change |
| OrdersPage.OccupyPlaces | src/pages/OrdersPage.tsx:135-155 | the chosen table and/or cabin are occupied (with a refusing store, only in a sample list in use); the orders are untouched |
| OrdersPage.OccupyTable | src/pages/OrdersPage.tsx:135-144 | the tables read back are `Updated` with the occupied table when the store takes the write or the sample list is in use, else unchanged; orders and cabins untouched |
| OrdersPage.OccupyCabin | src/pages/OrdersPage.tsx:146-155 | the cabins read back are `Updated` with the occupied cabin when the store takes the write or the sample list is in use, else unchanged; orders and tables untouched |
| OrdersPage.CreatedOrderOccupiesTable | src/pages/OrdersPage.tsx:135-144 | after creation, the table found by id is occupied with the new order's id |
| OrdersPage.CreatedOrderOccupiesCabin | src/pages/OrdersPage.tsx:146-155 | after creation, the cabin found by id is occupied with the new order's id |
| OrdersPage.StatusUpdateOnlyStatus | src/pages/OrdersPage.tsx:165-176 | only the status of the first order with the id changes; an unknown id changes nothing |
| OrdersPage.HandleUpdateOrderStatus | src/pages/OrdersPage.tsx:165-176 | the orders read back have the new status; an unknown id writes nothing; only the orders key changes |
| OrdersPage.TotalPrice | src/pages/OrdersPage.tsx:187-190 | the sum of price × quantity over the lines: 0 for none, one line's price × quantity for one, never negative for non-negative prices and quantities |
| OrdersPage.WithStatus | src/pages/OrdersPage.tsx:168-172 | only the status changes, plus the stamp; id and creation time stay |
| OrdersPage.StatusUpdated | src/pages/OrdersPage.tsx:165-176 | same length and ids; orders with other ids unchanged; an unknown id changes nothing |
| OrderForm.OrElse | src/components/OrderForm.tsx:32-40 | `a \|\| b` on strings: a present non-empty `a` is the result, otherwise `b` |
| OrderForm.InitialState | src/components/OrderForm.tsx:32-40 | an edited order's items, status and notes; its table and cabin when set, else the initial ones, else none; a new form is empty with the initial place |
| OrderForm.SelectTable | src/components/OrderForm.tsx:166-169 | choosing a table clears the cabin, so at most one place is set |
| OrderForm.SelectCabin | src/components/OrderForm.tsx:183-186 | choosing a cabin clears the table, so at most one place is set |
| OrderForm.AvailableDishes | src/components/OrderForm.tsx:45-50 | exactly the available dishes whose lower-cased name contains the lower-cased query, in order; an empty query keeps all available dishes |
| OrderForm.AddDish | src/components/OrderForm.tsx:59-84 | a present dish bumps one item; otherwise a new item of quantity 1 with a fresh id is appended |
| OrderForm.AddDishAsUpdate | src/components/OrderForm.tsx:59-70 | adding a present dish raises the first matching item's quantity by 1 and nothing else |
| OrderForm.AddDishKeepsValid | src/components/OrderForm.tsx:59-84 | unique item ids and positive quantities are kept, given a fresh item id |
| OrderForm.AddDishTotal | src/components/OrderForm.tsx:53-84 | the total grows by the bumped item's price, or by the dish's price |
| OrderForm.QuantityChangeOthers | src/components/OrderForm.tsx:87-100 | items with other ids stay exactly as they were, in order |
| OrderForm.QuantityChange | src/components/OrderForm.tsx:87-100 | never lengthens the list; what it does to each item is stated by the lemmas below |
| OrderForm.QuantityChangeAt | src/components/OrderForm.tsx:87-100 | with unique ids, a point edit: the item at its position gets old + delta portions with every other field kept, or is cut out when that is 0 or less, the rest keeping their order |
| OrderForm.QuantityChangeKeepsValid | src/components/OrderForm.tsx:87-100 | unique item ids, unique dishes and positive quantities survive a quantity change |
| OrderForm.QuantityChangeTotal | src/components/OrderForm.tsx:53-56 | the total moves by `delta` times the item's price, or loses all of the item's portions when it is removed |
| OrderForm.QuantityChangeAbsent | src/components/OrderForm.tsx:87-100 | with no item of that id, nothing changes |
| OrderForm.QuantityChangeCounts | src/components/OrderForm.tsx:87-100 | with unique ids, the item ends with old + delta portions, or is removed (0) when that is 0 or less |
| OrderForm.RemoveItem | src/components/OrderForm.tsx:103-105 | exactly the items with other ids, in order |
| OrderForm.RemoveItemKeepsValid | src/components/OrderForm.tsx:103-105 | removing an item keeps the rest valid |
| OrderForm.TotalAmount | src/components/OrderForm.tsx:53-56 | the sum of price × quantity: 0 for no items, one item's price × quantity for one, never negative for non-negative prices and quantities |
| OrderForm.Save | src/components/OrderForm.tsx:108-137 | refused exactly for no place, then for no items; the saved order carries the items, their total, the names of the table and cabin found by id, and the notes (none when empty); editing keeps the id and creation time, creating uses fresh ones |
| TablesPage.SwappedById | src/pages/TablesPage.tsx:71-84 | no result exactly when either id is missing |
| TablesPage.SwappedByIdMoves | src/pages/TablesPage.tsx:71-84 | the dragged and target positions trade places; every other position is unchanged; a permutation |
| TablesPage.MovedToEndById | src/pages/TablesPage.tsx:103-117 | no result exactly when the dragged id is missing |
| TablesPage.MovedToEndByIdMoves | src/pages/TablesPage.tsx:103-117 | the dragged entry goes last, the others keep their order; same length; a permutation |
| TablesPage.SwapCopy | src/pages/TablesPage.tsx:75-79 | the destructuring swap on a copied array yields `Swap` |
| TablesPage.SpliceToEnd | src/pages/TablesPage.tsx:107-112 | `splice` then `push` on a copied array yields `MoveToEnd` |
| TablesPage.CardDrop | src/pages/TablesPage.tsx:71-100 | a list exactly when a card of the zone's kind other than the target is dragged and both ids are on the list; that list is `SwappedById`, a permutation |
| TablesPage.ContainerDrop | src/pages/TablesPage.tsx:103-134 | a list exactly when a card of the zone's kind is dragged and on the list; that list is `MovedToEndById`: the dragged card last, the others in their order |
| TablesPage.DropOnCard | src/pages/TablesPage.tsx:71-100 | saves and shows `CardDrop`'s list when there is one; otherwise writes nothing |
| TablesPage.DropOnContainer | src/pages/TablesPage.tsx:103-134 | saves and shows `ContainerDrop`'s list when there is one; otherwise writes nothing |
| TablesPage.NewTable | src/pages/TablesPage.tsx:137-150 | a free table with the given name, capacity and location and no order or reservation |
| TablesPage.NewCabin | src/pages/TablesPage.tsx:153-172 | a free cabin with the given name, capacity, price per hour and location |
| TablesPage.HandleAddTable | src/pages/TablesPage.tsx:137-150 | the tables read back are the old ones plus the new table |
| TablesPage.HandleAddVipCabin | src/pages/TablesPage.tsx:153-172 | the cabins read back are the old ones plus the new cabin |
| TablesPage.AddedTableIsFound | src/pages/TablesPage.tsx:137-150 | the added table is found by its fresh id, free and with its name |
| TablesPage.EditedTable | src/pages/TablesPage.tsx:199-206 | name, capacity and location change; status, order and reservation links stay |
| TablesPage.EditedCabin | src/pages/TablesPage.tsx:210-218 | name, capacity, location and price per hour change; status and links stay |
| TablesPage.SaveTableEdit | src/pages/TablesPage.tsx:190-208 | the tables read back are `Updated` with the edited table |
| TablesPage.SaveCabinEdit | src/pages/TablesPage.tsx:209-222 | the cabins read back are `Updated` with the edited cabin |
| TablesPage.EditKeepsTableState | src/pages/TablesPage.tsx:190-208 | after an edit the table found by id keeps its status and links and has the new name and capacity |
| Text.Split | src/pages/ReservationsPage.tsx:59 | `split(' ')`: pieces free of the separator whose join is the input |
| Text.SplitJoin | src/pages/ReservationsPage.tsx:59 | splitting a join of separator-free pieces gives the pieces back |
| Text.JoinedDateTimeSplits | src/components/ReservationForm.tsx:22 | the `${date} ${time}` join splits back into date and time when neither has a space |
| Text.TrimLower | src/pages/SearchDishPage.tsx:33 | trimming and lower-casing commute |
| Text.LowerIdempotent | src/pages/SearchDishPage.tsx:33 | lower-casing twice is lower-casing once |
| ReservationsPage.NewReservation | src/pages/ReservationsPage.tsx:59-76 | a confirmed reservation of the booked kind with exactly the booked place set, default guest name and count; the date is the first piece of `split(' ')` and the time the second (empty when there is none) |
| ReservationsPage.NewReservationTimePieces | src/pages/ReservationsPage.tsx:59 | the date is the text before the first space, the time the text after it up to a further space |
| ReservationsPage.NewReservationWithoutSpace | src/pages/ReservationsPage.tsx:59 | a text without a space is all date, with an empty time |
| ReservationsPage.ConfirmedTimeRoundTrip | src/pages/ReservationsPage.tsx:59-76 | the reservation keeps the date and time that were joined into the string |
| ReservationsPage.ReservedTable | src/pages/ReservationsPage.tsx:85-92 | the table becomes reserved by the reservation; the order link stays |
| ReservationsPage.ReservedCabin | src/pages/ReservationsPage.tsx:97-104 | the cabin becomes reserved by the reservation; the order link stays |
| ReservationsPage.HandleConfirmReservation | src/pages/ReservationsPage.tsx:56-110 | no booking writes nothing; otherwise the reservation is appended and the booked table or cabin (if listed) is reserved; a store refusing writes keeps every list, except that a table or cabin list read from its sample list is changed in that sample list |
| ReservationsPage.ReservePlace | src/pages/ReservationsPage.tsx:83-107 | the booked place is reserved (with a refusing store, only in a sample list in use); the reservations are untouched |
| ReservationsPage.ReserveTable | src/pages/ReservationsPage.tsx:83-94 | the tables read back are `Updated` with the reserved table when the store takes the write or the sample list is in use, else unchanged |
| ReservationsPage.ReserveCabin | src/pages/ReservationsPage.tsx:95-107 | the cabins read back are `Updated` with the reserved cabin when the store takes the write or the sample list is in use, else unchanged |
| ReservationsPage.ConfirmedTableIsReserved | src/pages/ReservationsPage.tsx:83-94 | after confirming, the table found by id is reserved with the new reservation's id |
| ReservationsPage.Cancelled | src/pages/ReservationsPage.tsx:118-126 | the first reservation with the id, if any, becomes cancelled and stamped with its other fields kept; every other position is unchanged; no match changes nothing |
| ReservationsPage.FreedTable | src/pages/ReservationsPage.tsx:129-136 | the table becomes free with no reservation link; the order link stays |
| ReservationsPage.FreedCabin | src/pages/ReservationsPage.tsx:157-164 | the cabin becomes free with no reservation link; the order link stays |
| ReservationsPage.CancelReservation | src/pages/ReservationsPage.tsx:118-126 | the reservations read back are `Cancelled`, or unchanged when the store refuses writes; tables and cabins untouched |
| ReservationsPage.HandleFreeTable | src/pages/ReservationsPage.tsx:113-138 | an unknown table or one without a reservation writes nothing; otherwise its reservation is cancelled and the table freed; a refusing store keeps the reservations, and the tables unless they come from the sample list |
| ReservationsPage.HandleFreeCabin | src/pages/ReservationsPage.tsx:141-166 | the same for a cabin |
| ReservationsPage.FreeTableRecord | src/pages/ReservationsPage.tsx:129-136 | the tables read back are `Updated` with the freed table when the store takes the write or the sample list is in use, else unchanged |
| ReservationsPage.FreeCabinRecord | src/pages/ReservationsPage.tsx:157-164 | the cabins read back are `Updated` with the freed cabin when the store takes the write or the sample list is in use, else unchanged |
| ReservationsPage.FreedTableIsFree | src/pages/ReservationsPage.tsx:129-136 | after freeing, the table found by id is free with no reservation |
| ReservationsPage.GetReservationTime | src/pages/ReservationsPage.tsx:169-181 | a time is shown exactly when the place refers to a reservation that exists and is neither cancelled nor completed; it is `date + " " + time` |
| ReservationsPage.ShownTimeSplits | src/pages/ReservationsPage.tsx:169-181 | the shown time splits back into the reservation's date and time |
| ReservationsPage.LocationKey | src/pages/ReservationsPage.tsx:187 | `table.location \|\| 'Другое'`: the location when it is a non-empty text, otherwise "Другое"; never empty |
| ReservationsPage.TablesByLocation | src/pages/ReservationsPage.tsx:184-194 | the `forEach`/`push` loop builds `GroupBy` on the location (or "Другое") |
| ReservationsPage.TablesByLocationPartition | src/pages/ReservationsPage.tsx:184-194 | each location with a table has a group holding exactly its tables, in order, and no other location has one |
| ManageMenuPage.OptionalText | src/pages/ManageMenuPage.tsx:97 | `s.trim() \|\| undefined`: absent exactly for a blank text, else the trimmed text |
| ManageMenuPage.ValidateDish | src/pages/ManageMenuPage.tsx:81-90 | missing fields exactly for a blank name, empty price or no category; then a bad price exactly for not a number or not above zero |
| ManageMenuPage.EditedDish | src/pages/ManageMenuPage.tsx:92-100 | name, description, price and category replaced; id, availability and creation time kept |
| ManageMenuPage.NewDish | src/pages/ManageMenuPage.tsx:106-116 | an available dish with the form's fields and the fresh id |
| ManageMenuPage.HandleSaveDish | src/pages/ManageMenuPage.tsx:80-123 | a refused form writes nothing; otherwise the edited dish is updated or the new dish appended, and the list read back |
| ManageMenuPage.Toggled | src/pages/ManageMenuPage.tsx:362-369 | only the availability flips (and the stamp) |
| ManageMenuPage.ToggleTwice | src/pages/ManageMenuPage.tsx:362-369 | toggling twice gives back the dish, with only the stamp changed |
| ManageMenuPage.ToggleAvailability | src/pages/ManageMenuPage.tsx:362-369 | the dishes read back are `Updated` with the toggled dish |
| ManageMenuPage.EditedCategory | src/pages/ManageMenuPage.tsx:161-171 | name, description and icon replaced; order and activity kept |
| ManageMenuPage.NewCategory | src/pages/ManageMenuPage.tsx:173-184 | an active category whose `sortOrder` is the largest on the page plus one, so above every existing one |
| ManageMenuPage.SortAppendLast | src/pages/ManageMenuPage.tsx:217-219 | a category ordered after all others is last in the sorted list |
| ManageMenuPage.NewCategorySortsLast | src/pages/ManageMenuPage.tsx:173-184 | a newly added category shows last among the sorted categories |
| ManageMenuPage.HandleSaveCategory | src/pages/ManageMenuPage.tsx:155-192 | a blank name writes nothing; otherwise the edited category is updated or the new one appended, and the list read back |
| ManageMenuPage.HandleDeleteCategory | src/pages/ManageMenuPage.tsx:195-209 | refused, writing nothing, exactly when a dish is in the category; otherwise the category is deleted and the list read back, which a store refusing writes leaves as it was |
| MenuViews.DishesByCategory | src/pages/ManageMenuPage.tsx:44-53 | the `forEach`/`push` loop builds `GroupBy` on the category id |
| MenuViews.DishesByCategoryPartition | src/pages/MenuPage.tsx:21-32 | each used category has a group holding exactly its dishes, in order, and no other category has one |
| MenuViews.SortByOrder | src/pages/ManageMenuPage.tsx:217-219 | sorted by `sortOrder`, a permutation of the categories |
| MenuViews.SortByOrderIsStable | src/pages/ManageMenuPage.tsx:217-219 | categories with equal `sortOrder` keep their relative order |
| MenuViews.InsertByOrderSorted | src/pages/ManageMenuPage.tsx:217-219 | inserting into a sorted list keeps it sorted |
| MenuViews.InsertKeepsTies | src/pages/ManageMenuPage.tsx:217-219 | an inserted category goes ahead of those with the same `sortOrder` |
| MenuViews.ActiveSorted | src/pages/MenuPage.tsx:35-39 | exactly the active categories, sorted by `sortOrder`, each as often as listed |
| MenuViews.MaxSortOrder | src/pages/ManageMenuPage.tsx:174 | at least 0, at least every `sortOrder`, and one of them unless 0 |
| SearchDishPage.FilteredDishes | src/pages/SearchDishPage.tsx:23-41 | exactly the dishes of the chosen category whose lower-cased name or description contains the trimmed lower-cased query, in order; everything for 'all' and a blank query |
| SearchDishPage.SearchIgnoresCase | src/pages/SearchDishPage.tsx:32-38 | a query and its lower-cased form find the same dishes |
| MenuPage.Sections | src/pages/MenuPage.tsx:50-56 | section i is for the i-th category of `ActiveSorted`: every active category once, none other, in `sortOrder` |
| MenuPage.SectionDishes | src/pages/MenuPage.tsx:50-56 | a section lists exactly its category's dishes, in stored order |
| MenuPage.MenuSections | src/pages/MenuPage.tsx:21-56 | grouping once and looking each category up gives `Sections` |
| MenuPage.DishShown | src/pages/MenuPage.tsx:50-56 | a dish is shown exactly when it is loaded and an active category has its id |
| Sequences.GroupItems | src/pages/MenuPage.tsx:21-32 | the `forEach`/`push` loop builds `GroupBy` |
| Sequences.GroupByIsPartition | src/pages/MenuPage.tsx:21-32 | a key has a group exactly when an element has that key, and the group is those elements in order |

## Left out

- The repository interface of src/services/repositories/baseRepository.ts is not a trait here; the six repositories share one generic class `Repositories.Repository`.
- Prices and totals are integers: floating point and `parseFloat` are not modelled; the dish form's price arrives as blank, not a number, or a number.
- OrderForm.AddDishTotal: the total counts `price * quantity` as stored; the source's `|| 0` for a missing price or quantity is not modelled, because the item type makes both required.
- Text.Lower lower-cases ASCII and basic Cyrillic capitals only; other Unicode case mappings are not modelled. Text.Trim strips the JavaScript white space and line terminator characters listed in `WhiteSpaceCodes`.
- StorageService.Json holds parsed values: JSON text, a value of the wrong kind under a key (it loads the default) and `JSON.parse` errors are abstracted to `Unparsable` or a kind mismatch.
- StorageService.LocalStorage: a store either accepts all writes or refuses all (disabled storage, full quota); partial quota failures are not modelled.
- The orders repository reads `STORAGE_KEYS.ORDERS`, which the key table does not define; orders are kept under the key "undefined", outside STORAGE_KEYS, so `clearStorage` leaves them.
- Repositories.Repository.GetAll: the sample lists are opaque non-empty parameters; a `getAll` on an empty stored list always falls back to them, and `add`/`update` made on that fallback change the sample list itself (field `seed`).
- OrderForm.QuantityChange: its own contract states only the length bound; what it does to each item, to validity and to the total is in QuantityChangeAt, QuantityChangeKeepsValid, QuantityChangeTotal, QuantityChangeOthers, QuantityChangeAbsent and QuantityChangeCounts.
- ReservationsPage.TablesByLocation and MenuViews.DishesByCategory group into a map; the source groups into a plain object `{}`. A key that names an `Object.prototype` member ("constructor", "toString", "__proto__", ...) already finds an inherited value there, so the source's `push` throws (a free-text table location can be such a key); the model groups it like any other key. The map also has no order, so the order in which `Object.entries` lists the locations on the reservations page (integer-like keys first, in numeric order, then insertion order) is not modelled.
- MenuPage.Sections gives every active category a section, even one with no dishes; `CategorySection` renders nothing for an empty dish list (src/components/CategorySection.tsx:13-15), so such a section is not on screen. The model does not filter them out.
- OrderForm.Save returns the record handed to `onSave`; the `onSave`/`onCancel` callbacks themselves belong to the pages and are not modelled here.
- ReservationsPage.NewReservation: a confirmation string with no space stores an empty time, where the source stores `undefined`.
- React re-renders, `useMemo`, alerts, confirmation dialogs, navigation, and the five-second polling of the tables page are not modelled.
- The table, cabin and dish delete handlers, the tables page's "save layout" button and `handleCancelOrder` only forward to repository calls or reset state; they are not modelled separately.
- Timestamps and fresh ids are parameters; the clock and `Date.now()` are not modelled.
