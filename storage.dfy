/** The browser's key/value store as the storage service sees it
    (src/services/storageService.ts). Values are kept in parsed form: one
    constructor per stored collection, and `Unparsable` for a text that
    `JSON.parse` rejects. */
module StorageService {
  import opened Wrappers
  import opened Models

  datatype Json =
    | TablesJson(tables: seq<Table>)
    | CabinsJson(cabins: seq<VipCabin>)
    | DishesJson(dishes: seq<Dish>)
    | CategoriesJson(categories: seq<Category>)
    | OrdersJson(orders: seq<Order>)
    | ReservationsJson(reservations: seq<Reservation>)
    | Unparsable

  const DISHES_KEY: string := "cafe-admin-dishes"
  const CATEGORIES_KEY: string := "cafe-admin-categories"
  const TABLES_KEY: string := "cafe-admin-tables"
  const VIP_CABINS_KEY: string := "cafe-admin-vip-cabins"
  const RESERVATIONS_KEY: string := "cafe-admin-reservations"

  /** `Object.values(STORAGE_KEYS)`, in declaration order. */
  const STORAGE_KEYS: seq<string> := [DISHES_KEY, CATEGORIES_KEY, TABLES_KEY, VIP_CABINS_KEY, RESERVATIONS_KEY]

  /** The orders repository reads `STORAGE_KEYS.ORDERS`, which the key table
      does not define; the Web Storage API turns that `undefined` key into
      the text "undefined". It is not one of STORAGE_KEYS. */
  const ORDERS_KEY: string := "undefined"

  /** `loadFromStorage(key, defaultValue)` on a snapshot of the store: a missing
      key, or a value that does not parse as the expected kind, gives the default. */
  function Load<T>(items: map<string, Json>, key: string, defaultValue: T, parse: Json -> Option<T>): (r: T)
    ensures key !in items ==> r == defaultValue
    ensures key in items ==> r == parse(items[key]).GetOr(defaultValue)
  {
    if key !in items then defaultValue else parse(items[key]).GetOr(defaultValue)
  }

  /** The two stores agree on every key outside `keys`. */
  ghost predicate AgreeOutside(a: map<string, Json>, b: map<string, Json>, keys: set<string>)
  {
    forall k :: k !in keys ==> (k in a <==> k in b) && (k in a ==> a[k] == b[k])
  }

  /** The store `items` after `saveToStorage(key, data)`: a refused write is caught and dropped. */
  function AfterSave(items: map<string, Json>, writable: bool, key: string, data: Json): map<string, Json>
  {
    if writable then items[key := data] else items
  }

  /** A key outside the changed ones loads the same value before and after. */
  lemma {:induction false} LoadAgrees<T>(a: map<string, Json>, b: map<string, Json>, keys: set<string>, key: string, defaultValue: T, parse: Json -> Option<T>)
    requires AgreeOutside(a, b, keys) && key !in keys
    ensures Load(a, key, defaultValue, parse) == Load(b, key, defaultValue, parse)
  {
  }

  /** Changes confined to `k1` followed by changes confined to `k2` are confined to both. */
  lemma {:induction false} AgreeOutsideTrans(a: map<string, Json>, b: map<string, Json>, c: map<string, Json>, k1: set<string>, k2: set<string>)
    requires AgreeOutside(a, b, k1) && AgreeOutside(b, c, k2)
    ensures AgreeOutside(a, c, k1 + k2)
  {
  }

  class LocalStorage {
    var items: map<string, Json>
    /** False when the browser refuses every write (storage disabled or its quota used up). */
    const writable: bool

    constructor (initial: map<string, Json>, acceptsWrites: bool)
      ensures items == initial && writable == acceptsWrites
    {
      items := initial;
      writable := acceptsWrites;
    }

    method SaveToStorage(key: string, data: Json)
      modifies this
      ensures items == AfterSave(old(items), writable, key, data)
    {
      if writable {
        items := items[key := data];
      }
    }

    method LoadFromStorage<T>(key: string, defaultValue: T, parse: Json -> Option<T>) returns (r: T)
      ensures key !in items ==> r == defaultValue
      ensures key in items && parse(items[key]).None? ==> r == defaultValue
      ensures key in items && parse(items[key]).Some? ==> r == parse(items[key]).value
    {
      if key !in items {
        return defaultValue;
      }
      var parsed := parse(items[key]);
      r := if parsed.Some? then parsed.value else defaultValue;
    }

    /** `clearStorage()`: removes each of STORAGE_KEYS, one `removeItem` at a time. */
    method ClearStorage()
      modifies this
      ensures items == old(items) - (set k | k in STORAGE_KEYS)
    {
      var i := 0;
      while i < |STORAGE_KEYS|
        invariant 0 <= i <= |STORAGE_KEYS|
        invariant items == old(items) - (set k | k in STORAGE_KEYS[..i])
      {
        items := items - {STORAGE_KEYS[i]};
        i := i + 1;
      }
      assert STORAGE_KEYS[..i] == STORAGE_KEYS;
    }
  }

  /** Saving under `key` and loading it back returns what was saved, provided
      the value parses as the kind that is asked for. */
  lemma {:induction false} LoadAfterSave<T>(items: map<string, Json>, key: string, data: Json, defaultValue: T, parse: Json -> Option<T>, v: T)
    requires parse(data) == Some(v)
    ensures Load(items[key := data], key, defaultValue, parse) == v
  {
  }

  /** Saving under one key leaves what every other key loads unchanged. */
  lemma {:induction false} SaveKeepsOtherKeys<T>(items: map<string, Json>, key: string, data: Json, other: string, defaultValue: T, parse: Json -> Option<T>)
    requires other != key
    ensures Load(items[key := data], other, defaultValue, parse) == Load(items, other, defaultValue, parse)
  {
  }

  /** After `clearStorage()` every key of STORAGE_KEYS loads its default, and
      the orders (kept under a key outside STORAGE_KEYS) survive. */
  lemma {:induction false} LoadAfterClear<T>(items: map<string, Json>, key: string, defaultValue: T, parse: Json -> Option<T>)
    ensures key in STORAGE_KEYS ==>
      Load(items - (set k | k in STORAGE_KEYS), key, defaultValue, parse) == defaultValue
    ensures key == ORDERS_KEY ==>
      Load(items - (set k | k in STORAGE_KEYS), key, defaultValue, parse) == Load(items, key, defaultValue, parse)
  {
  }
}
