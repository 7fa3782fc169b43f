/**
 * Local persistence: the key-value store the browser offers, the cart snapshot
 * `{cart, timestamp}` written after every change, and the 24-hour restore rule.
 */
module Persistence {
  import opened Wrappers
  import opened Cart
  import opened Catalog

  const CartKey: string := "pos_cart_v2"
  const ItemsKey: string := "pos_items_v1"

  /** 24 hours in milliseconds, the age from which a snapshot is no longer restored. */
  const RestoreWindowMillis: int := 24 * 60 * 60 * 1000

  /**
   * What reading and parsing a stored value yields. A snapshot whose `cart` is not
   * an array has cart None. A numeric timestamp is Some; None stands for one that
   * is absent or whose age comes out as NaN. Values JavaScript would coerce to a
   * number when the age is computed, such as a numeric string, are not represented.
   * Garbled is text that does not parse.
   */
  datatype Stored =
    | Garbled
    | CartSnapshot(cart: Option<seq<Line>>, timestamp: Option<int>)
    | ItemList(items: seq<CatalogItem>)

  type Store = map<string, Stored>

  /** `saveCartToStorage`; when the store refuses the write, the failure is swallowed. */
  function SaveCart(store: Store, lines: seq<Line>, now: int, writable: bool): Store {
    if writable then store[CartKey := CartSnapshot(Some(lines), Some(now))] else store
  }

  /** `saveItemsToStorage`. */
  function SaveItems(store: Store, items: seq<CatalogItem>, writable: bool): Store {
    if writable then store[ItemsKey := ItemList(items)] else store
  }

  predicate Recent(savedAt: int, now: int) {
    now - savedAt < RestoreWindowMillis
  }

  /** `loadCartFromStorage`: the stored lines, when the snapshot is recent and holds an array. */
  function RestoredCart(store: Store, now: int): Option<seq<Line>> {
    if CartKey !in store then None
    else match store[CartKey]
      case CartSnapshot(Some(lines), Some(t)) => if Recent(t, now) then Some(lines) else None
      case _ => None
  }

  /** `loadItemsFromStorage`: the stored catalog, when it is an array. */
  function RestoredItems(store: Store): Option<seq<CatalogItem>> {
    if ItemsKey in store && store[ItemsKey].ItemList? then Some(store[ItemsKey].items) else None
  }

  /** A fresh browser has nothing to restore. */
  lemma EmptyStoreRestoresNothing(now: int)
    ensures RestoredCart(map[], now) == None && RestoredItems(map[]) == None
  {
  }

  /** A snapshot just written is restored exactly when it is less than 24 hours old. */
  lemma SaveThenRestore(store: Store, lines: seq<Line>, savedAt: int, now: int)
    ensures RestoredCart(SaveCart(store, lines, savedAt, true), now) ==
      if now - savedAt < RestoreWindowMillis then Some(lines) else None
  {
  }

  /** Restoring yields lines only from a recent snapshot of those lines under the cart key. */
  lemma RestoreNeedsRecentSnapshot(store: Store, now: int, lines: seq<Line>)
    ensures RestoredCart(store, now) == Some(lines) <==>
      CartKey in store && exists t :: store[CartKey] == CartSnapshot(Some(lines), Some(t)) && Recent(t, now)
  {
    if RestoredCart(store, now) == Some(lines) {
      var t := store[CartKey].timestamp.value;
      assert store[CartKey] == CartSnapshot(Some(lines), Some(t));
    }
  }

  /** A catalog just written is the catalog restored at the next start-up. */
  lemma SaveItemsThenRestore(store: Store, items: seq<CatalogItem>)
    ensures RestoredItems(SaveItems(store, items, true)) == Some(items)
  {
  }

  /** Writing the cart does not disturb the catalog, and writing the catalog does not disturb the cart. */
  lemma KeysAreIndependent(store: Store, lines: seq<Line>, items: seq<CatalogItem>, now: int, writable: bool)
    ensures RestoredItems(SaveCart(store, lines, now, writable)) == RestoredItems(store)
    ensures RestoredCart(SaveItems(store, items, writable), now) == RestoredCart(store, now)
    ensures forall k :: k != CartKey && k in store ==>
      (k in SaveCart(store, lines, now, writable) && SaveCart(store, lines, now, writable)[k] == store[k])
  {
    assert CartKey != ItemsKey;
  }
}
