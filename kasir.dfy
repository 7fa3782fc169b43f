/**
 * The cashier application object: the cart and its cached total, the amount
 * received field, the product catalog, the browser store and the id source.
 * Every public method is one user action followed by the display refresh and
 * the save the application performs after it.
 */
module Kasir {
  import opened Wrappers
  import opened Text
  import opened Money
  import opened Search
  import opened Validation
  import opened Cart
  import opened Catalog
  import opened Persistence
  import opened Payment

  datatype AddOutcome = Rejected(validation: Validation) | Merged(index: nat) | Appended(id: nat)

  function Max(a: nat, b: nat): nat {
    if a < b then b else a
  }

  class KasirApp {
    var cart: seq<Line>
    var totalAmount: int
    /** The text of the money-received field. */
    var receivedInput: string
    var items: seq<CatalogItem>
    /** The browser's local storage. */
    var store: Store
    /** Stands for the generated ids: always above every id in the cart and the catalog. */
    var nextId: nat
    /** Whether the store accepts writes; a refused write is swallowed. */
    const storageWritable: bool

    ghost predicate Valid()
      reads this
    {
      && totalAmount == Total(cart)
      && IdsBelow(cart, nextId)
      && ItemIdsBelow(items, nextId)
    }

    /** Start-up: an empty cart, replaced by a recent snapshot if there is one, and the stored catalog. */
    constructor (initialStore: Store, now: int, writable: bool)
      ensures Valid()
      ensures cart == RestoredCart(initialStore, now).GetOr([])
      ensures items == RestoredItems(initialStore).GetOr([])
      ensures receivedInput == "" && store == initialStore && storageWritable == writable
    {
      storageWritable := writable;
      store := initialStore;
      cart := [];
      totalAmount := 0;
      receivedInput := "";
      items := [];
      nextId := 0;
      new;
      LoadCartFromStorage(now);
      LoadItemsFromStorage();
      nextId := Max(IdBound(cart), ItemIdBound(items));
      RefreshCartDisplay();
    }

    method LoadCartFromStorage(now: int)
      modifies this`cart
      ensures cart == RestoredCart(store, now).GetOr(old(cart))
    {
      var restored := RestoredCart(store, now);
      if restored.Some? {
        cart := restored.value;
      }
    }

    method LoadItemsFromStorage()
      modifies this`items
      ensures items == RestoredItems(store).GetOr(old(items))
    {
      var restored := RestoredItems(store);
      if restored.Some? {
        items := restored.value;
      }
    }

    /** `updateCartDisplay`'s bookkeeping: the total is 0 for an empty cart, else recomputed. */
    method RefreshCartDisplay()
      modifies this`totalAmount
      ensures totalAmount == Total(cart)
    {
      if |cart| == 0 {
        totalAmount := 0;
      } else {
        totalAmount := Total(cart);
      }
    }

    method SaveCartToStorage(now: int)
      modifies this`store
      ensures store == SaveCart(old(store), cart, now, storageWritable)
    {
      store := SaveCart(store, cart, now, storageWritable);
    }

    /** The payment panel as it stands. */
    function PaymentPanel(): PaymentView
      reads this
    {
      PaymentDisplay(|cart|, totalAmount, receivedInput)
    }

    /** `addItem`: nothing happens unless `validateInputs` passes. */
    method AddItem(nameRaw: string, priceRaw: string, now: int) returns (outcome: AddOutcome)
      requires Valid()
      modifies this
      ensures Valid()
      ensures var v := ValidateInputs(nameRaw, priceRaw);
        if !v.IsValid() then
          && outcome == Rejected(v)
          && cart == old(cart) && store == old(store) && nextId == old(nextId)
        else
          && cart == AddedLine(old(cart), Trim(nameRaw), ParseAmount(priceRaw), old(nextId))
          && outcome == (match IndexOfName(old(cart), Trim(nameRaw))
                         case Some(i) => Merged(i)
                         case None => Appended(old(nextId)))
          && nextId == (if outcome.Appended? then old(nextId) + 1 else old(nextId))
          && store == SaveCart(old(store), cart, now, storageWritable)
      ensures receivedInput == old(receivedInput) && items == old(items)
    {
      var v := ValidateInputs(nameRaw, priceRaw);
      if !v.IsValid() {
        return Rejected(v);
      }
      outcome := AddValidated(Trim(nameRaw), ParseAmount(priceRaw), now);
    }

    /** The part of `addItem` after validation: merge by name ignoring case, or append. */
    method AddValidated(name: string, price: int, now: int) returns (outcome: AddOutcome)
      requires Valid()
      requires 1 <= |name| <= MaxNameLength && 1 <= price <= MaxPrice
      modifies this
      ensures Valid()
      ensures cart == AddedLine(old(cart), name, price, old(nextId))
      ensures outcome == match IndexOfName(old(cart), name)
                         case Some(i) => Merged(i)
                         case None => Appended(old(nextId))
      ensures nextId == if outcome.Appended? then old(nextId) + 1 else old(nextId)
      ensures store == SaveCart(old(store), cart, now, storageWritable)
      ensures receivedInput == old(receivedInput) && items == old(items)
    {
      AddedLineIdsBelow(cart, name, price, nextId);
      ghost var added := AddedLine(cart, name, price, nextId);
      var existing := Find(cart, HasName(name));
      assert existing == IndexOfName(cart, name);
      if existing.Some? {
        var i := existing.value;
        assert added == cart[i := cart[i].(quantity := cart[i].quantity + 1)];
        cart := cart[i := cart[i].(quantity := cart[i].quantity + 1)];
        outcome := Merged(i);
      } else {
        assert added == cart + [Line(nextId, name, price, 1)];
        cart := cart + [Line(nextId, name, price, 1)];
        outcome := Appended(nextId);
        nextId := nextId + 1;
      }
      assert cart == added;
      totalAmount := Total(cart);
      store := SaveCart(store, cart, now, storageWritable);
    }

    method IncreaseQuantity(id: nat, now: int) returns (changed: bool)
      requires Valid()
      modifies this
      ensures Valid()
      ensures changed <==> match IndexOfId(old(cart), id)
                           case Some(i) => old(cart)[i].quantity < MaxQuantity
                           case None => false
      ensures cart == Incremented(old(cart), id)
      ensures store == if changed then SaveCart(old(store), cart, now, storageWritable) else old(store)
      ensures old(WithinCeiling(cart)) ==> WithinCeiling(cart)
      ensures receivedInput == old(receivedInput) && items == old(items) && nextId == old(nextId)
    {
      IncrementedKeepsInvariants(cart, id, nextId);
      var found := Find(cart, HasId(id));
      changed := found.Some? && cart[found.value].quantity < MaxQuantity;
      if changed {
        var i := found.value;
        cart := cart[i := cart[i].(quantity := cart[i].quantity + 1)];
        totalAmount := Total(cart);
        store := SaveCart(store, cart, now, storageWritable);
      }
    }

    method DecreaseQuantity(id: nat, now: int) returns (changed: bool)
      requires Valid()
      modifies this
      ensures Valid()
      ensures changed <==> match IndexOfId(old(cart), id)
                           case Some(i) => old(cart)[i].quantity > 1
                           case None => false
      ensures cart == Decremented(old(cart), id)
      ensures store == if changed then SaveCart(old(store), cart, now, storageWritable) else old(store)
      ensures old(WithinCeiling(cart)) ==> WithinCeiling(cart)
      ensures receivedInput == old(receivedInput) && items == old(items) && nextId == old(nextId)
    {
      DecrementedKeepsInvariants(cart, id, nextId);
      var found := Find(cart, HasId(id));
      changed := found.Some? && cart[found.value].quantity > 1;
      if changed {
        var i := found.value;
        cart := cart[i := cart[i].(quantity := cart[i].quantity - 1)];
        totalAmount := Total(cart);
        store := SaveCart(store, cart, now, storageWritable);
      }
    }

    /** `removeItem`, with the answer to its confirmation dialog as `confirmed`. */
    method RemoveItem(id: nat, confirmed: bool, now: int) returns (removed: bool)
      requires Valid()
      modifies this
      ensures Valid()
      ensures removed <==> IndexOfId(old(cart), id).Some? && confirmed
      ensures cart == if removed then Removed(old(cart), id) else old(cart)
      ensures store == if removed then SaveCart(old(store), cart, now, storageWritable) else old(store)
      ensures receivedInput == old(receivedInput) && items == old(items) && nextId == old(nextId)
    {
      var found := Find(cart, HasId(id));
      removed := found.Some? && confirmed;
      if removed {
        RemovedIdsBelow(cart, id, nextId);
        cart := Removed(cart, id);
        totalAmount := Total(cart);
        store := SaveCart(store, cart, now, storageWritable);
      }
    }

    /** `clearCart`: nothing to do on an empty cart; otherwise empties it when confirmed. */
    method ClearCart(confirmed: bool, now: int) returns (cleared: bool)
      requires Valid()
      modifies this
      ensures Valid()
      ensures cleared <==> |old(cart)| > 0 && confirmed
      ensures if cleared then
          && cart == [] && totalAmount == 0 && receivedInput == ""
          && store == SaveCart(old(store), [], now, storageWritable)
        else
          cart == old(cart) && receivedInput == old(receivedInput) && store == old(store)
      ensures items == old(items) && nextId == old(nextId)
    {
      if |cart| == 0 {
        return false;
      }
      cleared := confirmed;
      if cleared {
        cart := [];
        receivedInput := "";
        RefreshCartDisplay();
        SaveCartToStorage(now);
      }
    }

    /** Typing into the money-received field: the field is reformatted and the panel recomputed. */
    method EnterReceived(raw: string) returns (view: PaymentView)
      requires Valid()
      modifies this`receivedInput
      ensures receivedInput == FormatCurrencyInput(raw)
      ensures view == PaymentDisplay(|cart|, totalAmount, receivedInput)
      ensures view.received == ValueOf(InputDigits(raw))
    {
      receivedInput := FormatCurrencyInput(raw);
      FormatInputAmount(raw);
      view := PaymentPanel();
    }

    /**
     * `printReceipt`: the empty-cart and shortfall guards, then (outside the model)
     * the receipt document; when it was produced and the cashier starts a new
     * transaction, the cart and the amount field are emptied and saved.
     */
    method PrintReceipt(rendered: bool, startNew: bool, now: int) returns (r: Result<Receipt, FinalizeError>)
      requires Valid()
      modifies this
      ensures Valid()
      ensures r == Finalize(old(cart), old(totalAmount), old(receivedInput))
      ensures if r.Success? && rendered && startNew then
          && cart == [] && totalAmount == 0 && receivedInput == ""
          && store == SaveCart(old(store), [], now, storageWritable)
        else
          cart == old(cart) && receivedInput == old(receivedInput) && store == old(store)
      ensures items == old(items) && nextId == old(nextId)
    {
      if |cart| == 0 {
        return Failure(EmptyCart);
      }
      var received := ParseAmount(receivedInput);
      if received < totalAmount {
        return Failure(Insufficient(totalAmount - received));
      }
      r := Success(Receipt(cart, totalAmount, received, received - totalAmount));
      if rendered && startNew {
        cart := [];
        receivedInput := "";
        RefreshCartDisplay();
        SaveCartToStorage(now);
      }
    }

    /** `saveManageItem`, with the hidden id field as `editId` (None when empty). */
    method SaveManageItem(nameRaw: string, purchaseRaw: string, sellRaw: string, editId: Option<nat>)
      returns (outcome: SaveOutcome)
      requires Valid()
      modifies this
      ensures Valid()
      ensures outcome == SaveResult(old(items), nameRaw, purchaseRaw, sellRaw, editId, old(nextId))
      ensures items == Saved(old(items), nameRaw, purchaseRaw, sellRaw, editId, old(nextId))
      ensures nextId == if outcome.Added? then old(nextId) + 1 else old(nextId)
      ensures store == if outcome.Rejected() then old(store) else SaveItems(old(store), items, storageWritable)
      ensures old(UniqueItemIds(items)) ==> UniqueItemIds(items)
      ensures cart == old(cart) && receivedInput == old(receivedInput)
    {
      var name := Trim(nameRaw);
      var sell := ParseAmount(sellRaw);
      if name == "" {
        return NameMissing;
      }
      if sell <= 0 {
        return SellNotPositive;
      }
      outcome := UpsertItem(name, ParseAmount(purchaseRaw), sell, editId);
    }

    /** The part of `saveManageItem` after its two checks. */
    method UpsertItem(name: string, purchase: int, sell: int, editId: Option<nat>) returns (outcome: SaveOutcome)
      requires Valid()
      modifies this
      ensures Valid()
      ensures outcome == UpsertOutcome(old(items), editId, old(nextId))
      ensures items == Upserted(old(items), name, purchase, sell, editId, old(nextId))
      ensures nextId == if outcome.Added? then old(nextId) + 1 else old(nextId)
      ensures store == SaveItems(old(store), items, storageWritable)
      ensures old(UniqueItemIds(items)) ==> UniqueItemIds(items)
      ensures cart == old(cart) && totalAmount == old(totalAmount) && receivedInput == old(receivedInput)
    {
      UpsertKeepsIds(items, name, purchase, sell, editId, nextId);
      match editId {
        case Some(id) =>
          var found := Find(items, ItemHasId(id));
          if found.Some? {
            var i := found.value;
            items := items[i := CatalogItem(items[i].id, name, purchase, sell)];
            outcome := Updated(i);
          } else {
            outcome := UnknownId;
          }
        case None =>
          items := items + [CatalogItem(nextId, name, purchase, sell)];
          outcome := Added(nextId);
          nextId := nextId + 1;
      }
      store := SaveItems(store, items, storageWritable);
    }

    /** The save performed when the page is hidden (the earnings ledger is not part of this model). */
    method FlushOnHide(now: int)
      requires Valid()
      modifies this`store
      ensures store == SaveItems(SaveCart(old(store), cart, now, storageWritable), items, storageWritable)
    {
      SaveCartToStorage(now);
      store := SaveItems(store, items, storageWritable);
    }
  }

  /**
   * One sale from an empty store: "Kopi" at 15.000 twice merges into one line of
   * two, 50.000 is tendered, and the receipt shows a total of 30.000 and change
   * of 20.000.
   */
  method KopiSale() returns (r: Result<Receipt, FinalizeError>)
    ensures r.Success? && r.value.total == 30000 && r.value.change == 20000
    ensures |r.value.lines| == 1 && r.value.lines[0].quantity == 2
  {
    var app := KopiCart();
    KopiTender(app);
    r := app.PrintReceipt(true, true, 2);
  }

  /** The cashier types 50000 into the money-received field. */
  method KopiTender(app: KasirApp)
    requires app.Valid()
    modifies app
    ensures app.Valid() && app.cart == old(app.cart) && app.totalAmount == old(app.totalAmount)
    ensures ParseAmount(app.receivedInput) == 50000
  {
    var tendered := "50000";
    KopiTendered();
    var view := app.EnterReceived(tendered);
    FormatInputAmount(tendered);
  }

  /** The cart of the sale: "Kopi" at 15.000, added twice from the item form. */
  method KopiCart() returns (app: KasirApp)
    ensures fresh(app) && app.Valid()
    ensures |app.cart| == 1 && app.cart[0].quantity == 2 && app.totalAmount == 30000
  {
    var name, price := "Kopi", "15000";
    KopiForm();
    EmptyStoreRestoresNothing(0);
    app := new KasirApp(map[], 0, true);
    assert app.cart == [];
    var id := app.nextId;
    KopiMerge(id);
    var first := app.AddItem(name, price, 0);
    assert app.cart == [Line(id, "Kopi", 15000, 1)] && app.nextId == id + 1;
    var second := app.AddItem(name, price, 1);
    assert app.cart == [Line(id, "Kopi", 15000, 2)];
  }

  /** The item form of the sale passes validation, with the name and price it shows. */
  lemma KopiForm()
    ensures ValidateInputs("Kopi", "15000").IsValid()
    ensures Trim("Kopi") == "Kopi" && ParseAmount("15000") == 15000
  {
    KopiName();
    KopiPrice();
  }

  /** Two adds of the same name make one line of two, worth 30.000. */
  lemma KopiMerge(id: nat)
    ensures var once := AddedLine([], "Kopi", 15000, id);
      && once == [Line(id, "Kopi", 15000, 1)]
      && AddedLine(once, "Kopi", 15000, id + 1) == [Line(id, "Kopi", 15000, 2)]
      && Total([Line(id, "Kopi", 15000, 2)]) == 30000
  {
    var once := [Line(id, "Kopi", 15000, 1)];
    assert HasName("Kopi")(once[0]);
    assert IndexOfName(once, "Kopi") == Some(0);
    assert [Line(id, "Kopi", 15000, 2)][..0] == [];
  }

  /** The name field of the sale, trimmed. */
  lemma KopiName()
    ensures Trim("Kopi") == "Kopi"
  {
    assert !IsWhitespace('K') && !IsWhitespace('i');
    assert TrimStart("Kopi") == "Kopi";
    assert TrimEnd("Kopi") == "Kopi";
  }

  /** The price field of the sale, read the way the form reads it. */
  lemma KopiPrice()
    ensures ParseAmount("15000") == 15000
  {
    assert Decimal(15000) == "15000";
    ParseDecimal(15000);
  }

  /** The tendered amount of the sale, as the field keeps it. */
  lemma KopiTendered()
    ensures ValueOf(InputDigits("50000")) == 50000
  {
    assert Decimal(50000) == "50000";
    ParseDecimal(50000);
    StripDigitsUnchanged(Decimal(50000));
  }
}
