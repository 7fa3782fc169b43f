/** The product catalog form's save (`saveManageItem`): reject, update in place, or append. */
module Catalog {
  import opened Wrappers
  import opened Text
  import opened Money
  import opened Search

  datatype CatalogItem = CatalogItem(id: nat, name: string, purchase: int, sell: int)

  datatype SaveOutcome =
    | NameMissing
    | SellNotPositive
    | Updated(index: nat)
    | UnknownId
    | Added(id: nat)
  {
    predicate Rejected() {
      NameMissing? || SellNotPositive?
    }
  }

  function ItemHasId(id: nat): CatalogItem -> bool {
    (item: CatalogItem) => item.id == id
  }

  function IndexOfItem(items: seq<CatalogItem>, id: nat): Option<nat> {
    FirstMatch(items, ItemHasId(id))
  }

  predicate ItemIdsBelow(items: seq<CatalogItem>, n: nat) {
    forall i :: 0 <= i < |items| ==> items[i].id < n
  }

  predicate UniqueItemIds(items: seq<CatalogItem>) {
    forall i, j :: 0 <= i < j < |items| ==> items[i].id != items[j].id
  }

  function ItemIdBound(items: seq<CatalogItem>): (n: nat)
    ensures ItemIdsBelow(items, n)
  {
    if |items| == 0 then 0
    else
      var n := ItemIdBound(items[..|items| - 1]);
      var item := items[|items| - 1];
      if item.id < n then n else item.id + 1
  }

  /** Which entry a save of an accepted form touches, given the hidden id field (None when empty). */
  function UpsertOutcome(items: seq<CatalogItem>, editId: Option<nat>, freshId: nat): SaveOutcome {
    match editId
    case Some(id) =>
      (match IndexOfItem(items, id)
       case Some(idx) => Updated(idx)
       case None => UnknownId)
    case None => Added(freshId)
  }

  /** The catalog after an accepted form is saved. `freshId` stands for the generated id. */
  function Upserted(items: seq<CatalogItem>, name: string, purchase: int, sell: int,
                    editId: Option<nat>, freshId: nat): seq<CatalogItem>
  {
    match UpsertOutcome(items, editId, freshId)
    case Updated(idx) => items[idx := CatalogItem(items[idx].id, name, purchase, sell)]
    case Added(_) => items + [CatalogItem(freshId, name, purchase, sell)]
    case _ => items
  }

  /** What a save of the form does, given the raw field texts. */
  function SaveResult(items: seq<CatalogItem>, nameRaw: string, purchaseRaw: string, sellRaw: string,
                      editId: Option<nat>, freshId: nat): SaveOutcome
  {
    if Trim(nameRaw) == "" then NameMissing
    else if ParseAmount(sellRaw) <= 0 then SellNotPositive
    else UpsertOutcome(items, editId, freshId)
  }

  /** The catalog after the save. */
  function Saved(items: seq<CatalogItem>, nameRaw: string, purchaseRaw: string, sellRaw: string,
                 editId: Option<nat>, freshId: nat): seq<CatalogItem>
  {
    if SaveResult(items, nameRaw, purchaseRaw, sellRaw, editId, freshId).Rejected() then items
    else Upserted(items, Trim(nameRaw), ParseAmount(purchaseRaw), ParseAmount(sellRaw), editId, freshId)
  }

  /**
   * A blank name or a sell price of 0 is refused and changes nothing; an id that
   * matches updates that entry's fields in place, keeping its id and every other
   * entry; an unmatched id changes nothing; an empty id appends one new entry.
   */
  lemma SaveEffect(items: seq<CatalogItem>, nameRaw: string, purchaseRaw: string, sellRaw: string,
                   editId: Option<nat>, freshId: nat)
    ensures var o := SaveResult(items, nameRaw, purchaseRaw, sellRaw, editId, freshId);
            var r := Saved(items, nameRaw, purchaseRaw, sellRaw, editId, freshId);
      && (o == NameMissing <==> AllWhitespace(nameRaw))
      && (o == SellNotPositive <==> !AllWhitespace(nameRaw) && ParseAmount(sellRaw) == 0)
      && (o.Rejected() || o == UnknownId ==> r == items)
      && (o.Updated? ==>
            && editId.Some? && o.index < |items| && items[o.index].id == editId.value
            && |r| == |items|
            && r[o.index] == CatalogItem(editId.value, Trim(nameRaw), ParseAmount(purchaseRaw), ParseAmount(sellRaw))
            && (forall k :: 0 <= k < |items| && k != o.index ==> r[k] == items[k]))
      && (o == UnknownId ==> editId.Some? && forall k :: 0 <= k < |items| ==> items[k].id != editId.value)
      && (o.Added? ==>
            && editId.None?
            && r == items + [CatalogItem(freshId, Trim(nameRaw), ParseAmount(purchaseRaw), ParseAmount(sellRaw))])
  {
    TrimEmptyIffBlank(nameRaw);
    var o := SaveResult(items, nameRaw, purchaseRaw, sellRaw, editId, freshId);
    if o == UnknownId {
      forall k | 0 <= k < |items| ensures items[k].id != editId.value {
        assert !ItemHasId(editId.value)(items[k]);
      }
    }
    if o.Updated? {
      assert ItemHasId(editId.value)(items[o.index]);
    }
  }

  /** An upsert keeps ids unique, and keeps them below the id counter once it moves past the fresh id. */
  lemma UpsertKeepsIds(items: seq<CatalogItem>, name: string, purchase: int, sell: int,
                       editId: Option<nat>, freshId: nat)
    requires ItemIdsBelow(items, freshId)
    ensures var r := Upserted(items, name, purchase, sell, editId, freshId);
      && ItemIdsBelow(r, freshId + 1)
      && (UniqueItemIds(items) ==> UniqueItemIds(r))
  {
    var r := Upserted(items, name, purchase, sell, editId, freshId);
    var o := UpsertOutcome(items, editId, freshId);
    if o.Updated? {
      assert forall k :: 0 <= k < |r| ==> r[k].id == items[k].id;
    } else if o.Added? {
      assert forall k :: 0 <= k < |items| ==> r[k] == items[k];
    }
  }
}
