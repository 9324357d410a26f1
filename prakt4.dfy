/** The second version of the service (prakt4.py): stores and the items they
    stock, keyed by integer id in the URL. Request bodies pass a schema
    before the handler runs; a body that misses a required field is answered
    with 422 and the handler never runs. */
module Prakt4 {
  import opened Http
  import opened Tables

  /** A row of `stores`. */
  datatype Store = Store(name: string)

  /** A row of `items`. */
  datatype Item = Item(name: string, price: Float, storeId: int)

  /** The fields an item request carries, each possibly missing. */
  datatype ItemData = ItemData(name: Option<string>, price: Option<Float>, storeId: Option<int>) {
    /** `ItemSchema` requires all three fields. */
    predicate Complete() {
      name.Some? && price.Some? && storeId.Some?
    }
  }

  function StoreName(s: Store): string { s.name }

  class Database {
    var stores: map<int, Store>
    var items: map<int, Item>
    var nextStoreId: int
    var nextItemId: int

    /** Store names are unique (the handler checks it before inserting) and
        every id is below the next autoincrement value. */
    ghost predicate Valid()
      reads this
    {
      && UniqueBy(stores, StoreName)
      && KeysBelow(stores, nextStoreId)
      && KeysBelow(items, nextItemId)
    }

    constructor ()
      ensures Valid()
      ensures stores == map[] && items == map[]
    {
      stores := map[];
      items := map[];
      nextStoreId := 1;
      nextItemId := 1;
    }

    /** GET /store/<store_id> */
    function GetStore(storeId: int): (r: Response<(int, Store)>)
      reads this
      ensures r.status == OK <==> storeId in stores
      ensures r.status != OK ==> r == Response(NOT_FOUND, None)
      ensures r.status == OK ==> r.body.Some? && r.body.value.0 == storeId && IsRow(stores, r.body.value)
    {
      if storeId in stores then Response(OK, Some((storeId, stores[storeId])))
      else Response(NOT_FOUND, None)
    }

    /** DELETE /store/<store_id>: 404 before anything is deleted. */
    method DeleteStore(storeId: int) returns (status: int)
      requires Valid()
      modifies this
      ensures Valid()
      ensures status == OK <==> storeId in old(stores)
      ensures status != OK ==> status == NOT_FOUND && unchanged(this)
      ensures stores == old(stores) - {storeId}
      ensures items == old(items) && nextStoreId == old(nextStoreId) && nextItemId == old(nextItemId)
    {
      if storeId !in stores {
        return NOT_FOUND;
      }
      stores := stores - {storeId};
      status := OK;
    }

    /** POST /store. `body` is `None` when the JSON has no name. */
    method PostStore(body: Option<Store>) returns (r: Response<(int, Store)>)
      requires Valid()
      modifies this
      ensures Valid()
      ensures body.None? ==> r == Response(UNPROCESSABLE, None) && unchanged(this)
      ensures body.Some? && old(Matching(stores, StoreName, body.value.name)) != {} ==>
        r == Response(BAD_REQUEST, None) && unchanged(this)
      ensures body.Some? && old(Matching(stores, StoreName, body.value.name)) == {} ==>
        && old(nextStoreId) !in old(stores)
        && stores == old(stores)[old(nextStoreId) := body.value]
        && r == Response(CREATED, Some((old(nextStoreId), body.value)))
        && nextStoreId == old(nextStoreId) + 1
        && items == old(items) && nextItemId == old(nextItemId)
    {
      if body.None? {
        return Response(UNPROCESSABLE, None);
      }
      var data := body.value;
      if First(Matching(stores, StoreName, data.name)).Some? {
        return Response(BAD_REQUEST, None);
      }
      var id := nextStoreId;
      InsertKeepsUnique(stores, StoreName, id, data);
      stores := stores[id := data];
      nextStoreId := nextStoreId + 1;
      r := Response(CREATED, Some((id, data)));
    }

    /** GET /store */
    function ListStores(): (r: Response<seq<(int, Store)>>)
      reads this
      ensures r.status == OK && r.body.Some?
      ensures Enumerates(r.body.value, stores)
    {
      RowsEnumerate(stores);
      Response(OK, Some(Rows(stores)))
    }

    /** GET /item/<item_id> */
    function GetItem(itemId: int): (r: Response<(int, Item)>)
      reads this
      ensures r.status == OK <==> itemId in items
      ensures r.status != OK ==> r == Response(NOT_FOUND, None)
      ensures r.status == OK ==> r.body.Some? && r.body.value.0 == itemId && IsRow(items, r.body.value)
    {
      if itemId in items then Response(OK, Some((itemId, items[itemId])))
      else Response(NOT_FOUND, None)
    }

    /** DELETE /item/<item_id>: 404 before anything is deleted. */
    method DeleteItem(itemId: int) returns (status: int)
      requires Valid()
      modifies this
      ensures Valid()
      ensures status == OK <==> itemId in old(items)
      ensures status != OK ==> status == NOT_FOUND && unchanged(this)
      ensures items == old(items) - {itemId}
      ensures stores == old(stores) && nextStoreId == old(nextStoreId) && nextItemId == old(nextItemId)
    {
      if itemId !in items {
        return NOT_FOUND;
      }
      items := items - {itemId};
      status := OK;
    }

    /** PUT /item/<item_id>: overwrites name and price, keeping the old value
        of a field the request does not carry; `store_id` is never changed. */
    method PutItem(itemId: int, data: ItemData) returns (r: Response<(int, Item)>)
      requires Valid()
      modifies this
      ensures Valid()
      ensures !data.Complete() ==> r == Response(UNPROCESSABLE, None) && unchanged(this)
      ensures data.Complete() && itemId !in old(items) ==> r == Response(NOT_FOUND, None) && unchanged(this)
      ensures data.Complete() && itemId in old(items) ==>
        var before := old(items)[itemId];
        var after := Item(data.name.GetOr(before.name), data.price.GetOr(before.price), before.storeId);
        && items == old(items)[itemId := after]
        && r == Response(OK, Some((itemId, after)))
        && stores == old(stores) && nextStoreId == old(nextStoreId) && nextItemId == old(nextItemId)
    {
      if !data.Complete() {
        return Response(UNPROCESSABLE, None);
      }
      if itemId !in items {
        return Response(NOT_FOUND, None);
      }
      var item := items[itemId];
      item := item.(name := data.name.GetOr(item.name));
      item := item.(price := data.price.GetOr(item.price));
      items := items[itemId := item];
      r := Response(OK, Some((itemId, item)));
    }

    /** POST /item: 400 when `store_id` names no store. */
    method PostItem(data: ItemData) returns (r: Response<(int, Item)>)
      requires Valid()
      modifies this
      ensures Valid()
      ensures !data.Complete() ==> r == Response(UNPROCESSABLE, None) && unchanged(this)
      ensures data.Complete() && data.storeId.value !in old(stores) ==>
        r == Response(BAD_REQUEST, None) && unchanged(this)
      ensures data.Complete() && data.storeId.value in old(stores) ==>
        var item := Item(data.name.value, data.price.value, data.storeId.value);
        && old(nextItemId) !in old(items)
        && items == old(items)[old(nextItemId) := item]
        && r == Response(CREATED, Some((old(nextItemId), item)))
        && nextItemId == old(nextItemId) + 1
        && stores == old(stores) && nextStoreId == old(nextStoreId)
    {
      if !data.Complete() {
        return Response(UNPROCESSABLE, None);
      }
      if data.storeId.value !in stores {
        return Response(BAD_REQUEST, None);
      }
      var item := Item(data.name.value, data.price.value, data.storeId.value);
      var id := nextItemId;
      items := items[id := item];
      nextItemId := nextItemId + 1;
      r := Response(CREATED, Some((id, item)));
    }

    /** GET /item */
    function ListItems(): (r: Response<seq<(int, Item)>>)
      reads this
      ensures r.status == OK && r.body.Some?
      ensures Enumerates(r.body.value, items)
    {
      RowsEnumerate(items);
      Response(OK, Some(Rows(items)))
    }
  }
}
