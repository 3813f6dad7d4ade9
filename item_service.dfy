/** service/ItemService.java: item operations straight on the items table.
    They never touch the order's row, so the stored `totalAmount` of the
    order is not recomputed. Every successful operation empties both cache
    namespaces; one that throws changes nothing. */
module ItemServices {
  import opened Common
  import opened Entity
  import opened Dto
  import opened Mapper
  import opened Persistence
  import opened Caching
  import opened OrderServices

  function ItemNotFound(iid: int): Error {
    ResourceNotFound("Item not found with id: " + LongToString(iid))
  }

  /** The six setters of `update`; the item's id and its order are left as
      they were. */
  method Overwrite(item: Item, request: ItemRequest)
    modifies item`sku, item`name, item`quantity, item`unitPrice, item`imageUrl, item`weight
    ensures Matches(item, request)
  {
    item.sku := request.sku;
    item.name := request.name;
    item.quantity := request.quantity;
    item.unitPrice := request.unitPrice;
    item.imageUrl := request.imageUrl;
    item.weight := request.weight;
  }

  class ItemService {
    const db: Database
    const cache: CacheManager

    constructor (db: Database, cache: CacheManager)
      requires db.Valid() && Coherent(db, cache)
      ensures this.db == db && this.cache == cache
    {
      this.db := db;
      this.cache := cache;
    }

    predicate Valid()
      reads this, db, cache
    {
      db.Valid() && Coherent(db, cache)
    }

    /** `create`: an absent order throws; otherwise a new item carrying the
        request's six values, linked to the found order, is saved under the
        next item id. */
    method Create(orderId: int, request: ItemRequest) returns (r: Result<ItemResponse>)
      requires Valid()
      modifies db`items, db`nextItemId, cache
      ensures Valid()
      ensures r.Err? <==> orderId !in old(db.orders)
      ensures r.Err? ==> r.error == OrderNotFound(orderId) && unchanged(db) && unchanged(cache)
      ensures r.Ok? ==>
        var iid := old(db.nextItemId);
        && db.items == old(db.items)[iid := RequestRow(request, orderId)] && db.nextItemId == iid + 1
        && r.value == ItemRowResponse(iid, RequestRow(request, orderId))
        && cache.order == map[] && cache.orders == None
    {
      if orderId !in db.orders {
        r := Err(OrderNotFound(orderId));
        return;
      }
      var order := db.LoadOrder(orderId);
      var item := new Item.Build(None, request.sku, request.name, request.quantity, request.unitPrice,
        request.imageUrl, request.weight, order);
      var iid := db.InsertItem(ItemRowOf(item, order.id.value));
      item.id := Some(iid);
      r := Ok(ItemToResponse(item));
      cache.EvictAll();
    }

    /** `update`: an absent item throws; otherwise exactly its six values
        take the request's, and it stays with its order under its id. */
    method Update(iid: int, request: ItemRequest) returns (r: Result<ItemResponse>)
      requires Valid()
      modifies db`items, cache
      ensures Valid()
      ensures r.Err? <==> iid !in old(db.items)
      ensures r.Err? ==> r.error == ItemNotFound(iid) && unchanged(db) && unchanged(cache)
      ensures r.Ok? ==>
        && db.items == old(db.items)[iid := RequestRow(request, old(db.items[iid].orderId))]
        && r.value == ItemRowResponse(iid, db.items[iid])
        && cache.order == map[] && cache.orders == None
    {
      if iid !in db.items {
        r := Err(ItemNotFound(iid));
        return;
      }
      var item := db.LoadItem(iid);
      Overwrite(item, request);
      db.SaveItem(iid, ItemRowOf(item, item.order.id.value));
      r := Ok(ItemToResponse(item));
      cache.EvictAll();
    }

    /** `delete`: an absent item throws; otherwise that item alone goes. */
    method Delete(iid: int) returns (r: Result<()>)
      requires Valid()
      modifies db`items, cache
      ensures Valid()
      ensures r.Err? <==> iid !in old(db.items)
      ensures r.Err? ==> r.error == ItemNotFound(iid) && unchanged(db) && unchanged(cache)
      ensures r.Ok? ==> db.items == old(db.items) - {iid} && cache.order == map[] && cache.orders == None
    {
      if iid !in db.items {
        r := Err(ItemNotFound(iid));
        return;
      }
      db.DeleteItem(iid);
      cache.EvictAll();
      r := Ok(());
    }
  }
}
