/** service/OrderService.java: the order operations over the store, with the
    read-through caching and the evictions their annotations declare. A
    method that throws has no effect: its transaction rolls back and
    `@CacheEvict` (evicting after the call) does not run. */
module OrderServices {
  import opened Common
  import opened Entity
  import opened Dto
  import opened Mapper
  import opened Persistence
  import opened Caching

  // ---------------------------------------------------------------------
  // What the operations store and throw, stated on values.
  // ---------------------------------------------------------------------

  function OrderNotFound(id: int): Error {
    ResourceNotFound("Order not found with id: " + LongToString(id))
  }

  /** String concatenation writes a null as "null". */
  function Text(s: Option<string>): string {
    if s.Some? then s.value else "null"
  }

  function NumberExists(n: Option<string>): Error {
    DuplicateOrderNumber("Order number already exists: " + Text(n))
  }

  /** The requested items; a request without a list asks for none. */
  function Requested(request: OrderRequest): seq<ItemRequest> {
    if request.items.Some? then request.items.value else []
  }

  /** The row an item built from a request is stored as, under its order. */
  function RequestRow(r: ItemRequest, orderId: int): ItemRow {
    ItemRow(r.sku, r.name, r.quantity, r.unitPrice, r.imageUrl, r.weight, orderId)
  }

  function RequestRows(reqs: seq<ItemRequest>, orderId: int): (rows: seq<ItemRow>)
    ensures |rows| == |reqs|
    ensures forall k | 0 <= k < |reqs| :: rows[k] == RequestRow(reqs[k], orderId)
  {
    if reqs == [] then []
    else RequestRows(reqs[..|reqs| - 1], orderId) + [RequestRow(reqs[|reqs| - 1], orderId)]
  }

  /** The row `create` stores: the four request fields, the creation time,
      the requested items' total, the builder defaults, no tracking number. */
  function CreatedRow(request: OrderRequest, now: int): OrderRow
    requires PricedRequests(Requested(request))
  {
    OrderRow(request.orderNumber, request.customerName, Some(now), Some(RequestTotal(Requested(request))),
      Pending, Unpaid, request.shippingAddress, request.billingAddress, None)
  }

  /** `updateEntity` over a loaded row: the four request fields, everything
      else (the stored total among it) as loaded. The row stays as it was
      exactly when none of the four fields differs. */
  function RefilledRow(row: OrderRow, request: OrderRequest): (r: OrderRow)
    ensures r == row <==> !Changed(row, request)
  {
    row.(orderNumber := request.orderNumber, customerName := request.customerName,
         shippingAddress := request.shippingAddress, billingAddress := request.billingAddress)
  }

  /** Whether `update` changes a column of the order row. Only then is the
      entity dirty when the transaction commits, and only then does
      `@PreUpdate` run: a changed item list alone is not an order column. */
  predicate Changed(row: OrderRow, request: OrderRequest) {
    || request.orderNumber != row.orderNumber || request.customerName != row.customerName
    || request.shippingAddress != row.shippingAddress || request.billingAddress != row.billingAddress
  }

  /** The row `update` stores: when a request field differs, the four
      request fields and, from `@PreUpdate`, the requested items' total;
      otherwise the row as loaded, its former total included. Id, creation
      time, status, payment status and tracking number are kept. */
  function UpdatedRow(row: OrderRow, request: OrderRequest): OrderRow
    requires Changed(row, request) ==> PricedRequests(Requested(request))
  {
    if Changed(row, request) then
      RefilledRow(row, request).(totalAmount := Some(RequestTotal(Requested(request))))
    else row
  }

  /** Items built from requests are stored as the requests' rows. */
  lemma MatchingRows(its: seq<Item>, reqs: seq<ItemRequest>, orderId: int)
    requires |its| == |reqs|
    requires forall k | 0 <= k < |its| :: Matches(its[k], reqs[k])
    ensures RowsOf(its, orderId) == RequestRows(reqs, orderId)
  {
    var a, b := RowsOf(its, orderId), RequestRows(reqs, orderId);
    assert forall k | 0 <= k < |its| :: a[k] == b[k];
  }

  /** A new order row with rows of its own items leaves the response of
      every order already stored as it was. */
  lemma InsertKeepsOthers(orders: map<int, OrderRow>, items: map<int, ItemRow>, nextOrderId: int, first: int,
                          row: OrderRow, rows: seq<ItemRow>, orders': map<int, OrderRow>,
                          all: map<int, ItemRow>, below: int)
    requires WellFormed(orders, items, nextOrderId, first)
    requires forall k | 0 <= k < |rows| :: rows[k].orderId == nextOrderId
    requires orders' == orders[nextOrderId := row]
    requires all == items + Numbered(rows, first) && below == first + |rows|
    ensures forall id | id in orders ::
      id in orders' && RowResponse(id, orders'[id], all, below) == RowResponse(id, orders[id], items, first)
  {
    forall id | id in orders
      ensures id in orders' && RowResponse(id, orders'[id], all, below) == RowResponse(id, orders[id], items, first)
    {
      NewRowsFrame(id, orders[id], items, rows, nextOrderId, first, all, below);
    }
  }

  /** After `update`, no item row of the order from before remains: the
      order's items are exactly the new rows. */
  lemma ReplacedItemsGone(items: map<int, ItemRow>, id: int, rows: seq<ItemRow>, first: int)
    requires forall iid | iid in items :: iid < first
    ensures forall iid | iid in items && items[iid].orderId == id :: iid !in Without(items, id) + Numbered(rows, first)
  {
  }

  /** What a successful `create` does to the tables: the created row under
      the next order id, the requested items' rows under the next item ids. */
  predicate Inserted(orders: map<int, OrderRow>, items: map<int, ItemRow>, nextOrderId: int, first: int,
                     orders': map<int, OrderRow>, all: map<int, ItemRow>, request: OrderRequest, now: int)
  {
    && PricedRequests(Requested(request))
    && orders' == orders[nextOrderId := CreatedRow(request, now)]
    && all == items + Numbered(RequestRows(Requested(request), nextOrderId), first)
  }

  /** The stored response of a created order lists the requested items in
      request order, under consecutive new ids; every order stored before
      answers as it did. */
  lemma InsertedShape(orders: map<int, OrderRow>, items: map<int, ItemRow>, nextOrderId: int, first: int,
                      request: OrderRequest, now: int, orders': map<int, OrderRow>, all: map<int, ItemRow>,
                      below: int)
    requires WellFormed(orders, items, nextOrderId, first)
    requires Inserted(orders, items, nextOrderId, first, orders', all, request, now)
    requires below == first + |Requested(request)|
    ensures var rows := RequestRows(Requested(request), nextOrderId);
      RowResponse(nextOrderId, orders'[nextOrderId], all, below) ==
        WithItems(nextOrderId, CreatedRow(request, now), NumberedResponses(rows, first))
    ensures forall id | id in orders ::
      id in orders' && RowResponse(id, orders'[id], all, below) == RowResponse(id, orders[id], items, first)
  {
    var rows := RequestRows(Requested(request), nextOrderId);
    NewRowsResponse(nextOrderId, CreatedRow(request, now), items, rows, first, all, below);
    InsertKeepsOthers(orders, items, nextOrderId, first, CreatedRow(request, now), rows, orders', all, below);
  }

  // ---------------------------------------------------------------------
  // The forEach that turns the requested items into entities.
  // ---------------------------------------------------------------------

  /** Each requested item becomes a new `Item` built from its six values and
      pointing at the order, added with `addItem`, in request order. */
  method AddRequestedItems(order: Order, reqs: seq<ItemRequest>)
    requires order.items == Some([])
    modifies order`items
    ensures order.items.Some? && |order.items.value| == |reqs|
    ensures Distinct(order.items.value) && LinkedTo(order.items.value, order)
    ensures forall k | 0 <= k < |reqs| ::
      fresh(order.items.value[k]) && order.items.value[k].id == None && Matches(order.items.value[k], reqs[k])
  {
    var k := 0;
    while k < |reqs|
      invariant 0 <= k <= |reqs|
      invariant order.items.Some? && |order.items.value| == k
      invariant Distinct(order.items.value) && LinkedTo(order.items.value, order)
      invariant forall j | 0 <= j < k ::
        fresh(order.items.value[j]) && order.items.value[j].id == None && Matches(order.items.value[j], reqs[j])
    {
      var r := reqs[k];
      var item := new Item.Build(None, r.sku, r.name, r.quantity, r.unitPrice, r.imageUrl, r.weight, order);
      order.AddItem(item);
      k := k + 1;
    }
  }

  /** What a successful `update` does to the tables: the updated row under
      the same id, every item row of the order replaced by the requested
      items' rows under the next item ids. */
  predicate Replaced(orders: map<int, OrderRow>, items: map<int, ItemRow>, id: int, first: int,
                     orders': map<int, OrderRow>, all: map<int, ItemRow>, request: OrderRequest)
    requires id in orders
  {
    && (Changed(orders[id], request) ==> PricedRequests(Requested(request)))
    && orders' == orders[id := UpdatedRow(orders[id], request)]
    && all == Without(items, id) + Numbered(RequestRows(Requested(request), id), first)
  }

  /** The stored response of an updated order lists exactly the requested
      items, in request order, under new ids: none of its former items is
      left. */
  lemma ReplacedShape(orders: map<int, OrderRow>, items: map<int, ItemRow>, id: int, first: int,
                      request: OrderRequest, orders': map<int, OrderRow>, all: map<int, ItemRow>, below: int)
    requires id in orders && 1 <= first
    requires forall iid | iid in items :: iid < first
    requires Replaced(orders, items, id, first, orders', all, request)
    requires below == first + |Requested(request)|
    ensures RowResponse(id, orders'[id], all, below) ==
      WithItems(id, UpdatedRow(orders[id], request), NumberedResponses(RequestRows(Requested(request), id), first))
    ensures forall iid | iid in items && items[iid].orderId == id :: iid !in all
  {
    var rows := RequestRows(Requested(request), id);
    NewRowsResponse(id, UpdatedRow(orders[id], request), Without(items, id), rows, first, all, below);
    ReplacedItemsGone(items, id, rows, first);
  }

  /** An order entity as `create` builds it from the request, before saving. */
  predicate BuiltFrom(order: Order, request: OrderRequest)
    reads order, if order.items.Some? then order.items.value else []
  {
    && order.createdAt == None && order.status == Pending && order.paymentStatus == Unpaid
    && order.orderNumber == request.orderNumber && order.customerName == request.customerName
    && order.shippingAddress == request.shippingAddress && order.billingAddress == request.billingAddress
    && order.trackingNumber == None
    && order.items.Some? && |order.items.value| == |Requested(request)| && Distinct(order.items.value)
    && forall k | 0 <= k < |order.items.value| :: Matches(order.items.value[k], Requested(request)[k])
  }

  /** A loaded order entity after `update` refilled it from the request:
      the four request fields over the loaded row, and one new item per
      requested item. */
  predicate RefilledFrom(order: Order, row: OrderRow, request: OrderRequest)
    reads order, if order.items.Some? then order.items.value else []
  {
    && RowOf(order) == RefilledRow(row, request)
    && order.items.Some? && |order.items.value| == |Requested(request)| && Distinct(order.items.value)
    && forall k | 0 <= k < |order.items.value| :: Matches(order.items.value[k], Requested(request)[k])
  }

  // ---------------------------------------------------------------------
  // The service.
  // ---------------------------------------------------------------------

  class OrderService {
    const db: Database
    const cache: CacheManager

    constructor (db: Database, cache: CacheManager)
      requires db.Valid() && Coherent(db, cache)
      ensures this.db == db && this.cache == cache
    {
      this.db := db;
      this.cache := cache;
    }

    predicate Valid()
      reads this, db, cache
    {
      db.Valid() && Coherent(db, cache)
    }

    /** `findAll`, `@Cacheable("orders")`: a cached list is returned as it
        is; otherwise every stored order is loaded and mapped, and the list
        is cached. Either way it is the list of all stored orders. */
    method FindAll() returns (r: seq<OrderResponse>)
      requires Valid()
      modifies cache`orders
      ensures Valid()
      ensures r == db.Responses(db.AllIds())
      ensures old(cache.orders).Some? ==> r == old(cache.orders).value && cache.orders == old(cache.orders)
      ensures old(cache.orders).None? ==> cache.orders == Some(r)
    {
      if cache.orders.Some? {
        r := cache.orders.value;
        return;
      }
      var ids := db.AllIds();
      r := [];
      var k := 0;
      while k < |ids|
        invariant 0 <= k <= |ids| && |r| == k
        invariant forall j | 0 <= j < k :: r[j] == db.Response(ids[j])
      {
        var o := db.LoadOrder(ids[k]);
        r := r + [ToResponse(o)];
        k := k + 1;
      }
      assert r == db.Responses(ids);
      cache.PutOrders(r);
    }

    /** `findById`, `@Cacheable(value = "order", key = "#id")`: a cached
        entry is returned as it is; otherwise the stored order is loaded,
        mapped and cached; an absent id throws and caches nothing. */
    method FindById(id: int) returns (r: Result<OrderResponse>)
      requires Valid()
      modifies cache`order
      ensures Valid()
      ensures r.Err? <==> id !in db.orders
      ensures r.Err? ==> r.error == OrderNotFound(id) && cache.order == old(cache.order)
      ensures r.Ok? ==> r.value == db.Response(id)
      ensures id in old(cache.order) ==> r == Ok(old(cache.order)[id]) && cache.order == old(cache.order)
      ensures r.Ok? && id !in old(cache.order) ==> cache.order == old(cache.order)[id := r.value]
    {
      if id in cache.order {
        r := Ok(cache.order[id]);
        return;
      }
      if id !in db.orders {
        r := Err(OrderNotFound(id));
        return;
      }
      var o := db.LoadOrder(id);
      r := Ok(ToResponse(o));
      cache.PutOrder(id, r.value);
    }

    /** `create`, `@CacheEvict(value = "orders", allEntries = true)`: a
        taken order number throws; otherwise the order is built from the
        request, its items added in request order, and it is saved under the
        next id. The failures `save` itself can raise (a missing price or
        quantity in `@PrePersist`, a null in a required column) throw too.
        Success evicts the list namespace only: the cached single orders
        stay, and stay correct, since no stored order changed. */
    method Create(request: OrderRequest, now: int) returns (r: Result<OrderResponse>)
      requires Valid()
      modifies db, cache`orders
      ensures Valid()
      ensures old(db.NumberTaken(request.orderNumber)) ==> r == Err(NumberExists(request.orderNumber))
      ensures r.Ok? <==>
        && !old(db.NumberTaken(request.orderNumber)) && PricedRequests(Requested(request))
        && request.orderNumber.Some? && request.customerName.Some?
      ensures r.Err? ==> unchanged(db) && unchanged(cache)
      ensures r.Ok? ==>
        var id, first := old(db.nextOrderId), old(db.nextItemId);
        && Inserted(old(db.orders), old(db.items), id, first, db.orders, db.items, request, now)
        && r.value == db.Response(id)
        && r.value == WithItems(id, CreatedRow(request, now), NumberedResponses(RequestRows(Requested(request), id), first))
        && cache.order == old(cache.order) && cache.orders == None
    {
      ghost var orders0, items0, next0, first0 := db.orders, db.items, db.nextOrderId, db.nextItemId;
      if db.NumberTaken(request.orderNumber) {
        r := Err(NumberExists(request.orderNumber));
        return;
      }
      var order := BuildOrder(request);
      assert unchanged(db) && unchanged(cache);
      r := SaveNew(order, Requested(request), request, now);
      assert unchanged(cache);
      if r.Ok? {
        InsertedShape(orders0, items0, next0, first0, request, now, db.orders, db.items, db.nextItemId);
        KeepsAgreement(cache.order, orders0, items0, first0, db.orders, db.items, db.nextItemId);
        cache.EvictOrders();
      }
    }

    /** The entity `create` builds: the builder with the four request
        fields, then one new item per requested item. */
    static method BuildOrder(request: OrderRequest) returns (order: Order)
      ensures fresh(order) && BuiltFrom(order, request)
      ensures forall k | 0 <= k < |order.items.value| :: fresh(order.items.value[k])
    {
      order := new Order.Build(request.orderNumber, request.customerName,
        request.shippingAddress, request.billingAddress);
      if request.items.Some? {
        AddRequestedItems(order, request.items.value);
      }
    }

    /** `save` of the order `create` built: `@PrePersist` totals the items,
        which throws on an item without price or quantity, and the insert
        throws on a null order number or customer name. */
    method SaveNew(order: Order, reqs: seq<ItemRequest>, ghost request: OrderRequest, now: int)
        returns (r: Result<OrderResponse>)
      requires db.Valid() && !db.NumberTaken(request.orderNumber) && reqs == Requested(request)
      requires BuiltFrom(order, request)
      modifies db, order`id, order`createdAt, order`totalAmount, order.items.value`id
      ensures db.Valid()
      ensures r.Ok? <==> PricedRequests(reqs) && request.orderNumber.Some? && request.customerName.Some?
      ensures r.Err? ==> unchanged(db)
      ensures r.Ok? ==> Inserted(old(db.orders), old(db.items), old(db.nextOrderId), old(db.nextItemId),
        db.orders, db.items, request, now) && r.value == db.Response(old(db.nextOrderId))
      ensures r.Ok? ==> db.nextItemId == old(db.nextItemId) + |reqs|
    {
      var its := order.items.value;
      if !Priced(its) {
        assert !PricedRequests(reqs) by {
          var k :| 0 <= k < |its| && !(its[k].quantity.Some? && its[k].unitPrice.Some?);
          assert Matches(its[k], reqs[k]);
        }
        r := Err(Internal("NullPointerException"));
        return;
      }
      if order.orderNumber.None? || order.customerName.None? {
        r := Err(Internal("DataIntegrityViolationException"));
        return;
      }
      r := Insert(order, reqs, request, now);
    }

    /** The insert itself, once the entity can be stored. */
    method Insert(order: Order, reqs: seq<ItemRequest>, ghost request: OrderRequest, now: int)
        returns (r: Result<OrderResponse>)
      requires db.Valid() && !db.NumberTaken(request.orderNumber) && reqs == Requested(request)
      requires BuiltFrom(order, request) && Priced(order.items.value)
      requires request.orderNumber.Some? && request.customerName.Some?
      modifies db, order`id, order`createdAt, order`totalAmount, order.items.value`id
      ensures db.Valid() && r.Ok?
      ensures Inserted(old(db.orders), old(db.items), old(db.nextOrderId), old(db.nextItemId),
        db.orders, db.items, request, now) && r.value == db.Response(old(db.nextOrderId))
      ensures db.nextItemId == old(db.nextItemId) + |reqs|
    {
      var its := order.items.value;
      MatchingTotal(its, reqs);
      var id := db.nextOrderId;
      ghost var rows := RowsOf(its, id);
      MatchingRows(its, reqs, id);
      ghost var orders0, items0, first := db.orders, db.items, db.nextItemId;
      assert WellFormed(orders0, items0, id, first);
      ghost var created := CreatedRow(request, now);
      assert created == RowOf(order).(createdAt := Some(now), totalAmount := Some(Sum(its)));
      db.InsertOrder(order, now);
      assert RowOf(order) == created;
      assert db.orders == orders0[id := created] && db.items == items0 + Numbered(rows, first);
      r := Ok(ToResponse(order));
    }

    /** `update`, `@CacheEvict({"order", "orders"}, allEntries = true)`: an
        absent id throws; a number changed to one that another order has
        throws, while keeping the number never conflicts; otherwise the
        loaded order's list is cleared and refilled from the request, the
        four fields are copied, and the order is saved. The answer is built
        before the transaction commits, so it carries the total the order
        was loaded with; the stored total is recomputed only when one of the
        four fields changed. Success empties both namespaces. */
    method Update(id: int, request: OrderRequest) returns (r: Result<OrderResponse>)
      requires Valid()
      modifies db, cache
      ensures Valid()
      ensures id !in old(db.orders) ==> r == Err(OrderNotFound(id))
      ensures (id in old(db.orders) && request.orderNumber != old(db.orders[id].orderNumber)
        && old(db.NumberTaken(request.orderNumber))) ==> r == Err(NumberExists(request.orderNumber))
      ensures r.Ok? <==>
        && id in old(db.orders)
        && (request.orderNumber == old(db.orders[id].orderNumber) || !old(db.NumberTaken(request.orderNumber)))
        && (Changed(old(db.orders[id]), request) ==>
              PricedRequests(Requested(request)) && request.orderNumber.Some? && request.customerName.Some?)
      ensures r.Err? ==> unchanged(db) && unchanged(cache)
      ensures r.Ok? ==>
        var items := NumberedResponses(RequestRows(Requested(request), id), old(db.nextItemId));
        && Replaced(old(db.orders), old(db.items), id, old(db.nextItemId), db.orders, db.items, request)
        && db.Response(id) == WithItems(id, UpdatedRow(old(db.orders[id]), request), items)
        && r.value == WithItems(id, RefilledRow(old(db.orders[id]), request), items)
        && r.value == db.Response(id).(totalAmount := old(db.orders[id].totalAmount))
        && cache.order == map[] && cache.orders == None
    {
      if id !in db.orders {
        r := Err(OrderNotFound(id));
        return;
      }
      ghost var orders0, items0, first0 := db.orders, db.items, db.nextItemId;
      var order := db.LoadOrder(id);
      if order.orderNumber != request.orderNumber && db.NumberTaken(request.orderNumber) {
        r := Err(NumberExists(request.orderNumber));
        return;
      }
      Refill(order, request);
      assert unchanged(db) && unchanged(cache);
      r := SaveChanged(id, order, Requested(request), request);
      assert unchanged(cache);
      if r.Ok? {
        ReplacedShape(orders0, items0, id, first0, request, db.orders, db.items, db.nextItemId);
        cache.EvictAll();
      }
    }

    /** `getItems().clear()`, the items built from the request added one by
        one, then `updateEntity`. */
    static method Refill(order: Order, request: OrderRequest)
      requires order.items.Some?
      modifies order`items, order`orderNumber, order`customerName, order`shippingAddress, order`billingAddress
      ensures RefilledFrom(order, old(RowOf(order)), request)
      ensures LinkedTo(order.items.value, order)
      ensures forall k | 0 <= k < |order.items.value| :: fresh(order.items.value[k])
    {
      order.items := Some([]);
      if request.items.Some? {
        AddRequestedItems(order, request.items.value);
      }
      UpdateEntity(order, request);
    }

    /** `save` of the refilled order, then the commit. `save` merges a
        loaded entity: the new items are written at once under the next item
        ids, and the answer is mapped from the entity as it stands, with the
        total it was loaded with. At commit the rows of the former items go
        (orphan removal); the order row is written only when one of its
        columns changed, and only then does `@PreUpdate` total the items,
        which throws on an item without price or quantity, and the write
        throws on a null order number or customer name. */
    method SaveChanged(id: int, order: Order, reqs: seq<ItemRequest>, ghost request: OrderRequest)
        returns (r: Result<OrderResponse>)
      requires db.Valid() && id in db.orders && order.id == Some(id) && reqs == Requested(request)
      requires request.orderNumber == db.orders[id].orderNumber || !db.NumberTaken(request.orderNumber)
      requires RefilledFrom(order, db.orders[id], request)
      modifies db, order`totalAmount, order.items.value`id
      ensures db.Valid()
      ensures r.Ok? <==> (Changed(old(db.orders[id]), request) ==>
        PricedRequests(reqs) && request.orderNumber.Some? && request.customerName.Some?)
      ensures r.Err? ==> unchanged(db)
      ensures r.Ok? ==>
        && Replaced(old(db.orders), old(db.items), id, old(db.nextItemId), db.orders, db.items, request)
        && db.nextItemId == old(db.nextItemId) + |reqs|
        && r.value == WithItems(id, RefilledRow(old(db.orders[id]), request),
             NumberedResponses(RequestRows(reqs, id), old(db.nextItemId)))
    {
      var its := order.items.value;
      var rows := RowsOf(its, id);
      MatchingRows(its, reqs, id);
      PersistChanged(order, rows, db.nextItemId);
      var response := ToResponse(order);
      var committed := Commit(id, order, reqs, request);
      r := if committed.Ok? then Ok(response) else Err(committed.error);
    }

    /** The commit of `update`: the flush of the order row, then the writes. */
    method Commit(id: int, order: Order, reqs: seq<ItemRequest>, ghost request: OrderRequest)
        returns (r: Result<()>)
      requires db.Valid() && id in db.orders && reqs == Requested(request)
      requires request.orderNumber == db.orders[id].orderNumber || !db.NumberTaken(request.orderNumber)
      requires RefilledFrom(order, db.orders[id], request)
      modifies db, order`totalAmount
      ensures db.Valid()
      ensures r.Ok? <==> (Changed(old(db.orders[id]), request) ==>
        PricedRequests(reqs) && request.orderNumber.Some? && request.customerName.Some?)
      ensures r.Err? ==> unchanged(db)
      ensures r.Ok? ==>
        && Replaced(old(db.orders), old(db.items), id, old(db.nextItemId), db.orders, db.items, request)
        && db.nextItemId == old(db.nextItemId) + |reqs|
    {
      var row0 := db.orders[id];
      var flushed := Flush(order, row0, reqs, request);
      if !flushed {
        r := Err(Internal("NullPointerException"));
        return;
      }
      if order.orderNumber.None? || order.customerName.None? {
        r := Err(Internal("DataIntegrityViolationException"));
        return;
      }
      var its := order.items.value;
      MatchingRows(its, reqs, id);
      db.PutRows(id, RowOf(order), RowsOf(its, id));
      r := Ok(());
    }

    /** The dirty check at commit: when a column of the row differs from the
        loaded one, `@PreUpdate` totals the items, which fails on an item
        without price or quantity; otherwise the entity is left as it is. */
    static method Flush(order: Order, row: OrderRow, reqs: seq<ItemRequest>, ghost request: OrderRequest)
        returns (ok: bool)
      requires reqs == Requested(request) && RefilledFrom(order, row, request)
      modifies order`totalAmount
      ensures ok <==> (Changed(row, request) ==> PricedRequests(reqs))
      ensures ok ==> RowOf(order) == UpdatedRow(row, request)
    {
      var its := order.items.value;
      ok := true;
      if RowOf(order) != row {
        if !Priced(its) {
          assert !PricedRequests(reqs) by {
            var k :| 0 <= k < |its| && !(its[k].quantity.Some? && its[k].unitPrice.Some?);
            assert Matches(its[k], reqs[k]);
          }
          ok := false;
          return;
        }
        MatchingTotal(its, reqs);
        order.OnUpdate();
      }
    }

    /** `delete`, `@CacheEvict({"order", "orders"}, allEntries = true)`: an
        absent id throws; otherwise the order goes, with its items, and both
        namespaces empty. */
    method Delete(id: int) returns (r: Result<()>)
      requires Valid()
      modifies db`orders, db`items, cache
      ensures Valid()
      ensures r.Err? <==> id !in old(db.orders)
      ensures r.Err? ==> r.error == OrderNotFound(id) && unchanged(db) && unchanged(cache)
      ensures r.Ok? ==> db.orders == old(db.orders) - {id} && db.items == Without(old(db.items), id)
      ensures r.Ok? ==> cache.order == map[] && cache.orders == None
    {
      if id !in db.orders {
        r := Err(OrderNotFound(id));
        return;
      }
      db.DeleteOrder(id);
      cache.EvictAll();
      r := Ok(());
    }
  }
}
