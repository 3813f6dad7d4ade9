/** mapper/OrderMapper.java: conversions between the order entity and the
    DTOs. `toResponse` and `itemToResponse` read an entity; `toEntity` and
    `itemRequestToEntity` build fresh entities from a request; `updateEntity`
    and `linkItems` change an existing order in place. The mapper's
    implementation is generated from its annotations; the model follows the
    annotations: every same-named property is copied, the `ignore = true`
    targets are not, and a null request value is copied as null. */
module Mapper {
  import opened Common
  import opened Entity
  import opened Dto

  function ItemToResponse(item: Item): ItemResponse
    reads item`id, item`sku, item`name, item`quantity, item`unitPrice, item`imageUrl, item`weight
  {
    ItemResponse(item.id, item.sku, item.name, item.quantity, item.unitPrice, item.imageUrl, item.weight)
  }

  /** The list mapping: element k of the result is the response of item k. */
  function ItemResponses(items: seq<Item>): (r: seq<ItemResponse>)
    reads items`id, items`sku, items`name, items`quantity, items`unitPrice, items`imageUrl, items`weight
    ensures |r| == |items|
    ensures forall k | 0 <= k < |items| :: r[k] == ItemToResponse(items[k])
  {
    if items == [] then []
    else ItemResponses(items[..|items| - 1]) + [ItemToResponse(items[|items| - 1])]
  }

  /** `toResponse`: the order's fields, and its items carried over one by
      one in list order (no list when the order has none). */
  function ToResponse(o: Order): (r: OrderResponse)
    reads o, if o.items.Some? then o.items.value else []
    ensures r.id == o.id && r.orderNumber == o.orderNumber
    ensures r.items.Some? <==> o.items.Some?
    ensures o.items.Some? ==> |r.items.value| == |o.items.value|
    ensures o.items.Some? ==> forall k | 0 <= k < |o.items.value| ::
      r.items.value[k] == ItemToResponse(o.items.value[k])
  {
    OrderResponse(o.id, o.orderNumber, o.customerName, o.createdAt, o.totalAmount,
      o.status, o.paymentStatus, o.shippingAddress, o.billingAddress, o.trackingNumber,
      if o.items.Some? then Some(ItemResponses(o.items.value)) else None)
  }

  /** The item carries exactly the six values the request gives. */
  predicate Matches(item: Item, r: ItemRequest)
    reads item`sku, item`name, item`quantity, item`unitPrice, item`imageUrl, item`weight
  {
    && item.sku == r.sku && item.name == r.name && item.quantity == r.quantity
    && item.unitPrice == r.unitPrice && item.imageUrl == r.imageUrl && item.weight == r.weight
  }

  /** Items built from requests add up to the requests' total. */
  lemma {:induction false} MatchingTotal(items: seq<Item>, reqs: seq<ItemRequest>)
    requires |items| == |reqs| && PricedRequests(reqs)
    requires forall k | 0 <= k < |items| :: Matches(items[k], reqs[k])
    ensures Priced(items) && Sum(items) == RequestTotal(reqs)
  {
    if items != [] {
      var n := |items| - 1;
      MatchingTotal(items[..n], reqs[..n]);
      assert items[..n] == items[..|items| - 1];
    }
  }

  /** `updateEntity`: the four mapped fields take the request's values, and
      then `linkItems` (`@AfterMapping`) points every item of the list back
      at the order. The frame leaves id, createdAt, totalAmount, status,
      paymentStatus, trackingNumber, the item list and every other field of
      the items as they were. */
  method UpdateEntity(order: Order, request: OrderRequest)
    modifies order`orderNumber, order`customerName, order`shippingAddress, order`billingAddress
    modifies (if order.items.Some? then order.items.value else [])`order
    ensures order.orderNumber == request.orderNumber && order.customerName == request.customerName
    ensures order.shippingAddress == request.shippingAddress
    ensures order.billingAddress == request.billingAddress
    ensures order.items.Some? ==> LinkedTo(order.items.value, order)
  {
    order.orderNumber := request.orderNumber;
    order.customerName := request.customerName;
    order.shippingAddress := request.shippingAddress;
    order.billingAddress := request.billingAddress;
    LinkItems(order);
  }

  /** `linkItems` (`@AfterMapping`): every item of the list points back at the
      order; the list itself, and every other field of the items, is left as
      it was. Without a list nothing happens. */
  method LinkItems(o: Order)
    modifies (if o.items.Some? then o.items.value else [])`order
    ensures o.items.Some? ==> LinkedTo(o.items.value, o)
  {
    if o.items.Some? {
      var items := o.items.value;
      var k := 0;
      while k < |items|
        invariant 0 <= k <= |items|
        invariant forall j | 0 <= j < k :: items[j].order == o
      {
        items[k].order := o;
        k := k + 1;
      }
    }
  }

  /** `itemRequestToEntity`: the six request values, no id and no order. */
  method ItemRequestToEntity(r: ItemRequest) returns (item: Item)
    ensures fresh(item) && Matches(item, r)
    ensures item.id == None && item.order == null
  {
    item := new Item.Build(None, r.sku, r.name, r.quantity, r.unitPrice, r.imageUrl, r.weight, null);
  }

  /** `toEntity` followed by `linkItems`: the four mapped fields and a fresh
      item per requested item, in request order, each pointing back at the
      new order; id, createdAt, totalAmount and trackingNumber stay unset and
      status and paymentStatus keep their defaults, whatever the request. */
  method ToEntity(request: OrderRequest) returns (o: Order)
    ensures fresh(o)
    ensures o.orderNumber == request.orderNumber && o.customerName == request.customerName
    ensures o.shippingAddress == request.shippingAddress && o.billingAddress == request.billingAddress
    ensures o.id == None && o.createdAt == None && o.totalAmount == None && o.trackingNumber == None
    ensures o.status == Pending && o.paymentStatus == Unpaid
    ensures o.items.Some? <==> request.items.Some?
    ensures o.items.Some? ==> |o.items.value| == |request.items.value| && Distinct(o.items.value)
    ensures o.items.Some? ==> forall k | 0 <= k < |o.items.value| ::
      fresh(o.items.value[k]) && o.items.value[k].id == None
      && Matches(o.items.value[k], request.items.value[k])
    ensures o.items.Some? ==> LinkedTo(o.items.value, o)
  {
    var built: seq<Item> := [];
    if request.items.Some? {
      var reqs := request.items.value;
      var k := 0;
      while k < |reqs|
        invariant 0 <= k <= |reqs| && |built| == k && Distinct(built)
        invariant forall j | 0 <= j < k ::
          fresh(built[j]) && built[j].id == None && Matches(built[j], reqs[j])
      {
        var item := ItemRequestToEntity(reqs[k]);
        built := built + [item];
        k := k + 1;
      }
    }
    o := new Order.Build(request.orderNumber, request.customerName,
      request.shippingAddress, request.billingAddress);
    o.items := if request.items.Some? then Some(built) else None;
    LinkItems(o);
  }
}
