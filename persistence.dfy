/** The relational store behind the two JPA repositories: an `orders` table
    and an `items` table whose rows point at their order through `orderId`.
    An order's item list is not stored with the order: it is every item row
    whose `orderId` names the order (the `mappedBy = "order"` side of the
    association), listed by ascending item id. Ids are handed out from two
    counters, as an identity column does. */
module Persistence {
  import opened Common
  import opened Entity
  import opened Dto
  import opened Mapper

  datatype OrderRow = OrderRow(
    orderNumber: Option<string>,
    customerName: Option<string>,
    createdAt: Option<int>,
    totalAmount: Option<int>,
    status: OrderStatus,
    paymentStatus: PaymentStatus,
    shippingAddress: Option<string>,
    billingAddress: Option<string>,
    trackingNumber: Option<string>)

  datatype ItemRow = ItemRow(
    sku: Option<string>,
    name: Option<string>,
    quantity: Option<int>,
    unitPrice: Option<int>,
    imageUrl: Option<string>,
    weight: Option<int>,
    orderId: int)

  // ---------------------------------------------------------------------
  // Listing ids in ascending order. Ids start at 1 and stay below the
  // counter that hands them out, so counting up to the counter lists a set
  // of ids in order.
  // ---------------------------------------------------------------------

  /** The ids of `s` from 1 up to (not including) `below`, smallest first. */
  function IdsBelow(s: set<int>, below: int): (r: seq<int>)
    ensures forall k | 0 <= k < |r| :: r[k] in s && 1 <= r[k] < below
    decreases below
  {
    if below <= 1 then []
    else IdsBelow(s, below - 1) + (if below - 1 in s then [below - 1] else [])
  }

  /** The listing is strictly increasing, so no id appears twice. */
  lemma {:induction false} IdsBelowAscending(s: set<int>, below: int)
    ensures forall j, k | 0 <= j < k < |IdsBelow(s, below)| :: IdsBelow(s, below)[j] < IdsBelow(s, below)[k]
    decreases below
  {
    if below > 1 {
      IdsBelowAscending(s, below - 1);
    }
  }

  /** Every id of the set in range is listed. */
  lemma {:induction false} IdsBelowComplete(s: set<int>, below: int, x: int)
    requires x in s && 1 <= x < below
    ensures x in IdsBelow(s, below)
    decreases below
  {
    if x < below - 1 {
      IdsBelowComplete(s, below - 1, x);
    }
  }

  /** Raising the bound past ids that are not in the set changes nothing. */
  lemma {:induction false} IdsBelowBeyond(s: set<int>, below: int, above: int)
    requires below <= above
    requires forall x | x in s :: x < below
    ensures IdsBelow(s, above) == IdsBelow(s, below)
    decreases above - below
  {
    if above > below {
      IdsBelowBeyond(s, below, above - 1);
    }
  }

  /** A set with no id below the bound lists nothing. */
  lemma {:induction false} IdsBelowNone(s: set<int>, below: int)
    requires forall x | x in s :: x < 1 || below <= x
    ensures IdsBelow(s, below) == []
    decreases below
  {
    if below > 1 {
      IdsBelowNone(s, below - 1);
    }
  }

  /** A set that holds, below `below`, exactly the ids from `first` on is
      listed as those ids in counting order. */
  lemma {:induction false} IdsBelowRange(s: set<int>, first: int, below: int)
    requires 1 <= first <= below
    requires forall x | 1 <= x < below :: x in s <==> first <= x
    ensures |IdsBelow(s, below)| == below - first
    ensures forall k | 0 <= k < below - first :: IdsBelow(s, below)[k] == first + k
    decreases below - first
  {
    if below > first {
      IdsBelowRange(s, first, below - 1);
      assert below - 1 in s;
      assert IdsBelow(s, below) == IdsBelow(s, below - 1) + [below - 1];
    } else {
      IdsBelowNone(s, below);
    }
  }

  // ---------------------------------------------------------------------
  // The store's integrity: what the id columns, the foreign key and the
  // `unique = true, nullable = false` columns guarantee.
  // ---------------------------------------------------------------------

  /** The item ids of one order. */
  function ItemsOf(items: map<int, ItemRow>, orderId: int): (s: set<int>)
    ensures forall iid | iid in s :: iid in items && items[iid].orderId == orderId
    ensures forall iid | iid in items && items[iid].orderId == orderId :: iid in s
  {
    set iid | iid in items && items[iid].orderId == orderId
  }

  predicate WellFormed(orders: map<int, OrderRow>, items: map<int, ItemRow>, nextOrderId: int, nextItemId: int) {
    && 1 <= nextOrderId && 1 <= nextItemId
    && (forall id | id in orders :: 1 <= id < nextOrderId)
    && (forall id | id in orders ::
          orders[id].orderNumber.Some? && orders[id].customerName.Some? && orders[id].createdAt.Some?)
    && (forall a, b | a in orders && b in orders && a != b :: orders[a].orderNumber != orders[b].orderNumber)
    && (forall iid | iid in items :: 1 <= iid < nextItemId && items[iid].orderId in orders)
  }

  /** Writing an order row under `id` with new item rows of that order,
      numbered from the item counter, keeps the store well formed as long
      as no other order has the row's number. */
  lemma StoreKeepsWellFormed(orders: map<int, OrderRow>, items: map<int, ItemRow>, nextOrderId: int,
                             nextItemId: int, id: int, row: OrderRow, rows: seq<ItemRow>)
    requires WellFormed(orders, items, nextOrderId, nextItemId)
    requires 1 <= id < nextOrderId
    requires row.orderNumber.Some? && row.customerName.Some? && row.createdAt.Some?
    requires forall other | other in orders && other != id :: orders[other].orderNumber != row.orderNumber
    requires forall k | 0 <= k < |rows| :: rows[k].orderId == id
    ensures WellFormed(orders[id := row], items + Numbered(rows, nextItemId), nextOrderId, nextItemId + |rows|)
  {
    var added := Numbered(rows, nextItemId);
    forall iid | iid in added ensures added[iid].orderId == id {
      assert added[iid] == rows[iid - nextItemId];
    }
  }

  /** The items table without the rows of one order: the cascade of a delete
      and the orphan removal of a cleared list. */
  function Without(items: map<int, ItemRow>, orderId: int): (r: map<int, ItemRow>)
    ensures forall iid | iid in r :: iid in items && r[iid] == items[iid] && r[iid].orderId != orderId
    ensures forall iid | iid in items && items[iid].orderId != orderId :: iid in r
  {
    map iid | iid in items && items[iid].orderId != orderId :: items[iid]
  }

  // ---------------------------------------------------------------------
  // Rows to responses, and entity objects to rows.
  // ---------------------------------------------------------------------

  function ItemRowResponse(id: int, row: ItemRow): ItemResponse {
    ItemResponse(Some(id), row.sku, row.name, row.quantity, row.unitPrice, row.imageUrl, row.weight)
  }

  function ItemRowResponses(ids: seq<int>, items: map<int, ItemRow>): (r: seq<ItemResponse>)
    requires forall k | 0 <= k < |ids| :: ids[k] in items
    ensures |r| == |ids|
    ensures forall k | 0 <= k < |ids| :: r[k] == ItemRowResponse(ids[k], items[ids[k]])
  {
    if ids == [] then []
    else ItemRowResponses(ids[..|ids| - 1], items) + [ItemRowResponse(ids[|ids| - 1], items[ids[|ids| - 1]])]
  }

  /** The response of order `id` stored as `row`, with the given items. */
  function WithItems(id: int, row: OrderRow, items: seq<ItemResponse>): OrderResponse {
    OrderResponse(Some(id), row.orderNumber, row.customerName, row.createdAt, row.totalAmount,
      row.status, row.paymentStatus, row.shippingAddress, row.billingAddress, row.trackingNumber,
      Some(items))
  }

  /** What loading order `id` and mapping it to a response yields, when
      every item id is below `nextItemId`. */
  function RowResponse(id: int, row: OrderRow, items: map<int, ItemRow>, nextItemId: int): OrderResponse {
    WithItems(id, row, ItemRowResponses(IdsBelow(ItemsOf(items, id), nextItemId), items))
  }

  function RowOf(o: Order): OrderRow
    reads o
  {
    OrderRow(o.orderNumber, o.customerName, o.createdAt, o.totalAmount, o.status,
      o.paymentStatus, o.shippingAddress, o.billingAddress, o.trackingNumber)
  }

  function ItemRowOf(item: Item, orderId: int): ItemRow
    reads item`sku, item`name, item`quantity, item`unitPrice, item`imageUrl, item`weight
  {
    ItemRow(item.sku, item.name, item.quantity, item.unitPrice, item.imageUrl, item.weight, orderId)
  }

  /** The rows of a list of items, all under `orderId`. */
  function RowsOf(its: seq<Item>, orderId: int): (rows: seq<ItemRow>)
    reads its`sku, its`name, its`quantity, its`unitPrice, its`imageUrl, its`weight
    ensures |rows| == |its|
    ensures forall k | 0 <= k < |its| :: rows[k] == ItemRowOf(its[k], orderId)
  {
    if its == [] then []
    else RowsOf(its[..|its| - 1], orderId) + [ItemRowOf(its[|its| - 1], orderId)]
  }

  /** Each item carries the values of its row. */
  predicate Carries(its: seq<Item>, rows: seq<ItemRow>)
    reads its`sku, its`name, its`quantity, its`unitPrice, its`imageUrl, its`weight
  {
    |rows| == |its| && forall k | 0 <= k < |its| :: ItemRowOf(its[k], rows[k].orderId) == rows[k]
  }

  /** Rows stored under consecutive ids from `first`, in list order. */
  function Numbered(rows: seq<ItemRow>, first: int): (m: map<int, ItemRow>)
    ensures forall iid :: iid in m <==> first <= iid < first + |rows|
    ensures forall iid | iid in m :: m[iid] == rows[iid - first]
  {
    if rows == [] then map[]
    else Numbered(rows[..|rows| - 1], first)[first + |rows| - 1 := rows[|rows| - 1]]
  }

  /** The responses of rows numbered from `first`. */
  function NumberedResponses(rows: seq<ItemRow>, first: int): (r: seq<ItemResponse>)
    ensures |r| == |rows|
    ensures forall k | 0 <= k < |rows| :: r[k] == ItemRowResponse(first + k, rows[k])
  {
    if rows == [] then []
    else NumberedResponses(rows[..|rows| - 1], first) + [ItemRowResponse(first + |rows| - 1, rows[|rows| - 1])]
  }

  /** An order whose item rows are all new, numbered from `first` above
      every existing id, is answered with those rows' responses, in
      numbering order. */
  lemma NewRowsResponse(id: int, row: OrderRow, items: map<int, ItemRow>, rows: seq<ItemRow>, first: int,
                        all: map<int, ItemRow>, below: int)
    requires 1 <= first
    requires forall iid | iid in items :: iid < first && items[iid].orderId != id
    requires forall k | 0 <= k < |rows| :: rows[k].orderId == id
    requires all == items + Numbered(rows, first) && below == first + |rows|
    ensures RowResponse(id, row, all, below) == WithItems(id, row, NumberedResponses(rows, first))
  {
    var added := Numbered(rows, first);
    var s := ItemsOf(all, id);
    forall x | 1 <= x < below
      ensures x in s <==> first <= x
    {
      if first <= x {
        assert x in added && added[x] == rows[x - first];
      }
    }
    NumberedAbove(items, rows, first, all);
    RangeResponses(s, all, rows, first, below);
  }

  /** A set holding, below the counter, exactly the ids from `first` on,
      under which `rows` are stored, lists the numbered responses. */
  lemma RangeResponses(s: set<int>, items: map<int, ItemRow>, rows: seq<ItemRow>, first: int, below: int)
    requires 1 <= first && below == first + |rows|
    requires forall x | 1 <= x < below :: x in s <==> first <= x
    requires forall iid | first <= iid < below :: iid in items && items[iid] == rows[iid - first]
    ensures var ids := IdsBelow(s, below);
      (forall k | 0 <= k < |ids| :: ids[k] in items) && ItemRowResponses(ids, items) == NumberedResponses(rows, first)
  {
    IdsBelowRange(s, first, below);
    var ids := IdsBelow(s, below);
    forall k | 0 <= k < |ids|
      ensures ids[k] == first + k && ids[k] in items && items[ids[k]] == rows[k]
    {
      var iid := ids[k];
      assert iid == first + k && first <= iid < below;
      assert items[iid] == rows[iid - first];
    }
    ConsecutiveResponses(ids, items, rows, first);
  }

  /** Rows numbered above every existing id are found under their numbers. */
  lemma NumberedAbove(items: map<int, ItemRow>, rows: seq<ItemRow>, first: int, all: map<int, ItemRow>)
    requires forall iid | iid in items :: iid < first
    requires all == items + Numbered(rows, first)
    ensures forall iid | first <= iid < first + |rows| :: iid in all && all[iid] == rows[iid - first]
  {
  }

  /** Consecutive ids whose rows are `rows` give the numbered responses. */
  lemma ConsecutiveResponses(ids: seq<int>, items: map<int, ItemRow>, rows: seq<ItemRow>, first: int)
    requires |ids| == |rows|
    requires forall k | 0 <= k < |ids| :: ids[k] == first + k && ids[k] in items && items[ids[k]] == rows[k]
    ensures ItemRowResponses(ids, items) == NumberedResponses(rows, first)
  {
    var got, want := ItemRowResponses(ids, items), NumberedResponses(rows, first);
    assert forall k | 0 <= k < |rows| :: got[k] == want[k];
  }

  /** Rows of one order, numbered from the counter on, leave the response
      of every other order as it was. */
  lemma NewRowsFrame(id: int, row: OrderRow, items: map<int, ItemRow>, rows: seq<ItemRow>,
                     orderId: int, first: int, all: map<int, ItemRow>, below: int)
    requires forall iid | iid in items :: iid < first
    requires forall k | 0 <= k < |rows| :: rows[k].orderId == orderId
    requires id != orderId
    requires all == items + Numbered(rows, first) && below == first + |rows|
    ensures RowResponse(id, row, all, below) == RowResponse(id, row, items, first)
  {
    var added := Numbered(rows, first);
    var s := ItemsOf(all, id);
    forall x
      ensures x in s <==> x in ItemsOf(items, id)
    {
      if x in added {
        assert added[x] == rows[x - first];
      }
    }
    assert s == ItemsOf(items, id);
    IdsBelowBeyond(s, first, below);
    SameRowsResponses(IdsBelow(s, first), items, all);
  }

  /** Two tables that agree on the listed ids give the same responses. */
  lemma SameRowsResponses(ids: seq<int>, items: map<int, ItemRow>, all: map<int, ItemRow>)
    requires forall k | 0 <= k < |ids| :: ids[k] in items && ids[k] in all && all[ids[k]] == items[ids[k]]
    ensures ItemRowResponses(ids, all) == ItemRowResponses(ids, items)
  {
    var a, b := ItemRowResponses(ids, all), ItemRowResponses(ids, items);
    assert forall k | 0 <= k < |ids| :: a[k] == b[k];
  }

  // ---------------------------------------------------------------------
  // What `save` does to the entity objects themselves.
  // ---------------------------------------------------------------------

  /** The identity column at work on new items: consecutive ids from
      `first`, in list order. Items that carry the values of `rows` then
      map to the responses of those rows under their new ids. */
  method AssignIds(its: seq<Item>, rows: seq<ItemRow>, first: int)
    requires Distinct(its) && Carries(its, rows)
    modifies its`id
    ensures forall k | 0 <= k < |its| :: its[k].id == Some(first + k)
    ensures ItemResponses(its) == NumberedResponses(rows, first)
  {
    var k := 0;
    while k < |its|
      invariant 0 <= k <= |its|
      invariant forall j | 0 <= j < k :: its[j].id == Some(first + j)
    {
      its[k].id := Some(first + k);
      k := k + 1;
    }
  }

  /** A new order entity as `save` leaves it: `@PrePersist` has run, the
      order holds id `id`, and its items hold consecutive ids from `first`;
      its response is the stored response of those item rows. */
  method PersistNew(o: Order, id: int, rows: seq<ItemRow>, first: int, now: int)
    requires o.items.Some? && Priced(o.items.value) && Distinct(o.items.value) && Carries(o.items.value, rows)
    modifies o`id, o`createdAt, o`totalAmount, o.items.value`id
    ensures o.items == old(o.items) && o.id == Some(id)
    ensures RowOf(o) == old(RowOf(o)).(createdAt := if old(o.createdAt).None? then Some(now) else old(o.createdAt),
                                       totalAmount := Some(old(Sum(o.items.value))))
    ensures ToResponse(o) == WithItems(id, RowOf(o), NumberedResponses(rows, first))
  {
    var its := o.items.value;
    ghost var total, row0 := Sum(its), RowOf(o);
    o.OnCreate(now);
    o.id := Some(id);
    ghost var row := RowOf(o);
    assert row == row0.(createdAt := o.createdAt, totalAmount := Some(total));
    label numbered:
    AssignIds(its, rows, first);
    assert unchanged@numbered(o);
    assert RowOf(o) == row;
  }

  /** A loaded order entity as `save` (a merge) leaves it: its new items
      hold consecutive ids from `first`, nothing else changes, and its
      response is the stored response of those item rows under its own
      fields. */
  method PersistChanged(o: Order, rows: seq<ItemRow>, first: int)
    requires o.id.Some?
    requires o.items.Some? && Distinct(o.items.value) && Carries(o.items.value, rows)
    modifies o.items.value`id
    ensures ToResponse(o) == WithItems(o.id.value, RowOf(o), NumberedResponses(rows, first))
  {
    AssignIds(o.items.value, rows, first);
  }

  /** The response of an entity depends on the entity and its items only. */
  twostate lemma ResponseFrame(o: Order)
    requires unchanged(o) && (o.items.Some? ==> unchanged(o.items.value))
    ensures ToResponse(o) == old(ToResponse(o))
  {
  }

  // ---------------------------------------------------------------------
  // The store.
  // ---------------------------------------------------------------------

  class Database {
    var orders: map<int, OrderRow>
    var items: map<int, ItemRow>
    var nextOrderId: int
    var nextItemId: int

    constructor ()
      ensures Valid() && orders == map[] && items == map[]
    {
      orders := map[];
      items := map[];
      nextOrderId := 1;
      nextItemId := 1;
    }

    predicate Valid()
      reads this
    {
      WellFormed(orders, items, nextOrderId, nextItemId)
    }

    /** `existsByOrderNumber`. */
    predicate NumberTaken(n: Option<string>)
      reads this
    {
      exists id | id in orders :: orders[id].orderNumber == n
    }

    /** `toResponse` of the order `findById(id)` loads. */
    function Response(id: int): OrderResponse
      reads this
      requires id in orders
    {
      RowResponse(id, orders[id], items, nextItemId)
    }

    /** The responses of the given orders, in the given order. */
    function Responses(ids: seq<int>): (r: seq<OrderResponse>)
      reads this
      requires forall k | 0 <= k < |ids| :: ids[k] in orders
      ensures |r| == |ids|
      ensures forall k | 0 <= k < |ids| :: r[k] == Response(ids[k])
    {
      if ids == [] then [] else Responses(ids[..|ids| - 1]) + [Response(ids[|ids| - 1])]
    }

    /** `toResponse` over `findAll()`: every stored order once, by ascending id. */
    function AllIds(): (ids: seq<int>)
      reads this
      ensures forall k | 0 <= k < |ids| :: ids[k] in orders
    {
      IdsBelow(orders.Keys, nextOrderId)
    }

    /** `findById`: a fresh entity carrying the stored fields, and one fresh
        item per item row of the order, linked back to it; mapping it to a
        response gives the stored order's response. */
    method LoadOrder(id: int) returns (o: Order)
      requires Valid() && id in orders
      ensures fresh(o) && o.id == Some(id) && RowOf(o) == orders[id]
      ensures o.items.Some? && LinkedTo(o.items.value, o)
      ensures ToResponse(o) == Response(id)
    {
      var row := orders[id];
      o := new Order.Restore(id, row.orderNumber, row.customerName, row.createdAt, row.totalAmount,
        row.status, row.paymentStatus, row.shippingAddress, row.billingAddress, row.trackingNumber);
      var ids := IdsBelow(ItemsOf(items, id), nextItemId);
      var k := 0;
      while k < |ids|
        invariant 0 <= k <= |ids|
        invariant o.id == Some(id) && RowOf(o) == row
        invariant o.items.Some? && |o.items.value| == k && LinkedTo(o.items.value, o)
        invariant forall j | 0 <= j < k ::
          ItemToResponse(o.items.value[j]) == ItemRowResponse(ids[j], items[ids[j]])
      {
        var r := items[ids[k]];
        var item := new Item.Build(Some(ids[k]), r.sku, r.name, r.quantity, r.unitPrice, r.imageUrl, r.weight, o);
        o.AddItem(item);
        k := k + 1;
      }
      assert ItemResponses(o.items.value) == ItemRowResponses(ids, items);
    }

    /** Writes a new order row under the next order id, with its item rows
        under the next item ids. */
    method AddRows(row: OrderRow, rows: seq<ItemRow>) returns (id: int)
      requires Valid()
      requires row.orderNumber.Some? && row.customerName.Some? && row.createdAt.Some?
      requires !NumberTaken(row.orderNumber)
      requires forall k | 0 <= k < |rows| :: rows[k].orderId == nextOrderId
      modifies this
      ensures Valid()
      ensures id == old(nextOrderId) && nextOrderId == id + 1 && nextItemId == old(nextItemId) + |rows|
      ensures orders == old(orders)[id := row] && items == old(items) + Numbered(rows, old(nextItemId))
      ensures id in orders && Response(id) == WithItems(id, row, NumberedResponses(rows, old(nextItemId)))
    {
      id := nextOrderId;
      var first := nextItemId;
      StoreKeepsWellFormed(orders, items, id + 1, first, id, row, rows);
      ghost var before := items;
      orders, items, nextOrderId, nextItemId := orders[id := row], items + Numbered(rows, first), id + 1, first + |rows|;
      NewRowsResponse(id, row, before, rows, first, items, nextItemId);
    }

    /** Rewrites order `id` as `row`, replacing all its item rows by `rows`
        under the next item ids. */
    method PutRows(id: int, row: OrderRow, rows: seq<ItemRow>)
      requires Valid() && id in orders
      requires row.orderNumber.Some? && row.customerName.Some? && row.createdAt.Some?
      requires row.orderNumber == orders[id].orderNumber || !NumberTaken(row.orderNumber)
      requires forall k | 0 <= k < |rows| :: rows[k].orderId == id
      modifies this`orders, this`items, this`nextItemId
      ensures Valid()
      ensures nextItemId == old(nextItemId) + |rows|
      ensures orders == old(orders)[id := row] && items == Without(old(items), id) + Numbered(rows, old(nextItemId))
      ensures Response(id) == WithItems(id, row, NumberedResponses(rows, old(nextItemId)))
    {
      var first, kept := nextItemId, Without(items, id);
      StoreKeepsWellFormed(orders, kept, nextOrderId, first, id, row, rows);
      orders, items, nextItemId := orders[id := row], kept + Numbered(rows, first), first + |rows|;
      NewRowsResponse(id, row, kept, rows, first, items, nextItemId);
    }

    /** `save` of a new order: `@PrePersist` runs, the order gets the next
        id, every item of its list gets the next item id and is written under
        the order (the cascade). The response of the stored order is the
        response of the saved entity. */
    method InsertOrder(o: Order, now: int)
      requires Valid()
      requires o.items.Some? && Priced(o.items.value) && Distinct(o.items.value)
      requires o.orderNumber.Some? && o.customerName.Some? && !NumberTaken(o.orderNumber)
      modifies this, o`id, o`createdAt, o`totalAmount, o.items.value`id
      ensures Valid()
      ensures o.id == Some(old(nextOrderId)) && nextOrderId == old(nextOrderId) + 1
      ensures nextItemId == old(nextItemId) + |o.items.value|
      ensures RowOf(o) == old(RowOf(o)).(createdAt := if old(o.createdAt).None? then Some(now) else old(o.createdAt),
                                         totalAmount := Some(old(Sum(o.items.value))))
      ensures orders == old(orders)[old(nextOrderId) := RowOf(o)]
      ensures items == old(items) + Numbered(old(RowsOf(o.items.value, nextOrderId)), old(nextItemId))
      ensures old(nextOrderId) in orders && Response(old(nextOrderId)) == ToResponse(o)
    {
      var rows := RowsOf(o.items.value, nextOrderId);
      PersistNew(o, nextOrderId, rows, nextItemId, now);
      assert unchanged(this);
      label saved:
      var row := RowOf(o);
      var id := AddRows(row, rows);
      assert RowOf(o) == row;
      ResponseFrame@saved(o);
    }

    /** `deleteById` on an order: its row goes, and with it (the cascade)
        the rows of its items. */
    method DeleteOrder(id: int)
      requires Valid() && id in orders
      modifies this`orders, this`items
      ensures Valid()
      ensures orders == old(orders) - {id} && items == Without(old(items), id)
    {
      orders := orders - {id};
      items := Without(items, id);
    }

    /** `itemRepository.findById`: a fresh entity carrying the stored item's
        values and id, pointing at its loaded order. */
    method LoadItem(iid: int) returns (item: Item)
      requires Valid() && iid in items
      ensures fresh(item) && item.id == Some(iid) && item.order != null && item.order.id == Some(items[iid].orderId)
      ensures ItemRowOf(item, items[iid].orderId) == items[iid]
    {
      var row := items[iid];
      var owner := LoadOrder(row.orderId);
      item := new Item.Build(Some(iid), row.sku, row.name, row.quantity, row.unitPrice, row.imageUrl, row.weight, owner);
    }

    /** `save` of a new item of an existing order. */
    method InsertItem(row: ItemRow) returns (iid: int)
      requires Valid() && row.orderId in orders
      modifies this`items, this`nextItemId
      ensures Valid()
      ensures iid == old(nextItemId) && nextItemId == iid + 1
      ensures items == old(items)[iid := row]
    {
      iid := nextItemId;
      items := items[iid := row];
      nextItemId := iid + 1;
    }

    /** `save` of a changed item that stays with its order. */
    method SaveItem(iid: int, row: ItemRow)
      requires Valid() && iid in items && row.orderId == items[iid].orderId
      modifies this`items
      ensures Valid()
      ensures items == old(items)[iid := row]
    {
      items := items[iid := row];
    }

    /** `deleteById` on an item. */
    method DeleteItem(iid: int)
      requires Valid() && iid in items
      modifies this`items
      ensures Valid()
      ensures items == old(items) - {iid}
    {
      items := items - {iid};
    }
  }
}
