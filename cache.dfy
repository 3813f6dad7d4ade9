/** The two cache namespaces of the order service (`@EnableCaching` with
    Spring's default in-process cache manager): "order", keyed by order id,
    and "orders", whose only key is the empty key of the argument-less
    `findAll`. Entries live until they are evicted. */
module Caching {
  import opened Common
  import opened Dto
  import opened Persistence

  class CacheManager {
    var order: map<int, OrderResponse>
    var orders: Option<seq<OrderResponse>>

    constructor ()
      ensures order == map[] && orders == None
    {
      order := map[];
      orders := None;
    }

    /** `@Cacheable("order")` storing a computed result. */
    method PutOrder(id: int, r: OrderResponse)
      modifies this`order
      ensures order == old(order)[id := r]
    {
      order := order[id := r];
    }

    /** `@Cacheable("orders")` storing a computed result. */
    method PutOrders(rs: seq<OrderResponse>)
      modifies this`orders
      ensures orders == Some(rs)
    {
      orders := Some(rs);
    }

    /** `@CacheEvict("orders", allEntries = true)`. */
    method EvictOrders()
      modifies this`orders
      ensures orders == None && order == old(order)
    {
      orders := None;
    }

    /** `@CacheEvict({"order", "orders"}, allEntries = true)`: with
        `allEntries` the key is not consulted, so both namespaces empty. */
    method EvictAll()
      modifies this
      ensures order == map[] && orders == None
    {
      order := map[];
      orders := None;
    }
  }

  /** No cached entry is stale: every cached order is stored and answers what
      loading it now would answer, and a cached list is the list of all
      stored orders as it would be read now. */
  predicate Coherent(db: Database, cache: CacheManager)
    reads db, cache
  {
    && AgreesWith(cache.order, db.orders, db.items, db.nextItemId)
    && (cache.orders.Some? ==> cache.orders.value == db.Responses(db.AllIds()))
  }

  /** Every cached single order is stored and is what its stored rows
      answer. */
  predicate AgreesWith(cached: map<int, OrderResponse>, orders: map<int, OrderRow>,
                       items: map<int, ItemRow>, nextItemId: int)
  {
    forall id | id in cached :: id in orders && cached[id] == RowResponse(id, orders[id], items, nextItemId)
  }

  /** A write that leaves the answer of every stored order as it was keeps
      every cached single order correct. */
  lemma KeepsAgreement(cached: map<int, OrderResponse>, orders: map<int, OrderRow>, items: map<int, ItemRow>,
                       first: int, orders': map<int, OrderRow>, all: map<int, ItemRow>, below: int)
    requires AgreesWith(cached, orders, items, first)
    requires forall id | id in orders ::
      id in orders' && RowResponse(id, orders'[id], all, below) == RowResponse(id, orders[id], items, first)
    ensures AgreesWith(cached, orders', all, below)
  {
  }
}
