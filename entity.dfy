/** The order aggregate of entity/Order.java: an `Order` owns a list of
    `Item`s, each item points back at its order, and the order's
    `totalAmount` is the sum of unit price times quantity over its items.
    Both are objects whose fields the source updates in place. Money and the
    other `BigDecimal` values are integers in minor units; times are integers
    supplied by the caller. */
module Entity {
  import opened Common

  /** Only the default constant of each enum is known: OrderStatus.java and
      PaymentStatus.java are not part of this model. */
  datatype OrderStatus = Pending | OtherStatus(name: string)
  datatype PaymentStatus = Unpaid | OtherPaymentStatus(name: string)

  /** entity/Item.java is not part of this model; its fields are the ones the
      services and the mapper read and write. Two items are equal only when
      they are the same object. */
  class Item {
    var id: Option<int>
    var sku: Option<string>
    var name: Option<string>
    var quantity: Option<int>
    var unitPrice: Option<int>
    var imageUrl: Option<string>
    var weight: Option<int>
    var order: Order?

    /** `Item.builder()...build()`: every field as given. */
    constructor Build(id: Option<int>, sku: Option<string>, name: Option<string>,
                      quantity: Option<int>, unitPrice: Option<int>,
                      imageUrl: Option<string>, weight: Option<int>, order: Order?)
      ensures this.id == id && this.sku == sku && this.name == name
      ensures this.quantity == quantity && this.unitPrice == unitPrice
      ensures this.imageUrl == imageUrl && this.weight == weight && this.order == order
    {
      this.id := id;
      this.sku := sku;
      this.name := name;
      this.quantity := quantity;
      this.unitPrice := unitPrice;
      this.imageUrl := imageUrl;
      this.weight := weight;
      this.order := order;
    }
  }

  class Order {
    var id: Option<int>
    var orderNumber: Option<string>
    var customerName: Option<string>
    var createdAt: Option<int>
    var totalAmount: Option<int>
    var status: OrderStatus
    var paymentStatus: PaymentStatus
    var shippingAddress: Option<string>
    var billingAddress: Option<string>
    var trackingNumber: Option<string>
    var items: Option<seq<Item>>

    /** `Order.builder()` given the four fields the services set: the
        `@Builder.Default` fields get PENDING, UNPAID and an empty item list,
        and every other field stays null. */
    constructor Build(orderNumber: Option<string>, customerName: Option<string>,
                      shippingAddress: Option<string>, billingAddress: Option<string>)
      ensures this.orderNumber == orderNumber && this.customerName == customerName
      ensures this.shippingAddress == shippingAddress && this.billingAddress == billingAddress
      ensures id == None && createdAt == None && totalAmount == None && trackingNumber == None
      ensures status == Pending && paymentStatus == Unpaid && items == Some([])
    {
      this.id := None;
      this.orderNumber := orderNumber;
      this.customerName := customerName;
      this.createdAt := None;
      this.totalAmount := None;
      this.status := Pending;
      this.paymentStatus := Unpaid;
      this.shippingAddress := shippingAddress;
      this.billingAddress := billingAddress;
      this.trackingNumber := None;
      this.items := Some([]);
    }

    /** The all-arguments constructor, as the persistence layer rebuilds a
        stored order (with an empty item list that it then fills). */
    constructor Restore(id: int, orderNumber: Option<string>, customerName: Option<string>,
                        createdAt: Option<int>, totalAmount: Option<int>,
                        status: OrderStatus, paymentStatus: PaymentStatus,
                        shippingAddress: Option<string>, billingAddress: Option<string>,
                        trackingNumber: Option<string>)
      ensures this.id == Some(id) && this.orderNumber == orderNumber
      ensures this.customerName == customerName && this.createdAt == createdAt
      ensures this.totalAmount == totalAmount && this.status == status
      ensures this.paymentStatus == paymentStatus && this.shippingAddress == shippingAddress
      ensures this.billingAddress == billingAddress && this.trackingNumber == trackingNumber
      ensures items == Some([])
    {
      this.id := Some(id);
      this.orderNumber := orderNumber;
      this.customerName := customerName;
      this.createdAt := createdAt;
      this.totalAmount := totalAmount;
      this.status := status;
      this.paymentStatus := paymentStatus;
      this.shippingAddress := shippingAddress;
      this.billingAddress := billingAddress;
      this.trackingNumber := trackingNumber;
      this.items := Some([]);
    }

    /** `calculateTotalAmount`: with a list, the total becomes the sum of the
        line amounts (0 for an empty list); without one, it is left as it was. */
    method CalculateTotalAmount()
      requires items.Some? ==> Priced(items.value)
      modifies this`totalAmount
      ensures totalAmount == if items.Some? then Some(Sum(items.value)) else old(totalAmount)
    {
      if items.Some? {
        totalAmount := Some(Sum(items.value));
      }
    }

    /** `@PrePersist onCreate`: a creation time already set is kept, a missing
        one becomes `now`; then the total is recomputed. */
    method OnCreate(now: int)
      requires items.Some? ==> Priced(items.value)
      modifies this`createdAt, this`totalAmount
      ensures createdAt == if old(createdAt).None? then Some(now) else old(createdAt)
      ensures totalAmount == if items.Some? then Some(Sum(items.value)) else old(totalAmount)
    {
      if createdAt.None? {
        createdAt := Some(now);
      }
      CalculateTotalAmount();
    }

    /** `@PreUpdate onUpdate`: only the total is recomputed. */
    method OnUpdate()
      requires items.Some? ==> Priced(items.value)
      modifies this`totalAmount
      ensures totalAmount == if items.Some? then Some(Sum(items.value)) else old(totalAmount)
    {
      CalculateTotalAmount();
    }

    /** `addItem`: the item goes at the end of the list and points back at
        this order; the items before it are untouched, and a list whose items
        all pointed here still does. */
    method AddItem(item: Item)
      requires items.Some?
      modifies this`items, item`order
      ensures items == Some(old(items.value) + [item])
      ensures item.order == this
      ensures old(LinkedTo(items.value, this)) ==> LinkedTo(items.value, this)
    {
      items := Some(items.value + [item]);
      item.order := this;
    }

    /** `removeItem`: the first occurrence of the item leaves the list, the
        others keep their order, and the item no longer points at any order,
        whether or not it was in the list. */
    method RemoveItem(item: Item)
      requires items.Some?
      modifies this`items, item`order
      ensures items == Some(RemoveFirst(old(items.value), item))
      ensures item.order == null
      ensures old(LinkedTo(items.value, this)) && item !in items.value ==> LinkedTo(items.value, this)
    {
      RemoveFirstShape(items.value, item);
      items := Some(RemoveFirst(items.value, item));
      item.order := null;
    }
  }

  // ---------------------------------------------------------------------
  // The total: the stream map/reduce of `calculateTotalAmount`.
  // ---------------------------------------------------------------------

  /** Every item has the quantity and unit price the total multiplies (a
      missing one makes the source's stream throw). */
  predicate Priced(items: seq<Item>)
    reads items`quantity, items`unitPrice
  {
    forall k | 0 <= k < |items| :: items[k].quantity.Some? && items[k].unitPrice.Some?
  }

  function LineAmount(item: Item): int
    reads item`quantity, item`unitPrice
    requires item.quantity.Some? && item.unitPrice.Some?
  {
    item.unitPrice.value * item.quantity.value
  }

  /** `BigDecimal.ZERO` plus every line amount, left to right. */
  function Sum(items: seq<Item>): int
    reads items`quantity, items`unitPrice
    requires Priced(items)
  {
    if items == [] then 0 else Sum(items[..|items| - 1]) + LineAmount(items[|items| - 1])
  }

  /** The total of two lists one after the other is the sum of their totals. */
  lemma {:induction false} SumAppend(a: seq<Item>, b: seq<Item>)
    requires Priced(a) && Priced(b)
    ensures Priced(a + b) && Sum(a + b) == Sum(a) + Sum(b)
  {
    if b == [] {
      assert a + b == a;
    } else {
      var c := b[..|b| - 1];
      assert (a + b)[..|a + b| - 1] == a + c;
      SumAppend(a, c);
    }
  }

  /** Items whose quantities are at least 1 and whose prices are positive
      (what the request constraints admit) give a positive total as soon as
      there is one of them. */
  lemma {:induction false} SumPositive(items: seq<Item>)
    requires Priced(items)
    requires forall k | 0 <= k < |items| :: items[k].quantity.value >= 1 && items[k].unitPrice.value > 0
    ensures Sum(items) >= 0
    ensures items != [] ==> Sum(items) > 0
  {
    if items != [] {
      var last := items[|items| - 1];
      assert last.unitPrice.value * last.quantity.value >= last.unitPrice.value;
      SumPositive(items[..|items| - 1]);
    }
  }

  // ---------------------------------------------------------------------
  // The back-references and the list operations behind add/remove.
  // ---------------------------------------------------------------------

  /** Every item of the list points back at the order. */
  predicate LinkedTo(items: seq<Item>, o: Order)
    reads items`order
  {
    forall k | 0 <= k < |items| :: items[k].order == o
  }

  /** No object occurs twice in the list. */
  predicate Distinct<T(==)>(s: seq<T>) {
    forall j, k | 0 <= j < k < |s| :: s[j] != s[k]
  }

  /** The position of the first occurrence. */
  function IndexOf<T(==)>(s: seq<T>, x: T): (k: nat)
    requires x in s
    ensures k < |s| && s[k] == x && x !in s[..k]
  {
    if s[0] == x then 0 else 1 + IndexOf(s[1..], x)
  }

  /** `List.remove(Object)`: drop the first element equal to `x`, if any. */
  function RemoveFirst<T(==)>(s: seq<T>, x: T): seq<T> {
    if s == [] then []
    else if s[0] == x then s[1..]
    else [s[0]] + RemoveFirst(s[1..], x)
  }

  /** Removing leaves the list alone when the element is absent, and
      otherwise cuts out exactly the first occurrence. */
  lemma {:induction false} RemoveFirstShape<T>(s: seq<T>, x: T)
    ensures x !in s ==> RemoveFirst(s, x) == s
    ensures x in s ==> RemoveFirst(s, x) == s[..IndexOf(s, x)] + s[IndexOf(s, x) + 1..]
  {
    if s != [] && s[0] != x {
      RemoveFirstShape(s[1..], x);
      if x in s {
        assert x in s[1..];
        var k := IndexOf(s[1..], x);
        assert s[..k + 1] == [s[0]] + s[1..][..k];
        assert s[k + 2..] == s[1..][k + 1..];
      } else {
        assert s == [s[0]] + s[1..];
      }
    }
  }

  /** Removal takes away one copy of the element and nothing else. */
  lemma RemoveFirstCount<T>(s: seq<T>, x: T)
    ensures x in s ==> multiset(RemoveFirst(s, x)) == multiset(s) - multiset{x}
    ensures x in s ==> |RemoveFirst(s, x)| == |s| - 1
  {
    RemoveFirstShape(s, x);
    if x in s {
      var k := IndexOf(s, x);
      assert s == s[..k] + [x] + s[k + 1..];
      calc {
        multiset(s);
        multiset(s[..k] + [x] + s[k + 1..]);
        multiset(s[..k]) + multiset{x} + multiset(s[k + 1..]);
      }
    }
  }
}
