/** The request and response shapes of dto/, and the bean-validation
    constraints declared on the two request classes. A request is valid when
    it breaks no constraint; `ItemViolations`/`OrderViolations` list the
    broken ones, each with its fixed message, in declaration order, with the
    field path Spring reports ("sku", "items[0].sku"). */
module Dto {
  import opened Common
  import opened Entity

  datatype ItemRequest = ItemRequest(
    sku: Option<string>,
    name: Option<string>,
    quantity: Option<int>,
    unitPrice: Option<int>,
    imageUrl: Option<string>,
    weight: Option<int>)

  datatype OrderRequest = OrderRequest(
    orderNumber: Option<string>,
    customerName: Option<string>,
    shippingAddress: Option<string>,
    billingAddress: Option<string>,
    items: Option<seq<ItemRequest>>)

  /** `weight` is carried as the stored decimal; its conversion to `Double`
      is not modelled. */
  datatype ItemResponse = ItemResponse(
    id: Option<int>,
    sku: Option<string>,
    name: Option<string>,
    quantity: Option<int>,
    unitPrice: Option<int>,
    imageUrl: Option<string>,
    weight: Option<int>)

  datatype OrderResponse = OrderResponse(
    id: Option<int>,
    orderNumber: Option<string>,
    customerName: Option<string>,
    createdAt: Option<int>,
    totalAmount: Option<int>,
    status: OrderStatus,
    paymentStatus: PaymentStatus,
    shippingAddress: Option<string>,
    billingAddress: Option<string>,
    trackingNumber: Option<string>,
    items: Option<seq<ItemResponse>>)

  // ---------------------------------------------------------------------
  // ItemRequest: @NotBlank sku, @NotBlank name, @NotNull @Min(1) quantity,
  // @NotNull @Positive unitPrice; imageUrl and weight are unconstrained.
  // ---------------------------------------------------------------------

  predicate ValidItemRequest(r: ItemRequest) {
    && NotBlank(r.sku)
    && NotBlank(r.name)
    && r.quantity.Some? && r.quantity.value >= 1
    && r.unitPrice.Some? && r.unitPrice.value > 0
  }

  /** The broken constraints of one item; `prefix` is "" for a top-level item
      and "items[k]." for the k-th item of an order. `@Min` and `@Positive`
      accept a missing value, which only `@NotNull` reports. */
  function ItemViolations(r: ItemRequest, prefix: string): (v: seq<FieldError>)
    ensures v == [] <==> ValidItemRequest(r)
    ensures !NotBlank(r.sku) ==> FieldError(prefix + "sku", "SKU is required") in v
    ensures !NotBlank(r.name) ==> FieldError(prefix + "name", "Item name is required") in v
    ensures r.quantity.None? ==> FieldError(prefix + "quantity", "Quantity is required") in v
    ensures r.quantity.Some? && r.quantity.value < 1 ==>
      FieldError(prefix + "quantity", "Quantity must be at least 1") in v
    ensures r.unitPrice.None? ==> FieldError(prefix + "unitPrice", "Unit price is required") in v
    ensures r.unitPrice.Some? && r.unitPrice.value <= 0 ==>
      FieldError(prefix + "unitPrice", "Unit price must be positive") in v
    ensures |v| <= 4 && forall e | e in v :: |e.message| > 0
  {
    BlankErrors(r.sku, prefix + "sku", "SKU is required")
    + BlankErrors(r.name, prefix + "name", "Item name is required")
    + QuantityErrors(r.quantity, prefix + "quantity")
    + PriceErrors(r.unitPrice, prefix + "unitPrice")
  }

  /** `@NotBlank` on one field: its message under its path, when blank. */
  function BlankErrors(s: Option<string>, field: string, message: string): (v: seq<FieldError>)
    ensures |v| <= 1 && forall e | e in v :: e.field == field
  {
    if NotBlank(s) then [] else [FieldError(field, message)]
  }

  /** `@NotNull` and `@Min(1)` on the quantity: one of them at most fails. */
  function QuantityErrors(q: Option<int>, field: string): (v: seq<FieldError>)
    ensures |v| <= 1 && forall e | e in v :: e.field == field
  {
    if q.None? then [FieldError(field, "Quantity is required")]
    else if q.value < 1 then [FieldError(field, "Quantity must be at least 1")]
    else []
  }

  /** `@NotNull` and `@Positive` on the unit price: one of them at most fails. */
  function PriceErrors(p: Option<int>, field: string): (v: seq<FieldError>)
    ensures |v| <= 1 && forall e | e in v :: e.field == field
  {
    if p.None? then [FieldError(field, "Unit price is required")]
    else if p.value <= 0 then [FieldError(field, "Unit price must be positive")]
    else []
  }

  // ---------------------------------------------------------------------
  // OrderRequest: @NotBlank orderNumber, @NotBlank customerName,
  // @NotEmpty @Valid items; the two addresses are unconstrained.
  // ---------------------------------------------------------------------

  predicate ValidOrderRequest(r: OrderRequest) {
    && NotBlank(r.orderNumber)
    && NotBlank(r.customerName)
    && r.items.Some? && |r.items.value| > 0
    && forall k | 0 <= k < |r.items.value| :: ValidItemRequest(r.items.value[k])
  }

  function ItemPath(k: int): string {
    "items[" + LongToString(k) + "]."
  }

  /** `@Valid` cascading into the list: the broken constraints of
      `items[from..]`, each under its own element path. */
  function NestedViolations(items: seq<ItemRequest>, from: nat): (v: seq<FieldError>)
    ensures v == [] <==> forall k | 0 <= k < |items| :: ValidItemRequest(items[k])
    decreases |items|
  {
    if items == [] then []
    else ItemViolations(items[0], ItemPath(from)) + NestedViolations(items[1..], from + 1)
  }

  /** The broken constraints of the request's own fields. */
  function TopViolations(r: OrderRequest): (v: seq<FieldError>)
    ensures DistinctFields(v)
    ensures forall e | e in v :: e.field in {"orderNumber", "customerName", "items"}
  {
    (if NotBlank(r.orderNumber) then [] else [FieldError("orderNumber", "Order number is required")])
    + (if NotBlank(r.customerName) then [] else [FieldError("customerName", "Customer name is required")])
    + (if r.items.Some? && |r.items.value| > 0 then []
       else [FieldError("items", "Order must have at least one item")])
  }

  /** The order's own constraints first, then `@Valid` on the list. */
  function OrderViolations(r: OrderRequest): (v: seq<FieldError>)
    ensures v == [] <==> ValidOrderRequest(r)
  {
    TopViolations(r) + (if r.items.Some? then NestedViolations(r.items.value, 0) else [])
  }

  /** A request that passes its constraints can be stored: every item has
      a price and a quantity, and number and customer name are present. */
  lemma ValidOrderRequestStorable(r: OrderRequest)
    requires ValidOrderRequest(r)
    ensures r.items.Some? && PricedRequests(r.items.value) && RequestTotal(r.items.value) > 0
    ensures r.orderNumber.Some? && r.customerName.Some?
  {
    ValidRequestTotalPositive(r.items.value);
  }

  /** An order with an empty number, an empty customer name and no items is
      rejected on exactly those three fields. */
  lemma EmptyOrderRequestRejected(shipping: Option<string>, billing: Option<string>)
    ensures OrderViolations(OrderRequest(Some(""), Some(""), shipping, billing, Some([]))) ==
      [ FieldError("orderNumber", "Order number is required"),
        FieldError("customerName", "Customer name is required"),
        FieldError("items", "Order must have at least one item") ]
  {
  }

  /** The addresses never decide validity. */
  lemma AddressesIrrelevant(r: OrderRequest, shipping: Option<string>, billing: Option<string>)
    ensures ValidOrderRequest(r) <==> ValidOrderRequest(r.(shippingAddress := shipping, billingAddress := billing))
  {
  }

  /** Image URL and weight never decide validity. */
  lemma ItemExtrasIrrelevant(r: ItemRequest, imageUrl: Option<string>, weight: Option<int>)
    ensures ValidItemRequest(r) <==> ValidItemRequest(r.(imageUrl := imageUrl, weight := weight))
  {
  }

  // ---------------------------------------------------------------------
  // Every broken constraint is reported under a field path of its own, so
  // a map from field to message loses none of them.
  // ---------------------------------------------------------------------

  /** No two errors of the list name the same field. */
  predicate DistinctFields(v: seq<FieldError>) {
    forall j, k | 0 <= j < k < |v| :: v[j].field != v[k].field
  }

  /** The paths an item's constraints are reported under. */
  function ItemFields(prefix: string): set<string> {
    {prefix + "sku", prefix + "name", prefix + "quantity", prefix + "unitPrice"}
  }

  /** The four paths of one item differ (they have four lengths), and the
      item's errors are reported under them, at most once each. */
  lemma ItemViolationsApart(r: ItemRequest, prefix: string)
    ensures DistinctFields(ItemViolations(r, prefix))
    ensures forall e | e in ItemViolations(r, prefix) :: e.field in ItemFields(prefix)
  {
    var a := BlankErrors(r.sku, prefix + "sku", "SKU is required");
    var b := BlankErrors(r.name, prefix + "name", "Item name is required");
    var c := QuantityErrors(r.quantity, prefix + "quantity");
    var d := PriceErrors(r.unitPrice, prefix + "unitPrice");
    assert ItemViolations(r, prefix) == a + b + c + d;
    DistinctAppend(a, b);
    DistinctAppend(a + b, c);
    DistinctAppend(a + b + c, d);
  }

  /** Errors of two items are apart: the element numbers differ within the
      brackets, whatever follows them. */
  lemma PathsApart(i: nat, j: nat, a: string, b: string)
    requires i != j
    ensures ItemPath(i) + a != ItemPath(j) + b
  {
    var s, t := DigitsOf(i), DigitsOf(j);
    var x, y := ItemPath(i) + a, ItemPath(j) + b;
    assert x == "items[" + s + "]." + a;
    assert y == "items[" + t + "]." + b;
    if |s| < |t| {
      assert x[6 + |s|] == ']' && y[6 + |s|] == t[|s|];
    } else if |t| < |s| {
      assert y[6 + |t|] == ']' && x[6 + |t|] == s[|t|];
    } else {
      DigitsApart(i, j);
      var d :| 0 <= d < |s| && s[d] != t[d];
      assert x[6 + d] == s[d] && y[6 + d] == t[d];
    }
  }

  /** The paths of two different items share nothing. */
  lemma ItemFieldsApart(i: nat, j: nat, f: string, g: string)
    requires i != j && f in ItemFields(ItemPath(i)) && g in ItemFields(ItemPath(j))
    ensures f != g
  {
    var n, m := |ItemPath(i)|, |ItemPath(j)|;
    assert f == ItemPath(i) + f[n..];
    assert g == ItemPath(j) + g[m..];
    PathsApart(i, j, f[n..], g[m..]);
  }

  /** Two lists with distinct fields and no field in common make one. */
  lemma DistinctAppend(a: seq<FieldError>, b: seq<FieldError>)
    requires DistinctFields(a) && DistinctFields(b)
    requires forall x, y | x in a && y in b :: x.field != y.field
    ensures DistinctFields(a + b)
  {
    var v := a + b;
    forall j, k | 0 <= j < k < |v|
      ensures v[j].field != v[k].field
    {
      if k < |a| {
        assert v[j] == a[j] && v[k] == a[k];
      } else if j >= |a| {
        assert v[j] == b[j - |a|] && v[k] == b[k - |a|];
      } else {
        assert v[j] in a && v[k] in b;
      }
    }
  }

  /** The errors of `items[from..]` come under distinct paths, each the
      path of one of those elements. */
  lemma {:induction false} NestedViolationsApart(items: seq<ItemRequest>, from: nat)
    ensures DistinctFields(NestedViolations(items, from))
    ensures forall e | e in NestedViolations(items, from) ::
      exists k: nat | from <= k < from + |items| :: e.field in ItemFields(ItemPath(k))
    decreases |items|
  {
    if items != [] {
      var a, b := ItemViolations(items[0], ItemPath(from)), NestedViolations(items[1..], from + 1);
      ItemViolationsApart(items[0], ItemPath(from));
      NestedViolationsApart(items[1..], from + 1);
      forall x, y | x in a && y in b
        ensures x.field != y.field
      {
        var k: nat :| from + 1 <= k < from + |items| && y.field in ItemFields(ItemPath(k));
        ItemFieldsApart(from, k, x.field, y.field);
      }
      DistinctAppend(a, b);
    }
  }

  /** An item path starts like "items[" and is longer than "items". */
  lemma ItemFieldShape(k: nat, f: string)
    requires f in ItemFields(ItemPath(k))
    ensures |f| > 5 && f[0] == 'i'
  {
    assert f[..|ItemPath(k)|] == ItemPath(k);
    assert ItemPath(k)[0] == 'i';
  }

  /** Every broken constraint of an order request is reported under a
      field path no other one uses. */
  lemma OrderViolationsApart(r: OrderRequest)
    ensures DistinctFields(OrderViolations(r))
  {
    var top := TopViolations(r);
    var nested := if r.items.Some? then NestedViolations(r.items.value, 0) else [];
    if r.items.Some? {
      NestedViolationsApart(r.items.value, 0);
      forall x, y | x in top && y in nested
        ensures x.field != y.field
      {
        var k: nat :| 0 <= k < |r.items.value| && y.field in ItemFields(ItemPath(k));
        ItemFieldShape(k, y.field);
      }
    }
    DistinctAppend(top, nested);
  }

  // ---------------------------------------------------------------------
  // The total a list of requested items adds up to.
  // ---------------------------------------------------------------------

  predicate PricedRequests(items: seq<ItemRequest>) {
    forall k | 0 <= k < |items| :: items[k].quantity.Some? && items[k].unitPrice.Some?
  }

  function RequestTotal(items: seq<ItemRequest>): int
    requires PricedRequests(items)
  {
    if items == [] then 0
    else
      var last := items[|items| - 1];
      RequestTotal(items[..|items| - 1]) + last.unitPrice.value * last.quantity.value
  }

  /** A valid order request has priced items, and its total is positive. */
  lemma {:induction false} ValidRequestTotalPositive(items: seq<ItemRequest>)
    requires forall k | 0 <= k < |items| :: ValidItemRequest(items[k])
    ensures PricedRequests(items)
    ensures items != [] ==> RequestTotal(items) > 0
  {
    if items != [] {
      var last := items[|items| - 1];
      assert last.unitPrice.value * last.quantity.value >= last.unitPrice.value;
      ValidRequestTotalPositive(items[..|items| - 1]);
    }
  }
}
