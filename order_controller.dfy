/** controller/OrderController.java: the order endpoints under /api/orders.
    Each builds its HTTP answer from the service's result; a request body is
    checked against its constraints (`@Valid`) before the service is called,
    and any exception is answered by the exception handler. */
module OrderEndpoints {
  import opened Common
  import opened Dto
  import opened Persistence
  import opened Caching
  import opened OrderServices
  import opened ExceptionHandling

  // ---------------------------------------------------------------------
  // The paging request of `getAllOrders`.
  // ---------------------------------------------------------------------

  datatype Direction = Ascending | Descending

  datatype PageSpec = PageSpec(page: int, size: int, sortBy: string, direction: Direction)

  const DefaultPage: int := 0
  const DefaultSize: int := 10
  const DefaultSortBy: string := "createdAt"
  const DefaultSortDir: string := "desc"

  /** `@RequestParam(defaultValue = ...)` on a number: an absent parameter
      takes its default. An empty one does too; it arrives here as absent. */
  function OrDefault<T>(v: Option<T>, default: T): T {
    if v.Some? then v.value else default
  }

  /** `@RequestParam(defaultValue = ...)` on a text: an absent parameter and
      an empty one both take the default. */
  function TextOrDefault(v: Option<string>, default: string): string {
    if v.Some? && v.value != [] then v.value else default
  }

  /** `Character.toUpperCase`, on the characters whose case mapping reaches
      an ASCII letter: the ASCII letters, LATIN SMALL LETTER LONG S and
      LATIN SMALL LETTER DOTLESS I. Other characters are left as they are,
      which is exact for every comparison against an ASCII string. */
  function ToUpper(c: char): char {
    if 'a' <= c <= 'z' then (c as int - 32) as char
    else if c == '\U{17F}' then 'S'
    else if c == '\U{131}' then 'I'
    else c
  }

  /** `Character.toLowerCase`, likewise: the ASCII letters, KELVIN SIGN and
      LATIN CAPITAL LETTER I WITH DOT ABOVE. */
  function ToLower(c: char): char {
    if 'A' <= c <= 'Z' then (c as int + 32) as char
    else if c == '\U{212A}' then 'k'
    else if c == '\U{130}' then 'i'
    else c
  }

  /** `String.equalsIgnoreCase`: same length, and each pair of characters
      equal, or equal once upper-cased, or equal once upper- then
      lower-cased. */
  predicate EqualsIgnoreCase(a: string, b: string) {
    |a| == |b| &&
    forall i | 0 <= i < |a| ::
      a[i] == b[i] || ToUpper(a[i]) == ToUpper(b[i]) || ToLower(ToUpper(a[i])) == ToLower(ToUpper(b[i]))
  }

  /** `sortDir.equalsIgnoreCase(Sort.Direction.ASC.name())`: ascending,
      otherwise descending. */
  function SortDirection(sortDir: string): Direction {
    if EqualsIgnoreCase(sortDir, "ASC") then Ascending else Descending
  }

  /** The spellings that sort ascending: three letters, A, S and C in either
      case, where the S may also be the long s; everything else, "desc"
      included, sorts descending. */
  lemma AscendingSpellings(sortDir: string)
    ensures SortDirection(sortDir) == Ascending <==>
      && |sortDir| == 3
      && (sortDir[0] == 'A' || sortDir[0] == 'a')
      && (sortDir[1] == 'S' || sortDir[1] == 's' || sortDir[1] == '\U{17F}')
      && (sortDir[2] == 'C' || sortDir[2] == 'c')
  {
    if |sortDir| == 3 {
      var asc := "ASC";
      assert asc[0] == 'A' && asc[1] == 'S' && asc[2] == 'C';
    }
  }

  /** `PageRequest.of(page, size, Sort.by(sortBy).ascending() or .descending())`
      from the request parameters, defaults filled in. The sort field is
      never empty: an empty one is replaced by "createdAt". */
  function PageRequest(page: Option<int>, size: Option<int>, sortBy: Option<string>, sortDir: Option<string>): (p: PageSpec)
    ensures p.page == OrDefault(page, DefaultPage) && p.size == OrDefault(size, DefaultSize)
    ensures p.sortBy != []
    ensures sortBy.Some? && sortBy.value != [] ==> p.sortBy == sortBy.value
    ensures sortBy.None? || sortBy == Some([]) ==> p.sortBy == DefaultSortBy
    ensures sortDir.Some? && sortDir.value != [] ==> p.direction == SortDirection(sortDir.value)
    ensures sortDir.None? || sortDir == Some([]) ==> p.direction == SortDirection(DefaultSortDir)
  {
    PageSpec(OrDefault(page, DefaultPage), OrDefault(size, DefaultSize), TextOrDefault(sortBy, DefaultSortBy),
      SortDirection(TextOrDefault(sortDir, DefaultSortDir)))
  }

  /** Without parameters, or with empty ones: the first page of ten, newest
      first. */
  lemma DefaultPageRequest(sortBy: Option<string>, sortDir: Option<string>)
    requires sortBy.None? || sortBy == Some([])
    requires sortDir.None? || sortDir == Some([])
    ensures PageRequest(None, None, sortBy, sortDir) == PageSpec(0, 10, "createdAt", Descending)
  {
    AscendingSpellings("desc");
  }

  // ---------------------------------------------------------------------
  // The HTTP answers.
  // ---------------------------------------------------------------------

  datatype Body =
    | NoBody
    | OrderBody(order: OrderResponse)
    | OrdersBody(orders: seq<OrderResponse>)
    | ErrorBody(error: ErrorResponse)

  datatype HttpResponse = HttpResponse(status: int, location: Option<string>, body: Body)

  /** What the client receives: the endpoint's answer, or the handler's
      answer to the exception it threw, with the handler's status. */
  method Respond(r: Result<HttpResponse>, description: string) returns (resp: HttpResponse)
    ensures r.Ok? ==> resp == r.value
    ensures r.Err? ==> resp.status == StatusOf(r.error) && resp.location == None && resp.body.ErrorBody?
    ensures r.Err? ==> resp.body.error.status == resp.status && resp.body.error.path == PathOf(description)
  {
    if r.Ok? {
      resp := r.value;
    } else {
      var e := Handle(r.error, description);
      resp := HttpResponse(e.status, None, ErrorBody(e));
    }
  }

  /** A rejected order request is answered with a field map holding every
      broken constraint under its own path, with its message: no two
      constraints share a path, so the handler's `put`s overwrite none. */
  lemma ValidationErrorsComplete(request: OrderRequest)
    ensures var v := OrderViolations(request);
      forall k | 0 <= k < |v| :: v[k].field in LastWins(v) && LastWins(v)[v[k].field] == v[k].message
  {
    var v := OrderViolations(request);
    OrderViolationsApart(request);
    forall k | 0 <= k < |v|
      ensures v[k].field in LastWins(v) && LastWins(v)[v[k].field] == v[k].message
    {
      LastWinsMessage(v, k);
    }
  }

  class OrderController {
    const service: OrderService

    constructor (service: OrderService)
      ensures this.service == service
    {
      this.service := service;
    }

    predicate Valid()
      reads this, service, service.db, service.cache
    {
      service.Valid()
    }

    /** `GET /api/orders`: 200 with the orders. The page request is built
        from the parameters; the shown service lists every order, so the
        answer is the whole list. */
    method GetAllOrders(page: Option<int>, size: Option<int>, sortBy: Option<string>, sortDir: Option<string>)
        returns (r: Result<HttpResponse>)
      requires Valid()
      modifies service.cache`orders
      ensures Valid()
      ensures r == Ok(HttpResponse(200, None, OrdersBody(service.db.Responses(service.db.AllIds()))))
    {
      var pageable := PageRequest(page, size, sortBy, sortDir);
      var orders := service.FindAll();
      r := Ok(HttpResponse(200, None, OrdersBody(orders)));
    }

    /** `GET /api/orders/{id}`: 200 with the order; the service's not-found
        exception passes through (and becomes 404). */
    method GetOrderById(id: int) returns (r: Result<HttpResponse>)
      requires Valid()
      modifies service.cache`order
      ensures Valid()
      ensures id in service.db.orders ==> r == Ok(HttpResponse(200, None, OrderBody(service.db.Response(id))))
      ensures id !in service.db.orders ==> r == Err(OrderNotFound(id))
    {
      var found := service.FindById(id);
      if found.Err? {
        r := Err(found.error);
      } else {
        r := Ok(HttpResponse(200, None, OrderBody(found.value)));
      }
    }

    /** `POST /api/orders`: a request breaking a constraint is rejected
        before the service runs; otherwise 201, with the created order and
        its location (the request URI, "/", the new id). */
    method CreateOrder(request: OrderRequest, requestUri: string, now: int) returns (r: Result<HttpResponse>)
      requires Valid()
      modifies service.db, service.cache`orders
      ensures Valid()
      ensures OrderViolations(request) != [] ==>
        r == Err(ValidationFailed(OrderViolations(request))) && unchanged(service.db) && unchanged(service.cache)
      ensures OrderViolations(request) == [] ==> (r.Ok? <==> !old(service.db.NumberTaken(request.orderNumber)))
      ensures OrderViolations(request) == [] && old(service.db.NumberTaken(request.orderNumber)) ==>
        r == Err(NumberExists(request.orderNumber))
      ensures r.Ok? ==>
        var id := old(service.db.nextOrderId);
        && id in service.db.orders
        && r.value == HttpResponse(201, Some(requestUri + "/" + LongToString(id)), OrderBody(service.db.Response(id)))
    {
      var violations := OrderViolations(request);
      if violations != [] {
        r := Err(ValidationFailed(violations));
        return;
      }
      ValidOrderRequestStorable(request);
      ghost var id := service.db.nextOrderId;
      var created := service.Create(request, now);
      if created.Err? {
        r := Err(created.error);
        return;
      }
      var order := created.value;
      assert order.id == Some(id);
      var location := requestUri + "/" + LongToString(order.id.value);
      r := Ok(HttpResponse(201, Some(location), OrderBody(order)));
    }

    /** `PUT /api/orders/{id}`: constraints first, then 200 with the
        service's result: the order as stored, except for the total, which is
        the one the order had before. */
    method UpdateOrder(id: int, request: OrderRequest) returns (r: Result<HttpResponse>)
      requires Valid()
      modifies service.db, service.cache
      ensures Valid()
      ensures OrderViolations(request) != [] ==>
        r == Err(ValidationFailed(OrderViolations(request))) && unchanged(service.db) && unchanged(service.cache)
      ensures OrderViolations(request) == [] && id !in old(service.db.orders) ==> r == Err(OrderNotFound(id))
      ensures OrderViolations(request) == [] ==>
        (r.Ok? <==> id in old(service.db.orders) && (request.orderNumber == old(service.db.orders[id].orderNumber)
                                                  || !old(service.db.NumberTaken(request.orderNumber))))
      ensures (&& OrderViolations(request) == [] && id in old(service.db.orders)
               && request.orderNumber != old(service.db.orders[id].orderNumber)
               && old(service.db.NumberTaken(request.orderNumber))) ==>
        r == Err(NumberExists(request.orderNumber))
      ensures r.Ok? ==>
        && id in old(service.db.orders) && id in service.db.orders
        && r.value == HttpResponse(200, None,
             OrderBody(service.db.Response(id).(totalAmount := old(service.db.orders[id].totalAmount))))
    {
      var violations := OrderViolations(request);
      if violations != [] {
        r := Err(ValidationFailed(violations));
        return;
      }
      ValidOrderRequestStorable(request);
      var updated := service.Update(id, request);
      if updated.Err? {
        r := Err(updated.error);
        return;
      }
      r := Ok(HttpResponse(200, None, OrderBody(updated.value)));
    }

    /** `DELETE /api/orders/{id}`: 204 without a body. */
    method DeleteOrder(id: int) returns (r: Result<HttpResponse>)
      requires Valid()
      modifies service.db`orders, service.db`items, service.cache
      ensures Valid()
      ensures id !in old(service.db.orders) ==> r == Err(OrderNotFound(id))
      ensures id in old(service.db.orders) ==> r == Ok(HttpResponse(204, None, NoBody)) && id !in service.db.orders
    {
      var deleted := service.Delete(id);
      if deleted.Err? {
        r := Err(deleted.error);
        return;
      }
      r := Ok(HttpResponse(204, None, NoBody));
    }
  }
}
