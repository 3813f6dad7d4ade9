/** exception/GlobalExceptionHandler.java: the advice that turns an
    exception thrown by a controller into an error response. ErrorResponse.java
    is not part of this model; its fields are the four the handlers set plus
    the map of rejected fields, which only the validation handler fills. */
module ExceptionHandling {
  import opened Common

  datatype ErrorResponse = ErrorResponse(
    status: int,
    error: string,
    message: Option<string>,
    path: string,
    validationErrors: Option<map<string, string>>)

  /** The path of every error response: the request description
      (`getDescription(false)`, "uri=" followed by the request path) with
      each "uri=" taken out. */
  function PathOf(description: string): string {
    RemoveAll(description, "uri=")
  }

  /** A description made the usual way gives back the request path, when the
      path does not itself contain "uri=". */
  lemma {:induction false} PathOfDescription(path: string)
    requires !Contains(path, "uri=")
    ensures PathOf("uri=" + path) == path
  {
    var d := "uri=" + path;
    assert d[..4] == "uri=";
    assert d[4..] == path;
    RemoveAllAbsent(path, "uri=");
  }

  // ---------------------------------------------------------------------
  // The validation handler's map: `put` for every error in turn, so of
  // several errors on one field the last one's message stays.
  // ---------------------------------------------------------------------

  function LastWins(errors: seq<FieldError>): map<string, string> {
    if errors == [] then map[]
    else LastWins(errors[..|errors| - 1])[errors[|errors| - 1].field := errors[|errors| - 1].message]
  }

  /** The map has an entry for exactly the fields some error names. */
  lemma {:induction false} LastWinsFields(errors: seq<FieldError>, f: string)
    ensures f in LastWins(errors) <==> exists k | 0 <= k < |errors| :: errors[k].field == f
  {
    if errors != [] {
      var n := |errors| - 1;
      LastWinsFields(errors[..n], f);
      if f in LastWins(errors[..n]) {
        var k :| 0 <= k < n && errors[..n][k].field == f;
        assert errors[k].field == f;
      }
      if exists k | 0 <= k < |errors| :: errors[k].field == f {
        var k :| 0 <= k < |errors| && errors[k].field == f;
        if k < n {
          assert errors[..n][k].field == f;
        }
      }
    }
  }

  /** The entry of a field is the message of the last error naming it. */
  lemma {:induction false} LastWinsMessage(errors: seq<FieldError>, k: int)
    requires 0 <= k < |errors|
    requires forall j | k < j < |errors| :: errors[j].field != errors[k].field
    ensures errors[k].field in LastWins(errors) && LastWins(errors)[errors[k].field] == errors[k].message
  {
    var n := |errors| - 1;
    if k < n {
      LastWinsMessage(errors[..n], k);
    }
  }

  /** The `forEach` of `handleValidationException` over the binding
      result's errors. */
  method CollectFieldErrors(errors: seq<FieldError>) returns (m: map<string, string>)
    ensures m == LastWins(errors)
  {
    m := map[];
    var k := 0;
    while k < |errors|
      invariant 0 <= k <= |errors|
      invariant m == LastWins(errors[..k])
    {
      assert errors[..k + 1][..k] == errors[..k];
      m := m[errors[k].field := errors[k].message];
      k := k + 1;
    }
    assert errors[..|errors|] == errors;
  }

  // ---------------------------------------------------------------------
  // The four handlers.
  // ---------------------------------------------------------------------

  /** The status each exception is answered with: the three specific
      handlers, and the catch-all `Exception` handler for the rest. */
  function StatusOf(e: Error): (status: int)
    ensures status == 404 <==> e.ResourceNotFound?
    ensures status == 409 <==> e.DuplicateOrderNumber?
    ensures status == 400 <==> e.ValidationFailed?
    ensures status == 500 <==> !(e.ResourceNotFound? || e.DuplicateOrderNumber? || e.ValidationFailed?)
  {
    match e
    case ResourceNotFound(_) => 404
    case DuplicateOrderNumber(_) => 409
    case ValidationFailed(_) => 400
    case _ => 500
  }

  /** The message a response carries: the exception's own, except for the
      fixed text of the validation handler. The message of an `Internal`
      exception is not part of this model. */
  function MessageOf(e: Error): Option<string> {
    match e
    case ResourceNotFound(m) => Some(m)
    case DuplicateOrderNumber(m) => Some(m)
    case ValidationFailed(_) => Some("Invalid input data")
    case UsernameNotFound(m) => Some(m)
    case Runtime(m) => Some(m)
    case Internal(_) => None
  }

  /** The advice: the handler for the exception's class builds the response. */
  method Handle(e: Error, description: string) returns (r: ErrorResponse)
    ensures r.status == StatusOf(e) && r.path == PathOf(description) && r.message == MessageOf(e)
    ensures r.error == match e
      case ResourceNotFound(_) => "Not Found"
      case DuplicateOrderNumber(_) => "Conflict"
      case ValidationFailed(_) => "Validation Failed"
      case _ => "Internal Server Error"
    ensures e.ValidationFailed? <==> r.validationErrors.Some?
    ensures e.ValidationFailed? ==> r.validationErrors.value == LastWins(e.fieldErrors)
  {
    match e {
      case ResourceNotFound(m) =>
        r := ErrorResponse(404, "Not Found", Some(m), PathOf(description), None);
      case DuplicateOrderNumber(m) =>
        r := ErrorResponse(409, "Conflict", Some(m), PathOf(description), None);
      case ValidationFailed(errors) =>
        var fields := CollectFieldErrors(errors);
        r := ErrorResponse(400, "Validation Failed", Some("Invalid input data"), PathOf(description), Some(fields));
      case _ =>
        r := ErrorResponse(500, "Internal Server Error", MessageOf(e), PathOf(description), None);
    }
  }
}
