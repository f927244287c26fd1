/** GlobalExceptionHandler: every exception that leaves a service becomes an
    HTTP status and a body. */
module ExceptionHandler {
  import opened Codes
  import opened Errors
  import opened Upstream

  datatype Response = Response(status: int, body: string)

  const BadRequest: int := 400
  const NotFound: int := 404
  const InternalServerError: int := 500
  const GenericBody: string := "An unexpected error occurred."

  /** The four handlers as one function. A message reaches the client except
      for exceptions that only the catch-all handler takes. */
  function Handle(e: Error): (r: Response)
    ensures r.status in {BadRequest, NotFound, InternalServerError}
    ensures r.status == NotFound <==> e.CurrencyNotFound?
    ensures r.status == BadRequest <==> e.CurrencyAlreadyExists?
    ensures r.status == InternalServerError <==> e.ExternalService? || e.OtherException?
    ensures r.body == (if e.OtherException? then GenericBody else e.message)
  {
    match e
    case CurrencyNotFound(message) => Response(NotFound, message)
    case CurrencyAlreadyExists(message) => Response(BadRequest, message)
    case ExternalService(message) => Response(InternalServerError, message)
    case OtherException(_) => Response(InternalServerError, GenericBody)
  }

  /** How an upstream failure reaches the client: a 4xx answer is a 404 naming
      the code; any other status is a 500 whose body is the generic text, since
      "External service error." is a RuntimeException and not an
      ExternalServiceException. */
  lemma FetchFailureResponse(code: Code, a: Answer)
    requires !a.Rates?
    ensures a.StatusError? && Is4xx(a.status) ==>
      Handle(ClassifyFetch(code, a).error) ==
        Response(NotFound, "Currency not found in external service: " + code)
    ensures !(a.StatusError? && Is4xx(a.status)) ==>
      Handle(ClassifyFetch(code, a).error) == Response(InternalServerError, GenericBody)
  {
  }

  /** What the client sees for each exception the services build: the
      not-found messages with 404, the duplicate add with 400, and the
      rebuild's duplicate key as a 500 with the generic body. */
  lemma ErrorResponses(code: Code)
    ensures Handle(RatesNotFound(code)) == Response(NotFound, "Rates for " + code + " not found.")
    ensures Handle(NotFoundUpstream(code)) ==
      Response(NotFound, "Currency not found in external service: " + code)
    ensures Handle(AlreadyExists(code)) ==
      Response(BadRequest, "Currency with code " + code + " already exists.")
    ensures Handle(NoCurrencies()) == Response(NotFound, "No currencies available.")
    ensures Handle(DuplicateKey(code)) == Response(InternalServerError, GenericBody)
  {
  }
}
