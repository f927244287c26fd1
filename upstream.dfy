/** The upstream rate provider, seen through what the Feign client hands back,
    and the classification both services apply to its failures. */
module Upstream {
  import opened Wrappers
  import opened Codes
  import opened Errors
  import opened Tables

  /** What one call for a base code yields: a rate table, a
      ResponseStatusException with an HTTP status, or another exception. */
  datatype Answer =
    | Rates(table: RateTable)
    | StatusError(status: int)
    | Thrown(message: string)

  /** `HttpStatusCode.is4xxClientError`: the status lies in the 400-499
      range, i.e. its hundreds digit is 4. */
  function Is4xx(status: int): (b: bool)
    ensures b <==> status / 100 == 4
  {
    400 <= status <= 499
  }

  /** The try/catch around the client call: a 4xx status becomes
      CurrencyNotFound, any other status the generic RuntimeException
      "External service error.", any other exception passes through as is. */
  function ClassifyFetch(code: Code, a: Answer): (r: Result<RateTable, Error>)
    ensures r.Success? <==> a.Rates?
    ensures a.Rates? ==> r.value == a.table
    ensures r.Failure? ==> (r.error.CurrencyNotFound? <==> a.StatusError? && Is4xx(a.status))
    ensures a.StatusError? && Is4xx(a.status) ==> r.error == NotFoundUpstream(code)
    ensures r.Failure? ==> r.error.CurrencyNotFound? || r.error.OtherException?
    ensures a.StatusError? && !Is4xx(a.status) ==> r.error.message == ExternalServiceErrorMessage
    ensures a.Thrown? ==> r.error.message == a.message
  {
    match a
    case Rates(t) => Success(t)
    case StatusError(status) =>
      if Is4xx(status) then Failure(NotFoundUpstream(code))
      else Failure(OtherException(ExternalServiceErrorMessage))
    case Thrown(message) => Failure(OtherException(message))
  }

  /** ExchangeRatesClient: `answer` is what upstream currently replies for
      each base code; `calls` records every request made, in order. */
  class ExchangeRatesClient {
    var answer: Code -> Answer
    var calls: seq<Code>

    constructor (answer: Code -> Answer)
      ensures this.answer == answer && calls == []
    {
      this.answer := answer;
      calls := [];
    }

    method GetExchangeRates(baseCurrency: Code) returns (a: Answer)
      modifies this`calls
      ensures calls == old(calls) + [baseCurrency]
      ensures a == answer(baseCurrency)
    {
      calls := calls + [baseCurrency];
      a := answer(baseCurrency);
    }
  }
}
