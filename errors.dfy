/** The exceptions the core throws or lets through, with the messages the
    services build for them. */
module Errors {
  import opened Codes

  datatype Error =
    /** CurrencyNotFoundException */
    | CurrencyNotFound(message: string)
    /** CurrencyAlreadyExistsException */
    | CurrencyAlreadyExists(message: string)
    /** ExternalServiceException: handled by the exception handler, never thrown by the core */
    | ExternalService(message: string)
    /** Any other exception: a RuntimeException, the IllegalStateException of a duplicate key, ... */
    | OtherException(message: string)

  const ExternalServiceErrorMessage: string := "External service error."

  /** The read path found the code neither in the cache nor in the store:
      a CurrencyNotFoundException whose message names the code. */
  function RatesNotFound(code: Code): (e: Error)
    ensures e.CurrencyNotFound?
    ensures |e.message| == |code| + 21 && e.message[10..10 + |code|] == code
  {
    CurrencyNotFound("Rates for " + code + " not found.")
  }

  /** Upstream answered with a 4xx status: a CurrencyNotFoundException whose
      message ends with the code. */
  function NotFoundUpstream(code: Code): (e: Error)
    ensures e.CurrencyNotFound?
    ensures |e.message| == |code| + 40 && e.message[40..] == code
  {
    CurrencyNotFound("Currency not found in external service: " + code)
  }

  /** `addCurrency` for a code the store already holds: a
      CurrencyAlreadyExistsException whose message names the code. */
  function AlreadyExists(code: Code): (e: Error)
    ensures e.CurrencyAlreadyExists?
    ensures |e.message| == |code| + 35 && e.message[19..19 + |code|] == code
  {
    CurrencyAlreadyExists("Currency with code " + code + " already exists.")
  }

  /** `getAllCurrencies` with an empty cache and an empty store: a
      CurrencyNotFoundException that names no code. */
  function NoCurrencies(): (e: Error)
    ensures e.CurrencyNotFound? && e.message == "No currencies available."
  {
    CurrencyNotFound("No currencies available.")
  }

  /** `Collectors.toMap` met a second row for the same target code: an
      IllegalStateException, which only the catch-all handler takes. */
  function DuplicateKey(code: Code): (e: Error)
    ensures e.OtherException?
    ensures |e.message| == |code| + 14 && e.message[14..] == code
  {
    OtherException("Duplicate key " + code)
  }
}
