/** The state one service sees, as a value: the two repositories, its cache,
    the upstream calls made so far and the repository reads made so far. */
module State {
  import opened Wrappers
  import opened Codes
  import opened Errors
  import opened Tables

  predicate Distinct<T(==)>(s: seq<T>) {
    forall i, j :: 0 <= i < j < |s| ==> s[i] != s[j]
  }

  /** The database constraints the core relies on: currency codes are unique
      (the `unique = true` column), and every rate row belongs to a stored
      currency (the row's foreign key). */
  ghost predicate StoreInvariant(currencies: seq<Code>, rows: seq<RateRow>) {
    && Distinct(currencies)
    && forall r :: r in rows ==> r.base in currencies
  }

  /** One read of a repository: `count()`, `findAll()`, `existsByCode`,
      `findByCode` or `findByCurrency`. */
  datatype Query =
    | CountQuery
    | FindAllQuery
    | ExistsQuery(code: Code)
    | CodeQuery(code: Code)
    | RowsQuery(code: Code)

  datatype View = View(
    currencies: seq<Code>,           // CurrencyRepository, in findAll order
    rows: seq<RateRow>,              // ExchangeRateRepository, in insertion order
    cache: map<Code, RateTable>,     // the service's own cache
    calls: seq<Code>,                // requests made to upstream so far
    queries: seq<Query>)             // repository reads made so far

  /** Every cached base code is a stored currency. */
  predicate CacheKeysStored(v: View) {
    forall k :: k in v.cache ==> k in v.currencies
  }

  /** The state after an operation and what the operation returned or threw. */
  datatype Step<T> = Step(view: View, result: Result<T, Error>)
}
