/** CurrencyRepository and ExchangeRateRepository, as the in-memory sequences
    they hold, with a record of every read made of them. */
module Repositories {
  import opened Wrappers
  import opened Codes
  import opened Tables
  import opened State

  class Store {
    var currencies: seq<Code>
    var rows: seq<RateRow>
    /** Every read made of the two repositories so far, oldest first. */
    ghost var queries: seq<Query>

    ghost predicate Valid()
      reads this
    {
      StoreInvariant(currencies, rows)
    }

    constructor (currencies: seq<Code>, rows: seq<RateRow>)
      requires StoreInvariant(currencies, rows)
      ensures Valid() && this.currencies == currencies && this.rows == rows && queries == []
    {
      this.currencies := currencies;
      this.rows := rows;
      queries := [];
    }

    /** `currencyRepository.count()` */
    method Count() returns (n: nat)
      modifies this`queries
      ensures n == |currencies|
      ensures queries == old(queries) + [CountQuery]
    {
      n := |currencies|;
      queries := queries + [CountQuery];
    }

    /** `currencyRepository.findAll()` */
    method FindAll() returns (codes: seq<Code>)
      modifies this`queries
      ensures codes == currencies
      ensures queries == old(queries) + [FindAllQuery]
    {
      codes := currencies;
      queries := queries + [FindAllQuery];
    }

    /** `currencyRepository.existsByCode(code)` */
    method ExistsByCode(code: Code) returns (exists_: bool)
      modifies this`queries
      ensures exists_ <==> code in currencies
      ensures queries == old(queries) + [ExistsQuery(code)]
    {
      exists_ := code in currencies;
      queries := queries + [ExistsQuery(code)];
    }

    /** `currencyRepository.findByCode(code)`: a currency is known by its code. */
    method FindByCode(code: Code) returns (found: Option<Code>)
      modifies this`queries
      ensures found.Some? <==> code in currencies
      ensures found.Some? ==> found.value == code
      ensures queries == old(queries) + [CodeQuery(code)]
    {
      found := if code in currencies then Some(code) else None;
      queries := queries + [CodeQuery(code)];
    }

    /** `exchangeRateRepository.findByCurrency(currency)` */
    method FindByCurrency(code: Code) returns (found: seq<RateRow>)
      modifies this`queries
      ensures found == RowsOf(rows, code)
      ensures queries == old(queries) + [RowsQuery(code)]
    {
      found := RowsOf(rows, code);
      queries := queries + [RowsQuery(code)];
    }

    /** `currencyRepository.save(currency)` for a code not yet stored. */
    method SaveCurrency(code: Code)
      requires Valid() && code !in currencies
      modifies this
      ensures Valid()
      ensures currencies == old(currencies) + [code] && rows == old(rows) && queries == old(queries)
    {
      currencies := currencies + [code];
    }

    /** `exchangeRateRepository.saveAll(rows)`: appends, never replaces. */
    method SaveAll(newRows: seq<RateRow>)
      requires Valid() && forall r :: r in newRows ==> r.base in currencies
      modifies this
      ensures Valid()
      ensures rows == old(rows) + newRows && currencies == old(currencies) && queries == old(queries)
    {
      rows := rows + newRows;
    }
  }
}
