/** ExchangeRateCacheService (service/ExchangeRateCacheService.java): the same
    keyed replace-cache, without `isEmpty`; it is the cache of the rates path. */
module CacheService {
  import opened Wrappers
  import opened Codes
  import opened Tables
  import opened Cache

  class ExchangeRateCacheService {
    var cache: map<Code, RateTable>
    /** Every `updateRates` call so far, oldest first. */
    ghost var Puts: seq<Put>

    ghost predicate Valid()
      reads this
    {
      cache == Replay(Puts)
    }

    constructor ()
      ensures Valid() && Puts == [] && cache == map[]
    {
      cache := map[];
      Puts := [];
    }

    method GetRatesForCurrency(baseCurrency: Code) returns (rates: Option<RateTable>)
      ensures rates.Some? <==> baseCurrency in cache
      ensures rates.Some? ==> rates.value == cache[baseCurrency]
    {
      rates := if baseCurrency in cache then Some(cache[baseCurrency]) else None;
    }

    method UpdateRates(baseCurrency: Code, rates: RateTable)
      requires Valid()
      modifies this
      ensures Valid()
      ensures Puts == old(Puts) + [Put(baseCurrency, rates)]
      ensures cache == old(cache)[baseCurrency := rates]
    {
      cache := cache[baseCurrency := rates];
      Puts := Puts + [Put(baseCurrency, rates)];
    }

    method HasRates(baseCurrency: Code) returns (has: bool)
      ensures has <==> baseCurrency in cache
    {
      has := baseCurrency in cache;
    }

    method GetAllRates() returns (all: map<Code, RateTable>)
      ensures all == cache
    {
      all := cache;
    }
  }
}
