/** ExchangeRateCache (cache/ExchangeRateCache.java), the keyed replace-cache
    that the currency registry uses, and the update history both caches are
    described by. */
module Cache {
  import opened Wrappers
  import opened Codes
  import opened Tables

  /** One `updateRates(base, rates)` call. */
  datatype Put = Put(base: Code, rates: RateTable)

  /** The cache contents after a history of `updateRates` calls on a fresh
      cache: each put replaces the whole table of its key. */
  function Replay(puts: seq<Put>): (m: map<Code, RateTable>)
  {
    if puts == [] then map[]
    else Replay(puts[..|puts| - 1])[puts[|puts| - 1].base := puts[|puts| - 1].rates]
  }

  /** The keys are exactly the base codes ever put. */
  lemma {:induction false} ReplayKeys(puts: seq<Put>)
    ensures Replay(puts).Keys == set i | 0 <= i < |puts| :: puts[i].base
  {
    if puts != [] {
      var n := |puts| - 1;
      ReplayKeys(puts[..n]);
      assert (set i | 0 <= i < |puts| :: puts[i].base)
          == (set i | 0 <= i < n :: puts[..n][i].base) + {puts[n].base};
    }
  }

  /** A cache is empty exactly when no put has happened. */
  lemma ReplayEmptyIff(puts: seq<Put>)
    ensures |Replay(puts)| == 0 <==> puts == []
  {
    ReplayKeys(puts);
    if puts != [] {
      assert puts[0].base in Replay(puts).Keys;
    }
  }

  /** The last put for a key decides its table outright: nothing of an
      earlier table for that key survives. */
  lemma {:induction false} ReplayLastPutWins(puts: seq<Put>, i: int)
    requires 0 <= i < |puts|
    requires forall j :: i < j < |puts| ==> puts[j].base != puts[i].base
    ensures puts[i].base in Replay(puts) && Replay(puts)[puts[i].base] == puts[i].rates
  {
    var n := |puts| - 1;
    if i < n {
      ReplayLastPutWins(puts[..n], i);
    }
  }

  /** A key that was never put has no entry: `getRatesForCurrency` answers
      null and `hasRates` false. */
  lemma {:induction false} ReplayNeverPut(puts: seq<Put>, base: Code)
    requires forall j :: 0 <= j < |puts| ==> puts[j].base != base
    ensures base !in Replay(puts)
  {
    if puts != [] {
      ReplayNeverPut(puts[..|puts| - 1], base);
    }
  }

  class ExchangeRateCache {
    var cache: map<Code, RateTable>
    /** Every `updateRates` call so far, oldest first. */
    ghost var Puts: seq<Put>

    ghost predicate Valid()
      reads this
    {
      cache == Replay(Puts)
    }

    constructor ()
      ensures Valid() && Puts == [] && cache == map[]
    {
      cache := map[];
      Puts := [];
    }

    method GetRatesForCurrency(baseCurrency: Code) returns (rates: Option<RateTable>)
      ensures rates.Some? <==> baseCurrency in cache
      ensures rates.Some? ==> rates.value == cache[baseCurrency]
    {
      rates := if baseCurrency in cache then Some(cache[baseCurrency]) else None;
    }

    /** Replaces the whole table of `baseCurrency`; keys are taken as given,
        with no case normalisation. */
    method UpdateRates(baseCurrency: Code, rates: RateTable)
      requires Valid()
      modifies this
      ensures Valid()
      ensures Puts == old(Puts) + [Put(baseCurrency, rates)]
      ensures cache == old(cache)[baseCurrency := rates]
    {
      cache := cache[baseCurrency := rates];
      Puts := Puts + [Put(baseCurrency, rates)];
    }

    method HasRates(baseCurrency: Code) returns (has: bool)
      ensures has <==> baseCurrency in cache
    {
      has := baseCurrency in cache;
    }

    method GetAllRates() returns (all: map<Code, RateTable>)
      ensures all == cache
    {
      all := cache;
    }

    method IsEmpty() returns (empty: bool)
      requires Valid()
      ensures empty <==> Puts == []
      ensures empty <==> |cache| == 0
    {
      ReplayEmptyIff(Puts);
      empty := |cache| == 0;
    }
  }
}
