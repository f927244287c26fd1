/** ExchangeRateServiceImpl: the read path (cache, then store, never upstream)
    and the scheduled refresh of every stored currency. */
module ExchangeRateService {
  import opened Wrappers
  import opened Codes
  import opened Errors
  import opened Tables
  import opened Upstream
  import opened State
  import opened CacheService
  import opened Repositories

  /** `loadRatesAndUpdateCache`: the store is asked for the code; a stored
      currency's rows are read, rebuilt into a table and written to the
      cache; a code the store lacks is not found. */
  function RatesLoad(v: View, code: Code): (s: Step<RateTable>)
    ensures s.view.currencies == v.currencies && s.view.rows == v.rows && s.view.calls == v.calls
    ensures |v.queries| < |s.view.queries| && s.view.queries[..|v.queries|] == v.queries
    ensures s.view.queries[|v.queries|] == CodeQuery(code)
    ensures code !in v.currencies ==> s.result == Failure(RatesNotFound(code))
    ensures code in v.currencies ==> s.result == BuildTable(RowsOf(v.rows, code))
    ensures s.result.Failure? ==> s.view.cache == v.cache
    ensures s.result.Success? ==> code in v.currencies && s.view.cache == v.cache[code := s.result.value]
  {
    var asked := v.(queries := v.queries + [CodeQuery(code)]);
    if code !in v.currencies then Step(asked, Failure(RatesNotFound(code)))
    else
      var looked := asked.(queries := asked.queries + [RowsQuery(code)]);
      match BuildTable(RowsOf(v.rows, code))
      case Failure(e) => Step(looked, Failure(e))
      case Success(t) => Step(looked.(cache := v.cache[code := t]), Success(t))
  }

  /** `getExchangeRates`: upper-case the code, serve a cached table, or load
      it from the store and cache it. It never writes the store, never calls
      upstream, and reads the store exactly when the cache misses. */
  function RatesRead(v: View, code: Code): (s: Step<seq<RateDto>>)
    ensures s.view.currencies == v.currencies && s.view.rows == v.rows && s.view.calls == v.calls
    ensures s.view.queries == v.queries <==> Upper(code) in v.cache
    ensures s.result.Failure? ==> s.view.cache == v.cache
  {
    var up := Upper(code);
    if up in v.cache then Step(v, Success(Dtos(up, v.cache[up])))
    else
      var loaded := RatesLoad(v, up);
      match loaded.result
      case Failure(e) => Step(loaded.view, Failure(e))
      case Success(t) => Step(loaded.view.(cache := loaded.view.cache[up := t]), Success(Dtos(up, t)))
  }

  /** `updateRatesFromApi`: fetch, then (creating the currency if the store
      lacks it) append one row per fetched entry, then replace the cache entry.
      A failed fetch leaves store and cache alone. */
  function ApiUpdate(v: View, answer: Code -> Answer, code: Code): (s: Step<()>)
    ensures s.view.calls == v.calls + [code]
    ensures |v.rows| <= |s.view.rows| && s.view.rows[..|v.rows|] == v.rows
    ensures s.result.Failure? ==> s.view == v.(calls := v.calls + [code])
    ensures s.result.Success? <==> answer(code).Rates?
    ensures s.result.Success? ==> code in s.view.currencies && code in s.view.cache
  {
    var called := v.(calls := v.calls + [code]);
    match ClassifyFetch(code, answer(code))
    case Failure(e) => Step(called, Failure(e))
    case Success(t) =>
      var currencies := if code in v.currencies then v.currencies else v.currencies + [code];
      Step(called.(currencies := currencies, rows := v.rows + RowsFor(code, t),
                   cache := v.cache[code := t], queries := v.queries + [CodeQuery(code)]),
           Success(()))
  }

  /** The loop of `updateAllExchangeRates` over a list of codes: every code is
      attempted in turn and each failure is dropped before the next one. */
  function RefreshAll(v: View, answer: Code -> Answer, codes: seq<Code>): (w: View)
    ensures w.calls == v.calls + codes
    ensures |v.rows| <= |w.rows| && w.rows[..|v.rows|] == v.rows
    decreases |codes|
  {
    if codes == [] then v
    else
      var before := RefreshAll(v, answer, codes[..|codes| - 1]);
      assert codes == codes[..|codes| - 1] + [codes[|codes| - 1]];
      ApiUpdate(before, answer, codes[|codes| - 1]).view
  }

  /** `updateAllExchangeRates`: count the stored currencies and do nothing
      more when there are none; otherwise list them and refresh each. */
  function ScheduledUpdate(v: View, answer: Code -> Answer): (w: View)
    ensures w.calls == v.calls + v.currencies
    ensures |v.rows| <= |w.rows| && w.rows[..|v.rows|] == v.rows
    ensures v.currencies == [] ==> w == v.(queries := v.queries + [CountQuery])
  {
    if |v.currencies| == 0 then v.(queries := v.queries + [CountQuery])
    else RefreshAll(v.(queries := v.queries + [CountQuery, FindAllQuery]), answer, v.currencies)
  }

  /** A hit serves the cached table, whoever wrote it, as DTOs under the
      upper-cased code, and changes nothing: the store is not read. */
  lemma RatesReadHit(v: View, code: Code)
    requires Upper(code) in v.cache
    ensures RatesRead(v, code) == Step(v, Success(Dtos(Upper(code), v.cache[Upper(code)])))
  {
  }

  /** "usd" and "USD" give the same result and the same new state. */
  lemma RatesReadCaseInsensitive(v: View, a: Code, b: Code)
    requires EqualIgnoringCase(a, b)
    ensures RatesRead(v, a) == RatesRead(v, b)
  {
    UpperEqualIff(a, b);
  }

  /** On a cache miss, a code the store lacks fails with "Rates for X not
      found." after one lookup by code, and nothing else changes. */
  lemma RatesReadMissingCurrency(v: View, code: Code)
    requires Upper(code) !in v.cache && Upper(code) !in v.currencies
    ensures RatesRead(v, code) ==
      Step(v.(queries := v.queries + [CodeQuery(Upper(code))]), Failure(RatesNotFound(Upper(code))))
  {
  }

  /** A cache miss on a stored code whose rows rebuild: the store is asked
      for the code and then for its rows, and the rebuilt table is cached and
      served. */
  lemma RatesReadFromStore(v: View, code: Code, t: RateTable)
    requires Upper(code) !in v.cache && Upper(code) in v.currencies
    requires BuildTable(RowsOf(v.rows, Upper(code))) == Success(t)
    ensures RatesRead(v, code) ==
      Step(v.(cache := v.cache[Upper(code) := t],
              queries := v.queries + [CodeQuery(Upper(code)), RowsQuery(Upper(code))]),
           Success(Dtos(Upper(code), t)))
  {
  }

  /** A cache miss on a stored code with two rows for one target throws the
      rebuild's exception, and nothing changes. */
  lemma RatesReadDuplicateRows(v: View, code: Code)
    requires Upper(code) !in v.cache && Upper(code) in v.currencies
    requires !DistinctTargets(RowsOf(v.rows, Upper(code)))
    ensures RatesRead(v, code).result.Failure?
    ensures RatesRead(v, code).result.error.OtherException?
  {
    BuildTableSpec(RowsOf(v.rows, Upper(code)));
  }

  /** A successful read leaves the table cached, so reading again is a hit
      that gives the same answer and changes nothing. */
  lemma RatesReadIdempotent(v: View, code: Code)
    requires RatesRead(v, code).result.Success?
    ensures Upper(code) in RatesRead(v, code).view.cache
    ensures var first := RatesRead(v, code);
      RatesRead(first.view, code) == Step(first.view, first.result)
  {
  }

  /** The rates cache only ever holds stored currencies: a read caches only
      codes the store has, ... */
  lemma RatesReadKeepsCacheStored(v: View, code: Code)
    requires CacheKeysStored(v)
    ensures CacheKeysStored(RatesRead(v, code).view)
  {
  }

  /** ... and an update from upstream stores the code it caches. */
  lemma ApiUpdateKeepsCacheStored(v: View, answer: Code -> Answer, code: Code)
    requires CacheKeysStored(v)
    ensures CacheKeysStored(ApiUpdate(v, answer, code).view)
  {
  }

  lemma {:induction false} RefreshKeepsCacheStored(v: View, answer: Code -> Answer, codes: seq<Code>)
    requires CacheKeysStored(v)
    ensures CacheKeysStored(RefreshAll(v, answer, codes))
    decreases |codes|
  {
    if codes != [] {
      var n := |codes| - 1;
      RefreshKeepsCacheStored(v, answer, codes[..n]);
      ApiUpdateKeepsCacheStored(RefreshAll(v, answer, codes[..n]), answer, codes[n]);
    }
  }

  /** What one refresh step does to the cache entry and the rows of code `c`. */
  lemma ApiUpdateEffect(v: View, answer: Code -> Answer, code: Code, c: Code)
    ensures var w := ApiUpdate(v, answer, code).view;
      && (code != c || !answer(c).Rates? ==>
            && (c in w.cache <==> c in v.cache)
            && (c in v.cache ==> w.cache[c] == v.cache[c])
            && RowsOf(w.rows, c) == RowsOf(v.rows, c))
      && (code == c && answer(c).Rates? ==>
            && c in w.cache && w.cache[c] == answer(c).table
            && RowsOf(w.rows, c) == RowsOf(v.rows, c) + RowsFor(c, answer(c).table))
  {
    if answer(code).Rates? {
      var t := answer(code).table;
      RowsOfAppend(v.rows, RowsFor(code, t), c);
      if code == c {
        RowsOfAllBase(RowsFor(c, t), c);
      } else {
        RowsOfOtherBase(RowsFor(code, t), c);
      }
    }
  }

  /** A code outside the refreshed list keeps its cache entry and its rows. */
  lemma {:induction false} RefreshUntouched(v: View, answer: Code -> Answer, codes: seq<Code>, k: Code)
    requires k !in codes
    ensures var w := RefreshAll(v, answer, codes);
      && (k in w.cache <==> k in v.cache)
      && (k in v.cache ==> w.cache[k] == v.cache[k])
      && RowsOf(w.rows, k) == RowsOf(v.rows, k)
  {
    if codes != [] {
      var n := |codes| - 1;
      RefreshUntouched(v, answer, codes[..n], k);
      ApiUpdateEffect(RefreshAll(v, answer, codes[..n]), answer, codes[n], k);
    }
  }

  /** Per-currency isolation: a currency whose fetch fails keeps its cache
      entry and its rows; one whose fetch succeeds gets the fetched table in
      the cache and its rows appended after the old ones, none deleted. */
  lemma {:induction false} RefreshOutcome(v: View, answer: Code -> Answer, codes: seq<Code>, c: Code)
    requires Distinct(codes) && c in codes
    ensures var w := RefreshAll(v, answer, codes);
      && (!answer(c).Rates? ==>
            && (c in w.cache <==> c in v.cache)
            && (c in v.cache ==> w.cache[c] == v.cache[c])
            && RowsOf(w.rows, c) == RowsOf(v.rows, c))
      && (answer(c).Rates? ==>
            && c in w.cache && w.cache[c] == answer(c).table
            && RowsOf(w.rows, c) == RowsOf(v.rows, c) + RowsFor(c, answer(c).table))
  {
    var n := |codes| - 1;
    var before := RefreshAll(v, answer, codes[..n]);
    ApiUpdateEffect(before, answer, codes[n], c);
    if codes[n] == c {
      assert c !in codes[..n];
      RefreshUntouched(v, answer, codes[..n], c);
    } else {
      assert c in codes[..n];
      RefreshOutcome(v, answer, codes[..n], c);
    }
  }

  /** Refreshing stored codes adds no currency and keeps the store's
      constraints. */
  lemma {:induction false} RefreshKeepsStore(v: View, answer: Code -> Answer, codes: seq<Code>)
    requires StoreInvariant(v.currencies, v.rows)
    requires forall c :: c in codes ==> c in v.currencies
    ensures RefreshAll(v, answer, codes).currencies == v.currencies
    ensures StoreInvariant(v.currencies, RefreshAll(v, answer, codes).rows)
  {
    if codes != [] {
      var n := |codes| - 1;
      RefreshKeepsStore(v, answer, codes[..n]);
    }
  }

  /** A scheduled run over a consistent store adds no currency, keeps the
      store's constraints and keeps the rates cache on stored codes. */
  lemma ScheduledKeepsStore(v: View, answer: Code -> Answer)
    requires StoreInvariant(v.currencies, v.rows) && CacheKeysStored(v)
    ensures ScheduledUpdate(v, answer).currencies == v.currencies
    ensures StoreInvariant(v.currencies, ScheduledUpdate(v, answer).rows)
    ensures CacheKeysStored(ScheduledUpdate(v, answer))
  {
    if |v.currencies| != 0 {
      var start := v.(queries := v.queries + [CountQuery, FindAllQuery]);
      RefreshKeepsStore(start, answer, v.currencies);
      RefreshKeepsCacheStored(start, answer, v.currencies);
    }
  }

  /** Per-currency isolation in a scheduled run: a stored currency whose
      fetch fails keeps its cache entry and its rows; one whose fetch succeeds
      gets the fetched table cached and its new rows after the old ones. */
  lemma ScheduledOutcome(v: View, answer: Code -> Answer, c: Code)
    requires StoreInvariant(v.currencies, v.rows) && c in v.currencies
    ensures var w := ScheduledUpdate(v, answer);
      && (!answer(c).Rates? ==>
            && (c in w.cache <==> c in v.cache)
            && (c in v.cache ==> w.cache[c] == v.cache[c])
            && RowsOf(w.rows, c) == RowsOf(v.rows, c))
      && (answer(c).Rates? ==>
            && c in w.cache && w.cache[c] == answer(c).table
            && RowsOf(w.rows, c) == RowsOf(v.rows, c) + RowsFor(c, answer(c).table))
  {
    RefreshOutcome(v.(queries := v.queries + [CountQuery, FindAllQuery]), answer, v.currencies, c);
  }

  class ExchangeRateServiceImpl {
    const client: ExchangeRatesClient
    const store: Store
    const cacheService: ExchangeRateCacheService

    ghost predicate Valid()
      reads this, store, cacheService
    {
      store.Valid() && cacheService.Valid()
    }

    ghost function ViewOf(): View
      reads this, store, cacheService, client
    {
      View(store.currencies, store.rows, cacheService.cache, client.calls, store.queries)
    }

    constructor (client: ExchangeRatesClient, store: Store, cacheService: ExchangeRateCacheService)
      ensures this.client == client && this.store == store && this.cacheService == cacheService
    {
      this.client := client;
      this.store := store;
      this.cacheService := cacheService;
    }

    method GetExchangeRates(baseCurrencyCode: Code) returns (r: Result<seq<RateDto>, Error>)
      requires Valid()
      modifies cacheService, store`queries
      ensures Valid()
      ensures ViewOf() == RatesRead(old(ViewOf()), baseCurrencyCode).view
      ensures r == RatesRead(old(ViewOf()), baseCurrencyCode).result
    {
      var code := Upper(baseCurrencyCode);
      var has := cacheService.HasRates(code);
      if !has {
        var loaded := LoadRatesAndUpdateCache(code);
        if loaded.Failure? {
          r := Failure(loaded.error);
          return;
        }
        cacheService.UpdateRates(code, loaded.value);
      }
      var rates := cacheService.GetRatesForCurrency(code);
      r := Success(Dtos(code, rates.value));
    }

    method UpdateAllExchangeRates()
      requires Valid()
      modifies client`calls, store, cacheService
      ensures Valid()
      ensures ViewOf() == ScheduledUpdate(old(ViewOf()), client.answer)
    {
      var count := store.Count();
      if count == 0 {
        return;
      }
      var currencies := store.FindAll();
      ghost var start := ViewOf();
      assert old(store.queries) + [CountQuery] + [FindAllQuery] == old(store.queries) + [CountQuery, FindAllQuery];
      assert start == old(ViewOf()).(queries := old(ViewOf()).queries + [CountQuery, FindAllQuery]);
      var i := 0;
      while i < |currencies|
        invariant 0 <= i <= |currencies|
        invariant Valid()
        invariant store.currencies == currencies
        invariant ViewOf() == RefreshAll(start, client.answer, currencies[..i])
      {
        // Each currency's failure is caught here and the loop goes on.
        var _ := UpdateRatesFromApi(currencies[i]);
        assert currencies[..i + 1][..i] == currencies[..i];
        i := i + 1;
      }
      assert currencies[..i] == currencies;
    }

    method LoadRatesAndUpdateCache(currencyCode: Code) returns (r: Result<RateTable, Error>)
      requires Valid()
      modifies cacheService, store`queries
      ensures Valid()
      ensures ViewOf() == RatesLoad(old(ViewOf()), currencyCode).view
      ensures r == RatesLoad(old(ViewOf()), currencyCode).result
    {
      var currency := store.FindByCode(currencyCode);
      if currency.None? {
        r := Failure(RatesNotFound(currencyCode));
        return;
      }
      var rows := store.FindByCurrency(currency.value);
      r := BuildTable(rows);
      if r.Success? {
        cacheService.UpdateRates(currencyCode, r.value);
      }
    }

    method UpdateRatesFromApi(baseCurrencyCode: Code) returns (r: Result<(), Error>)
      requires Valid()
      modifies client`calls, store, cacheService
      ensures Valid()
      ensures ViewOf() == ApiUpdate(old(ViewOf()), client.answer, baseCurrencyCode).view
      ensures r == ApiUpdate(old(ViewOf()), client.answer, baseCurrencyCode).result
    {
      var response := FetchRatesFromApi(baseCurrencyCode);
      if response.Failure? {
        r := Failure(response.error);
        return;
      }
      var currency := store.FindByCode(baseCurrencyCode);
      if currency.None? {
        store.SaveCurrency(baseCurrencyCode);
      }
      store.SaveAll(RowsFor(baseCurrencyCode, response.value));
      cacheService.UpdateRates(baseCurrencyCode, response.value);
      r := Success(());
    }

    method FetchRatesFromApi(currencyCode: Code) returns (r: Result<RateTable, Error>)
      modifies client`calls
      ensures client.calls == old(client.calls) + [currencyCode]
      ensures r == ClassifyFetch(currencyCode, client.answer(currencyCode))
    {
      var answer := client.GetExchangeRates(currencyCode);
      r := ClassifyFetch(currencyCode, answer);
    }
  }
}
