/** CurrencyServiceImpl: the registry paths, `addCurrency` and
    `getAllCurrencies`, over the store and the ExchangeRateCache. */
module CurrencyService {
  import opened Wrappers
  import opened Codes
  import opened Errors
  import opened Tables
  import opened Upstream
  import opened State
  import opened Cache
  import opened Repositories

  /** `addCurrency`: upper-case once; ask the store whether the code exists
      and refuse a stored one before any fetch; fetch; save the currency, then
      its rows, then write the cache. Every failure leaves store and cache
      untouched. */
  function AddStep(v: View, answer: Code -> Answer, code: Code): (s: Step<()>)
    ensures s.view.queries == v.queries + [ExistsQuery(Upper(code))]
    ensures Upper(code) in v.currencies ==>
      s.result == Failure(AlreadyExists(Upper(code))) && s.view.calls == v.calls
    ensures s.result.Failure? ==>
      s.view.currencies == v.currencies && s.view.rows == v.rows && s.view.cache == v.cache
    ensures s.result.Success? ==>
      && Upper(code) !in v.currencies
      && answer(Upper(code)).Rates?
      && s.view.calls == v.calls + [Upper(code)]
      && s.view.currencies == v.currencies + [Upper(code)]
  {
    var up := Upper(code);
    var asked := v.(queries := v.queries + [ExistsQuery(up)]);
    if up in v.currencies then Step(asked, Failure(AlreadyExists(up)))
    else
      var called := asked.(calls := v.calls + [up]);
      match ClassifyFetch(up, answer(up))
      case Failure(e) => Step(called, Failure(e))
      case Success(t) =>
        Step(called.(currencies := v.currencies + [up],
                     rows := v.rows + RowsFor(up, t),
                     cache := v.cache[up := t]),
             Success(()))
  }

  /** `updateCacheFromDatabase`: each code in turn has its rows read and the
      rebuilt table written to the cache, up to the first rebuild that throws,
      which ends the warming with that exception. */
  function Warm(v: View, codes: seq<Code>): (s: Step<()>)
    ensures s.view.currencies == v.currencies && s.view.rows == v.rows && s.view.calls == v.calls
    ensures s.result.Failure? ==> s.result.error.OtherException?
    decreases |codes|
  {
    if codes == [] then Step(v, Success(()))
    else
      var looked := v.(queries := v.queries + [RowsQuery(codes[0])]);
      match BuildTable(RowsOf(v.rows, codes[0]))
      case Failure(e) => Step(looked, Failure(e))
      case Success(t) => Warm(looked.(cache := v.cache[codes[0] := t]), codes[1..])
  }

  /** A successful add, written out: the fetched table's rows follow the new
      currency, and the cache entry is that table. */
  lemma AddStepSuccess(v: View, answer: Code -> Answer, code: Code)
    requires AddStep(v, answer, code).result.Success?
    ensures var up := Upper(code);
      && answer(up).Rates?
      && AddStep(v, answer, code).view ==
           View(v.currencies + [up], v.rows + RowsFor(up, answer(up).table),
                v.cache[up := answer(up).table], v.calls + [up], v.queries + [ExistsQuery(up)])
  {
  }

  /** A stored code added again, in any letter case, is refused after the
      existence check alone, whatever the first add stored. */
  lemma AddTwiceRefused(v: View, answer: Code -> Answer, code: Code, again: Code)
    requires AddStep(v, answer, code).result.Success?
    requires EqualIgnoringCase(code, again)
    ensures var s := AddStep(v, answer, code).view;
      AddStep(s, answer, again) ==
        Step(s.(queries := s.queries + [ExistsQuery(Upper(code))]), Failure(AlreadyExists(Upper(code))))
  {
    UpperEqualIff(code, again);
  }

  /** Fetch failures as `addCurrency` surfaces them. */
  lemma AddFetchFailure(v: View, answer: Code -> Answer, code: Code)
    requires Upper(code) !in v.currencies && !answer(Upper(code)).Rates?
    ensures var s := AddStep(v, answer, code);
      && s.view == v.(calls := v.calls + [Upper(code)], queries := v.queries + [ExistsQuery(Upper(code))])
      && var a := answer(Upper(code));
         && (a.StatusError? && Is4xx(a.status) ==> s.result == Failure(NotFoundUpstream(Upper(code))))
         && (a.StatusError? && !Is4xx(a.status) ==> s.result == Failure(OtherException(ExternalServiceErrorMessage)))
         && (a.Thrown? ==> s.result == Failure(OtherException(a.message)))
  {
  }

  /** `addCurrency` keeps the store's constraints: the new code was absent and
      its rows all point at it. */
  lemma AddKeepsStore(v: View, answer: Code -> Answer, code: Code)
    requires StoreInvariant(v.currencies, v.rows)
    ensures var s := AddStep(v, answer, code).view;
      StoreInvariant(s.currencies, s.rows)
  {
  }

  /** `addCurrency` caches only the code it has just stored. */
  lemma AddKeepsCacheStored(v: View, answer: Code -> Answer, code: Code)
    requires CacheKeysStored(v)
    ensures CacheKeysStored(AddStep(v, answer, code).view)
  {
  }

  /** The induction behind WarmAllBuilt, in terms of the rebuilt tables. */
  lemma {:induction false} WarmBuilt(v: View, codes: seq<Code>)
    requires forall c :: c in codes ==> BuildTable(RowsOf(v.rows, c)).Success?
    ensures var w := Warm(v, codes).view;
      && Warm(v, codes).result.Success?
      && (forall k :: k in w.cache <==> k in v.cache || k in codes)
      && (forall c :: c in codes ==> w.cache[c] == BuildTable(RowsOf(v.rows, c)).value)
      && (forall k :: k in v.cache && k !in codes ==> w.cache[k] == v.cache[k])
    decreases |codes|
  {
    if codes != [] {
      var c0, rest := codes[0], codes[1..];
      var next := v.(queries := v.queries + [RowsQuery(c0)],
                     cache := v.cache[c0 := BuildTable(RowsOf(v.rows, c0)).value]);
      assert forall c :: c in rest ==> c in codes;
      WarmBuilt(next, rest);
    }
  }

  /** If every listed code's rows rebuild, every code gets the table rebuilt
      from its rows (possibly empty), and other entries stay as they were. */
  lemma WarmAllBuilt(v: View, codes: seq<Code>)
    requires forall c :: c in codes ==> DistinctTargets(RowsOf(v.rows, c))
    ensures var w := Warm(v, codes).view;
      && Warm(v, codes).result.Success?
      && (forall k :: k in w.cache <==> k in v.cache || k in codes)
      && (forall c :: c in codes ==> w.cache[c] == Project(RowsOf(v.rows, c)))
      && (forall k :: k in v.cache && k !in codes ==> w.cache[k] == v.cache[k])
  {
    forall c | c in codes
      ensures BuildTable(RowsOf(v.rows, c)).Success?
      ensures BuildTable(RowsOf(v.rows, c)).value == Project(RowsOf(v.rows, c))
    {
      BuildTableSpec(RowsOf(v.rows, c));
    }
    WarmBuilt(v, codes);
  }

  /** Warming throws only when some listed code has two rows with one target. */
  lemma {:induction false} WarmFailureIsDuplicate(v: View, codes: seq<Code>)
    requires Warm(v, codes).result.Failure?
    ensures exists c :: c in codes && !DistinctTargets(RowsOf(v.rows, c))
    decreases |codes|
  {
    BuildTableSpec(RowsOf(v.rows, codes[0]));
    if DistinctTargets(RowsOf(v.rows, codes[0])) {
      var t := BuildTable(RowsOf(v.rows, codes[0])).value;
      WarmFailureIsDuplicate(v.(queries := v.queries + [RowsQuery(codes[0])], cache := v.cache[codes[0] := t]), codes[1..]);
      var c :| c in codes[1..] && !DistinctTargets(RowsOf(v.rows, c));
      assert c in codes;
    } else {
      assert codes[0] in codes;
    }
  }

  /** Conversely, one listed code with two rows for one target makes warming
      throw, wherever it stands in the list. */
  lemma {:induction false} WarmFailsOnDuplicate(v: View, codes: seq<Code>, c: Code)
    requires c in codes && !DistinctTargets(RowsOf(v.rows, c))
    ensures Warm(v, codes).result.Failure?
    decreases |codes|
  {
    BuildTableSpec(RowsOf(v.rows, codes[0]));
    if codes[0] != c && DistinctTargets(RowsOf(v.rows, codes[0])) {
      assert c in codes[1..];
      var t := BuildTable(RowsOf(v.rows, codes[0])).value;
      WarmFailsOnDuplicate(v.(queries := v.queries + [RowsQuery(codes[0])], cache := v.cache[codes[0] := t]), codes[1..], c);
    }
  }

  /** The codes of a cache's key set, each once, in no particular order
      (`keySet().stream().toList()`). */
  method KeyList(m: map<Code, RateTable>) returns (codes: seq<Code>)
    ensures Distinct(codes)
    ensures forall c :: c in codes <==> c in m
  {
    codes := [];
    var rest := m.Keys;
    while rest != {}
      invariant rest <= m.Keys
      invariant Distinct(codes)
      invariant forall c :: c in codes <==> c in m && c !in rest
      decreases rest
    {
      var c :| c in rest;
      codes := codes + [c];
      rest := rest - {c};
    }
  }

  class CurrencyServiceImpl {
    const store: Store
    const client: ExchangeRatesClient
    const cache: ExchangeRateCache

    ghost predicate Valid()
      reads this, store, cache
    {
      store.Valid() && cache.Valid()
    }

    ghost function ViewOf(): View
      reads this, store, cache, client
    {
      View(store.currencies, store.rows, cache.cache, client.calls, store.queries)
    }

    constructor (store: Store, client: ExchangeRatesClient, cache: ExchangeRateCache)
      ensures this.store == store && this.client == client && this.cache == cache
    {
      this.store := store;
      this.client := client;
      this.cache := cache;
    }

    /** A non-empty cache answers with its keys, and the store is not read.
        Otherwise the store is listed: an empty store is "No currencies
        available."; else every stored code, in store order, after the cache
        was warmed from the store, unless the warming throws. */
    method GetAllCurrencies() returns (r: Result<seq<Code>, Error>)
      requires Valid()
      modifies cache, store`queries
      ensures Valid()
      ensures old(cache.cache) != map[] ==>
        && cache.cache == old(cache.cache) && store.queries == old(store.queries)
        && r.Success? && Distinct(r.value)
        && forall c :: c in r.value <==> c in old(cache.cache)
      ensures old(cache.cache) == map[] && store.currencies == [] ==>
        && cache.cache == old(cache.cache) && store.queries == old(store.queries) + [FindAllQuery]
        && r == Failure(NoCurrencies())
      ensures old(cache.cache) == map[] && store.currencies != [] ==>
        var w := Warm(old(ViewOf()).(queries := old(store.queries) + [FindAllQuery]), store.currencies);
        && ViewOf() == w.view
        && r == (if w.result.Failure? then Failure(w.result.error) else Success(store.currencies))
    {
      var empty := cache.IsEmpty();
      if !empty {
        var codes := GetCurrenciesFromCache();
        r := Success(codes);
        return;
      }
      var currencies := GetCurrenciesFromDatabase();
      if currencies.Failure? {
        r := currencies;
        return;
      }
      var failure := UpdateCacheFromDatabase(currencies.value);
      if failure.Some? {
        r := Failure(failure.value);
        return;
      }
      r := currencies;
    }

    method AddCurrency(currencyCode: Code) returns (r: Result<(), Error>)
      requires Valid()
      modifies client`calls, store, cache
      ensures Valid()
      ensures ViewOf() == AddStep(old(ViewOf()), client.answer, currencyCode).view
      ensures r == AddStep(old(ViewOf()), client.answer, currencyCode).result
    {
      var code := Upper(currencyCode);
      var exists_ := store.ExistsByCode(code);
      if exists_ {
        r := Failure(AlreadyExists(code));
        return;
      }
      var response := FetchExchangeRatesFromApi(code);
      if response.Failure? {
        r := Failure(response.error);
        return;
      }
      SaveCurrencyAndExchangeRates(code, response.value);
      cache.UpdateRates(code, response.value);
      r := Success(());
    }

    method GetCurrenciesFromCache() returns (codes: seq<Code>)
      ensures Distinct(codes)
      ensures forall c :: c in codes <==> c in cache.cache
    {
      var all := cache.GetAllRates();
      codes := KeyList(all);
    }

    method GetCurrenciesFromDatabase() returns (r: Result<seq<Code>, Error>)
      modifies store`queries
      ensures store.queries == old(store.queries) + [FindAllQuery]
      ensures r.Failure? <==> store.currencies == []
      ensures r.Failure? ==> r.error == NoCurrencies()
      ensures r.Success? ==> r.value == store.currencies
    {
      var currencies := store.FindAll();
      if currencies == [] {
        r := Failure(NoCurrencies());
      } else {
        r := Success(currencies);
      }
    }

    method UpdateCacheFromDatabase(currencies: seq<Code>) returns (failure: Option<Error>)
      requires Valid()
      modifies cache, store`queries
      ensures Valid()
      ensures ViewOf() == Warm(old(ViewOf()), currencies).view
      ensures failure.Some? <==> Warm(old(ViewOf()), currencies).result.Failure?
      ensures failure.Some? ==> failure.value == Warm(old(ViewOf()), currencies).result.error
    {
      var i := 0;
      while i < |currencies|
        invariant 0 <= i <= |currencies|
        invariant Valid()
        invariant Warm(ViewOf(), currencies[i..]) == Warm(old(ViewOf()), currencies)
      {
        var rows := store.FindByCurrency(currencies[i]);
        var rateMap := BuildTable(rows);
        if rateMap.Failure? {
          failure := Some(rateMap.error);
          return;
        }
        assert currencies[i..][1..] == currencies[i + 1..];
        cache.UpdateRates(currencies[i], rateMap.value);
        i := i + 1;
      }
      failure := None;
    }

    method FetchExchangeRatesFromApi(currencyCode: Code) returns (r: Result<RateTable, Error>)
      modifies client`calls
      ensures client.calls == old(client.calls) + [currencyCode]
      ensures r == ClassifyFetch(currencyCode, client.answer(currencyCode))
    {
      var answer := client.GetExchangeRates(currencyCode);
      r := ClassifyFetch(currencyCode, answer);
    }

    /** The currency is saved first, then one row per fetched entry. */
    method SaveCurrencyAndExchangeRates(currencyCode: Code, rates: RateTable)
      requires Valid() && currencyCode !in store.currencies
      modifies store
      ensures Valid()
      ensures store.currencies == old(store.currencies) + [currencyCode]
      ensures store.rows == old(store.rows) + RowsFor(currencyCode, rates)
      ensures store.queries == old(store.queries)
    {
      store.SaveCurrency(currencyCode);
      store.SaveAll(RowsFor(currencyCode, rates));
    }
  }
}
