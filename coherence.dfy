/** How the two services and the two caches fit together over one store:
    what a read sees after an add, and after a scheduled refresh once the
    caches are lost (a restart). */
module Coherence {
  import opened Wrappers
  import opened Codes
  import opened Errors
  import opened Tables
  import opened Upstream
  import opened State
  import opened ExchangeRateService
  import opened CurrencyService
  import opened ExceptionHandler

  /** The rows stored under a code that was new to the store are exactly the
      rows just written for it. */
  lemma RowsOfNewCode(v: View, up: Code, t: RateTable)
    requires StoreInvariant(v.currencies, v.rows) && up !in v.currencies
    ensures RowsOf(v.rows + RowsFor(up, t), up) == RowsFor(up, t)
  {
    RowsOfOtherBase(v.rows, up);
    RowsOfAppend(v.rows, RowsFor(up, t), up);
    RowsOfAllBase(RowsFor(up, t), up);
  }

  /** `addCurrency` warms only the registry's cache, so the next rates read
      misses its own cache and goes to the store, where it finds exactly the
      fetched table: the rows written for it rebuild it entry for entry. The
      rates cache holds only stored codes, so it cannot hold the new one; this
      also covers an empty rates cache, i.e. a restart. */
  lemma AddThenReadFromStore(v: View, ratesCache: map<Code, RateTable>, answer: Code -> Answer, code: Code)
    requires StoreInvariant(v.currencies, v.rows)
    requires AddStep(v, answer, code).result.Success?
    requires CacheKeysStored(View(v.currencies, v.rows, ratesCache, v.calls, v.queries))
    ensures var up := Upper(code);
      var t := answer(up).table;
      var added := AddStep(v, answer, code).view;
      var read := RatesRead(View(added.currencies, added.rows, ratesCache, added.calls, added.queries), code);
      && added.cache == v.cache[up := t]
      && read.result == Success(Dtos(up, t))
      && read.view == View(added.currencies, added.rows, ratesCache[up := t], added.calls,
                           added.queries + [CodeQuery(up), RowsQuery(up)])
  {
    var up := Upper(code);
    var t := answer(up).table;
    AddStepSuccess(v, answer, code);
    var added := AddStep(v, answer, code).view;
    assert up !in ratesCache;
    RowsOfNewCode(v, up, t);
    BuildTableOfRowsFor(up, t);
    RatesReadFromStore(View(added.currencies, added.rows, ratesCache, added.calls, added.queries), code, t);
  }

  /** After a restart the registry's cache is empty; one `addCurrency` then
      fills it with the new code alone, so `getAllCurrencies` answers from the
      cache with that code and hides every currency stored before. */
  lemma AddAfterRestartHidesOthers(v: View, answer: Code -> Answer, code: Code)
    requires v.cache == map[]
    requires AddStep(v, answer, code).result.Success?
    ensures AddStep(v, answer, code).view.cache.Keys == {Upper(code)}
    ensures forall c :: c in v.currencies ==> c !in AddStep(v, answer, code).view.cache
  {
    AddStepSuccess(v, answer, code);
  }

  /** After a scheduled run, a currency whose old rows already held a target
      that its new table also has ends up with two rows for that target. */
  lemma RefreshRepeatsTarget(v: View, answer: Code -> Answer, c: Code, x: Code)
    requires StoreInvariant(v.currencies, v.rows)
    requires answer(c).Rates? && HasCode(answer(c).table, x)
    requires exists r :: r in RowsOf(v.rows, c) && r.target == x
    ensures var w := ScheduledUpdate(v, answer);
      && w.currencies == v.currencies && c in w.currencies
      && !DistinctTargets(RowsOf(w.rows, c))
  {
    var r :| r in RowsOf(v.rows, c) && r.target == x;
    assert c in v.currencies;
    RefreshKeepsStore(v.(queries := v.queries + [CountQuery, FindAllQuery]), answer, v.currencies);
    ScheduledOutcome(v, answer, c);
    AppendRepeatsTarget(RowsOf(v.rows, c), c, answer(c).table, x);
  }

  /** A scheduled run appends a currency's new rows beside its old ones. Once
      a successful refresh has fetched a target the currency already had a row
      for, a read that misses the cache (after a restart, say) throws on the
      duplicate key, and the client sees a 500 with the generic body. */
  lemma RefreshThenColdReadFails(v: View, answer: Code -> Answer, c: Code, x: Code)
    requires StoreInvariant(v.currencies, v.rows)
    requires IsUpperCase(c)
    requires answer(c).Rates? && HasCode(answer(c).table, x)
    requires exists r :: r in RowsOf(v.rows, c) && r.target == x
    ensures var w := ScheduledUpdate(v, answer);
      var read := RatesRead(View(w.currencies, w.rows, map[], w.calls, w.queries), c);
      && read.result.Failure?
      && Handle(read.result.error) == Response(InternalServerError, GenericBody)
  {
    var w := ScheduledUpdate(v, answer);
    RefreshRepeatsTarget(v, answer, c, x);
    UpperKeepsUpperCase(c);
    RatesReadDuplicateRows(View(w.currencies, w.rows, map[], w.calls, w.queries), c);
  }

  /** The same store makes `getAllCurrencies` throw once the registry's cache
      is empty. */
  lemma RefreshThenColdListingFails(v: View, answer: Code -> Answer, c: Code, x: Code)
    requires StoreInvariant(v.currencies, v.rows)
    requires answer(c).Rates? && HasCode(answer(c).table, x)
    requires exists r :: r in RowsOf(v.rows, c) && r.target == x
    ensures var w := ScheduledUpdate(v, answer);
      Warm(View(w.currencies, w.rows, map[], w.calls, w.queries), w.currencies).result.Failure?
  {
    var w := ScheduledUpdate(v, answer);
    RefreshRepeatsTarget(v, answer, c, x);
    WarmFailsOnDuplicate(View(w.currencies, w.rows, map[], w.calls, w.queries), w.currencies, c);
  }

  /** The worked example: with an empty store a read of "EUR" is not found;
      adding "eur" while upstream quotes USD 1.08 and GBP 0.86 succeeds; the
      read of "EUR" then serves both rates from the store. */
  lemma EuroExample(answer: Code -> Answer)
    requires answer("EUR") == Rates([Entry("USD", 1.08), Entry("GBP", 0.86)])
    ensures var empty := View([], [], map[], [], []);
      && RatesRead(empty, "EUR").result == Failure(RatesNotFound("EUR"))
      && var added := AddStep(empty, answer, "eur");
         && added.result == Success(())
         && RatesRead(View(added.view.currencies, added.view.rows, map[], added.view.calls, added.view.queries), "EUR").result
              == Success([RateDto("EUR", "USD", 1.08), RateDto("EUR", "GBP", 0.86)])
  {
    var empty := View([], [], map[], [], []);
    var t := answer("EUR").table;
    assert Upper("eur") == "EUR";
    UpperKeepsUpperCase("EUR");
    RatesReadMissingCurrency(empty, "EUR");
    var added := AddStep(empty, answer, "eur");
    AddStepSuccess(empty, answer, "eur");
    AddThenReadFromStore(empty, map[], answer, "eur");
    var cold := View(added.view.currencies, added.view.rows, map[], added.view.calls, added.view.queries);
    assert EqualIgnoringCase("eur", "EUR") by {
      UpperEqualIff("eur", "EUR");
    }
    RatesReadCaseInsensitive(cold, "eur", "EUR");
    assert Dtos("EUR", t) == [RateDto("EUR", "USD", 1.08), RateDto("EUR", "GBP", 0.86)];
  }
}
