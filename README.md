# Currency exchange rates service, modelled in Dafny

The modelled application keeps a registry of currencies and the exchange
rates of each one against other currencies. It fetches rates from an upstream
HTTP rate provider and stores them in two repositories:
- currencies, each with a unique code;
- rate rows: base, target, rate.

It also keeps two independent in-memory caches:
- `ExchangeRateCache`, used by the currency registry;
- `ExchangeRateCacheService`, used by the rates service.

The model covers four parts:
- the two caches;
- `ExchangeRateServiceImpl`:
  - the read path `getExchangeRates`: cache, then store, never upstream;
  - the scheduled refresh of every stored currency;
  - its private helpers;
- `CurrencyServiceImpl`:
  - `getAllCurrencies`: cache keys, or store codes after warming the cache;
  - `addCurrency`;
  - its private helpers;
- `GlobalExceptionHandler`, which turns every exception into an HTTP status
  and a body.

How the model is built:
- The stateful parts are classes whose methods change fields: the caches, the
  store, the upstream client and the two service implementations.
- A `View` is a value holding the stored currencies, the stored rows, a
  service's cache, the trace of upstream requests and the trace of repository
  reads.
- The operations of `ExchangeRateServiceImpl`, `addCurrency` and the cache
  warming of `getAllCurrencies` are proved equal to specification functions
  over a `View`.
- The rest of `getAllCurrencies` and its smaller helpers are specified case by
  case by their own postconditions.
- The properties are proved as lemmas about those functions. Examples:
  - case-insensitive lookups;
  - a refresh isolates each currency's failure;
  - a read never calls upstream, and a cache hit does not read the store;
  - the rows written for a fetched table rebuild exactly that table;
  - an add of a stored code, in any letter case, is refused without a fetch;
  - the HTTP mapping of every failure.
- The model also proves a quirk of the code as written. The scheduled refresh
  appends new rows next to the old ones. Once a refresh brings back a target
  that a currency already had a row for, any rebuild of that currency from
  the store fails on the duplicate key. That rebuild happens on a cold read or
  on a cold listing, and the client gets a 500 with the generic body.

Files:
- `codes.dfy`: currency codes and ASCII upper-casing.
- `errors.dfy`: the exceptions the core throws, with their messages.
- `tables.dfy`: rate tables, stored rows, DTOs, and the `Collectors.toMap`
  rebuild.
- `upstream.dfy`: the client, and how a failed fetch is classified.
- `exception_handler.dfy`: `GlobalExceptionHandler`.
- `cache.dfy`, `cache_service.dfy`: the two caches.
- `state.dfy`, `repositories.dfy`: the store.
- `exchange_rate_service.dfy`, `currency_service.dfy`: the two services.
- `coherence.dfy`: how the two services interact over one store.

## Model

| member | source | states |
|---|---|---|
| Codes.Upper | src/main/java/com/example/currencyapp/service/impl/ExchangeRateServiceImpl.java:38 | upper-casing keeps the length and leaves no lower-case ASCII letter |
| Codes.UpperKeepsUpperCase | src/main/java/com/example/currencyapp/service/impl/CurrencyServiceImpl.java:48 | a code that is already upper case is left unchanged |
| Codes.UpperIdempotent | src/main/java/com/example/currencyapp/service/impl/CurrencyServiceImpl.java:48 | upper-casing twice is the same as once |
| Codes.UpperEqualIff | src/main/java/com/example/currencyapp/service/impl/ExchangeRateServiceImpl.java:38 | two codes upper-case to the same string exactly when they are equal up to ASCII letter case, in both directions |
| Errors.RatesNotFound | src/main/java/com/example/currencyapp/service/impl/ExchangeRateServiceImpl.java:90 | a CurrencyNotFoundException whose message names the code |
| Errors.NotFoundUpstream | src/main/java/com/example/currencyapp/service/impl/ExchangeRateServiceImpl.java:110 | a CurrencyNotFoundException whose message ends with the code |
| Errors.AlreadyExists | src/main/java/com/example/currencyapp/service/impl/CurrencyServiceImpl.java:51 | a CurrencyAlreadyExistsException whose message names the code |
| Errors.NoCurrencies | src/main/java/com/example/currencyapp/service/impl/CurrencyServiceImpl.java:72 | a CurrencyNotFoundException with the message "No currencies available." |
| Errors.DuplicateKey | src/main/java/com/example/currencyapp/service/impl/ExchangeRateServiceImpl.java:86 | the exception `toMap` throws on a repeated key: not one of the application's own exceptions, and its message ends with the key |
| Tables.RowsFor | src/main/java/com/example/currencyapp/service/impl/ExchangeRateServiceImpl.java:116-125 | the rows saved for a fetched table: all under the base currency, one per entry, carrying the table's entries in order, with no target twice |
| Tables.Dtos | src/main/java/com/example/currencyapp/service/impl/ExchangeRateServiceImpl.java:47-53 | one DTO per table entry, in entry order, each carrying the given base code and that entry's target and rate (the read path passes the upper-cased code) |
| Tables.RowsOf | src/main/java/com/example/currencyapp/repository/ExchangeRateRepository.java:12 | `findByCurrency` returns exactly the stored rows with that base, and no more rows than the store holds |
| Tables.RowsOfAppend | src/main/java/com/example/currencyapp/service/impl/ExchangeRateServiceImpl.java:101 | after an append, a currency's rows are its old rows followed by its appended rows |
| Tables.RowsOfAllBase | src/main/java/com/example/currencyapp/service/impl/ExchangeRateServiceImpl.java:116-125 | when every row has the given base, looking up that base returns all the rows |
| Tables.RowsOfOtherBase | src/main/java/com/example/currencyapp/repository/ExchangeRateRepository.java:12 | a base no row carries has no rows |
| Tables.AppendRepeatsTarget | src/main/java/com/example/currencyapp/service/impl/ExchangeRateServiceImpl.java:100-101 | appending a table's rows next to older rows of the same currency repeats a target as soon as the table has a code an older row already has |
| Tables.BuildTable | src/main/java/com/example/currencyapp/service/impl/ExchangeRateServiceImpl.java:85-86 | a failed rebuild throws the duplicate-key exception for a target that two rows share, named by the later of the two rows; the handler treats that exception as generic. A successful rebuild yields the rows' entries in row order |
| Tables.BuildTableSpec | src/main/java/com/example/currencyapp/service/impl/ExchangeRateServiceImpl.java:85-86 | the rebuild succeeds exactly when no two rows share a target, and then yields the rows' entries in row order |
| Tables.BuildTableOfRowsFor | src/main/java/com/example/currencyapp/service/impl/CurrencyServiceImpl.java:104-121 | round trip: the rows written for a fetched table rebuild exactly that table |
| Tables.BuildTableRejectsRepeatedTarget | src/main/java/com/example/currencyapp/service/impl/CurrencyServiceImpl.java:81-82 | two rows with the same target make the rebuild throw |
| Upstream.ClassifyFetch | src/main/java/com/example/currencyapp/service/impl/ExchangeRateServiceImpl.java:105-114 | an answered fetch passes the table through, and success holds exactly when the provider answered. A 4xx status becomes exactly "Currency not found in external service: X". Any other status becomes the generic "External service error." RuntimeException. Any other exception keeps its message |
| Upstream.Is4xx | src/main/java/com/example/currencyapp/service/impl/ExchangeRateServiceImpl.java:109 | a status is a client error exactly when its hundreds digit is 4 |
| Upstream.ExchangeRatesClient.constructor | src/main/java/com/example/currencyapp/client/ExchangeRatesClient.java:10-13 | a client over the given upstream, with no request made yet |
| Upstream.ExchangeRatesClient.GetExchangeRates | src/main/java/com/example/currencyapp/client/ExchangeRatesClient.java:11-12 | records one request for the base and returns upstream's answer for it |
| ExceptionHandler.Handle | src/main/java/com/example/currencyapp/controller/exception/GlobalExceptionHandler.java:13-31 | not found maps to 404, already exists to 400, and external-service or any other exception to 500, each in both directions. The message is the body except for exceptions only the catch-all handler takes, whose body is "An unexpected error occurred." |
| ExceptionHandler.FetchFailureResponse | src/main/java/com/example/currencyapp/service/impl/ExchangeRateServiceImpl.java:108-113 | a 4xx upstream failure reaches the client as a 404 naming the code; every other fetch failure reaches it as a 500 with the generic body |
| ExceptionHandler.ErrorResponses | src/main/java/com/example/currencyapp/controller/exception/GlobalExceptionHandler.java:13-31 | what the client gets for each exception the services build: the two not-found messages and "No currencies available." with 404, the duplicate add with 400, and a duplicate key as a 500 with the generic body |
| Cache.ReplayKeys | src/main/java/com/example/currencyapp/cache/ExchangeRateCache.java:19-22 | the cache's keys are exactly the base codes ever put |
| Cache.ReplayEmptyIff | src/main/java/com/example/currencyapp/cache/ExchangeRateCache.java:32-34 | the cache is empty exactly when no update has happened |
| Cache.ReplayLastPutWins | src/main/java/com/example/currencyapp/cache/ExchangeRateCache.java:19-22 | the last update of a key decides its table outright: the update replaces, it never merges |
| Cache.ReplayNeverPut | src/main/java/com/example/currencyapp/cache/ExchangeRateCache.java:15-17 | a key never updated has no entry |
| Cache.ExchangeRateCache.constructor | src/main/java/com/example/currencyapp/cache/ExchangeRateCache.java:13 | a new cache is empty with no update history |
| Cache.ExchangeRateCache.GetRatesForCurrency | src/main/java/com/example/currencyapp/cache/ExchangeRateCache.java:15-17 | returns the table stored for the key, and none (null in the source) when the key is absent |
| Cache.ExchangeRateCache.UpdateRates | src/main/java/com/example/currencyapp/cache/ExchangeRateCache.java:19-22 | replaces the key's whole table, leaves every other key alone, and extends the update history |
| Cache.ExchangeRateCache.HasRates | src/main/java/com/example/currencyapp/cache/ExchangeRateCache.java:24-26 | true exactly when the key is present |
| Cache.ExchangeRateCache.GetAllRates | src/main/java/com/example/currencyapp/cache/ExchangeRateCache.java:28-30 | the whole cache |
| Cache.ExchangeRateCache.IsEmpty | src/main/java/com/example/currencyapp/cache/ExchangeRateCache.java:32-34 | true exactly when no key is present, which holds exactly when no update ever happened |
| CacheService.ExchangeRateCacheService.constructor | src/main/java/com/example/currencyapp/service/ExchangeRateCacheService.java:13 | a new cache is empty with no update history |
| CacheService.ExchangeRateCacheService.GetRatesForCurrency | src/main/java/com/example/currencyapp/service/ExchangeRateCacheService.java:15-17 | returns the table stored for the key, and none when the key is absent |
| CacheService.ExchangeRateCacheService.UpdateRates | src/main/java/com/example/currencyapp/service/ExchangeRateCacheService.java:19-22 | replaces the key's whole table, leaves every other key alone, and extends the update history |
| CacheService.ExchangeRateCacheService.HasRates | src/main/java/com/example/currencyapp/service/ExchangeRateCacheService.java:24-26 | true exactly when the key is present |
| CacheService.ExchangeRateCacheService.GetAllRates | src/main/java/com/example/currencyapp/service/ExchangeRateCacheService.java:28-30 | the whole cache |
| Repositories.Store.constructor | src/main/java/com/example/currencyapp/entity/Currency.java:24-25 | a store that starts out satisfying the unique-code and foreign-key constraints, with no read made yet |
| Repositories.Store.Count | src/main/java/com/example/currencyapp/service/impl/ExchangeRateServiceImpl.java:60 | the number of stored currencies; the read is recorded |
| Repositories.Store.FindAll | src/main/java/com/example/currencyapp/service/impl/ExchangeRateServiceImpl.java:66 | the stored currencies, in store order; the read is recorded |
| Repositories.Store.ExistsByCode | src/main/java/com/example/currencyapp/repository/CurrencyRepository.java:11 | true exactly when the exact code is stored; the read is recorded |
| Repositories.Store.FindByCode | src/main/java/com/example/currencyapp/repository/CurrencyRepository.java:12 | finds the currency exactly when the code is stored; the read is recorded |
| Repositories.Store.FindByCurrency | src/main/java/com/example/currencyapp/repository/ExchangeRateRepository.java:12 | the stored rows of that base, in store order; the read is recorded |
| Repositories.Store.SaveCurrency | src/main/java/com/example/currencyapp/service/impl/CurrencyServiceImpl.java:105-109 | appends a code not yet stored, leaves the rows and the read record alone, and keeps the constraints |
| Repositories.Store.SaveAll | src/main/java/com/example/currencyapp/service/impl/ExchangeRateServiceImpl.java:101 | appends rows, never replacing any, for stored bases only, leaves currencies and the read record alone, and keeps the constraints |
| ExchangeRateService.RatesLoad | src/main/java/com/example/currencyapp/service/impl/ExchangeRateServiceImpl.java:80-91 | writes neither the store nor upstream, and the store is first asked for the code. A code the store lacks fails with "Rates for X not found." and leaves the cache alone. For a stored code the result is the rebuild of its rows; on success its cache entry becomes that table |
| ExchangeRateService.RatesRead | src/main/java/com/example/currencyapp/service/impl/ExchangeRateServiceImpl.java:37-54 | a read never writes the store and never calls upstream. It reads the store exactly when the cache misses. A failed read leaves the cache alone |
| ExchangeRateService.ApiUpdate | src/main/java/com/example/currencyapp/service/impl/ExchangeRateServiceImpl.java:93-103 | exactly one upstream request for the code. Old rows are kept as a prefix. A failed fetch changes nothing else. Success holds exactly when upstream answered with rates, and then the code is stored and cached |
| ExchangeRateService.RefreshAll | src/main/java/com/example/currencyapp/service/impl/ExchangeRateServiceImpl.java:68-77 | every listed code is requested once, in list order, whatever failed before it, and no stored row is ever removed |
| ExchangeRateService.ScheduledUpdate | src/main/java/com/example/currencyapp/service/impl/ExchangeRateServiceImpl.java:56-78 | a scheduled run requests every stored currency once, in store order, and removes no stored row. With no stored currency it only counts them |
| ExchangeRateService.RatesReadHit | src/main/java/com/example/currencyapp/service/impl/ExchangeRateServiceImpl.java:40-53 | a cache hit serves the cached table, whoever wrote it, as DTOs under the upper-cased code, and changes nothing: the store is not read |
| ExchangeRateService.RatesReadCaseInsensitive | src/main/java/com/example/currencyapp/service/impl/ExchangeRateServiceImpl.java:38 | codes equal up to letter case give the same result and the same new state |
| ExchangeRateService.RatesReadMissingCurrency | src/main/java/com/example/currencyapp/service/impl/ExchangeRateServiceImpl.java:90 | a cache miss on a code the store lacks fails with "Rates for X not found." after one lookup by code, and changes nothing else |
| ExchangeRateService.RatesReadFromStore | src/main/java/com/example/currencyapp/service/impl/ExchangeRateServiceImpl.java:40-46 | a cache miss on a stored code whose rows rebuild looks the code up, reads its rows, and caches and serves the rebuilt table |
| ExchangeRateService.RatesReadDuplicateRows | src/main/java/com/example/currencyapp/service/impl/ExchangeRateServiceImpl.java:84-86 | a cache miss on a stored code with two rows for one target throws the generic rebuild exception |
| ExchangeRateService.RatesReadIdempotent | src/main/java/com/example/currencyapp/service/impl/ExchangeRateServiceImpl.java:40-46 | after a successful read the code is cached, and reading again gives the same answer and changes nothing, not even the read record |
| ExchangeRateService.RatesReadKeepsCacheStored | src/main/java/com/example/currencyapp/service/impl/ExchangeRateServiceImpl.java:80-91 | a read caches only codes the store holds |
| ExchangeRateService.ApiUpdateKeepsCacheStored | src/main/java/com/example/currencyapp/service/impl/ExchangeRateServiceImpl.java:93-103 | an update from upstream stores the code it caches |
| ExchangeRateService.ApiUpdateEffect | src/main/java/com/example/currencyapp/service/impl/ExchangeRateServiceImpl.java:93-103 | one update affects only its own code, and only when upstream answers: the cache entry becomes the fetched table and the fetched rows follow the old ones |
| ExchangeRateService.RefreshUntouched | src/main/java/com/example/currencyapp/service/impl/ExchangeRateServiceImpl.java:68-77 | a code outside the refreshed list keeps its cache entry and its rows |
| ExchangeRateService.RefreshOutcome | src/main/java/com/example/currencyapp/service/impl/ExchangeRateServiceImpl.java:68-77 | per-currency isolation: a failed currency keeps its cache entry and rows; a successful one gets the fetched table cached and its new rows after the old ones |
| ExchangeRateService.RefreshKeepsStore | src/main/java/com/example/currencyapp/service/impl/ExchangeRateServiceImpl.java:95-101 | refreshing stored codes adds no currency and keeps the store's constraints |
| ExchangeRateService.RefreshKeepsCacheStored | src/main/java/com/example/currencyapp/service/impl/ExchangeRateServiceImpl.java:68-77 | a refresh loop keeps the rates cache on stored codes |
| ExchangeRateService.ScheduledKeepsStore | src/main/java/com/example/currencyapp/service/impl/ExchangeRateServiceImpl.java:56-78 | a scheduled run adds no currency, keeps the store's constraints and keeps the rates cache on stored codes |
| ExchangeRateService.ScheduledOutcome | src/main/java/com/example/currencyapp/service/impl/ExchangeRateServiceImpl.java:68-77 | per-currency isolation in a scheduled run: a failed currency keeps its cache entry and rows; a successful one gets the fetched table cached and its new rows after the old ones |
| ExchangeRateService.ExchangeRateServiceImpl.constructor | src/main/java/com/example/currencyapp/service/impl/ExchangeRateServiceImpl.java:31-34 | a service over the given client, store and cache |
| ExchangeRateService.ExchangeRateServiceImpl.GetExchangeRates | src/main/java/com/example/currencyapp/service/impl/ExchangeRateServiceImpl.java:37-54 | the result and the new state are those of `RatesRead` |
| ExchangeRateService.ExchangeRateServiceImpl.UpdateAllExchangeRates | src/main/java/com/example/currencyapp/service/impl/ExchangeRateServiceImpl.java:56-78 | the new state is that of `ScheduledUpdate` |
| ExchangeRateService.ExchangeRateServiceImpl.LoadRatesAndUpdateCache | src/main/java/com/example/currencyapp/service/impl/ExchangeRateServiceImpl.java:80-91 | the result and the new state are those of `RatesLoad`: not found for a code the store lacks, and otherwise the rebuild of its rows, cached on success |
| ExchangeRateService.ExchangeRateServiceImpl.UpdateRatesFromApi | src/main/java/com/example/currencyapp/service/impl/ExchangeRateServiceImpl.java:93-103 | the result and the new state are those of `ApiUpdate` |
| ExchangeRateService.ExchangeRateServiceImpl.FetchRatesFromApi | src/main/java/com/example/currencyapp/service/impl/ExchangeRateServiceImpl.java:105-114 | one upstream request, classified by `ClassifyFetch` |
| CurrencyService.AddStep | src/main/java/com/example/currencyapp/service/impl/CurrencyServiceImpl.java:47-59 | asks the store whether the code exists. A stored code is refused with "Currency with code X already exists." before any fetch. Every failure leaves store and cache alone. Success means the code was new and upstream answered; the code is then appended and exactly one request made |
| CurrencyService.Warm | src/main/java/com/example/currencyapp/service/impl/CurrencyServiceImpl.java:77-85 | warming writes neither the store nor upstream, and can fail only with the generic rebuild exception |
| CurrencyService.AddStepSuccess | src/main/java/com/example/currencyapp/service/impl/CurrencyServiceImpl.java:54-56 | a successful add stores the code, then its fetched rows, then caches the fetched table |
| CurrencyService.AddTwiceRefused | src/main/java/com/example/currencyapp/service/impl/CurrencyServiceImpl.java:50-52 | after a successful add, adding the same code in any letter case is refused after the existence check alone |
| CurrencyService.AddFetchFailure | src/main/java/com/example/currencyapp/service/impl/CurrencyServiceImpl.java:93-102 | a failed fetch during an add changes only the request trace and the read record. A 4xx is "Currency not found in external service: X". Other statuses are "External service error.". Other exceptions pass through |
| CurrencyService.AddKeepsStore | src/main/java/com/example/currencyapp/service/impl/CurrencyServiceImpl.java:104-121 | an add keeps the unique-code and foreign-key constraints |
| CurrencyService.AddKeepsCacheStored | src/main/java/com/example/currencyapp/service/impl/CurrencyServiceImpl.java:54-56 | an add caches only the code it has just stored |
| CurrencyService.WarmBuilt | src/main/java/com/example/currencyapp/service/impl/CurrencyServiceImpl.java:77-85 | when every rebuild succeeds, each listed code gets its rebuilt table and other entries stay |
| CurrencyService.WarmAllBuilt | src/main/java/com/example/currencyapp/service/impl/CurrencyServiceImpl.java:77-85 | when no currency has two rows for one target, warming succeeds. Each listed code gets its rows' entries, possibly none. Other entries stay and no other key appears |
| CurrencyService.WarmFailureIsDuplicate | src/main/java/com/example/currencyapp/service/impl/CurrencyServiceImpl.java:80-82 | warming throws only if some listed currency has two rows for one target |
| CurrencyService.WarmFailsOnDuplicate | src/main/java/com/example/currencyapp/service/impl/CurrencyServiceImpl.java:80-82 | one listed currency with two rows for one target makes warming throw, wherever it stands in the list |
| CurrencyService.KeyList | src/main/java/com/example/currencyapp/service/impl/CurrencyServiceImpl.java:63-65 | the cache's key set as a list: each key exactly once and nothing else |
| CurrencyService.CurrencyServiceImpl.constructor | src/main/java/com/example/currencyapp/service/impl/CurrencyServiceImpl.java:30-33 | a service over the given store, client and cache |
| CurrencyService.CurrencyServiceImpl.GetAllCurrencies | src/main/java/com/example/currencyapp/service/impl/CurrencyServiceImpl.java:36-44 | a non-empty cache is answered with exactly its keys, the cache is left as it was and the store is not read. Otherwise the store is listed: an empty store is "No currencies available.". Otherwise the stored codes are returned in store order after the cache is warmed, unless warming throws |
| CurrencyService.CurrencyServiceImpl.AddCurrency | src/main/java/com/example/currencyapp/service/impl/CurrencyServiceImpl.java:47-59 | the result and the new state are those of `AddStep` |
| CurrencyService.CurrencyServiceImpl.GetCurrenciesFromCache | src/main/java/com/example/currencyapp/service/impl/CurrencyServiceImpl.java:61-66 | each cached key exactly once |
| CurrencyService.CurrencyServiceImpl.GetCurrenciesFromDatabase | src/main/java/com/example/currencyapp/service/impl/CurrencyServiceImpl.java:68-75 | one `findAll` read; fails with "No currencies available." exactly when the store is empty, and otherwise returns the stored codes |
| CurrencyService.CurrencyServiceImpl.UpdateCacheFromDatabase | src/main/java/com/example/currencyapp/service/impl/CurrencyServiceImpl.java:77-85 | the new state and the thrown exception are those of `Warm` |
| CurrencyService.CurrencyServiceImpl.FetchExchangeRatesFromApi | src/main/java/com/example/currencyapp/service/impl/CurrencyServiceImpl.java:93-102 | one upstream request, classified by `ClassifyFetch` |
| CurrencyService.CurrencyServiceImpl.SaveCurrencyAndExchangeRates | src/main/java/com/example/currencyapp/service/impl/CurrencyServiceImpl.java:104-121 | saves the currency, then one row per fetched entry after the existing rows, makes no read, and keeps the constraints |
| Coherence.RowsOfNewCode | src/main/java/com/example/currencyapp/service/impl/CurrencyServiceImpl.java:104-121 | the rows stored under a newly added code are exactly the rows just written for it |
| Coherence.AddThenReadFromStore | src/main/java/com/example/currencyapp/service/impl/CurrencyServiceImpl.java:47-59 | the rates cache holds only stored codes, so after an add the next rates read misses its own cache. It then serves exactly the fetched table from the store and caches it |
| Coherence.AddAfterRestartHidesOthers | src/main/java/com/example/currencyapp/service/impl/CurrencyServiceImpl.java:36-38 | after a restart, one add leaves the registry cache holding the new code alone, so the cached listing hides every currency stored before |
| Coherence.RefreshRepeatsTarget | src/main/java/com/example/currencyapp/service/impl/ExchangeRateServiceImpl.java:93-103 | after a scheduled run, a currency whose old rows already had a target the new table also has holds two rows for that target |
| Coherence.RefreshThenColdReadFails | src/main/java/com/example/currencyapp/service/impl/ExchangeRateServiceImpl.java:80-91 | after such a run, a read of that currency with an empty cache fails, and the client sees a 500 with the generic body |
| Coherence.RefreshThenColdListingFails | src/main/java/com/example/currencyapp/service/impl/CurrencyServiceImpl.java:77-85 | after such a run, listing currencies with an empty cache throws |
| Coherence.EuroExample | src/main/java/com/example/currencyapp/service/impl/CurrencyServiceImpl.java:47-59 | in the empty store, "EUR" is not found. Adding "eur" with upstream quoting USD 1.08 and GBP 0.86 succeeds. A cold read of "EUR" then serves both rates |

## Left out

- Concurrency: both caches are `ConcurrentHashMap`s, and the scheduled refresh
  runs beside requests. The model runs every operation alone, to completion.
- Scheduling is out of scope: the `@Scheduled` trigger on
  `updateAllExchangeRates`, and the separate scheduler component
  (`scheduler/ExchangeRateScheduler.java`), which calls the same method and
  swallows its exceptions. The model covers one run of the refresh.
- The upstream HTTP call, made through Feign, is a parameter: a fixed answer
  per base code (rates, an HTTP status error, or another exception). It does
  not change within one operation. Timeouts, retries and the response's other
  fields are not modelled.
- JPA persistence is two in-memory sequences. Generated ids, timestamps and
  the cascade and orphan-removal settings are not modelled. A unique-code
  violation cannot arise from the sequential paths, so
  `Repositories.Store.SaveCurrency` requires the code to be absent.
- CurrencyService.AddStep and ExchangeRateService.ApiUpdate assume that
  repository calls never fail and that upstream's rates map is never null.
  `addCurrency` saves the currency before its rows, with no transaction, and
  `updateRatesFromApi` does the same. So the partial writes of the source are
  not modelled: a currency stored without rows or cache entry when `saveAll`
  throws or the rates map is null. Also not modelled: a store error passed on
  to the caller.
- Logging is not modelled. It has no effect on results.
- `BigDecimal` rates are reals. The core never computes with them.
- Codes.Upper: `toUpperCase` is modelled on ASCII letters only. Other
  characters are left unchanged; the JVM's locale-dependent rules are not
  modelled.
- Tables.BuildTable: the rebuilt table lists entries in row order, where
  Java's `HashMap` has its own order. The duplicate-key message is shortened to
  "Duplicate key X", because the handler replaces it with the generic body
  anyway.
- CurrencyService.KeyList: the key-set order is left unspecified, as in Java.
  Only the set of keys listed is stated.
- Cache.ExchangeRateCache.GetAllRates: returns a copy of the map, where the
  source hands out the live map. Aliasing through that map is not modelled.
- `mapCurrenciesToDto` and `CurrencyDto` are represented by the codes
  themselves, because a `CurrencyDto` carries only its code.
- `ExternalServiceException` has a handler but no modelled operation throws
  it. Upstream failures surface as a `RuntimeException`, which the catch-all
  handler maps to the generic body.
- The controller layer and request validation are not part of this model.
