/** CurrencyService: a cache-aside front for the central bank's daily rates
    document. The memory cache is a map from key to (value, absolute expiry),
    the clock is the parameter `now`, and the HTTP request together with the
    JSON decoding is an oracle `upstream` that says what the fetch would give. */
module Currency {
  import opened Domain

  /** One entry of the Valute dictionary. */
  datatype CurrencyRate = CurrencyRate(
    id: string,
    numCode: string,
    charCode: string,
    nominal: int,
    name: string,
    value: real,
    previous: real)

  /** The decoded document. A property missing from the JSON decodes as null. */
  datatype CbrResponse = CbrResponse(
    date: DateTime,
    previousDate: DateTime,
    previousUrl: Option<string>,
    timestamp: DateTime,
    valute: Option<map<string, CurrencyRate>>)

  /** The request plus decoding: a failure (a non-success status, a transport
      error or a body that is not the document), or the decoded document, which
      is null when the body is the JSON literal `null`. */
  datatype FetchOutcome = FetchFailed | Fetched(rates: Option<CbrResponse>)

  /** What the service stores: the whole document or one rate. */
  datatype CachedValue = RatesValue(rates: Option<CbrResponse>) | RateValue(rate: CurrencyRate)

  datatype CacheEntry = CacheEntry(value: CachedValue, expiresAt: int)

  type Cache = map<string, CacheEntry>

  const AllRatesKey := "currency_rates_all"
  const RateKeyPrefix := "currency_rate_"
  const DefaultCurrencyCode := "USD"
  /** `_cacheDuration`, five minutes, in ticks. */
  const CacheDuration := 5 * TicksPerMinute

  /** `$"currency_rate_{currencyCode}"` */
  function RateKey(code: string): string
  {
    RateKeyPrefix + code
  }

  function NotFoundMessage(code: string): string
  {
    "Currency code " + code + " not found"
  }

  /** The bulk key is never a per-code key, and distinct codes have distinct
      keys, so no entry is read back under a key it was not written for. */
  lemma KeysDisjoint(code: string, other: string)
    ensures RateKey(code) != AllRatesKey
    ensures RateKey(code) == RateKey(other) ==> code == other
  {
    assert RateKey(code)[13] == '_' && AllRatesKey[13] == 's';
    if RateKey(code) == RateKey(other) {
      assert code == RateKey(code)[|RateKeyPrefix|..];
      assert other == RateKey(other)[|RateKeyPrefix|..];
    }
  }

  /** IMemoryCache.TryGetValue: an entry counts while its absolute expiry lies
      strictly after now. */
  function Lookup(cache: Cache, key: string, now: DateTime): (r: Option<CachedValue>)
    ensures r.Some? <==> key in cache && now < cache[key].expiresAt
    ensures r.Some? ==> r.value == cache[key].value
  {
    if key in cache && now < cache[key].expiresAt then Some(cache[key].value) else None
  }

  /** The entry `Set(key, value, _cacheDuration)` writes at `now`. */
  function FreshEntry(value: CachedValue, now: DateTime): CacheEntry
  {
    CacheEntry(value, now + CacheDuration)
  }

  /** The result of one call, the cache after it and whether it fetched. */
  datatype Step<T> = Step(result: Result<T, Error>, cache: Cache, fetched: bool)

  /** GetAllCurrencyRatesAsync: a live bulk entry is returned as it is;
      otherwise one fetch, whose document is cached for five minutes and
      returned, or whose failure is passed on with the cache untouched. */
  function AllRatesStep(cache: Cache, now: DateTime, upstream: FetchOutcome): (r: Step<Option<CbrResponse>>)
    ensures !r.fetched ==> r.cache == cache
    ensures r.result.Failure? ==> r.fetched && r.result.error == UpstreamFailure && r.cache == cache
    ensures r.result.Success? ==> Lookup(r.cache, AllRatesKey, now) == Some(RatesValue(r.result.value))
    ensures forall key :: key != AllRatesKey ==> (key in r.cache <==> key in cache)
    ensures forall key :: key != AllRatesKey && key in cache ==> r.cache[key] == cache[key]
  {
    match Lookup(cache, AllRatesKey, now)
    case Some(RatesValue(rates)) => Step(Success(rates), cache, false)
    case _ =>
      match upstream
      case FetchFailed => Step(Failure(UpstreamFailure), cache, true)
      case Fetched(rates) => Step(Success(rates), cache[AllRatesKey := FreshEntry(RatesValue(rates), now)], true)
  }

  /** GetCurrencyRateAsync: a live per-code entry is returned as it is;
      otherwise the bulk document (cached or fetched) is searched for the code,
      and a rate found there is cached under its own key for five minutes. A
      null document or a null Valute fails on dereference. */
  function RateStep(cache: Cache, code: string, now: DateTime, upstream: FetchOutcome): (r: Step<CurrencyRate>)
    ensures r.result.Success? ==> Lookup(r.cache, RateKey(code), now) == Some(RateValue(r.result.value))
    ensures r.result.Failure? ==> forall key :: key != AllRatesKey ==> (key in r.cache <==> key in cache)
    ensures r.result.Failure? ==> forall key :: key != AllRatesKey && key in cache ==> r.cache[key] == cache[key]
  {
    match Lookup(cache, RateKey(code), now)
    case Some(RateValue(rate)) => Step(Success(rate), cache, false)
    case _ =>
      var all := AllRatesStep(cache, now, upstream);
      match all.result
      case Failure(e) => Step(Failure(e), all.cache, all.fetched)
      case Success(None) => Step(Failure(NullReference), all.cache, all.fetched)
      case Success(Some(doc)) =>
        match doc.valute
        case None => Step(Failure(NullReference), all.cache, all.fetched)
        case Some(valute) =>
          if code in valute then
            Step(Success(valute[code]), all.cache[RateKey(code) := FreshEntry(RateValue(valute[code]), now)], all.fetched)
          else
            Step(Failure(ArgumentError(NotFoundMessage(code))), all.cache, all.fetched)
  }

  /** The bulk key holds documents and every other key holds single rates. */
  ghost predicate WellTyped(cache: Cache)
  {
    forall key :: key in cache ==> (cache[key].value.RatesValue? <==> key == AllRatesKey)
  }

  /** Both operations keep the cache well typed. */
  lemma StepsKeepWellTyped(cache: Cache, code: string, now: DateTime, upstream: FetchOutcome)
    requires WellTyped(cache)
    ensures WellTyped(AllRatesStep(cache, now, upstream).cache)
    ensures WellTyped(RateStep(cache, code, now, upstream).cache)
  {
    KeysDisjoint(code, code);
  }

  /** GetAll fetches exactly when there is no live bulk entry, and a fetch that
      fails changes nothing in the cache. */
  lemma AllRatesFetchesOnMiss(cache: Cache, now: DateTime, upstream: FetchOutcome)
    requires WellTyped(cache)
    ensures AllRatesStep(cache, now, upstream).fetched <==> Lookup(cache, AllRatesKey, now).None?
    ensures Lookup(cache, AllRatesKey, now).Some? ==>
      && AllRatesStep(cache, now, upstream).result == Success(Lookup(cache, AllRatesKey, now).value.rates)
      && AllRatesStep(cache, now, upstream).cache == cache
    ensures upstream.FetchFailed? ==> AllRatesStep(cache, now, upstream).cache == cache
  {
  }

  /** A miss followed by a good fetch returns the fetched document and stores it
      under the bulk key, expiring five minutes after now, with every other
      entry left as it was. */
  lemma AllRatesMissStores(cache: Cache, now: DateTime, rates: Option<CbrResponse>)
    requires Lookup(cache, AllRatesKey, now).None?
    ensures var step := AllRatesStep(cache, now, Fetched(rates));
      && step.result == Success(rates)
      && step.fetched
      && step.cache.Keys == cache.Keys + {AllRatesKey}
      && step.cache[AllRatesKey] == CacheEntry(RatesValue(rates), now + CacheDuration)
      && forall key :: key in cache && key != AllRatesKey ==> step.cache[key] == cache[key]
  {
  }

  /** Two GetAll calls less than five minutes apart fetch once: the second is
      served from the entry the first one wrote. */
  lemma AllRatesSecondCallWithinTtl(cache: Cache, first: DateTime, second: DateTime,
                                    upstream: FetchOutcome, later: FetchOutcome)
    requires AllRatesStep(cache, first, upstream).fetched
    requires AllRatesStep(cache, first, upstream).result.Success?
    requires first <= second < first + CacheDuration
    ensures var one := AllRatesStep(cache, first, upstream);
      var two := AllRatesStep(one.cache, second, later);
      && !two.fetched
      && two.result == one.result
      && two.cache == one.cache
  {
  }

  /** Once an entry has expired, GetAll fetches again. */
  lemma AllRatesRefetchesAfterExpiry(cache: Cache, now: DateTime, upstream: FetchOutcome)
    requires AllRatesKey in cache && cache[AllRatesKey].expiresAt <= now
    ensures AllRatesStep(cache, now, upstream).fetched
  {
  }

  /** A live per-code entry is returned without fetching and without looking at
      the bulk entry, even when that one has expired. */
  lemma RateHitSkipsBulk(cache: Cache, code: string, now: DateTime, upstream: FetchOutcome, rate: CurrencyRate)
    requires Lookup(cache, RateKey(code), now) == Some(RateValue(rate))
    ensures RateStep(cache, code, now, upstream) == Step(Success(rate), cache, false)
  {
  }

  /** A per-code miss with the code in the document returns Valute[code] and
      caches it under its own key with its own five-minute expiry, whatever the
      bulk entry's expiry is; the bulk entry is the one GetAll left. */
  lemma RateMissStores(cache: Cache, code: string, now: DateTime, upstream: FetchOutcome, doc: CbrResponse)
    requires Lookup(cache, RateKey(code), now).None?
    requires AllRatesStep(cache, now, upstream).result == Success(Some(doc))
    requires doc.valute.Some? && code in doc.valute.value
    ensures var step := RateStep(cache, code, now, upstream);
      && step.result == Success(doc.valute.value[code])
      && step.cache[RateKey(code)] == CacheEntry(RateValue(doc.valute.value[code]), now + CacheDuration)
      && step.cache[AllRatesKey] == AllRatesStep(cache, now, upstream).cache[AllRatesKey]
      && step.fetched == AllRatesStep(cache, now, upstream).fetched
  {
    KeysDisjoint(code, code);
    assert AllRatesKey in AllRatesStep(cache, now, upstream).cache;
  }

  /** An unknown code fails with an argument error naming the code and leaves
      its per-code key as it was; the bulk entry may still have been written. */
  lemma UnknownCodeFails(cache: Cache, code: string, now: DateTime, upstream: FetchOutcome, doc: CbrResponse)
    requires Lookup(cache, RateKey(code), now).None?
    requires AllRatesStep(cache, now, upstream).result == Success(Some(doc))
    requires doc.valute.Some? && code !in doc.valute.value
    ensures var step := RateStep(cache, code, now, upstream);
      && step.result == Failure(ArgumentError("Currency code " + code + " not found"))
      && step.cache == AllRatesStep(cache, now, upstream).cache
      && (RateKey(code) in step.cache <==> RateKey(code) in cache)
      && (RateKey(code) in cache ==> step.cache[RateKey(code)] == cache[RateKey(code)])
  {
    KeysDisjoint(code, code);
  }

  /** Two GetRate calls for one code less than five minutes apart fetch at
      most once: the second is served from the per-code entry the first wrote. */
  lemma RateSecondCallWithinTtl(cache: Cache, code: string, first: DateTime, second: DateTime,
                                upstream: FetchOutcome, later: FetchOutcome)
    requires Lookup(cache, RateKey(code), first).None?
    requires RateStep(cache, code, first, upstream).result.Success?
    requires first <= second < first + CacheDuration
    ensures var one := RateStep(cache, code, first, upstream);
      var two := RateStep(one.cache, code, second, later);
      && !two.fetched
      && two.result == one.result
      && two.cache == one.cache
  {
    var all := AllRatesStep(cache, first, upstream);
    assert all.result.Success? && all.result.value.Some?;
    var doc := all.result.value.value;
    assert doc.valute.Some? && code in doc.valute.value;
    RateMissStores(cache, code, first, upstream, doc);
  }

  class CurrencyService {
    var cache: Cache
    /** How many times the service went to the upstream feed. */
    ghost var fetches: nat

    constructor ()
      ensures cache == map[] && fetches == 0
    {
      cache := map[];
      fetches := 0;
    }

    method GetAllCurrencyRates(now: DateTime, upstream: FetchOutcome) returns (r: Result<Option<CbrResponse>, Error>)
      modifies this
      ensures var step := AllRatesStep(old(cache), now, upstream);
        && r == step.result
        && cache == step.cache
        && fetches == old(fetches) + (if step.fetched then 1 else 0)
    {
      var cached := Lookup(cache, AllRatesKey, now);
      if cached.Some? && cached.value.RatesValue? {
        return Success(cached.value.rates);
      }
      fetches := fetches + 1;
      if upstream.FetchFailed? {
        return Failure(UpstreamFailure);
      }
      var rates := upstream.rates;
      cache := cache[AllRatesKey := FreshEntry(RatesValue(rates), now)];
      r := Success(rates);
    }

    method GetCurrencyRate(now: DateTime, upstream: FetchOutcome, code: string := DefaultCurrencyCode)
      returns (r: Result<CurrencyRate, Error>)
      modifies this
      ensures var step := RateStep(old(cache), code, now, upstream);
        && r == step.result
        && cache == step.cache
        && fetches == old(fetches) + (if step.fetched then 1 else 0)
    {
      var key := RateKey(code);
      var cached := Lookup(cache, key, now);
      if cached.Some? && cached.value.RateValue? {
        return Success(cached.value.rate);
      }
      var allRates := GetAllCurrencyRates(now, upstream);
      if allRates.Failure? {
        return Failure(allRates.error);
      }
      if allRates.value.None? || allRates.value.value.valute.None? {
        return Failure(NullReference);
      }
      var valute := allRates.value.value.valute.value;
      if code in valute {
        var rate := valute[code];
        cache := cache[key := FreshEntry(RateValue(rate), now)];
        return Success(rate);
      }
      r := Failure(ArgumentError(NotFoundMessage(code)));
    }
  }
}
