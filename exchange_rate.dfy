/**
 * The JPY to USD exchange-rate cache of lib/arbitrage.ts: a module-level
 * `{rate, timestamp}` record, or nothing, refreshed from the rate service
 * once it is 24 hours old. The two clock readings and the outcome of the
 * one network request are parameters.
 */
module ExchangeRate {
  import opened Wrappers

  /** The cache lifetime: 24 hours in milliseconds. */
  const CacheDurationMs: int := 24 * 60 * 60 * 1000

  /** The rate returned whenever a refresh fails. */
  const FallbackRate: real := 0.0067

  datatype CachedRate = CachedRate(rate: real, timestamp: int)

  /**
   * What the request to the rate service yields: a network or JSON error,
   * or a response whose `rates.USD` is present (Some) or missing (None).
   */
  datatype FetchOutcome = FetchError | Response(usd: Option<real>)

  /** The cache answers without a request: it exists and is younger than 24 hours. */
  predicate IsFresh(cache: Option<CachedRate>, now: int)
  {
    cache.Some? && now - cache.value.timestamp < CacheDurationMs
  }

  /** `data.rates && data.rates.USD` is truthy: a rate is present and non-zero. */
  predicate Usable(outcome: FetchOutcome)
  {
    outcome.Response? && outcome.usd.Some? && outcome.usd.value != 0.0
  }

  class ExchangeRateCache {
    var cache: Option<CachedRate>

    /** The process starts with no cached rate. */
    constructor ()
      ensures cache == None
    {
      cache := None;
    }

    /**
     * `getExchangeRate()` entered at time `now`. `fetched` says whether the
     * request was made; `outcome` is what it would return and is ignored
     * otherwise. `stamp` is the second clock reading, taken once the response
     * has arrived, and is what a stored rate is timestamped with, so the
     * 24-hour window starts when the response arrives. A failed refresh
     * returns the fallback rate even when a stale rate is cached, and leaves
     * that stale rate in place.
     */
    method GetExchangeRate(now: int, stamp: int, outcome: FetchOutcome) returns (rate: real, fetched: bool)
      requires now <= stamp
      modifies this
      ensures fetched == !IsFresh(old(cache), now)
      ensures IsFresh(old(cache), now) ==> rate == old(cache).value.rate && cache == old(cache)
      ensures !IsFresh(old(cache), now) && Usable(outcome) ==>
        rate == outcome.usd.value && cache == Some(CachedRate(outcome.usd.value, stamp))
      ensures !IsFresh(old(cache), now) && !Usable(outcome) ==>
        rate == FallbackRate && cache == old(cache)
    {
      if cache.Some? && now - cache.value.timestamp < CacheDurationMs {
        return cache.value.rate, false;
      }
      fetched := true;
      if outcome.Response? && outcome.usd.Some? && outcome.usd.value != 0.0 {
        var r := outcome.usd.value;
        cache := Some(CachedRate(r, stamp));
        return r, fetched;
      }
      rate := FallbackRate;
    }
  }

  /**
   * A refresh entered at `t0` whose response arrives at `s0`. Calls less than
   * 24 hours after `s0` return the refreshed rate without a request, even one
   * made 24 hours after `t0` when the response was late. A call made 24 hours
   * after `s0` or later makes exactly one request.
   */
  method CacheWindowScenario(t0: int, s0: int, dt: int, usd: real, later: FetchOutcome, after: FetchOutcome)
    requires usd != 0.0 && t0 <= s0 && 0 <= dt < CacheDurationMs
  {
    var c := new ExchangeRateCache();
    var r0, f0 := c.GetExchangeRate(t0, s0, Response(Some(usd)));
    assert f0 && r0 == usd;
    var r1, f1 := c.GetExchangeRate(s0 + dt, s0 + dt, later);
    assert !f1 && r1 == usd;
    if t0 < s0 {
      var r3, f3 := c.GetExchangeRate(t0 + CacheDurationMs, t0 + CacheDurationMs, later);
      assert !f3 && r3 == usd;
    }
    var r2, f2 := c.GetExchangeRate(s0 + CacheDurationMs, s0 + CacheDurationMs, after);
    assert f2;
    assert r2 == if Usable(after) then after.usd.value else FallbackRate;
  }

  /** A failed refresh of a stale cache yields 0.0067, not the stale rate, and keeps the stale entry. */
  method StaleFailureScenario(t0: int, usd: real)
    requires usd != 0.0 && usd != FallbackRate
  {
    var c := new ExchangeRateCache();
    var r0, _ := c.GetExchangeRate(t0, t0, Response(Some(usd)));
    var r1, f1 := c.GetExchangeRate(t0 + CacheDurationMs, t0 + CacheDurationMs, FetchError);
    assert f1 && r1 == FallbackRate && r1 != r0;
    assert c.cache == Some(CachedRate(usd, t0));
  }
}
