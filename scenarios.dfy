/** The behaviours the consumer's test suite checks, replayed against the model with explicit
    times (milliseconds from the first call). The collector callback fires at `fireAt`, a time
    the host timer does not fix exactly; each scenario names the firing times for which its
    expected results hold. */
module ConsumerScenarios {
  import opened ExpiryItems
  import opened Consumers

  /** A fresh consumer reports a mean of 0. */
  method FreshMeanIsZero() returns (mean: real)
    ensures mean == 0.0
  {
    var c := new Consumer();
    mean := c.Mean();
  }

  /** Accepting 3 gives a mean of 3. */
  method MeanOfSingleValue() returns (mean: real)
    ensures mean == 3.0
  {
    var c := new Consumer();
    c.Accept(3, 0);
    mean := c.Mean();
    MeanOfEqualValues(c.store, 3);
  }

  /** TTL 1000: three 10s read 100 ms later, before the collector can fire, give 10. */
  method TenBeforeCollector() returns (mean: real)
    ensures mean == 10.0
  {
    var c := new Consumer(1000);
    c.Accept(10, 0);
    c.Accept(10, 0);
    c.Accept(10, 0);
    mean := c.Mean();
    MeanOfEqualValues(c.store, 10);
  }

  /** Accepting 3, 6 and 9 gives a mean of 6. */
  method MeanOfThreeSixNine() returns (mean: real)
    ensures mean == 6.0
  {
    var c := new Consumer();
    c.Accept(3, 0);
    SumAppend([], ExpiryItem(3, DefaultTtl));
    c.Accept(6, 0);
    SumAppend([ExpiryItem(3, DefaultTtl)], ExpiryItem(6, DefaultTtl));
    c.Accept(9, 0);
    SumAppend([ExpiryItem(3, DefaultTtl), ExpiryItem(6, DefaultTtl)], ExpiryItem(9, DefaultTtl));
    assert Sum(c.store) == 18;
    mean := c.Mean();
  }

  /** A zero sum over a non-empty store gives exactly 0: accepting 5 and -5. */
  method ZeroSumMeanIsZero() returns (mean: real)
    ensures mean == 0.0
  {
    var c := new Consumer();
    c.Accept(5, 0);
    c.Accept(-5, 0);
    assert Sum(c.store) == 0;
    mean := c.Mean();
  }

  /** TTL 2000: 20 and 10 give 15; once the collector has run past their expiry, 0. */
  method FifteenThenZero(fireAt: int) returns (first: real, second: real)
    requires 2000 < fireAt <= 3000
    ensures first == 15.0 && second == 0.0
  {
    var c := new Consumer(2000);
    c.Accept(20, 0);
    c.Accept(10, 0);
    assert Sum(c.store) == 30;
    first := c.Mean();
    c.CollectorTick(fireAt);
    assert ExpiredPrefix(c.store, fireAt) == 0;
    second := c.Mean();
  }

  /** TTL 3000: 30 at time 0 and 20 at time 1000 give 25; after the collector has dropped the
      first item, 20. */
  method TwentyFiveThenTwenty(fireAt: int) returns (first: real, second: real)
    requires 3000 < fireAt <= 3500
    ensures first == 25.0 && second == 20.0
  {
    var c := new Consumer(3000);
    c.Accept(30, 0);
    c.Accept(20, 1000);
    assert Sum(c.store) == 50;
    first := c.Mean();
    c.CollectorTick(fireAt);
    assert c.store == [ExpiryItem(20, 4000)];
    second := c.Mean();
  }

  /** The strict expiry test: a collector firing exactly `ttl` after it was armed removes
      nothing, stops itself, and the memoised 25 is still reported later. */
  method TimerOnTheDot() returns (first: real, second: real)
    ensures first == 25.0 && second == 25.0
  {
    var c := new Consumer(3000);
    c.Accept(30, 0);
    c.Accept(20, 1000);
    assert Sum(c.store) == 50;
    first := c.Mean();
    c.CollectorTick(3000);
    assert c.store == [ExpiryItem(30, 3000), ExpiryItem(20, 4000)];
    second := c.Mean();
  }

  /** A sweep over two items that finds only the first expired keeps the second. */
  lemma SweepDropsHead(first: ExpiryItem, second: ExpiryItem, now: int)
    requires IsExpired(first, now) && !IsExpired(second, now)
    ensures Evict([first, second], now) == [second]
  {
    ExpiredPrefixUnique([first, second], now, 1);
  }

  /** Once the collector has stopped itself, nothing sweeps until the next accept: with TTL
      3000, 30 at time 0 and 20 at time 1000, a collector firing in (3000, 4000] drops only
      the first item, and at any later time the mean still reports 20 although that item has
      expired. */
  method StaleAfterCollectorStops(fireAt: int, later: int)
    returns (mean: real, ghost pending: bool, ghost oldest: ExpiryItem)
    requires 3000 < fireAt <= 4000 && later > 4000
    ensures mean == 20.0 && !pending
    ensures oldest == ExpiryItem(20, 4000) && IsExpired(oldest, later)
  {
    var c := new Consumer(3000);
    c.Accept(30, 0);
    c.Accept(20, 1000);
    assert c.store == [ExpiryItem(30, 3000), ExpiryItem(20, 4000)];
    SweepDropsHead(ExpiryItem(30, 3000), ExpiryItem(20, 4000), fireAt);
    c.CollectorTick(fireAt);
    MeanOfEqualValues(c.store, 20);
    mean := c.Mean();
    pending := c.gc.Some?;
    oldest := c.store[0];
  }

  /** TTL 3000: two reads of the mean with no change in between compute it once. */
  method CacheHit() returns (first: real, second: real, ghost recomputations: nat)
    ensures first == 2.0 && second == 2.0 && recomputations == 1
  {
    var c := new Consumer(3000);
    c.Accept(2, 0);
    first := c.Mean();
    second := c.Mean();
    recomputations := c.calculations;
  }

  /** TTL 3000: an accept between two reads forces a second computation. */
  method CacheMissAfterAccept() returns (first: real, second: real, ghost recomputations: nat)
    ensures first == 2.0 && second == 2.0 && recomputations == 2
  {
    var c := new Consumer(3000);
    c.Accept(2, 0);
    first := c.Mean();
    c.Accept(2, 1000);
    assert Sum(c.store) == 4;
    second := c.Mean();
    recomputations := c.calculations;
  }

  /** TTL 3000: 4 at time 0 and 4 at time 2000; the collector armed at time 0 evicts the first
      item, which forces a second computation. */
  method CacheMissAfterEviction(fireAt: int) returns (first: real, second: real, ghost recomputations: nat)
    requires 3000 < fireAt <= 4500
    ensures first == 4.0 && second == 4.0 && recomputations == 2
  {
    var c := new Consumer(3000);
    c.Accept(4, 0);
    c.Accept(4, 2000);
    assert c.store == [ExpiryItem(4, 3000), ExpiryItem(4, 5000)];
    MeanOfEqualValues(c.store, 4);
    first := c.Mean();
    SweepDropsHead(ExpiryItem(4, 3000), ExpiryItem(4, 5000), fireAt);
    c.CollectorTick(fireAt);
    MeanOfEqualValues(c.store, 4);
    second := c.Mean();
    recomputations := c.calculations;
  }

  /** Reading the mean twice with no accept or collector run in between gives the same value,
      and computes it at most once. */
  method MeanIsIdempotent(c: Consumer) returns (first: real, second: real)
    requires c.Valid()
    modifies c
    ensures first == second == Calculate(c.store)
    ensures c.store == old(c.store)
    ensures c.calculations <= old(c.calculations) + 1
  {
    first := c.Mean();
    second := c.Mean();
  }
}
