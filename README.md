# Expiring-window mean consumer, modelled in Dafny

This project models `Consumer` from `consumer.js`. It keeps a running mean over integers that
each expire a fixed time-to-live (TTL) after they are accepted. The consumer keeps:

- a store of `ExpiryItem`s (a value and an absolute expiry time), oldest first;
- a memoised mean, where JavaScript's `null` means "invalid";
- a garbage-collector timer. The timer is armed on `accept`. It fires once, sweeps the expired
  prefix of the store, and then cancels itself.

Time is explicit in the model. Readings of `new Date().getTime()` become a `now: int`
argument, so an item accepted at `now` expires at `now + ttl`. A sweep reads the clock once
per item it tests; the model gives the whole sweep one `now` (see "## Left out"). The timer
handle `gc` becomes `Option<int>`. `None` stands for `null`. `Some(t)` means a collector was
armed at time `t` with a delay of `ttl`. The timer's callback is the method `CollectorTick(now)`. It may run at
any time while a collector is pending: the host timer fixes no exact firing time (Node.js, for
one, runs a delay above 2147483647 ms after 1 ms instead).
The sinon spy that the tests put on `calculate` becomes the ghost counter `calculations`.

Files:

- `expiry_item.dfy` (module `ExpiryItems`) holds the item datatype and the strict `IsExpired`
  test. It defines the prefix the collector removes (`ExpiredPrefix`, `Evict`) and a reference
  definition of the live window (`LiveItems`). The eviction lemmas are here too.
- `consumer.dfy` (module `Consumers`) holds `Sum` and `Calculate`, lemmas about the mean, and
  the `Consumer` class. `Valid()` states that a valid memoised mean equals `Calculate` of the
  store. `OrderedAt(now)` states that the store is sorted by expiry and that no item expires
  after `now + ttl`.
- `scenarios.dfy` (module `ConsumerScenarios`) replays the cases of the test suite `index.js`
  with explicit times. Where a collector fires, the scenario names the firing times for which
  the expected results hold.

Points of the code that the model keeps as they are:

- Eviction is strict: `isExpired` tests `now > expiry` (consumer.js:152), so an item whose
  expiry equals `now` stays. The scenario `TimerOnTheDot` shows the effect. A collector firing
  exactly `ttl` after it was armed removes nothing and cancels itself, and the stale mean is
  then still reported. Three tests of index.js expect a result that holds only when the
  collector fires at least 1 ms after the expiry it is meant to catch: "should return 15 then
  0" (index.js:46-54), "should return 25 then 30", which asserts 20 (index.js:56-65), and
  "should return 4 with cache miss" (index.js:92-103). The matching scenarios require `fireAt`
  to be strictly after that expiry.
- The collector stops itself after one sweep and is armed again only by `accept`
  (consumer.js:43, 119-122). So once it has stopped, the mean can include items that expired
  arbitrarily long ago, although the doc comment of `mean` (consumer.js:47) speaks of the
  integers consumed in the last period. The scenario `StaleAfterCollectorStops` shows it: with
  TTL 3000, 30 at time 0 and 20 at time 1000, a sweep in (3000, 4000] drops only the first
  item, and at any later time the mean is still 20 with no collector pending.
- `calculate` recomputes the sum with `reduce` on every cache miss (consumer.js:73); no running
  sum is kept.
- The cache is a validity flag: `_mean` is set to `null` on a change (consumer.js:42, 104) and
  refilled on the next `mean()`.
- index.js calls `c.dispose()`, which consumer.js does not define. `StopGarbageCollector` is
  the only cleanup operation modelled.

## Model

| member | source | states |
|---|---|---|
| ExpiryItems.IsExpired | consumer.js:151-153 | an item is expired exactly when `now` is strictly past its expiry |
| ExpiryItems.Evict | consumer.js:100-102 | what the sweep keeps is a suffix of the store in order, every removed item was expired, and the first kept item, if any, is live |
| ExpiryItems.ExpiredPrefix | consumer.js:83-98 | the collector's counter is the length of the longest prefix of expired items: every item before it is expired and the item at it, if any, is live |
| ExpiryItems.ExpiredPrefixUnique | consumer.js:86-98 | any prefix length that is all expired and stops at a live item or the end is the one the loop finds, so the loop's `break` stops at exactly the right place |
| ExpiryItems.SweepWithMovingClock | consumer.js:89-98 | when the clock read by each `isExpired` test never goes backwards, the number of items the loop removes equals the expired prefix at the time of its last read |
| ExpiryItems.EvictChangesIffExpiredPrefix | consumer.js:101-105 | the store changes exactly when the expired prefix is non-empty (the `i > 0` test) |
| ExpiryItems.EvictLeavesNoExpired | consumer.js:92-95 | on a store sorted by expiry, no expired item remains after a sweep, which justifies stopping at the first live item |
| ExpiryItems.EvictKeepsSorted | consumer.js:100-102 | removing the prefix keeps the store sorted by expiry |
| ExpiryItems.EvictKeepsExpireBy | consumer.js:100-102 | removing the prefix keeps every remaining expiry within the same deadline |
| ExpiryItems.AppendKeepsSorted | consumer.js:40 | appending an item that expires no earlier than the stored ones keeps the store sorted |
| ExpiryItems.EvictStep | consumer.js:89-97 | dropping an expired head is one step of the sweep |
| ExpiryItems.LiveItemsOfLive | consumer.js:148-153 | when no item is expired, the live window is the whole store |
| ExpiryItems.EvictMatchesLiveItems | consumer.js:92-95 | on a sorted store, what the sweep keeps equals the independently defined set of live items, in order |
| ExpiryItems.EvictTwice | consumer.js:83-105 | a sweep at an earlier time followed by one at a later time keeps exactly what one sweep at the later time keeps; with equal times, sweeping is idempotent |
| Consumers.Sum | consumer.js:73 | the left fold of the values, starting from 0 |
| Consumers.Consumer.Valid | consumer.js:22-24 | the memoised mean, when it is not null, equals the mean of the current store |
| Consumers.Calculate | consumer.js:66-80 | the mean times the number of items equals the sum, and the mean is 0 exactly when the sum is 0 (so an empty store and a zero sum both give 0) |
| Consumers.SumAppend | consumer.js:73 | accepting an item adds exactly its value to the folded sum |
| Consumers.SumSplit | consumer.js:73 | the sum splits between any prefix and the matching suffix |
| Consumers.EvictedSum | consumer.js:100-104 | after a sweep the sum loses exactly the values of the removed prefix |
| Consumers.SumOfEqualValues | consumer.js:73 | a store of n equal values v sums to n * v |
| Consumers.MeanOfEqualValues | consumer.js:66-80 | the mean of a non-empty store of equal values is that value |
| Consumers.SumWithinBounds | consumer.js:73 | if every value lies in [lo, hi], the sum lies in [n * lo, n * hi] |
| Consumers.MeanWithinBounds | consumer.js:79 | the mean of a non-empty store lies between the smallest and largest value |
| Consumers.Consumer.OrderedLater | consumer.js:145 | if the store is ordered at one time, it is ordered at any later time, which carries the order across calls when the clock never goes backwards |
| Consumers.Consumer.constructor | consumer.js:1-32 | a new consumer has the given TTL (five minutes by default), an empty store, no collector and a valid memoised mean of 0 |
| Consumers.Consumer.Accept | consumer.js:39-44 | appends exactly one item (value, now + ttl) and leaves the earlier items unchanged; invalidates the memoised mean; keeps a pending collector as it is or arms one at now; keeps the store ordered |
| Consumers.Consumer.Mean | consumer.js:50-60 | returns the mean of the unchanged store and leaves it memoised; on a valid cache it returns the cached value without recomputing; on an invalid one it computes the mean once |
| Consumers.Consumer.ExecuteGarbageCollector | consumer.js:83-106 | the store becomes the suffix after the expired prefix; the memoised mean is invalidated if and only if something was removed, and is otherwise left as it was; on an ordered store no expired item remains |
| Consumers.Consumer.StartGarbageCollector | consumer.js:112-123 | arms the collector at now only if none is pending; a pending one is left untouched |
| Consumers.Consumer.StopGarbageCollector | consumer.js:128-137 | afterwards no collector is pending, whatever the state before (idempotent) |
| Consumers.Consumer.CollectorTick | consumer.js:119-122 | the timer callback sweeps once with the sweep's guarantees and then leaves no collector pending |
| ConsumerScenarios.FreshMeanIsZero | index.js:14-18 | a fresh consumer's mean is 0 |
| ConsumerScenarios.MeanOfSingleValue | index.js:20-25 | accepting 3 gives a mean of 3 |
| ConsumerScenarios.TenBeforeCollector | index.js:36-44 | with TTL 1000, three 10s read before the collector can fire give 10 |
| ConsumerScenarios.MeanOfThreeSixNine | index.js:27-34 | accepting 3, 6 and 9 gives a mean of 6 |
| ConsumerScenarios.ZeroSumMeanIsZero | consumer.js:72-76 | accepting 5 and -5 gives exactly 0 |
| ConsumerScenarios.FifteenThenZero | index.js:46-54 | with TTL 2000, 20 and 10 give 15, and 0 after a collector run past their expiry |
| ConsumerScenarios.TwentyFiveThenTwenty | index.js:56-65 | with TTL 3000, 30 at 0 and 20 at 1000 give 25, and 20 after the collector drops the first item |
| ConsumerScenarios.TimerOnTheDot | consumer.js:152 | a collector firing exactly TTL after it was armed removes nothing, so the mean stays 25 |
| ConsumerScenarios.StaleAfterCollectorStops | consumer.js:119-122 | after a sweep that keeps a live item the collector is no longer pending, and the mean still reports 20 at a time when that item has expired |
| ConsumerScenarios.CacheHit | index.js:67-77 | two reads with no change in between give 2 and compute the mean once |
| ConsumerScenarios.CacheMissAfterAccept | index.js:79-90 | an accept between two reads forces a second computation |
| ConsumerScenarios.CacheMissAfterEviction | index.js:92-103 | an eviction between two reads forces a second computation, and both reads give 4 |
| ConsumerScenarios.MeanIsIdempotent | consumer.js:50-60 | two reads of the mean on any valid consumer return the same value and compute it at most once |

## Left out

- Timer mechanics (`setInterval`, `clearInterval`, callback dispatch) are not modelled. They are
  replaced by the `gc` field and the explicit step `CollectorTick(now)`, which the caller
  invokes at any time while a collector is pending. The delay `ttl` is recorded only through
  the arming time in `gc`; the model does not say when the callback runs.
- Wall-clock reads are not modelled. Each becomes a `now` argument. Outside a sweep, clock
  monotonicity is not assumed; ordering is stated as a property that holds whenever the clock
  does not go backwards (`OrderedAt`, `OrderedLater`).
- Consumers.Consumer.ExecuteGarbageCollector: every `isExpired` test of one sweep uses the same
  `now`, whereas the source reads the clock afresh for each item (consumer.js:93, 152). The
  model therefore assumes the clock does not move during a sweep. With a clock that may go
  backwards the results can differ (expiries 10 then 5 read at 11 then 4 remove one item in the
  source, which no single `now` reproduces); for a clock that never goes backwards,
  `SweepWithMovingClock` proves that the source's sweep removes exactly the expired prefix at
  the time of its last read.
- The IEEE double division in `calculate` is not modelled. The mean is a Dafny `real`, and
  values and sums are unbounded integers, as the doc comment says the values are integers. So
  rounding, overflow beyond 2^53 and non-integer inputs are out of scope.
- JavaScript's `null` and loose `!=` on `_mean` and `gc` are modelled as `Option`.
- `dispose()` is not modelled, because `consumer.js` does not define it.
- The test harness itself (mocha, sinon, real sleeps) is not modelled. Its cases are replayed
  as the scenario methods.
