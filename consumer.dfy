/** The expiring-window mean aggregator: a store of expiring items, a memoised mean and a
    self-stopping garbage collector. Time is explicit: every operation that reads the clock
    takes the current time `now` (milliseconds) as an argument. */
module Consumers {
  import opened ExpiryItems

  datatype Option<T> = None | Some(value: T)

  /** The time-to-live used when none is given: five minutes, in milliseconds. */
  const DefaultTtl: int := 60 * 1000 * 5

  /** Sum of the stored values, folded from the oldest item on (the `reduce` of calculate). */
  function Sum(items: seq<ExpiryItem>): (sum: int)
  {
    if items == [] then 0 else Sum(items[..|items| - 1]) + items[|items| - 1].value
  }

  /** The mean of the stored values: 0 for an empty store and for a zero sum, otherwise the
      sum divided by the number of items. */
  function Calculate(items: seq<ExpiryItem>): (mean: real)
    ensures mean * (|items| as real) == Sum(items) as real
    ensures mean == 0.0 <==> Sum(items) == 0
  {
    if |items| == 0 then 0.0
    else
      var sum := Sum(items);
      if sum == 0 then 0.0 else sum as real / |items| as real
  }

  /** Accepting an item adds exactly its value to the sum. */
  lemma SumAppend(items: seq<ExpiryItem>, item: ExpiryItem)
    ensures Sum(items + [item]) == Sum(items) + item.value
  {
    assert (items + [item])[..|items|] == items;
  }

  /** The sum splits at any point of the store; in particular it splits between the prefix the
      collector removes and the suffix it keeps. */
  lemma {:induction false} SumSplit(items: seq<ExpiryItem>, i: nat)
    requires i <= |items|
    ensures Sum(items) == Sum(items[..i]) + Sum(items[i..])
  {
    if i < |items| {
      var m := |items| - 1;
      SumSplit(items[..m], i);
      assert items[..m][..i] == items[..i];
      assert items[..m][i..] == items[i..m];
      assert items[i..][..|items[i..]| - 1] == items[i..m];
    } else {
      assert items[..i] == items;
    }
  }

  /** Eviction takes exactly the removed items' values out of the sum. */
  lemma EvictedSum(items: seq<ExpiryItem>, now: int)
    ensures Sum(Evict(items, now)) == Sum(items) - Sum(items[..ExpiredPrefix(items, now)])
  {
    SumSplit(items, ExpiredPrefix(items, now));
  }

  /** A store whose values are all `v` sums to `|items| * v`. */
  lemma {:induction false} SumOfEqualValues(items: seq<ExpiryItem>, v: int)
    requires forall k :: 0 <= k < |items| ==> items[k].value == v
    ensures Sum(items) == |items| * v
  {
    if items != [] {
      var m := |items| - 1;
      SumOfEqualValues(items[..m], v);
      assert Sum(items) == m * v + v;
    }
  }

  /** The mean of a non-empty store of equal values is that value. */
  lemma MeanOfEqualValues(items: seq<ExpiryItem>, v: int)
    requires |items| > 0
    requires forall k :: 0 <= k < |items| ==> items[k].value == v
    ensures Calculate(items) == v as real
  {
    SumOfEqualValues(items, v);
    var n := |items| as real;
    assert Sum(items) as real == n * v as real;
    assert v != 0 ==> (n * v as real) / n == v as real;
  }

  /** The sum of a store whose values lie in [lo, hi] lies in [|items| * lo, |items| * hi]. */
  lemma {:induction false} SumWithinBounds(items: seq<ExpiryItem>, lo: int, hi: int)
    requires forall k :: 0 <= k < |items| ==> lo <= items[k].value <= hi
    ensures |items| * lo <= Sum(items) <= |items| * hi
  {
    if items != [] {
      var m := |items| - 1;
      SumWithinBounds(items[..m], lo, hi);
      assert |items| * lo == m * lo + lo && |items| * hi == m * hi + hi;
    }
  }

  /** The mean of a non-empty store lies between the smallest and largest value. */
  lemma MeanWithinBounds(items: seq<ExpiryItem>, lo: int, hi: int)
    requires |items| > 0
    requires forall k :: 0 <= k < |items| ==> lo <= items[k].value <= hi
    ensures lo as real <= Calculate(items) <= hi as real
  {
    SumWithinBounds(items, lo, hi);
    var n := |items| as real;
    var mean := Calculate(items);
    assert mean * n == Sum(items) as real;
    assert n * lo as real <= mean * n <= n * hi as real;
  }

  /** The aggregator. `store` holds the accepted items oldest first; `cache` is the memoised
      mean (None when it is invalid); `gc` is the pending collector: None when no collector is
      scheduled, Some(t) when one was armed at time t with a delay of `ttl` milliseconds.
      The ghost counter `calculations` counts the recomputations of the mean. */
  class Consumer {
    var store: seq<ExpiryItem>
    const ttl: int
    var gc: Option<int>
    var cache: Option<real>
    ghost var calculations: nat

    /** The memoised mean, when valid, is the mean of the current store. */
    ghost predicate Valid()
      reads this
    {
      cache.Some? ==> cache.value == Calculate(store)
    }

    /** The store is ordered by expiry and nothing in it expires after `now + ttl`, which is
        what holds when the clock never goes backwards. */
    ghost predicate OrderedAt(now: int)
      reads this
    {
      Sorted(store) && ExpireBy(store, now + ttl)
    }

    /** With a clock that never goes backwards, ordering at one time carries over to any later
        time, so Accept and the collector keep the store ordered along a whole run. */
    lemma OrderedLater(now: int, later: int)
      requires OrderedAt(now) && now <= later
      ensures OrderedAt(later)
    {
    }

    constructor (ttl: int := DefaultTtl)
      ensures Valid() && forall now :: OrderedAt(now)
      ensures this.ttl == ttl && store == [] && gc == None
      ensures cache == Some(0.0) && calculations == 0
    {
      this.ttl := ttl;
      store := [];
      gc := None;
      cache := Some(0.0);
      calculations := 0;
    }

    /** Records `value` as accepted at time `now`: appends one item expiring at `now + ttl`,
        invalidates the memoised mean and makes sure a collector is scheduled. */
    method Accept(value: int, now: int)
      requires Valid()
      modifies this`store, this`cache, this`gc
      ensures Valid()
      ensures store == old(store) + [ExpiryItem(value, now + ttl)]
      ensures cache == None
      ensures gc == if old(gc).Some? then old(gc) else Some(now)
      ensures old(OrderedAt(now)) ==> OrderedAt(now)
    {
      if OrderedAt(now) {
        AppendKeepsSorted(store, ExpiryItem(value, now + ttl));
      }
      store := store + [ExpiryItem(value, now + ttl)];
      cache := None;
      StartGarbageCollector(now);
    }

    /** The mean of the current store: the memoised value when it is valid, otherwise a fresh
        calculation, which becomes the memoised value. */
    method Mean() returns (mean: real)
      requires Valid()
      modifies this`cache, this`calculations
      ensures Valid()
      ensures mean == Calculate(store) && cache == Some(mean)
      ensures old(cache).Some? ==> mean == old(cache).value && calculations == old(calculations)
      ensures old(cache).None? ==> calculations == old(calculations) + 1
    {
      if cache.Some? {
        return cache.value;
      }
      cache := Some(Calculate(store));
      calculations := calculations + 1;
      mean := cache.value;
    }

    /** Removes the longest prefix of items expired at `now`, stopping at the first live item,
        and invalidates the memoised mean exactly when something was removed. */
    method ExecuteGarbageCollector(now: int)
      requires Valid()
      modifies this`store, this`cache
      ensures Valid()
      ensures store == Evict(old(store), now)
      ensures cache == if ExpiredPrefix(old(store), now) == 0 then old(cache) else None
      ensures old(OrderedAt(now)) ==> OrderedAt(now) && AllLive(store, now)
    {
      if OrderedAt(now) {
        EvictKeepsSorted(store, now);
        EvictLeavesNoExpired(store, now);
        EvictKeepsExpireBy(store, now, now + ttl);
      }
      var len := |store|;
      var i := 0;
      while i < len
        invariant 0 <= i <= len
        invariant forall k :: 0 <= k < i ==> IsExpired(store[k], now)
      {
        var item := store[i];
        if !IsExpired(item, now) {
          break;
        }
        i := i + 1;
      }
      ExpiredPrefixUnique(store, now, i);
      if i > 0 {
        store := store[i..];
        cache := None;
      }
    }

    /** Schedules the collector at time `now` unless one is already pending, in which case the
        pending one is left as it is. */
    method StartGarbageCollector(now: int)
      modifies this`gc
      ensures gc == if old(gc).Some? then old(gc) else Some(now)
    {
      if gc.Some? {
        return;
      }
      gc := Some(now);
    }

    /** Cancels the pending collector, if any; afterwards none is scheduled. */
    method StopGarbageCollector()
      modifies this`gc
      ensures gc == None
    {
      if gc.None? {
        return;
      }
      gc := None;
    }

    /** The scheduled collector firing at time `now`, whenever the host timer runs it while a
        collector is pending: it sweeps once and then cancels itself. */
    method CollectorTick(now: int)
      requires Valid()
      requires gc.Some?
      modifies this`store, this`cache, this`gc
      ensures Valid()
      ensures store == Evict(old(store), now)
      ensures cache == if ExpiredPrefix(old(store), now) == 0 then old(cache) else None
      ensures old(OrderedAt(now)) ==> OrderedAt(now) && AllLive(store, now)
      ensures gc == None
    {
      ExecuteGarbageCollector(now);
      ghost var swept, memo := store, cache;
      StopGarbageCollector();
      assert store == swept && cache == memo;
    }
  }
}
