/** Items held by the consumer: a value together with the absolute time at which it expires,
    and the prefix eviction that the garbage collector performs on a sequence of them. */
module ExpiryItems {

  /** An accepted value and its absolute expiry time in milliseconds (acceptance time plus
      the time-to-live). Never changed once created. */
  datatype ExpiryItem = ExpiryItem(value: int, expiry: int)

  /** An item is expired only once the clock is strictly past its expiry time: an item whose
      expiry equals `now` still counts. */
  predicate IsExpired(item: ExpiryItem, now: int)
  {
    now > item.expiry
  }

  /** Items ordered by non-decreasing expiry (oldest first). */
  ghost predicate Sorted(items: seq<ExpiryItem>)
  {
    forall i, j :: 0 <= i < j < |items| ==> items[i].expiry <= items[j].expiry
  }

  /** No item expires after `deadline`: no item was accepted later than `deadline - ttl`. */
  ghost predicate ExpireBy(items: seq<ExpiryItem>, deadline: int)
  {
    forall k :: 0 <= k < |items| ==> items[k].expiry <= deadline
  }

  /** No item is expired at `now`. */
  ghost predicate AllLive(items: seq<ExpiryItem>, now: int)
  {
    forall k :: 0 <= k < |items| ==> !IsExpired(items[k], now)
  }

  /** The number of items the collector removes at time `now`: the length of the longest
      prefix made only of expired items. */
  function ExpiredPrefix(items: seq<ExpiryItem>, now: int): (n: nat)
    ensures n <= |items|
    ensures forall k :: 0 <= k < n ==> IsExpired(items[k], now)
    ensures n < |items| ==> !IsExpired(items[n], now)
  {
    if items == [] || !IsExpired(items[0], now) then 0
    else 1 + ExpiredPrefix(items[1..], now)
  }

  /** What the collector keeps: everything from the first live item on, in order. The kept
      items are a suffix of the store, every removed item was expired, and the first kept item,
      if any, is live. */
  function Evict(items: seq<ExpiryItem>, now: int): (kept: seq<ExpiryItem>)
    ensures |kept| <= |items|
    ensures forall k :: 0 <= k < |kept| ==> kept[k] == items[|items| - |kept| + k]
    ensures forall k :: 0 <= k < |items| - |kept| ==> IsExpired(items[k], now)
    ensures kept != [] ==> !IsExpired(kept[0], now)
  {
    items[ExpiredPrefix(items, now)..]
  }

  /** Reference definition of the live window: every item that is not expired at `now`,
      in acceptance order. */
  function LiveItems(items: seq<ExpiryItem>, now: int): (live: seq<ExpiryItem>)
  {
    if items == [] then []
    else if IsExpired(items[0], now) then LiveItems(items[1..], now)
    else [items[0]] + LiveItems(items[1..], now)
  }

  /** The two defining properties of ExpiredPrefix determine it: any prefix length that is all
      expired and stops at a live item (or the end) is the one the collector finds. */
  lemma ExpiredPrefixUnique(items: seq<ExpiryItem>, now: int, n: nat)
    requires n <= |items|
    requires forall k :: 0 <= k < n ==> IsExpired(items[k], now)
    requires n < |items| ==> !IsExpired(items[n], now)
    ensures ExpiredPrefix(items, now) == n
  {
  }

  /** The source's sweep reads the clock afresh for every item it tests. When those reads never
      go backwards, the prefix it removes is the expired prefix at the time of its last read:
      the items it found expired earlier are still expired then. */
  lemma SweepWithMovingClock(items: seq<ExpiryItem>, clock: seq<int>, i: nat)
    requires i <= |items| && i < |clock|
    requires forall j, k :: 0 <= j <= k <= i ==> clock[j] <= clock[k]
    requires forall k :: 0 <= k < i ==> IsExpired(items[k], clock[k])
    requires i < |items| ==> !IsExpired(items[i], clock[i])
    ensures ExpiredPrefix(items, clock[i]) == i
  {
    forall k | 0 <= k < i
      ensures IsExpired(items[k], clock[i])
    {
      assert clock[k] <= clock[i];
    }
    ExpiredPrefixUnique(items, clock[i], i);
  }

  /** The collector changes the store exactly when the expired prefix is non-empty. */
  lemma EvictChangesIffExpiredPrefix(items: seq<ExpiryItem>, now: int)
    ensures Evict(items, now) == items <==> ExpiredPrefix(items, now) == 0
  {
    var n := ExpiredPrefix(items, now);
    assert |Evict(items, now)| == |items| - n;
  }

  /** On a sorted store the collector leaves no expired item behind. */
  lemma EvictLeavesNoExpired(items: seq<ExpiryItem>, now: int)
    requires Sorted(items)
    ensures AllLive(Evict(items, now), now)
  {
    var kept := Evict(items, now);
    var d := |items| - |kept|;
    forall k | 0 <= k < |kept|
      ensures !IsExpired(kept[k], now)
    {
      assert kept[0] == items[d] && kept[k] == items[d + k];
    }
  }

  /** Eviction keeps the store sorted. */
  lemma EvictKeepsSorted(items: seq<ExpiryItem>, now: int)
    requires Sorted(items)
    ensures Sorted(Evict(items, now))
  {
    var kept := Evict(items, now);
    var d := |items| - |kept|;
    forall i, j | 0 <= i < j < |kept|
      ensures kept[i].expiry <= kept[j].expiry
    {
      assert kept[i] == items[d + i] && kept[j] == items[d + j];
    }
  }

  /** Eviction keeps every remaining item within the same deadline. */
  lemma EvictKeepsExpireBy(items: seq<ExpiryItem>, now: int, deadline: int)
    requires ExpireBy(items, deadline)
    ensures ExpireBy(Evict(items, now), deadline)
  {
    var n := ExpiredPrefix(items, now);
    forall k | 0 <= k < |items| - n
      ensures items[n..][k].expiry <= deadline
    {
      assert items[n..][k] == items[n + k];
    }
  }

  /** Appending an item that expires no earlier than every stored one keeps the store sorted. */
  lemma AppendKeepsSorted(items: seq<ExpiryItem>, item: ExpiryItem)
    requires Sorted(items) && ExpireBy(items, item.expiry)
    ensures Sorted(items + [item]) && ExpireBy(items + [item], item.expiry)
  {
    var grown := items + [item];
    forall i, j | 0 <= i < j < |grown|
      ensures grown[i].expiry <= grown[j].expiry
    {
      if j < |items| {
        assert grown[i] == items[i] && grown[j] == items[j];
      } else {
        assert grown[i] == items[i];
      }
    }
  }

  /** Dropping the first item, if it is expired, is one step of eviction. */
  lemma EvictStep(items: seq<ExpiryItem>, now: int)
    requires items != [] && IsExpired(items[0], now)
    ensures Evict(items, now) == Evict(items[1..], now)
  {
    var n := ExpiredPrefix(items[1..], now);
    assert ExpiredPrefix(items, now) == 1 + n;
    assert items[1 + n..] == items[1..][n..];
  }

  /** If every item is live, the live window is the whole store. */
  lemma {:induction false} LiveItemsOfLive(items: seq<ExpiryItem>, now: int)
    requires AllLive(items, now)
    ensures LiveItems(items, now) == items
  {
    if items != [] {
      LiveItemsOfLive(items[1..], now);
      assert [items[0]] + items[1..] == items;
    }
  }

  /** On a sorted store, what the collector keeps is exactly the set of live items: stopping at
      the first live item loses nothing. */
  lemma {:induction false} EvictMatchesLiveItems(items: seq<ExpiryItem>, now: int)
    requires Sorted(items)
    ensures Evict(items, now) == LiveItems(items, now)
  {
    if items == [] {
    } else if IsExpired(items[0], now) {
      EvictStep(items, now);
      assert Sorted(items[1..]) by {
        forall i, j | 0 <= i < j < |items| - 1
          ensures items[1..][i].expiry <= items[1..][j].expiry
        {
          assert items[1..][i] == items[i + 1] && items[1..][j] == items[j + 1];
        }
      }
      EvictMatchesLiveItems(items[1..], now);
    } else {
      assert ExpiredPrefix(items, now) == 0;
      forall k | 0 <= k < |items|
        ensures !IsExpired(items[k], now)
      {
        assert items[0].expiry <= items[k].expiry;
      }
      LiveItemsOfLive(items, now);
    }
  }

  /** Running the collector at `earlier` and then at `later` keeps exactly what one run at
      `later` keeps; with equal times this is idempotence. */
  lemma EvictTwice(items: seq<ExpiryItem>, earlier: int, later: int)
    requires earlier <= later
    ensures Evict(Evict(items, earlier), later) == Evict(items, later)
  {
    var n1 := ExpiredPrefix(items, earlier);
    var n2 := ExpiredPrefix(items, later);
    var rest := items[n1..];
    forall k | 0 <= k < n2 - n1
      ensures IsExpired(rest[k], later)
    {
      assert rest[k] == items[n1 + k];
    }
    if n2 < |items| {
      assert rest[n2 - n1] == items[n2];
    }
    ExpiredPrefixUnique(rest, later, n2 - n1);
    assert rest[n2 - n1..] == items[n2..];
  }
}
