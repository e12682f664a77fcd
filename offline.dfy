/**
 * `offlineUtils`: a queue of operations recorded while offline and a cache of
 * timestamped entries with a maximum age, both kept in the browser store.
 * The clock (`Date.now()`) and the random queue id are parameters.
 */
module Offline {
  import opened Wrappers
  import opened LocalStore

  const QueueKey := "offline_queue"
  const CacheVersion := "1.0"
  /** The default `maxAge` of `getCachedData`: 24 hours in milliseconds. */
  const DefaultMaxAge: int := 24 * 60 * 60 * 1000

  /** The store key of a cache entry: `` `cache_${key}` ``. */
  function CacheKey(key: string): (r: string)
    ensures |r| == |key| + 6 && r[6..] == key
  {
    "cache_" + key
  }

  /** Distinct cache keys never share a store slot, and none is the queue's. */
  lemma CacheKeysDistinct(a: string, b: string)
    ensures CacheKey(a) == CacheKey(b) <==> a == b
    ensures CacheKey(a) != QueueKey
  {
    if CacheKey(a) == CacheKey(b) {
      assert a == CacheKey(a)[6..] == CacheKey(b)[6..] == b;
    }
    assert CacheKey(a)[0] == 'c' != QueueKey[0];
  }

  /** `getOfflineQueue` on what the store holds: the stored list, or `[]` when the key is
      absent, holds `''`, or does not parse as a queue. */
  function QueueOf(v: Option<Value>): (r: seq<QueuedOperation>)
    ensures v.Some? && v.value.OperationList? ==> r == v.value.operations
    ensures !(v.Some? && v.value.OperationList?) ==> r == []
  {
    if v.Some? && v.value.OperationList? then v.value.operations else []
  }

  /** What `getCachedData` finds under a cache key. */
  datatype CacheRead = Missing | Expired | Fresh(data: string)

  /** `getCachedData` on what the store holds: nothing stored or unreadable text gives
      `Missing`; an entry older than `maxAge` is `Expired` (and is then removed); an entry
      exactly `maxAge` old is still fresh. */
  function CachedRead(v: Option<Value>, now: int, maxAge: int): (r: CacheRead)
    ensures Blank(v) ==> r == Missing
    ensures r.Fresh? <==> v.Some? && v.value.CacheEntry? && now - v.value.timestamp <= maxAge
    ensures r.Fresh? ==> r.data == v.value.data
    ensures r.Expired? <==> v.Some? && v.value.CacheEntry? && now - v.value.timestamp > maxAge
  {
    if v.None? then Missing
    else match v.value
      case CacheEntry(data, timestamp, _) =>
        if now - timestamp > maxAge then Expired else Fresh(data)
      case _ => Missing
  }

  /** A value cached at `t` reads back at `now` exactly when it is at most `maxAge` old, whatever
      `maxAge` is. */
  lemma CacheRoundTrip(data: string, t: int, now: int, maxAge: int)
    ensures CachedRead(Some(CacheEntry(data, t, CacheVersion)), now, maxAge) ==
              if now - t <= maxAge then Fresh(data) else Expired
  {
  }

  /** Freshness is monotone: an entry fresh at `later` was fresh at every earlier time, and one
      fresh under `maxAge` stays fresh under any larger age. */
  lemma FreshnessMonotone(v: Option<Value>, now: int, later: int, maxAge: int, larger: int)
    requires now <= later && maxAge <= larger
    ensures CachedRead(v, later, maxAge).Fresh? ==> CachedRead(v, now, maxAge) == CachedRead(v, later, maxAge)
    ensures CachedRead(v, now, maxAge).Fresh? ==> CachedRead(v, now, larger) == CachedRead(v, now, maxAge)
  {
  }

  class OfflineUtils {
    const store: Store

    constructor(store: Store)
      ensures this.store == store
    {
      this.store := store;
    }

    /** `getOfflineQueue()`. */
    function Queue(): seq<QueuedOperation>
      reads store
    {
      QueueOf(store.GetItem(QueueKey))
    }

    /** `addToOfflineQueue(operation)` at time `now` with the fresh id `id`. */
    method AddToOfflineQueue(kind: string, data: string, now: int, id: string)
      modifies store
      ensures Queue() == old(Queue()) + [QueuedOperation(kind, data, now, id)]
      ensures store.items == old(store.items)[QueueKey := OperationList(Queue())]
    {
      var queue := QueueOf(store.GetItem(QueueKey));
      queue := queue + [QueuedOperation(kind, data, now, id)];
      store.SetItem(QueueKey, OperationList(queue));
    }

    /** `clearOfflineQueue()`. */
    method ClearOfflineQueue()
      modifies store
      ensures store.items == old(store.items) - {QueueKey}
      ensures Queue() == []
    {
      store.RemoveItem(QueueKey);
    }

    /** `processOfflineQueue()`: every queued operation is handed to the replay step in queue
        order (`replayed`), then the queue is cleared; an empty queue leaves the store alone. */
    method ProcessOfflineQueue() returns (replayed: seq<QueuedOperation>)
      modifies store
      ensures replayed == old(Queue())
      ensures old(Queue()) == [] ==> store.items == old(store.items)
      ensures old(Queue()) != [] ==> store.items == old(store.items) - {QueueKey}
      ensures Queue() == []
    {
      var queue := QueueOf(store.GetItem(QueueKey));
      if |queue| == 0 {
        return [];
      }
      replayed := [];
      for i := 0 to |queue|
        invariant replayed == queue[..i]
      {
        replayed := replayed + [queue[i]];
      }
      ClearOfflineQueue();
    }

    /** `cacheData(key, data)` at time `now`. */
    method CacheData(key: string, data: string, now: int)
      modifies store
      ensures store.items == old(store.items)[CacheKey(key) := CacheEntry(data, now, CacheVersion)]
      ensures CachedRead(store.GetItem(CacheKey(key)), now, DefaultMaxAge) == Fresh(data)
    {
      store.SetItem(CacheKey(key), CacheEntry(data, now, CacheVersion));
    }

    /** `getCachedData(key, maxAge)` at time `now`: an expired entry is removed. */
    method GetCachedData(key: string, now: int, maxAge: int) returns (r: Option<string>)
      modifies store
      ensures var read := CachedRead(old(store.GetItem(CacheKey(key))), now, maxAge);
              && (r.Some? <==> read.Fresh?)
              && (read.Fresh? ==> r.value == read.data)
              && (read.Expired? ==> store.items == old(store.items) - {CacheKey(key)})
              && (!read.Expired? ==> store.items == old(store.items))
    {
      var read := CachedRead(store.GetItem(CacheKey(key)), now, maxAge);
      match read
      case Missing => r := None;
      case Expired =>
        store.RemoveItem(CacheKey(key));
        r := None;
      case Fresh(data) => r := Some(data);
    }
  }
}
