/**
  The records hook and its one-entry browser cache: a stored snapshot is
  served when it is at most a day old and not empty; otherwise the hook
  subscribes to the database, and each delivered snapshot replaces both the
  shown records and the stored entry.
*/
module QtktCache {
  import opened Wrappers
  import opened Search

  /** Twenty-four hours, in milliseconds. */
  const CacheDuration: int := 24 * 60 * 60 * 1000

  /**
    What the cache slot holds once read back: text that does not parse as an
    object, or an object whose `data` and `timestamp` may each be missing.
  */
  datatype Stored =
    | Unparsable
    | Entry(data: Option<seq<QtktRecord>>, timestamp: Option<int>)

  /**
    `Date.now() - timestamp > CACHE_DURATION`. A missing timestamp makes the
    subtraction not a number, and the comparison false.
  */
  predicate Expired(timestamp: Option<int>, now: int) {
    timestamp.Some? && now - timestamp.value > CacheDuration
  }

  /**
    `loadFromCache`: the records a read of the slot serves at time `now`, or
    `None` for a miss. An absent slot, an unparsable one, an expired entry and
    missing or empty data are all misses.
  */
  function Lookup(slot: Option<Stored>, now: int): (r: Option<seq<QtktRecord>>)
    ensures r.Some? ==> |r.value| > 0
    ensures r.Some? ==> slot.Some? && slot.value.Entry? && slot.value.data == Some(r.value)
    ensures r.Some? ==> !Expired(slot.value.timestamp, now)
  {
    match slot
    case None => None
    case Some(Unparsable) => None
    case Some(Entry(data, timestamp)) =>
      if !Expired(timestamp, now) && data.Some? && |data.value| > 0 then Some(data.value) else None
  }

  /** A hit needs exactly: a parsed entry, fresh, with non-empty data. */
  lemma LookupHit(slot: Option<Stored>, now: int)
    ensures Lookup(slot, now).Some? <==>
      slot.Some? && slot.value.Entry? && !Expired(slot.value.timestamp, now) &&
      slot.value.data.Some? && |slot.value.data.value| > 0
  {
  }

  /** An entry exactly one cache duration old is still served; one millisecond later it is not. */
  lemma FreshAtBoundary(data: seq<QtktRecord>, stamped: int)
    requires |data| > 0
    ensures Lookup(Some(Entry(Some(data), Some(stamped))), stamped + CacheDuration) == Some(data)
    ensures Lookup(Some(Entry(Some(data), Some(stamped))), stamped + CacheDuration + 1) == None
  {
  }

  /** Cached empty data is never served. */
  lemma EmptyNeverServed(timestamp: Option<int>, now: int)
    ensures Lookup(Some(Entry(Some([]), timestamp)), now) == None
  {
  }

  /** The browser's storage slot under the cache key. */
  class CacheStore {
    var slot: Option<Stored>

    constructor(initial: Option<Stored>)
      ensures slot == initial
    {
      slot := initial;
    }

    /** Reading the slot at `now`; failures to read or parse are misses, never errors. */
    method Load(now: int) returns (hit: Option<seq<QtktRecord>>)
      ensures hit == Lookup(slot, now)
    {
      hit := Lookup(slot, now);
    }

    /**
      Storing a snapshot stamped with `now`; `writable` is false when the
      browser refuses the write, which is then ignored.
    */
    method Save(data: seq<QtktRecord>, now: int, writable: bool)
      modifies this
      ensures writable ==> slot == Some(Entry(Some(data), Some(now)))
      ensures !writable ==> slot == old(slot)
    {
      if writable {
        slot := Some(Entry(Some(data), Some(now)));
      }
    }

    /** `clearQTKTCache`: the slot is removed. */
    method Clear()
      modifies this
      ensures slot == None
      ensures forall now :: Lookup(slot, now) == None
    {
      slot := None;
    }
  }

  /** A stored snapshot is served back at the time it was stored, and for a day after, when it is not empty. */
  lemma WriteThenRead(data: seq<QtktRecord>, stamped: int, now: int)
    requires stamped <= now <= stamped + CacheDuration
    ensures Lookup(Some(Entry(Some(data), Some(stamped))), now) == (if |data| > 0 then Some(data) else None)
  {
  }

  /** The records hook: the shown records, the loading flag and whether a subscription is open. */
  class QtktData {
    var records: seq<QtktRecord>
    var loading: bool
    var error: Option<string>
    var subscribed: bool
    const store: CacheStore

    constructor(store: CacheStore)
      ensures this.store == store
      ensures records == [] && loading && error == None && !subscribed
    {
      this.store := store;
      records := [];
      loading := true;
      error := None;
      subscribed := false;
    }

    /**
      The mount effect: on a cache hit the cached records are shown and no
      subscription is opened; on a miss a subscription is opened and the
      hook stays loading.
    */
    method Mount(now: int)
      modifies this
      ensures store.slot == old(store.slot)
      ensures error == old(error)
      ensures Lookup(store.slot, now).Some? ==>
        records == Lookup(store.slot, now).value && !loading && subscribed == old(subscribed)
      ensures Lookup(store.slot, now).None? ==>
        records == old(records) && loading && subscribed
    {
      loading := true;
      var hit := store.Load(now);
      if hit.Some? {
        records := hit.value;
        loading := false;
      } else {
        subscribed := true;
      }
    }

    /**
      A delivered snapshot: it replaces the shown records, ends loading,
      clears the error and is written to the cache stamped with `now`.
    */
    method OnSnapshot(data: seq<QtktRecord>, now: int, writable: bool)
      requires subscribed
      modifies this, store
      ensures records == data && !loading && error == None && subscribed
      ensures writable ==> store.slot == Some(Entry(Some(data), Some(now)))
      ensures writable ==> Lookup(store.slot, now) == (if |data| > 0 then Some(data) else None)
      ensures !writable ==> store.slot == old(store.slot)
    {
      records := data;
      loading := false;
      error := None;
      store.Save(data, now, writable);
      if writable {
        WriteThenRead(data, now, now);
      }
    }

    /** The effect's cleanup closes the subscription it opened. */
    method Unmount()
      modifies this
      ensures !subscribed
      ensures records == old(records) && loading == old(loading) && error == old(error)
    {
      subscribed := false;
    }
  }
}
