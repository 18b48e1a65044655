/** The mobile app's `cache` slice: one entry per cached screen, each holding
    the last data fetched and when, replaced by `setCache` and emptied by
    `clearCache`. */
module CacheSlice {
  import opened Wrappers

  /** `keyof CacheState`. */
  datatype CacheKey = Config | Home | Legal | Events

  /** `Cached<T>`: the data (null when nothing is cached) and its time in
      milliseconds since the epoch. */
  datatype Cached<T> = Cached(data: Option<T>, updatedAt: Option<int>)

  /** The entry of a key that holds nothing. */
  function Empty<T>(): (c: Cached<T>)
    ensures c.data.None? && c.updatedAt.None?
  {
    Cached(None, None)
  }

  /** Every key has an entry, as the `CacheState` type demands. */
  predicate Complete<T>(state: map<CacheKey, Cached<T>>) {
    Config in state && Home in state && Legal in state && Events in state
  }

  /** `initialState`: every key empty. */
  function InitialState<T>(): (state: map<CacheKey, Cached<T>>)
    ensures Complete(state)
    ensures state.Keys == {Config, Home, Legal, Events}
    ensures state[Config] == state[Home] == state[Legal] == state[Events] == Empty()
  {
    map[Config := Empty(), Home := Empty(), Legal := Empty(), Events := Empty()]
  }

  /** `setCache` on a state: the entry at `key` becomes the data with the
      given time, or `now` (`Date.now()`) when none is given. `??` only
      replaces a missing time, so a given time of 0 is kept. */
  function SetCacheStep<T>(state: map<CacheKey, Cached<T>>, key: CacheKey, data: Option<T>,
                           updatedAt: Option<int>, now: int): (r: map<CacheKey, Cached<T>>)
    ensures r.Keys == state.Keys + {key}
    ensures r[key].data == data
    ensures r[key].updatedAt == Some(if updatedAt.Some? then updatedAt.value else now)
    ensures forall k | k in state && k != key :: r[k] == state[k]
  {
    state[key := Cached(data, Some(updatedAt.GetOr(now)))]
  }

  /** `clearCache` on a state: the entry at `key` is emptied. */
  function ClearCacheStep<T>(state: map<CacheKey, Cached<T>>, key: CacheKey): (r: map<CacheKey, Cached<T>>)
    ensures r.Keys == state.Keys + {key}
    ensures r[key] == Empty()
    ensures forall k | k in state && k != key :: r[k] == state[k]
  {
    state[key := Empty()]
  }

  /** Clearing twice is clearing once, and clearing after a set forgets
      the set. */
  lemma ClearCacheIdempotent<T>(state: map<CacheKey, Cached<T>>, key: CacheKey, data: Option<T>,
                                updatedAt: Option<int>, now: int)
    ensures ClearCacheStep(ClearCacheStep(state, key), key) == ClearCacheStep(state, key)
    ensures ClearCacheStep(SetCacheStep(state, key, data, updatedAt, now), key) == ClearCacheStep(state, key)
  {
  }

  /** Clearing any key of the initial state changes nothing. */
  lemma ClearInitial<T>(key: CacheKey)
    ensures ClearCacheStep(InitialState<T>(), key) == InitialState<T>()
  {
    var s := InitialState<T>();
    assert ClearCacheStep(s, key)[key] == s[key];
  }

  /** A later `setCache` of the same key wins. */
  lemma SetCacheLastWins<T>(state: map<CacheKey, Cached<T>>, key: CacheKey,
                            d1: Option<T>, d2: Option<T>, t1: Option<int>, t2: Option<int>, now1: int, now2: int)
    ensures SetCacheStep(SetCacheStep(state, key, d1, t1, now1), key, d2, t2, now2)
            == SetCacheStep(state, key, d2, t2, now2)
  {
  }

  /** `setCache` calls on different keys commute. */
  lemma SetCacheCommutes<T>(state: map<CacheKey, Cached<T>>, key: CacheKey, other: CacheKey,
                            d1: Option<T>, d2: Option<T>, t1: Option<int>, t2: Option<int>, now1: int, now2: int)
    requires key != other
    ensures SetCacheStep(SetCacheStep(state, key, d1, t1, now1), other, d2, t2, now2)
            == SetCacheStep(SetCacheStep(state, other, d2, t2, now2), key, d1, t1, now1)
  {
  }

  /** The store holding the slice's state; the reducers assign the entry of
      one key in place. */
  class CacheStore<T(==)> {
    var state: map<CacheKey, Cached<T>>

    ghost predicate Valid()
      reads this
    {
      Complete(state)
    }

    constructor()
      ensures Valid() && state == InitialState()
    {
      state := InitialState();
    }

    /** `setCache({key, data, updatedAt})`; `now` is `Date.now()`. */
    method SetCache(key: CacheKey, data: Option<T>, updatedAt: Option<int>, now: int)
      requires Valid()
      modifies this
      ensures Valid()
      ensures state == SetCacheStep(old(state), key, data, updatedAt, now)
    {
      var stamp := if updatedAt.Some? then updatedAt.value else now;
      state := state[key := Cached(data, Some(stamp))];
    }

    /** `clearCache(key)`. */
    method ClearCache(key: CacheKey)
      requires Valid()
      modifies this
      ensures Valid()
      ensures state == ClearCacheStep(old(state), key)
    {
      state := state[key := Cached(None, None)];
    }
  }
}
