/** cache/cache.py: `cache_decorator` memoizes a one-argument function in the
    global dict `cache`, treating an entry as valid for 10 time units.

    The wrapped function (`get_weather`) is an oracle
    `compute: (K, nat) -> Result<V, E>`: `compute(key, n)` is what the call
    made when `n` earlier calls had been made returns, or the exception it
    raises. The clock readings are parameters: `now` stands for the reading
    of the freshness test, taken only when the key is present; `after` for
    the reading stored with a new entry, taken only on a miss, once
    `compute` has returned. */
module Cache {
  import opened Outcomes

  /** The freshness window, in clock units. */
  const Ttl: int := 10

  /** `{"data": ..., "time": ...}`. */
  datatype Entry<V> = Entry(data: V, time: int)

  /** An entry is used iff it exists and is strictly younger than `Ttl`. */
  predicate Fresh<K, V>(cache: map<K, Entry<V>>, key: K, now: int) {
    key in cache && now - cache[key].time < Ttl
  }

  /** The memoizer's whole state: the store and how many times `compute`
      has been called. */
  datatype State<K, V> = State(cache: map<K, Entry<V>>, calls: nat)

  /** One call of `wrapper(key)`: the new state and what the call returns. */
  function Step<K, V, E>(s: State<K, V>, compute: (K, nat) -> Result<V, E>, key: K, now: int, after: int)
    : (State<K, V>, Result<V, E>)
  {
    if Fresh(s.cache, key, now) then (s, Ok(s.cache[key].data))
    else
      var r := compute(key, s.calls);
      (State(if r.Ok? then s.cache[key := Entry(r.value, after)] else s.cache, s.calls + 1), r)
  }

  /** A fetch made right after a successful miss, whose clock reading is
      less than `Ttl` past the stored timestamp, returns the same value and
      does not call `compute`. */
  lemma RefetchWithinTtlHits<K, V, E>(s: State<K, V>, compute: (K, nat) -> Result<V, E>,
                                      key: K, now: int, after: int, now': int, after': int)
    requires !Fresh(s.cache, key, now) && compute(key, s.calls).Ok?
    requires now' - after < Ttl
    ensures Step(Step(s, compute, key, now, after).0, compute, key, now', after') ==
            (Step(s, compute, key, now, after).0, Step(s, compute, key, now, after).1)
  {
  }

  /** Once `Ttl` units or more have passed since the stored timestamp, the
      next fetch calls `compute` again and returns the new value. */
  lemma RefetchAfterTtlRecomputes<K, V, E>(s: State<K, V>, compute: (K, nat) -> Result<V, E>,
                                           key: K, now: int, after: int, now': int, after': int)
    requires !Fresh(s.cache, key, now) && compute(key, s.calls).Ok?
    requires now' - after >= Ttl
    ensures Step(Step(s, compute, key, now, after).0, compute, key, now', after').0.calls == s.calls + 2
    ensures Step(Step(s, compute, key, now, after).0, compute, key, now', after').1 == compute(key, s.calls + 1)
  {
  }

  /** A fetch of another key in between does not disturb an entry: fetching
      `a`, then `b`, then `a` again within the window returns the first
      value for `a` without computing it again. */
  lemma OtherKeyLeavesEntry<K, V, E>(s: State<K, V>, compute: (K, nat) -> Result<V, E>,
                                     a: K, b: K, now1: int, after1: int, now2: int, after2: int, now3: int, after3: int)
    requires a != b
    requires !Fresh(s.cache, a, now1) && compute(a, s.calls).Ok?
    requires now3 - after1 < Ttl
    ensures var (s1, r1) := Step(s, compute, a, now1, after1);
            var (s2, _) := Step(s1, compute, b, now2, after2);
            Step(s2, compute, a, now3, after3) == (s2, r1)
  {
  }

  /** A failed `compute` leaves no entry behind: a later fetch of the same
      key (with the clock not running backwards) calls `compute` again. */
  lemma FailureIsNotCached<K, V, E>(s: State<K, V>, compute: (K, nat) -> Result<V, E>,
                                    key: K, now: int, after: int, now': int, after': int)
    requires !Fresh(s.cache, key, now) && compute(key, s.calls).Err?
    requires now <= now'
    ensures Step(s, compute, key, now, after).0.cache == s.cache
    ensures Step(Step(s, compute, key, now, after).0, compute, key, now', after').0.calls == s.calls + 2
  {
  }

  /** One call of `wrapper`: the key and the two clock readings. */
  datatype Request<K> = Request(key: K, now: int, after: int)

  /** A run of fetches on one store, one after the other. */
  function Run<K, V, E>(s: State<K, V>, compute: (K, nat) -> Result<V, E>, reqs: seq<Request<K>>)
    : (State<K, V>, seq<Result<V, E>>)
    decreases |reqs|
  {
    if |reqs| == 0 then (s, [])
    else
      var (s1, r) := Step(s, compute, reqs[0].key, reqs[0].now, reqs[0].after);
      var (s2, rs) := Run(s1, compute, reqs[1..]);
      (s2, [r] + rs)
  }

  /** Entries are only ever created or overwritten: a run never removes a
      key from the store. */
  lemma {:induction false} RunNeverForgets<K, V, E>(s: State<K, V>, compute: (K, nat) -> Result<V, E>,
                                                     reqs: seq<Request<K>>)
    ensures s.cache.Keys <= Run(s, compute, reqs).0.cache.Keys
    decreases |reqs|
  {
    if |reqs| > 0 {
      var s1 := Step(s, compute, reqs[0].key, reqs[0].now, reqs[0].after).0;
      RunNeverForgets(s1, compute, reqs[1..]);
    }
  }

  /** When each fetch's second clock reading is not earlier than its first,
      an entry's timestamp never decreases over a run: an entry is only
      overwritten once stale, and so older than the new reading. */
  lemma {:induction false} RunTimesNeverDecrease<K, V, E>(s: State<K, V>, compute: (K, nat) -> Result<V, E>,
                                                          reqs: seq<Request<K>>)
    requires forall i :: 0 <= i < |reqs| ==> reqs[i].now <= reqs[i].after
    ensures forall k :: k in s.cache ==>
              k in Run(s, compute, reqs).0.cache && s.cache[k].time <= Run(s, compute, reqs).0.cache[k].time
    decreases |reqs|
  {
    if |reqs| > 0 {
      var s1 := Step(s, compute, reqs[0].key, reqs[0].now, reqs[0].after).0;
      RunTimesNeverDecrease(s1, compute, reqs[1..]);
    }
  }

  /** A run calls `compute` at most once per fetch. */
  lemma {:induction false} RunCallsBounded<K, V, E>(s: State<K, V>, compute: (K, nat) -> Result<V, E>,
                                                    reqs: seq<Request<K>>)
    ensures s.calls <= Run(s, compute, reqs).0.calls <= s.calls + |reqs|
    decreases |reqs|
  {
    if |reqs| > 0 {
      var s1 := Step(s, compute, reqs[0].key, reqs[0].now, reqs[0].after).0;
      RunCallsBounded(s1, compute, reqs[1..]);
    }
  }

  /** A `compute` that returns 1, 2, 3, ... on successive calls. */
  function Counter(key: string, n: nat): Result<int, string> {
    Ok(n + 1)
  }

  /** The concrete scenario with `Counter`: fetching "paris" gives 1, an
      immediate refetch gives 1 from the store, and a fetch once the window
      has passed gives 2. */
  lemma CounterScenario()
    ensures Run(State(map[], 0), Counter,
                [Request("paris", 0, 1), Request("paris", 2, 2), Request("paris", 11, 12)]).1
            == [Ok(1), Ok(1), Ok(2)]
  {
    var compute := Counter;
    var reqs := [Request("paris", 0, 1), Request("paris", 2, 2), Request("paris", 11, 12)];
    var s1 := State(map["paris" := Entry(1, 1)], 1);
    var s3 := State(map["paris" := Entry(2, 12)], 2);
    assert Step(State(map[], 0), compute, "paris", 0, 1) == (s1, Ok(1));
    assert Step(s1, compute, "paris", 2, 2) == (s1, Ok(1));
    assert !Fresh(s1.cache, "paris", 11);
    assert s1.cache["paris" := Entry(2, 12)] == s3.cache;
    assert Step(s1, compute, "paris", 11, 12) == (s3, Ok(2));
    assert reqs[1..][1..] == [Request("paris", 11, 12)];
  }

  /** The decorated function: the global store and the wrapped `compute`. */
  class Memoizer<K(==), V, E> {
    var cache: map<K, Entry<V>>
    var calls: nat
    const compute: (K, nat) -> Result<V, E>

    /** The store starts empty (`cache = {}`). */
    constructor (compute: (K, nat) -> Result<V, E>)
      ensures cache == map[] && calls == 0 && this.compute == compute
    {
      cache := map[];
      calls := 0;
      this.compute := compute;
    }

    /** `wrapper(key)`. A fresh entry is returned as it is; otherwise
        `compute` is called once and, if it returns, its value is stored
        with the clock reading taken after it returned. A raised exception is
        returned as `Err` and leaves the store as it was. */
    method Fetch(key: K, now: int, after: int) returns (r: Result<V, E>)
      modifies this
      ensures (State(cache, calls), r) == Step(State(old(cache), old(calls)), compute, key, now, after)
      ensures Fresh(old(cache), key, now) ==>
                r == Ok(old(cache)[key].data) && cache == old(cache) && calls == old(calls)
      ensures !Fresh(old(cache), key, now) ==> r == compute(key, old(calls)) && calls == old(calls) + 1
      ensures !Fresh(old(cache), key, now) && r.Ok? ==> cache == old(cache)[key := Entry(r.value, after)]
      ensures r.Err? ==> cache == old(cache)
      ensures r.Ok? ==> cache.Keys == old(cache).Keys + {key} && cache[key].data == r.value
      ensures forall k :: k != key ==> (k in cache <==> k in old(cache))
      ensures forall k :: k != key && k in old(cache) ==> cache[k] == old(cache)[k]
      ensures key in old(cache) && now <= after ==> old(cache)[key].time <= cache[key].time
    {
      if key in cache && now - cache[key].time < Ttl {
        return Ok(cache[key].data);
      }
      r := compute(key, calls);
      calls := calls + 1;
      if r.Ok? {
        cache := cache[key := Entry(r.value, after)];
      }
    }
  }
}
