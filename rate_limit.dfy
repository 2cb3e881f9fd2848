/**
  The fixed-window rate limiter both endpoints carry (pages/api/contact.ts and
  pages/api/newsletter.ts each keep their own copy and their own table).
  A client key maps to a record (count, resetTime). The first request, or the first
  one strictly after resetTime, starts a new window with count 1; after that a
  request is admitted while count is below the endpoint's maximum and counted.
 */
module RateLimit {

  /** 15 minutes in milliseconds. */
  const WindowMs: int := 15 * 60 * 1000

  datatype Entry = Entry(count: int, resetTime: int)

  datatype Decision = Decision(allowed: bool, store: map<string, Entry>)

  /** True when `key` has no record or its window is over (strictly after resetTime). */
  predicate StartsWindow(store: map<string, Entry>, key: string, now: int) {
    key !in store || now > store[key].resetTime
  }

  /** One call of `rateLimit(key)` at time `now` against the table `store`, with limit `max`. */
  function Admit(store: map<string, Entry>, key: string, now: int, max: nat): (d: Decision)
    ensures d.store.Keys == store.Keys + {key}
    ensures forall k :: k in store && k != key ==> d.store[k] == store[k]
    ensures d.allowed <==> StartsWindow(store, key, now) || store[key].count < max
    ensures !d.allowed ==> d.store == store
  {
    if StartsWindow(store, key, now) then
      Decision(true, store[key := Entry(1, now + WindowMs)])
    else if store[key].count >= max then
      Decision(false, store)
    else
      Decision(true, store[key := store[key].(count := store[key].count + 1)])
  }

  /** A new or expired key gets a fresh window of count 1 ending WindowMs from now, and is admitted. */
  lemma AdmitStartsWindow(store: map<string, Entry>, key: string, now: int, max: nat)
    requires StartsWindow(store, key, now)
    ensures Admit(store, key, now, max).allowed
    ensures Admit(store, key, now, max).store[key] == Entry(1, now + WindowMs)
  {
  }

  /** Inside a window: refused at the limit, otherwise counted once more with the same resetTime. */
  lemma AdmitWithinWindow(store: map<string, Entry>, key: string, now: int, max: nat)
    requires !StartsWindow(store, key, now)
    ensures store[key].count >= max ==> Admit(store, key, now, max) == Decision(false, store)
    ensures store[key].count < max ==>
      Admit(store, key, now, max) == Decision(true, store[key := Entry(store[key].count + 1, store[key].resetTime)])
  {
  }

  /** Every count in the table lies between 1 and the limit. */
  ghost predicate Bounded(store: map<string, Entry>, max: nat) {
    forall k :: k in store ==> 1 <= store[k].count <= max
  }

  lemma AdmitKeepsBounded(store: map<string, Entry>, key: string, now: int, max: nat)
    requires 1 <= max && Bounded(store, max)
    ensures Bounded(Admit(store, key, now, max).store, max)
  {
  }

  /** The answers to a series of calls from one key at the times `nows`. */
  function Replay(store: map<string, Entry>, key: string, nows: seq<int>, max: nat): (r: seq<bool>)
    ensures |r| == |nows|
    decreases nows
  {
    if nows == [] then []
    else
      var d := Admit(store, key, nows[0], max);
      [d.allowed] + Replay(d.store, key, nows[1..], max)
  }

  /**
    Calls that all fall inside the current window of `key` (no later than its resetTime):
    the i-th is admitted exactly when count + i is still below the limit.
   */
  lemma {:induction false} ReplayWithinWindow(store: map<string, Entry>, key: string, nows: seq<int>, max: nat)
    requires key in store
    requires forall i :: 0 <= i < |nows| ==> nows[i] <= store[key].resetTime
    ensures forall i :: 0 <= i < |nows| ==> Replay(store, key, nows, max)[i] == (store[key].count + i < max)
  {
    if nows != [] {
      var d := Admit(store, key, nows[0], max);
      var e := store[key];
      assert d.store[key].resetTime == e.resetTime;
      assert d.store[key].count == if e.count < max then e.count + 1 else e.count;
      ReplayWithinWindow(d.store, key, nows[1..], max);
      forall i | 0 <= i < |nows| ensures Replay(store, key, nows, max)[i] == (e.count + i < max) {
        if i > 0 {
          assert Replay(store, key, nows, max)[i] == Replay(d.store, key, nows[1..], max)[i - 1];
        }
      }
    }
  }

  /**
    A window opened by the first of a series of calls: as long as every later call
    comes no later than WindowMs after the first, exactly the first `max` calls are
    admitted, so the (max + 1)-th one is refused.
   */
  lemma {:induction false} WindowQuota(store: map<string, Entry>, key: string, nows: seq<int>, max: nat)
    requires 1 <= max && nows != []
    requires StartsWindow(store, key, nows[0])
    requires forall i :: 0 <= i < |nows| ==> nows[i] <= nows[0] + WindowMs
    ensures forall i :: 0 <= i < |nows| ==> Replay(store, key, nows, max)[i] == (i < max)
  {
    var d := Admit(store, key, nows[0], max);
    assert d.store[key] == Entry(1, nows[0] + WindowMs);
    ReplayWithinWindow(d.store, key, nows[1..], max);
    forall i | 0 <= i < |nows| ensures Replay(store, key, nows, max)[i] == (i < max) {
      if i > 0 {
        assert Replay(store, key, nows, max)[i] == Replay(d.store, key, nows[1..], max)[i - 1];
      }
    }
  }

  /**
    The in-memory table of one endpoint. `max` is the endpoint's limit; the table grows by
    one record per new client key and is never pruned.
   */
  class RateLimiter {
    const max: nat
    var store: map<string, Entry>

    ghost predicate Valid()
      reads this
    {
      1 <= max && Bounded(store, max)
    }

    constructor (max: nat)
      requires 1 <= max
      ensures Valid() && this.max == max && store == map[]
    {
      this.max := max;
      store := map[];
    }

    /** `rateLimit(ip)`: answers whether the call is admitted and updates the table in place. */
    method Allow(key: string, now: int) returns (allowed: bool)
      requires Valid()
      modifies this
      ensures Valid()
      ensures Decision(allowed, store) == Admit(old(store), key, now, max)
    {
      AdmitKeepsBounded(store, key, now, max);
      if key !in store || now > store[key].resetTime {
        store := store[key := Entry(1, now + WindowMs)];
        return true;
      }
      var current := store[key];
      if current.count >= max {
        return false;
      }
      store := store[key := current.(count := current.count + 1)];
      return true;
    }
  }
}
