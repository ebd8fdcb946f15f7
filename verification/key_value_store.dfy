/** The expiring key-value store (Redis) that holds the credential cache and
    the fixed-window counters.  An entry whose expiry time has passed behaves
    as absent, as Redis makes it. */
module KeyValueStore {
  import opened Wrappers
  import opened Models

  /** The two key families written by the rate limiter:
      `apikey:meta:{digest}` and `rate:{digest}:{second}`. */
  datatype StoreKey = MetaKey(digest: Digest) | RateKey(digest: Digest, second: nat)

  /** A stored integer and the instant (ms) at which it expires, if any. */
  datatype Entry = Entry(value: int, expiresAt: Option<nat>)

  type Entries = map<StoreKey, Entry>

  predicate IsLive(e: Entries, k: StoreKey, now: nat)
  {
    k in e && (e[k].expiresAt.None? || now < e[k].expiresAt.value)
  }

  /** `GET`: the value of a live key. */
  function Lookup(e: Entries, k: StoreKey, now: nat): (v: Option<int>)
    ensures v.Some? <==> IsLive(e, k, now)
  {
    if IsLive(e, k, now) then Some(e[k].value) else None
  }

  /** `SETEX k ttl v`. */
  function AfterSetEx(e: Entries, k: StoreKey, ttlSeconds: nat, v: int, now: nat): Entries
  {
    e[k := Entry(v, Some(now + ttlSeconds * 1000))]
  }

  /** The value `INCR k` returns: one more than the live value, or 1. */
  function IncrValue(e: Entries, k: StoreKey, now: nat): int
  {
    (if IsLive(e, k, now) then e[k].value else 0) + 1
  }

  /** The store after `INCR k`: a live key keeps its expiry, a new one has none. */
  function AfterIncr(e: Entries, k: StoreKey, now: nat): Entries
  {
    e[k := Entry(IncrValue(e, k, now), if IsLive(e, k, now) then e[k].expiresAt else None)]
  }

  /** `EXPIRE k ttl`: only a live key gets the new expiry. */
  function AfterExpire(e: Entries, k: StoreKey, ttlSeconds: nat, now: nat): Entries
  {
    if IsLive(e, k, now) then e[k := Entry(e[k].value, Some(now + ttlSeconds * 1000))] else e
  }

  /** A key that is live at some instant was live at every earlier one. */
  lemma LiveEarlier(e: Entries, k: StoreKey, t: nat, t': nat)
    requires t <= t' && IsLive(e, k, t')
    ensures IsLive(e, k, t)
  {
  }

  /** After `INCR` the key is live and holds the returned value; after
      `INCR` then `EXPIRE ttl` it stays live exactly until `now + ttl`. */
  lemma IncrThenExpire(e: Entries, k: StoreKey, ttlSeconds: nat, now: nat, t: nat)
    requires now <= t
    ensures IsLive(AfterIncr(e, k, now), k, now)
    ensures Lookup(AfterIncr(e, k, now), k, now) == Some(IncrValue(e, k, now))
    ensures IsLive(AfterExpire(AfterIncr(e, k, now), k, ttlSeconds, now), k, t)
            <==> t < now + ttlSeconds * 1000
  {
  }

  class Store {
    var entries: Entries

    constructor ()
      ensures entries == map[]
    {
      entries := map[];
    }

    method Get(k: StoreKey, now: nat) returns (v: Option<int>)
      ensures v == Lookup(entries, k, now)
    {
      if k in entries && (entries[k].expiresAt.None? || now < entries[k].expiresAt.value) {
        v := Some(entries[k].value);
      } else {
        v := None;
      }
    }

    method SetEx(k: StoreKey, ttlSeconds: nat, v: int, now: nat)
      modifies this
      ensures entries == AfterSetEx(old(entries), k, ttlSeconds, v, now)
    {
      entries := entries[k := Entry(v, Some(now + ttlSeconds * 1000))];
    }

    method Incr(k: StoreKey, now: nat) returns (n: int)
      modifies this
      ensures n == IncrValue(old(entries), k, now)
      ensures entries == AfterIncr(old(entries), k, now)
    {
      var current := Get(k, now);
      if current.Some? {
        n := current.value + 1;
        entries := entries[k := Entry(n, entries[k].expiresAt)];
      } else {
        n := 1;
        entries := entries[k := Entry(n, None)];
      }
    }

    method Expire(k: StoreKey, ttlSeconds: nat, now: nat) returns (applied: bool)
      modifies this
      ensures applied == IsLive(old(entries), k, now)
      ensures entries == AfterExpire(old(entries), k, ttlSeconds, now)
    {
      var current := Get(k, now);
      applied := current.Some?;
      if applied {
        entries := entries[k := Entry(current.value, Some(now + ttlSeconds * 1000))];
      }
    }
  }
}
