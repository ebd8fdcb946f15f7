/** Fixed-window admission control (app/middleware/rate_limit.py).

    `Admit` says what one request does to the key-value store and whether it
    is let through; `RateLimitMiddleware.Dispatch` is the step-by-step
    middleware, proved to do exactly that.  The clock reading `now` is in
    milliseconds; the window is the whole second `now / 1000`. */
module RateLimit {
  import opened Wrappers
  import opened Models
  import opened KeyValueStore
  import opened CrudApiKey

  /** Seconds a cached limit lives (`setex(.., 300, ..)`). */
  const MetaTtlSeconds: nat := 300
  /** Seconds a window counter lives once created (`expire(.., 5)`). */
  const WindowTtlSeconds: nat := 5
  const TooManyRequestsStatus: int := 429

  /** `CallNext`: the request goes on to the next layer; `TooManyRequests`: the
      middleware answers 429 itself. */
  datatype Decision = CallNext | TooManyRequests

  datatype Admission = Admission(decision: Decision, entries: Entries)

  /** A resolved limit, with the store as it is after resolving it. */
  datatype Resolution = Resolution(limit: int, entries: Entries)

  function Window(now: nat): nat
  {
    now / 1000
  }

  /** A key the store holds, with the same entry, before and after. */
  predicate Unchanged(e: Entries, e': Entries, k: StoreKey)
  {
    (k in e <==> k in e') && (k in e ==> e[k] == e'[k])
  }

  /** The limit of a digest: the cached value on a hit (the table is not read);
      on a miss the first table row with that digest, whose limit is then
      cached for 300 seconds; `None` when no row has that digest, in which case
      nothing is cached. */
  function Resolve(e: Entries, rows: seq<ApiKey>, d: Digest, now: nat): (r: Option<Resolution>)
    ensures r.None? <==> !IsLive(e, MetaKey(d), now) && FindByHash(rows, d).None?
    ensures r.Some? ==> forall k :: k != MetaKey(d) ==> Unchanged(e, r.value.entries, k)
    ensures r.Some? ==> Lookup(r.value.entries, MetaKey(d), now) == Some(r.value.limit)
  {
    if IsLive(e, MetaKey(d), now) then Some(Resolution(e[MetaKey(d)].value, e))
    else
      match FindByHash(rows, d)
      case None => None
      case Some(key) =>
        Some(Resolution(key.rateLimitPerSec,
                        AfterSetEx(e, MetaKey(d), MetaTtlSeconds, key.rateLimitPerSec, now)))
  }

  /** One pass through the middleware for a request carrying `header`. */
  function Admit(e: Entries, rows: seq<ApiKey>, hash: string -> Digest,
                 header: Option<string>, now: nat): (a: Admission)
    ensures !HasApiKey(header) ==> a == Admission(CallNext, e)
    ensures HasApiKey(header) ==>
              forall k :: k != MetaKey(hash(header.value)) && k != RateKey(hash(header.value), Window(now))
                          ==> Unchanged(e, a.entries, k)
    ensures a.decision == TooManyRequests ==>
              HasApiKey(header) && Resolve(e, rows, hash(header.value), now).Some?
  {
    if !HasApiKey(header) then Admission(CallNext, e)
    else
      var d := hash(header.value);
      match Resolve(e, rows, d, now)
      case None => Admission(CallNext, e)
      case Some(res) =>
        var rk := RateKey(d, Window(now));
        var count := IncrValue(res.entries, rk, now);
        var counted := AfterIncr(res.entries, rk, now);
        var entries := if count == 1 then AfterExpire(counted, rk, WindowTtlSeconds, now) else counted;
        Admission(if count > res.limit then TooManyRequests else CallNext, entries)
  }

  /** A request whose digest is cached is decided by the cached limit, whatever
      the credential table holds, and leaves the cached entry as it was. */
  lemma CacheHitIgnoresTable(e: Entries, rows: seq<ApiKey>, rows': seq<ApiKey>,
                             hash: string -> Digest, header: Option<string>, now: nat)
    requires HasApiKey(header) && IsLive(e, MetaKey(hash(header.value)), now)
    ensures Admit(e, rows, hash, header, now) == Admit(e, rows', hash, header, now)
    ensures var a := Admit(e, rows, hash, header, now);
            var d := hash(header.value);
            MetaKey(d) in a.entries && a.entries[MetaKey(d)] == e[MetaKey(d)]
            && (a.decision == TooManyRequests
                <==> IncrValue(e, RateKey(d, Window(now)), now) > e[MetaKey(d)].value)
  {
  }

  /** A request with an uncached digest that no credential has passes through
      and changes nothing: no counter, no cache entry. */
  lemma UnknownKeyPassesThrough(e: Entries, rows: seq<ApiKey>, hash: string -> Digest,
                                header: Option<string>, now: nat)
    requires HasApiKey(header)
    requires !IsLive(e, MetaKey(hash(header.value)), now)
    requires FindByHash(rows, hash(header.value)).None?
    ensures Admit(e, rows, hash, header, now) == Admission(CallNext, e)
  {
  }

  /** On a miss for a known digest the first matching credential's limit is
      cached for 300 seconds and used. */
  lemma CacheMissPopulates(e: Entries, rows: seq<ApiKey>, hash: string -> Digest,
                           header: Option<string>, now: nat)
    requires HasApiKey(header)
    requires !IsLive(e, MetaKey(hash(header.value)), now)
    requires FindByHash(rows, hash(header.value)).Some?
    ensures var d := hash(header.value);
            var key := FindByHash(rows, d).value;
            var a := Admit(e, rows, hash, header, now);
            a.entries[MetaKey(d)] == Entry(key.rateLimitPerSec, Some(now + 300_000))
            && (a.decision == TooManyRequests
                <==> IncrValue(e, RateKey(d, Window(now)), now) > key.rateLimitPerSec)
  {
  }

  /** A checked request adds one to the counter of its digest and second and
      to no other; the 5-second expiry is set only when that made it 1 (a
      counter that already existed keeps its expiry); the request is refused
      exactly when the new count exceeds the limit. */
  lemma CounterStep(e: Entries, rows: seq<ApiKey>, hash: string -> Digest,
                    header: Option<string>, now: nat)
    requires HasApiKey(header)
    requires Resolve(e, rows, hash(header.value), now).Some?
    ensures var d := hash(header.value);
            var rk := RateKey(d, Window(now));
            var res := Resolve(e, rows, d, now).value;
            var count := IncrValue(e, rk, now);
            var a := Admit(e, rows, hash, header, now);
            rk in a.entries && a.entries[rk].value == count
            && count == (if IsLive(e, rk, now) then e[rk].value else 0) + 1
            && (count == 1 ==> a.entries[rk].expiresAt == Some(now + 5000))
            && (count != 1 ==> a.entries[rk].expiresAt == e[rk].expiresAt)
            && (a.decision == TooManyRequests <==> count > res.limit)
  {
    var d := hash(header.value);
    var rk := RateKey(d, Window(now));
    var res := Resolve(e, rows, d, now).value;
    assert Unchanged(e, res.entries, rk);
  }

  /** The cache agrees with the credential table: every live cached limit is
      the limit of the first credential with that digest. */
  ghost predicate CacheCoherent(e: Entries, rows: seq<ApiKey>, now: nat)
  {
    forall k :: k in e && k.MetaKey? && IsLive(e, k, now) ==>
      FindByHash(rows, k.digest).Some? && e[k].value == FindByHash(rows, k.digest).value.rateLimitPerSec
  }

  /** With a coherent cache, resolving a digest gives the same answer on the
      cache path and on the table path: the first credential's limit, or
      unknown. */
  lemma ResolveAgreesWithTable(e: Entries, rows: seq<ApiKey>, d: Digest, now: nat)
    requires CacheCoherent(e, rows, now)
    ensures Resolve(e, rows, d, now).Some? <==> FindByHash(rows, d).Some?
    ensures Resolve(e, rows, d, now).Some? ==>
              Resolve(e, rows, d, now).value.limit == FindByHash(rows, d).value.rateLimitPerSec
  {
    if IsLive(e, MetaKey(d), now) {
      assert MetaKey(d) in e && MetaKey(d).MetaKey?;
    }
  }

  /** A request keeps the cache coherent, now and at every later instant. */
  lemma AdmitKeepsCoherent(e: Entries, rows: seq<ApiKey>, hash: string -> Digest,
                           header: Option<string>, now: nat, later: nat)
    requires now <= later && CacheCoherent(e, rows, now)
    ensures CacheCoherent(Admit(e, rows, hash, header, now).entries, rows, later)
  {
    var a := Admit(e, rows, hash, header, now);
    forall k | k in a.entries && k.MetaKey? && IsLive(a.entries, k, later)
      ensures FindByHash(rows, k.digest).Some?
              && a.entries[k].value == FindByHash(rows, k.digest).value.rateLimitPerSec
    {
      if HasApiKey(header) && k == MetaKey(hash(header.value)) {
        var d := hash(header.value);
        ResolveAgreesWithTable(e, rows, d, now);
        var res := Resolve(e, rows, d, now).value;
        assert Unchanged(res.entries, a.entries, k);
      } else {
        assert Unchanged(e, a.entries, k);
        LiveEarlier(e, k, now, later);
      }
    }
  }

  /** Issuing a credential keeps the cache coherent: a cached digest already
      had a credential, and the first one stays first. */
  lemma CreateKeepsCoherent(e: Entries, rows: seq<ApiKey>, key: ApiKey, now: nat)
    requires CacheCoherent(e, rows, now)
    ensures CacheCoherent(e, rows + [key], now)
  {
    forall k | k in e && k.MetaKey? && IsLive(e, k, now)
      ensures FindByHash(rows + [key], k.digest) == FindByHash(rows, k.digest)
    {
      FindByHashAppend(rows, key, k.digest);
    }
  }

  /** The decisions for a series of requests with the same header at the
      given instants, and the store afterwards. */
  function Run(e: Entries, rows: seq<ApiKey>, hash: string -> Digest,
               header: Option<string>, times: seq<nat>): (r: (seq<Decision>, Entries))
    ensures |r.0| == |times|
  {
    if times == [] then ([], e)
    else
      var before := Run(e, rows, hash, header, times[..|times| - 1]);
      var a := Admit(before.1, rows, hash, header, times[|times| - 1]);
      (before.0 + [a.decision], a.entries)
  }

  /** The hypotheses of a burst: one known credential with a coherent cache,
      instants in order and all in the same second, and no live counter for
      that second when the burst starts. */
  ghost predicate Burst(e: Entries, rows: seq<ApiKey>, hash: string -> Digest,
                        header: Option<string>, times: seq<nat>)
  {
    && HasApiKey(header)
    && FindByHash(rows, hash(header.value)).Some?
    && times != []
    && CacheCoherent(e, rows, times[0])
    && (forall i :: 0 < i < |times| ==> times[i - 1] <= times[i])
    && (forall i :: 0 <= i < |times| ==> Window(times[i]) == Window(times[0]))
    && !IsLive(e, RateKey(hash(header.value), Window(times[0])), times[0])
  }

  /** One request of a burst that began at `t0`, after `c` earlier ones: the
      counter goes from `c` to `c + 1` and keeps the expiry set by the first;
      the cache stays coherent; the request passes exactly when `c` is below
      the limit; counters of other seconds are untouched. */
  lemma BurstStep(e: Entries, rows: seq<ApiKey>, hash: string -> Digest,
                  header: Option<string>, t0: nat, t: nat, c: nat)
    requires HasApiKey(header) && FindByHash(rows, hash(header.value)).Some?
    requires CacheCoherent(e, rows, t)
    requires t0 <= t < t0 + 1000 && Window(t) == Window(t0)
    requires c == 0 ==> t == t0 && !IsLive(e, RateKey(hash(header.value), Window(t)), t)
    requires c > 0 ==> var rk := RateKey(hash(header.value), Window(t));
                       rk in e && e[rk] == Entry(c, Some(t0 + 5000))
    ensures var d := hash(header.value);
            var rk := RateKey(d, Window(t));
            var a := Admit(e, rows, hash, header, t);
            && rk in a.entries && a.entries[rk] == Entry(c + 1, Some(t0 + 5000))
            && CacheCoherent(a.entries, rows, t)
            && a.decision == (if c < FindByHash(rows, d).value.rateLimitPerSec then CallNext else TooManyRequests)
            && forall s :: s != Window(t) ==> Unchanged(e, a.entries, RateKey(d, s))
  {
    var d := hash(header.value);
    ResolveAgreesWithTable(e, rows, d, t);
    CounterStep(e, rows, hash, header, t);
    AdmitKeepsCoherent(e, rows, hash, header, t, t);
    var res := Resolve(e, rows, d, t).value;
    forall s | s != Window(t) ensures Unchanged(e, Admit(e, rows, hash, header, t).entries, RateKey(d, s)) {
      assert Unchanged(e, res.entries, RateKey(d, s));
    }
  }

  /** The state after the requests of a burst at `times`, with `r` the
      decisions and the store: the counter of that second holds the number of
      requests and expires 5 seconds after the first; the cache is coherent at
      the last request; the first `limit` requests were let through and the
      rest refused; counters of other seconds are as in `e`. */
  ghost predicate AfterBurst(e: Entries, rows: seq<ApiKey>, hash: string -> Digest,
                             header: Option<string>, times: seq<nat>, r: (seq<Decision>, Entries))
    requires HasApiKey(header) && FindByHash(rows, hash(header.value)).Some? && times != []
  {
    var d := hash(header.value);
    var limit := FindByHash(rows, d).value.rateLimitPerSec;
    && |r.0| == |times|
    && RateKey(d, Window(times[0])) in r.1
    && r.1[RateKey(d, Window(times[0]))] == Entry(|times|, Some(times[0] + 5000))
    && CacheCoherent(r.1, rows, times[|times| - 1])
    && (forall i :: 0 <= i < |times| ==> r.0[i] == if i < limit then CallNext else TooManyRequests)
    && (forall s :: s != Window(times[0]) ==> Unchanged(e, r.1, RateKey(d, s)))
  }

  /** The first request of a burst. */
  lemma BurstFirst(e: Entries, rows: seq<ApiKey>, hash: string -> Digest,
                   header: Option<string>, times: seq<nat>)
    requires Burst(e, rows, hash, header, times) && |times| == 1
    ensures AfterBurst(e, rows, hash, header, times, Run(e, rows, hash, header, times))
  {
    var a := Admit(e, rows, hash, header, times[0]);
    assert times[..0] == [];
    assert Run(e, rows, hash, header, times) == ([] + [a.decision], a.entries);
    BurstStep(e, rows, hash, header, times[0], times[0], 0);
    DecisionsExtend([], a.decision, FindByHash(rows, hash(header.value)).value.rateLimitPerSec);
  }

  /** A later request of a burst keeps `AfterBurst`: from the decisions and
      store after all but the last request, that request's `Admit` gives the
      decisions and store after all of them. */
  lemma BurstExtend(e: Entries, rows: seq<ApiKey>, hash: string -> Digest,
                    header: Option<string>, times: seq<nat>, before: (seq<Decision>, Entries))
    requires Burst(e, rows, hash, header, times) && |times| > 1
    requires AfterBurst(e, rows, hash, header, times[..|times| - 1], before)
    ensures var a := Admit(before.1, rows, hash, header, times[|times| - 1]);
            AfterBurst(e, rows, hash, header, times, (before.0 + [a.decision], a.entries))
  {
    var d := hash(header.value);
    var n := |times|;
    var t := times[n - 1];
    var w := Window(times[0]);
    var a := Admit(before.1, rows, hash, header, t);
    TimesOrdered(times, n - 1);
    assert Window(t) == w;
    BurstPrefix(e, rows, hash, header, times);
    var prefix := times[..n - 1];
    assert prefix[0] == times[0] && |prefix| == n - 1 && prefix[|prefix| - 1] == times[n - 2];
    var rk := RateKey(d, w);
    assert rk in before.1 && before.1[rk] == Entry(n - 1, Some(times[0] + 5000));
    CacheCoherentLater(before.1, rows, times[n - 2], t);
    BurstStep(before.1, rows, hash, header, times[0], t, n - 1);
    DecisionsExtend(before.0, a.decision, FindByHash(rows, d).value.rateLimitPerSec);
    forall s | s != w ensures Unchanged(e, a.entries, RateKey(d, s)) {
      UnchangedTrans(e, before.1, a.entries, RateKey(d, s));
    }
  }

  /** After each request of a burst: the counter of that second holds the
      number of requests so far and expires 5 seconds after the first; the
      cache is still coherent; the first `limit` requests were let through and
      the rest refused; counters of other seconds are untouched. */
  lemma {:induction false} BurstInvariant(e: Entries, rows: seq<ApiKey>, hash: string -> Digest,
                                          header: Option<string>, times: seq<nat>)
    requires Burst(e, rows, hash, header, times)
    ensures var d := hash(header.value);
            var r := Run(e, rows, hash, header, times);
            var limit := FindByHash(rows, d).value.rateLimitPerSec;
            && RateKey(d, Window(times[0])) in r.1
            && r.1[RateKey(d, Window(times[0]))] == Entry(|times|, Some(times[0] + 5000))
            && CacheCoherent(r.1, rows, times[|times| - 1])
            && (forall i :: 0 <= i < |times| ==> r.0[i] == if i < limit then CallNext else TooManyRequests)
            && (forall s :: s != Window(times[0]) ==> Unchanged(e, r.1, RateKey(d, s)))
  {
    if |times| == 1 {
      BurstFirst(e, rows, hash, header, times);
    } else {
      var prefix := times[..|times| - 1];
      BurstPrefix(e, rows, hash, header, times);
      BurstInvariant(e, rows, hash, header, prefix);
      var before := Run(e, rows, hash, header, prefix);
      BurstExtend(e, rows, hash, header, times, before);
      var a := Admit(before.1, rows, hash, header, times[|times| - 1]);
      assert Run(e, rows, hash, header, times) == (before.0 + [a.decision], a.entries);
    }
    assert AfterBurst(e, rows, hash, header, times, Run(e, rows, hash, header, times));
  }

  /** One more decision, for the request after `|prev|` earlier ones, keeps
      "the first `limit` requests pass". */
  lemma DecisionsExtend(prev: seq<Decision>, next: Decision, limit: int)
    requires forall i :: 0 <= i < |prev| ==> prev[i] == if i < limit then CallNext else TooManyRequests
    requires next == if |prev| < limit then CallNext else TooManyRequests
    ensures forall i :: 0 <= i < |prev| + 1 ==>
              (prev + [next])[i] == if i < limit then CallNext else TooManyRequests
  {
  }

  lemma UnchangedTrans(e: Entries, e': Entries, e'': Entries, k: StoreKey)
    requires Unchanged(e, e', k) && Unchanged(e', e'', k)
    ensures Unchanged(e, e'', k)
  {
  }

  /** A burst without its last request is a burst. */
  lemma BurstPrefix(e: Entries, rows: seq<ApiKey>, hash: string -> Digest,
                    header: Option<string>, times: seq<nat>)
    requires Burst(e, rows, hash, header, times) && |times| > 1
    ensures Burst(e, rows, hash, header, times[..|times| - 1])
    ensures times[|times| - 2] <= times[|times| - 1]
  {
  }

  /** Instants in non-decreasing order are all at or after the first. */
  lemma TimesOrdered(times: seq<nat>, j: nat)
    requires j < |times|
    requires forall i :: 0 < i < |times| ==> times[i - 1] <= times[i]
    ensures times[0] <= times[j]
  {
    var i := 0;
    while i < j
      invariant i <= j && times[0] <= times[i]
    {
      i := i + 1;
    }
  }

  /** Coherence at an instant implies coherence later: entries only expire. */
  lemma CacheCoherentLater(e: Entries, rows: seq<ApiKey>, now: nat, later: nat)
    requires now <= later && CacheCoherent(e, rows, now)
    ensures CacheCoherent(e, rows, later)
  {
    forall k | k in e && k.MetaKey? && IsLive(e, k, later)
      ensures FindByHash(rows, k.digest).Some? && e[k].value == FindByHash(rows, k.digest).value.rateLimitPerSec
    {
      LiveEarlier(e, k, now, later);
    }
  }

  /** With limit N, of the requests made within one second the first N are let
      through and every later one is refused; a refused request still counts,
      and the counters of every other second are left alone. */
  lemma BurstWithinOneSecond(e: Entries, rows: seq<ApiKey>, hash: string -> Digest,
                             header: Option<string>, times: seq<nat>)
    requires Burst(e, rows, hash, header, times)
    ensures var d := hash(header.value);
            var r := Run(e, rows, hash, header, times);
            var limit := FindByHash(rows, d).value.rateLimitPerSec;
            && (forall i :: 0 <= i < |times| ==> (r.0[i] == CallNext <==> i < limit))
            && Lookup(r.1, RateKey(d, Window(times[0])), times[|times| - 1]) == Some(|times|)
            && (forall s :: s != Window(times[0]) ==> Unchanged(e, r.1, RateKey(d, s)))
  {
    BurstInvariant(e, rows, hash, header, times);
    assert times[0] <= times[|times| - 1] by {
      TimesOrdered(times, |times| - 1);
    }
  }

  /** A request in a second whose counter is not live is let through whenever
      its credential's limit is at least 1: the first request of a new window
      always succeeds. */
  lemma FreshWindowAdmits(e: Entries, rows: seq<ApiKey>, hash: string -> Digest,
                          header: Option<string>, now: nat)
    requires HasApiKey(header) && CacheCoherent(e, rows, now)
    requires FindByHash(rows, hash(header.value)).Some?
    requires FindByHash(rows, hash(header.value)).value.rateLimitPerSec >= 1
    requires !IsLive(e, RateKey(hash(header.value), Window(now)), now)
    ensures Admit(e, rows, hash, header, now).decision == CallNext
  {
    var d := hash(header.value);
    ResolveAgreesWithTable(e, rows, d, now);
    CounterStep(e, rows, hash, header, now);
  }

  /** After a burst, a request in a later second whose counter was not live to
      begin with is let through (limit at least 1): a refused client succeeds
      again once the window has passed. */
  lemma NextSecondAdmitsAfterBurst(e: Entries, rows: seq<ApiKey>, hash: string -> Digest,
                                   header: Option<string>, times: seq<nat>, later: nat)
    requires Burst(e, rows, hash, header, times)
    requires FindByHash(rows, hash(header.value)).value.rateLimitPerSec >= 1
    requires times[|times| - 1] <= later && Window(later) != Window(times[0])
    requires !IsLive(e, RateKey(hash(header.value), Window(later)), later)
    ensures Admit(Run(e, rows, hash, header, times).1, rows, hash, header, later).decision == CallNext
  {
    var d := hash(header.value);
    var r := Run(e, rows, hash, header, times);
    BurstInvariant(e, rows, hash, header, times);
    assert Unchanged(e, r.1, RateKey(d, Window(later)));
    CacheCoherentLater(r.1, rows, times[|times| - 1], later);
    FreshWindowAdmits(r.1, rows, hash, header, later);
  }

  /** The Redis-backed middleware. */
  class RateLimitMiddleware {
    const redis: Store
    const keys: ApiKeyTable
    /** SHA-256 as `hash_key` computes it. */
    const hash: string -> Digest

    constructor (redis: Store, keys: ApiKeyTable, hash: string -> Digest)
      ensures this.redis == redis && this.keys == keys && this.hash == hash
    {
      this.redis := redis;
      this.keys := keys;
      this.hash := hash;
    }

    /** `dispatch`: the decision and the new store are those `Admit` gives. */
    method Dispatch(header: Option<string>, now: nat) returns (d: Decision)
      modifies redis
      ensures Admission(d, redis.entries) == Admit(old(redis.entries), keys.rows, hash, header, now)
    {
      if header.Some? && header.value != "" {
        var hashed := hash(header.value);
        var limit := redis.Get(MetaKey(hashed), now);
        if limit.None? {
          var found := FindByHash(keys.rows, hashed);
          if found.Some? {
            limit := Some(found.value.rateLimitPerSec);
            redis.SetEx(MetaKey(hashed), MetaTtlSeconds, found.value.rateLimitPerSec, now);
          } else {
            return CallNext;
          }
        }
        var rateKey := RateKey(hashed, Window(now));
        var count := redis.Incr(rateKey, now);
        if count == 1 {
          var _ := redis.Expire(rateKey, WindowTtlSeconds, now);
        }
        if count > limit.value {
          return TooManyRequests;
        }
      }
      return CallNext;
    }
  }
}
