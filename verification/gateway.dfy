/** The request path as app/main.py wires it: the rate limiter is added last
    and so is the outermost layer, the usage tracker sits inside it, and the
    handler inside both.  Also the property that ties credential issuance to
    both middlewares: an issued key is found by the lookups they run. */
module Gateway {
  import opened Wrappers
  import opened Models
  import opened KeyValueStore
  import opened CrudApiKey
  import opened RateLimit
  import opened UsageTracker

  /** A key issued from `secret` is found by the digest lookup both middlewares
      run on that key: the rate limiter, on a cache miss, caches and applies
      the limit it was issued with, and the usage tracker attributes the
      request to the org and the id it was issued with.  Should an older
      credential share the digest (the hash is not assumed injective), that
      older credential is found instead. */
  lemma IssuedKeyResolves(rows: seq<ApiKey>, key: ApiKey, secret: string, hash: string -> Digest,
                          e: Entries, log: seq<UsageLog>, endpoint: string, httpMethod: string,
                          statusCode: int, now: nat)
    requires key.keyHash == GenerateApiKey(secret, hash).keyHash
    ensures var fullKey := GenerateApiKey(secret, hash).fullKey;
            var found := FindByHash(rows + [key], hash(fullKey));
            found == (if FindByHash(rows, hash(fullKey)).Some? then FindByHash(rows, hash(fullKey)) else Some(key))
    ensures var fullKey := GenerateApiKey(secret, hash).fullKey;
            FindByHash(rows, hash(fullKey)).None? ==>
              && (!IsLive(e, MetaKey(hash(fullKey)), now) ==>
                    Resolve(e, rows + [key], hash(fullKey), now).value.limit == key.rateLimitPerSec)
              && Recorded(log, rows + [key], hash, fullKey, endpoint, httpMethod, statusCode, now)
                 == log + [UsageLog(|log| + 1, key.orgId, key.id, endpoint, httpMethod, statusCode, 1.0, now)]
  {
    var fullKey := GenerateApiKey(secret, hash).fullKey;
    FindByHashAppend(rows, key, hash(fullKey));
  }

  class Gateway {
    const limiter: RateLimitMiddleware
    const tracker: UsageTrackingMiddleware

    /** Both middlewares read the same credential table with the same hash. */
    ghost predicate Valid()
      reads this, limiter, tracker, tracker.log
    {
      && limiter.keys == tracker.keys
      && limiter.hash == tracker.hash
      && tracker.log.Valid()
    }

    constructor (limiter: RateLimitMiddleware, tracker: UsageTrackingMiddleware)
      requires limiter.keys == tracker.keys && limiter.hash == tracker.hash && tracker.log.Valid()
      ensures Valid() && this.limiter == limiter && this.tracker == tracker
    {
      this.limiter := limiter;
      this.tracker := tracker;
    }

    /** One request end to end.  `handlerResponse` is what the handler answers
        if it is reached; the background task runs after the response, at
        `now`.  A request the limiter refuses gets 429, never reaches the
        handler or the tracker, and writes no usage row; any other request gets
        the handler's status, and its key (if any) is logged after the
        handler's own background task. */
    method Handle(header: Option<string>, path: string, httpMethod: string, now: nat,
                  handlerResponse: Response)
      returns (status: int, handlerCalled: bool)
      requires Valid()
      modifies limiter.redis, tracker.log, handlerResponse
      ensures Valid()
      ensures var a := Admit(old(limiter.redis.entries), limiter.keys.rows, limiter.hash, header, now);
              limiter.redis.entries == a.entries && (handlerCalled <==> a.decision == CallNext)
      ensures !handlerCalled ==> status == TooManyRequestsStatus && tracker.log.rows == old(tracker.log.rows)
      ensures !handlerCalled ==> handlerResponse.background == old(handlerResponse.background)
      ensures handlerCalled ==> status == handlerResponse.statusCode
      ensures handlerCalled ==>
                tracker.log.rows
                == AfterRequest(old(tracker.log.rows), tracker.keys.rows, tracker.hash, header, path,
                                httpMethod, handlerResponse.statusCode, old(handlerResponse.background), now)
    {
      var decision := limiter.Dispatch(header, now);
      handlerCalled := decision == CallNext;
      if !handlerCalled {
        return TooManyRequestsStatus, false;
      }
      ghost var logBefore := tracker.log.rows;
      ghost var existing := handlerResponse.background;
      var response := tracker.Dispatch(header, path, httpMethod, handlerResponse);
      status := response.statusCode;
      RunWrapped(logBefore, tracker.keys.rows, tracker.hash, header, path, httpMethod,
                 handlerResponse.statusCode, existing, now);
      if response.background.Some? {
        tracker.RunBackground(response.background.value, now);
      }
    }
  }
}
