/** Usage recording (app/middleware/usage_tracker.py).

    The middleware lets the handler produce the response first, then, when the
    request carries a key, replaces the response's background task by one that
    runs the old task (if any) and afterwards `log_usage`.  `log_usage` looks
    the credential up by digest and appends one usage row attributed to its
    org, or drops the event.  Background tasks are modelled as the sequence of
    steps they perform, run after the response. */
module UsageTracker {
  import opened Wrappers
  import opened Models
  import opened CrudApiKey

  const DefaultCostMultiplier: real := 1.0

  /** The row `log_usage` writes for a key, or `None` when no credential has
      its digest; `id` is the next serial number and `now` the insertion
      time. */
  function UsageRow(keys: seq<ApiKey>, hash: string -> Digest, apiKeyValue: string,
                    endpoint: string, httpMethod: string, statusCode: int,
                    id: nat, now: nat): (r: Option<UsageLog>)
    ensures r.Some? <==> exists i :: 0 <= i < |keys| && keys[i].keyHash == hash(apiKeyValue)
    ensures r.Some? ==>
              var owner := FindByHash(keys, hash(apiKeyValue)).value;
              r.value.orgId == owner.orgId && r.value.apiKeyId == owner.id
              && r.value.endpoint == endpoint && r.value.httpMethod == httpMethod
              && r.value.statusCode == statusCode && r.value.costMultiplier == 1.0
  {
    match FindByHash(keys, hash(apiKeyValue))
    case None => None
    case Some(key) =>
      Some(UsageLog(id, key.orgId, key.id, endpoint, httpMethod, statusCode, DefaultCostMultiplier, now))
  }

  /** The usage log after one `log_usage` call: the old log, plus one row when
      the key resolves; nothing otherwise. */
  function Recorded(log: seq<UsageLog>, keys: seq<ApiKey>, hash: string -> Digest,
                    apiKeyValue: string, endpoint: string, httpMethod: string,
                    statusCode: int, now: nat): (r: seq<UsageLog>)
    ensures |log| <= |r| <= |log| + 1 && r[..|log|] == log
    ensures |r| == |log| + 1 <==> FindByHash(keys, hash(apiKeyValue)).Some?
  {
    match UsageRow(keys, hash, apiKeyValue, endpoint, httpMethod, statusCode, |log| + 1, now)
    case None => log
    case Some(u) => log + [u]
  }

  /** Every row a `log_usage` call adds is attributed to the org and the id of
      a stored credential whose digest is the digest of the presented key. */
  lemma RecordedAttribution(log: seq<UsageLog>, keys: seq<ApiKey>, hash: string -> Digest,
                            apiKeyValue: string, endpoint: string, httpMethod: string,
                            statusCode: int, now: nat)
    ensures var r := Recorded(log, keys, hash, apiKeyValue, endpoint, httpMethod, statusCode, now);
            forall i :: |log| <= i < |r| ==>
              exists j :: 0 <= j < |keys| && keys[j].keyHash == hash(apiKeyValue)
                          && r[i].orgId == keys[j].orgId && r[i].apiKeyId == keys[j].id
  {
    var r := Recorded(log, keys, hash, apiKeyValue, endpoint, httpMethod, statusCode, now);
    if |r| == |log| + 1 {
      var owner := FindByHash(keys, hash(apiKeyValue)).value;
      var j :| 0 <= j < |keys| && keys[j] == owner && owner.keyHash == hash(apiKeyValue);
      assert r[|log|].orgId == keys[j].orgId && r[|log|].apiKeyId == keys[j].id;
    }
  }

  /** A response's background task: one the handler set (outside this model),
      or the wrapper `dispatch` builds around the previous task. */
  datatype Task =
    | External(name: string)
    | WithUsageLog(existing: Option<Task>, apiKeyValue: string, endpoint: string,
                   httpMethod: string, statusCode: int)

  datatype Step =
    | RunExternal(name: string)
    | LogUsageStep(apiKeyValue: string, endpoint: string, httpMethod: string, statusCode: int)

  /** What running a task does, in order. */
  function Steps(t: Task): (s: seq<Step>)
    ensures t.WithUsageLog? ==>
              s != [] && s[|s| - 1] == LogUsageStep(t.apiKeyValue, t.endpoint, t.httpMethod, t.statusCode)
  {
    match t
    case External(name) => [RunExternal(name)]
    case WithUsageLog(existing, apiKeyValue, endpoint, httpMethod, statusCode) =>
      (if existing.Some? then Steps(existing.value) else [])
        + [LogUsageStep(apiKeyValue, endpoint, httpMethod, statusCode)]
  }

  /** The usage log after running `steps` at `now`; tasks set by handlers do
      not write usage rows. */
  function Replay(log: seq<UsageLog>, keys: seq<ApiKey>, hash: string -> Digest,
                  steps: seq<Step>, now: nat): (r: seq<UsageLog>)
    ensures |log| <= |r| && r[..|log|] == log
  {
    if steps == [] then log
    else ApplyStep(Replay(log, keys, hash, steps[..|steps| - 1], now), keys, hash, steps[|steps| - 1], now)
  }

  /** The usage log after one step: a handler's task writes no usage row. */
  function ApplyStep(log: seq<UsageLog>, keys: seq<ApiKey>, hash: string -> Digest,
                     step: Step, now: nat): (r: seq<UsageLog>)
    ensures |log| <= |r| && r[..|log|] == log
  {
    match step
    case RunExternal(_) => log
    case LogUsageStep(v, endpoint, httpMethod, statusCode) =>
      Recorded(log, keys, hash, v, endpoint, httpMethod, statusCode, now)
  }

  lemma {:induction false} ReplayAppend(log: seq<UsageLog>, keys: seq<ApiKey>, hash: string -> Digest,
                                        first: seq<Step>, second: seq<Step>, now: nat)
    ensures Replay(log, keys, hash, first + second, now)
            == Replay(Replay(log, keys, hash, first, now), keys, hash, second, now)
  {
    if second == [] {
      assert first + second == first;
    } else {
      var all := first + second;
      var init, last := second[..|second| - 1], second[|second| - 1];
      assert all[..|all| - 1] == first + init;
      assert all[|all| - 1] == last;
      ReplayAppend(log, keys, hash, first, init, now);
      var mid := Replay(log, keys, hash, first, now);
      assert Replay(log, keys, hash, all, now)
             == ApplyStep(Replay(log, keys, hash, first + init, now), keys, hash, last, now);
      assert Replay(mid, keys, hash, second, now) == ApplyStep(Replay(mid, keys, hash, init, now), keys, hash, last, now);
    }
  }

  /** The wrapper task runs the previous task to completion and only then
      writes the usage row. */
  lemma WrapperRunsExistingFirst(log: seq<UsageLog>, keys: seq<ApiKey>, hash: string -> Digest,
                                 existing: Task, apiKeyValue: string, endpoint: string,
                                 httpMethod: string, statusCode: int, now: nat)
    ensures Replay(log, keys, hash,
                   Steps(WithUsageLog(Some(existing), apiKeyValue, endpoint, httpMethod, statusCode)), now)
            == Recorded(Replay(log, keys, hash, Steps(existing), now), keys, hash,
                        apiKeyValue, endpoint, httpMethod, statusCode, now)
  {
    var step := LogUsageStep(apiKeyValue, endpoint, httpMethod, statusCode);
    ReplayAppend(log, keys, hash, Steps(existing), [step], now);
  }

  /** The background task `dispatch` leaves on a response whose task was
      `existing`. */
  function Wrapped(header: Option<string>, path: string, httpMethod: string, statusCode: int,
                   existing: Option<Task>): Option<Task>
  {
    if HasApiKey(header) then Some(WithUsageLog(existing, header.value, path, httpMethod, statusCode))
    else existing
  }

  /** The usage log once a request has passed the tracker and the response's
      background task has run: the handler's own task first, then, for a
      request with a key, one `log_usage` call. */
  function AfterRequest(log: seq<UsageLog>, keys: seq<ApiKey>, hash: string -> Digest,
                        header: Option<string>, path: string, httpMethod: string, statusCode: int,
                        existing: Option<Task>, now: nat): seq<UsageLog>
  {
    var afterExisting := if existing.Some? then Replay(log, keys, hash, Steps(existing.value), now) else log;
    if HasApiKey(header) then Recorded(afterExisting, keys, hash, header.value, path, httpMethod, statusCode, now)
    else afterExisting
  }

  /** Running the task `dispatch` leaves gives exactly that log. */
  lemma RunWrapped(log: seq<UsageLog>, keys: seq<ApiKey>, hash: string -> Digest,
                   header: Option<string>, path: string, httpMethod: string, statusCode: int,
                   existing: Option<Task>, now: nat)
    ensures var task := Wrapped(header, path, httpMethod, statusCode, existing);
            AfterRequest(log, keys, hash, header, path, httpMethod, statusCode, existing, now)
            == if task.Some? then Replay(log, keys, hash, Steps(task.value), now) else log
  {
    if HasApiKey(header) {
      if existing.Some? {
        WrapperRunsExistingFirst(log, keys, hash, existing.value, header.value, path, httpMethod,
                                 statusCode, now);
      } else {
        var step := LogUsageStep(header.value, path, httpMethod, statusCode);
        assert Steps(WithUsageLog(existing, header.value, path, httpMethod, statusCode)) == [step];
        assert [step][..0] == [];
      }
    }
  }

  /** The `usage_logs` table; `id` is a serial starting at 1. */
  class UsageLogTable {
    var rows: seq<UsageLog>

    ghost predicate Valid()
      reads this
    {
      forall i :: 0 <= i < |rows| ==> rows[i].id == i + 1
    }

    constructor ()
      ensures Valid() && rows == []
    {
      rows := [];
    }
  }

  /** The mutable part of a Starlette response that the middleware touches. */
  class Response {
    const statusCode: int
    var background: Option<Task>

    constructor (statusCode: int, background: Option<Task>)
      ensures this.statusCode == statusCode && this.background == background
    {
      this.statusCode := statusCode;
      this.background := background;
    }
  }

  class UsageTrackingMiddleware {
    const keys: ApiKeyTable
    const log: UsageLogTable
    /** SHA-256 as `hash_key` computes it. */
    const hash: string -> Digest

    constructor (keys: ApiKeyTable, log: UsageLogTable, hash: string -> Digest)
      ensures this.keys == keys && this.log == log && this.hash == hash
    {
      this.keys := keys;
      this.log := log;
      this.hash := hash;
    }

    /** `dispatch`, given the response the handler already produced: with a
        key, the response's task becomes the wrapper around its old task;
        without one the response is untouched.  Its status never changes and
        nothing is logged before the response is returned. */
    method Dispatch(header: Option<string>, path: string, httpMethod: string, response: Response)
      returns (r: Response)
      modifies response
      ensures r == response
      ensures response.background
              == Wrapped(header, path, httpMethod, response.statusCode, old(response.background))
    {
      if header.Some? && header.value != "" {
        var existing := response.background;
        response.background := Some(WithUsageLog(existing, header.value, path, httpMethod,
                                                 response.statusCode));
      }
      return response;
    }

    /** `log_usage`. */
    method LogUsage(apiKeyValue: string, endpoint: string, httpMethod: string, statusCode: int, now: nat)
      requires log.Valid()
      modifies log
      ensures log.Valid()
      ensures log.rows == Recorded(old(log.rows), keys.rows, hash, apiKeyValue, endpoint, httpMethod,
                                   statusCode, now)
    {
      var found := FindByHash(keys.rows, hash(apiKeyValue));
      if found.Some? {
        var key := found.value;
        var usage := UsageLog(|log.rows| + 1, key.orgId, key.id, endpoint, httpMethod, statusCode,
                              DefaultCostMultiplier, now);
        log.rows := log.rows + [usage];
      }
    }

    /** Runs a background task after the response has been sent. */
    method RunBackground(task: Task, now: nat)
      requires log.Valid()
      modifies log
      ensures log.Valid()
      ensures log.rows == Replay(old(log.rows), keys.rows, hash, Steps(task), now)
    {
      var steps := Steps(task);
      for i := 0 to |steps|
        invariant log.Valid()
        invariant log.rows == Replay(old(log.rows), keys.rows, hash, steps[..i], now)
      {
        assert steps[..i + 1][..i] == steps[..i];
        match steps[i]
        case RunExternal(_) =>
        case LogUsageStep(v, endpoint, httpMethod, statusCode) =>
          LogUsage(v, endpoint, httpMethod, statusCode, now);
      }
      assert steps[..|steps|] == steps;
    }
  }
}
