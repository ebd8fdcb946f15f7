# Metering and billing core of ai-billing, in Dafny

This project models the metering path and the billing batch of the ai-billing
service, a FastAPI backend that sells access to a metered API:

- **Credentials** (`CrudApiKey`). A key is `"sk_live_"` followed by a random
  secret. Only its SHA-256 digest is stored. A lookup by id or by digest
  takes the first matching row; the listing for an org returns all of its
  rows, in table order.
- **Admission control** (`RateLimit`, over the expiring key-value store
  `KeyValueStore`, which stands for Redis). Each request with an `X-API-KEY`
  header has its limit resolved: the cache first, then the credential table on
  a miss, whose answer is cached for 300 s. The request then bumps the counter
  for its digest and the current whole second. That counter expires 5 s after
  it is created, and the request is refused with 429 once the count exceeds
  the limit.
- **Usage recording** (`UsageTracker`). After the handler has answered, the
  response's background task is wrapped. The wrapper runs the old task, then
  `log_usage`, which appends one usage row attributed to the credential's org,
  or drops the event when no credential matches.
- **The request path** (`Gateway`). The rate limiter is the outer middleware,
  so a refused request never reaches the handler or the tracker.
- **Invoices** (`BillingService`). Usage of an org in an inclusive date range
  is counted per endpoint. Only the rules of the first pricing plan apply.
  Each priced endpoint becomes an item worth
  `max(0, count - free_tier_limit) * unit_price`. A paid invoice is returned
  untouched. An unpaid one has its total recomputed. Otherwise a new draft is
  added, due 7 days after the period, with the items attached.
- **Usage summary** (`UsageSummary`). It counts the caller's org's usage per
  (endpoint, calendar date).

`Models` holds the records, `Grouping` holds the `GROUP BY ... count()`
queries, and `Wrappers` holds `Option` and `Result`.

Each stateful operation is a method on a class, with the table or store it
changes as a field. Its postcondition equates the result and the new state
with a function of the old state: `Admit`, `Recorded`/`Replay`/`AfterRequest`,
`Generate` and `Summary`. The lemmas prove what the service promises about
those functions.

Conventions:

- SHA-256 is a function parameter `hash`, and nothing is assumed about it: it
  is not assumed to be injective.
- The secret, record ids and the clock are parameters.
- Time is in milliseconds since the epoch. The rate window is `now / 1000`.
  Calendar dates are day numbers, `timestamp / 86_400_000`.
- Money is exact (`real`).
- An empty header value counts as no header, as Python's truthiness makes it.
- The middlewares never consult a credential's `is_active`, and neither does
  the model.

Two shortcuts in the billing code, which its own comments mark as
provisional, are modelled as written:

- **Regeneration.** Regenerating an existing invoice for the same org and
  period only rewrites its total. The comment at
  app/services/billing_service.py:94-96 notes that deleting the old items
  and adding them again would be easier, but settles on updating the total
  for now. So the old items stay, and no new ones are stored.
  `RegenerationKeepsFirstItems` shows how the total and the items then drift
  apart.
- **Pricing plan.** Every org is priced with the first plan the table
  returns, the "default plan" of the comment at
  app/services/billing_service.py:55-57. The org's own plan plays no part
  (app/services/billing_service.py:57-65).

## Model

| member | source | states |
|---|---|---|
| Models.Filtered | app/services/billing_service.py:40-43 | the rows kept are exactly the usage rows of the org whose calendar date lies in [start, end], each as often as the log holds it, and no other row |
| KeyValueStore.Lookup | app/middleware/rate_limit.py:32 | a read yields a value exactly when the key is present and unexpired |
| KeyValueStore.IncrThenExpire | app/middleware/rate_limit.py:56-60 | after INCR the key is live and holds the returned count; after INCR then EXPIRE ttl it stays live until ttl seconds after now, and not after that |
| KeyValueStore.Store.Get | app/middleware/rate_limit.py:32 | returns the value of a live key, none for a missing or expired one; the store is unchanged |
| KeyValueStore.Store.SetEx | app/middleware/rate_limit.py:41 | the key now holds the value and expires ttl seconds from now; no other key changes |
| KeyValueStore.Store.Incr | app/middleware/rate_limit.py:56 | returns one more than the live value (1 for a missing or expired key) and stores it; a live key keeps its expiry, a new one has none |
| KeyValueStore.Store.Expire | app/middleware/rate_limit.py:60 | sets the expiry of the key only when it is live, and reports whether it did |
| CrudApiKey.DefaultCreate | app/schemas/api_key_schema.py:8 | a creation request that gives no limit asks for 5 requests per second |
| CrudApiKey.GenerateApiKey | app/crud/crud_api_key.py:9-15 | the prefix is "sk_live_"; the full key is the prefix followed by the secret, so it starts with the prefix and the secret can be read back from it; the returned digest is hash(full key) |
| CrudApiKey.FirstWhere | app/crud/crud_api_key.py:37 | `.first()`: the index of the first matching row, with no earlier match, or none exactly when no row matches |
| CrudApiKey.GetApiKey | app/crud/crud_api_key.py:35-37 | the first row with the id, or none exactly when no row has it |
| CrudApiKey.FindByHash | app/middleware/rate_limit.py:36-37 | the first credential whose stored digest equals the digest, or none exactly when none has it |
| CrudApiKey.FindByHashAppend | app/crud/crud_api_key.py:26-27 | after a credential is added, a digest lookup finds what it found before; if it found nothing, it finds the new credential exactly when the digests agree |
| CrudApiKey.GetApiKeysByOrg | app/crud/crud_api_key.py:31-33 | every key listed belongs to the org |
| CrudApiKey.GetApiKeysByOrgExact | app/crud/crud_api_key.py:31-33 | the listing holds each of the org's rows as often as the table does, and no row of another org |
| CrudApiKey.GetApiKeysByOrgAppend | app/crud/crud_api_key.py:31-33 | after a key is added, an org's listing is the old listing, followed by the new key when it belongs to that org |
| CrudApiKey.ApiKeyTable.CreateApiKey | app/crud/crud_api_key.py:17-29 | appends exactly one active row with the prefix, hash(full key), the name, the org, the requested limit and the creation time, and leaves the old rows as they were; the full key, prefix + secret, is returned to the caller and never stored |
| RateLimit.Resolve | app/middleware/rate_limit.py:28-47 | unknown exactly when the digest is neither cached nor stored; otherwise only the cache entry of that digest may change, and it then holds the resolved limit |
| RateLimit.Admit | app/middleware/rate_limit.py:17-68 | without a key: pass-through, store unchanged; with one: only the cache entry and the current-second counter of its digest may change; a refusal needs a key that resolves |
| RateLimit.CacheHitIgnoresTable | app/middleware/rate_limit.py:29-49 | on a cache hit the decision and the new store do not depend on the credential table; the cached entry is kept, and the request is refused exactly when the new count exceeds the cached limit |
| RateLimit.UnknownKeyPassesThrough | app/middleware/rate_limit.py:42-47 | an uncached digest that no credential has passes through and leaves the store unchanged: no counter, no cache entry |
| RateLimit.CacheMissPopulates | app/middleware/rate_limit.py:35-41 | on a miss for a known digest, the first credential's limit is cached with a 300 s expiry, and the request is refused exactly when the new count exceeds that limit |
| RateLimit.CounterStep | app/middleware/rate_limit.py:52-66 | a checked request adds exactly 1 to the counter of (digest, second); the 5 s expiry is set only when the count became 1, and an existing counter keeps its expiry; refusal happens exactly when the count exceeds the limit |
| RateLimit.ResolveAgreesWithTable | app/middleware/rate_limit.py:29-47 | with a coherent cache, the cache path and the table path give the same answer: the first credential's limit, or unknown |
| RateLimit.AdmitKeepsCoherent | app/middleware/rate_limit.py:35-41 | a request keeps every live cached limit equal to its first credential's limit, now and later |
| RateLimit.CreateKeepsCoherent | app/crud/crud_api_key.py:26-27 | issuing a credential keeps the cache coherent with the table |
| RateLimit.BurstInvariant | app/middleware/rate_limit.py:52-66 | during a burst within one second, the counter holds the number of requests so far and expires 5 s after the first request; the first `limit` requests pass and the rest are refused; the cache stays coherent and other seconds' counters are untouched |
| RateLimit.BurstStep | app/middleware/rate_limit.py:52-66 | one request of a burst after c earlier ones takes the counter from c to c + 1 with the first request's 5 s expiry, passes exactly when c is below the limit, keeps the cache coherent and leaves other seconds' counters alone |
| RateLimit.BurstWithinOneSecond | app/middleware/rate_limit.py:52-66 | with limit N, request i of a burst within one second passes exactly when i < N; refused requests count too; other seconds' counters are unchanged |
| RateLimit.FreshWindowAdmits | app/middleware/rate_limit.py:52-62 | the first request of a second with no live counter passes whenever the credential's limit is at least 1 |
| RateLimit.NextSecondAdmitsAfterBurst | app/middleware/rate_limit.py:52-62 | after a burst, a request in a later second passes again (limit at least 1) |
| RateLimit.RateLimitMiddleware.Dispatch | app/middleware/rate_limit.py:12-68 | the decision and the new Redis state are exactly those of `Admit` on the old state |
| UsageTracker.UsageRow | app/middleware/usage_tracker.py:54-66 | a row exists exactly when some credential has the digest of the key; it is attributed to the first such credential's org and id, with the given endpoint, method and status, and cost multiplier 1.0 |
| UsageTracker.Recorded | app/middleware/usage_tracker.py:39-68 | the log only grows, by at most one row, and grows exactly when a credential with the key's digest exists; otherwise it is unchanged |
| UsageTracker.RecordedAttribution | app/middleware/usage_tracker.py:54-66 | every row `log_usage` adds belongs to the org, and carries the id, of a stored credential whose digest is the presented key's digest |
| UsageTracker.Steps | app/middleware/usage_tracker.py:28-35 | the wrapper task's last step is the usage write for its key, path, method and status |
| UsageTracker.Replay | app/middleware/usage_tracker.py:28-35 | running background steps only appends to the usage log |
| UsageTracker.WrapperRunsExistingFirst | app/middleware/usage_tracker.py:28-35 | the wrapper runs the previous task to completion and only then writes the usage row |
| UsageTracker.RunWrapped | app/middleware/usage_tracker.py:18-37 | running the task `dispatch` leaves gives the handler's own task's effect, followed by one `log_usage` when a key is present |
| UsageTracker.UsageTrackingMiddleware.Dispatch | app/middleware/usage_tracker.py:10-37 | the handler's response is returned as it is, status included; with a key its task becomes the wrapper around the old task, without one it is untouched; nothing is logged before the response |
| UsageTracker.UsageTrackingMiddleware.LogUsage | app/middleware/usage_tracker.py:39-68 | the usage table becomes `Recorded` of the old table, with serial ids kept |
| UsageTracker.UsageTrackingMiddleware.RunBackground | app/middleware/usage_tracker.py:28-35 | running a task leaves the table equal to `Replay` of its steps on the old table |
| Gateway.IssuedKeyResolves | app/crud/crud_api_key.py:11-15 | the digest `generate_api_key` stores is the one both middlewares compute from the full key: an issued key is found, unless an older credential shares its digest; on a cache miss its limit is used, and its usage is attributed to its org and id |
| Gateway.Gateway.Handle | app/main.py:12-13 | limiter outside tracker: a refused request gets 429, never reaches the handler, logs nothing and schedules no task; any other request gets the handler's status, and the log is `AfterRequest` |
| Grouping.GroupsSpec | app/services/billing_service.py:37-47 | the grouped count lists each key at most once, and every key of the input exactly once; each count is the number of rows with that key; the counts add up to the number of rows |
| Grouping.GroupCountIsCount | app/api/v1/endpoints/usage.py:31-39 | each group's count is the number of input rows with its key |
| BillingService.UsageByEndpointSpec | app/services/billing_service.py:37-47 | usage_data lists each endpoint of the org's rows in the period once, with its count (at least 1) and no other endpoint; the counts add up to the number of those rows |
| BillingService.OtherRowsIgnored | app/services/billing_service.py:40-44 | a row of another org, or dated outside [start, end], changes nothing in the aggregation |
| BillingService.PlanRules | app/services/billing_service.py:62-63 | only rules of the given plan, all drawn from the table |
| BillingService.PlanRulesExact | app/services/billing_service.py:62-63 | the query returns each rule of the plan as often as the table holds it, and no rule of another plan |
| BillingService.RuleMapLastWins | app/services/billing_service.py:64-65 | a resource name is in the rule map exactly when some rule has it, and it maps to the last such rule |
| BillingService.PlanRuleMapLastWins | app/services/billing_service.py:61-65 | the map built from a plan's rules holds a name exactly when some rule of that plan has it, and maps it to the last such rule of the table |
| BillingService.ApplicableRules | app/services/billing_service.py:57-65 | no plan gives no rules; otherwise a resource name has a rule exactly when some rule of the first plan has that name, whatever the org, and it gets the last such rule of the table |
| BillingService.ItemCost | app/services/billing_service.py:73-74 | nothing is charged up to the free tier, and the cost is never negative for a non-negative price |
| BillingService.ItemFor | app/services/billing_service.py:76-81 | an item is unattached and carries the count as units, the rule's unit price, and the free-tier cost as amount |
| BillingService.PricedItemsSpec | app/services/billing_service.py:67-87 | an item is produced exactly when it is the item of an endpoint that has a rule; no more items than endpoint rows |
| BillingService.PricedItemsOnce | app/services/billing_service.py:67-87 | when the grouped endpoints are distinct, each endpoint that has a rule is billed by exactly one item |
| BillingService.ComputedItemsOnce | app/services/billing_service.py:37-87 | each endpoint of the org's usage in the period that has a rule in the first plan is billed by exactly one item |
| BillingService.NoRulesNothingBilled | app/services/billing_service.py:60-87 | with an empty rule map there are no items and the total is 0 |
| BillingService.NoPlanNothingBilled | app/services/billing_service.py:57-65 | without any pricing plan a run computes no items and a zero total |
| BillingService.TotalNonNegative | app/services/billing_service.py:49-83 | the total is never negative when unit prices are non-negative |
| BillingService.FindInvoice | app/services/billing_service.py:12-19 | the first invoice of the org for exactly (start, end), or none exactly when there is none |
| BillingService.Generate | app/services/billing_service.py:10-114 | paid: returned as is, nothing written; unpaid: only its total changes, to the sum of the computed items, and no item is written; none: a new draft due end + 7 with every computed item attached, its total being the sum of those items |
| BillingService.GenerateIdempotent | app/services/billing_service.py:10-114 | a second run with the same usage, plans and rules changes nothing and returns the same invoice |
| BillingService.SingleEndpointTotal | app/services/billing_service.py:67-83 | when all the org's rows in the period are for one priced endpoint, there is one item, with all of them as units, and the total is its free-tier cost |
| BillingService.RegenerationKeepsFirstItems | app/services/billing_service.py:90-96 | regenerating after usage changed keeps the first run's items, which still sum to the old total, while the stored total follows the new usage |
| BillingService.FreeTierExamples | app/services/billing_service.py:73-74 | with 100 free units at 0.02: 120 units cost 0.40, 140 cost 0.80, 80 cost 0 |
| BillingService.InvoiceStore.BuildRulesMap | app/services/billing_service.py:60-65 | the loop builds exactly `RuleMap` of the rules |
| BillingService.InvoiceStore.PriceUsage | app/services/billing_service.py:67-87 | the loop yields exactly the priced items, and a total equal to the sum of their amounts |
| BillingService.InvoiceStore.GenerateInvoiceForOrg | app/services/billing_service.py:10-114 | the returned invoice and the new invoice and item tables are exactly those of `Generate` |
| BillingService.InvoiceStore.AttachItems | app/services/billing_service.py:109-111 | every computed item is pointed at the new invoice and appended to the item table, in order; the invoice table is unchanged |
| UsageSummary.FirstMembership | app/api/v1/endpoints/usage.py:25-26 | the user's first membership row, or none exactly when the user has none |
| UsageSummary.DayKeysOfRows | app/api/v1/endpoints/usage.py:31-39 | an (endpoint, date) pair is a grouping key exactly when some row of the org in the range has that endpoint and date |
| UsageSummary.SummaryRejectsNonMembers | app/api/v1/endpoints/usage.py:25-28 | the answer is an error exactly when the user has no membership, and the error is 400 "User not in any organization" |
| UsageSummary.FormatGroups | app/api/v1/endpoints/usage.py:31-51 | the entries list each pair at most once, exactly the pairs that occur, each with its number of occurrences (at least 1); the counts add up to the number of rows |
| UsageSummary.SummaryCounts | app/api/v1/endpoints/usage.py:31-51 | each (endpoint, date) is listed at most once, with the number of the org's rows in the range that have it; the counts add up to the number of those rows |
| UsageSummary.SummaryPairs | app/api/v1/endpoints/usage.py:35-39 | an (endpoint, date) is listed exactly when some row of the member's org, dated in the range, has it |
| UsageSummary.GetUsageSummary | app/api/v1/endpoints/usage.py:15-52 | the membership check and the formatting loop give exactly `Summary` |

## Left out

- `hash_key` (app/middleware/rate_limit.py:70-72, app/middleware/usage_tracker.py:70-72): SHA-256 and hex encoding are the parameter `hash`, with no property assumed, not even injectivity.
- `secrets.token_urlsafe(32)`: the secret is a parameter, and its length and alphabet are not modelled.
- Record ids (UUIDs) and `func.now()` are parameters; id collisions are not modelled.
- Serial usage ids: the model assumes the database hands out gap-free serials, so a new usage row gets id `|log| + 1` (`UsageTracker.UsageTrackingMiddleware.LogUsage`, `UsageTracker.UsageLogTable.Valid`). Gaps left by rolled-back inserts are not modelled.
- Concurrency and async scheduling: `INCR` is one atomic step, and background tasks run later, one at a time. Races between workers are not modelled.
- The redundant first digest query in `log_usage` (app/middleware/usage_tracker.py:43) is left out, because its result is never read.
- Redis or database failures and timeouts are not modelled; the source has no fallback for them.
- The Redis key strings `apikey:meta:{digest}` and `rate:{digest}:{second}` are a datatype of keys. Values are stored as integers, not as the strings `int(limit)` parses back.
- A credential whose `rate_limit_per_sec` is null is not modelled: the model's limit is always an integer.
- A pricing rule whose `unit_price` or `free_tier_limit` is null (the columns are nullable, app/models/billing.py:31-32) is not modelled. The model's rule fields are always a real and an integer. In the source, such a rule makes the cost computation at app/services/billing_service.py:73-74 raise `TypeError`.
- The 429 response body `{"detail": "Rate limit exceeded"}`: only the status is modelled.
- Floating-point money: `unit_price`, `amount` and `total_amount` are exact reals, so no rounding is modelled.
- Time zones: calendar dates are UTC day numbers of the millisecond timestamp.
- Result order of the `GROUP BY` queries is unspecified in SQL. The model lists groups in first-occurrence order, and the lemmas state only order-independent facts.
- Tasks a handler sets on its response are opaque steps that write no usage rows.
- Sessions, commits, `flush` and `refresh`: each operation's writes take effect together.
- Login, current-user resolution and the HTTP plumbing around `get_usage_summary`: the user id and the parsed dates are parameters.
