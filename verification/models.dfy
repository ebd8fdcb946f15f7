/** The persisted records the metering and billing code reads and writes:
    credentials (app/models/organization.py), usage events (app/models/usage.py)
    and pricing, invoices and invoice items (app/models/billing.py).

    Identifiers (UUIDs) and digests are strings.  Clock readings are
    milliseconds since the epoch; calendar dates are day numbers since the
    epoch.  Money is an exact `real` rather than the source's Float columns. */
module Models {
  import opened Wrappers

  type Id = string
  type Digest = string
  type Day = int

  const MillisPerDay: nat := 86_400_000

  /** The calendar date of a timestamp, as the database's `date()` gives it
      (in UTC). */
  function DayOf(timestampMs: nat): Day
  {
    timestampMs / MillisPerDay
  }

  /** Column default of `rate_limit_per_sec`. */
  const DefaultRateLimitPerSec: int := 5

  /** A row of `api_keys`.  Only the digest of the full key is stored. */
  datatype ApiKey = ApiKey(
    id: Id,
    orgId: Id,
    keyPrefix: string,
    keyHash: Digest,
    name: string,
    isActive: bool,
    rateLimitPerSec: int,
    createdAt: nat)

  /** A row of `usage_logs`; `timestamp` is the insertion time. */
  datatype UsageLog = UsageLog(
    id: nat,
    orgId: Id,
    apiKeyId: Id,
    endpoint: string,
    httpMethod: string,
    statusCode: int,
    costMultiplier: real,
    timestamp: nat)

  datatype InvoiceStatus = Draft | Open | Paid | Void

  datatype PricingPlan = PricingPlan(id: Id, name: string, baseCost: real, currency: string)

  datatype PricingRule = PricingRule(
    id: Id,
    planId: Id,
    resourceName: string,
    unitPrice: real,
    freeTierLimit: int)

  /** A row of `invoices`; `dueDate` is nullable in the table. */
  datatype Invoice = Invoice(
    id: Id,
    orgId: Id,
    startDate: Day,
    endDate: Day,
    totalAmount: real,
    status: InvoiceStatus,
    dueDate: Option<Day>,
    createdAt: nat)

  /** A row of `invoice_items`.  `invoiceId` is `None` while the item is only
      computed and not yet attached to an invoice. */
  datatype InvoiceItem = InvoiceItem(
    invoiceId: Option<Id>,
    description: string,
    units: int,
    unitPrice: real,
    amount: real)

  /** The usage rows an aggregation over (org, start, end) looks at: the org's
      rows whose calendar date lies in the inclusive range. */
  predicate InPeriod(u: UsageLog, orgId: Id, startDate: Day, endDate: Day)
  {
    u.orgId == orgId && startDate <= DayOf(u.timestamp) <= endDate
  }

  /** The `WHERE org_id = .. AND date(timestamp) BETWEEN ..` filter: every
      row of the org dated in the range, as often as the log holds it, and no
      other row. */
  function Filtered(usage: seq<UsageLog>, orgId: Id, startDate: Day, endDate: Day): (r: seq<UsageLog>)
    ensures |r| <= |usage|
    ensures forall u :: u in r <==> u in usage && InPeriod(u, orgId, startDate, endDate)
    ensures forall u :: multiset(r)[u] == if InPeriod(u, orgId, startDate, endDate) then multiset(usage)[u] else 0
  {
    if usage == [] then []
    else
      var init, last := usage[..|usage| - 1], usage[|usage| - 1];
      assert usage == init + [last];
      Filtered(init, orgId, startDate, endDate)
        + (if InPeriod(last, orgId, startDate, endDate) then [last] else [])
  }

  /** Whether a request carries an `X-API-KEY` header; an empty header value
      counts as absent, as the header's truthiness test in both middlewares
      makes it. */
  predicate HasApiKey(header: Option<string>)
  {
    header.Some? && header.value != ""
  }

  datatype OrgRole = Admin | Member

  /** A row of `organization_members`. */
  datatype OrganizationMember = OrganizationMember(userId: Id, orgId: Id, role: OrgRole)
}
