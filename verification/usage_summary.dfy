/** The usage summary endpoint (app/api/v1/endpoints/usage.py,
    `get_usage_summary`): the caller's organisation is that of their first
    membership row; its usage rows dated in the inclusive range are counted
    per (endpoint, calendar date) and listed one entry per pair. */
module UsageSummary {
  import opened Wrappers
  import opened Models
  import opened Grouping

  /** One element of the response list. */
  datatype SummaryEntry = SummaryEntry(endpoint: string, count: nat, date: Day)

  /** An `HTTPException` raised by the handler. */
  datatype HttpError = HttpError(statusCode: int, detail: string)

  const BadRequestStatus: int := 400
  const NotInOrganization: string := "User not in any organization"

  /** The first membership row of the user, as `.scalars().first()` picks it. */
  function FirstMembership(members: seq<OrganizationMember>, userId: Id): (r: Option<OrganizationMember>)
    ensures r.None? <==> forall i :: 0 <= i < |members| ==> members[i].userId != userId
    ensures r.Some? ==> exists i :: 0 <= i < |members| && members[i] == r.value && r.value.userId == userId
                                    && forall j :: 0 <= j < i ==> members[j].userId != userId
  {
    if members == [] then None
    else if members[0].userId == userId then Some(members[0])
    else
      var rest := FirstMembership(members[1..], userId);
      assert rest.Some? ==> exists i :: 0 <= i < |members| - 1 && members[1..][i] == rest.value
                                        && forall j :: 0 <= j < i ==> members[1..][j].userId != userId;
      if rest.Some? then
        var i :| 0 <= i < |members| - 1 && members[1..][i] == rest.value
                 && forall j :: 0 <= j < i ==> members[1..][j].userId != userId;
        assert members[i + 1] == rest.value;
        assert forall j :: 0 <= j < i + 1 ==> members[j].userId != userId by {
          forall j | 0 <= j < i + 1 ensures members[j].userId != userId {
            if j > 0 {
              assert members[j] == members[1..][j - 1];
            }
          }
        }
        rest
      else
        assert forall j :: 1 <= j < |members| ==> members[j] == members[1..][j - 1];
        rest
  }

  /** The grouping key (endpoint, date(timestamp)) of each row the query keeps. */
  function DayKeys(usage: seq<UsageLog>, orgId: Id, startDate: Day, endDate: Day): (r: seq<(string, Day)>)
    ensures |r| == |Filtered(usage, orgId, startDate, endDate)|
  {
    var rows := Filtered(usage, orgId, startDate, endDate);
    seq(|rows|, i requires 0 <= i < |rows| => (rows[i].endpoint, DayOf(rows[i].timestamp)))
  }

  /** A pair is a grouping key of the query exactly when some usage row of the
      org dated in the range has that endpoint and that date. */
  lemma DayKeysOfRows(usage: seq<UsageLog>, orgId: Id, startDate: Day, endDate: Day, key: (string, Day))
    ensures key in DayKeys(usage, orgId, startDate, endDate) <==>
            exists u :: u in usage && InPeriod(u, orgId, startDate, endDate)
                        && u.endpoint == key.0 && DayOf(u.timestamp) == key.1
  {
    var rows := Filtered(usage, orgId, startDate, endDate);
    var keys := DayKeys(usage, orgId, startDate, endDate);
    if key in keys {
      var i :| 0 <= i < |keys| && keys[i] == key;
      assert rows[i] in rows;
    }
    if exists u :: u in usage && InPeriod(u, orgId, startDate, endDate)
                   && u.endpoint == key.0 && DayOf(u.timestamp) == key.1 {
      var u :| u in usage && InPeriod(u, orgId, startDate, endDate)
               && u.endpoint == key.0 && DayOf(u.timestamp) == key.1;
      assert u in rows;
      var i :| 0 <= i < |rows| && rows[i] == u;
      assert keys[i] == key;
    }
  }

  /** The response rows for the grouped query result, in its order. */
  function Format(groups: seq<((string, Day), nat)>): (r: seq<SummaryEntry>)
    ensures |r| == |groups|
  {
    seq(|groups|, i requires 0 <= i < |groups| => SummaryEntry(groups[i].0.0, groups[i].1, groups[i].0.1))
  }

  /** What the handler answers. */
  function Summary(members: seq<OrganizationMember>, usage: seq<UsageLog>, userId: Id,
                   startDate: Day, endDate: Day): Result<seq<SummaryEntry>, HttpError>
  {
    match FirstMembership(members, userId)
    case None => Failure(HttpError(BadRequestStatus, NotInOrganization))
    case Some(member) => Success(Format(Groups(DayKeys(usage, member.orgId, startDate, endDate))))
  }

  function SumCounts(entries: seq<SummaryEntry>): nat
  {
    if entries == [] then 0 else entries[0].count + SumCounts(entries[1..])
  }

  lemma {:induction false} SumCountsFormat(groups: seq<((string, Day), nat)>)
    ensures SumCounts(Format(groups)) == Total(groups)
  {
    if groups != [] {
      assert Format(groups)[1..] == Format(groups[1..]);
      SumCountsFormat(groups[1..]);
    }
  }

  /** The request fails with 400 exactly when the user belongs to no
      organisation. */
  lemma SummaryRejectsNonMembers(members: seq<OrganizationMember>, usage: seq<UsageLog>, userId: Id,
                                 startDate: Day, endDate: Day)
    ensures Summary(members, usage, userId, startDate, endDate).Failure? <==>
            forall i :: 0 <= i < |members| ==> members[i].userId != userId
    ensures Summary(members, usage, userId, startDate, endDate).Failure? ==>
            Summary(members, usage, userId, startDate, endDate).error
            == HttpError(400, "User not in any organization")
  {
  }

  /** The formatted grouping of any key sequence: each pair at most once, a
      pair listed exactly when it occurs among the keys, each count the number
      of its occurrences (at least 1), and the counts adding up to the number
      of keys. */
  lemma FormatGroups(keys: seq<(string, Day)>)
    ensures var entries := Format(Groups(keys));
            && (forall i, j :: 0 <= i < j < |entries| ==>
                  (entries[i].endpoint, entries[i].date) != (entries[j].endpoint, entries[j].date))
            && (forall i :: 0 <= i < |entries| ==>
                  && entries[i].count == Count(keys, (entries[i].endpoint, entries[i].date))
                  && entries[i].count >= 1
                  && (entries[i].endpoint, entries[i].date) in keys)
            && (forall k :: k in keys ==>
                  exists i :: 0 <= i < |entries| && entries[i].endpoint == k.0 && entries[i].date == k.1)
            && SumCounts(entries) == |keys|
  {
    var g := Groups(keys);
    var entries := Format(g);
    GroupsSpec(keys);
    SumCountsFormat(g);
    forall i | 0 <= i < |entries|
      ensures entries[i].count == Count(keys, (entries[i].endpoint, entries[i].date))
      ensures (entries[i].endpoint, entries[i].date) in keys
    {
      GroupCountIsCount(keys, i);
      assert g[i].0 == (entries[i].endpoint, entries[i].date);
      KeysAt(g, i);
    }
    forall k | k in keys
      ensures exists i :: 0 <= i < |entries| && entries[i].endpoint == k.0 && entries[i].date == k.1
    {
      var i := KeyIndex(g, k);
      assert entries[i].endpoint == k.0 && entries[i].date == k.1;
    }
  }

  /** Whether the answer has an entry for (endpoint, date). */
  predicate Listed(entries: seq<SummaryEntry>, endpoint: string, date: Day)
  {
    exists i :: 0 <= i < |entries| && entries[i].endpoint == endpoint && entries[i].date == date
  }

  /** Whether some usage row of the org, dated in the range, has that endpoint
      and that date. */
  ghost predicate UsedOn(usage: seq<UsageLog>, orgId: Id, startDate: Day, endDate: Day,
                         endpoint: string, date: Day)
  {
    exists u :: u in usage && InPeriod(u, orgId, startDate, endDate)
                && u.endpoint == endpoint && DayOf(u.timestamp) == date
  }

  /** A successful answer lists each (endpoint, date) pair of the member's org
      at most once; each count is the number of that org's rows in the range
      with that endpoint and date, and is at least 1; and the counts add up to
      the number of the org's rows in the range. */
  lemma SummaryCounts(members: seq<OrganizationMember>, usage: seq<UsageLog>, userId: Id,
                      startDate: Day, endDate: Day)
    requires FirstMembership(members, userId).Some?
    ensures var orgId := FirstMembership(members, userId).value.orgId;
            var entries := Summary(members, usage, userId, startDate, endDate).value;
            var keys := DayKeys(usage, orgId, startDate, endDate);
            && (forall i, j :: 0 <= i < j < |entries| ==>
                  (entries[i].endpoint, entries[i].date) != (entries[j].endpoint, entries[j].date))
            && (forall i :: 0 <= i < |entries| ==>
                  entries[i].count == Count(keys, (entries[i].endpoint, entries[i].date)) && entries[i].count >= 1)
            && SumCounts(entries) == |Filtered(usage, orgId, startDate, endDate)|
  {
    var orgId := FirstMembership(members, userId).value.orgId;
    var keys := DayKeys(usage, orgId, startDate, endDate);
    assert Summary(members, usage, userId, startDate, endDate).value == Format(Groups(keys));
    FormatGroups(keys);
  }

  /** A successful answer has an entry for (endpoint, date) exactly when some
      usage row of the member's org, dated in the range, has that endpoint and
      that date. */
  lemma SummaryPairs(members: seq<OrganizationMember>, usage: seq<UsageLog>, userId: Id,
                     startDate: Day, endDate: Day)
    requires FirstMembership(members, userId).Some?
    ensures var orgId := FirstMembership(members, userId).value.orgId;
            var entries := Summary(members, usage, userId, startDate, endDate).value;
            forall endpoint, date :: Listed(entries, endpoint, date)
                                     <==> UsedOn(usage, orgId, startDate, endDate, endpoint, date)
  {
    var orgId := FirstMembership(members, userId).value.orgId;
    var keys := DayKeys(usage, orgId, startDate, endDate);
    var entries := Format(Groups(keys));
    assert Summary(members, usage, userId, startDate, endDate).value == entries;
    FormatGroups(keys);
    forall endpoint, date
      ensures Listed(entries, endpoint, date) <==> UsedOn(usage, orgId, startDate, endDate, endpoint, date)
    {
      DayKeysOfRows(usage, orgId, startDate, endDate, (endpoint, date));
      if Listed(entries, endpoint, date) {
        var i :| 0 <= i < |entries| && entries[i].endpoint == endpoint && entries[i].date == date;
        assert (entries[i].endpoint, entries[i].date) in keys;
      }
    }
  }

  /** The position of a key listed in `g`. */
  lemma {:induction false} KeyIndex<K>(g: seq<(K, nat)>, k: K) returns (i: nat)
    requires k in Keys(g)
    ensures i < |g| && g[i].0 == k
  {
    if g[0].0 == k {
      i := 0;
    } else {
      var j := KeyIndex(g[1..], k);
      i := j + 1;
    }
  }

  /** `get_usage_summary`: the membership lookup, then the formatting loop over
      the grouped query result. */
  method GetUsageSummary(members: seq<OrganizationMember>, usage: seq<UsageLog>, userId: Id,
                         startDate: Day, endDate: Day)
    returns (r: Result<seq<SummaryEntry>, HttpError>)
    ensures r == Summary(members, usage, userId, startDate, endDate)
  {
    var member := FirstMembership(members, userId);
    if member.None? {
      return Failure(HttpError(BadRequestStatus, NotInOrganization));
    }
    var data := Groups(DayKeys(usage, member.value.orgId, startDate, endDate));
    var summary: seq<SummaryEntry> := [];
    for i := 0 to |data|
      invariant summary == Format(data[..i])
    {
      var (key, count) := data[i];
      var (endpoint, day) := key;
      summary := summary + [SummaryEntry(endpoint, count, day)];
    }
    assert data[..|data|] == data;
    return Success(summary);
  }
}
