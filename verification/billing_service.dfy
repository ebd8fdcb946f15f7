/** Invoice aggregation (app/services/billing_service.py,
    `generate_invoice_for_org`).

    `Generate` states what one run does to the invoice and item tables and
    which invoice it returns; `InvoiceStore.GenerateInvoiceForOrg` is the
    step-by-step service, with the rule-map loop and the pricing loop, proved
    to do exactly that.  The usage log, plans and rules are read-only inputs.
    Money is exact (`real`). */
module BillingService {
  import opened Wrappers
  import opened Models
  import opened Grouping

  /** Days from the end of the period to the due date of a new invoice. */
  const DueAfterDays: int := 7

  /** The grouping keys of the usage query: the endpoint of each row of the
      org in the period. */
  function Endpoints(usage: seq<UsageLog>, orgId: Id, startDate: Day, endDate: Day): (r: seq<string>)
    ensures |r| == |Filtered(usage, orgId, startDate, endDate)|
  {
    var rows := Filtered(usage, orgId, startDate, endDate);
    seq(|rows|, i requires 0 <= i < |rows| => rows[i].endpoint)
  }

  /** `usage_data`: (endpoint, count) for the org's rows in the period. */
  function UsageByEndpoint(usage: seq<UsageLog>, orgId: Id, startDate: Day, endDate: Day): seq<(string, nat)>
  {
    Groups(Endpoints(usage, orgId, startDate, endDate))
  }

  /** Each endpoint is listed once, with the number of the org's rows in the
      period that have it; an endpoint without such rows is not listed; the
      counts add up to the number of those rows. */
  lemma UsageByEndpointSpec(usage: seq<UsageLog>, orgId: Id, startDate: Day, endDate: Day)
    ensures var g := UsageByEndpoint(usage, orgId, startDate, endDate);
            var eps := Endpoints(usage, orgId, startDate, endDate);
            && DistinctKeys(g)
            && (forall i :: 0 <= i < |g| ==> g[i].1 == Count(eps, g[i].0) && g[i].1 >= 1)
            && (forall ep :: ep in Keys(g) <==> ep in eps)
            && Total(g) == |Filtered(usage, orgId, startDate, endDate)|
  {
    var eps := Endpoints(usage, orgId, startDate, endDate);
    GroupsSpec(eps);
    forall i | 0 <= i < |Groups(eps)| ensures Groups(eps)[i].1 == Count(eps, Groups(eps)[i].0) {
      GroupCountIsCount(eps, i);
    }
  }

  /** A usage row of another org, or dated outside the period, changes nothing
      in the aggregation. */
  lemma OtherRowsIgnored(usage: seq<UsageLog>, u: UsageLog, orgId: Id, startDate: Day, endDate: Day)
    requires !InPeriod(u, orgId, startDate, endDate)
    ensures UsageByEndpoint(usage + [u], orgId, startDate, endDate)
            == UsageByEndpoint(usage, orgId, startDate, endDate)
  {
    var all := usage + [u];
    assert all[..|all| - 1] == usage;
    assert Filtered(all, orgId, startDate, endDate) == Filtered(usage, orgId, startDate, endDate);
  }

  /** The first plan the query returns, whichever org is billed. */
  function FirstPlan(plans: seq<PricingPlan>): Option<PricingPlan>
  {
    if plans == [] then None else Some(plans[0])
  }

  /** The rules of one plan, in table order. */
  function PlanRules(rules: seq<PricingRule>, planId: Id): (r: seq<PricingRule>)
    ensures forall i :: 0 <= i < |r| ==> r[i].planId == planId && r[i] in rules
  {
    if rules == [] then []
    else PlanRules(rules[..|rules| - 1], planId)
         + (if rules[|rules| - 1].planId == planId then [rules[|rules| - 1]] else [])
  }

  /** The plan's rules are each rule of that plan as often as the table holds
      it, and no rule of another plan. */
  lemma {:induction false} PlanRulesExact(rules: seq<PricingRule>, planId: Id)
    ensures forall x :: multiset(PlanRules(rules, planId))[x]
                        == if x.planId == planId then multiset(rules)[x] else 0
  {
    if rules != [] {
      var init, last := rules[..|rules| - 1], rules[|rules| - 1];
      assert rules == init + [last];
      PlanRulesExact(init, planId);
    }
  }

  /** `rules_map`: `rules_map[r.resource_name] = r` for each rule in order. */
  function RuleMap(rules: seq<PricingRule>): map<string, PricingRule>
  {
    if rules == [] then map[]
    else RuleMap(rules[..|rules| - 1])[rules[|rules| - 1].resourceName := rules[|rules| - 1]]
  }

  /** A name is in the rule map exactly when some rule has it. */
  lemma {:induction false} RuleMapKeys(rules: seq<PricingRule>, name: string)
    ensures name in RuleMap(rules) <==> exists i :: 0 <= i < |rules| && rules[i].resourceName == name
  {
    if rules != [] {
      var n := |rules|;
      var init := rules[..n - 1];
      RuleMapKeys(init, name);
      if rules[n - 1].resourceName != name {
        if exists i :: 0 <= i < n && rules[i].resourceName == name {
          var i :| 0 <= i < n && rules[i].resourceName == name;
          assert init[i].resourceName == name;
        }
        if exists i :: 0 <= i < n - 1 && init[i].resourceName == name {
          var i :| 0 <= i < n - 1 && init[i].resourceName == name;
          assert rules[i].resourceName == name;
        }
      }
    }
  }

  /** A name of the rule map maps to the last rule with that name. */
  lemma {:induction false} RuleMapLast(rules: seq<PricingRule>, name: string)
    ensures name in RuleMap(rules) ==>
              exists i :: 0 <= i < |rules| && rules[i] == RuleMap(rules)[name]
                          && rules[i].resourceName == name
                          && forall j :: i < j < |rules| ==> rules[j].resourceName != name
  {
    if rules != [] {
      var n := |rules|;
      var init := rules[..n - 1];
      RuleMapLast(init, name);
      var m := RuleMap(rules);
      assert m == RuleMap(init)[rules[n - 1].resourceName := rules[n - 1]];
      if rules[n - 1].resourceName == name {
        assert m[name] == rules[n - 1];
      } else if name in m {
        assert name in RuleMap(init) && m[name] == RuleMap(init)[name];
        var i :| 0 <= i < |init| && init[i] == RuleMap(init)[name] && init[i].resourceName == name
                 && forall j :: i < j < |init| ==> init[j].resourceName != name;
        assert rules[i] == m[name];
        forall j | i < j < n ensures rules[j].resourceName != name {
          if j < n - 1 {
            assert rules[j] == init[j];
          }
        }
      }
    }
  }

  /** A name is in the rule map exactly when some rule has it, and it maps to
      the last such rule. */
  lemma RuleMapLastWins(rules: seq<PricingRule>, name: string)
    ensures name in RuleMap(rules) <==> exists i :: 0 <= i < |rules| && rules[i].resourceName == name
    ensures name in RuleMap(rules) ==>
              exists i :: 0 <= i < |rules| && rules[i] == RuleMap(rules)[name]
                          && rules[i].resourceName == name
                          && forall j :: i < j < |rules| ==> rules[j].resourceName != name
  {
    RuleMapKeys(rules, name);
    RuleMapLast(rules, name);
  }

  /** A rule that belongs to the plan and has the name. */
  predicate PlanRuleFor(r: PricingRule, planId: Id, name: string)
  {
    r.planId == planId && r.resourceName == name
  }

  /** One more table row adds its rule to the plan's map when it belongs to
      the plan, and leaves the map alone otherwise. */
  lemma PlanRuleMapSnoc(rules: seq<PricingRule>, planId: Id)
    requires rules != []
    ensures var last := rules[|rules| - 1];
            RuleMap(PlanRules(rules, planId))
            == if last.planId == planId
               then RuleMap(PlanRules(rules[..|rules| - 1], planId))[last.resourceName := last]
               else RuleMap(PlanRules(rules[..|rules| - 1], planId))
  {
    var own := PlanRules(rules[..|rules| - 1], planId);
    var last := rules[|rules| - 1];
    if last.planId == planId {
      var all := own + [last];
      assert all[..|all| - 1] == own;
    } else {
      assert own + [] == own;
    }
  }

  /** Row `i` of the table is the last rule of the plan with that name. */
  predicate LastPlanRule(rules: seq<PricingRule>, planId: Id, name: string, i: int)
  {
    && 0 <= i < |rules| && PlanRuleFor(rules[i], planId, name)
    && forall j :: i < j < |rules| ==> !PlanRuleFor(rules[j], planId, name)
  }

  /** Some rule of the table belongs to the plan and has the name. */
  predicate HasPlanRule(rules: seq<PricingRule>, planId: Id, name: string)
  {
    exists i :: 0 <= i < |rules| && PlanRuleFor(rules[i], planId, name)
  }

  /** A table has such a rule when its last row is one or the rows before it
      have one. */
  lemma HasPlanRuleSnoc(rules: seq<PricingRule>, planId: Id, name: string)
    requires rules != []
    ensures HasPlanRule(rules, planId, name)
            <==> HasPlanRule(rules[..|rules| - 1], planId, name) || PlanRuleFor(rules[|rules| - 1], planId, name)
  {
    var init := rules[..|rules| - 1];
    if HasPlanRule(rules, planId, name) && !PlanRuleFor(rules[|rules| - 1], planId, name) {
      var i :| 0 <= i < |rules| && PlanRuleFor(rules[i], planId, name);
      assert PlanRuleFor(init[i], planId, name);
    }
    if HasPlanRule(init, planId, name) {
      var i :| 0 <= i < |init| && PlanRuleFor(init[i], planId, name);
      assert PlanRuleFor(rules[i], planId, name);
    }
  }

  /** The map built from a plan's rules holds a name exactly when some rule of
      that plan has it. */
  lemma {:induction false} PlanRuleMapKeys(rules: seq<PricingRule>, planId: Id, name: string)
    ensures name in RuleMap(PlanRules(rules, planId)) <==> HasPlanRule(rules, planId, name)
  {
    if rules != [] {
      PlanRuleMapKeys(rules[..|rules| - 1], planId, name);
      PlanRuleMapSnoc(rules, planId);
      HasPlanRuleSnoc(rules, planId, name);
    }
  }

  /** A row that is not a rule of the plan with the name keeps the last such
      rule last. */
  lemma LastPlanRuleSnoc(rules: seq<PricingRule>, planId: Id, name: string, i: int)
    requires rules != [] && !PlanRuleFor(rules[|rules| - 1], planId, name)
    requires LastPlanRule(rules[..|rules| - 1], planId, name, i)
    ensures LastPlanRule(rules, planId, name, i) && rules[i] == rules[..|rules| - 1][i]
  {
  }

  /** A name of the plan's map maps to the last rule of that plan with the
      name. */
  lemma {:induction false} PlanRuleMapLast(rules: seq<PricingRule>, planId: Id, name: string)
    ensures name in RuleMap(PlanRules(rules, planId)) ==>
              exists i :: LastPlanRule(rules, planId, name, i) && rules[i] == RuleMap(PlanRules(rules, planId))[name]
  {
    if rules != [] {
      var n := |rules|;
      var init := rules[..n - 1];
      PlanRuleMapLast(init, planId, name);
      PlanRuleMapSnoc(rules, planId);
      var before := RuleMap(PlanRules(init, planId));
      var m := RuleMap(PlanRules(rules, planId));
      if PlanRuleFor(rules[n - 1], planId, name) {
        assert m[name] == rules[n - 1];
        assert LastPlanRule(rules, planId, name, n - 1);
      } else if name in m {
        assert name in before && m[name] == before[name];
        var i :| LastPlanRule(init, planId, name, i) && init[i] == before[name];
        LastPlanRuleSnoc(rules, planId, name, i);
      }
    }
  }

  /** The map built from a plan's rules holds a name exactly when some rule of
      that plan has it, and maps it to the last such rule of the table. */
  lemma PlanRuleMapLastWins(rules: seq<PricingRule>, planId: Id, name: string)
    ensures name in RuleMap(PlanRules(rules, planId)) <==>
            exists i :: 0 <= i < |rules| && PlanRuleFor(rules[i], planId, name)
    ensures name in RuleMap(PlanRules(rules, planId)) ==>
              exists i :: LastPlanRule(rules, planId, name, i) && rules[i] == RuleMap(PlanRules(rules, planId))[name]
  {
    PlanRuleMapKeys(rules, planId, name);
    PlanRuleMapLast(rules, planId, name);
  }

  /** The rules the pricing uses: those of the first plan, indexed by resource
      name, and none when there is no plan.  The org plays no part. */
  function ApplicableRules(plans: seq<PricingPlan>, rules: seq<PricingRule>): (m: map<string, PricingRule>)
    ensures plans == [] ==> m == map[]
    ensures forall name :: name in m ==> m[name].planId == plans[0].id && m[name].resourceName == name
                                         && m[name] in rules
    // Every rule of the first plan is consulted, and the last one of a name wins.
    ensures plans != [] ==>
              forall name :: name in m <==> exists i :: 0 <= i < |rules| && PlanRuleFor(rules[i], plans[0].id, name)
    ensures plans != [] ==>
              forall name :: name in m ==> exists i :: LastPlanRule(rules, plans[0].id, name, i) && rules[i] == m[name]
  {
    match FirstPlan(plans)
    case None => map[]
    case Some(plan) =>
      var own := PlanRules(rules, plan.id);
      var m := RuleMap(own);
      assert forall name :: name in m ==>
               (m[name].planId == plans[0].id && m[name].resourceName == name && m[name] in rules) by {
        forall name | name in m
          ensures m[name].planId == plans[0].id && m[name].resourceName == name && m[name] in rules
        {
          RuleMapLastWins(own, name);
        }
      }
      assert forall name :: (name in m <==> exists i :: 0 <= i < |rules| && PlanRuleFor(rules[i], plan.id, name))
                            && (name in m ==> exists i :: LastPlanRule(rules, plan.id, name, i) && rules[i] == m[name]) by {
        forall name
          ensures name in m <==> exists i :: 0 <= i < |rules| && PlanRuleFor(rules[i], plan.id, name)
          ensures name in m ==> exists i :: LastPlanRule(rules, plan.id, name, i) && rules[i] == m[name]
        {
          PlanRuleMapLastWins(rules, plan.id, name);
        }
      }
      m
  }


  /** The free-tier price of `count` units: nothing up to the free limit, the
      unit price for each unit beyond it. */
  function ItemCost(count: int, rule: PricingRule): (c: real)
    ensures count <= rule.freeTierLimit ==> c == 0.0
    ensures rule.unitPrice >= 0.0 ==> c >= 0.0
  {
    var billable := if count - rule.freeTierLimit > 0 then count - rule.freeTierLimit else 0;
    billable as real * rule.unitPrice
  }

  /** The item for an endpoint with a rule, not yet attached to an invoice. */
  function ItemFor(endpoint: string, count: nat, rule: PricingRule): (it: InvoiceItem)
    ensures it.invoiceId.None? && it.units == count && it.unitPrice == rule.unitPrice
    ensures it.amount == ItemCost(count, rule)
  {
    InvoiceItem(None, "Usage for " + endpoint, count, rule.unitPrice, ItemCost(count, rule))
  }

  /** `invoice_items`: one item per (endpoint, count) whose endpoint has a rule,
      in order; endpoints without a rule yield nothing. */
  function PricedItems(usageData: seq<(string, nat)>, rules: map<string, PricingRule>): seq<InvoiceItem>
  {
    if usageData == [] then []
    else
      var (endpoint, count) := usageData[|usageData| - 1];
      PricedItems(usageData[..|usageData| - 1], rules)
        + (if endpoint in rules then [ItemFor(endpoint, count, rules[endpoint])] else [])
  }

  /** Sum of the amounts. */
  function SumAmounts(items: seq<InvoiceItem>): real
  {
    if items == [] then 0.0 else SumAmounts(items[..|items| - 1]) + items[|items| - 1].amount
  }

  /** An item is billed exactly when it is the item of an endpoint that has a
      rule: units the endpoint's count, the rule's unit price, and the
      free-tier amount.  There is at most one item per usage entry. */
  lemma {:induction false} PricedItemsSpec(usageData: seq<(string, nat)>, rules: map<string, PricingRule>)
    ensures |PricedItems(usageData, rules)| <= |usageData|
    ensures forall it :: it in PricedItems(usageData, rules) <==>
              exists i :: 0 <= i < |usageData| && usageData[i].0 in rules
                          && it == ItemFor(usageData[i].0, usageData[i].1, rules[usageData[i].0])
  {
    if usageData != [] {
      var n := |usageData|;
      var init := usageData[..n - 1];
      PricedItemsSpec(init, rules);
      var before := PricedItems(init, rules);
      var last := usageData[n - 1];
      var extra := if last.0 in rules then [ItemFor(last.0, last.1, rules[last.0])] else [];
      assert PricedItems(usageData, rules) == before + extra;
      forall it
        ensures it in before + extra <==>
                exists i :: 0 <= i < n && usageData[i].0 in rules
                            && it == ItemFor(usageData[i].0, usageData[i].1, rules[usageData[i].0])
      {
        if it in before {
          var i :| 0 <= i < |init| && init[i].0 in rules && it == ItemFor(init[i].0, init[i].1, rules[init[i].0]);
          assert usageData[i] == init[i];
        } else if it in extra {
          assert usageData[n - 1] == last;
        }
      }
    }
  }

  /** Items of different endpoints differ: their descriptions do. */
  lemma ItemsOfDistinctEndpoints(a: string, b: string, countA: nat, countB: nat,
                                 ruleA: PricingRule, ruleB: PricingRule)
    requires a != b
    ensures ItemFor(a, countA, ruleA) != ItemFor(b, countB, ruleB)
  {
    var p := "Usage for ";
    assert (p + a)[|p|..] == a && (p + b)[|p|..] == b;
  }

  /** When each endpoint is listed once (as the grouped query lists it), each
      endpoint with a rule yields exactly one item: nothing is billed twice. */
  lemma {:induction false} PricedItemsOnce(usageData: seq<(string, nat)>, rules: map<string, PricingRule>)
    requires DistinctKeys(usageData)
    ensures forall i :: 0 <= i < |usageData| && usageData[i].0 in rules ==>
              Count(PricedItems(usageData, rules), ItemFor(usageData[i].0, usageData[i].1, rules[usageData[i].0])) == 1
  {
    if usageData != [] {
      var n := |usageData|;
      var init := usageData[..n - 1];
      assert DistinctKeys(init) by {
        forall i, j | 0 <= i < j < |init| ensures init[i].0 != init[j].0 {
          assert init[i] == usageData[i] && init[j] == usageData[j];
        }
      }
      PricedItemsOnce(init, rules);
      forall i | 0 <= i < n && usageData[i].0 in rules
        ensures Count(PricedItems(usageData, rules), ItemFor(usageData[i].0, usageData[i].1, rules[usageData[i].0])) == 1
      {
        if i < n - 1 {
          PricedEarlierOnce(usageData, rules, i);
        } else {
          PricedLastOnce(usageData, rules);
        }
      }
    }
  }

  /** An endpoint billed once before the last entry stays billed once: the
      last entry's item, if any, is for another endpoint. */
  lemma PricedEarlierOnce(usageData: seq<(string, nat)>, rules: map<string, PricingRule>, i: nat)
    requires DistinctKeys(usageData) && i < |usageData| - 1 && usageData[i].0 in rules
    requires var init := usageData[..|usageData| - 1];
             Count(PricedItems(init, rules), ItemFor(init[i].0, init[i].1, rules[init[i].0])) == 1
    ensures Count(PricedItems(usageData, rules), ItemFor(usageData[i].0, usageData[i].1, rules[usageData[i].0])) == 1
  {
    var n := |usageData|;
    var init := usageData[..n - 1];
    var last := usageData[n - 1];
    var before := PricedItems(init, rules);
    var extra := if last.0 in rules then [ItemFor(last.0, last.1, rules[last.0])] else [];
    assert PricedItems(usageData, rules) == before + extra;
    var it := ItemFor(usageData[i].0, usageData[i].1, rules[usageData[i].0]);
    assert usageData[i] == init[i];
    CountAppend(before, extra, it);
    if extra != [] {
      ItemsOfDistinctEndpoints(usageData[i].0, last.0, usageData[i].1, last.1,
                               rules[usageData[i].0], rules[last.0]);
      assert [] + extra == extra;
    }
  }

  /** The last entry's endpoint, when it has a rule, is billed once: no earlier
      entry has that endpoint. */
  lemma PricedLastOnce(usageData: seq<(string, nat)>, rules: map<string, PricingRule>)
    requires DistinctKeys(usageData) && usageData != [] && usageData[|usageData| - 1].0 in rules
    ensures var last := usageData[|usageData| - 1];
            Count(PricedItems(usageData, rules), ItemFor(last.0, last.1, rules[last.0])) == 1
  {
    var n := |usageData|;
    var init := usageData[..n - 1];
    var last := usageData[n - 1];
    var before := PricedItems(init, rules);
    var it := ItemFor(last.0, last.1, rules[last.0]);
    assert PricedItems(usageData, rules) == before + [it];
    PricedItemsSpec(init, rules);
    CountAppend(before, [it], it);
    if it in before {
      var j :| 0 <= j < |init| && init[j].0 in rules && it == ItemFor(init[j].0, init[j].1, rules[init[j].0]);
      assert init[j] == usageData[j];
      ItemsOfDistinctEndpoints(init[j].0, last.0, init[j].1, last.1, rules[init[j].0], rules[last.0]);
    }
    assert [] + [it] == [it];
  }


  /** Each endpoint the org used in the period and that has a rule appears on
      exactly one computed item, with its usage count as units. */
  lemma ComputedItemsOnce(usage: seq<UsageLog>, plans: seq<PricingPlan>, rules: seq<PricingRule>,
                          orgId: Id, startDate: Day, endDate: Day)
    ensures var g := UsageByEndpoint(usage, orgId, startDate, endDate);
            var m := ApplicableRules(plans, rules);
            forall i :: 0 <= i < |g| && g[i].0 in m ==>
              Count(ComputedItems(usage, plans, rules, orgId, startDate, endDate), ItemFor(g[i].0, g[i].1, m[g[i].0])) == 1
  {
    UsageByEndpointSpec(usage, orgId, startDate, endDate);
    PricedItemsOnce(UsageByEndpoint(usage, orgId, startDate, endDate), ApplicableRules(plans, rules));
  }

  /** With no rules (no plan) nothing is billed: no items, total 0. */
  lemma {:induction false} NoRulesNothingBilled(usageData: seq<(string, nat)>)
    ensures PricedItems(usageData, map[]) == [] && SumAmounts(PricedItems(usageData, map[])) == 0.0
  {
    if usageData != [] {
      NoRulesNothingBilled(usageData[..|usageData| - 1]);
    }
  }

  /** Without any pricing plan a run bills nothing: no items and total 0,
      whatever the usage. */
  lemma NoPlanNothingBilled(usage: seq<UsageLog>, rules: seq<PricingRule>,
                            orgId: Id, startDate: Day, endDate: Day)
    ensures ComputedItems(usage, [], rules, orgId, startDate, endDate) == []
    ensures SumAmounts(ComputedItems(usage, [], rules, orgId, startDate, endDate)) == 0.0
  {
    NoRulesNothingBilled(UsageByEndpoint(usage, orgId, startDate, endDate));
  }

  /** With non-negative unit prices the total is never negative. */
  lemma {:induction false} TotalNonNegative(usageData: seq<(string, nat)>, rules: map<string, PricingRule>)
    requires forall name :: name in rules ==> rules[name].unitPrice >= 0.0
    ensures SumAmounts(PricedItems(usageData, rules)) >= 0.0
  {
    if usageData != [] {
      var init := usageData[..|usageData| - 1];
      var (endpoint, count) := usageData[|usageData| - 1];
      TotalNonNegative(init, rules);
      var extra := if endpoint in rules then [ItemFor(endpoint, count, rules[endpoint])] else [];
      SumAppend(PricedItems(init, rules), extra);
    }
  }

  lemma {:induction false} SumAppend(a: seq<InvoiceItem>, b: seq<InvoiceItem>)
    ensures SumAmounts(a + b) == SumAmounts(a) + SumAmounts(b)
  {
    if b == [] {
      assert a + b == a;
    } else {
      assert (a + b)[..|a + b| - 1] == a + b[..|b| - 1];
      assert (a + b)[|a + b| - 1] == b[|b| - 1];
      SumAppend(a, b[..|b| - 1]);
    }
  }

  /** The items attached to a new invoice. */
  function Attach(items: seq<InvoiceItem>, invoiceId: Id): (r: seq<InvoiceItem>)
    ensures |r| == |items|
  {
    seq(|items|, i requires 0 <= i < |items| => items[i].(invoiceId := Some(invoiceId)))
  }

  /** Attaching items changes no amount, so not their sum. */
  lemma {:induction false} SumAttach(items: seq<InvoiceItem>, invoiceId: Id)
    ensures SumAmounts(Attach(items, invoiceId)) == SumAmounts(items)
  {
    if items != [] {
      var init := items[..|items| - 1];
      assert Attach(items, invoiceId)[..|items| - 1] == Attach(init, invoiceId);
      SumAttach(init, invoiceId);
    }
  }

  /** The items and total a run computes for an org and a period. */
  function ComputedItems(usage: seq<UsageLog>, plans: seq<PricingPlan>, rules: seq<PricingRule>,
                         orgId: Id, startDate: Day, endDate: Day): seq<InvoiceItem>
  {
    PricedItems(UsageByEndpoint(usage, orgId, startDate, endDate), ApplicableRules(plans, rules))
  }

  /** Index of the first invoice of the org for exactly this period. */
  function FindInvoice(invoices: seq<Invoice>, orgId: Id, startDate: Day, endDate: Day): (r: Option<nat>)
    ensures r.Some? ==> r.value < |invoices| && invoices[r.value].orgId == orgId
                        && invoices[r.value].startDate == startDate && invoices[r.value].endDate == endDate
    ensures r.Some? ==> forall j :: 0 <= j < r.value ==>
                          !(invoices[j].orgId == orgId && invoices[j].startDate == startDate
                            && invoices[j].endDate == endDate)
    ensures r.None? <==> forall i :: 0 <= i < |invoices| ==>
                           !(invoices[i].orgId == orgId && invoices[i].startDate == startDate
                             && invoices[i].endDate == endDate)
  {
    if invoices == [] then None
    else
      var found := FindInvoice(invoices[..|invoices| - 1], orgId, startDate, endDate);
      var last := invoices[|invoices| - 1];
      if found.Some? then found
      else if last.orgId == orgId && last.startDate == startDate && last.endDate == endDate
      then Some(|invoices| - 1)
      else None
  }

  /** The invoice and item tables. */
  datatype Tables = Tables(invoices: seq<Invoice>, items: seq<InvoiceItem>)

  /** The tables after a run, and the invoice it returns. */
  datatype Outcome = Outcome(tables: Tables, invoice: Invoice)

  /** One run of `generate_invoice_for_org`.  `newId` and `now` are the id and
      creation time a new invoice would get. */
  function Generate(t: Tables, usage: seq<UsageLog>, plans: seq<PricingPlan>, rules: seq<PricingRule>,
                    orgId: Id, startDate: Day, endDate: Day, newId: Id, now: nat): (o: Outcome)
    // A paid invoice for the period is returned as it is and nothing is written.
    ensures var found := FindInvoice(t.invoices, orgId, startDate, endDate);
            found.Some? && t.invoices[found.value].status == Paid ==>
              o == Outcome(t, t.invoices[found.value])
    // An unpaid one gets its total recomputed and nothing else: same status,
    // dates and due date, same items, no other invoice touched.
    ensures var found := FindInvoice(t.invoices, orgId, startDate, endDate);
            found.Some? && t.invoices[found.value].status != Paid ==>
              && o.invoice == t.invoices[found.value].(totalAmount := o.invoice.totalAmount)
              && o.invoice.totalAmount
                 == SumAmounts(ComputedItems(usage, plans, rules, orgId, startDate, endDate))
              && o.tables == Tables(t.invoices[found.value := o.invoice], t.items)
    // Without one, a new draft for the period is added, due 7 days after its
    // end, with every computed item attached to it and a total equal to the
    // sum of those items.
    ensures FindInvoice(t.invoices, orgId, startDate, endDate).None? ==>
              && o.invoice.id == newId && o.invoice.orgId == orgId
              && o.invoice.startDate == startDate && o.invoice.endDate == endDate
              && o.invoice.status == Draft && o.invoice.dueDate == Some(endDate + 7)
              && o.tables.invoices == t.invoices + [o.invoice]
              && o.tables.items
                 == t.items + Attach(ComputedItems(usage, plans, rules, orgId, startDate, endDate), newId)
              && o.invoice.totalAmount == SumAmounts(o.tables.items[|t.items|..])
  {
    var found := FindInvoice(t.invoices, orgId, startDate, endDate);
    if found.Some? && t.invoices[found.value].status == Paid then
      Outcome(t, t.invoices[found.value])
    else
      var items := ComputedItems(usage, plans, rules, orgId, startDate, endDate);
      var total := SumAmounts(items);
      if found.Some? then
        var updated := t.invoices[found.value].(totalAmount := total);
        Outcome(Tables(t.invoices[found.value := updated], t.items), updated)
      else
        var created := Invoice(newId, orgId, startDate, endDate, total, Draft,
                               Some(endDate + DueAfterDays), now);
        var attached := Attach(items, newId);
        assert (t.items + attached)[|t.items|..] == attached by {
          SumAttach(items, newId);
        }
        SumAttach(items, newId);
        Outcome(Tables(t.invoices + [created], t.items + attached), created)
  }

  /** A new invoice is found again by the lookup of the next run. */
  lemma FindInvoiceAppended(invoices: seq<Invoice>, inv: Invoice)
    requires FindInvoice(invoices, inv.orgId, inv.startDate, inv.endDate).None?
    ensures FindInvoice(invoices + [inv], inv.orgId, inv.startDate, inv.endDate) == Some(|invoices|)
  {
    var all := invoices + [inv];
    assert all[..|all| - 1] == invoices;
  }

  /** Rewriting the total of the invoice found does not change what is found. */
  lemma {:induction false} FindInvoiceUpdated(invoices: seq<Invoice>, orgId: Id, startDate: Day, endDate: Day,
                                              i: nat, total: real)
    requires FindInvoice(invoices, orgId, startDate, endDate) == Some(i)
    ensures FindInvoice(invoices[i := invoices[i].(totalAmount := total)], orgId, startDate, endDate) == Some(i)
  {
    var n := |invoices|;
    var updated := invoices[i := invoices[i].(totalAmount := total)];
    if i < n - 1 {
      assert updated[..n - 1] == invoices[..n - 1][i := invoices[i].(totalAmount := total)];
      FindInvoiceUpdated(invoices[..n - 1], orgId, startDate, endDate, i, total);
    } else {
      assert updated[..n - 1] == invoices[..n - 1];
    }
  }

  /** Regenerating with the same usage, plans and rules changes nothing more:
      the second run finds the invoice of the first, computes the same total
      and returns the same invoice over the same tables. */
  lemma GenerateIdempotent(t: Tables, usage: seq<UsageLog>, plans: seq<PricingPlan>, rules: seq<PricingRule>,
                           orgId: Id, startDate: Day, endDate: Day, newId: Id, now: nat, newId': Id, now': nat)
    ensures var first := Generate(t, usage, plans, rules, orgId, startDate, endDate, newId, now);
            Generate(first.tables, usage, plans, rules, orgId, startDate, endDate, newId', now') == first
  {
    var first := Generate(t, usage, plans, rules, orgId, startDate, endDate, newId, now);
    var found := FindInvoice(t.invoices, orgId, startDate, endDate);
    if found.None? {
      FindInvoiceAppended(t.invoices, first.invoice);
      assert first.tables.invoices[|t.invoices|] == first.invoice;
    } else if t.invoices[found.value].status != Paid {
      FindInvoiceUpdated(t.invoices, orgId, startDate, endDate, found.value, first.invoice.totalAmount);
      var u := first.invoice;
      assert first.tables.invoices[found.value] == u;
      assert first.tables.invoices[found.value := u.(totalAmount := u.totalAmount)] == first.tables.invoices;
    }
  }

  /** When every row of the org in the period is for one endpoint with a rule,
      the invoice has one item with all those rows as units, priced by the free
      tier. */
  lemma SingleEndpointTotal(usage: seq<UsageLog>, plans: seq<PricingPlan>, rules: seq<PricingRule>,
                            orgId: Id, startDate: Day, endDate: Day, endpoint: string)
    requires Endpoints(usage, orgId, startDate, endDate) != []
    requires forall u :: u in usage && InPeriod(u, orgId, startDate, endDate) ==> u.endpoint == endpoint
    requires endpoint in ApplicableRules(plans, rules)
    ensures var n := |Filtered(usage, orgId, startDate, endDate)|;
            var rule := ApplicableRules(plans, rules)[endpoint];
            ComputedItems(usage, plans, rules, orgId, startDate, endDate) == [ItemFor(endpoint, n, rule)]
            && SumAmounts(ComputedItems(usage, plans, rules, orgId, startDate, endDate)) == ItemCost(n, rule)
  {
    var rows := Filtered(usage, orgId, startDate, endDate);
    var eps := Endpoints(usage, orgId, startDate, endDate);
    forall i | 0 <= i < |eps| ensures eps[i] == endpoint {
      assert rows[i] in rows;
    }
    GroupsOfOneKey(eps, endpoint);
    var g := [(endpoint, |rows|)];
    assert UsageByEndpoint(usage, orgId, startDate, endDate) == g;
    assert g[..0] == [];
    var rule := ApplicableRules(plans, rules)[endpoint];
    var items := PricedItems(g, ApplicableRules(plans, rules));
    assert g[..|g| - 1] == [];
    assert PricedItems(g[..|g| - 1], ApplicableRules(plans, rules)) == [];
    assert items == [ItemFor(endpoint, |rows|, rule)];
    assert items[..0] == [];
  }

  /** Regenerating an unpaid invoice after usage changed leaves the items the
      first run attached (they still add up to the first run's total) but
      rewrites the total from the new usage: the stored total and the sum of
      the invoice's items then differ whenever the two computations do. */
  lemma RegenerationKeepsFirstItems(t: Tables, usage: seq<UsageLog>, usage': seq<UsageLog>,
                                    plans: seq<PricingPlan>, rules: seq<PricingRule>,
                                    orgId: Id, startDate: Day, endDate: Day,
                                    newId: Id, now: nat, newId': Id, now': nat)
    requires FindInvoice(t.invoices, orgId, startDate, endDate).None?
    ensures var first := Generate(t, usage, plans, rules, orgId, startDate, endDate, newId, now);
            var second := Generate(first.tables, usage', plans, rules, orgId, startDate, endDate, newId', now');
            && second.invoice.id == newId
            && second.tables.items == first.tables.items
            && SumAmounts(second.tables.items[|t.items|..])
               == SumAmounts(ComputedItems(usage, plans, rules, orgId, startDate, endDate))
            && second.invoice.totalAmount == SumAmounts(ComputedItems(usage', plans, rules, orgId, startDate, endDate))
  {
    var first := Generate(t, usage, plans, rules, orgId, startDate, endDate, newId, now);
    FindInvoiceAppended(t.invoices, first.invoice);
    assert first.tables.invoices[|t.invoices|] == first.invoice;
    SumAttach(ComputedItems(usage, plans, rules, orgId, startDate, endDate), newId);
  }

  /** The free tier at work: with 100 free units and a unit price of 0.02,
      120 units cost 0.40, 140 units cost 0.80 and 80 units cost nothing. */
  lemma FreeTierExamples(rule: PricingRule)
    requires rule.freeTierLimit == 100 && rule.unitPrice == 0.02
    ensures ItemCost(120, rule) == 0.4 && ItemCost(140, rule) == 0.8 && ItemCost(80, rule) == 0.0
  {
  }

  /** The invoice tables. */
  class InvoiceStore {
    var invoices: seq<Invoice>
    var items: seq<InvoiceItem>

    constructor ()
      ensures invoices == [] && items == []
    {
      invoices, items := [], [];
    }

    /** `rules_map`, filled rule by rule. */
    static method BuildRulesMap(rules: seq<PricingRule>) returns (m: map<string, PricingRule>)
      ensures m == RuleMap(rules)
    {
      m := map[];
      for i := 0 to |rules|
        invariant m == RuleMap(rules[..i])
      {
        assert rules[..i + 1][..i] == rules[..i];
        m := m[rules[i].resourceName := rules[i]];
      }
      assert rules[..|rules|] == rules;
    }

    /** The pricing loop: items for the priced endpoints and their total. */
    static method PriceUsage(usageData: seq<(string, nat)>, rulesMap: map<string, PricingRule>)
      returns (invoiceItems: seq<InvoiceItem>, total: real)
      ensures invoiceItems == PricedItems(usageData, rulesMap)
      ensures total == SumAmounts(invoiceItems)
    {
      invoiceItems, total := [], 0.0;
      for i := 0 to |usageData|
        invariant invoiceItems == PricedItems(usageData[..i], rulesMap)
        invariant total == SumAmounts(invoiceItems)
      {
        assert usageData[..i + 1][..i] == usageData[..i];
        var (endpoint, count) := usageData[i];
        if endpoint in rulesMap {
          var rule := rulesMap[endpoint];
          var cost := ItemCost(count, rule);
          invoiceItems := invoiceItems + [InvoiceItem(None, "Usage for " + endpoint, count, rule.unitPrice, cost)];
          total := total + cost;
        }
      }
      assert usageData[..|usageData|] == usageData;
    }

    /** `generate_invoice_for_org`. */
    method GenerateInvoiceForOrg(usage: seq<UsageLog>, plans: seq<PricingPlan>, rules: seq<PricingRule>,
                                 orgId: Id, startDate: Day, endDate: Day, newId: Id, now: nat)
      returns (invoice: Invoice)
      modifies this
      ensures Outcome(Tables(invoices, items), invoice)
              == Generate(Tables(old(invoices), old(items)), usage, plans, rules, orgId, startDate, endDate,
                          newId, now)
    {
      var existing := FindInvoice(invoices, orgId, startDate, endDate);
      if existing.Some? && invoices[existing.value].status == Paid {
        return invoices[existing.value];
      }
      var usageData := UsageByEndpoint(usage, orgId, startDate, endDate);
      var rulesMap: map<string, PricingRule> := map[];
      var defaultPlan := FirstPlan(plans);
      if defaultPlan.Some? {
        rulesMap := BuildRulesMap(PlanRules(rules, defaultPlan.value.id));
      }
      assert rulesMap == ApplicableRules(plans, rules);
      var invoiceItems, total := PriceUsage(usageData, rulesMap);
      assert invoiceItems == ComputedItems(usage, plans, rules, orgId, startDate, endDate);
      if existing.Some? {
        invoice := invoices[existing.value].(totalAmount := total);
        invoices := invoices[existing.value := invoice];
      } else {
        invoice := Invoice(newId, orgId, startDate, endDate, total, Draft, Some(endDate + DueAfterDays), now);
        invoices := invoices + [invoice];
        AttachItems(invoiceItems, newId);
      }
    }

    /** The loop that points each computed item at the new invoice and adds it. */
    method AttachItems(invoiceItems: seq<InvoiceItem>, invoiceId: Id)
      modifies this
      ensures invoices == old(invoices)
      ensures items == old(items) + Attach(invoiceItems, invoiceId)
    {
      for i := 0 to |invoiceItems|
        invariant invoices == old(invoices)
        invariant items == old(items) + Attach(invoiceItems[..i], invoiceId)
      {
        assert Attach(invoiceItems[..i + 1], invoiceId) == Attach(invoiceItems[..i], invoiceId)
                                                           + [invoiceItems[i].(invoiceId := Some(invoiceId))];
        items := items + [invoiceItems[i].(invoiceId := Some(invoiceId))];
      }
      assert invoiceItems[..|invoiceItems|] == invoiceItems;
    }
  }
}
