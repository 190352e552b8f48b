/** The checking loops of scripts/assert_opentofu_plan.py against the declarative policy, and what
    accepted plans and runs of them can do to the public edge. */
module EdgeTransitions {
  import opened Outcomes
  import opened EdgePlan

  // ------------------------------------------------------------ the checking loops

  lemma {:induction false} OnNext(rules: seq<Rule>, n: nat, port: Port)
    requires n < |rules|
    ensures On(rules[..n + 1], port) ==
            On(rules[..n], port) + if rules[n].Tcp? && rules[n].port == port then [rules[n].sources] else []
  {
    assert rules[..n + 1][..n] == rules[..n];
  }

  /** The loop of `_check_firewall`: it passes exactly structured rules with a known source
      policy. */
  method CheckRules(policy: Policy, rules: seq<Rule>, historical: bool) returns (mode: Option<Mode>)
    ensures mode == Ingress(policy, rules, historical)
  {
    var clean := true;
    var ssh, http, https := 0, 0, 0;
    var web, tls: set<Json> := {}, {};
    for n := 0 to |rules|
      invariant clean <==> forall k :: 0 <= k < n ==> Allowed(policy, rules[k])
      invariant ssh == |On(rules[..n], Port.Ssh)| && http == |On(rules[..n], Http)| && https == |On(rules[..n], Https)|
      invariant http > 0 ==> web == On(rules[..n], Http)[http - 1]
      invariant https > 0 ==> tls == On(rules[..n], Https)[https - 1]
    {
      var rule := rules[n];
      OnNext(rules, n, Port.Ssh);
      OnNext(rules, n, Http);
      OnNext(rules, n, Https);
      if rule.Unexpected? {
        clean := false;
      } else {
        match rule.port
        case Ssh =>
          ssh := ssh + 1;
          clean := clean && Allowed(policy, rule);
        case Http =>
          http, web := http + 1, rule.sources;
        case Https =>
          https, tls := https + 1, rule.sources;
      }
    }
    assert rules[..|rules|] == rules;
    RulesVerdict(policy, rules, web, tls);
    if !clean || ssh != 1 || http != 1 || https != 1 || web != tls {
      return None;
    }
    mode := Classify(policy, web, historical);
  }

  /** The counters and the last web sources decide. */
  lemma {:induction false} RulesVerdict(policy: Policy, rules: seq<Rule>, web: set<Json>, tls: set<Json>)
    requires On(rules, Http) != [] ==> web == On(rules, Http)[|On(rules, Http)| - 1]
    requires On(rules, Https) != [] ==> tls == On(rules, Https)[|On(rules, Https)| - 1]
    ensures Structured(policy, rules) <==>
              && (forall k :: 0 <= k < |rules| ==> Allowed(policy, rules[k]))
              && |On(rules, Port.Ssh)| == |On(rules, Http)| == |On(rules, Https)| == 1 && web == tls
    ensures Structured(policy, rules) ==> On(rules, Http)[0] == web
  {
    if |On(rules, Http)| == |On(rules, Https)| == 1 {
      assert On(rules, Http) == [web] && On(rules, Https) == [tls];
    }
  }

  /** `_check_firewall`, with the requirement of exactly one firewall. */
  method CheckFirewall(policy: Policy, plan: Plan, historical: bool) returns (mode: Option<Mode>)
    ensures mode == FirewallMode(policy, plan, historical)
  {
    var firewalls := OfKind(plan, Firewalls);
    if |firewalls| != 1 {
      return None;
    }
    mode := CheckRules(policy, InboundRules(firewalls[0]), historical);
  }

  /** `_check_dns`: its loop over the active records. */
  method CheckDns(policy: Policy, plan: Plan) returns (clean: bool, mode: Option<Phase>)
    ensures clean <==> DnsClean(policy, plan)
    ensures mode == DnsMode(policy, Facts(plan.changes))
  {
    clean := true;
    var facts: set<Fact> := {};
    for n := 0 to |plan.changes|
      invariant clean <==> forall k :: 0 <= k < n && plan.changes[k].kind == DnsRecords && plan.changes[k].Active() ==>
                GoodRecord(policy, plan, plan.changes[k])
      invariant facts == Facts(plan.changes[..n])
    {
      var c := plan.changes[n];
      assert plan.changes[..n + 1] == plan.changes[..n] + [c];
      if c.kind == DnsRecords && c.Active() {
        facts := facts + {FactOf(c)};
        clean := clean && GoodRecord(policy, plan, c);
      }
    }
    assert plan.changes[..|plan.changes|] == plan.changes;
    mode := DnsMode(policy, facts);
  }

  /** The active rulesets are in their zones and hold their reviewed rules. */
  predicate RulesetsGood(policy: Policy, plan: Plan) {
    forall c <- plan.changes :: c.kind == Rulesets && c.Active() ==> RulesetGood(policy, plan, c)
  }

  /** The ruleset loop of `_check_public_edge_resources`, with the phases it observes in each zone. */
  method CheckRulesets(policy: Policy, plan: Plan) returns (clean: bool)
    ensures clean <==> RulesetsGood(policy, plan) && PhasesGood(policy, plan)
  {
    clean := true;
    var net, com: set<Json> := {}, {};
    for n := 0 to |plan.changes|
      invariant clean <==> forall k :: 0 <= k < n && plan.changes[k].kind == Rulesets && plan.changes[k].Active() ==>
                                         RulesetGood(policy, plan, plan.changes[k])
      invariant net == PhasesOf(plan.changes[..n], Net) && com == PhasesOf(plan.changes[..n], Com)
    {
      var c := plan.changes[n];
      assert plan.changes[..n + 1] == plan.changes[..n] + [c];
      if c.kind == Rulesets && c.Active() {
        if IsEdgeAddress(c.address) {
          var phase := Get(c.After(), RulesetPhase);
          if c.address.zone.Net? {
            net := net + {phase};
          } else {
            com := com + {phase};
          }
        }
        clean := clean && RulesetGood(policy, plan, c);
      }
    }
    assert plan.changes[..|plan.changes|] == plan.changes;
    clean := clean && net == ReviewedPhases(policy.review) && com == ReviewedPhases(policy.review);
  }

  /** `_check_public_edge_resources`. */
  method CheckEdge(policy: Policy, plan: Plan, dns: Phase) returns (clean: bool)
    ensures clean <==> EdgeClean(policy, plan, dns)
  {
    clean := EdgeAddressed(plan) && Active(plan, Associations) == {};
    if dns.Direct? {
      clean := clean && PolicyAbsent(plan);
    } else {
      var rulesets := CheckRulesets(policy, plan);
      var exact := && Exactly(plan, OriginPulls, PULL_ADDRESSES) && Exactly(plan, ZoneSettings, SETTING_ADDRESSES)
                   && Exactly(plan, Rulesets, RULESET_ADDRESSES);
      var pulls := forall c <- plan.changes :: c.kind == OriginPulls && c.Active() ==> PullGood(plan, c);
      var settings := forall c <- plan.changes :: c.kind == ZoneSettings && c.Active() ==> SettingGood(policy, plan, c);
      clean := clean && exact && pulls && settings && rulesets;
      ContentsByKind(policy, plan);
    }
  }

  lemma {:induction false} ContentsByKind(policy: Policy, plan: Plan)
    ensures ContentsGood(policy, plan) <==>
            && (forall c <- plan.changes :: c.kind == OriginPulls && c.Active() ==> PullGood(plan, c))
            && (forall c <- plan.changes :: c.kind == ZoneSettings && c.Active() ==> SettingGood(policy, plan, c))
            && RulesetsGood(policy, plan)
  {
    forall c | c in plan.changes && c.Active()
      ensures ContentGood(policy, plan, c) <==>
              && (c.kind == OriginPulls ==> PullGood(plan, c))
              && (c.kind == ZoneSettings ==> SettingGood(policy, plan, c))
              && (c.kind == Rulesets ==> RulesetGood(policy, plan, c))
    {
    }
  }

  /** `_edge_changes`, in plan order. */
  method EdgeChanges(plan: Plan) returns (changes: seq<Change>)
    ensures forall c :: c in changes <==> c in plan.changes && IsEdgeChange(c)
    ensures changes == Filter(plan.changes, IsEdgeChange)
  {
    changes := [];
    for n := 0 to |plan.changes|
      invariant changes == Filter(plan.changes[..n], IsEdgeChange)
    {
      assert plan.changes[..n + 1][..n] == plan.changes[..n];
      var c := plan.changes[n];
      if c.Mutates() {
        if IsEdgeKind(c.kind) {
          changes := changes + [c];
        } else if c.address == Firewall {
          var fields := c.ChangedFields();
          if fields == Some({InboundRule}) {
            changes := changes + [c];
          }
        }
      }
    }
    assert plan.changes[..|plan.changes|] == plan.changes;
  }

  /** `_edge_phase`. */
  method EdgePhase(policy: Policy, plan: Plan, historical: bool) returns (phase: Option<Phase>)
    ensures phase == PhaseOf(policy, plan, historical)
  {
    var ingress := CheckFirewall(policy, plan, historical);
    var clean, dns := CheckDns(policy, plan);
    if dns.Some? {
      var edge := CheckEdge(policy, plan, dns.value);
      clean := clean && edge;
    }
    phase := Combined(ingress, dns, clean);
  }

  /** `_check_public_edge_transition`. */
  method CheckTransition(policy: Policy, plan: Plan, requested: Option<Phase>, desired: Option<Phase>)
    returns (ok: bool)
    ensures ok <==> TransitionClean(policy, plan, requested, desired)
  {
    var changes := EdgeChanges(plan);
    if requested == Some(Enforced) {
      if Initial(plan) {
        return false;
      }
      var before := EdgePhase(policy, plan.Before(), true);
      if before != Some(Proxied) && before != Some(Enforced) {
        return false;
      }
    }
    if Initial(plan) {
      return true;
    }
    if changes == [] {
      assert forall c <- plan.changes :: !IsEdgeChange(c);
      return requested.None?;
    }
    assert changes[0] in plan.changes && IsEdgeChange(changes[0]);
    ok := && requested.Some? && desired == requested
          && (requested.value.Direct? ==> forall c <- changes :: c.address != Firewall)
          && (forall c <- plan.changes :: c.Mutates() ==> c in changes);
  }

  /** The public-edge part of `assert_plan`. */
  method AssertEdge(policy: Policy, plan: Plan, requested: Option<Phase>) returns (ok: bool)
    ensures ok <==> Accepts(policy, plan, requested)
  {
    var desired := EdgePhase(policy, plan, false);
    ok := CheckTransition(policy, plan, requested, desired);
    ok := ok && desired.Some?;
  }

  // --------------------------------------------------- what accepted plans can do

  /** Resources that are not mutated look the same before the plan. */
  lemma {:induction false} UnmutatedFacts(plan: Plan)
    requires Faithful(plan) && forall c <- plan.changes :: c.kind == DnsRecords ==> !c.Mutates()
    ensures Facts(plan.Before().changes) == Facts(plan.changes)
  {
    var before := plan.Before().changes;
    forall c | c in plan.changes && c.kind == DnsRecords
      ensures c.Before() == c && c in before
    {
      var i :| 0 <= i < |plan.changes| && plan.changes[i] == c;
      assert before[i] == c.Before();
    }
    forall c | c in before && c.kind == DnsRecords
      ensures c in plan.changes
    {
      var i :| 0 <= i < |before| && before[i] == c;
      assert plan.changes[i] in plan.changes && c == plan.changes[i].Before();
    }
  }

  lemma {:induction false} DnsOfPhase(policy: Policy, plan: Plan, historical: bool)
    requires PhaseOf(policy, plan, historical) in {Some(Proxied), Some(Enforced)}
    ensures DnsMode(policy, Facts(plan.changes)) == Some(Proxied)
  {
  }

  /** A plan that was not asked for any transition mutates no edge resource. */
  lemma {:induction false} UnrequestedKeepsDns(policy: Policy, plan: Plan)
    requires TransitionClean(policy, plan, None, PhaseOf(policy, plan, false)) && Faithful(plan) && !Initial(plan)
    ensures Facts(plan.Before().changes) == Facts(plan.changes)
  {
    assert forall c <- plan.changes :: !IsEdgeChange(c);
    UnmutatedFacts(plan);
  }

  /** No accepted plan takes direct DNS to the enforced phase, whatever transition is requested. */
  lemma {:induction false} NeverDirectToEnforced(policy: Policy, plan: Plan, requested: Option<Phase>)
    requires Accepts(policy, plan, requested) && Faithful(plan) && !Initial(plan)
    requires PhaseOf(policy, plan, false) == Some(Enforced)
    ensures DnsMode(policy, Facts(plan.Before().changes)) == Some(Proxied)
  {
    if requested.None? {
      UnrequestedKeepsDns(policy, plan);
      DnsOfPhase(policy, plan, false);
    } else {
      assert requested == Some(Enforced);
      DnsOfPhase(policy, plan.Before(), true);
    }
  }

  /** An accepted transition mutates only reviewed edge addresses, or the ingress rules of the
      firewall and nothing else of it. */
  lemma {:induction false} TransitionIsIsolated(policy: Policy, plan: Plan, requested: Phase, c: Change)
    requires Accepts(policy, plan, Some(requested)) && !Initial(plan)
    requires c in plan.changes && c.actions != [NoOp] && c.actions != [Read]
    ensures && (IsEdgeKind(c.kind) ==> IsEdgeAddress(c.address))
            && (!IsEdgeKind(c.kind) ==> c.address == Firewall && c.ChangedFields() == Some({InboundRule}))
  {
    assert IsEdgeChange(c);
  }

  /** An accepted direct transition leaves every firewall as it is. */
  lemma {:induction false} DirectKeepsFirewall(policy: Policy, plan: Plan, c: Change)
    requires Accepts(policy, plan, Some(Direct)) && Faithful(plan) && !Initial(plan)
    requires c in plan.changes && c.kind == Firewalls
    ensures !c.Mutates() && c.before == c.after && c.Before() == c
  {
    assert c.Mutates() ==> IsEdgeChange(c);
  }

  /** A clean phase and its two ingredients. */
  lemma {:induction false} PhaseParts(policy: Policy, plan: Plan, historical: bool)
    requires PhaseOf(policy, plan, historical).Some?
    ensures var dns, ingress := DnsMode(policy, Facts(plan.changes)), FirewallMode(policy, plan, historical);
            && dns.Some? && ingress.Some?
            && (PhaseOf(policy, plan, historical) == Some(Enforced) <==>
                 dns == Some(Proxied) && ingress == Some(Restricted))
            && (PhaseOf(policy, plan, historical) == Some(Direct) <==> dns == Some(Direct))
  {
  }

  // ------------------------------------------------------------------ runs of plans

  /** One applied plan with the transition that was requested for it. */
  datatype Apply = Apply(plan: Plan, requested: Option<Phase>) {
    ghost predicate Accepted(policy: Policy) {
      Accepts(policy, plan, requested) && Faithful(plan) && !Initial(plan)
    }
  }

  /** What an apply makes of a planned record: every planned value, and anything for the values
      that were not known yet. */
  ghost predicate Realizes(planned: Fact, found: Fact) {
    && planned.address == found.address
    && (planned.name != Null ==> found.name == planned.name)
    && (planned.proxied != Null ==> found.proxied == planned.proxied)
    && (planned.ttl != Null ==> found.ttl == planned.ttl)
  }

  ghost predicate RealizedBy(planned: set<Fact>, found: set<Fact>, outcome: Fact -> Fact) {
    && (forall f <- planned :: Realizes(f, outcome(f)))
    && found == set f | f in planned :: outcome(f)
  }

  /** The second plan starts from the DNS records that the apply of the first one left. */
  ghost predicate Continues(first: Apply, second: Apply) {
    exists outcome: Fact -> Fact :: RealizedBy(Facts(first.plan.changes), Facts(second.plan.Before().changes), outcome)
  }

  /** Null is not a record name. */
  ghost predicate Named(policy: Policy) {
    Null !in policy.directNames && Null !in policy.proxiedNames
  }

  /** Whatever DNS mode a plan selects, the values that select it are known in the plan... */
  lemma {:induction false} KnownFact(policy: Policy, facts: set<Fact>, f: Fact)
    requires DnsMode(policy, facts).Some? && f in facts && Named(policy)
    ensures f.name != Null && f.proxied != Null && f.ttl != Null
  {
    assert f.name in Names(facts) && f.proxied in Proxies(facts) && f.ttl in Ttls(facts);
  }

  /** ... so they are what the next plan starts from. */
  lemma {:induction false} LinkKeepsFacts(policy: Policy, planned: set<Fact>, found: set<Fact>, outcome: Fact -> Fact)
    requires RealizedBy(planned, found, outcome) && DnsMode(policy, planned).Some? && Named(policy)
    ensures found == planned
  {
    forall f | f in planned
      ensures outcome(f) == f
    {
      KnownFact(policy, planned, f);
    }
  }

  /** One plan of a run that starts with direct DNS stays direct or becomes proxied. */
  lemma {:induction false} DirectStep(policy: Policy, step: Apply)
    requires step.Accepted(policy) && DnsMode(policy, Facts(step.plan.Before().changes)) == Some(Direct)
    ensures PhaseOf(policy, step.plan, false) in {Some(Direct), Some(Proxied)}
    ensures PhaseOf(policy, step.plan, false) == Some(Direct) ==>
              DnsMode(policy, Facts(step.plan.changes)) == Some(Direct)
  {
    PhaseParts(policy, step.plan, false);
    if PhaseOf(policy, step.plan, false) == Some(Enforced) {
      NeverDirectToEnforced(policy, step.plan, step.requested);
    }
  }

  /** The DNS mode that a plan starts from, and the phase it leaves. */
  ghost predicate StartsFrom(policy: Policy, step: Apply, start: Option<Phase>) {
    start == DnsMode(policy, Facts(step.plan.Before().changes))
  }

  ghost predicate Leaves(policy: Policy, step: Apply, phase: Option<Phase>) {
    phase == PhaseOf(policy, step.plan, false)
  }

  /** An accepted plan of a run. */
  ghost predicate Does(policy: Policy, step: Apply, start: Option<Phase>, phase: Option<Phase>) {
    step.Accepted(policy) && StartsFrom(policy, step, start) && Leaves(policy, step, phase)
  }

  /** A run of accepted plans. */
  ghost predicate Run(policy: Policy, run: seq<Apply>, starts: seq<Option<Phase>>, phases: seq<Option<Phase>>) {
    && |run| == |starts| == |phases|
    && (forall k {:trigger Does(policy, run[k], starts[k], phases[k])} ::
          0 <= k < |run| ==> Does(policy, run[k], starts[k], phases[k]))
    && (forall i, k {:trigger Continues(run[i], run[k])} ::
          0 <= i < k < |run| && k == i + 1 ==> Continues(run[i], run[k]))
  }

  lemma {:induction false} StepFromDirect(policy: Policy, step: Apply, start: Option<Phase>, phase: Option<Phase>)
    requires Does(policy, step, start, phase) && start == Some(Direct)
    ensures phase in {Some(Direct), Some(Proxied)}
  {
    DirectStep(policy, step);
  }

  lemma {:induction false} LinkFromDirect(policy: Policy, first: Apply, second: Apply, phase: Option<Phase>,
                                          next: Option<Phase>)
    requires Leaves(policy, first, phase) && phase == Some(Direct) && Named(policy)
    requires StartsFrom(policy, second, next) && Continues(first, second)
    ensures next == Some(Direct)
  {
    PhaseParts(policy, first.plan, false);
    var planned, found := Facts(first.plan.changes), Facts(second.plan.Before().changes);
    var outcome: Fact -> Fact :| RealizedBy(planned, found, outcome);
    LinkKeepsFacts(policy, planned, found, outcome);
  }

  lemma {:induction false} RunPhase(policy: Policy, run: seq<Apply>, starts: seq<Option<Phase>>,
                                    phases: seq<Option<Phase>>, k: nat)
    requires Run(policy, run, starts, phases) && k < |run| && starts[k] == Some(Direct)
    ensures phases[k] in {Some(Direct), Some(Proxied)}
  {
    var step, start, phase := run[k], starts[k], phases[k];
    assert Does(policy, run[k], starts[k], phases[k]);
    StepFromDirect(policy, step, start, phase);
  }

  lemma {:induction false} RunStart(policy: Policy, run: seq<Apply>, starts: seq<Option<Phase>>,
                                    phases: seq<Option<Phase>>, k: nat)
    requires Run(policy, run, starts, phases) && Named(policy) && k + 1 < |run| && phases[k] == Some(Direct)
    ensures starts[k + 1] == Some(Direct)
  {
    var first, second, phase, next := run[k], run[k + 1], phases[k], starts[k + 1];
    assert Does(policy, run[k], starts[k], phases[k]);
    assert Does(policy, run[k + 1], starts[k + 1], phases[k + 1]);
    assert Continues(run[k], run[k + 1]);
    LinkFromDirect(policy, first, second, phase, next);
  }

  /** Over every run of accepted plans, direct DNS becomes the enforced phase only by way of an
      earlier plan that leaves the edge proxied with open ingress. */
  lemma {:induction false} EnforcementPassesThroughProxied(
    policy: Policy, run: seq<Apply>, starts: seq<Option<Phase>>, phases: seq<Option<Phase>>) returns (k: nat)
    requires Run(policy, run, starts, phases) && run != [] && Named(policy)
    requires starts[0] == Some(Direct) && phases[|run| - 1] == Some(Enforced)
    ensures k < |run| - 1 && phases[k] == Some(Proxied)
  {
    k := 0;
    RunPhase(policy, run, starts, phases, k);
    while phases[k] != Some(Proxied)
      invariant k < |run| && starts[k] == Some(Direct) && phases[k] in {Some(Direct), Some(Proxied)}
      decreases |run| - k
    {
      RunStart(policy, run, starts, phases, k);
      k := k + 1;
      RunPhase(policy, run, starts, phases, k);
    }
  }

  // --------------------------------------------- where the policy promises too much

  /** An unrequested plan may still change the ingress rules: it is rejected exactly when nothing
      else of the firewall changes with them. */
  lemma {:induction false} UnrequestedIngressChange(policy: Policy, plan: Plan, firewall: Change)
    requires PhaseOf(policy, plan, false).Some? && !Initial(plan)
    requires firewall in plan.changes && firewall.Mutates() && firewall.address == Firewall
    requires firewall.ChangedFields().Some? && InboundRule in firewall.ChangedFields().value
    requires !IsEdgeKind(firewall.kind)
    requires forall c <- plan.changes :: c != firewall ==> !IsEdgeChange(c)
    ensures Accepts(policy, plan, None) <==> firewall.ChangedFields() != Some({InboundRule})
  {
    assert IsEdgeChange(firewall) <==> firewall.ChangedFields() == Some({InboundRule});
  }

  /** A direct transition from the enforced phase is accepted: of the accepted direct transitions
      from proxied DNS, exactly those that leave a restricted firewall behind are such jumps. */
  lemma {:induction false} DirectJump(policy: Policy, plan: Plan)
    requires Accepts(policy, plan, Some(Direct)) && Faithful(plan) && !Initial(plan)
    requires PhaseOf(policy, plan.Before(), true).Some?
    requires DnsMode(policy, Facts(plan.Before().changes)) == Some(Proxied)
    ensures PhaseOf(policy, plan.Before(), true) == Some(Enforced) <==>
              FirewallMode(policy, plan, false) == Some(Restricted)
  {
    PhaseParts(policy, plan.Before(), true);
    PhaseParts(policy, plan, false);
    DirectKeepsIngress(policy, plan);
  }

  lemma {:induction false} DirectKeepsIngress(policy: Policy, plan: Plan)
    requires Accepts(policy, plan, Some(Direct)) && Faithful(plan) && !Initial(plan)
    requires FirewallMode(policy, plan, false).Some?
    ensures FirewallMode(policy, plan.Before(), true) == FirewallMode(policy, plan, false)
  {
    forall c | c in plan.changes && c.kind == Firewalls
      ensures c.Before() == c
    {
      DirectKeepsFirewall(policy, plan, c);
    }
    KindBefore(plan, Firewalls);
    HistoryOnlyAdds(policy, InboundRules(OfKind(plan, Firewalls)[0]));
  }

  /** The historical allowance changes no verdict that was already given. */
  lemma {:induction false} HistoryOnlyAdds(policy: Policy, rules: seq<Rule>)
    ensures Ingress(policy, rules, false).Some? ==> Ingress(policy, rules, true) == Ingress(policy, rules, false)
  {
  }

  lemma {:induction false} KindBefore(plan: Plan, kind: Kind)
    requires forall c <- plan.changes :: c.kind == kind ==> c.Before() == c
    ensures OfKind(plan.Before(), kind) == OfKind(plan, kind)
  {
    FilterBefore(plan.changes, OfKindTest(kind));
  }

  lemma {:induction false} FilterBefore(changes: seq<Change>, keep: Change -> bool)
    requires forall c <- changes :: keep(c.Before()) == keep(c) && (keep(c) ==> c.Before() == c)
    ensures Filter(BeforeAll(changes), keep) == Filter(changes, keep)
  {
    if changes != [] {
      var n := |changes| - 1;
      assert BeforeAll(changes)[..n] == BeforeAll(changes[..n]);
      FilterBefore(changes[..n], keep);
      assert changes[n] in changes;
    }
  }

  /** Which source sets count as restricted with the historical allowance. */
  lemma {:induction false} HistoricalSources(policy: Policy, web: set<Json>)
    ensures Classify(policy, web, true).Some? <==>
              web == policy.world || web <= policy.networks || policy.networks <= web
  {
  }

  lemma {:induction false} HistoricalMode(policy: Policy, plan: Plan, firewall: Change)
    requires OfKind(plan, Firewalls) == [firewall] && Structured(policy, InboundRules(firewall))
    ensures var web := On(InboundRules(firewall), Http)[0];
            FirewallMode(policy, plan, true).Some? <==>
            web == policy.world || web <= policy.networks || policy.networks <= web
  {
    HistoricalSources(policy, On(InboundRules(firewall), Http)[0]);
  }

  lemma {:induction false} CleanPhase(policy: Policy, plan: Plan, historical: bool)
    requires DnsMode(policy, Facts(plan.changes)) == Some(Proxied) && DnsClean(policy, plan)
    requires EdgeClean(policy, plan, Proxied)
    ensures PhaseOf(policy, plan, historical) in {Some(Proxied), Some(Enforced)} <==>
              FirewallMode(policy, plan, historical).Some?
  {
  }

  lemma {:induction false} StartingPhase(policy: Policy, plan: Plan, firewall: Change)
    requires DnsMode(policy, Facts(plan.changes)) == Some(Proxied) && DnsClean(policy, plan)
    requires EdgeClean(policy, plan, Proxied)
    requires OfKind(plan, Firewalls) == [firewall] && Structured(policy, InboundRules(firewall))
    ensures var web := On(InboundRules(firewall), Http)[0];
            PhaseOf(policy, plan, true) in {Some(Proxied), Some(Enforced)} <==>
            web == policy.world || web <= policy.networks || policy.networks <= web
  {
    HistoricalMode(policy, plan, firewall);
    CleanPhase(policy, plan, true);
  }

  /** An isolated plan that ends in the enforced phase and starts from a proxied edge is accepted
      exactly when its previous web sources are the world or comparable with the reviewed
      networks: a strict superset is as good as a strict subset. */
  lemma {:induction false} EnforcedStart(policy: Policy, plan: Plan, firewall: Change)
    requires PhaseOf(policy, plan, false) == Some(Enforced) && !Initial(plan)
    requires exists c <- plan.changes :: IsEdgeChange(c)
    requires forall c <- plan.changes :: c.actions == [NoOp] || c.actions == [Read] || IsEdgeChange(c)
    requires DnsMode(policy, Facts(plan.Before().changes)) == Some(Proxied)
    requires DnsClean(policy, plan.Before()) && EdgeClean(policy, plan.Before(), Proxied)
    requires OfKind(plan.Before(), Firewalls) == [firewall] && Structured(policy, InboundRules(firewall))
    ensures var web := On(InboundRules(firewall), Http)[0];
            Accepts(policy, plan, Some(Enforced)) <==>
            web == policy.world || web <= policy.networks || policy.networks <= web
  {
    StartingPhase(policy, plan.Before(), firewall);
    EnforcedTransition(policy, plan);
  }

  lemma {:induction false} EnforcedTransition(policy: Policy, plan: Plan)
    requires PhaseOf(policy, plan, false) == Some(Enforced) && !Initial(plan)
    requires exists c <- plan.changes :: IsEdgeChange(c)
    requires forall c <- plan.changes :: c.actions == [NoOp] || c.actions == [Read] || IsEdgeChange(c)
    ensures Accepts(policy, plan, Some(Enforced)) <==>
              PhaseOf(policy, plan.Before(), true) in {Some(Proxied), Some(Enforced)}
  {
  }
}
