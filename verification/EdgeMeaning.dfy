/** What a plan that passes the public-edge policy of scripts/assert_opentofu_plan.py says, in terms of
    its attributes alone. */
module EdgeMeaning {
  import opened Outcomes
  import opened EdgePlan
  import opened EdgeTransitions

  // ---------------------------------------------------------------------- firewall

  /** An inbound rule of one TCP port. */
  ghost predicate Serves(rule: Json, port: string, sources: set<Json>) {
    && Member(rule, Protocol) == Text("tcp") && Member(rule, PortRange) == Text(port)
    && (forall source :: source in sources <==> source in Elements(Member(rule, SourceAddresses)))
  }

  /** Rule `i`, and no other, serves the port. */
  ghost predicate ServedAt(rules: seq<Json>, i: nat, port: string, sources: set<Json>) {
    && i < |rules| && Serves(rules[i], port, sources)
    && forall j :: 0 <= j < |rules| && j != i ==> Member(rules[j], PortRange) != Text(port)
  }

  ghost predicate ServedOnce(rules: seq<Json>, port: string, sources: set<Json>) {
    exists i :: ServedAt(rules, i, port, sources)
  }

  /** Three ports, one rule each: SSH from some sources but not the world, and the web from the same
      sources on both ports. */
  ghost predicate OpensOnly(policy: Policy, rules: seq<Json>, ssh: set<Json>, web: set<Json>) {
    && (forall rule <- rules ::
          && Member(rule, Protocol) == Text("tcp")
          && Member(rule, PortRange) in {Text("22"), Text("80"), Text("443")})
    && ServedOnce(rules, "22", ssh) && ServedOnce(rules, "80", web) && ServedOnce(rules, "443", web)
    && ssh != {} && ssh !! policy.world
  }

  function PortText(port: Port): string {
    match port
    case Ssh => "22"
    case Http => "80"
    case Https => "443"
  }

  lemma {:induction false} PortsDiffer()
    ensures "22" != "80" && "22" != "443" && "80" != "443"
  {
    assert "22"[0] != "80"[0] && |"443"| == 3;
  }

  lemma {:induction false} ParseMeans(rule: Json, port: Port, sources: set<Json>)
    ensures Parse(rule) == Tcp(port, sources) <==> Serves(rule, PortText(port), sources)
    ensures Parse(rule).Tcp? && Parse(rule).port == port ==> Member(rule, PortRange) == Text(PortText(port))
    ensures Member(rule, Protocol) == Text("tcp") && Member(rule, PortRange) == Text(PortText(port)) ==>
              Parse(rule).Tcp? && Parse(rule).port == port
  {
    PortsDiffer();
  }

  /** Rule `i`, and no other, is the rule of a port. */
  ghost predicate Alone(rules: seq<Rule>, i: nat, port: Port, sources: set<Json>) {
    && i < |rules| && rules[i] == Tcp(port, sources)
    && forall j :: 0 <= j < |rules| && j != i ==> !(rules[j].Tcp? && rules[j].port == port)
  }

  lemma {:induction false} OnNone(rules: seq<Rule>, port: Port)
    ensures On(rules, port) == [] <==> forall i :: 0 <= i < |rules| ==> !(rules[i].Tcp? && rules[i].port == port)
  {
    if rules != [] {
      var n := |rules| - 1;
      OnNone(rules[..n], port);
      assert forall i :: 0 <= i < n ==> rules[..n][i] == rules[i];
    }
  }

  lemma {:induction false} OnOne(rules: seq<Rule>, port: Port, sources: set<Json>)
    ensures On(rules, port) == [sources] <==> exists i :: Alone(rules, i, port, sources)
  {
    if rules != [] {
      var n := |rules| - 1;
      var front := rules[..n];
      OnNone(front, port);
      OnOne(front, port, sources);
      assert forall i :: 0 <= i < n ==> front[i] == rules[i];
      if rules[n].Tcp? && rules[n].port == port {
        assert On(rules, port) == On(front, port) + [rules[n].sources];
        if On(rules, port) == [sources] {
          assert |On(front, port)| == 0 && On(rules, port)[0] == rules[n].sources;
          assert Alone(rules, n, port, sources);
        }
        assert (exists i :: Alone(rules, i, port, sources)) ==> On(front, port) == [];
      } else {
        assert forall i: nat :: Alone(front, i, port, sources) ==> Alone(rules, i, port, sources);
        assert forall i: nat :: Alone(rules, i, port, sources) ==> Alone(front, i, port, sources);
      }
    }
  }

  function RulesOf(c: Change): seq<Json> { Elements(Get(c.After(), InboundRule)) }

  lemma {:induction false} ServedMeans(c: Change, port: Port, sources: set<Json>)
    requires forall rule <- RulesOf(c) :: Member(rule, Protocol) == Text("tcp")
    ensures On(InboundRules(c), port) == [sources] <==> ServedOnce(RulesOf(c), PortText(port), sources)
  {
    var raw, rules := RulesOf(c), InboundRules(c);
    OnOne(rules, port, sources);
    forall i: nat
      ensures Alone(rules, i, port, sources) <==> ServedAt(raw, i, PortText(port), sources)
    {
      forall j | 0 <= j < |raw|
        ensures rules[j] == Tcp(port, sources) <==> Serves(raw[j], PortText(port), sources)
        ensures (rules[j].Tcp? && rules[j].port == port) <==> Member(raw[j], PortRange) == Text(PortText(port))
      {
        assert raw[j] in raw;
        ParseMeans(raw[j], port, sources);
      }
    }
  }

  lemma {:induction false} AllowedRules(policy: Policy, c: Change)
    ensures (forall rule <- InboundRules(c) :: rule.Tcp?) <==>
              forall rule <- RulesOf(c) ::
                && Member(rule, Protocol) == Text("tcp")
                && Member(rule, PortRange) in {Text("22"), Text("80"), Text("443")}
  {
    var raw, rules := RulesOf(c), InboundRules(c);
    PortsDiffer();
    assert forall j :: 0 <= j < |raw| ==> rules[j] == Parse(raw[j]) && raw[j] in raw && rules[j] in rules;
  }

  lemma {:induction false} SshSources(policy: Policy, rules: seq<Rule>, ssh: set<Json>)
    requires (forall rule <- rules :: rule.Tcp?) && On(rules, Port.Ssh) == [ssh]
    ensures (forall rule <- rules :: Allowed(policy, rule)) <==> ssh != {} && ssh !! policy.world
  {
    OnOne(rules, Port.Ssh, ssh);
    var i: nat :| Alone(rules, i, Port.Ssh, ssh);
    assert rules[i] in rules;
    assert forall rule <- rules :: rule.port.Ssh? ==> rule == rules[i];
  }

  /** The firewall check, told by attributes. */
  lemma {:induction false} StructuredMeans(policy: Policy, c: Change, ssh: set<Json>, web: set<Json>)
    ensures (&& Structured(policy, InboundRules(c))
             && On(InboundRules(c), Port.Ssh) == [ssh] && On(InboundRules(c), Http) == [web]) <==>
            OpensOnly(policy, RulesOf(c), ssh, web)
  {
    AllowedRules(policy, c);
    if forall rule <- InboundRules(c) :: rule.Tcp? {
      ServedMeans(c, Port.Ssh, ssh);
      ServedMeans(c, Http, web);
      ServedMeans(c, Https, web);
      if On(InboundRules(c), Port.Ssh) == [ssh] {
        SshSources(policy, InboundRules(c), ssh);
      }
    }
  }

  /** Change `i`, and no other, is a firewall. */
  ghost predicate OnlyFirewallAt(plan: Plan, i: nat) {
    && i < |plan.changes| && plan.changes[i].kind == Firewalls
    && forall j :: 0 <= j < |plan.changes| && j != i ==> plan.changes[j].kind != Firewalls
  }

  lemma {:induction false} FilterOne(changes: seq<Change>, keep: Change -> bool) returns (i: nat)
    requires |Filter(changes, keep)| == 1
    ensures i < |changes| && keep(changes[i]) && Filter(changes, keep) == [changes[i]]
    ensures forall j :: 0 <= j < |changes| && j != i ==> !keep(changes[j])
  {
    var n := |changes| - 1;
    if keep(changes[n]) {
      i := n;
      assert forall j :: 0 <= j < n ==> changes[j] in changes[..n];
    } else {
      i := FilterOne(changes[..n], keep);
      assert forall j :: 0 <= j < n ==> changes[j] == changes[..n][j];
    }
  }

  /** An accepted plan has one firewall. It opens three TCP ports with one rule each: SSH never to
      the world, and both web ports to the world or to the reviewed networks. */
  lemma {:induction false} AcceptedIngress(policy: Policy, plan: Plan, requested: Option<Phase>)
    returns (i: nat, ssh: set<Json>, web: set<Json>)
    requires Accepts(policy, plan, requested)
    ensures OnlyFirewallAt(plan, i) && OpensOnly(policy, RulesOf(plan.changes[i]), ssh, web)
    ensures web == policy.world || web == policy.networks
  {
    i := FilterOne(plan.changes, OfKindTest(Firewalls));
    var rules := InboundRules(plan.changes[i]);
    ssh, web := On(rules, Port.Ssh)[0], On(rules, Http)[0];
    StructuredMeans(policy, plan.changes[i], ssh, web);
  }

  lemma {:induction false} FilterSingle(changes: seq<Change>, keep: Change -> bool, i: nat)
    requires i < |changes| && keep(changes[i])
    requires forall j :: 0 <= j < |changes| && j != i ==> !keep(changes[j])
    ensures Filter(changes, keep) == [changes[i]]
  {
    var n := |changes| - 1;
    if i < n {
      FilterSingle(changes[..n], keep, i);
    } else {
      FilterNone(changes[..n], keep);
    }
  }

  lemma {:induction false} FilterNone(changes: seq<Change>, keep: Change -> bool)
    requires forall c <- changes :: !keep(c)
    ensures Filter(changes, keep) == []
  {
    if changes != [] {
      var n := |changes| - 1;
      assert changes[n] in changes;
      FilterNone(changes[..n], keep);
    }
  }

  /** The firewall check has no other demand. */
  lemma {:induction false} IngressSuffices(policy: Policy, plan: Plan, i: nat, ssh: set<Json>, web: set<Json>)
    requires OnlyFirewallAt(plan, i) && OpensOnly(policy, RulesOf(plan.changes[i]), ssh, web)
    ensures web == policy.world ==> FirewallMode(policy, plan, false) == Some(Open)
    ensures web == policy.networks != policy.world ==> FirewallMode(policy, plan, false) == Some(Restricted)
  {
    FilterSingle(plan.changes, OfKindTest(Firewalls), i);
    StructuredMeans(policy, plan.changes[i], ssh, web);
  }

  // ------------------------------------------------------------------------- records

  /** The part of acceptance that is about records and policy resources. */
  ghost predicate Passing(policy: Policy, plan: Plan, dns: Phase) {
    && DnsMode(policy, Facts(plan.changes)) == Some(dns)
    && DnsClean(policy, plan) && EdgeClean(policy, plan, dns)
  }

  lemma {:induction false} AcceptedPasses(policy: Policy, plan: Plan, requested: Option<Phase>) returns (dns: Phase)
    requires Accepts(policy, plan, requested)
    ensures Passing(policy, plan, dns)
  {
    dns := DnsMode(policy, Facts(plan.changes)).value;
  }

  /** The zone that the plan's variables name for a reviewed address. */
  function ZoneAt(plan: Plan, zone: Zone): Json {
    match zone
    case Net => Member(Get(plan.variables, CloudflareZoneId), Value)
    case Com => Member(Get(plan.variables, CloudflareTenantZoneId), Value)
  }

  /** An A record with the management comment in its own zone, at the apex or the wildcard; a direct
      one is not proxied, lives 300 seconds and lies in the first zone. */
  ghost predicate Recorded(policy: Policy, plan: Plan, c: Change, proxied: bool) {
    && (c.address.Apex? || c.address.Wildcard?)
    && Get(c.After(), RecordType) == Text("A") && Get(c.After(), Comment) == policy.comment
    && Get(c.After(), ZoneId) == ZoneAt(plan, c.address.zone)
    && Get(c.After(), Proxy) == Bool(proxied)
    && (if proxied then Get(c.After(), Ttl) == Number(1)
        else Get(c.After(), Ttl) == Number(300) && c.address.zone.Net?)
  }

  lemma {:induction false} FactShown(policy: Policy, changes: seq<Change>, dns: Phase, c: Change)
    requires DnsMode(policy, Facts(changes)) == Some(dns) && c in changes && c.kind == DnsRecords && c.Active()
    ensures c.address.Apex? || c.address.Wildcard?
    ensures dns.Direct? ==>
              c.address.zone.Net? && Get(c.After(), Proxy) == Bool(false) && Get(c.After(), Ttl) == Number(300)
    ensures !dns.Direct? ==> Get(c.After(), Proxy) == Bool(true) && Get(c.After(), Ttl) == Number(1)
  {
    var facts, fact := Facts(changes), FactOf(c);
    assert fact in facts;
    assert fact.address in Homes(facts) && fact.proxied in Proxies(facts) && fact.ttl in Ttls(facts);
  }

  lemma {:induction false} RecordShown(policy: Policy, plan: Plan, dns: Phase, c: Change)
    requires Passing(policy, plan, dns) && c in plan.changes && c.kind == DnsRecords && c.Active()
    ensures Recorded(policy, plan, c, !dns.Direct?) && TargetsReservedIp(plan, c)
  {
    FactShown(policy, plan.changes, dns, c);
    assert GoodRecord(policy, plan, c);
  }

  /** Every active record of an accepted plan is such a record, and all of them are proxied or none
      is. */
  lemma {:induction false} AcceptedRecords(policy: Policy, plan: Plan, requested: Option<Phase>) returns (proxied: bool)
    requires Accepts(policy, plan, requested)
    ensures forall c <- plan.changes :: c.kind == DnsRecords && c.Active() ==> Recorded(policy, plan, c, proxied)
  {
    var dns := AcceptedPasses(policy, plan, requested);
    proxied := !dns.Direct?;
    forall c | c in plan.changes && c.kind == DnsRecords && c.Active()
      ensures Recorded(policy, plan, c, proxied)
    {
      RecordShown(policy, plan, dns, c);
    }
  }

  /** A record points to the reserved address: the planned one, or one that is not known yet
      either. */
  ghost predicate PointsTo(c: Change, ip: Change) {
    && (ContainsUnknown(Get(c.afterUnknown, Content)) <==> ContainsUnknown(Get(ip.afterUnknown, IpAddress)))
    && (ContainsUnknown(Get(ip.afterUnknown, IpAddress)) || Get(c.After(), Content) == Get(ip.After(), IpAddress))
  }

  lemma {:induction false} AcceptedTargets(policy: Policy, plan: Plan, requested: Option<Phase>, ip: Change)
    requires Accepts(policy, plan, requested) && ip in plan.changes && ip.address == ReservedIp
    requires forall other <- plan.changes :: other.address == ReservedIp ==> other == ip
    ensures forall c <- plan.changes :: c.kind == DnsRecords && c.Active() ==> PointsTo(c, ip)
  {
    var dns := AcceptedPasses(policy, plan, requested);
    FindOnly(plan.changes, ip);
    forall c | c in plan.changes && c.kind == DnsRecords && c.Active()
      ensures PointsTo(c, ip)
    {
      RecordShown(policy, plan, dns, c);
    }
  }

  lemma {:induction false} FindOnly(changes: seq<Change>, c: Change)
    requires c in changes && forall other <- changes :: other.address == c.address ==> other == c
    ensures Find(changes, c.address) == Some(c)
  {
    if changes[0].address != c.address {
      FindOnly(changes[1..], c);
    }
  }

  /** An active record has the name. */
  ghost predicate Named(plan: Plan, name: Json) {
    exists c <- plan.changes :: c.kind == DnsRecords && c.Active() && Get(c.After(), Name) == name
  }

  lemma {:induction false} NamesShown(plan: Plan, name: Json)
    ensures name in Names(Facts(plan.changes)) <==> Named(plan, name)
  {
    forall c | c in plan.changes && c.kind == DnsRecords && c.Active() && Get(c.After(), Name) == name
      ensures name in Names(Facts(plan.changes))
    {
      assert FactOf(c) in Facts(plan.changes);
    }
  }

  /** Some record is proxied. */
  ghost predicate Shielded(plan: Plan) {
    exists c <- plan.changes :: c.kind == DnsRecords && c.Active() && Get(c.After(), Proxy) == Bool(true)
  }

  lemma {:induction false} ProxiesShown(policy: Policy, plan: Plan, dns: Phase)
    requires DnsMode(policy, Facts(plan.changes)) == Some(dns)
    ensures Shielded(plan) <==> dns.Proxied?
    ensures dns.Proxied? || dns.Direct?
  {
    if dns.Proxied? {
      assert Bool(true) in Proxies(Facts(plan.changes));
    }
    forall c | c in plan.changes && c.kind == DnsRecords && c.Active() && Get(c.After(), Proxy) == Bool(true)
      ensures dns.Proxied?
    {
      FactShown(policy, plan.changes, dns, c);
    }
  }

  /** The names of the active records are exactly the proxied or exactly the direct ones. */
  lemma {:induction false} AcceptedNames(policy: Policy, plan: Plan, requested: Option<Phase>, name: Json)
    requires Accepts(policy, plan, requested)
    ensures Named(plan, name) <==> name in if Shielded(plan) then policy.proxiedNames else policy.directNames
  {
    var dns := AcceptedPasses(policy, plan, requested);
    NamesShown(plan, name);
    ProxiesShown(policy, plan, dns);
  }

  // ---------------------------------------------------------------- policy resources

  /** The kind of resource that a reviewed policy address holds. */
  function PolicyKind(address: Address): Option<Kind> {
    match address
    case Pulls(_) => Some(OriginPulls)
    case AlwaysOnline(_) => Some(ZoneSettings)
    case AlwaysUseHttps(_) => Some(ZoneSettings)
    case Ssl(_) => Some(ZoneSettings)
    case CacheBypass(_) => Some(Rulesets)
    case CdnCgiBlock(_) => Some(Rulesets)
    case TransformDisable(_) => Some(Rulesets)
    case _ => None
  }

  lemma {:induction false} PresentAddress(policy: Policy, plan: Plan, address: Address)
    requires PolicyPresent(policy, plan) && PolicyKind(address).Some?
    ensures IsActive(plan, PolicyKind(address).value, address)
  {
    PolicyAddresses(address);
    match PolicyKind(address).value
    case OriginPulls => ExactlyHolds(plan, OriginPulls, PULL_ADDRESSES, address);
    case ZoneSettings => ExactlyHolds(plan, ZoneSettings, SETTING_ADDRESSES, address);
    case Rulesets => ExactlyHolds(plan, Rulesets, RULESET_ADDRESSES, address);
  }

  lemma {:induction false} ExactlyHolds(plan: Plan, kind: Kind, addresses: set<Address>, address: Address)
    requires Exactly(plan, kind, addresses) && address in addresses
    ensures IsActive(plan, kind, address)
  {
  }

  lemma {:induction false} PolicyAddresses(address: Address)
    ensures PolicyKind(address) == Some(OriginPulls) <==> address in PULL_ADDRESSES
    ensures PolicyKind(address) == Some(ZoneSettings) <==> address in SETTING_ADDRESSES
    ensures PolicyKind(address) == Some(Rulesets) <==> address in RULESET_ADDRESSES
    ensures PolicyKind(address).Some? ==> PolicyKind(address).value in {OriginPulls, ZoneSettings, Rulesets}
  {
    if PolicyKind(address).Some? {
      assert address.zone == Net || address.zone == Com;
    }
  }

  lemma {:induction false} AbsentAddress(plan: Plan, c: Change)
    requires PolicyAbsent(plan) && c in plan.changes && c.Active()
    ensures c.kind != OriginPulls && c.kind != ZoneSettings && c.kind != Rulesets
  {
    assert c.kind == OriginPulls ==> c in Active(plan, OriginPulls);
    assert c.kind == ZoneSettings ==> c in Active(plan, ZoneSettings);
    assert c.kind == Rulesets ==> c in Active(plan, Rulesets);
  }

  lemma {:induction false} EdgePresence(policy: Policy, plan: Plan, dns: Phase, address: Address)
    requires EdgeClean(policy, plan, dns) && PolicyKind(address).Some?
    ensures !dns.Direct? <==> IsActive(plan, PolicyKind(address).value, address)
  {
    if dns.Direct? {
      forall c | c in plan.changes && c.Active()
        ensures c.kind != PolicyKind(address).value
      {
        AbsentAddress(plan, c);
      }
    } else {
      PresentAddress(policy, plan, address);
    }
  }

  /** The reviewed policy resources of an accepted plan are all active behind proxied records, and
      none of them is without. */
  lemma {:induction false} AcceptedPresence(policy: Policy, plan: Plan, requested: Option<Phase>, address: Address)
    requires Accepts(policy, plan, requested) && PolicyKind(address).Some?
    ensures Shielded(plan) <==> IsActive(plan, PolicyKind(address).value, address)
  {
    var dns := AcceptedPasses(policy, plan, requested);
    ProxiesShown(policy, plan, dns);
    EdgePresence(policy, plan, dns, address);
  }

  lemma {:induction false} NoAssociation(policy: Policy, plan: Plan, dns: Phase, c: Change)
    requires EdgeClean(policy, plan, dns) && c in plan.changes && c.Active()
    ensures c.kind != Associations
  {
    assert c.kind == Associations ==> c in Active(plan, Associations);
  }

  /** An enabled origin pull in its own zone. */
  ghost predicate Pulled(plan: Plan, c: Change) {
    && c.address.Pulls? && Get(c.After(), Enabled) == Bool(true)
    && Get(c.After(), ZoneId) == ZoneAt(plan, c.address.zone)
  }

  ghost predicate SetTo(c: Change, id: string, value: string) {
    Get(c.After(), SettingId) == Text(id) && Get(c.After(), Value) == Text(value)
  }

  /** Full (strict), with Always Online and Always Use HTTPS off. */
  ghost predicate Strict(plan: Plan, c: Change) {
    && (|| (c.address.Ssl? && SetTo(c, "ssl", "strict"))
        || (c.address.AlwaysOnline? && SetTo(c, "always_online", "off"))
        || (c.address.AlwaysUseHttps? && SetTo(c, "always_use_https", "off")))
    && Get(c.After(), ZoneId) == ZoneAt(plan, c.address.zone)
  }

  /** A zone ruleset with one enabled rule, whose action is that of its phase. */
  ghost predicate Ruled(plan: Plan, c: Change) {
    var rules := Elements(Get(c.After(), Rules));
    && (c.address.CacheBypass? || c.address.CdnCgiBlock? || c.address.TransformDisable?)
    && Get(c.After(), RulesetKind) == Text("zone") && Get(c.After(), ZoneId) == ZoneAt(plan, c.address.zone)
    && |rules| == 1 && Member(rules[0], Enabled) == Bool(true)
    && ReviewedRule(Get(c.After(), RulesetPhase), rules[0], c.address.zone)
  }

  /** The rule of a phase, for all hosts of the zone; the blocking one for some of their paths. */
  ghost predicate ReviewedRule(phase: Json, rule: Json, zone: Zone) {
    || (&& phase == Text("http_request_cache_settings") && Member(rule, Expression) == Text(InZone(zone))
        && Member(rule, Action) == Text("set_cache_settings") && OnlyParameters(rule, CACHE))
    || (&& phase == Text("http_config_settings") && Member(rule, Expression) == Text(InZone(zone))
        && Member(rule, Action) == Text("set_config") && OnlyParameters(rule, CONFIG))
    || (&& phase == Text("http_request_firewall_custom") && Narrows(Member(rule, Expression), InZone(zone))
        && Member(rule, Action) == Text("block"))
  }

  ghost predicate Narrows(expression: Json, hosts: string) {
    expression.Text? && hosts < expression.text
  }

  const CACHE: seq<(string, bool)> := [("cache", false)]
  const CONFIG: seq<(string, bool)> :=
    [("automatic_https_rewrites", false), ("disable_rum", true), ("disable_zaraz", true),
     ("email_obfuscation", false), ("fonts", false), ("rocket_loader", false)]

  /** The parameters of a rule: these settings, and no other. */
  ghost predicate OnlyParameters(rule: Json, settings: seq<(string, bool)>) {
    var parameters := Member(rule, Parameters);
    && parameters.Object?
    && (forall i :: 0 <= i < |settings| ==> Get(parameters.fields, Other(settings[i].0)) == Bool(settings[i].1))
    && (forall field <- parameters.fields :: parameters.fields[field] != Null ==>
          exists i :: 0 <= i < |settings| && field == Other(settings[i].0))
  }

  lemma {:induction false} PresentIsGood(policy: Policy, plan: Plan, c: Change)
    requires PolicyPresent(policy, plan) && c in plan.changes && c.Active()
    ensures c.kind == OriginPulls ==> c.address in PULL_ADDRESSES && PullGood(plan, c)
    ensures c.kind == ZoneSettings ==> SettingGood(policy, plan, c)
    ensures c.kind == Rulesets ==> c.address in RULESET_ADDRESSES && RulesetGood(policy, plan, c)
    ensures c.kind == Rulesets ==> Get(c.After(), RulesetPhase) in ReviewedPhases(policy.review)
  {
    assert ContentGood(policy, plan, c);
    if c.kind == Rulesets {
      assert Get(c.After(), RulesetPhase) in PhasesOf(plan.changes, c.address.zone);
    }
  }

  lemma {:induction false} GoodIsPresent(policy: Policy, plan: Plan, dns: Phase, c: Change)
    requires EdgeClean(policy, plan, dns) && c in plan.changes && c.Active()
    requires c.kind == OriginPulls || c.kind == ZoneSettings || c.kind == Rulesets
    ensures PolicyPresent(policy, plan)
  {
    if dns.Direct? {
      AbsentAddress(plan, c);
    }
  }

  lemma {:induction false} PullShown(policy: Policy, plan: Plan, c: Change)
    requires PolicyPresent(policy, plan) && c in plan.changes && c.Active() && c.kind == OriginPulls
    ensures Pulled(plan, c)
  {
    PresentIsGood(policy, plan, c);
    PolicyAddresses(c.address);
    GoodPull(plan, c);
  }

  lemma {:induction false} GoodPull(plan: Plan, c: Change)
    requires PullGood(plan, c) && c.address.Pulls?
    ensures Pulled(plan, c)
  {
  }

  lemma {:induction false} GoodSetting(networks: set<Json>, plan: Plan, c: Change)
    requires SettingGood(Production(networks), plan, c) && PolicyKind(c.address) == Some(ZoneSettings)
    ensures Strict(plan, c)
  {
  }

  lemma {:induction false} GoodRuleset(networks: set<Json>, plan: Plan, c: Change)
    requires RulesetGood(Production(networks), plan, c) && PolicyKind(c.address) == Some(Rulesets)
    requires Get(c.After(), RulesetPhase) in ReviewedPhases(Production(networks).review)
    ensures Ruled(plan, c)
  {
    PhaseRule(Production(networks).review, Get(c.After(), RulesetPhase), Elements(Get(c.After(), Rules))[0],
              c.address.zone);
  }

  lemma {:induction false} PhaseRule(review: Review, phase: Json, rule: Json, zone: Zone)
    requires review.phase == ProductionPhase && review.rule == ProductionRule && phase in ReviewedPhases(review)
    requires var stage := StageOf(review, phase); stage.Some? ==> Follows(rule, review.rule(zone, stage.value))
    ensures ReviewedRule(phase, rule, zone)
  {
    GoodRule(rule, zone, StageOf(review, phase).value);
  }

  /** The reviewed rule of each phase. */
  lemma {:induction false} GoodRule(rule: Json, zone: Zone, stage: Stage)
    requires Follows(rule, ProductionRule(zone, stage))
    ensures stage.Cache? ==> Member(rule, Action) == Text("set_cache_settings") && OnlyParameters(rule, CACHE)
    ensures stage.Config? ==> Member(rule, Action) == Text("set_config") && OnlyParameters(rule, CONFIG)
    ensures stage.Custom? ==> Member(rule, Action) == Text("block") && Narrows(Member(rule, Expression), InZone(zone))
    ensures !stage.Custom? ==> Member(rule, Expression) == Text(InZone(zone))
  {
    if stage.Custom? {
      BlockNarrows(zone, InZone(zone));
    }
    if stage.Cache? {
      assert CACHE[0].0 == "cache";
      assert Lists(ProductionRule(zone, stage).parameters.value, CACHE);
      ParametersAre(rule, ProductionRule(zone, stage).parameters.value, CACHE);
    }
    if stage.Config? {
      ConfigFields(ProductionRule(zone, stage).parameters.value);
      ParametersAre(rule, ProductionRule(zone, stage).parameters.value, CONFIG);
    }
  }

  lemma {:induction false} BlockNarrows(zone: Zone, hosts: string)
    requires hosts == InZone(zone)
    ensures Narrows(ProductionRule(zone, Custom).expression, hosts)
  {
    assert ProductionRule(zone, Custom).expression.text[..|hosts|] == hosts;
  }

  /** Exactly these settings. */
  ghost predicate Lists(expected: Attributes, settings: seq<(string, bool)>) {
    && (forall i :: 0 <= i < |settings| ==> Get(expected, Other(settings[i].0)) == Bool(settings[i].1))
    && (forall field <- expected :: exists i :: 0 <= i < |settings| && field == Other(settings[i].0))
  }

  lemma {:induction false} ParametersAre(rule: Json, expected: Attributes, settings: seq<(string, bool)>)
    requires ParametersMatch(Member(rule, Parameters), expected) && Lists(expected, settings)
    ensures OnlyParameters(rule, settings)
  {
    var fields := Member(rule, Parameters).fields;
    forall i | 0 <= i < |settings|
      ensures Get(fields, Other(settings[i].0)) == Bool(settings[i].1)
    {
      assert Other(settings[i].0) in expected;
    }
  }

  /** The first settings as a map. */
  function AsMap(settings: seq<(string, bool)>, k: nat): Attributes
    requires k <= |settings|
  {
    if k == 0 then map[] else AsMap(settings, k - 1)[Other(settings[k - 1].0) := Bool(settings[k - 1].1)]
  }

  lemma {:induction false} MapLists(settings: seq<(string, bool)>, k: nat)
    requires k <= |settings| && forall i, j :: 0 <= i < j < |settings| ==> settings[i].0 != settings[j].0
    ensures Lists(AsMap(settings, k), settings[..k])
  {
    if k > 0 {
      MapLists(settings, k - 1);
      var before, last := AsMap(settings, k - 1), settings[k - 1];
      assert forall i :: 0 <= i < k - 1 ==> settings[..k - 1][i] == settings[..k][i];
      forall field | field in AsMap(settings, k)
        ensures exists i :: 0 <= i < k && field == Other(settings[..k][i].0)
      {
        if field == Other(last.0) {
          assert settings[..k][k - 1] == last;
        } else {
          var i :| 0 <= i < k - 1 && field == Other(settings[..k - 1][i].0);
          assert settings[..k][i] == settings[..k - 1][i];
        }
      }
    }
  }

  lemma {:induction false} NamesDiffer()
    ensures forall i, j :: 0 <= i < j < |CONFIG| ==> CONFIG[i].0 != CONFIG[j].0
  {
    assert |CONFIG[0].0| == 24 && |CONFIG[1].0| == 11 && |CONFIG[2].0| == 13;
    assert |CONFIG[3].0| == 17 && |CONFIG[4].0| == 5 && |CONFIG[5].0| == 13;
    assert CONFIG[2].0[0] != CONFIG[5].0[0];
  }

  lemma {:induction false} ConfigFields(expected: Attributes)
    requires expected == ProductionRule(Net, Config).parameters.value
    ensures Lists(expected, CONFIG)
  {
    NamesDiffer();
    MapLists(CONFIG, 6);
    assert CONFIG[..6] == CONFIG && AsMap(CONFIG, 6) == expected;
  }

  /** The origin pulls of an accepted plan are enabled in their own zones, and there is no
      hostname-level association. */
  lemma {:induction false} AcceptedPulls(policy: Policy, plan: Plan, requested: Option<Phase>)
    requires Accepts(policy, plan, requested)
    ensures forall c <- plan.changes :: c.kind == OriginPulls && c.Active() ==> Pulled(plan, c)
    ensures forall c <- plan.changes :: c.kind == Associations ==> !c.Active()
  {
    var dns := AcceptedPasses(policy, plan, requested);
    forall c | c in plan.changes && c.Active()
      ensures c.kind != Associations && (c.kind == OriginPulls ==> Pulled(plan, c))
    {
      NoAssociation(policy, plan, dns, c);
      if c.kind == OriginPulls {
        GoodIsPresent(policy, plan, dns, c);
        PullShown(policy, plan, c);
      }
    }
  }

  lemma {:induction false} ProductionContents(networks: set<Json>, plan: Plan, c: Change)
    requires PolicyPresent(Production(networks), plan) && c in plan.changes && c.Active()
    ensures c.kind == ZoneSettings ==> Strict(plan, c)
    ensures c.kind == Rulesets ==> Ruled(plan, c)
  {
    PresentIsGood(Production(networks), plan, c);
    PolicyAddresses(c.address);
    if c.kind == ZoneSettings {
      GoodSetting(networks, plan, c);
    }
    if c.kind == Rulesets {
      GoodRuleset(networks, plan, c);
    }
  }

  /** Under the production policy an accepted plan has strict zone settings and the reviewed rules. */
  lemma {:induction false} AcceptedContents(networks: set<Json>, plan: Plan, requested: Option<Phase>)
    requires Accepts(Production(networks), plan, requested)
    ensures forall c <- plan.changes :: c.kind == ZoneSettings && c.Active() ==> Strict(plan, c)
    ensures forall c <- plan.changes :: c.kind == Rulesets && c.Active() ==> Ruled(plan, c)
  {
    var dns := AcceptedPasses(Production(networks), plan, requested);
    forall c | c in plan.changes && c.Active() && (c.kind == ZoneSettings || c.kind == Rulesets)
      ensures (c.kind == ZoneSettings ==> Strict(plan, c)) && (c.kind == Rulesets ==> Ruled(plan, c))
    {
      GoodIsPresent(Production(networks), plan, dns, c);
      ProductionContents(networks, plan, c);
    }
  }
}
