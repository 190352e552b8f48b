/** Values and resource changes of an OpenTofu JSON plan, and the policy that its public-edge
    part must satisfy (scripts/assert_opentofu_plan.py). */
module EdgePlan {
  import opened Outcomes

  datatype Json =
    | Null
    | Bool(flag: bool)
    | Number(number: int)
    | Text(text: string)
    | List(items: seq<Json>)
    | Object(fields: Attributes)

  type Attributes = map<Field, Json>

  /** Attribute names; the policy looks at those that have a name here. */
  datatype Field =
    | InboundRule | Protocol | PortRange | SourceAddresses
    | Name | Proxy | Ttl | RecordType | Comment | ZoneId | Content | IpAddress | Value
    | Enabled | SettingId | RulesetKind | RulesetPhase | Rules | Action | Expression | Parameters
    | CloudflareZoneId | CloudflareTenantZoneId
    | Other(name: string)

  function Get(attributes: Attributes, field: Field): Json {
    if field in attributes then attributes[field] else Null
  }

  function Member(value: Json, field: Field): Json {
    if value.Object? then Get(value.fields, field) else Null
  }

  /** `value or []` for a list attribute. */
  function Elements(value: Json): seq<Json> {
    if value.List? then value.items else []
  }

  /** `_contains_unknown`. */
  predicate ContainsUnknown(value: Json) {
    match value
    case Bool(flag) => flag
    case List(items) => exists i :: 0 <= i < |items| && ContainsUnknown(items[i])
    case Object(fields) => exists field :: field in fields && ContainsUnknown(fields[field])
    case _ => false
  }

  datatype Step = Index(at: nat) | Key(field: Field)

  /** The value at the end of a path, if the path exists. */
  function At(value: Json, path: seq<Step>): Option<Json> {
    if path == [] then Some(value)
    else
      match path[0]
      case Index(at) => if value.List? && at < |value.items| then At(value.items[at], path[1..]) else None
      case Key(field) => if value.Object? && field in value.fields then At(value.fields[field], path[1..]) else None
  }

  /** Something is unknown exactly when some path leads to the literal `true`. */
  lemma {:induction false} UnknownIsSomewhere(value: Json)
    ensures ContainsUnknown(value) <==> exists path :: At(value, path) == Some(Bool(true))
  {
    if ContainsUnknown(value) {
      var path := PathToUnknown(value);
    }
    forall path | At(value, path) == Some(Bool(true))
      ensures ContainsUnknown(value)
    {
      PathIsUnknown(value, path);
    }
  }

  lemma {:induction false} PathToUnknown(value: Json) returns (path: seq<Step>)
    requires ContainsUnknown(value)
    ensures At(value, path) == Some(Bool(true))
  {
    match value
    case Bool(flag) =>
      path := [];
    case List(items) =>
      var i :| 0 <= i < |items| && ContainsUnknown(items[i]);
      var rest := PathToUnknown(items[i]);
      path := [Index(i)] + rest;
      assert path[1..] == rest;
    case Object(fields) =>
      var field :| field in fields && ContainsUnknown(fields[field]);
      var rest := PathToUnknown(fields[field]);
      path := [Key(field)] + rest;
      assert path[1..] == rest;
  }

  lemma {:induction false} PathIsUnknown(value: Json, path: seq<Step>)
    requires At(value, path) == Some(Bool(true))
    ensures ContainsUnknown(value)
  {
    if path != [] {
      match path[0]
      case Index(at) => PathIsUnknown(value.items[at], path[1..]);
      case Key(field) => PathIsUnknown(value.fields[field], path[1..]);
    }
  }

  datatype Kind =
    | Firewalls | Associations | OriginPulls | DnsRecords | Rulesets | ZoneSettings | OtherKind(name: string)

  datatype Zone = Net | Com

  /** Resource addresses, by the module instance and the resource they name. */
  datatype Address =
    | Firewall | Droplet | ReservedIp
    | Apex(zone: Zone) | Wildcard(zone: Zone)
    | Pulls(zone: Zone)
    | AlwaysOnline(zone: Zone) | AlwaysUseHttps(zone: Zone) | Ssl(zone: Zone)
    | CacheBypass(zone: Zone) | CdnCgiBlock(zone: Zone) | TransformDisable(zone: Zone)
    | Elsewhere(name: string)

  datatype Action = NoOp | Read | Create | Update | Delete

  /** One entry of `resource_changes`; `None` stands for a null state. */
  datatype Change = Change(kind: Kind, address: Address, actions: seq<Action>,
                           before: Option<Attributes>, after: Option<Attributes>,
                           beforeUnknown: Attributes, afterUnknown: Attributes) {
    function After(): Attributes { if after.Some? then after.value else map[] }
    predicate Active() { After() != map[] }
    predicate Mutates() { actions != [NoOp] && actions != [Read] }

    /** The resource as `_project_before` presents it. */
    function Before(): Change { this.(after := before, afterUnknown := beforeUnknown) }

    /** `_changed_top_level_fields`. */
    function ChangedFields(): Option<set<Field>> {
      if before.None? || after.None? then None
      else
        var b, a := before.value, after.value;
        Some(set field | field in b.Keys + a.Keys + afterUnknown.Keys
                         && (Get(b, field) != Get(a, field) || ContainsUnknown(Get(afterUnknown, field))))
    }
  }

  datatype Plan = Plan(changes: seq<Change>, variables: Attributes) {
    /** `_project_before`. */
    function Before(): Plan { Plan(BeforeAll(changes), variables) }
  }

  function BeforeAll(changes: seq<Change>): seq<Change> {
    seq(|changes|, i requires 0 <= i < |changes| => changes[i].Before())
  }

  /** A field outside the changed ones is known and keeps its value. */
  lemma {:induction false} UnchangedFieldsAgree(c: Change, field: Field)
    requires c.ChangedFields().Some? && field !in c.ChangedFields().value
    ensures Get(c.before.value, field) == Get(c.after.value, field)
    ensures !ContainsUnknown(Get(c.afterUnknown, field))
  {
  }

  /** Entries that OpenTofu marks as not mutating leave their resource alone. */
  ghost predicate Faithful(plan: Plan) {
    forall c <- plan.changes :: !c.Mutates() ==> c.before == c.after && c.beforeUnknown == c.afterUnknown
  }

  predicate IsEdgeKind(kind: Kind) { !kind.Firewalls? && !kind.OtherKind? }

  const DIRECT_ADDRESSES := {Apex(Net), Wildcard(Net)}
  const PROXIED_ADDRESSES := DIRECT_ADDRESSES + {Apex(Com), Wildcard(Com)}
  const PULL_ADDRESSES := {Pulls(Net), Pulls(Com)}
  const SETTING_ADDRESSES :=
    {AlwaysOnline(Net), AlwaysUseHttps(Net), Ssl(Net), AlwaysOnline(Com), AlwaysUseHttps(Com), Ssl(Com)}
  const RULESET_ADDRESSES :=
    {CacheBypass(Net), CdnCgiBlock(Net), TransformDisable(Net),
     CacheBypass(Com), CdnCgiBlock(Com), TransformDisable(Com)}

  predicate IsEdgeAddress(address: Address) {
    !address.Firewall? && !address.Droplet? && !address.ReservedIp? && !address.Elsewhere?
  }

  const DIRECT_TTL := Number(300)
  const PROXIED_TTL := Number(1)

  /** The three reviewed ruleset phases of a zone. */
  datatype Stage = Cache | Config | Custom

  /** The one rule of a reviewed ruleset; without `parameters` they are not looked at. */
  datatype RuleSpec = RuleSpec(action: Json, expression: Json, parameters: Option<Attributes>)

  /** The reviewed contents of the policy resources: the text of each ruleset phase and the rule it
      must hold in each zone, the identifier and value of each zone setting, and the ruleset kind. */
  datatype Review = Review(phase: Stage -> Json, rule: (Zone, Stage) -> RuleSpec, setting: Address -> (Json, Json),
                           kind: Json)

  /** The constants of the policy: the reviewed Cloudflare networks, the world, the DNS names of
      the two modes, the management comment and the reviewed contents. */
  datatype Policy = Policy(networks: set<Json>, world: set<Json>, directNames: set<Json>, proxiedNames: set<Json>,
                           comment: Json, review: Review)

  function Domain(zone: Zone): string { if zone.Net? then "lowerduckpond.net" else "lowerduckpond.com" }

  function InZone(zone: Zone): string {
    "(http.host eq \"" + Domain(zone) + "\" or ends_with(http.host, \"." + Domain(zone) + "\"))"
  }

  function ProductionPhase(stage: Stage): Json {
    match stage
    case Cache => Text("http_request_cache_settings")
    case Config => Text("http_config_settings")
    case Custom => Text("http_request_firewall_custom")
  }

  function ProductionRule(zone: Zone, stage: Stage): RuleSpec {
    match stage
    case Cache =>
      RuleSpec(Text("set_cache_settings"), Text(InZone(zone)), Some(map[Other("cache") := Bool(false)]))
    case Config =>
      RuleSpec(Text("set_config"), Text(InZone(zone)),
               Some(map[Other("automatic_https_rewrites") := Bool(false), Other("disable_rum") := Bool(true),
                        Other("disable_zaraz") := Bool(true), Other("email_obfuscation") := Bool(false),
                        Other("fonts") := Bool(false), Other("rocket_loader") := Bool(false)]))
    case Custom =>
      RuleSpec(Text("block"),
               Text(InZone(zone) + " and (lower(http.request.uri.path) eq \"/cdn-cgi\" "
                    + "or starts_with(lower(http.request.uri.path), \"/cdn-cgi/\"))"), None)
  }

  function ProductionSetting(address: Address): (Json, Json) {
    if address.Ssl? then (Text("ssl"), Text("strict"))
    else if address.AlwaysOnline? then (Text("always_online"), Text("off"))
    else (Text("always_use_https"), Text("off"))
  }

  /** The production policy over the committed network snapshot. */
  function Production(networks: set<Json>): Policy {
    var direct := {Text("lowerduckpond.net"), Text("*.lowerduckpond.net")};
    Policy(networks, {Text("0.0.0.0/0"), Text("::/0")}, direct,
           direct + {Text("lowerduckpond.com"), Text("*.lowerduckpond.com")},
           Text("Managed by OpenTofu for Lower Duck Pond Hosting"),
           Review(ProductionPhase, ProductionRule, ProductionSetting, Text("zone")))
  }

  datatype Mode = Open | Restricted
  datatype Phase = Direct | Proxied | Enforced

  // ---------------------------------------------------------------- web ingress

  datatype Port = Ssh | Http | Https

  /** An inbound rule: TCP on one of the reviewed ports, or anything else. */
  datatype Rule = Tcp(port: Port, sources: set<Json>) | Unexpected

  function AsSet(items: seq<Json>): set<Json> { set item | item in items }

  function Parse(rule: Json): Rule {
    var port := Member(rule, PortRange);
    var sources := AsSet(Elements(Member(rule, SourceAddresses)));
    if Member(rule, Protocol) != Text("tcp") then Unexpected
    else if port == Text("22") then Tcp(Port.Ssh, sources)
    else if port == Text("80") then Tcp(Http, sources)
    else if port == Text("443") then Tcp(Https, sources)
    else Unexpected
  }

  predicate Allowed(policy: Policy, rule: Rule) {
    rule.Tcp? && (rule.port.Ssh? ==> rule.sources != {} && rule.sources !! policy.world)
  }

  /** The source sets of the rules of one port. */
  function On(rules: seq<Rule>, port: Port): seq<set<Json>> {
    if rules == [] then []
    else
      var last := rules[|rules| - 1];
      On(rules[..|rules| - 1], port) + if last.Tcp? && last.port == port then [last.sources] else []
  }

  /** Exactly one rule for each reviewed port, explicit sources for SSH, one policy for the web. */
  predicate Structured(policy: Policy, rules: seq<Rule>) {
    && (forall rule <- rules :: Allowed(policy, rule))
    && |On(rules, Port.Ssh)| == |On(rules, Http)| == |On(rules, Https)| == 1
    && On(rules, Http) == On(rules, Https)
  }

  function Classify(policy: Policy, web: set<Json>, historical: bool): Option<Mode> {
    if web == policy.world then Some(Open)
    else if web == policy.networks then Some(Restricted)
    else if historical && (web < policy.networks || policy.networks < web) then Some(Restricted)
    else None
  }

  function Ingress(policy: Policy, rules: seq<Rule>, historical: bool): Option<Mode> {
    if Structured(policy, rules) then Classify(policy, On(rules, Http)[0], historical) else None
  }

  function OfKind(plan: Plan, kind: Kind): seq<Change> {
    Filter(plan.changes, OfKindTest(kind))
  }

  function OfKindTest(kind: Kind): Change -> bool {
    (c: Change) => c.kind == kind
  }

  function Filter(changes: seq<Change>, keep: Change -> bool): (r: seq<Change>)
    ensures forall c :: c in r <==> c in changes && keep(c)
  {
    if changes == [] then []
    else
      var last := changes[|changes| - 1];
      Filter(changes[..|changes| - 1], keep) + if keep(last) then [last] else []
  }

  function InboundRules(c: Change): seq<Rule> {
    var rules := Elements(Get(c.After(), InboundRule));
    seq(|rules|, i requires 0 <= i < |rules| => Parse(rules[i]))
  }

  function FirewallMode(policy: Policy, plan: Plan, historical: bool): Option<Mode> {
    var firewalls := OfKind(plan, Firewalls);
    if |firewalls| == 1 then Ingress(policy, InboundRules(firewalls[0]), historical) else None
  }

  // ------------------------------------------------------------------------ DNS

  /** What the DNS mode looks at in an active record. */
  datatype Fact = Fact(address: Address, name: Json, proxied: Json, ttl: Json)

  function FactOf(c: Change): Fact {
    Fact(c.address, Get(c.After(), Name), Get(c.After(), Proxy), Get(c.After(), Ttl))
  }

  function Facts(changes: seq<Change>): set<Fact> {
    set c | c in changes && c.kind == DnsRecords && c.Active() :: FactOf(c)
  }

  function Names(facts: set<Fact>): set<Json> { set f | f in facts :: f.name }
  function Homes(facts: set<Fact>): set<Address> { set f | f in facts :: f.address }
  function Proxies(facts: set<Fact>): set<Json> { set f | f in facts :: f.proxied }
  function Ttls(facts: set<Fact>): set<Json> { set f | f in facts :: f.ttl }

  function DnsMode(policy: Policy, facts: set<Fact>): Option<Phase> {
    if && Names(facts) == policy.directNames && Homes(facts) == DIRECT_ADDRESSES
       && Proxies(facts) == {Bool(false)} && Ttls(facts) == {DIRECT_TTL} then Some(Direct)
    else if && Names(facts) == policy.proxiedNames && Homes(facts) == PROXIED_ADDRESSES
            && Proxies(facts) == {Bool(true)} && Ttls(facts) == {PROXIED_TTL} then Some(Proxied)
    else None
  }

  function Find(changes: seq<Change>, address: Address): Option<Change> {
    if changes == [] then None
    else if changes[0].address == address then Some(changes[0])
    else Find(changes[1..], address)
  }

  /** `_expected_edge_zone_id`. */
  function ExpectedZone(plan: Plan, address: Address): Json {
    if !IsEdgeAddress(address) then Null
    else if address.zone.Net? then Member(Get(plan.variables, CloudflareZoneId), Value)
    else Member(Get(plan.variables, CloudflareTenantZoneId), Value)
  }

  predicate TargetsReservedIp(plan: Plan, c: Change) {
    var ip := Find(plan.changes, ReservedIp);
    var unknown := ContainsUnknown(Get(c.afterUnknown, Content));
    && unknown == (ip.Some? && ContainsUnknown(Get(ip.value.afterUnknown, IpAddress)))
    && (unknown || Get(c.After(), Content) == if ip.Some? then Get(ip.value.After(), IpAddress) else Null)
  }

  predicate GoodRecord(policy: Policy, plan: Plan, c: Change) {
    && Get(c.After(), RecordType) == Text("A")
    && Get(c.After(), Comment) == policy.comment
    && Get(c.After(), ZoneId) == ExpectedZone(plan, c.address)
    && TargetsReservedIp(plan, c)
  }

  predicate DnsClean(policy: Policy, plan: Plan) {
    forall c <- plan.changes :: c.kind == DnsRecords && c.Active() ==> GoodRecord(policy, plan, c)
  }

  // ------------------------------------------------------- the edge and its phase

  function Active(plan: Plan, kind: Kind): set<Change> {
    set c | c in plan.changes && c.kind == kind && c.Active()
  }

  predicate IsActive(plan: Plan, kind: Kind, address: Address) {
    exists c <- plan.changes :: c.kind == kind && c.address == address && c.Active()
  }

  /** The active resources of one kind have exactly these addresses. */
  predicate Exactly(plan: Plan, kind: Kind, addresses: set<Address>) {
    && (forall c <- plan.changes :: c.kind == kind && c.Active() ==> c.address in addresses)
    && (forall a {:trigger IsActive(plan, kind, a)} :: a in addresses ==> IsActive(plan, kind, a))
  }

  /** Only reviewed addresses are managed at all. */
  predicate EdgeAddressed(plan: Plan) {
    forall c <- plan.changes :: IsEdgeKind(c.kind) ==> IsEdgeAddress(c.address)
  }

  predicate PolicyAbsent(plan: Plan) {
    Active(plan, OriginPulls) == {} && Active(plan, ZoneSettings) == {} && Active(plan, Rulesets) == {}
  }

  predicate InReviewedZone(plan: Plan, c: Change) {
    Get(c.After(), ZoneId) == ExpectedZone(plan, c.address)
  }

  predicate PullGood(plan: Plan, c: Change) {
    Get(c.After(), Enabled) == Bool(true) && InReviewedZone(plan, c)
  }

  predicate SettingGood(policy: Policy, plan: Plan, c: Change) {
    && c.address in SETTING_ADDRESSES
    && (Get(c.After(), SettingId), Get(c.After(), Value)) == policy.review.setting(c.address)
    && InReviewedZone(plan, c)
  }

  /** `_action_parameters_match`: provider-shaped nulls are accepted, other parameters are not. */
  predicate ParametersMatch(parameters: Json, expected: Attributes) {
    && parameters.Object?
    && (forall field <- expected :: Get(parameters.fields, field) == expected[field])
    && (forall field <- parameters.fields :: parameters.fields[field] != Null ==> field in expected)
  }

  function StageOf(review: Review, phase: Json): Option<Stage> {
    if phase == review.phase(Cache) then Some(Cache)
    else if phase == review.phase(Config) then Some(Config)
    else if phase == review.phase(Custom) then Some(Custom)
    else None
  }

  predicate Follows(rule: Json, spec: RuleSpec) {
    && Member(rule, Action) == spec.action && Member(rule, Expression) == spec.expression
    && (spec.parameters.Some? ==> ParametersMatch(Member(rule, Parameters), spec.parameters.value))
  }

  /** `_check_public_edge_rule`: exactly one enabled rule, the reviewed one of its phase. */
  predicate RuleGood(review: Review, zone: Zone, after: Attributes) {
    var rules, stage := Elements(Get(after, Rules)), StageOf(review, Get(after, RulesetPhase));
    && |rules| == 1 && Member(rules[0], Enabled) == Bool(true)
    && (stage.Some? ==> Follows(rules[0], review.rule(zone, stage.value)))
  }

  predicate RulesetGood(policy: Policy, plan: Plan, c: Change) {
    && IsEdgeAddress(c.address) && Get(c.After(), RulesetKind) == policy.review.kind
    && InReviewedZone(plan, c) && RuleGood(policy.review, c.address.zone, c.After())
  }

  function PhasesOf(changes: seq<Change>, zone: Zone): set<Json> {
    set c | c in changes && c.kind == Rulesets && c.Active() && IsEdgeAddress(c.address) && c.address.zone == zone ::
      Get(c.After(), RulesetPhase)
  }

  function ReviewedPhases(review: Review): set<Json> {
    {review.phase(Cache), review.phase(Config), review.phase(Custom)}
  }

  /** The contents of one active policy resource. */
  predicate ContentGood(policy: Policy, plan: Plan, c: Change) {
    match c.kind
    case OriginPulls => PullGood(plan, c)
    case ZoneSettings => SettingGood(policy, plan, c)
    case Rulesets => RulesetGood(policy, plan, c)
    case _ => true
  }

  predicate ContentsGood(policy: Policy, plan: Plan) {
    forall c <- plan.changes :: c.Active() ==> ContentGood(policy, plan, c)
  }

  /** Each zone owns the three reviewed phases. */
  predicate PhasesGood(policy: Policy, plan: Plan) {
    && PhasesOf(plan.changes, Net) == ReviewedPhases(policy.review)
    && PhasesOf(plan.changes, Com) == ReviewedPhases(policy.review)
  }

  /** Exactly the reviewed policy resources are active, with their reviewed contents. */
  predicate PolicyPresent(policy: Policy, plan: Plan) {
    && Exactly(plan, OriginPulls, PULL_ADDRESSES)
    && Exactly(plan, ZoneSettings, SETTING_ADDRESSES)
    && Exactly(plan, Rulesets, RULESET_ADDRESSES)
    && ContentsGood(policy, plan) && PhasesGood(policy, plan)
  }

  /** `_check_public_edge_resources`. */
  predicate EdgeClean(policy: Policy, plan: Plan, dns: Phase) {
    && EdgeAddressed(plan)
    && Active(plan, Associations) == {}
    && (if dns.Direct? then PolicyAbsent(plan) else PolicyPresent(policy, plan))
  }

  /** The phase that the three checks select together, if none of them reports an error. */
  function Combined(ingress: Option<Mode>, dns: Option<Phase>, clean: bool): Option<Phase> {
    if ingress.None? || dns.None? || !clean then None
    else if dns.value.Proxied? && ingress.value.Restricted? then Some(Enforced)
    else dns
  }

  /** `_edge_phase`: the phase of a plan without any error, and nothing otherwise. */
  function PhaseOf(policy: Policy, plan: Plan, historical: bool): Option<Phase> {
    var dns := DnsMode(policy, Facts(plan.changes));
    Combined(FirewallMode(policy, plan, historical), dns,
             DnsClean(policy, plan) && dns.Some? && EdgeClean(policy, plan, dns.value))
  }

  predicate IsEdgeChange(c: Change) {
    c.Mutates() && (IsEdgeKind(c.kind) || (c.address == Firewall && c.ChangedFields() == Some({InboundRule})))
  }

  predicate Initial(plan: Plan) {
    var droplet := Find(plan.changes, Droplet);
    droplet.Some? && droplet.value.actions == [Create]
  }

  /** `_check_public_edge_transition`. */
  predicate TransitionClean(policy: Policy, plan: Plan, requested: Option<Phase>, desired: Option<Phase>) {
    && (requested == Some(Enforced) ==>
          !Initial(plan) && PhaseOf(policy, plan.Before(), true) in {Some(Proxied), Some(Enforced)})
    && (Initial(plan) ||
        if forall c <- plan.changes :: !IsEdgeChange(c) then requested.None?
        else
          && requested.Some? && desired == requested
          && (requested.value.Direct? ==> forall c <- plan.changes :: IsEdgeChange(c) ==> c.address != Firewall)
          && (forall c <- plan.changes :: c.Mutates() ==> IsEdgeChange(c)))
  }

  /** The public-edge part of `assert_plan` reports no error. */
  predicate Accepts(policy: Policy, plan: Plan, requested: Option<Phase>) {
    && PhaseOf(policy, plan, false).Some?
    && TransitionClean(policy, plan, requested, PhaseOf(policy, plan, false))
  }
}
