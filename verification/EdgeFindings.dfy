/** Concrete accepted plans that the operations guide (docs/operations/infrastructure.md) says are
    rejected, each beside any other resources that the plan leaves alone. */
module EdgeFindings {
  import opened Outcomes
  import opened EdgePlan
  import opened EdgeTransitions

  // ------------------------------------------------------------ plans from parts

  /** A plan by parts: the firewall, the DNS records, the edge policy resources, and whatever else
      it lists, such as the droplet, the project resources and the reserved address. */
  datatype Parts = Parts(firewall: Change, records: seq<Change>, policies: seq<Change>, others: seq<Change>,
                         variables: Attributes) {
    function Changes(): seq<Change> { [firewall] + records + policies + others }
    function Plan(): Plan { EdgePlan.Plan(Changes(), variables) }
  }

  function Steady(kind: Kind, address: Address, attributes: Attributes): Change {
    Change(kind, address, [NoOp], Some(attributes), Some(attributes), map[], map[])
  }

  /** The reserved address that every record must point to. */
  function Fixed(ip: Json): Change {
    Steady(OtherKind("digitalocean_reserved_ip"), ReservedIp, map[IpAddress := ip])
  }

  predicate IsPolicyKind(kind: Kind) { kind.OriginPulls? || kind.ZoneSettings? || kind.Rulesets? }

  /** A resource that is neither edge nor firewall and that the plan leaves alone. */
  ghost predicate Bystander(c: Change, ip: Json) {
    && c.kind.OtherKind? && !c.Mutates() && c.Before() == c
    && !IsEdgeAddress(c.address) && c.address != Firewall
    && (c.address == ReservedIp ==> c == Fixed(ip))
  }

  ghost predicate Sorted(p: Parts, ip: Json) {
    && p.firewall.kind == Firewalls && p.firewall.address == Firewall
    && (forall c {:trigger IsRecord(c)} :: c in p.records ==> IsRecord(c))
    && (forall c {:trigger IsPolicy(c)} :: c in p.policies ==> IsPolicy(c))
    && Bystanders(p.others, ip)
  }

  predicate IsRecord(c: Change) { c.kind == DnsRecords && IsEdgeAddress(c.address) }

  predicate IsPolicy(c: Change) { IsPolicyKind(c.kind) && IsEdgeAddress(c.address) }

  ghost predicate Bystanders(others: seq<Change>, ip: Json) {
    Fixed(ip) in others && forall c {:trigger Bystander(c, ip)} :: c in others ==> Bystander(c, ip)
  }

  /** Where a change of the plan comes from. */
  lemma {:induction false} PartOf(p: Parts, ip: Json, c: Change)
    requires Sorted(p, ip) && c in p.Changes()
    ensures c == p.firewall || c in p.records || c in p.policies || c in p.others
    ensures c.kind == Firewalls ==> c == p.firewall
    ensures c.kind == DnsRecords ==> c in p.records
    ensures IsPolicyKind(c.kind) ==> c in p.policies
    ensures c.kind != Associations && (IsEdgeKind(c.kind) <==> IsEdgeAddress(c.address))
    ensures c.address == ReservedIp ==> c == Fixed(ip)
    ensures c.address == Firewall ==> c == p.firewall
    ensures c.address == Droplet ==> !c.Mutates()
  {
    var changes := p.Changes();
    assert changes == [p.firewall] + (p.records + (p.policies + p.others));
    assert c in p.records ==> IsRecord(c);
    assert c in p.policies ==> IsPolicy(c);
    assert c in p.others ==> Bystander(c, ip);
  }

  lemma {:induction false} FilterFirst(changes: seq<Change>, keep: Change -> bool)
    requires changes != [] && keep(changes[0]) && forall c <- changes[1..] :: !keep(c)
    ensures Filter(changes, keep) == [changes[0]]
  {
    var n := |changes| - 1;
    if n > 0 {
      assert changes[n] in changes[1..];
      assert changes[..n][1..] == changes[1..n];
      FilterFirst(changes[..n], keep);
    } else {
      assert changes[..0] == [];
    }
  }

  lemma {:induction false} FindOnly(changes: seq<Change>, address: Address, c: Change)
    requires c in changes && c.address == address && forall d <- changes :: d.address == address ==> d == c
    ensures Find(changes, address) == Some(c)
  {
    if changes[0].address != address {
      FindOnly(changes[1..], address, c);
    }
  }

  lemma {:induction false} FoundIsThere(changes: seq<Change>, address: Address)
    ensures Find(changes, address).Some? ==>
              Find(changes, address).value in changes && Find(changes, address).value.address == address
  {
    if changes != [] {
      FoundIsThere(changes[1..], address);
    }
  }

  lemma {:induction false} BeforeMember(changes: seq<Change>, b: Change) returns (c: Change)
    requires b in BeforeAll(changes)
    ensures c in changes && c.Before() == b
  {
    var i :| 0 <= i < |changes| && BeforeAll(changes)[i] == b;
    c := changes[i];
  }

  lemma {:induction false} MemberBefore(changes: seq<Change>, c: Change)
    requires c in changes
    ensures c.Before() in BeforeAll(changes)
  {
    var i :| 0 <= i < |changes| && changes[i] == c;
    assert BeforeAll(changes)[i] == c.Before();
  }

  lemma {:induction false} OneFirewall(p: Parts, ip: Json)
    requires Sorted(p, ip)
    ensures OfKind(p.Plan(), Firewalls) == [p.firewall]
    ensures OfKind(p.Plan().Before(), Firewalls) == [p.firewall.Before()]
  {
    var rest := p.records + p.policies + p.others;
    var changes := p.Changes();
    assert changes == [p.firewall] + rest && changes[1..] == rest;
    forall c | c in rest
      ensures c.kind != Firewalls
    {
      assert c in p.records ==> IsRecord(c);
      assert c in p.policies ==> IsPolicy(c);
      assert c in p.others ==> Bystander(c, ip);
    }
    FilterFirst(changes, OfKindTest(Firewalls));
    var before := BeforeAll(changes);
    forall b | b in before[1..]
      ensures b.kind != Firewalls
    {
      var i :| 0 <= i < |before| - 1 && before[1..][i] == b;
      assert b == changes[i + 1].Before() && changes[i + 1] == rest[i];
    }
    FilterFirst(before, OfKindTest(Firewalls));
  }

  lemma {:induction false} FactsOfParts(p: Parts, ip: Json)
    requires Sorted(p, ip)
    ensures Facts(p.Changes()) == Facts(p.records)
    ensures Facts(p.Plan().Before().changes) == Facts(BeforeAll(p.records))
  {
    var changes := p.Changes();
    forall c | c in changes && c.kind == DnsRecords
      ensures c in p.records
    {
      PartOf(p, ip, c);
    }
    forall b | b in BeforeAll(changes) && b.kind == DnsRecords
      ensures b in BeforeAll(p.records)
    {
      var c := BeforeMember(changes, b);
      MemberBefore(p.records, c);
    }
    forall b | b in BeforeAll(p.records)
      ensures b in BeforeAll(changes)
    {
      var c := BeforeMember(p.records, b);
      MemberBefore(changes, c);
    }
  }

  lemma {:induction false} AddressOfParts(p: Parts, ip: Json)
    requires Sorted(p, ip)
    ensures Find(p.Changes(), ReservedIp) == Some(Fixed(ip))
    ensures Find(BeforeAll(p.Changes()), ReservedIp) == Some(Fixed(ip))
    ensures !Initial(p.Plan())
  {
    var changes := p.Changes();
    forall c | c in changes && c.address == ReservedIp
      ensures c == Fixed(ip)
    {
      PartOf(p, ip, c);
    }
    FindOnly(changes, ReservedIp, Fixed(ip));
    forall b | b in BeforeAll(changes) && b.address == ReservedIp
      ensures b == Fixed(ip)
    {
      var c := BeforeMember(changes, b);
    }
    MemberBefore(changes, Fixed(ip));
    FindOnly(BeforeAll(changes), ReservedIp, Fixed(ip));
    FoundIsThere(changes, Droplet);
    if Find(changes, Droplet).Some? {
      PartOf(p, ip, Find(changes, Droplet).value);
    }
  }

  /** A record that the DNS check passes beside the reserved address `ip`. */
  ghost predicate Pointing(policy: Policy, variables: Attributes, c: Change, ip: Json) {
    c.Active() ==>
      && Get(c.After(), RecordType) == Text("A") && Get(c.After(), Comment) == policy.comment
      && Get(c.After(), ZoneId) == ZoneOf(variables, c.address) && Get(c.After(), Content) == ip
      && c.afterUnknown == map[]
  }

  ghost predicate AllPoint(policy: Policy, p: Parts, ip: Json) {
    forall c {:trigger Pointing(policy, p.variables, c, ip)} :: c in p.records ==> Pointing(policy, p.variables, c, ip)
  }

  ghost predicate AllPointBefore(policy: Policy, p: Parts, ip: Json) {
    forall c {:trigger Pointing(policy, p.variables, c.Before(), ip)} ::
      c in p.records ==> Pointing(policy, p.variables, c.Before(), ip)
  }

  function ZoneOf(variables: Attributes, address: Address): Json { ExpectedZone(EdgePlan.Plan([], variables), address) }

  lemma {:induction false} PointingIsGood(policy: Policy, plan: Plan, c: Change, ip: Json)
    requires Pointing(policy, plan.variables, c, ip) && c.Active() && Find(plan.changes, ReservedIp) == Some(Fixed(ip))
    ensures GoodRecord(policy, plan, c)
  {
  }

  lemma {:induction false} RecordsOfParts(policy: Policy, p: Parts, ip: Json)
    requires Sorted(p, ip) && AllPoint(policy, p, ip)
    ensures DnsClean(policy, p.Plan())
  {
    AddressOfParts(p, ip);
    forall c | c in p.Changes() && c.kind == DnsRecords && c.Active()
      ensures GoodRecord(policy, p.Plan(), c)
    {
      PartOf(p, ip, c);
      PointingIsGood(policy, p.Plan(), c, ip);
    }
  }

  lemma {:induction false} RecordsOfPartsBefore(policy: Policy, p: Parts, ip: Json)
    requires Sorted(p, ip) && AllPointBefore(policy, p, ip)
    ensures DnsClean(policy, p.Plan().Before())
  {
    AddressOfParts(p, ip);
    forall b | b in BeforeAll(p.Changes()) && b.kind == DnsRecords && b.Active()
      ensures GoodRecord(policy, p.Plan().Before(), b)
    {
      var c := BeforeMember(p.Changes(), b);
      PartOf(p, ip, c);
      PointingIsGood(policy, p.Plan().Before(), b, ip);
    }
  }

  lemma {:induction false} EdgeOfParts(p: Parts, ip: Json)
    requires Sorted(p, ip)
    ensures EdgeAddressed(p.Plan()) && Active(p.Plan(), Associations) == {}
    ensures EdgeAddressed(p.Plan().Before()) && Active(p.Plan().Before(), Associations) == {}
  {
    forall c | c in p.Changes()
      ensures (IsEdgeKind(c.kind) ==> IsEdgeAddress(c.address)) && c.kind != Associations
    {
      PartOf(p, ip, c);
    }
    forall b | b in BeforeAll(p.Changes())
      ensures (IsEdgeKind(b.kind) ==> IsEdgeAddress(b.address)) && b.kind != Associations
    {
      var c := BeforeMember(p.Changes(), b);
    }
  }

  // ------------------------------------------------------------- policy resources

  const PULLS := [Pulls(Net), Pulls(Com)]
  const SETTINGS := [AlwaysOnline(Net), AlwaysUseHttps(Net), Ssl(Net), AlwaysOnline(Com), AlwaysUseHttps(Com), Ssl(Com)]
  const RULESETS :=
    [CacheBypass(Net), CdnCgiBlock(Net), TransformDisable(Net),
     CacheBypass(Com), CdnCgiBlock(Com), TransformDisable(Com)]

  function StageAt(address: Address): Stage {
    if address.CacheBypass? then Cache else if address.TransformDisable? then Config else Custom
  }

  function RulesetAt(zone: Zone, stage: Stage): Address {
    match stage
    case Cache => CacheBypass(zone)
    case Config => TransformDisable(zone)
    case Custom => CdnCgiBlock(zone)
  }

  /** The reviewed rule of a zone and phase, as the provider shows it. */
  function RuleOf(spec: RuleSpec): Json {
    Object(map[Enabled := Bool(true), Action := spec.action, Expression := spec.expression,
               Parameters := Object(if spec.parameters.Some? then spec.parameters.value else map[])])
  }

  /** The reviewed contents of a policy resource. */
  function Contents(policy: Policy, variables: Attributes, kind: Kind, address: Address): Attributes
    requires IsEdgeAddress(address)
  {
    var zone, review := ZoneOf(variables, address), policy.review;
    if kind.OriginPulls? then map[Enabled := Bool(true), ZoneId := zone]
    else if kind.ZoneSettings? then
      map[SettingId := review.setting(address).0, Value := review.setting(address).1, ZoneId := zone]
    else
      map[RulesetKind := review.kind, RulesetPhase := review.phase(StageAt(address)), ZoneId := zone,
          Rules := List([RuleOf(review.rule(address.zone, StageAt(address)))])]
  }

  /** A policy resource that the plan keeps or deletes. */
  function Held(policy: Policy, variables: Attributes, kind: Kind, address: Address, keep: bool): Change
    requires IsEdgeAddress(address)
  {
    var contents := Contents(policy, variables, kind, address);
    if keep then Steady(kind, address, contents)
    else Change(kind, address, [Delete], Some(contents), None, map[], map[])
  }

  function Section(policy: Policy, variables: Attributes, kind: Kind, addresses: seq<Address>, keep: bool): seq<Change>
    requires forall a <- addresses :: IsEdgeAddress(a)
  {
    seq(|addresses|, i requires 0 <= i < |addresses| => Held(policy, variables, kind, addresses[i], keep))
  }

  function Policies(policy: Policy, variables: Attributes, keep: bool): seq<Change> {
    Section(policy, variables, OriginPulls, PULLS, keep) + Section(policy, variables, ZoneSettings, SETTINGS, keep)
    + Section(policy, variables, Rulesets, RULESETS, keep)
  }

  function Reviewed(kind: Kind): seq<Address> {
    if kind.OriginPulls? then PULLS else if kind.ZoneSettings? then SETTINGS else RULESETS
  }

  lemma {:induction false} SectionIsHeld(policy: Policy, variables: Attributes, kind: Kind, addresses: seq<Address>,
                                         keep: bool, c: Change)
    requires (forall a <- addresses :: IsEdgeAddress(a)) && c in Section(policy, variables, kind, addresses, keep)
    ensures c.kind == kind && c.address in addresses && c == Held(policy, variables, kind, c.address, keep)
  {
  }

  lemma {:induction false} PoliciesAreHeld(policy: Policy, variables: Attributes, c: Change, keep: bool)
    requires c in Policies(policy, variables, keep)
    ensures IsPolicy(c) && c.address in Reviewed(c.kind) && c == Held(policy, variables, c.kind, c.address, keep)
  {
    if c in Section(policy, variables, OriginPulls, PULLS, keep) {
      SectionIsHeld(policy, variables, OriginPulls, PULLS, keep, c);
    } else if c in Section(policy, variables, ZoneSettings, SETTINGS, keep) {
      SectionIsHeld(policy, variables, ZoneSettings, SETTINGS, keep, c);
    } else {
      SectionIsHeld(policy, variables, Rulesets, RULESETS, keep, c);
    }
  }

  lemma {:induction false} HeldIsPolicy(policy: Policy, variables: Attributes, kind: Kind, address: Address, keep: bool)
    requires IsPolicyKind(kind) && address in Reviewed(kind)
    ensures IsEdgeAddress(address) && Held(policy, variables, kind, address, keep) in Policies(policy, variables, keep)
  {
    var section := Section(policy, variables, kind, Reviewed(kind), keep);
    var i :| 0 <= i < |Reviewed(kind)| && Reviewed(kind)[i] == address;
    assert section[i] == Held(policy, variables, kind, address, keep);
    assert section[i] in section;
  }

  ghost predicate DistinctPhases(review: Review) {
    && review.phase(Cache) != review.phase(Config)
    && review.phase(Config) != review.phase(Custom)
    && review.phase(Cache) != review.phase(Custom)
  }

  lemma {:induction false} RuleFollows(spec: RuleSpec)
    ensures Follows(RuleOf(spec), spec) && Member(RuleOf(spec), Enabled) == Bool(true)
  {
  }

  lemma {:induction false} StageOfPhase(review: Review, stage: Stage)
    requires DistinctPhases(review)
    ensures StageOf(review, review.phase(stage)) == Some(stage) && review.phase(stage) in ReviewedPhases(review)
  {
    match stage
    case Cache =>
    case Config =>
    case Custom =>
  }

  /** The reviewed contents pass the content check. */
  lemma {:induction false} ContentsPass(policy: Policy, plan: Plan, c: Change)
    requires DistinctPhases(policy.review) && IsPolicyKind(c.kind) && c.address in Reviewed(c.kind)
    requires IsEdgeAddress(c.address)
    requires c.after == Some(Contents(policy, plan.variables, c.kind, c.address))
    ensures c.Active() && ContentGood(policy, plan, c)
  {
    assert ZoneId in c.After() && InReviewedZone(plan, c);
    if c.kind.Rulesets? {
      var stage := StageAt(c.address);
      var rule := RuleOf(policy.review.rule(c.address.zone, stage));
      StageOfPhase(policy.review, stage);
      RuleFollows(policy.review.rule(c.address.zone, stage));
      assert Elements(Get(c.After(), Rules)) == [rule];
    }
  }

  lemma {:induction false} SectionBefore(policy: Policy, p: Parts, ip: Json, kind: Kind, keep: bool)
    requires Sorted(p, ip) && p.policies == Policies(policy, p.variables, keep) && IsPolicyKind(kind)
    requires DistinctPhases(policy.review)
    ensures Exactly(p.Plan().Before(), kind, set a | a in Reviewed(kind))
  {
    forall a | a in Reviewed(kind)
      ensures IsActive(p.Plan().Before(), kind, a)
    {
      HeldIsPolicy(policy, p.variables, kind, a, keep);
      var c := Held(policy, p.variables, kind, a, keep);
      assert c in p.Changes();
      MemberBefore(p.Changes(), c);
      ContentsPass(policy, p.Plan().Before(), c.Before());
    }
    forall b | b in BeforeAll(p.Changes()) && b.kind == kind
      ensures b.address in Reviewed(kind)
    {
      var c := BeforeMember(p.Changes(), b);
      PartOf(p, ip, c);
      PoliciesAreHeld(policy, p.variables, c, keep);
    }
  }

  lemma {:induction false} SectionAfter(policy: Policy, p: Parts, ip: Json, kind: Kind, keep: bool)
    requires Sorted(p, ip) && p.policies == Policies(policy, p.variables, keep) && IsPolicyKind(kind)
    requires DistinctPhases(policy.review)
    ensures keep ==> Exactly(p.Plan(), kind, set a | a in Reviewed(kind))
    ensures !keep ==> Active(p.Plan(), kind) == {}
  {
    forall c | c in p.Changes() && c.kind == kind && c.Active()
      ensures c.address in Reviewed(kind) && keep
    {
      PartOf(p, ip, c);
      PoliciesAreHeld(policy, p.variables, c, keep);
    }
    if keep {
      forall a | a in Reviewed(kind)
        ensures IsActive(p.Plan(), kind, a)
      {
        HeldIsPolicy(policy, p.variables, kind, a, keep);
        var c := Held(policy, p.variables, kind, a, keep);
        assert c in p.Changes();
        ContentsPass(policy, p.Plan(), c);
      }
    }
  }

  lemma {:induction false} ReviewedAddresses()
    ensures (set a | a in Reviewed(OriginPulls)) == PULL_ADDRESSES
    ensures (set a | a in Reviewed(ZoneSettings)) == SETTING_ADDRESSES
    ensures (set a | a in Reviewed(Rulesets)) == RULESET_ADDRESSES
  {
  }

  /** A ruleset of the given zone, with the phase of its address. */
  ghost predicate ShowsPhase(policy: Policy, c: Change, zone: Zone) {
    && c.kind == Rulesets && c.Active() && IsEdgeAddress(c.address) && c.address.zone == zone
    && Get(c.After(), RulesetPhase) == policy.review.phase(StageAt(c.address))
  }

  ghost predicate SomeShows(policy: Policy, changes: seq<Change>, zone: Zone, stage: Stage) {
    exists c <- changes :: ShowsPhase(policy, c, zone) && StageAt(c.address) == stage
  }

  lemma {:induction false} PhasesShown(policy: Policy, changes: seq<Change>, zone: Zone)
    requires forall c <- changes ::
               c.kind == Rulesets && c.Active() && IsEdgeAddress(c.address) && c.address.zone == zone ==>
                 ShowsPhase(policy, c, zone)
    requires forall stage: Stage :: SomeShows(policy, changes, zone, stage)
    ensures PhasesOf(changes, zone) == ReviewedPhases(policy.review)
  {
    forall v | v in PhasesOf(changes, zone)
      ensures v in ReviewedPhases(policy.review)
    {
      var c :| c in changes && c.kind == Rulesets && c.Active() && IsEdgeAddress(c.address) && c.address.zone == zone
               && v == Get(c.After(), RulesetPhase);
      assert ShowsPhase(policy, c, zone);
      var stage := StageAt(c.address);
    }
    forall stage: Stage
      ensures policy.review.phase(stage) in PhasesOf(changes, zone)
    {
      assert SomeShows(policy, changes, zone, stage);
      var c :| c in changes && ShowsPhase(policy, c, zone) && StageAt(c.address) == stage;
    }
  }

  lemma {:induction false} HeldShowsPhase(policy: Policy, variables: Attributes, c: Change)
    requires c.kind == Rulesets && c.address in RULESETS && IsEdgeAddress(c.address)
    requires c.after == Some(Contents(policy, variables, Rulesets, c.address))
    ensures ShowsPhase(policy, c, c.address.zone)
  {
    assert RulesetPhase in c.After();
  }

  lemma {:induction false} RulesetIsReviewed(zone: Zone, stage: Stage)
    ensures var a := RulesetAt(zone, stage); a in RULESETS && StageAt(a) == stage && IsEdgeAddress(a) && a.zone == zone
  {
    match (zone, stage)
    case (Net, Cache) => assert RULESETS[0] == RulesetAt(zone, stage);
    case (Net, Custom) => assert RULESETS[1] == RulesetAt(zone, stage);
    case (Net, Config) => assert RULESETS[2] == RulesetAt(zone, stage);
    case (Com, Cache) => assert RULESETS[3] == RulesetAt(zone, stage);
    case (Com, Custom) => assert RULESETS[4] == RulesetAt(zone, stage);
    case (Com, Config) => assert RULESETS[5] == RulesetAt(zone, stage);
  }

  lemma {:induction false} PhasesBefore(policy: Policy, p: Parts, ip: Json, keep: bool, zone: Zone)
    requires Sorted(p, ip) && p.policies == Policies(policy, p.variables, keep)
    ensures PhasesOf(p.Plan().Before().changes, zone) == ReviewedPhases(policy.review)
  {
    var changes, before := p.Changes(), BeforeAll(p.Changes());
    forall b | b in before && b.kind == Rulesets && IsEdgeAddress(b.address) && b.address.zone == zone
      ensures ShowsPhase(policy, b, zone)
    {
      var c := BeforeMember(changes, b);
      PartOf(p, ip, c);
      PoliciesAreHeld(policy, p.variables, c, keep);
      HeldShowsPhase(policy, p.variables, b);
    }
    forall stage: Stage
      ensures SomeShows(policy, before, zone, stage)
    {
      var a := RulesetAt(zone, stage);
      RulesetIsReviewed(zone, stage);
      HeldIsPolicy(policy, p.variables, Rulesets, a, keep);
      var c := Held(policy, p.variables, Rulesets, a, keep);
      assert c in changes;
      MemberBefore(changes, c);
      HeldShowsPhase(policy, p.variables, c.Before());
    }
    PhasesShown(policy, before, zone);
  }

  lemma {:induction false} PhasesAfter(policy: Policy, p: Parts, ip: Json, zone: Zone)
    requires Sorted(p, ip) && p.policies == Policies(policy, p.variables, true)
    ensures PhasesOf(p.Plan().changes, zone) == ReviewedPhases(policy.review)
  {
    var changes := p.Changes();
    forall c | c in changes && c.kind == Rulesets && IsEdgeAddress(c.address) && c.address.zone == zone
      ensures ShowsPhase(policy, c, zone)
    {
      PartOf(p, ip, c);
      PoliciesAreHeld(policy, p.variables, c, true);
      HeldShowsPhase(policy, p.variables, c);
    }
    forall stage: Stage
      ensures SomeShows(policy, changes, zone, stage)
    {
      var a := RulesetAt(zone, stage);
      RulesetIsReviewed(zone, stage);
      HeldIsPolicy(policy, p.variables, Rulesets, a, true);
      var c := Held(policy, p.variables, Rulesets, a, true);
      assert c in changes;
      HeldShowsPhase(policy, p.variables, c);
    }
    PhasesShown(policy, changes, zone);
  }

  lemma {:induction false} ContentsBefore(policy: Policy, p: Parts, ip: Json, keep: bool)
    requires Sorted(p, ip) && p.policies == Policies(policy, p.variables, keep) && DistinctPhases(policy.review)
    ensures ContentsGood(policy, p.Plan().Before())
  {
    forall b | b in BeforeAll(p.Changes()) && b.Active()
      ensures ContentGood(policy, p.Plan().Before(), b)
    {
      if IsPolicyKind(b.kind) {
        var c := BeforeMember(p.Changes(), b);
        PartOf(p, ip, c);
        PoliciesAreHeld(policy, p.variables, c, keep);
        ContentsPass(policy, p.Plan().Before(), b);
      }
    }
  }

  lemma {:induction false} ContentsAfter(policy: Policy, p: Parts, ip: Json)
    requires Sorted(p, ip) && p.policies == Policies(policy, p.variables, true) && DistinctPhases(policy.review)
    ensures ContentsGood(policy, p.Plan())
  {
    forall c | c in p.Changes() && c.Active()
      ensures ContentGood(policy, p.Plan(), c)
    {
      if IsPolicyKind(c.kind) {
        PartOf(p, ip, c);
        PoliciesAreHeld(policy, p.variables, c, true);
        ContentsPass(policy, p.Plan(), c);
      }
    }
  }

  lemma {:induction false} ExactlyBefore(policy: Policy, p: Parts, ip: Json, keep: bool)
    requires Sorted(p, ip) && p.policies == Policies(policy, p.variables, keep) && DistinctPhases(policy.review)
    ensures var plan := p.Plan().Before();
            && Exactly(plan, OriginPulls, PULL_ADDRESSES) && Exactly(plan, ZoneSettings, SETTING_ADDRESSES)
            && Exactly(plan, Rulesets, RULESET_ADDRESSES)
  {
    SectionBefore(policy, p, ip, OriginPulls, keep);
    SectionBefore(policy, p, ip, ZoneSettings, keep);
    SectionBefore(policy, p, ip, Rulesets, keep);
    ReviewedAddresses();
  }

  lemma {:induction false} ExactlyAfter(policy: Policy, p: Parts, ip: Json)
    requires Sorted(p, ip) && p.policies == Policies(policy, p.variables, true) && DistinctPhases(policy.review)
    ensures var plan := p.Plan();
            && Exactly(plan, OriginPulls, PULL_ADDRESSES) && Exactly(plan, ZoneSettings, SETTING_ADDRESSES)
            && Exactly(plan, Rulesets, RULESET_ADDRESSES)
  {
    SectionAfter(policy, p, ip, OriginPulls, true);
    SectionAfter(policy, p, ip, ZoneSettings, true);
    SectionAfter(policy, p, ip, Rulesets, true);
    ReviewedAddresses();
  }

  /** Policy resources with their reviewed contents pass the whole check of an edge policy. */
  lemma {:induction false} PolicyBefore(policy: Policy, p: Parts, ip: Json, keep: bool)
    requires Sorted(p, ip) && p.policies == Policies(policy, p.variables, keep) && DistinctPhases(policy.review)
    ensures PolicyPresent(policy, p.Plan().Before())
  {
    ExactlyBefore(policy, p, ip, keep);
    ContentsBefore(policy, p, ip, keep);
    PhasesBefore(policy, p, ip, keep, Net);
    PhasesBefore(policy, p, ip, keep, Com);
  }

  lemma {:induction false} PolicyAfter(policy: Policy, p: Parts, ip: Json)
    requires Sorted(p, ip) && p.policies == Policies(policy, p.variables, true) && DistinctPhases(policy.review)
    ensures PolicyPresent(policy, p.Plan())
  {
    ExactlyAfter(policy, p, ip);
    ContentsAfter(policy, p, ip);
    PhasesAfter(policy, p, ip, Net);
    PhasesAfter(policy, p, ip, Com);
  }

  lemma {:induction false} PolicyDeleted(policy: Policy, p: Parts, ip: Json)
    requires Sorted(p, ip) && p.policies == Policies(policy, p.variables, false) && DistinctPhases(policy.review)
    ensures PolicyAbsent(p.Plan())
  {
    SectionAfter(policy, p, ip, OriginPulls, false);
    SectionAfter(policy, p, ip, ZoneSettings, false);
    SectionAfter(policy, p, ip, Rulesets, false);
  }

  lemma {:induction false} PolicyNone(p: Parts, ip: Json)
    requires Sorted(p, ip) && p.policies == []
    ensures PolicyAbsent(p.Plan()) && PolicyAbsent(p.Plan().Before())
  {
    forall c | c in p.Changes()
      ensures !IsPolicyKind(c.kind)
    {
      PartOf(p, ip, c);
    }
    forall b | b in BeforeAll(p.Changes())
      ensures !IsPolicyKind(b.kind)
    {
      var c := BeforeMember(p.Changes(), b);
    }
  }

  // --------------------------------------------------------------------- DNS records

  /** The names of the four records, the reserved address and the plan variables. */
  datatype Site = Site(apex: Json, wildcard: Json, comApex: Json, comWildcard: Json, ip: Json, variables: Attributes)

  datatype Spot = Spot(address: Address, name: Json)

  function NetSpots(n: Site): seq<Spot> { [Spot(Apex(Net), n.apex), Spot(Wildcard(Net), n.wildcard)] }

  function Spots(n: Site): seq<Spot> { NetSpots(n) + [Spot(Apex(Com), n.comApex), Spot(Wildcard(Com), n.comWildcard)] }

  ghost predicate OnEdge(spots: seq<Spot>) { forall spot <- spots :: IsEdgeAddress(spot.address) }

  function DnsRecord(policy: Policy, n: Site, spot: Spot, proxied: bool): Attributes {
    map[Name := spot.name, Proxy := Bool(proxied), Ttl := if proxied then PROXIED_TTL else DIRECT_TTL,
        RecordType := Text("A"),
        Comment := policy.comment, ZoneId := ZoneOf(n.variables, spot.address), Content := n.ip]
  }

  function FactAt(spot: Spot, proxied: bool): Fact {
    Fact(spot.address, spot.name, Bool(proxied), if proxied then PROXIED_TTL else DIRECT_TTL)
  }

  function FactsAt(spots: seq<Spot>, proxied: bool): set<Fact> { set spot | spot in spots :: FactAt(spot, proxied) }

  /** A record that the plan leaves alone. */
  function KeptRecord(policy: Policy, n: Site, spot: Spot, proxied: bool): Change {
    Steady(DnsRecords, spot.address, DnsRecord(policy, n, spot, proxied))
  }

  /** A proxied record on the way back: unproxied in the first zone, deleted in the second. */
  function UndoneRecord(policy: Policy, n: Site, spot: Spot): Change {
    var before := Some(DnsRecord(policy, n, spot, true));
    if IsEdgeAddress(spot.address) && spot.address.zone.Net? then
      Change(DnsRecords, spot.address, [Update], before, Some(DnsRecord(policy, n, spot, false)), map[], map[])
    else Change(DnsRecords, spot.address, [Delete], before, None, map[], map[])
  }

  function KeptRecords(policy: Policy, n: Site, spots: seq<Spot>, proxied: bool): seq<Change> {
    seq(|spots|, i requires 0 <= i < |spots| => KeptRecord(policy, n, spots[i], proxied))
  }

  function UndoneRecords(policy: Policy, n: Site, spots: seq<Spot>): seq<Change> {
    seq(|spots|, i requires 0 <= i < |spots| => UndoneRecord(policy, n, spots[i]))
  }

  lemma {:induction false} RecordPoints(policy: Policy, n: Site, spot: Spot, proxied: bool, c: Change)
    requires c.address == spot.address && c.after == Some(DnsRecord(policy, n, spot, proxied))
    requires c.afterUnknown == map[]
    ensures Pointing(policy, n.variables, c, n.ip) && c.Active() && FactOf(c) == FactAt(spot, proxied)
  {
    assert Name in c.After();
  }

  lemma {:induction false} KeptRecordsAre(policy: Policy, n: Site, spots: seq<Spot>, proxied: bool)
    requires OnEdge(spots)
    ensures var records := KeptRecords(policy, n, spots, proxied);
            && BeforeAll(records) == records && Facts(records) == FactsAt(spots, proxied)
            && (forall c <- records ::
                 c.kind == DnsRecords && IsEdgeAddress(c.address) && !c.Mutates() && c.Before() == c)
            && (forall c <- records :: Pointing(policy, n.variables, c, n.ip))
  {
    var records := KeptRecords(policy, n, spots, proxied);
    forall i | 0 <= i < |spots|
      ensures records[i].Active() && FactOf(records[i]) == FactAt(spots[i], proxied)
      ensures Pointing(policy, n.variables, records[i], n.ip) && records[i].Before() == records[i]
    {
      RecordPoints(policy, n, spots[i], proxied, records[i]);
    }
    assert BeforeAll(records) == records;
    FactsByIndex(records, spots, proxied);
  }

  /** Records that show the facts of their spots, one by one. */
  lemma {:induction false} FactsByIndex(records: seq<Change>, spots: seq<Spot>, proxied: bool)
    requires |records| == |spots|
    requires forall i :: 0 <= i < |spots| ==>
              records[i].kind == DnsRecords && records[i].Active() && FactOf(records[i]) == FactAt(spots[i], proxied)
    ensures Facts(records) == FactsAt(spots, proxied)
  {
    forall f | f in FactsAt(spots, proxied)
      ensures f in Facts(records)
    {
      var spot :| spot in spots && f == FactAt(spot, proxied);
      var i :| 0 <= i < |spots| && spots[i] == spot;
      assert records[i] in records;
    }
    forall f | f in Facts(records)
      ensures f in FactsAt(spots, proxied)
    {
      var c :| c in records && c.kind == DnsRecords && c.Active() && f == FactOf(c);
      var i :| 0 <= i < |records| && records[i] == c;
      assert spots[i] in spots;
    }
  }

  lemma {:induction false} UndoneRecordsBefore(policy: Policy, n: Site, spots: seq<Spot>)
    ensures Facts(BeforeAll(UndoneRecords(policy, n, spots))) == FactsAt(spots, true)
    ensures forall c <- UndoneRecords(policy, n, spots) :: Pointing(policy, n.variables, c.Before(), n.ip)
  {
    var records := UndoneRecords(policy, n, spots);
    forall i | 0 <= i < |spots|
      ensures records[i].Before().Active() && FactOf(records[i].Before()) == FactAt(spots[i], true)
      ensures Pointing(policy, n.variables, records[i].Before(), n.ip)
    {
      RecordPoints(policy, n, spots[i], true, records[i].Before());
    }
    FactsByIndex(BeforeAll(records), spots, true);
  }

  lemma {:induction false} UndoneRecordsAfter(policy: Policy, n: Site, net: seq<Spot>, com: seq<Spot>)
    requires OnEdge(net) && OnEdge(com) && (forall spot <- net :: spot.address.zone.Net?)
    requires (forall spot <- com :: spot.address.zone.Com?)
    ensures var records := UndoneRecords(policy, n, net + com);
            && Facts(records) == FactsAt(net, false)
            && (forall c <- records :: c.kind == DnsRecords && IsEdgeAddress(c.address) && IsEdgeChange(c))
            && (forall c <- records :: Pointing(policy, n.variables, c, n.ip))
  {
    var records, first, rest :=
      UndoneRecords(policy, n, net + com), UndoneRecords(policy, n, net), UndoneRecords(policy, n, com);
    assert records == first + rest;
    forall i | 0 <= i < |net|
      ensures first[i].Active() && FactOf(first[i]) == FactAt(net[i], false) && IsEdgeChange(first[i])
      ensures Pointing(policy, n.variables, first[i], n.ip)
    {
      assert net[i] in net;
      RecordPoints(policy, n, net[i], false, first[i]);
    }
    forall i | 0 <= i < |com|
      ensures !rest[i].Active() && IsEdgeChange(rest[i])
    {
      assert com[i] in com;
    }
    FactsByIndex(first, net, false);
    forall c | c in records && c.Active()
      ensures c in first
    {
    }
    assert forall c <- first :: c in records;
  }

  lemma {:induction false} DirectFacts(policy: Policy, n: Site)
    requires policy.directNames == {n.apex, n.wildcard}
    ensures DnsMode(policy, FactsAt(NetSpots(n), false)) == Some(Direct)
  {
    var spots := NetSpots(n);
    assert spots[0] in spots && spots[1] in spots;
    assert FactsAt(spots, false) == {FactAt(spots[0], false), FactAt(spots[1], false)};
    TwoFacts(policy, n.apex, n.wildcard, FactsAt(spots, false));
  }

  lemma {:induction false} TwoFacts(policy: Policy, apex: Json, wildcard: Json, facts: set<Fact>)
    requires policy.directNames == {apex, wildcard}
    requires facts ==
              {Fact(Apex(Net), apex, Bool(false), DIRECT_TTL), Fact(Wildcard(Net), wildcard, Bool(false), DIRECT_TTL)}
    ensures DnsMode(policy, facts) == Some(Direct)
  {
    assert Fact(Apex(Net), apex, Bool(false), DIRECT_TTL) in facts;
    assert Fact(Wildcard(Net), wildcard, Bool(false), DIRECT_TTL) in facts;
    assert Names(facts) == policy.directNames;
    assert Homes(facts) == DIRECT_ADDRESSES;
    assert Proxies(facts) == {Bool(false)};
    assert Ttls(facts) == {DIRECT_TTL};
  }

  function ProxiedFact(address: Address, name: Json): Fact { Fact(address, name, Bool(true), PROXIED_TTL) }

  function FourFacts(n: Site): set<Fact> {
    {ProxiedFact(Apex(Net), n.apex), ProxiedFact(Wildcard(Net), n.wildcard),
     ProxiedFact(Apex(Com), n.comApex), ProxiedFact(Wildcard(Com), n.comWildcard)}
  }

  lemma {:induction false} ProxiedFacts(policy: Policy, n: Site)
    requires policy.proxiedNames == {n.apex, n.wildcard, n.comApex, n.comWildcard}
    requires policy.directNames < policy.proxiedNames
    ensures DnsMode(policy, FourFacts(n)) == Some(Proxied)
  {
    var facts := FourFacts(n);
    assert ProxiedFact(Apex(Net), n.apex) in facts && ProxiedFact(Wildcard(Net), n.wildcard) in facts
           && ProxiedFact(Apex(Com), n.comApex) in facts && ProxiedFact(Wildcard(Com), n.comWildcard) in facts;
    assert Names(facts) == policy.proxiedNames;
    assert Homes(facts) == PROXIED_ADDRESSES;
    assert Proxies(facts) == {Bool(true)};
    assert Ttls(facts) == {PROXIED_TTL};
  }

  lemma {:induction false} ProxiedSpots(policy: Policy, n: Site)
    requires policy.proxiedNames == {n.apex, n.wildcard, n.comApex, n.comWildcard}
    requires policy.directNames < policy.proxiedNames
    ensures DnsMode(policy, FactsAt(Spots(n), true)) == Some(Proxied)
  {
    var spots := Spots(n);
    assert spots[0] in spots && spots[1] in spots && spots[2] in spots && spots[3] in spots;
    assert FactsAt(spots, true) == FourFacts(n);
    ProxiedFacts(policy, n);
  }

  // ------------------------------------------------------------------------ ingress

  function RuleFor(port: string, sources: seq<Json>): Json {
    Object(map[Protocol := Text("tcp"), PortRange := Text(port), SourceAddresses := List(sources)])
  }

  /** SSH from one address, and the given web sources. */
  function Inbound(ssh: Json, web: seq<Json>): Json {
    List([RuleFor("22", [ssh]), RuleFor("80", web), RuleFor("443", web)])
  }

  lemma {:induction false} ParsedRule(port: string, sources: seq<Json>)
    ensures port == "22" ==> Parse(RuleFor(port, sources)) == Tcp(Port.Ssh, AsSet(sources))
    ensures port == "80" ==> Parse(RuleFor(port, sources)) == Tcp(Http, AsSet(sources))
    ensures port == "443" ==> Parse(RuleFor(port, sources)) == Tcp(Https, AsSet(sources))
  {
  }

  lemma {:induction false} ThreeRules(policy: Policy, ssh: set<Json>, web: set<Json>, historical: bool)
    requires ssh != {} && ssh !! policy.world
    ensures Ingress(policy, [Tcp(Port.Ssh, ssh), Tcp(Http, web), Tcp(Https, web)], historical) ==
              Classify(policy, web, historical)
  {
    var rules := [Tcp(Port.Ssh, ssh), Tcp(Http, web), Tcp(Https, web)];
    assert rules[..0] == [];
    OnNext(rules, 0, Port.Ssh); OnNext(rules, 1, Port.Ssh); OnNext(rules, 2, Port.Ssh);
    OnNext(rules, 0, Http); OnNext(rules, 1, Http); OnNext(rules, 2, Http);
    OnNext(rules, 0, Https); OnNext(rules, 1, Https); OnNext(rules, 2, Https);
    assert rules[..3] == rules;
  }

  lemma {:induction false} InboundMode(policy: Policy, firewall: Change, ssh: Json, web: seq<Json>, historical: bool)
    requires Get(firewall.After(), InboundRule) == Inbound(ssh, web) && ssh !in policy.world
    ensures Ingress(policy, InboundRules(firewall), historical) == Classify(policy, AsSet(web), historical)
  {
    ParsedRule("22", [ssh]);
    ParsedRule("80", web);
    ParsedRule("443", web);
    assert AsSet([ssh]) == {ssh};
    var sources := AsSet(web);
    assert InboundRules(firewall) == [Tcp(Port.Ssh, {ssh}), Tcp(Http, sources), Tcp(Https, sources)];
    ThreeRules(policy, {ssh}, sources, historical);
  }

  lemma {:induction false} InboundDiffers(ssh: Json, a: seq<Json>, b: seq<Json>)
    requires a != b
    ensures Inbound(ssh, a) != Inbound(ssh, b)
  {
    assert Elements(Inbound(ssh, a))[1] == RuleFor("80", a) && Elements(Inbound(ssh, b))[1] == RuleFor("80", b);
    assert Member(RuleFor("80", a), SourceAddresses) == List(a) && Member(RuleFor("80", b), SourceAddresses) == List(b);
  }

  lemma {:induction false} PhaseFrom(policy: Policy, plan: Plan, historical: bool, dns: Phase, mode: Mode)
    requires DnsMode(policy, Facts(plan.changes)) == Some(dns) && FirewallMode(policy, plan, historical) == Some(mode)
    requires DnsClean(policy, plan) && EdgeClean(policy, plan, dns)
    ensures PhaseOf(policy, plan, historical) == Combined(Some(mode), Some(dns), true)
  {
  }

  lemma {:induction false} EnforcedFrom(policy: Policy, plan: Plan, historical: bool, dns: Phase, mode: Mode)
    requires dns.Proxied? && mode.Restricted?
    requires DnsMode(policy, Facts(plan.changes)) == Some(dns) && FirewallMode(policy, plan, historical) == Some(mode)
    requires DnsClean(policy, plan) && EdgeClean(policy, plan, dns)
    ensures PhaseOf(policy, plan, historical) == Some(Enforced)
  {
    PhaseFrom(policy, plan, historical, dns, mode);
  }

  lemma {:induction false} DirectFrom(policy: Policy, plan: Plan, historical: bool, mode: Mode)
    requires DnsMode(policy, Facts(plan.changes)) == Some(Direct)
    requires FirewallMode(policy, plan, historical) == Some(mode)
    requires DnsClean(policy, plan) && EdgeClean(policy, plan, Direct)
    ensures PhaseOf(policy, plan, historical) == Some(Direct)
  {
    PhaseFrom(policy, plan, historical, Direct, mode);
  }

  /** Firewall and DNS of a plan by its parts. */
  lemma {:induction false} ModesOfParts(policy: Policy, p: Parts, ip: Json, historical: bool)
    requires Sorted(p, ip)
    ensures FirewallMode(policy, p.Plan(), historical) == Ingress(policy, InboundRules(p.firewall), historical)
    ensures FirewallMode(policy, p.Plan().Before(), historical) ==
              Ingress(policy, InboundRules(p.firewall.Before()), historical)
    ensures Facts(p.Plan().changes) == Facts(p.records)
    ensures Facts(p.Plan().Before().changes) == Facts(BeforeAll(p.records))
  {
    OneFirewall(p, ip);
    FactsOfParts(p, ip);
  }

  /** What the parts say about the plan before its edge resources are looked at. */
  lemma {:induction false} ReadyParts(policy: Policy, p: Parts, ip: Json, historical: bool, dns: Phase, mode: Mode)
    requires Sorted(p, ip) && AllPoint(policy, p, ip)
    requires DnsMode(policy, Facts(p.records)) == Some(dns)
    requires Ingress(policy, InboundRules(p.firewall), historical) == Some(mode)
    ensures DnsMode(policy, Facts(p.Plan().changes)) == Some(dns)
    ensures FirewallMode(policy, p.Plan(), historical) == Some(mode)
    ensures DnsClean(policy, p.Plan())
  {
    ModesOfParts(policy, p, ip, historical);
    RecordsOfParts(policy, p, ip);
  }

  lemma {:induction false} ReadyPartsBefore(policy: Policy, p: Parts, ip: Json, historical: bool, dns: Phase,
                                            mode: Mode)
    requires Sorted(p, ip) && AllPointBefore(policy, p, ip)
    requires DnsMode(policy, Facts(BeforeAll(p.records))) == Some(dns)
    requires Ingress(policy, InboundRules(p.firewall.Before()), historical) == Some(mode)
    ensures DnsMode(policy, Facts(p.Plan().Before().changes)) == Some(dns)
    ensures FirewallMode(policy, p.Plan().Before(), historical) == Some(mode)
    ensures DnsClean(policy, p.Plan().Before())
  {
    ModesOfParts(policy, p, ip, historical);
    RecordsOfPartsBefore(policy, p, ip);
  }

  lemma {:induction false} EdgeWithPolicyBefore(policy: Policy, p: Parts, ip: Json, keep: bool)
    requires Sorted(p, ip) && p.policies == Policies(policy, p.variables, keep) && DistinctPhases(policy.review)
    ensures EdgeClean(policy, p.Plan().Before(), Proxied)
  {
    EdgeOfParts(p, ip);
    PolicyBefore(policy, p, ip, keep);
  }

  lemma {:induction false} EdgeWithPolicy(policy: Policy, p: Parts, ip: Json)
    requires Sorted(p, ip) && p.policies == Policies(policy, p.variables, true) && DistinctPhases(policy.review)
    ensures EdgeClean(policy, p.Plan(), Proxied)
  {
    EdgeOfParts(p, ip);
    PolicyAfter(policy, p, ip);
  }

  lemma {:induction false} EdgeWithoutPolicy(policy: Policy, p: Parts, ip: Json)
    requires Sorted(p, ip) && (p.policies == Policies(policy, p.variables, false) || p.policies == [])
    requires DistinctPhases(policy.review)
    ensures EdgeClean(policy, p.Plan(), Direct)
    ensures p.policies == [] ==> EdgeClean(policy, p.Plan().Before(), Direct)
  {
    EdgeOfParts(p, ip);
    if p.policies == [] {
      PolicyNone(p, ip);
    } else {
      PolicyDeleted(policy, p, ip);
    }
  }

  /** Only the firewall is mutated. */
  ghost predicate OnlyFirewall(p: Parts) {
    && p.firewall.Mutates()
    && (forall c <- p.records :: !c.Mutates() && c.Before() == c)
    && (forall c <- p.policies :: !c.Mutates() && c.Before() == c)
  }

  lemma {:induction false} OnlyFirewallMutates(p: Parts, ip: Json)
    requires Sorted(p, ip) && OnlyFirewall(p)
    ensures Faithful(p.Plan()) && !Initial(p.Plan()) && p.firewall in p.Changes()
    ensures forall c <- p.Changes() :: c != p.firewall ==> !c.Mutates()
  {
    AddressOfParts(p, ip);
    forall c | c in p.Changes()
      ensures c != p.firewall ==> !c.Mutates() && c.Before() == c
    {
      PartOf(p, ip, c);
      assert c in p.others ==> Bystander(c, ip);
    }
  }

  lemma {:induction false} UnrequestedParts(policy: Policy, p: Parts, ip: Json)
    requires Sorted(p, ip) && OnlyFirewall(p) && PhaseOf(policy, p.Plan(), false).Some?
    requires p.firewall.ChangedFields().Some? && InboundRule in p.firewall.ChangedFields().value
    ensures Accepts(policy, p.Plan(), None) <==> p.firewall.ChangedFields() != Some({InboundRule})
  {
    OnlyFirewallMutates(p, ip);
    UnrequestedIngressChange(policy, p.Plan(), p.firewall);
  }

  /** An update of the web sources, and of the tags if `retag`. */
  function Reopened(ssh: Json, from: seq<Json>, to: seq<Json>, retag: bool): Change {
    Change(Firewalls, Firewall, [Update],
           Some(map[InboundRule := Inbound(ssh, from), Other("tags") := Null]),
           Some(map[InboundRule := Inbound(ssh, to), Other("tags") := if retag then List([]) else Null]), map[], map[])
  }

  lemma {:induction false} ReopenedFields(ssh: Json, from: seq<Json>, to: seq<Json>, retag: bool)
    requires from != to
    ensures Reopened(ssh, from, to, retag).ChangedFields() ==
              Some({InboundRule} + if retag then {Other("tags")} else {})
  {
    InboundDiffers(ssh, from, to);
    var c := Reopened(ssh, from, to, retag);
    var changed := {InboundRule} + if retag then {Other("tags")} else {};
    forall field
      ensures field in changed <==>
              field in c.before.value.Keys + c.after.value.Keys + c.afterUnknown.Keys
              && (|| Get(c.before.value, field) != Get(c.after.value, field)
                  || ContainsUnknown(Get(c.afterUnknown, field)))
    {
    }
    assert c.ChangedFields().value == changed;
  }

  lemma {:induction false} ReopenedModes(policy: Policy, ssh: Json, from: seq<Json>, to: seq<Json>, retag: bool,
                                         historical: bool)
    requires ssh !in policy.world
    ensures Ingress(policy, InboundRules(Reopened(ssh, from, to, retag)), historical) ==
              Classify(policy, AsSet(to), historical)
    ensures Ingress(policy, InboundRules(Reopened(ssh, from, to, retag).Before()), historical) ==
              Classify(policy, AsSet(from), historical)
  {
    InboundMode(policy, Reopened(ssh, from, to, retag), ssh, to, historical);
    InboundMode(policy, Reopened(ssh, from, to, retag).Before(), ssh, from, historical);
  }

  // ------------------------------------------------ an unrequested change of ingress

  /** A direct edge behind restricted ingress that one update opens to the world and retags. */
  function Opening(policy: Policy, n: Site, others: seq<Change>, ssh: Json, networks: seq<Json>,
                   world: seq<Json>): Parts {
    Parts(Reopened(ssh, networks, world, true), KeptRecords(policy, n, NetSpots(n), false), [], others, n.variables)
  }

  lemma {:induction false} OpeningIsSorted(policy: Policy, n: Site, others: seq<Change>, ssh: Json, networks: seq<Json>,
                                           world: seq<Json>)
    requires Bystanders(others, n.ip)
    ensures var p := Opening(policy, n, others, ssh, networks, world);
            && Sorted(p, n.ip) && OnlyFirewall(p) && BeforeAll(p.records) == p.records
            && Facts(p.records) == FactsAt(NetSpots(n), false)
            && forall c <- p.records :: Pointing(policy, p.variables, c, n.ip)
  {
    KeptRecordsAre(policy, n, NetSpots(n), false);
  }

  /** Direct records without policy resources are the direct phase, whatever the ingress. */
  lemma {:induction false} DirectParts(policy: Policy, p: Parts, ip: Json, mode: Mode)
    requires Sorted(p, ip) && (p.policies == Policies(policy, p.variables, false) || p.policies == [])
    requires DistinctPhases(policy.review)
    requires DnsMode(policy, Facts(p.records)) == Some(Direct) && AllPoint(policy, p, ip)
    requires Ingress(policy, InboundRules(p.firewall), false) == Some(mode)
    ensures PhaseOf(policy, p.Plan(), false) == Some(Direct) && FirewallMode(policy, p.Plan(), false) == Some(mode)
  {
    ReadyParts(policy, p, ip, false, Direct, mode);
    EdgeWithoutPolicy(policy, p, ip);
    DirectFrom(policy, p.Plan(), false, mode);
  }

  lemma {:induction false} DirectPartsBefore(policy: Policy, p: Parts, ip: Json, mode: Mode)
    requires Sorted(p, ip) && p.policies == [] && DistinctPhases(policy.review)
    requires DnsMode(policy, Facts(BeforeAll(p.records))) == Some(Direct) && AllPointBefore(policy, p, ip)
    requires Ingress(policy, InboundRules(p.firewall.Before()), false) == Some(mode)
    ensures PhaseOf(policy, p.Plan().Before(), false) == Some(Direct)
    ensures FirewallMode(policy, p.Plan().Before(), false) == Some(mode)
  {
    ReadyPartsBefore(policy, p, ip, false, Direct, mode);
    EdgeWithoutPolicy(policy, p, ip);
    DirectFrom(policy, p.Plan().Before(), false, mode);
  }

  /** Proxied records with their policy resources behind restricted ingress are the enforced phase. */
  lemma {:induction false} EnforcedPartsBefore(policy: Policy, p: Parts, ip: Json, keep: bool)
    requires Sorted(p, ip) && p.policies == Policies(policy, p.variables, keep) && DistinctPhases(policy.review)
    requires DnsMode(policy, Facts(BeforeAll(p.records))) == Some(Proxied) && AllPointBefore(policy, p, ip)
    requires Ingress(policy, InboundRules(p.firewall.Before()), true) == Some(Restricted)
    ensures PhaseOf(policy, p.Plan().Before(), true) == Some(Enforced)
  {
    ReadyPartsBefore(policy, p, ip, true, Proxied, Restricted);
    EdgeWithPolicyBefore(policy, p, ip, keep);
    EnforcedFrom(policy, p.Plan().Before(), true, Proxied, Restricted);
  }

  lemma {:induction false} EnforcedParts(policy: Policy, p: Parts, ip: Json)
    requires Sorted(p, ip) && p.policies == Policies(policy, p.variables, true) && DistinctPhases(policy.review)
    requires DnsMode(policy, Facts(p.records)) == Some(Proxied) && AllPoint(policy, p, ip)
    requires Ingress(policy, InboundRules(p.firewall), false) == Some(Restricted)
    ensures PhaseOf(policy, p.Plan(), false) == Some(Enforced)
  {
    ReadyParts(policy, p, ip, false, Proxied, Restricted);
    EdgeWithPolicy(policy, p, ip);
    EnforcedFrom(policy, p.Plan(), false, Proxied, Restricted);
  }

  /** The guide says that an ordinary plan rejects edge mutations. This one is accepted without
      any requested transition, although it opens the web ports from the reviewed networks to the
      world. */
  lemma {:induction false} UnrequestedPlanOpensTheWeb(policy: Policy, n: Site, others: seq<Change>, ssh: Json,
                                                      networks: seq<Json>, world: seq<Json>)
    requires Bystanders(others, n.ip) && policy.directNames == {n.apex, n.wildcard} && ssh !in policy.world
    requires policy.networks == AsSet(networks) && policy.world == AsSet(world) && policy.networks != policy.world
    requires DistinctPhases(policy.review)
    ensures var plan := Opening(policy, n, others, ssh, networks, world).Plan();
            && Accepts(policy, plan, None) && Faithful(plan) && !Initial(plan)
            && PhaseOf(policy, plan.Before(), false) == Some(Direct)
            && FirewallMode(policy, plan.Before(), false) == Some(Restricted)
            && FirewallMode(policy, plan, false) == Some(Open)
  {
    var p := Opening(policy, n, others, ssh, networks, world);
    OpeningIsSorted(policy, n, others, ssh, networks, world);
    ReopenedModes(policy, ssh, networks, world, true, false);
    DirectFacts(policy, n);
    DirectParts(policy, p, n.ip, Open);
    DirectPartsBefore(policy, p, n.ip, Restricted);
    ReopenedFields(ssh, networks, world, true);
    OnlyFirewallMutates(p, n.ip);
    UnrequestedParts(policy, p, n.ip);
  }

  // ------------------------------------------------ a jump from enforced to direct

  /** Takes an enforced edge back to direct DNS in one plan: two records are unproxied, the other
      two and every policy resource are deleted, and the restricted firewall is left alone. */
  function Rollback(policy: Policy, n: Site, others: seq<Change>, ssh: Json, networks: seq<Json>): Parts {
    Parts(Steady(Firewalls, Firewall, map[InboundRule := Inbound(ssh, networks)]), UndoneRecords(policy, n, Spots(n)),
          Policies(policy, n.variables, false),
          others, n.variables)
  }

  lemma {:induction false} RollbackRecords(policy: Policy, n: Site)
    ensures var records := UndoneRecords(policy, n, Spots(n));
            && Facts(records) == FactsAt(NetSpots(n), false) && Facts(BeforeAll(records)) == FactsAt(Spots(n), true)
            && forall c <- records :: && c.kind == DnsRecords && IsEdgeAddress(c.address) && IsEdgeChange(c)
                                      && Pointing(policy, n.variables, c, n.ip)
                                      && Pointing(policy, n.variables, c.Before(), n.ip)
  {
    UndoneRecordsBefore(policy, n, Spots(n));
    UndoneRecordsAfter(policy, n, NetSpots(n), [Spot(Apex(Com), n.comApex), Spot(Wildcard(Com), n.comWildcard)]);
  }

  lemma {:induction false} RollbackMode(policy: Policy, n: Site)
    requires policy.proxiedNames == {n.apex, n.wildcard, n.comApex, n.comWildcard}
    requires policy.directNames < policy.proxiedNames
    ensures DnsMode(policy, Facts(BeforeAll(UndoneRecords(policy, n, Spots(n))))) == Some(Proxied)
    ensures policy.directNames == {n.apex, n.wildcard} ==>
              DnsMode(policy, Facts(UndoneRecords(policy, n, Spots(n)))) == Some(Direct)
  {
    RollbackRecords(policy, n);
    ProxiedSpots(policy, n);
    if policy.directNames == {n.apex, n.wildcard} {
      DirectFacts(policy, n);
    }
  }

  lemma {:induction false} RollbackIsSorted(policy: Policy, n: Site, others: seq<Change>, ssh: Json,
                                            networks: seq<Json>)
    requires Bystanders(others, n.ip)
    ensures Sorted(Rollback(policy, n, others, ssh, networks), n.ip)
  {
    RollbackRecords(policy, n);
    forall c | c in Policies(policy, n.variables, false)
      ensures IsPolicyKind(c.kind) && IsEdgeAddress(c.address)
    {
      PoliciesAreHeld(policy, n.variables, c, false);
    }
  }

  lemma {:induction false} RollbackMutates(p: Parts, ip: Json)
    requires Sorted(p, ip) && !p.firewall.Mutates() && p.firewall.Before() == p.firewall
    requires p.records != [] && forall c <- p.records + p.policies :: IsEdgeChange(c)
    ensures Faithful(p.Plan()) && !Initial(p.Plan())
    ensures forall policy :: TransitionClean(policy, p.Plan(), Some(Direct), Some(Direct))
  {
    AddressOfParts(p, ip);
    forall c | c in p.Changes()
      ensures (c.Mutates() ==> IsEdgeChange(c) && c.address != Firewall) && (!c.Mutates() ==> c.Before() == c)
    {
      PartOf(p, ip, c);
      assert c in p.records || c in p.policies ==> c in p.records + p.policies;
      assert c in p.others ==> Bystander(c, ip);
    }
    assert p.records[0] in p.records + p.policies && p.records[0] in p.Changes();
  }

  lemma {:induction false} DeletesAreEdgeChanges(policy: Policy, p: Parts)
    requires p.policies == Policies(policy, p.variables, false) && forall c <- p.records :: IsEdgeChange(c)
    ensures forall c <- p.records + p.policies :: IsEdgeChange(c)
  {
    forall c | c in p.policies
      ensures IsEdgeChange(c)
    {
      PoliciesAreHeld(policy, p.variables, c, false);
    }
  }

  lemma {:induction false} RollbackIsAccepted(policy: Policy, p: Parts, ip: Json)
    requires Sorted(p, ip) && p.policies == Policies(policy, p.variables, false) && DistinctPhases(policy.review)
    requires p.records != [] && (forall c <- p.records :: IsEdgeChange(c)) && AllPoint(policy, p, ip)
    requires AllPointBefore(policy, p, ip)
    requires DnsMode(policy, Facts(p.records)) == Some(Direct)
    requires DnsMode(policy, Facts(BeforeAll(p.records))) == Some(Proxied)
    requires !p.firewall.Mutates() && p.firewall.Before() == p.firewall
    requires Ingress(policy, InboundRules(p.firewall), false) == Some(Restricted)
    ensures Accepts(policy, p.Plan(), Some(Direct)) && Faithful(p.Plan()) && !Initial(p.Plan())
    ensures PhaseOf(policy, p.Plan().Before(), true) == Some(Enforced)
    ensures PhaseOf(policy, p.Plan(), false) == Some(Direct)
    ensures FirewallMode(policy, p.Plan(), false) == Some(Restricted)
  {
    HistoryOnlyAdds(policy, InboundRules(p.firewall));
    DirectParts(policy, p, ip, Restricted);
    EnforcedPartsBefore(policy, p, ip, false);
    DeletesAreEdgeChanges(policy, p);
    RollbackMutates(p, ip);
  }

  /** The guide says that the plan policy rejects a jump from enforced to direct. This one is
      accepted from the enforced phase: direct DNS then points at an origin that only Cloudflare
      can reach. */
  lemma {:induction false} EnforcedToDirectIsAccepted(policy: Policy, n: Site, others: seq<Change>, ssh: Json,
                                                      networks: seq<Json>)
    requires Bystanders(others, n.ip) && policy.directNames == {n.apex, n.wildcard}
    requires policy.directNames < policy.proxiedNames
    requires policy.proxiedNames == {n.apex, n.wildcard, n.comApex, n.comWildcard}
    requires ssh !in policy.world && policy.networks == AsSet(networks) && policy.networks != policy.world
    requires DistinctPhases(policy.review)
    ensures var plan := Rollback(policy, n, others, ssh, networks).Plan();
            && Accepts(policy, plan, Some(Direct)) && Faithful(plan) && !Initial(plan)
            && PhaseOf(policy, plan.Before(), true) == Some(Enforced) && PhaseOf(policy, plan, false) == Some(Direct)
            && FirewallMode(policy, plan, false) == Some(Restricted)
  {
    var p := Rollback(policy, n, others, ssh, networks);
    RollbackIsSorted(policy, n, others, ssh, networks);
    RollbackRecords(policy, n);
    RollbackMode(policy, n);
    InboundMode(policy, p.firewall, ssh, networks, false);
    RollbackIsAccepted(policy, p, n.ip);
  }

  /** It is one of the jumps that `DirectJump` characterizes. */
  lemma {:induction false} JumpHappens(policy: Policy, plan: Plan)
    requires Accepts(policy, plan, Some(Direct)) && Faithful(plan) && !Initial(plan)
    requires PhaseOf(policy, plan.Before(), true) == Some(Enforced)
    ensures FirewallMode(policy, plan, false) == Some(Restricted)
    ensures DnsMode(policy, Facts(plan.Before().changes)) == Some(Proxied)
  {
    DnsOfPhase(policy, plan.Before(), true);
    DirectJump(policy, plan);
  }

  lemma {:induction false} RollbackIsAJump(policy: Policy, n: Site, others: seq<Change>, ssh: Json, networks: seq<Json>)
    requires Bystanders(others, n.ip) && policy.directNames == {n.apex, n.wildcard}
    requires policy.directNames < policy.proxiedNames
    requires policy.proxiedNames == {n.apex, n.wildcard, n.comApex, n.comWildcard}
    requires ssh !in policy.world && policy.networks == AsSet(networks) && policy.networks != policy.world
    requires DistinctPhases(policy.review)
    ensures var plan := Rollback(policy, n, others, ssh, networks).Plan();
            && FirewallMode(policy, plan, false) == Some(Restricted)
            && DnsMode(policy, Facts(plan.Before().changes)) == Some(Proxied)
  {
    EnforcedToDirectIsAccepted(policy, n, others, ssh, networks);
    JumpHappens(policy, Rollback(policy, n, others, ssh, networks).Plan());
  }

  // ------------------------------------------- enforcement from a wider source set

  /** Narrows the web sources of an enforced edge and changes nothing else. */
  function Narrowing(policy: Policy, n: Site, others: seq<Change>, ssh: Json, wider: seq<Json>,
                     networks: seq<Json>): Parts {
    Parts(Reopened(ssh, wider, networks, false), KeptRecords(policy, n, Spots(n), true),
          Policies(policy, n.variables, true), others, n.variables)
  }

  lemma {:induction false} NarrowingIsSorted(policy: Policy, n: Site, others: seq<Change>, ssh: Json, wider: seq<Json>,
                                             networks: seq<Json>)
    requires Bystanders(others, n.ip)
    ensures var p := Narrowing(policy, n, others, ssh, wider, networks);
            && Sorted(p, n.ip) && OnlyFirewall(p) && BeforeAll(p.records) == p.records
            && Facts(p.records) == FactsAt(Spots(n), true)
            && AllPoint(policy, p, n.ip) && AllPointBefore(policy, p, n.ip)
  {
    KeptRecordsAre(policy, n, Spots(n), true);
    forall c | c in Policies(policy, n.variables, true)
      ensures IsPolicy(c) && !c.Mutates() && c.Before() == c
    {
      PoliciesAreHeld(policy, n.variables, c, true);
    }
  }

  lemma {:induction false} NarrowingTransition(policy: Policy, p: Parts, ip: Json)
    requires Sorted(p, ip) && OnlyFirewall(p) && p.firewall.ChangedFields() == Some({InboundRule})
    ensures Faithful(p.Plan()) && !Initial(p.Plan())
    ensures PhaseOf(policy, p.Plan().Before(), true) == Some(Enforced) ==>
              TransitionClean(policy, p.Plan(), Some(Enforced), Some(Enforced))
  {
    OnlyFirewallMutates(p, ip);
    assert IsEdgeChange(p.firewall);
  }

  lemma {:induction false} NarrowingIsAccepted(policy: Policy, p: Parts, ip: Json)
    requires Sorted(p, ip) && OnlyFirewall(p) && p.firewall.ChangedFields() == Some({InboundRule})
    requires p.policies == Policies(policy, p.variables, true) && DistinctPhases(policy.review)
    requires BeforeAll(p.records) == p.records && DnsMode(policy, Facts(p.records)) == Some(Proxied)
    requires AllPoint(policy, p, ip) && AllPointBefore(policy, p, ip)
    requires Ingress(policy, InboundRules(p.firewall), false) == Some(Restricted)
    requires Ingress(policy, InboundRules(p.firewall.Before()), true) == Some(Restricted)
    ensures Accepts(policy, p.Plan(), Some(Enforced)) && Faithful(p.Plan()) && !Initial(p.Plan())
    ensures PhaseOf(policy, p.Plan().Before(), true) == Some(Enforced)
  {
    EnforcedPartsBefore(policy, p, ip, true);
    EnforcedParts(policy, p, ip);
    NarrowingTransition(policy, p, ip);
  }

  lemma {:induction false} NarrowingIngress(policy: Policy, ssh: Json, wider: seq<Json>, networks: seq<Json>)
    requires ssh !in policy.world && policy.networks == AsSet(networks) && policy.networks != policy.world
    requires policy.networks < AsSet(wider) && AsSet(wider) != policy.world
    ensures var firewall := Reopened(ssh, wider, networks, false);
            && Ingress(policy, InboundRules(firewall), false) == Some(Restricted)
            && Ingress(policy, InboundRules(firewall.Before()), true) == Some(Restricted)
            && Ingress(policy, InboundRules(firewall.Before()), false).None?
  {
    ReopenedModes(policy, ssh, wider, networks, false, true);
    ReopenedModes(policy, ssh, wider, networks, false, false);
  }

  lemma {:induction false} NarrowingFields(ssh: Json, wider: seq<Json>, networks: seq<Json>)
    requires wider != networks
    ensures Reopened(ssh, wider, networks, false).ChangedFields() == Some({InboundRule})
  {
    ReopenedFields(ssh, wider, networks, false);
    assert {InboundRule} + {} == {InboundRule};
  }

  lemma {:induction false} NarrowingStart(policy: Policy, p: Parts, ip: Json)
    requires Sorted(p, ip) && Ingress(policy, InboundRules(p.firewall.Before()), false).None?
    ensures FirewallMode(policy, p.Plan().Before(), false).None?
  {
    ModesOfParts(policy, p, ip, false);
  }

  /** The guide says that an enforced plan may start only from a strict subset of the reviewed
      networks. This one is accepted although the previous web sources strictly contain them. */
  lemma {:induction false} EnforcedFromWiderSources(policy: Policy, n: Site, others: seq<Change>, ssh: Json,
                                                    wider: seq<Json>, networks: seq<Json>)
    requires Bystanders(others, n.ip) && policy.directNames < policy.proxiedNames
    requires policy.proxiedNames == {n.apex, n.wildcard, n.comApex, n.comWildcard}
    requires ssh !in policy.world && policy.networks == AsSet(networks) && policy.networks != policy.world
    requires policy.networks < AsSet(wider) && AsSet(wider) != policy.world
    requires DistinctPhases(policy.review)
    ensures var plan := Narrowing(policy, n, others, ssh, wider, networks).Plan();
            && Accepts(policy, plan, Some(Enforced)) && Faithful(plan) && !Initial(plan)
            && PhaseOf(policy, plan.Before(), true) == Some(Enforced)
            && FirewallMode(policy, plan.Before(), false).None?
  {
    var p := Narrowing(policy, n, others, ssh, wider, networks);
    NarrowingIsSorted(policy, n, others, ssh, wider, networks);
    ProxiedSpots(policy, n);
    NarrowingIngress(policy, ssh, wider, networks);
    NarrowingFields(ssh, wider, networks);
    NarrowingStart(policy, p, n.ip);
    NarrowingIsAccepted(policy, p, n.ip);
  }

  // ------------------------------------------------------------ the production policy

  const ANYWHERE := [Text("0.0.0.0/0"), Text("::/0")]

  predicate IsProduction(n: Site) {
    && n.apex == Text("lowerduckpond.net") && n.wildcard == Text("*.lowerduckpond.net")
    && n.comApex == Text("lowerduckpond.com") && n.comWildcard == Text("*.lowerduckpond.com")
  }

  lemma {:induction false} ProductionNames(networks: set<Json>, n: Site)
    requires IsProduction(n)
    ensures var p := Production(networks);
            && p.networks == networks && p.world == AsSet(ANYWHERE)
            && p.directNames == {n.apex, n.wildcard} && p.directNames < p.proxiedNames
            && p.proxiedNames == {n.apex, n.wildcard, n.comApex, n.comWildcard}
  {
    var p := Production(networks);
    assert ANYWHERE[0] in ANYWHERE && ANYWHERE[1] in ANYWHERE;
    assert |"lowerduckpond.com"| == |"lowerduckpond.net"| == 17 && "lowerduckpond.com"[14] != "lowerduckpond.net"[14];
    assert |"*.lowerduckpond.net"| == 19;
    assert n.comApex in p.proxiedNames && n.comApex !in p.directNames;
  }

  lemma {:induction false} ProductionPhases(networks: set<Json>)
    ensures DistinctPhases(Production(networks).review)
  {
    assert |"http_request_cache_settings"| == 27;
    assert |"http_config_settings"| == 20 && |"http_request_firewall_custom"| == 28;
    assert ProductionPhase(Cache).text != ProductionPhase(Config).text;
    assert ProductionPhase(Config).text != ProductionPhase(Custom).text;
    assert ProductionPhase(Cache).text != ProductionPhase(Custom).text;
  }

  /** The three findings hold of the production policy, with its own contents, beside any resources
      that are left alone. */
  lemma {:induction false} ProductionOpens(networks: seq<Json>, n: Site, others: seq<Change>, ssh: Json)
    requires IsProduction(n) && Bystanders(others, n.ip) && ssh !in ANYWHERE && AsSet(networks) != AsSet(ANYWHERE)
    ensures var p := Production(AsSet(networks));
            Accepts(p, Opening(p, n, others, ssh, networks, ANYWHERE).Plan(), None)
  {
    ProductionNames(AsSet(networks), n);
    ProductionPhases(AsSet(networks));
    UnrequestedPlanOpensTheWeb(Production(AsSet(networks)), n, others, ssh, networks, ANYWHERE);
  }

  lemma {:induction false} ProductionRollsBack(networks: seq<Json>, n: Site, others: seq<Change>, ssh: Json)
    requires IsProduction(n) && Bystanders(others, n.ip) && ssh !in ANYWHERE && AsSet(networks) != AsSet(ANYWHERE)
    ensures var p := Production(AsSet(networks));
            var plan := Rollback(p, n, others, ssh, networks).Plan();
            Accepts(p, plan, Some(Direct)) && PhaseOf(p, plan.Before(), true) == Some(Enforced)
  {
    ProductionNames(AsSet(networks), n);
    ProductionPhases(AsSet(networks));
    EnforcedToDirectIsAccepted(Production(AsSet(networks)), n, others, ssh, networks);
  }

  lemma {:induction false} ProductionNarrows(networks: seq<Json>, wider: seq<Json>, n: Site, others: seq<Change>,
                                             ssh: Json)
    requires IsProduction(n) && Bystanders(others, n.ip) && ssh !in ANYWHERE && AsSet(networks) != AsSet(ANYWHERE)
    requires AsSet(networks) < AsSet(wider) && AsSet(wider) != AsSet(ANYWHERE)
    ensures var p := Production(AsSet(networks));
            Accepts(p, Narrowing(p, n, others, ssh, wider, networks).Plan(), Some(Enforced))
  {
    ProductionNames(AsSet(networks), n);
    ProductionPhases(AsSet(networks));
    EnforcedFromWiderSources(Production(AsSet(networks)), n, others, ssh, wider, networks);
  }
}
