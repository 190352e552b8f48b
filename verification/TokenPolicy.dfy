/** Exactness of a split-up account token policy (scripts/check_m3_7_production_edge.py). */
module TokenPolicy {
  datatype Group = Group(id: string, name: string)

  /** One `allow` policy, as a list of permission groups over a dictionary of resources. Anything
      of another shape, or with another effect, is `Malformed`. */
  datatype Policy = Malformed | Allow(groups: seq<Group>, resources: map<string, string>)

  /** An account token; one without a list of policies has none. */
  datatype Token = Token(id: string, status: string, policies: seq<Policy>)

  type Pair = (string, string)

  predicate IsHex(c: char) { '0' <= c <= '9' || 'a' <= c <= 'f' }

  predicate IsIdentifier(id: string) { |id| == 32 && forall c <- id :: IsHex(c) }

  predicate IsNamed(g: Group) { g.name != "" && IsIdentifier(g.id) }

  predicate WellFormed(p: Policy) {
    && p.Allow? && p.groups != [] && p.resources != map[]
    && (forall g <- p.groups :: IsNamed(g))
    && (forall resource <- p.resources :: p.resources[resource] == "*")
  }

  /** The (permission, resource) pairs that the policies grant together. */
  ghost function Granted(policies: seq<Policy>): set<Pair> {
    set i, j, resource | 0 <= i < |policies| && policies[i].Allow? && 0 <= j < |policies[i].groups|
                         && resource in policies[i].resources :: (policies[i].groups[j].id, resource)
  }

  ghost function Product(ids: set<string>, resources: set<string>): set<Pair> {
    set id, resource | id in ids && resource in resources :: (id, resource)
  }

  /** The expected names cover these groups. */
  ghost predicate Covers(expected: map<string, string>, groups: seq<Group>) {
    forall g <- groups :: g.id in expected && expected[g.id] == g.name
  }

  ghost predicate Agrees(names: map<string, string>, expected: map<string, string>) {
    forall id <- names :: id in expected && expected[id] == names[id]
  }

  ghost predicate Binds(bindings: map<string, set<string>>, pair: Pair) {
    pair.0 in bindings && pair.1 in bindings[pair.0]
  }

  ghost predicate Mentions(groups: seq<Group>, id: string) {
    exists g <- groups :: g.id == id
  }

  ghost predicate AnyMentions(policies: seq<Policy>, id: string) {
    exists p <- policies :: p.Allow? && Mentions(p.groups, id)
  }

  ghost predicate AnyGrants(policies: seq<Policy>, pair: Pair) {
    exists p <- policies :: Grants(p, pair)
  }

  ghost predicate AllCovered(policies: seq<Policy>, names: map<string, string>) {
    forall p <- policies :: WellFormed(p) && Covers(names, p.groups)
  }

  /** The two dictionaries that the validation keeps, against the policies they summarize. */
  ghost predicate Summarizes(policies: seq<Policy>, names: map<string, string>, bindings: map<string, set<string>>) {
    && AllCovered(policies, names)
    && names.Keys == bindings.Keys
    && (forall id <- names :: AnyMentions(policies, id))
    && (forall pair :: Binds(bindings, pair) <==> AnyGrants(policies, pair))
  }

  ghost predicate Grants(p: Policy, pair: Pair) {
    p.Allow? && Mentions(p.groups, pair.0) && pair.1 in p.resources
  }

  lemma {:induction false} GrantedIs(policies: seq<Policy>, pair: Pair)
    ensures pair in Granted(policies) <==> AnyGrants(policies, pair)
  {
    if p :| p in policies && Grants(p, pair) {
      var i :| 0 <= i < |policies| && policies[i] == p;
      var g :| g in p.groups && g.id == pair.0;
      var j :| 0 <= j < |p.groups| && p.groups[j] == g;
      assert (policies[i].groups[j].id, pair.1) == pair;
    }
    if pair in Granted(policies) {
      var i, j, resource :| 0 <= i < |policies| && policies[i].Allow? && 0 <= j < |policies[i].groups|
                            && resource in policies[i].resources && pair == (policies[i].groups[j].id, resource);
      assert policies[i].groups[j] in policies[i].groups;
      assert policies[i] in policies && Grants(policies[i], pair);
    }
  }

  /** The first inner loop: names by permission, none with two names. */
  method AddNames(names: map<string, string>, groups: seq<Group>, ghost expected: map<string, string>)
    returns (ok: bool, after: map<string, string>)
    ensures ok ==> (forall g <- groups :: IsNamed(g)) && Covers(after, groups) && Agrees(names, after)
    ensures ok ==> forall id <- after :: id in names || Mentions(groups, id)
    ensures !ok ==> !(Agrees(names, expected) && (forall g <- groups :: IsNamed(g)) && Covers(expected, groups))
  {
    after := names;
    for n := 0 to |groups|
      invariant forall k ::
                0 <= k < n ==> IsNamed(groups[k]) && groups[k].id in after && after[groups[k].id] == groups[k].name
      invariant Agrees(names, after)
      invariant forall id <- after :: id in names || exists k :: 0 <= k < n && groups[k].id == id
      invariant Agrees(names, expected) && Covers(expected, groups) ==> Agrees(after, expected)
    {
      var g := groups[n];
      assert g in groups;
      if !IsNamed(g) || (g.id in after && after[g.id] != g.name) {
        return false, after;
      }
      after := after[g.id := g.name];
    }
    ok := true;
    assert forall k :: 0 <= k < |groups| ==> groups[k] in groups;
  }

  /** The second inner loop: the resources of the policy are bound to each of its permissions. */
  method AddBindings(bindings: map<string, set<string>>, groups: seq<Group>, resources: set<string>)
    returns (after: map<string, set<string>>)
    ensures forall id :: id in after <==> id in bindings || Mentions(groups, id)
    ensures forall pair ::
              Binds(after, pair) <==> Binds(bindings, pair) || (Mentions(groups, pair.0) && pair.1 in resources)
  {
    after := bindings;
    for n := 0 to |groups|
      invariant forall id :: id in after <==> id in bindings || Mentions(groups[..n], id)
      invariant forall pair ::
                Binds(after, pair) <==> Binds(bindings, pair) || (Mentions(groups[..n], pair.0) && pair.1 in resources)
    {
      var id := groups[n].id;
      assert groups[..n + 1] == groups[..n] + [groups[n]];
      forall other
        ensures Mentions(groups[..n + 1], other) <==> Mentions(groups[..n], other) || other == id
      {
        MentionsNext(groups[..n], groups[n], other);
      }
      after := after[id := (if id in after then after[id] else {}) + resources];
    }
    assert groups[..|groups|] == groups;
  }

  lemma {:induction false} MentionsNext(groups: seq<Group>, g: Group, id: string)
    ensures Mentions(groups + [g], id) <==> Mentions(groups, id) || g.id == id
  {
    if Mentions(groups, id) {
      var h :| h in groups && h.id == id;
      assert h in groups + [g];
    }
    if g.id == id {
      assert g in groups + [g];
    }
  }

  lemma {:induction false} MentionedNext(policies: seq<Policy>, p: Policy, id: string)
    ensures AnyMentions(policies + [p], id) <==> AnyMentions(policies, id) || (p.Allow? && Mentions(p.groups, id))
  {
    if q :| q in policies && q.Allow? && Mentions(q.groups, id) {
      assert q in policies + [p];
    }
    assert p in policies + [p];
  }

  lemma {:induction false} GrantsNext(policies: seq<Policy>, p: Policy, pair: Pair)
    ensures AnyGrants(policies + [p], pair) <==> AnyGrants(policies, pair) || Grants(p, pair)
  {
    if q :| q in policies && Grants(q, pair) {
      assert q in policies + [p];
    }
    assert p in policies + [p];
  }

  lemma {:induction false} SummaryGrows(policies: seq<Policy>, p: Policy, names: map<string, string>,
                                        bindings: map<string, set<string>>,
                                        names': map<string, string>, bindings': map<string, set<string>>)
    requires Summarizes(policies, names, bindings) && WellFormed(p)
    requires Covers(names', p.groups) && Agrees(names, names')
    requires forall id <- names' :: id in names || Mentions(p.groups, id)
    requires forall id :: id in bindings' <==> id in bindings || Mentions(p.groups, id)
    requires forall pair ::
              Binds(bindings', pair) <==> Binds(bindings, pair) || (Mentions(p.groups, pair.0) && pair.1 in p.resources)
    ensures Summarizes(policies + [p], names', bindings')
  {
    forall id | id in names'
      ensures AnyMentions(policies + [p], id)
    {
      MentionedNext(policies, p, id);
    }
    forall pair
      ensures Binds(bindings', pair) <==> AnyGrants(policies + [p], pair)
    {
      GrantsNext(policies, p, pair);
    }
    NamesGrow(policies, p, names, names');
    assert names'.Keys == bindings'.Keys;
  }

  lemma {:induction false} NamesGrow(policies: seq<Policy>, p: Policy, names: map<string, string>,
                                     names': map<string, string>)
    requires AllCovered(policies, names) && WellFormed(p) && Covers(names', p.groups) && Agrees(names, names')
    ensures AllCovered(policies + [p], names')
  {
  }

  /** The final comparison says that the union of all grants is the reviewed product. */
  lemma {:induction false} ComparisonIsExact(policies: seq<Policy>, names: map<string, string>,
                                             bindings: map<string, set<string>>,
                                             expected: map<string, string>, resources: set<string>)
    requires Summarizes(policies, names, bindings) && policies != []
    ensures (&& names == expected && bindings.Keys == expected.Keys
             && forall id <- bindings :: bindings[id] == resources) <==>
            (&& (forall p <- policies :: Covers(expected, p.groups))
             && Granted(policies) == Product(expected.Keys, resources))
  {
    forall pair
      ensures pair in Granted(policies) <==> Binds(bindings, pair)
    {
      GrantedIs(policies, pair);
    }
    if names == expected && bindings.Keys == expected.Keys && forall id <- bindings :: bindings[id] == resources {
      assert forall pair :: pair in Product(expected.Keys, resources) <==> Binds(bindings, pair);
    }
    if (forall p <- policies :: Covers(expected, p.groups)) && Granted(policies) == Product(expected.Keys, resources) {
      ExactImpliesEqual(policies, names, bindings, expected, resources);
    }
  }

  lemma {:induction false} ExactImpliesEqual(policies: seq<Policy>, names: map<string, string>,
                                             bindings: map<string, set<string>>,
                                             expected: map<string, string>, resources: set<string>)
    requires Summarizes(policies, names, bindings) && policies != []
    requires forall pair :: pair in Product(expected.Keys, resources) <==> Binds(bindings, pair)
    requires forall p <- policies :: Covers(expected, p.groups)
    ensures names == expected && bindings.Keys == expected.Keys && forall id <- bindings :: bindings[id] == resources
  {
    var p := policies[0];
    assert p in policies && WellFormed(p);
    var resource :| resource in p.resources;
    assert p.groups[0] in p.groups && Mentions(p.groups, p.groups[0].id);
    assert Grants(p, (p.groups[0].id, resource));
    assert Binds(bindings, (p.groups[0].id, resource)) && resource in resources;
    forall id | id in expected
      ensures id in bindings
    {
      assert (id, resource) in Product(expected.Keys, resources);
      assert Binds(bindings, (id, resource));
    }
    forall id | id in names
      ensures id in expected && names[id] == expected[id]
    {
      var q :| q in policies && q.Allow? && Mentions(q.groups, id);
      assert Covers(names, q.groups) && Covers(expected, q.groups);
    }
    assert names.Keys == expected.Keys;
    forall id | id in bindings
      ensures bindings[id] == resources
    {
      assert forall r :: (id, r) in Product(expected.Keys, resources) <==> r in resources;
      assert forall r :: Binds(bindings, (id, r)) <==> r in bindings[id];
    }
  }

  /** One round of the loop: a malformed policy or a second name for a permission is refused. */
  method AddPolicy(ghost before: seq<Policy>, p: Policy, names: map<string, string>,
                   bindings: map<string, set<string>>, ghost expected: map<string, string>)
    returns (ok: bool, names': map<string, string>, bindings': map<string, set<string>>)
    requires Summarizes(before, names, bindings)
    ensures ok ==> Summarizes(before + [p], names', bindings')
    ensures !ok ==> !(WellFormed(p) && forall q <- before + [p] :: Covers(expected, q.groups))
  {
    names', bindings' := names, bindings;
    if p.Malformed? || p.groups == [] || p.resources == map[] {
      return false, names', bindings';
    }
    ok, names' := AddNames(names, p.groups, expected);
    if !ok {
      SummaryAgrees(before, names, bindings, expected);
      assert p in before + [p] && forall q <- before :: q in before + [p];
      return;
    }
    if exists resource <- p.resources :: p.resources[resource] != "*" {
      return false, names', bindings';
    }
    bindings' := AddBindings(bindings, p.groups, p.resources.Keys);
    SummaryGrows(before, p, names, bindings, names', bindings');
  }

  /** `validate_account_token_policy`: it accepts exactly the expected active token whose grants,
      however they are split, add up to the reviewed permissions on the reviewed resources under
      their reviewed names. */
  method Validate(token: Token, id: string, expected: map<string, string>, resources: set<string>) returns (ok: bool)
    ensures ok <==> && token.id == id && token.status == "active" && token.policies != []
                    && (forall p <- token.policies :: WellFormed(p) && Covers(expected, p.groups))
                    && Granted(token.policies) == Product(expected.Keys, resources)
  {
    if token.id != id || token.status != "active" || token.policies == [] {
      return false;
    }
    var policies := token.policies;
    var names: map<string, string>, bindings: map<string, set<string>> := map[], map[];
    for n := 0 to |policies|
      invariant Summarizes(policies[..n], names, bindings)
    {
      assert policies[n] in policies && policies[..n + 1] == policies[..n] + [policies[n]];
      assert forall q <- policies[..n] :: q in policies;
      var good;
      good, names, bindings := AddPolicy(policies[..n], policies[n], names, bindings, expected);
      if !good {
        return false;
      }
    }
    assert policies[..|policies|] == policies;
    ComparisonIsExact(policies, names, bindings, expected, resources);
    ok := names == expected && bindings.Keys == expected.Keys && forall id <- bindings :: bindings[id] == resources;
  }

  /** What an accepted token is made of, told by its fields: every policy allows at least one
      permission group on at least one resource, every group has a name and an identifier of 32
      lower-case hexadecimal digits, and every resource is granted with `*`. */
  lemma {:induction false} WellFormedMeans(p: Policy)
    ensures WellFormed(p) <==>
              && p.Allow? && |p.groups| > 0 && |p.resources| > 0
              && (forall i :: 0 <= i < |p.groups| ==>
                    && |p.groups[i].name| > 0 && |p.groups[i].id| == 32
                    && forall k :: 0 <= k < 32 ==> p.groups[i].id[k] in "0123456789abcdef")
              && forall resource <- p.resources :: p.resources[resource] == "*"
  {
    if p.Allow? {
      forall i | 0 <= i < |p.groups|
        ensures IsNamed(p.groups[i]) <==>
                  && |p.groups[i].name| > 0 && |p.groups[i].id| == 32
                  && forall k :: 0 <= k < 32 ==> p.groups[i].id[k] in "0123456789abcdef"
      {
        NamedMeans(p.groups[i]);
      }
      assert forall i :: 0 <= i < |p.groups| ==> p.groups[i] in p.groups;
      assert p.resources == map[] <==> |p.resources| == 0;
    }
  }

  lemma {:induction false} NamedMeans(g: Group)
    ensures IsNamed(g) <==>
              |g.name| > 0 && |g.id| == 32 && forall k :: 0 <= k < 32 ==> g.id[k] in "0123456789abcdef"
  {
    forall c: char
      ensures IsHex(c) <==> c in "0123456789abcdef"
    {
      HexMeans(c);
    }
    assert forall k :: 0 <= k < |g.id| ==> g.id[k] in g.id;
  }

  lemma {:induction false} HexMeans(c: char)
    ensures IsHex(c) <==> c in "0123456789abcdef"
  {
    var hex := "0123456789abcdef";
    if '0' <= c <= '9' {
      assert hex[c as int - 48] == c;
    }
    if 'a' <= c <= 'f' {
      assert hex[c as int - 87] == c;
    }
  }

  lemma {:induction false} SummaryAgrees(policies: seq<Policy>, names: map<string, string>,
                                         bindings: map<string, set<string>>, expected: map<string, string>)
    requires Summarizes(policies, names, bindings)
    ensures (forall p <- policies :: Covers(expected, p.groups)) ==> Agrees(names, expected)
  {
    if forall p <- policies :: Covers(expected, p.groups) {
      forall id | id in names
        ensures id in expected && expected[id] == names[id]
      {
        var q :| q in policies && q.Allow? && Mentions(q.groups, id);
        assert Covers(names, q.groups) && Covers(expected, q.groups);
      }
    }
  }

  /** How grants are split over policies, and in which order, does not matter. */
  lemma {:induction false} GrantsAddUp(a: seq<Policy>, b: seq<Policy>)
    ensures Granted(a + b) == Granted(a) + Granted(b) == Granted(b + a)
  {
    forall pair
      ensures (pair in Granted(a + b) <==> pair in Granted(a) || pair in Granted(b))
      ensures (pair in Granted(a + b) <==> pair in Granted(b + a))
    {
      GrantedIs(a, pair);
      GrantedIs(b, pair);
      GrantedIs(a + b, pair);
      GrantedIs(b + a, pair);
      assert forall p :: p in a + b <==> p in a || p in b;
      assert forall p :: p in b + a <==> p in a || p in b;
    }
  }
}
