/** Bounded breadth-first listing of a possibly cyclic exception graph
    (scripts/cloudflare_read_diagnostics.py). */
module ExceptionChain {
  import opened Outcomes

  const MAX_CHAIN := 8

  type Id = int

  datatype Relation = Root | Member | Reason | Cause | Context

  datatype Link = Link(target: Id, relation: Relation)

  /** An exception object: the members of an exact exception group, and the linked exceptions in
      the order in which they are followed. */
  datatype Error = Error(members: seq<Id>, reason: Option<Id>, cause: Option<Id>, context: Option<Id>)

  type Graph = Id -> Error

  datatype Node = Node(id: Id, relation: Relation, parent: Option<nat>)

  function As(id: Option<Id>, relation: Relation): seq<Link> {
    if id.Some? then [Link(id.value, relation)] else []
  }

  function Members(ids: seq<Id>): seq<Link> {
    seq(|ids|, i requires 0 <= i < |ids| => Link(ids[i], Member))
  }

  predicate Oversized(error: Error) { |error.members| > MAX_CHAIN }

  /** The links that are put on the queue. */
  function Followed(error: Error): seq<Link> {
    Members(if Oversized(error) then error.members[..MAX_CHAIN] else error.members)
    + As(error.reason, Reason) + As(error.cause, Cause) + As(error.context, Context)
  }

  /** Everything an exception refers to. */
  function Links(error: Error): seq<Link> {
    Members(error.members) + As(error.reason, Reason) + As(error.cause, Cause) + As(error.context, Context)
  }

  ghost predicate Refers(g: Graph, from: Id, to: Id) {
    exists k :: 0 <= k < |Links(g(from))| && Links(g(from))[k].target == to
  }

  /** A walk along references from the root. */
  ghost predicate Walk(g: Graph, root: Id, path: seq<Id>) {
    && path != [] && path[0] == root
    && forall i, k :: 0 <= i < k < |path| && k == i + 1 ==> Refers(g, path[i], path[k])
  }

  ghost predicate Reachable(g: Graph, root: Id, id: Id) {
    exists path :: Walk(g, root, path) && path[|path| - 1] == id
  }

  function Ids(nodes: seq<Node>): set<Id> {
    set i | 0 <= i < |nodes| :: nodes[i].id
  }

  /** The number of links that the listed nodes put on the queue. */
  function Degree(g: Graph, nodes: seq<Node>): nat {
    if nodes == [] then 0
    else Degree(g, nodes[..|nodes| - 1]) + |Followed(g(nodes[|nodes| - 1].id))|
  }

  /** A non-root node names an earlier parent that has exactly this link to it. */
  ghost predicate Anchored(g: Graph, nodes: seq<Node>, limit: nat, node: Node) {
    && node.parent.Some? && node.parent.value < limit <= |nodes|
    && Link(node.id, node.relation) in Followed(g(nodes[node.parent.value].id))
  }

  lemma {:induction false} FollowedRefers(g: Graph, from: Id, link: Link)
    requires link in Followed(g(from))
    ensures Refers(g, from, link.target)
  {
    var e := g(from);
    var shown := if Oversized(e) then e.members[..MAX_CHAIN] else e.members;
    var tail := As(e.reason, Reason) + As(e.cause, Cause) + As(e.context, Context);
    assert Followed(e) == Members(shown) + tail && Links(e) == Members(e.members) + tail;
    var k :| 0 <= k < |Followed(e)| && Followed(e)[k] == link;
    var at := if k < |shown| then k else k - |shown| + |e.members|;
    FollowedAt(e.members, shown, tail, k);
    assert Links(e)[at].target == link.target;
  }

  lemma {:induction false} FollowedAt(members: seq<Id>, shown: seq<Id>, tail: seq<Link>, k: nat)
    requires shown <= members && k < |shown| + |tail|
    ensures (Members(shown) + tail)[k] == (Members(members) + tail)[if k < |shown| then k else k - |shown| + |members|]
  {
  }

  /** What one reference away from a reachable exception is reachable. */
  lemma {:induction false} ReachesNext(g: Graph, root: Id, from: Id, to: Id)
    requires Reachable(g, root, from) && Refers(g, from, to)
    ensures Reachable(g, root, to)
  {
    var path :| Walk(g, root, path) && path[|path| - 1] == from;
    var longer := path + [to];
    forall i, k | 0 <= i < k < |longer| && k == i + 1
      ensures Refers(g, longer[i], longer[k])
    {
      if k < |path| {
        assert Refers(g, path[i], path[k]);
      }
    }
    assert Walk(g, root, longer) && longer[|longer| - 1] == to;
  }

  lemma {:induction false} RootIsReachable(g: Graph, root: Id)
    ensures Reachable(g, root, root)
  {
    assert Walk(g, root, [root]) && [root][|[root]| - 1] == root;
  }

  /** A set that holds the root and everything its members refer to holds all that is reachable. */
  lemma {:induction false} ClosedHoldsAll(g: Graph, root: Id, closed: set<Id>, id: Id)
    requires root in closed
    requires forall from <- closed, k | 0 <= k < |Links(g(from))| :: Links(g(from))[k].target in closed
    requires Reachable(g, root, id)
    ensures id in closed
  {
    var path :| Walk(g, root, path) && path[|path| - 1] == id;
    for n := 1 to |path|
      invariant path[n - 1] in closed
    {
      assert Refers(g, path[n - 1], path[n]);
    }
  }

  function Back(node: Node): nat { if node.parent.Some? then node.parent.value else 0 }

  function Queue(links: seq<Link>, index: nat): seq<Node> {
    seq(|links|, i requires 0 <= i < |links| => Node(links[i].target, links[i].relation, Some(index)))
  }

  ghost predicate Apart(nodes: seq<Node>) {
    forall i, j :: 0 <= i < j < |nodes| ==> nodes[i].id != nodes[j].id
  }

  /** Parents never go back, as in any breadth-first order. */
  ghost predicate Sorted(all: seq<Node>) {
    forall i, j :: 0 < i < j < |all| ==> Back(all[i]) <= Back(all[j])
  }

  ghost predicate AllAnchored(g: Graph, nodes: seq<Node>, pending: seq<Node>) {
    && (forall i :: 0 < i < |nodes| ==> Anchored(g, nodes, i, nodes[i]))
    && (nodes != [] ==> forall i :: 0 <= i < |pending| ==> Anchored(g, nodes, |nodes|, pending[i]))
  }

  /** Distinct nodes under their anchors, with parents that never go back, queue included. */
  ghost predicate Shaped(g: Graph, root: Id, nodes: seq<Node>, pending: seq<Node>) {
    && (nodes == [] ==> pending == [Node(root, Root, None)])
    && (nodes != [] ==> nodes[0] == Node(root, Root, None))
    && Apart(nodes) && AllAnchored(g, nodes, pending) && Sorted(nodes + pending)
  }

  ghost predicate Reached(g: Graph, root: Id, nodes: seq<Node>) {
    forall i :: 0 <= i < |nodes| ==> Reachable(g, root, nodes[i].id)
  }

  /** Whatever a listed node leads to is listed or still queued. */
  ghost predicate Covered(g: Graph, nodes: seq<Node>, pending: seq<Node>) {
    forall i, k :: 0 <= i < |nodes| && 0 <= k < |Followed(g(nodes[i].id))| ==>
      Followed(g(nodes[i].id))[k].target in Ids(nodes) + Ids(pending)
  }

  lemma {:induction false} DropShaped(g: Graph, root: Id, nodes: seq<Node>, pending: seq<Node>)
    requires Shaped(g, root, nodes, pending) && pending != [] && nodes != []
    ensures Shaped(g, root, nodes, pending[1..])
  {
    var all, rest := nodes + pending, nodes + pending[1..];
    assert forall i :: 0 <= i < |nodes| ==> rest[i] == all[i];
    assert forall i :: |nodes| <= i < |rest| ==> rest[i] == all[i + 1];
  }

  lemma {:induction false} ListApart(nodes: seq<Node>, current: Node)
    requires Apart(nodes) && current.id !in Ids(nodes)
    ensures Apart(nodes + [current])
  {
    var listed := nodes + [current];
    forall i, j | 0 <= i < j < |listed|
      ensures listed[i].id != listed[j].id
    {
      assert listed[i].id in Ids(nodes);
    }
  }

  lemma {:induction false} ListAnchored(g: Graph, root: Id, nodes: seq<Node>, pending: seq<Node>, links: seq<Link>)
    requires AllAnchored(g, nodes, pending) && pending != [] && links == Followed(g(pending[0].id))
    requires nodes == [] ==> |pending| == 1
    ensures AllAnchored(g, nodes + [pending[0]], pending[1..] + Queue(links, |nodes|))
  {
    var listed, queue := nodes + [pending[0]], pending[1..] + Queue(links, |nodes|);
    forall i | 0 < i < |listed|
      ensures Anchored(g, listed, i, listed[i])
    {
      assert i < |nodes| ==> Anchored(g, nodes, i, nodes[i]);
    }
    forall i | 0 <= i < |queue|
      ensures Anchored(g, listed, |listed|, queue[i])
    {
      if i < |pending| - 1 {
        assert queue[i] == pending[i + 1] && Anchored(g, nodes, |nodes|, pending[i + 1]);
      } else {
        assert queue[i] == Queue(links, |nodes|)[i - (|pending| - 1)];
      }
    }
  }

  lemma {:induction false} BackIsEarlier(g: Graph, nodes: seq<Node>, pending: seq<Node>, i: nat)
    requires AllAnchored(g, nodes, pending) && 0 < i < |nodes + pending| && (nodes == [] ==> |pending| == 1)
    ensures Back((nodes + pending)[i]) <= |nodes|
  {
    if i < |nodes| {
      assert Anchored(g, nodes, i, nodes[i]);
    } else {
      assert Anchored(g, nodes, |nodes|, pending[i - |nodes|]);
    }
  }

  /** A queue under the newest node keeps the order. */
  lemma {:induction false} SortedAppend(before: seq<Node>, queue: seq<Node>, index: nat)
    requires Sorted(before) && (forall i :: 0 < i < |before| ==> Back(before[i]) <= index)
    requires forall i :: 0 <= i < |queue| ==> Back(queue[i]) == index
    ensures Sorted(before + queue)
  {
    var all := before + queue;
    assert forall i :: 0 <= i < |before| ==> all[i] == before[i];
    assert forall i :: |before| <= i < |all| ==> all[i] == queue[i - |before|];
  }

  lemma {:induction false} ListSorted(g: Graph, nodes: seq<Node>, pending: seq<Node>, links: seq<Link>)
    requires AllAnchored(g, nodes, pending) && Sorted(nodes + pending) && (nodes == [] ==> |pending| == 1)
    ensures Sorted(nodes + pending + Queue(links, |nodes|))
  {
    forall i | 0 < i < |nodes + pending|
      ensures Back((nodes + pending)[i]) <= |nodes|
    {
      BackIsEarlier(g, nodes, pending, i);
    }
    SortedAppend(nodes + pending, Queue(links, |nodes|), |nodes|);
  }

  lemma {:induction false} ListShaped(g: Graph, root: Id, nodes: seq<Node>, pending: seq<Node>)
    requires Shaped(g, root, nodes, pending) && pending != [] && pending[0].id !in Ids(nodes)
    ensures Shaped(g, root, nodes + [pending[0]], pending[1..] + Queue(Followed(g(pending[0].id)), |nodes|))
  {
    var links := Followed(g(pending[0].id));
    ListApart(nodes, pending[0]);
    ListAnchored(g, root, nodes, pending, links);
    ListSorted(g, nodes, pending, links);
    Regroup(nodes, pending, Queue(links, |nodes|));
  }

  lemma {:induction false} Regroup(nodes: seq<Node>, pending: seq<Node>, queue: seq<Node>)
    requires pending != []
    ensures (nodes + [pending[0]]) + (pending[1..] + queue) == nodes + pending + queue
  {
  }

  lemma {:induction false} QueueReached(g: Graph, root: Id, from: Id, index: nat)
    requires Reachable(g, root, from)
    ensures Reached(g, root, Queue(Followed(g(from)), index))
  {
    var links := Followed(g(from));
    forall i | 0 <= i < |links|
      ensures Reachable(g, root, links[i].target)
    {
      FollowedRefers(g, from, links[i]);
      ReachesNext(g, root, from, links[i].target);
    }
  }

  lemma {:induction false} ListCovered(g: Graph, nodes: seq<Node>, pending: seq<Node>)
    requires Covered(g, nodes, pending) && pending != []
    ensures Covered(g, nodes + [pending[0]], pending[1..] + Queue(Followed(g(pending[0].id)), |nodes|))
  {
    var links := Followed(g(pending[0].id));
    var listed, queue := nodes + [pending[0]], pending[1..] + Queue(links, |nodes|);
    IdsConcat(nodes, [pending[0]]);
    IdsConcat([pending[0]], pending[1..]);
    IdsConcat(pending[1..], Queue(links, |nodes|));
    assert [pending[0]] + pending[1..] == pending;
    forall i, k | 0 <= i < |listed| && 0 <= k < |Followed(g(listed[i].id))|
      ensures Followed(g(listed[i].id))[k].target in Ids(listed) + Ids(queue)
    {
      if i == |nodes| {
        assert Queue(links, |nodes|)[k].id == links[k].target;
        assert links[k].target in Ids(Queue(links, |nodes|));
      } else {
        assert listed[i] == nodes[i];
      }
    }
  }

  lemma {:induction false} IdsConcat(a: seq<Node>, b: seq<Node>)
    ensures Ids(a + b) == Ids(a) + Ids(b)
  {
    forall id | id in Ids(a) + Ids(b)
      ensures id in Ids(a + b)
    {
      if id in Ids(a) {
        var i :| 0 <= i < |a| && a[i].id == id;
        assert (a + b)[i].id == id;
      } else {
        var i :| 0 <= i < |b| && b[i].id == id;
        assert (a + b)[|a| + i].id == id;
      }
    }
  }

  lemma {:induction false} DropCovered(g: Graph, nodes: seq<Node>, pending: seq<Node>)
    requires Covered(g, nodes, pending) && pending != [] && pending[0].id in Ids(nodes)
    ensures Covered(g, nodes, pending[1..])
  {
    IdsConcat([pending[0]], pending[1..]);
    assert [pending[0]] + pending[1..] == pending;
  }

  /** A complete listing is closed under references. */
  lemma {:induction false} ListingIsComplete(g: Graph, root: Id, nodes: seq<Node>, id: Id)
    requires Covered(g, nodes, []) && nodes != [] && nodes[0].id == root
    requires forall i :: 0 <= i < |nodes| ==> !Oversized(g(nodes[i].id))
    requires Reachable(g, root, id)
    ensures id in Ids(nodes)
  {
    assert root in Ids(nodes);
    forall from, k | from in Ids(nodes) && 0 <= k < |Links(g(from))|
      ensures Links(g(from))[k].target in Ids(nodes)
    {
      var i :| 0 <= i < |nodes| && nodes[i].id == from;
      assert Links(g(from)) == Followed(g(from));
    }
    ClosedHoldsAll(g, root, Ids(nodes), id);
  }

  // ------------------------------------------------- labels and the order of siblings

  /** What a relation says about the parent: one of its first eight members, its reason, its cause
      or its context. */
  ghost predicate Related(parent: Error, relation: Relation, id: Id) {
    match relation
    case Root => false
    case Member => exists k :: 0 <= k < 8 && k < |parent.members| && parent.members[k] == id
    case Reason => parent.reason == Some(id)
    case Cause => parent.cause == Some(id)
    case Context => parent.context == Some(id)
  }

  /** Every node but the root has an earlier parent, to which it is related as it says. */
  ghost predicate Labelled(g: Graph, nodes: seq<Node>) {
    forall i :: 0 < i < |nodes| ==>
      && nodes[i].parent.Some? && nodes[i].parent.value < i
      && Related(g(nodes[nodes[i].parent.value].id), nodes[i].relation, nodes[i].id)
  }

  function Rank(relation: Relation): nat {
    match relation
    case Root => 0
    case Member => 1
    case Reason => 2
    case Cause => 3
    case Context => 4
  }

  /** Members in their order, then the reason, the cause and the context. */
  ghost predicate Ahead(parent: Error, a: Node, b: Node) {
    || Rank(a.relation) < Rank(b.relation)
    || (&& a.relation.Member? && b.relation.Member?
        && exists k, l :: 0 <= k < l < |parent.members| && parent.members[k] == a.id && parent.members[l] == b.id)
  }

  ghost predicate SameParent(a: Node, b: Node, p: nat) { a.parent == Some(p) && b.parent == Some(p) }

  /** The children of one parent are listed in the order of its links. */
  ghost predicate InOrder(g: Graph, nodes: seq<Node>) {
    forall i, j, p {:trigger SameParent(nodes[i], nodes[j], p)} ::
      0 <= i < j < |nodes| && 0 <= p < |nodes| && SameParent(nodes[i], nodes[j], p) ==>
        Ahead(g(nodes[p].id), nodes[i], nodes[j])
  }

  /** Two nodes stand for an earlier and a later link. */
  ghost predicate Placed(links: seq<Link>, a: Node, b: Node) {
    exists k, l :: 0 <= k < l < |links| && links[k] == Link(a.id, a.relation) && links[l] == Link(b.id, b.relation)
  }

  /** Nodes with one parent, listed or queued, stand for its links in their order. */
  ghost predicate Queued(g: Graph, nodes: seq<Node>, all: seq<Node>) {
    forall i, j, p {:trigger SameParent(all[i], all[j], p)} ::
      0 <= i < j < |all| && 0 <= p < |nodes| && SameParent(all[i], all[j], p) ==>
        Placed(Followed(g(nodes[p].id)), all[i], all[j])
  }

  lemma {:induction false} FollowedMeans(e: Error, k: nat)
    requires k < |Followed(e)|
    ensures var link := Followed(e)[k];
            && Related(e, link.relation, link.target)
            && (link.relation.Member? <==> k < |e.members| && k < 8)
            && (link.relation.Member? ==> e.members[k] == link.target)
  {
    var shown := if Oversized(e) then e.members[..MAX_CHAIN] else e.members;
    var tail := As(e.reason, Reason) + As(e.cause, Cause) + As(e.context, Context);
    assert Followed(e) == Members(shown) + tail;
    if k < |shown| {
      assert Followed(e)[k] == Link(e.members[k], Member);
    } else {
      assert Followed(e)[k] == tail[k - |shown|];
    }
  }

  lemma {:induction false} FollowedRanks(e: Error, k: nat, l: nat)
    requires k < l < |Followed(e)|
    ensures var a, b := Followed(e)[k].relation, Followed(e)[l].relation;
            Rank(a) < Rank(b) || (a.Member? && b.Member?)
  {
    var shown := if Oversized(e) then e.members[..MAX_CHAIN] else e.members;
    var tail := As(e.reason, Reason) + As(e.cause, Cause) + As(e.context, Context);
    assert Followed(e) == Members(shown) + tail;
    assert k >= |shown| ==> Followed(e)[k] == tail[k - |shown|];
    assert l >= |shown| ==> Followed(e)[l] == tail[l - |shown|];
  }

  lemma {:induction false} PlacedIsAhead(e: Error, a: Node, b: Node)
    requires Placed(Followed(e), a, b)
    ensures Ahead(e, a, b)
  {
    var k, l :| 0 <= k < l < |Followed(e)| && Followed(e)[k] == Link(a.id, a.relation)
                && Followed(e)[l] == Link(b.id, b.relation);
    FollowedMeans(e, k);
    FollowedMeans(e, l);
    FollowedRanks(e, k, l);
  }

  lemma {:induction false} AnchoredIsLabelled(g: Graph, nodes: seq<Node>)
    requires AllAnchored(g, nodes, [])
    ensures Labelled(g, nodes)
  {
    forall i | 0 < i < |nodes|
      ensures && nodes[i].parent.Some? && nodes[i].parent.value < i
              && Related(g(nodes[nodes[i].parent.value].id), nodes[i].relation, nodes[i].id)
    {
      assert Anchored(g, nodes, i, nodes[i]);
      var e := g(nodes[nodes[i].parent.value].id);
      var k :| 0 <= k < |Followed(e)| && Followed(e)[k] == Link(nodes[i].id, nodes[i].relation);
      FollowedMeans(e, k);
    }
  }

  lemma {:induction false} QueuedIsInOrder(g: Graph, nodes: seq<Node>)
    requires Queued(g, nodes, nodes)
    ensures InOrder(g, nodes)
  {
    forall i, j, p | 0 <= i < j < |nodes| && 0 <= p < |nodes| && SameParent(nodes[i], nodes[j], p)
      ensures Ahead(g(nodes[p].id), nodes[i], nodes[j])
    {
      PlacedIsAhead(g(nodes[p].id), nodes[i], nodes[j]);
    }
  }

  lemma {:induction false} DropQueued(g: Graph, nodes: seq<Node>, pending: seq<Node>)
    requires Queued(g, nodes, nodes + pending) && pending != []
    ensures Queued(g, nodes, nodes + pending[1..])
  {
    var all, rest := nodes + pending, nodes + pending[1..];
    forall i, j, p | 0 <= i < j < |rest| && 0 <= p < |nodes| && SameParent(rest[i], rest[j], p)
      ensures Placed(Followed(g(nodes[p].id)), rest[i], rest[j])
    {
      var a, b := if i < |nodes| then i else i + 1, if j < |nodes| then j else j + 1;
      assert all[a] == rest[i] && all[b] == rest[j];
      assert SameParent(all[a], all[b], p);
    }
  }

  /** No listed or queued node has a parent that is not listed yet. */
  lemma {:induction false} ParentIsListed(g: Graph, root: Id, nodes: seq<Node>, pending: seq<Node>, i: nat)
    requires Shaped(g, root, nodes, pending) && i < |nodes + pending|
    ensures var node := (nodes + pending)[i]; node.parent.Some? ==> node.parent.value < |nodes|
  {
    if 0 < i < |nodes| {
      assert Anchored(g, nodes, i, nodes[i]);
    } else if nodes != [] && i >= |nodes| {
      assert Anchored(g, nodes, |nodes|, pending[i - |nodes|]);
    }
  }

  /** Every parent is among the first `limit` nodes. */
  ghost predicate Rooted(all: seq<Node>, limit: nat) {
    forall i :: 0 <= i < |all| && all[i].parent.Some? ==> all[i].parent.value < limit
  }

  /** The links of the newest node, in their order. */
  lemma {:induction false} QueuePlaced(links: seq<Link>, index: nat, k: nat, l: nat)
    requires k < l < |links|
    ensures Placed(links, Queue(links, index)[k], Queue(links, index)[l])
  {
    var queue := Queue(links, index);
    assert links[k] == Link(queue[k].id, queue[k].relation) && links[l] == Link(queue[l].id, queue[l].relation);
  }

  lemma {:induction false} QueueAppended(g: Graph, nodes: seq<Node>, before: seq<Node>, current: Node)
    requires Queued(g, nodes, before) && Rooted(before, |nodes|)
    ensures Queued(g, nodes + [current], before + Queue(Followed(g(current.id)), |nodes|))
  {
    var listed, links := nodes + [current], Followed(g(current.id));
    var queue := Queue(links, |nodes|);
    var all := before + queue;
    forall i, j, p | 0 <= i < j < |all| && 0 <= p < |listed| && SameParent(all[i], all[j], p)
      ensures Placed(Followed(g(listed[p].id)), all[i], all[j])
    {
      if j < |before| {
        assert all[i] == before[i] && all[j] == before[j] && SameParent(before[i], before[j], p);
        assert listed[p] == nodes[p];
      } else if i >= |before| {
        assert all[i] == queue[i - |before|] && all[j] == queue[j - |before|] && listed[p] == current;
        QueuePlaced(links, |nodes|, i - |before|, j - |before|);
      }
    }
  }

  lemma {:induction false} ListQueued(g: Graph, root: Id, nodes: seq<Node>, pending: seq<Node>)
    requires Shaped(g, root, nodes, pending) && pending != [] && Queued(g, nodes, nodes + pending)
    ensures var listed, links := nodes + [pending[0]], Followed(g(pending[0].id));
            Queued(g, listed, listed + (pending[1..] + Queue(links, |nodes|)))
  {
    forall i | 0 <= i < |nodes + pending| && (nodes + pending)[i].parent.Some?
      ensures (nodes + pending)[i].parent.value < |nodes|
    {
      ParentIsListed(g, root, nodes, pending, i);
    }
    QueueAppended(g, nodes, nodes + pending, pending[0]);
    Regroup(nodes, pending, Queue(Followed(g(pending[0].id)), |nodes|));
  }

  /** The whole loop invariant; `dropped` counts the queue entries that were already listed. */
  ghost predicate Searching(g: Graph, root: Id, nodes: seq<Node>, pending: seq<Node>, dropped: nat) {
    && Shaped(g, root, nodes, pending) && Queued(g, nodes, nodes + pending)
    && Reached(g, root, nodes) && Reached(g, root, pending)
    && Covered(g, nodes, pending)
    && Degree(g, nodes) + 1 == |nodes| + |pending| + dropped
  }

  lemma {:induction false} Begin(g: Graph, root: Id)
    ensures Searching(g, root, [], [Node(root, Root, None)], 0)
  {
    RootIsReachable(g, root);
  }

  lemma {:induction false} Drop(g: Graph, root: Id, nodes: seq<Node>, pending: seq<Node>, dropped: nat)
    requires Searching(g, root, nodes, pending, dropped) && pending != [] && pending[0].id in Ids(nodes)
    ensures Searching(g, root, nodes, pending[1..], dropped + 1)
  {
    DropShaped(g, root, nodes, pending);
    DropQueued(g, nodes, pending);
    DropCovered(g, nodes, pending);
  }

  lemma {:induction false} ListCounts(g: Graph, nodes: seq<Node>, current: Node)
    ensures Degree(g, nodes + [current]) == Degree(g, nodes) + |Followed(g(current.id))|
    ensures Ids(nodes + [current]) == Ids(nodes) + {current.id}
    ensures HasOversized(g, nodes + [current]) <==> HasOversized(g, nodes) || Oversized(g(current.id))
  {
    var listed := nodes + [current];
    assert listed[..|nodes|] == nodes && listed[|nodes|] == current;
    IdsConcat(nodes, [current]);
    assert [current][0].id in Ids([current]);
    if HasOversized(g, nodes) {
      var i :| 0 <= i < |nodes| && Oversized(g(nodes[i].id));
      assert listed[i] == nodes[i];
    }
  }

  lemma {:induction false} ListReached(g: Graph, root: Id, nodes: seq<Node>, pending: seq<Node>)
    requires Reached(g, root, nodes) && Reached(g, root, pending) && pending != []
    ensures Reached(g, root, nodes + [pending[0]])
    ensures Reached(g, root, pending[1..] + Queue(Followed(g(pending[0].id)), |nodes|))
  {
    assert Reachable(g, root, pending[0].id);
    QueueReached(g, root, pending[0].id, |nodes|);
  }

  lemma {:induction false} List(g: Graph, root: Id, nodes: seq<Node>, pending: seq<Node>, dropped: nat)
    requires Searching(g, root, nodes, pending, dropped) && pending != [] && pending[0].id !in Ids(nodes)
    ensures Searching(g, root, nodes + [pending[0]], pending[1..] + Queue(Followed(g(pending[0].id)), |nodes|), dropped)
  {
    ListShaped(g, root, nodes, pending);
    ListQueued(g, root, nodes, pending);
    ListCovered(g, nodes, pending);
    ListReached(g, root, nodes, pending);
    ListCounts(g, nodes, pending[0]);
  }

  ghost predicate HasOversized(g: Graph, nodes: seq<Node>) {
    exists i :: 0 <= i < |nodes| && Oversized(g(nodes[i].id))
  }

  /** Each node is listed once and, but for the root, under an earlier node that it is related to as
      it says, in breadth-first order and siblings in the order of their links. */
  ghost predicate Listing(g: Graph, root: Id, nodes: seq<Node>) {
    && nodes != [] && nodes[0] == Node(root, Root, None)
    && Apart(nodes) && Labelled(g, nodes) && Sorted(nodes) && InOrder(g, nodes)
    && Reached(g, root, nodes)
  }

  lemma {:induction false} ListingIsShaped(g: Graph, root: Id, nodes: seq<Node>, pending: seq<Node>)
    requires Shaped(g, root, nodes, pending)
    ensures Apart(nodes) && Labelled(g, nodes) && Sorted(nodes)
  {
    assert forall i :: 0 <= i < |nodes| ==> nodes[i] == (nodes + pending)[i];
    AnchoredIsLabelled(g, nodes);
  }

  lemma {:induction false} ListingIsInOrder(g: Graph, nodes: seq<Node>, pending: seq<Node>)
    requires Queued(g, nodes, nodes + pending)
    ensures InOrder(g, nodes)
  {
    var all := nodes + pending;
    forall i, j, p | 0 <= i < j < |nodes| && 0 <= p < |nodes| && SameParent(nodes[i], nodes[j], p)
      ensures Placed(Followed(g(nodes[p].id)), nodes[i], nodes[j])
    {
      assert all[i] == nodes[i] && all[j] == nodes[j] && SameParent(all[i], all[j], p);
    }
    QueuedIsInOrder(g, nodes);
  }

  lemma {:induction false} Finish(g: Graph, root: Id, nodes: seq<Node>, pending: seq<Node>, dropped: nat)
    requires Searching(g, root, nodes, pending, dropped) && (pending == [] || |nodes| > 0)
    ensures Listing(g, root, nodes)
    ensures pending == [] && !HasOversized(g, nodes) ==> forall id :: Reachable(g, root, id) ==> id in Ids(nodes)
    ensures pending == [] ==> (dropped > 0 <==> Degree(g, nodes) > |nodes| - 1)
  {
    ListingIsShaped(g, root, nodes, pending);
    ListingIsInOrder(g, nodes, pending);
    if pending == [] && !HasOversized(g, nodes) {
      forall id | Reachable(g, root, id)
        ensures id in Ids(nodes)
      {
        ListingIsComplete(g, root, nodes, id);
      }
    }
  }

  /** `exception_chain`: a bounded listing that is complete unless it says otherwise. A complete
      listing reports a repetition exactly when the followed links are not a tree. */
  method Chain(g: Graph, error: Option<Id>) returns (nodes: seq<Node>, truncated: bool, repeated: bool)
    ensures |nodes| <= 8
    ensures error.None? ==> nodes == [] && !truncated && !repeated
    ensures error.Some? ==> Listing(g, error.value, nodes)
    ensures error.Some? && !truncated ==> forall id :: Reachable(g, error.value, id) ==> id in Ids(nodes)
    ensures |nodes| < 8 ==> (truncated <==> HasOversized(g, nodes))
    ensures error.Some? && !truncated ==> (repeated <==> Degree(g, nodes) > |nodes| - 1)
  {
    nodes, repeated, truncated := [], false, false;
    if error.None? {
      return;
    }
    var root := error.value;
    var pending := [Node(root, Root, None)];
    var seen: set<Id> := {};
    ghost var dropped: nat := 0;
    Begin(g, root);
    while pending != [] && |nodes| < MAX_CHAIN
      invariant |nodes| <= MAX_CHAIN && seen == Ids(nodes)
      invariant Searching(g, root, nodes, pending, dropped)
      invariant truncated <==> HasOversized(g, nodes)
      invariant repeated <==> dropped > 0
      decreases MAX_CHAIN - |nodes|, |pending|
    {
      var current := pending[0];
      if current.id in seen {
        Drop(g, root, nodes, pending, dropped);
        pending := pending[1..];
        repeated := true;
        dropped := dropped + 1;
        continue;
      }
      List(g, root, nodes, pending, dropped);
      ListCounts(g, nodes, current);
      seen := seen + {current.id};
      truncated := truncated || Oversized(g(current.id));
      pending := pending[1..] + Queue(Followed(g(current.id)), |nodes|);
      nodes := nodes + [current];
    }
    Finish(g, root, nodes, pending, dropped);
    truncated := truncated || pending != [];
  }
}
