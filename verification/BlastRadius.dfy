/** The blast radius of a failure: the group of entities believed to be the same thing, and
    the entities a failure of that group reaches, each at its shortest distance. */
module BlastRadius {
  import opened Text
  import opened Model
  import opened Traversal
  import P = Projection
  import ChangeEngine
  import RelationOrder

  /** What a same_as edge says of the belief, when that is a number in [0,1]. */
  type Belief = Relation -> Option<real>

  const SAME_AS: Str := ChangeEngine.SAME_AS

  // ------------------------------------------------------------ groups

  /** A same_as relation believed at or above the threshold. */
  predicate Believed(g: P.Graph, belief: Belief, threshold: real, r: RelationId) {
    r in g.relations && r.typ == SAME_AS && belief(g.relations[r]).Some? && belief(g.relations[r]).value >= threshold
  }

  /** The relation says its ends are the same thing, as confidently as asked. */
  ghost predicate SameAs(g: P.Graph, belief: Belief, threshold: real, r: RelationId) {
    && r in g.relations && r.typ == Ascii("same_as")
    && exists c :: belief(g.relations[r]) == Some(c) && threshold <= c
  }

  lemma BelievedIsSameAs(g: P.Graph, belief: Belief, threshold: real, r: RelationId)
    ensures Believed(g, belief, threshold, r) <==> SameAs(g, belief, threshold, r)
  {
  }

  ghost predicate Aliased(g: P.Graph, belief: Belief, threshold: real, a: EntityId, b: EntityId) {
    exists r :: SameAs(g, belief, threshold, r) && ((r.src == a && r.dst == b) || (r.src == b && r.dst == a))
  }

  /** path leads from one entity to another over believed aliases. */
  ghost predicate AliasPath(g: P.Graph, belief: Belief, threshold: real, path: seq<EntityId>) {
    path != [] && forall i :: 0 <= i < |path| - 1 ==> Aliased(g, belief, threshold, path[i], path[i + 1])
  }

  /** The two are in the same connected component. */
  ghost predicate SameThing(g: P.Graph, belief: Belief, threshold: real, a: EntityId, b: EntityId) {
    exists path :: AliasPath(g, belief, threshold, path) && path[0] == a && path[|path| - 1] == b
  }

  lemma SameThingReflexive(g: P.Graph, belief: Belief, threshold: real, a: EntityId)
    ensures SameThing(g, belief, threshold, a, a)
  {
    assert AliasPath(g, belief, threshold, [a]);
  }

  lemma SameThingStep(g: P.Graph, belief: Belief, threshold: real, a: EntityId, b: EntityId, c: EntityId)
    requires SameThing(g, belief, threshold, a, b) && Aliased(g, belief, threshold, b, c)
    ensures SameThing(g, belief, threshold, a, c)
  {
    var path :| AliasPath(g, belief, threshold, path) && path[0] == a && path[|path| - 1] == b;
    var longer := path + [c];
    forall i | 0 <= i < |longer| - 1
      ensures Aliased(g, belief, threshold, longer[i], longer[i + 1])
    {
      if i < |path| - 1 {
        assert longer[i] == path[i] && longer[i + 1] == path[i + 1];
      }
    }
    assert AliasPath(g, belief, threshold, longer);
  }

  lemma {:induction false} SameThingAlong(g: P.Graph, belief: Belief, threshold: real, a: EntityId, path: seq<EntityId>)
    requires AliasPath(g, belief, threshold, path) && SameThing(g, belief, threshold, a, path[0])
    ensures SameThing(g, belief, threshold, a, path[|path| - 1])
  {
    if |path| > 1 {
      var n := |path| - 1;
      forall i | 0 <= i < n - 1
        ensures Aliased(g, belief, threshold, path[..n][i], path[..n][i + 1])
      {
        assert Aliased(g, belief, threshold, path[i], path[i + 1]);
      }
      SameThingAlong(g, belief, threshold, a, path[..n]);
      assert Aliased(g, belief, threshold, path[n - 1], path[n - 1 + 1]);
      SameThingStep(g, belief, threshold, a, path[n - 1], path[n]);
    }
  }

  lemma SameThingTransitive(g: P.Graph, belief: Belief, threshold: real, a: EntityId, b: EntityId, c: EntityId)
    requires SameThing(g, belief, threshold, a, b) && SameThing(g, belief, threshold, b, c)
    ensures SameThing(g, belief, threshold, a, c)
  {
    var path :| AliasPath(g, belief, threshold, path) && path[0] == b && path[|path| - 1] == c;
    SameThingAlong(g, belief, threshold, a, path);
  }

  lemma {:induction false} SameThingBack(g: P.Graph, belief: Belief, threshold: real, path: seq<EntityId>)
    requires AliasPath(g, belief, threshold, path)
    ensures SameThing(g, belief, threshold, path[|path| - 1], path[0])
  {
    if |path| == 1 {
      SameThingReflexive(g, belief, threshold, path[0]);
    } else {
      var rest := path[1..];
      forall i | 0 <= i < |rest| - 1
        ensures Aliased(g, belief, threshold, rest[i], rest[i + 1])
      {
        assert Aliased(g, belief, threshold, path[i + 1], path[i + 1 + 1]);
      }
      SameThingBack(g, belief, threshold, rest);
      assert Aliased(g, belief, threshold, path[0], path[0 + 1]);
      assert Aliased(g, belief, threshold, path[1], path[0]);
      SameThingStep(g, belief, threshold, path[|path| - 1], path[1], path[0]);
    }
  }

  lemma SameThingSymmetric(g: P.Graph, belief: Belief, threshold: real, a: EntityId, b: EntityId)
    requires SameThing(g, belief, threshold, a, b)
    ensures SameThing(g, belief, threshold, b, a)
  {
    var path :| AliasPath(g, belief, threshold, path) && path[0] == a && path[|path| - 1] == b;
    SameThingBack(g, belief, threshold, path);
  }

  /** group is root's connected component. */
  ghost predicate IsGroup(g: P.Graph, belief: Belief, threshold: real, root: EntityId, group: set<EntityId>) {
    forall x: EntityId :: x in group <==> SameThing(g, belief, threshold, root, x)
  }

  /** Asking for any member's group gives the same group. */
  lemma SameGroupFromAnyMember(g: P.Graph, belief: Belief, threshold: real, a: EntityId, b: EntityId,
                               ga: set<EntityId>, gb: set<EntityId>)
    requires IsGroup(g, belief, threshold, a, ga) && IsGroup(g, belief, threshold, b, gb) && b in ga
    ensures ga == gb
  {
    hide SameThing;
    SameThingSymmetric(g, belief, threshold, a, b);
    forall x: EntityId
      ensures x in ga <==> x in gb
    {
      if x in ga {
        SameThingTransitive(g, belief, threshold, b, a, x);
      }
      if x in gb {
        SameThingTransitive(g, belief, threshold, a, b, x);
      }
    }
  }

  /** A set that holds root and the aliases of its members holds root's whole group. */
  lemma {:induction false} ClosedHoldsGroup(g: P.Graph, belief: Belief, threshold: real, seen: set<EntityId>,
                                            path: seq<EntityId>)
    requires forall a, b :: a in seen && Aliased(g, belief, threshold, a, b) ==> b in seen
    requires AliasPath(g, belief, threshold, path) && path[0] in seen
    ensures path[|path| - 1] in seen
  {
    if |path| > 1 {
      var n := |path| - 1;
      forall i | 0 <= i < n - 1
        ensures Aliased(g, belief, threshold, path[..n][i], path[..n][i + 1])
      {
        assert Aliased(g, belief, threshold, path[i], path[i + 1]);
      }
      ClosedHoldsGroup(g, belief, threshold, seen, path[..n]);
      assert Aliased(g, belief, threshold, path[n - 1], path[n - 1 + 1]);
    }
  }

  lemma ClosedIsGroup(g: P.Graph, belief: Belief, threshold: real, root: EntityId, seen: set<EntityId>)
    requires root in seen
    requires forall a, b :: a in seen && Aliased(g, belief, threshold, a, b) ==> b in seen
    requires forall a :: a in seen ==> SameThing(g, belief, threshold, root, a)
    ensures IsGroup(g, belief, threshold, root, seen)
  {
    forall x: EntityId | SameThing(g, belief, threshold, root, x)
      ensures x in seen
    {
      var path :| AliasPath(g, belief, threshold, path) && path[0] == root && path[|path| - 1] == x;
      ClosedHoldsGroup(g, belief, threshold, seen, path);
    }
  }

  /** Where relations join live entities, the whole group of a live entity is live. */
  lemma GroupIsLive(g: P.Graph, belief: Belief, threshold: real, root: EntityId, group: set<EntityId>)
    requires IsGroup(g, belief, threshold, root, group) && root in P.Live(g)
    requires forall r :: r in g.relations ==> r.src in P.Live(g) && r.dst in P.Live(g)
    ensures forall x :: x in group ==> x in P.Live(g)
  {
    forall x | x in group
      ensures x in P.Live(g)
    {
      var path :| AliasPath(g, belief, threshold, path) && path[0] == root && path[|path| - 1] == x;
      ClosedHoldsGroup(g, belief, threshold, P.Live(g).Keys, path);
    }
  }

  // ------------------------------------------------------------ the walk

  /** Every entity a relation names, and the root: the walk stays among them. */
  function Named(g: P.Graph, root: EntityId): set<EntityId> {
    {root} + (set r | r in g.relations :: r.src) + (set r | r in g.relations :: r.dst)
  }

  /** The walk so far: the members found, the first n of them fully explored. */
  ghost predicate Walking(g: P.Graph, belief: Belief, threshold: real, root: EntityId, members: seq<EntityId>, n: nat) {
    && members != [] && members[0] == root && n <= |members|
    && (forall i, j :: 0 <= i < j < |members| ==> members[i] != members[j])
    && (forall i :: 0 <= i < |members| ==>
          SameThing(g, belief, threshold, root, members[i]) && members[i] in Named(g, root))
    && (forall i, b :: 0 <= i < n && Aliased(g, belief, threshold, members[i], b) ==> b in members)
  }

  /** The edges of cur explored so far have all their far ends among the members. */
  ghost predicate Explored(g: P.Graph, belief: Belief, threshold: real, rels: seq<RelationId>, k: nat, cur: EntityId,
                           members: seq<EntityId>) {
    k <= |rels| && forall i :: 0 <= i < k && Believed(g, belief, threshold, rels[i]) ==> Far(rels[i], cur) in members
  }

  function Far(r: RelationId, cur: EntityId): EntityId {
    if r.dst == cur then r.src else r.dst
  }

  lemma FarAliased(g: P.Graph, belief: Belief, threshold: real, r: RelationId, cur: EntityId)
    requires Believed(g, belief, threshold, r) && Touches(r, cur)
    ensures Aliased(g, belief, threshold, cur, Far(r, cur))
  {
  }

  lemma WalkFinds(g: P.Graph, belief: Belief, threshold: real, root: EntityId, members: seq<EntityId>, n: nat,
                  r: RelationId)
    requires Walking(g, belief, threshold, root, members, n) && n < |members|
    requires Believed(g, belief, threshold, r) && Touches(r, members[n]) && Far(r, members[n]) !in members
    ensures Walking(g, belief, threshold, root, members + [Far(r, members[n])], n)
  {
    hide SameThing;
    var x := Far(r, members[n]);
    FarAliased(g, belief, threshold, r, members[n]);
    SameThingStep(g, belief, threshold, root, members[n], x);
  }

  lemma WalkExplores(g: P.Graph, belief: Belief, threshold: real, root: EntityId, members: seq<EntityId>, n: nat,
                     rels: seq<RelationId>)
    requires Walking(g, belief, threshold, root, members, n) && n < |members|
    requires forall r :: r in rels <==> Incident(g, members[n], SAME_AS, r)
    requires Explored(g, belief, threshold, rels, |rels|, members[n], members)
    ensures Walking(g, belief, threshold, root, members, n + 1)
  {
    forall b | Aliased(g, belief, threshold, members[n], b)
      ensures b in members
    {
      var r :| SameAs(g, belief, threshold, r) &&
        ((r.src == members[n] && r.dst == b) || (r.src == b && r.dst == members[n]));
      BelievedIsSameAs(g, belief, threshold, r);
      assert r in rels;
      var i :| 0 <= i < |rels| && rels[i] == r;
      assert Far(r, members[n]) == b;
    }
  }

  lemma WalkDone(g: P.Graph, belief: Belief, threshold: real, root: EntityId, members: seq<EntityId>)
    requires Walking(g, belief, threshold, root, members, |members|)
    ensures IsGroup(g, belief, threshold, root, SetOf(members))
  {
    hide SameThing, Aliased;
    ClosedIsGroup(g, belief, threshold, root, SetOf(members));
  }

  lemma WalkBounded(g: P.Graph, belief: Belief, threshold: real, root: EntityId, members: seq<EntityId>, n: nat)
    requires Walking(g, belief, threshold, root, members, n)
    ensures |members| <= |Named(g, root)|
  {
    DistinctBounded(members, Named(g, root));
  }

  lemma {:induction false} DistinctBounded(s: seq<EntityId>, all: set<EntityId>)
    requires forall i, j :: 0 <= i < j < |s| ==> s[i] != s[j]
    requires forall i :: 0 <= i < |s| ==> s[i] in all
    ensures |s| <= |all|
  {
    if s != [] {
      var n := |s| - 1;
      DistinctBounded(s[..n], all - {s[n]});
    }
  }

  lemma WalkingAt(g: P.Graph, belief: Belief, threshold: real, root: EntityId, members: seq<EntityId>, n: nat)
    requires Walking(g, belief, threshold, root, members, n)
    ensures n <= |members| && members != []
  {
  }

  lemma ExploredNone(g: P.Graph, belief: Belief, threshold: real, rels: seq<RelationId>, cur: EntityId,
                     members: seq<EntityId>)
    ensures Explored(g, belief, threshold, rels, 0, cur, members)
  {
  }

  lemma ExploredOne(g: P.Graph, belief: Belief, threshold: real, rels: seq<RelationId>, k: nat, cur: EntityId,
                    members: seq<EntityId>, more: seq<EntityId>)
    requires Explored(g, belief, threshold, rels, k, cur, members) && k < |rels|
    requires |members| <= |more| && more[..|members|] == members
    requires Believed(g, belief, threshold, rels[k]) ==> Far(rels[k], cur) in more
    ensures Explored(g, belief, threshold, rels, k + 1, cur, more)
  {
    assert forall x :: x in members ==> x in more;
  }

  /** The links are the believed edges at the first n members. */
  ghost predicate Supporting(g: P.Graph, belief: Belief, threshold: real, members: seq<EntityId>, n: nat,
                             links: set<RelationId>) {
    n <= |members| && forall r :: r in links <==> Believed(g, belief, threshold, r) && TouchesFirst(r, members, n)
  }

  ghost predicate TouchesFirst(r: RelationId, members: seq<EntityId>, n: nat)
    requires n <= |members|
  {
    exists i :: 0 <= i < n && Touches(r, members[i])
  }

  lemma SupportingNext(g: P.Graph, belief: Belief, threshold: real, members: seq<EntityId>, n: nat, more: seq<EntityId>,
                       rels: seq<RelationId>, links: set<RelationId>, next: set<RelationId>)
    requires Supporting(g, belief, threshold, members, n, links) && n < |members| <= |more|
    requires more[..|members|] == members
    requires forall r :: r in rels <==> Incident(g, members[n], SAME_AS, r)
    requires forall r :: r in next <==> r in links || (Believed(g, belief, threshold, r) && r in rels)
    ensures Supporting(g, belief, threshold, more, n + 1, next)
  {
    assert forall i :: 0 <= i < |members| ==> more[i] == members[i];
    forall r | Believed(g, belief, threshold, r)
      ensures TouchesFirst(r, more, n + 1) <==> TouchesFirst(r, members, n) || r in rels
    {
      if i :| 0 <= i < n && Touches(r, members[i]) {
        assert Touches(r, more[i]);
      }
      if r in rels {
        assert Touches(r, more[n]);
      }
      if i :| 0 <= i < n + 1 && Touches(r, more[i]) {
        assert Touches(r, members[i]);
      }
    }
  }

  lemma SupportingAll(g: P.Graph, belief: Belief, threshold: real, root: EntityId, members: seq<EntityId>,
                      links: set<RelationId>)
    requires Walking(g, belief, threshold, root, members, |members|)
    requires Supporting(g, belief, threshold, members, |members|, links)
    ensures forall r :: r in links <==> Believed(g, belief, threshold, r) && r.src in members && r.dst in members
  {
    hide SameThing;
    forall r | Believed(g, belief, threshold, r)
      ensures TouchesFirst(r, members, |members|) <==> r.src in members && r.dst in members
    {
      assert Aliased(g, belief, threshold, r.src, r.dst) && Aliased(g, belief, threshold, r.dst, r.src);
      if r.src in members {
        var i :| 0 <= i < |members| && members[i] == r.src;
        assert Touches(r, members[i]);
      }
      if i :| 0 <= i < |members| && Touches(r, members[i]) {
        assert members[i] == r.src || members[i] == r.dst;
      }
    }
  }

  /** Explore one member's edges, adding the aliases not yet found and noting the links. */
  method Explore(g: P.Graph, belief: Belief, threshold: real, ghost root: EntityId, members: seq<EntityId>, n: nat,
                 links: set<RelationId>)
    returns (more: seq<EntityId>, next: set<RelationId>)
    requires P.AdjacencyExact(g.relations, g.outs, g.ins) && Walking(g, belief, threshold, root, members, n) &&
      n < |members|
    requires Supporting(g, belief, threshold, members, n, links)
    ensures Walking(g, belief, threshold, root, more, n + 1) && |members| <= |more| && more[..|members|] == members
    ensures Supporting(g, belief, threshold, more, n + 1, next)
  {
    hide Walking, SameThing, P.AdjacencyExact, Believed, Explored, Supporting;
    next := links;
    WalkingAt(g, belief, threshold, root, members, n);
    more := members;
    var cur := members[n];
    var rels := RelationsTouching(g, cur, SAME_AS);
    ExploredNone(g, belief, threshold, rels, cur, more);
    for k := 0 to |rels|
      invariant Walking(g, belief, threshold, root, more, n) && n < |more| && more[n] == cur
      invariant |members| <= |more| && more[..|members|] == members
      invariant Explored(g, belief, threshold, rels, k, cur, more)
      invariant forall r :: r in next <==> r in links || (Believed(g, belief, threshold, r) && r in rels[..k])
    {
      assert rels[k] in rels;
      assert rels[..k + 1] == rels[..k] + [rels[k]];
      ghost var was := more;
      if Believed(g, belief, threshold, rels[k]) {
        next := next + {rels[k]};
      }
      var other := if rels[k].dst != cur then rels[k].dst else rels[k].src;
      if Believed(g, belief, threshold, rels[k]) && other !in more {
        WalkFinds(g, belief, threshold, root, more, n, rels[k]);
        more := more + [other];
      }
      ExploredOne(g, belief, threshold, rels, k, cur, was, more);
    }
    WalkExplores(g, belief, threshold, root, more, n, rels);
    assert rels[..|rels|] == rels;
    SupportingNext(g, belief, threshold, members, n, more, rels, links, next);
  }

  /** The canonical group of root: itself first, then everything believed to be the same
      thing -- exactly its connected component, each entity once -- and the believed edges
      within it, each once, by endpoint. */
  method Walk(g: P.Graph, belief: Belief, threshold: real, root: EntityId)
    returns (members: seq<EntityId>, links: seq<RelationId>)
    requires P.AdjacencyExact(g.relations, g.outs, g.ins)
    ensures forall r :: r in links <==> SameAs(g, belief, threshold, r) && r.src in members && r.dst in members
    ensures RelationOrder.InOrder(links)
    ensures members != [] && members[0] == root
    ensures forall i, j :: 0 <= i < j < |members| ==> members[i] != members[j]
    ensures IsGroup(g, belief, threshold, root, SetOf(members))
  {
    hide Walking, IsGroup, SameThing, P.AdjacencyExact, Supporting, Believed, SameAs, RelationOrder.InOrder,
         RelationOrder.Sorted;
    var found;
    members, found := Gather(g, belief, threshold, root);
    WalkingDistinct(g, belief, threshold, root, members, |members|);
    WalkDone(g, belief, threshold, root, members);
    SupportingAll(g, belief, threshold, root, members, found);
    forall r
      ensures Believed(g, belief, threshold, r) <==> SameAs(g, belief, threshold, r)
    {
      BelievedIsSameAs(g, belief, threshold, r);
    }
    RelationOrder.SortedInOrder(found);
    links := RelationOrder.Sorted(found);
  }

  /** Explore members as they are found, until none is left. */
  method Gather(g: P.Graph, belief: Belief, threshold: real, root: EntityId)
    returns (members: seq<EntityId>, found: set<RelationId>)
    requires P.AdjacencyExact(g.relations, g.outs, g.ins)
    ensures Walking(g, belief, threshold, root, members, |members|)
    ensures Supporting(g, belief, threshold, members, |members|, found)
  {
    hide Walking, SameThing, P.AdjacencyExact, Supporting, Believed;
    members := [root];
    StartWalking(g, belief, threshold, root);
    NothingSupports(g, belief, threshold, members);
    var n := 0;
    found := {};
    while n < |members|
      invariant Walking(g, belief, threshold, root, members, n)
      invariant Supporting(g, belief, threshold, members, n, found)
      decreases |Named(g, root)| - n
    {
      WalkBounded(g, belief, threshold, root, members, n);
      members, found := Explore(g, belief, threshold, root, members, n, found);
      n := n + 1;
    }
    WalkingAt(g, belief, threshold, root, members, n);
  }

  lemma NothingSupports(g: P.Graph, belief: Belief, threshold: real, members: seq<EntityId>)
    ensures Supporting(g, belief, threshold, members, 0, {})
  {
  }

  lemma StartWalking(g: P.Graph, belief: Belief, threshold: real, root: EntityId)
    ensures Walking(g, belief, threshold, root, [root], 0)
  {
    SameThingReflexive(g, belief, threshold, root);
  }

  lemma WalkingDistinct(g: P.Graph, belief: Belief, threshold: real, root: EntityId, members: seq<EntityId>, n: nat)
    requires Walking(g, belief, threshold, root, members, n)
    ensures members != [] && members[0] == root && forall i, j :: 0 <= i < j < |members| ==> members[i] != members[j]
  {
    hide SameThing;
  }

  // ------------------------------------------------------------ propagation

  datatype Flow = Both | ToFrom | FromTo | Neither

  /** The direction in which a failure crosses each relation type; an unregistered type
      carries it both ways. */
  type Flows = map<Str, Flow>

  predicate Propagates(flows: Flows, r: RelationId, failed: EntityId) {
    match if r.typ in flows then flows[r.typ] else Both
    case ToFrom => r.dst == failed
    case FromTo => r.src == failed
    case Neither => false
    case Both => true
  }

  /** The relation carries a failure of a to b: from its source to its target, the other way
      round, either way, or not at all, as its type says. */
  ghost predicate Carries(flows: Flows, r: RelationId, a: EntityId, b: EntityId) {
    var along, against := r.src == a && r.dst == b, r.dst == a && r.src == b;
    if r.typ !in flows then along || against
    else
      match flows[r.typ]
      case FromTo => along
      case ToFrom => against
      case Both => along || against
      case Neither => false
  }

  /** A failure of a reaches b across one relation to a live entity. */
  ghost predicate Reaches(g: P.Graph, flows: Flows, a: EntityId, b: EntityId) {
    b in P.Live(g) && exists r :: r in g.relations && Carries(flows, r, a, b)
  }

  /** The edges the search follows are those that carry the failure. */
  lemma FollowsCarriers(g: P.Graph, flows: Flows, a: EntityId, e: Edge)
    requires Leads(g, a, [], e)
    ensures Propagates(flows, e.rel, a) <==> Carries(flows, e.rel, a, e.other)
    ensures Propagates(flows, e.rel, a) ==> Reaches(g, flows, a, e.other)
  {
  }

  lemma CarrierLeads(g: P.Graph, flows: Flows, r: RelationId, a: EntityId, b: EntityId)
    requires r in g.relations && Carries(flows, r, a, b) && b in P.Live(g)
    ensures Leads(g, a, [], EdgeFrom(r, a)) && EdgeFrom(r, a).other == b
  {
  }

  /** A failure of the group reaches y in exactly n hops. */
  ghost predicate Hops(g: P.Graph, flows: Flows, group: set<EntityId>, n: nat, y: EntityId) {
    if n == 0 then y in group else exists x: EntityId :: Hops(g, flows, group, n - 1, x) && Reaches(g, flows, x, y)
  }

  /** The shortest propagation distance of y from the group is n. */
  ghost predicate Distance(g: P.Graph, flows: Flows, group: set<EntityId>, y: EntityId, n: nat) {
    Hops(g, flows, group, n, y) && forall m: nat :: m < n ==> !Hops(g, flows, group, m, y)
  }

  ghost predicate WithinHops(g: P.Graph, flows: Flows, group: set<EntityId>, n: nat, y: EntityId) {
    exists m: nat :: m <= n && Hops(g, flows, group, m, y)
  }

  datatype Impact = Impact(id: EntityId, depth: nat, via: RelationId)

  /** Impacts found by level d, and the entities visited: everything within d hops. */
  ghost predicate Levelled(g: P.Graph, flows: Flows, group: set<EntityId>, d: nat, visited: set<EntityId>,
                           frontier: seq<EntityId>, impacted: seq<Impact>)
  {
    && (forall y: EntityId :: y in visited <==> WithinHops(g, flows, group, d, y))
    && (forall y: EntityId :: y in frontier <==> Distance(g, flows, group, y, d))
    && Reported(g, flows, group, d, impacted)
    && (forall y: EntityId :: y in visited && y !in group ==> Mentions(impacted, y))
  }

  ghost predicate Mentions(impacted: seq<Impact>, y: EntityId) {
    exists i :: 0 <= i < |impacted| && impacted[i].id == y
  }

  /** Each report is at the entity's shortest distance, outside the group, along an edge from
      an entity one hop nearer, and no entity is reported twice. */
  ghost predicate Reported(g: P.Graph, flows: Flows, group: set<EntityId>, d: nat, impacted: seq<Impact>) {
    && (forall i :: 0 <= i < |impacted| ==> GoodReport(g, flows, group, d, impacted[i]))
    && (forall i, j :: 0 <= i < j < |impacted| ==> impacted[i].id != impacted[j].id)
  }

  ghost predicate GoodReport(g: P.Graph, flows: Flows, group: set<EntityId>, d: nat, p: Impact) {
    && 1 <= p.depth <= d && p.id in P.Live(g) && Distance(g, flows, group, p.id, p.depth)
    && p.via in g.relations
    && exists x: EntityId :: Hops(g, flows, group, p.depth - 1, x) && Carries(flows, p.via, x, p.id)
  }

  // One level of the search.

  /** Half-way through a level: the first k frontier entities are done. */
  ghost predicate HalfLevel(g: P.Graph, flows: Flows, group: set<EntityId>, d: nat, before: set<EntityId>,
                            visited: set<EntityId>,
                            next: seq<EntityId>, impacted: seq<Impact>)
  {
    && (forall y :: y in visited <==> y in before || y in next)
    && (forall y :: y in next ==> y !in before && Hops(g, flows, group, d + 1, y))
    && Reported(g, flows, group, d + 1, impacted)
    && (forall y: EntityId :: y in visited && y !in group ==> Mentions(impacted, y))
    && (forall i :: 0 <= i < |impacted| ==> impacted[i].id in visited)
  }

  /** Everything one hop from the first k frontier entities is visited. */
  ghost predicate Spread(g: P.Graph, flows: Flows, frontier: seq<EntityId>, k: nat, visited: set<EntityId>) {
    k <= |frontier| && forall i, y :: 0 <= i < k && Reaches(g, flows, frontier[i], y) ==> y in visited
  }

  ghost predicate SpreadEdges(flows: Flows, edges: seq<Edge>, k: nat, cur: EntityId, visited: set<EntityId>) {
    k <= |edges| && forall i :: 0 <= i < k && Propagates(flows, edges[i].rel, cur) ==> edges[i].other in visited
  }

  lemma NewIsAtNextLevel(g: P.Graph, flows: Flows, group: set<EntityId>, d: nat, before: set<EntityId>, y: EntityId)
    requires forall z: EntityId :: z in before <==> WithinHops(g, flows, group, d, z)
    requires y !in before && Hops(g, flows, group, d + 1, y)
    ensures Distance(g, flows, group, y, d + 1)
  {
    forall m: nat | m < d + 1
      ensures !Hops(g, flows, group, m, y)
    {
    }
  }

  lemma ReportOne(g: P.Graph, flows: Flows, group: set<EntityId>, d: nat, before: set<EntityId>, visited: set<EntityId>,
                  next: seq<EntityId>, impacted: seq<Impact>, cur: EntityId, e: Edge)
    requires HalfLevel(g, flows, group, d, before, visited, next, impacted)
    requires forall z: EntityId :: z in before <==> WithinHops(g, flows, group, d, z)
    requires Hops(g, flows, group, d, cur) && Leads(g, cur, [], e) && Propagates(flows, e.rel, cur) &&
      e.other !in visited
    ensures HalfLevel(g, flows, group, d, before, visited + {e.other}, next + [e.other],
      impacted + [Impact(e.other, d + 1, e.rel)])
  {
    hide Hops, Leads, Propagates, GoodReport, Mentions, WithinHops;
    var y := e.other;
    OneMoreHop(g, flows, group, d, cur, e);
    var p := Impact(y, d + 1, e.rel);
    NewReport(g, flows, group, d, before, cur, e);
    var all := impacted + [p];
    forall z: EntityId | z in visited + {y} && z !in group
      ensures Mentions(all, z)
    {
      MentionsMore(impacted, p, z);
    }
  }

  lemma NewReport(g: P.Graph, flows: Flows, group: set<EntityId>, d: nat, before: set<EntityId>, cur: EntityId, e: Edge)
    requires forall z: EntityId :: z in before <==> WithinHops(g, flows, group, d, z)
    requires Hops(g, flows, group, d, cur) && Leads(g, cur, [], e) && Propagates(flows, e.rel, cur)
    requires e.other !in before
    ensures GoodReport(g, flows, group, d + 1, Impact(e.other, d + 1, e.rel))
  {
    FollowsCarriers(g, flows, cur, e);
    assert e.rel in g.relations;
    OneMoreHop(g, flows, group, d, cur, e);
    EdgeLive(g, cur, e);
    NewIsAtNextLevel(g, flows, group, d, before, e.other);
    hide Hops, Leads, Propagates, Carries, Distance, WithinHops;
  }

  lemma MentionsMore(impacted: seq<Impact>, p: Impact, z: EntityId)
    requires z == p.id || Mentions(impacted, z)
    ensures Mentions(impacted + [p], z)
  {
    var all := impacted + [p];
    if z == p.id {
      assert all[|impacted|].id == z;
    } else {
      var i :| 0 <= i < |impacted| && impacted[i].id == z;
      assert all[i].id == z;
    }
  }

  lemma OneMoreHop(g: P.Graph, flows: Flows, group: set<EntityId>, d: nat, cur: EntityId, e: Edge)
    requires Hops(g, flows, group, d, cur) && Leads(g, cur, [], e) && Propagates(flows, e.rel, cur)
    ensures Hops(g, flows, group, d + 1, e.other)
  {
    FollowsCarriers(g, flows, cur, e);
  }

  lemma EdgeLive(g: P.Graph, cur: EntityId, e: Edge)
    requires Leads(g, cur, [], e)
    ensures e.other in P.Live(g) && e == EdgeFrom(e.rel, cur)
  {
  }

  /** Follow the edges of one frontier entity. */
  method SpreadFrom(g: P.Graph, flows: Flows, ghost group: set<EntityId>, d: nat, ghost before: set<EntityId>,
                    cur: EntityId,
                    visited0: set<EntityId>, next0: seq<EntityId>, impacted0: seq<Impact>)
    returns (visited: set<EntityId>, next: seq<EntityId>, impacted: seq<Impact>)
    requires P.AdjacencyExact(g.relations, g.outs, g.ins) && Hops(g, flows, group, d, cur)
    requires HalfLevel(g, flows, group, d, before, visited0, next0, impacted0)
    requires forall z: EntityId :: z in before <==> WithinHops(g, flows, group, d, z)
    ensures HalfLevel(g, flows, group, d, before, visited, next, impacted) && visited0 <= visited
    ensures forall y :: Reaches(g, flows, cur, y) ==> y in visited
  {
    hide HalfLevel, Hops, WithinHops, P.AdjacencyExact, SpreadEdges, Leads, Reaches, Propagates;
    visited, next, impacted := visited0, next0, impacted0;
    var edges := EdgesOf(g, cur, []);
    SpreadNone(flows, edges, cur, visited);
    for i := 0 to |edges|
      invariant HalfLevel(g, flows, group, d, before, visited, next, impacted) && visited0 <= visited
      invariant SpreadEdges(flows, edges, i, cur, visited)
    {
      var e := edges[i];
      assert e in edges;
      ghost var was := visited;
      if Propagates(flows, e.rel, cur) && e.other !in visited {
        ReportOne(g, flows, group, d, before, visited, next, impacted, cur, e);
        visited := visited + {e.other};
        next := next + [e.other];
        impacted := impacted + [Impact(e.other, d + 1, e.rel)];
      }
      SpreadOne(flows, edges, i, cur, was, visited);
    }
    SpreadDone(g, flows, edges, cur, visited);
  }

  lemma SpreadNone(flows: Flows, edges: seq<Edge>, cur: EntityId, visited: set<EntityId>)
    ensures SpreadEdges(flows, edges, 0, cur, visited)
  {
  }

  lemma SpreadOne(flows: Flows, edges: seq<Edge>, k: nat, cur: EntityId, visited: set<EntityId>, more: set<EntityId>)
    requires SpreadEdges(flows, edges, k, cur, visited) && k < |edges| && visited <= more
    requires Propagates(flows, edges[k].rel, cur) ==> edges[k].other in more
    ensures SpreadEdges(flows, edges, k + 1, cur, more)
  {
  }

  lemma SpreadDone(g: P.Graph, flows: Flows, edges: seq<Edge>, cur: EntityId, visited: set<EntityId>)
    requires SpreadEdges(flows, edges, |edges|, cur, visited) && forall e :: Leads(g, cur, [], e) ==> e in edges
    ensures forall y :: Reaches(g, flows, cur, y) ==> y in visited
  {
    forall y | Reaches(g, flows, cur, y)
      ensures y in visited
    {
      var r :| r in g.relations && Carries(flows, r, cur, y);
      CarrierLeads(g, flows, r, cur, y);
      var e := EdgeFrom(r, cur);
      FollowsCarriers(g, flows, cur, e);
      var i :| 0 <= i < |edges| && edges[i] == e;
    }
  }

  lemma NextLevel(g: P.Graph, flows: Flows, group: set<EntityId>, d: nat, before: set<EntityId>, visited: set<EntityId>,
                  frontier: seq<EntityId>, next: seq<EntityId>, impacted: seq<Impact>)
    requires HalfLevel(g, flows, group, d, before, visited, next, impacted) &&
      Spread(g, flows, frontier, |frontier|, visited)
    requires forall z: EntityId :: z in before <==> WithinHops(g, flows, group, d, z)
    requires forall z: EntityId :: z in frontier <==> Distance(g, flows, group, z, d)
    ensures Levelled(g, flows, group, d + 1, visited, next, impacted)
  {
    forall y: EntityId
      ensures y in visited <==> WithinHops(g, flows, group, d + 1, y)
      ensures y in next <==> Distance(g, flows, group, y, d + 1)
    {
      if y in next {
        NewIsAtNextLevel(g, flows, group, d, before, y);
      }
      if y in before {
        var m: nat :| m <= d && Hops(g, flows, group, m, y);
      }
      if Hops(g, flows, group, d + 1, y) {
        ReachedIsVisited(g, flows, group, d, before, visited, frontier, y);
      }
    }
  }

  /** What is one hop from depth d is visited: a predecessor at depth d is on the frontier,
      and a nearer one was already passed. */
  lemma ReachedIsVisited(g: P.Graph, flows: Flows, group: set<EntityId>, d: nat, before: set<EntityId>,
                         visited: set<EntityId>,
                         frontier: seq<EntityId>, y: EntityId)
    requires before <= visited && Spread(g, flows, frontier, |frontier|, visited) && Hops(g, flows, group, d + 1, y)
    requires forall z: EntityId :: z in before <==> WithinHops(g, flows, group, d, z)
    requires forall z: EntityId :: z in frontier <==> Distance(g, flows, group, z, d)
    ensures y in visited
  {
    var x: EntityId :| Hops(g, flows, group, d, x) && Reaches(g, flows, x, y);
    if m: nat :| m < d && Hops(g, flows, group, m, x) {
      assert Hops(g, flows, group, m + 1, y);
      assert WithinHops(g, flows, group, d, y);
    } else {
      assert Distance(g, flows, group, x, d);
      var i :| 0 <= i < |frontier| && frontier[i] == x;
    }
  }

  lemma LevelZero(g: P.Graph, flows: Flows, group: set<EntityId>, frontier: seq<EntityId>)
    requires forall y :: y in frontier <==> y in group
    ensures Levelled(g, flows, group, 0, group, frontier, [])
  {
    forall y: EntityId
      ensures y in group <==> WithinHops(g, flows, group, 0, y)
      ensures y in group <==> Distance(g, flows, group, y, 0)
    {
      assert Hops(g, flows, group, 0, y) <==> y in group;
    }
  }

  /** When a level adds nothing, nothing further is reachable. */
  lemma {:induction false} NothingBeyond(g: P.Graph, flows: Flows, group: set<EntityId>, d: nat, n: nat, y: EntityId)
    requires (forall z: EntityId :: !Distance(g, flows, group, z, d)) && Hops(g, flows, group, n, y) && d <= n
    ensures WithinHops(g, flows, group, d, y)
    decreases n
  {
    if n == d {
      assert WithinHops(g, flows, group, d, y);
    } else {
      var x: EntityId :| Hops(g, flows, group, n - 1, x) && Reaches(g, flows, x, y);
      NothingBeyond(g, flows, group, d, n - 1, x);
      var m := LeastHops(g, flows, group, d, x);
      assert m < d;
      assert Hops(g, flows, group, m + 1, y);
    }
  }

  lemma {:induction false} LeastHops(g: P.Graph, flows: Flows, group: set<EntityId>, d: nat, x: EntityId)
    returns (m: nat)
    requires WithinHops(g, flows, group, d, x)
    ensures m <= d && Distance(g, flows, group, x, m)
  {
    m :| m <= d && Hops(g, flows, group, m, x);
    if k: nat :| k < m && Hops(g, flows, group, k, x) {
      m := LeastHops(g, flows, group, k, x);
    }
  }

  lemma NoFurther(g: P.Graph, flows: Flows, group: set<EntityId>, d: nat, y: EntityId, n: nat)
    requires (forall z: EntityId :: !Distance(g, flows, group, z, d)) && Distance(g, flows, group, y, n)
    ensures n < d
  {
    if d <= n {
      NothingBeyond(g, flows, group, d, n, y);
      var m := LeastHops(g, flows, group, d, y);
    }
  }

  const MAX_DEPTH: nat := 10

  function ClampDepth(d: int): (r: nat)
    ensures 1 <= r <= MAX_DEPTH && (1 <= d <= MAX_DEPTH ==> r == d) && (d < 1 || d > MAX_DEPTH ==> r == MAX_DEPTH)
  {
    if d <= 0 || d > MAX_DEPTH then MAX_DEPTH else d
  }

  /** The reported impacts are exactly the entities at distance 1 to depth of the group. */
  ghost predicate ExactImpact(g: P.Graph, flows: Flows, group: set<EntityId>, depth: nat, impacted: seq<Impact>) {
    && Reported(g, flows, group, depth, impacted)
    && (forall y: EntityId, n: nat :: 1 <= n <= depth && Distance(g, flows, group, y, n) ==> Mentions(impacted, y))
  }

  lemma LevelsExact(g: P.Graph, flows: Flows, group: set<EntityId>, depth: nat, d: nat, visited: set<EntityId>,
                    frontier: seq<EntityId>, impacted: seq<Impact>)
    requires Levelled(g, flows, group, d, visited, frontier, impacted) && d <= depth && (d == depth || frontier == [])
    ensures ExactImpact(g, flows, group, depth, impacted)
  {
    forall i | 0 <= i < |impacted|
      ensures GoodReport(g, flows, group, depth, impacted[i])
    {
      assert GoodReport(g, flows, group, d, impacted[i]);
    }
    forall y: EntityId, n: nat | 1 <= n <= depth && Distance(g, flows, group, y, n)
      ensures Mentions(impacted, y)
    {
      if d < depth {
        NoFurther(g, flows, group, d, y, n);
      }
      assert WithinHops(g, flows, group, d, y);
      assert !Hops(g, flows, group, 0, y);
    }
  }

  /** One whole level. */
  method Level(g: P.Graph, flows: Flows, ghost group: set<EntityId>, d: nat, visited0: set<EntityId>,
               frontier: seq<EntityId>, impacted0: seq<Impact>)
    returns (visited: set<EntityId>, next: seq<EntityId>, impacted: seq<Impact>)
    requires P.AdjacencyExact(g.relations, g.outs, g.ins) && Levelled(g, flows, group, d, visited0, frontier, impacted0)
    ensures Levelled(g, flows, group, d + 1, visited, next, impacted)
  {
    hide HalfLevel, WithinHops, Reaches, Reported, Mentions, P.AdjacencyExact, Hops;
    visited, next, impacted := visited0, [], impacted0;
    StartLevel(g, flows, group, d, visited0, frontier, impacted0);
    for k := 0 to |frontier|
      invariant HalfLevel(g, flows, group, d, visited0, visited, next, impacted)
      invariant Spread(g, flows, frontier, k, visited)
    {
      assert frontier[k] in frontier;
      visited, next, impacted := SpreadFrom(g, flows, group, d, visited0, frontier[k], visited, next, impacted);
    }
    NextLevel(g, flows, group, d, visited0, visited, frontier, next, impacted);
  }

  lemma StartLevel(g: P.Graph, flows: Flows, group: set<EntityId>, d: nat, visited: set<EntityId>,
                   frontier: seq<EntityId>, impacted: seq<Impact>)
    requires Levelled(g, flows, group, d, visited, frontier, impacted)
    ensures HalfLevel(g, flows, group, d, visited, visited, [], impacted)
  {
    forall i | 0 <= i < |impacted|
      ensures GoodReport(g, flows, group, d + 1, impacted[i]) && impacted[i].id in visited
    {
      assert GoodReport(g, flows, group, d, impacted[i]);
      assert WithinHops(g, flows, group, d, impacted[i].id);
    }
  }

  /** The blast radius: from the group of the failed entity, level by level, every entity a
      failure reaches within the depth, once, at its shortest distance. */
  method ImpactOf(g: P.Graph, belief: Belief, threshold: real, flows: Flows, root: EntityId, maxDepth: int)
    returns (impacted: seq<Impact>)
    requires P.AdjacencyExact(g.relations, g.outs, g.ins)
    ensures forall group :: IsGroup(g, belief, threshold, root, group) ==>
              ExactImpact(g, flows, group, ClampDepth(maxDepth), impacted)
  {
    hide IsGroup, Levelled, P.AdjacencyExact;
    var depth := ClampDepth(maxDepth);
    var members, _ := Walk(g, belief, threshold, root);
    ghost var group := SetOf(members);
    var visited := set x | x in members;
    var frontier := members;
    impacted := [];
    LevelZero(g, flows, group, frontier);
    var d := 0;
    while d < depth && |frontier| > 0
      invariant 0 <= d <= depth && Levelled(g, flows, group, d, visited, frontier, impacted)
    {
      visited, frontier, impacted := Level(g, flows, group, d, visited, frontier, impacted);
      d := d + 1;
    }
    LevelsExact(g, flows, group, depth, d, visited, frontier, impacted);
    forall other | IsGroup(g, belief, threshold, root, other)
      ensures other == group
    {
      OneGroup(g, belief, threshold, root, group, other);
    }
  }

  lemma OneGroup(g: P.Graph, belief: Belief, threshold: real, root: EntityId, a: set<EntityId>, b: set<EntityId>)
    requires IsGroup(g, belief, threshold, root, a) && IsGroup(g, belief, threshold, root, b)
    ensures a == b
  {
    hide SameThing;
    assert forall x: EntityId :: x in a <==> x in b;
  }

  /** What is reported at depth 1: exactly the live entities outside the group to which some
      relation carries the failure of a member. */
  lemma DirectImpact(g: P.Graph, flows: Flows, group: set<EntityId>, depth: nat, impacted: seq<Impact>, y: EntityId)
    requires ExactImpact(g, flows, group, depth, impacted) && 1 <= depth
    ensures (exists i :: 0 <= i < |impacted| && impacted[i].id == y && impacted[i].depth == 1) <==>
            && y !in group && y in P.Live(g)
            && exists x, r :: x in group && r in g.relations && Carries(flows, r, x, y)
  {
    hide Carries;
    if i :| 0 <= i < |impacted| && impacted[i].id == y && impacted[i].depth == 1 {
      assert GoodReport(g, flows, group, depth, impacted[i]);
      assert !Hops(g, flows, group, 0, y);
    }
    if x, r :| y !in group && y in P.Live(g) && x in group && r in g.relations && Carries(flows, r, x, y) {
      assert Hops(g, flows, group, 0, x) && Reaches(g, flows, x, y);
      assert Hops(g, flows, group, 1, y);
      assert Distance(g, flows, group, y, 1);
      var i :| 0 <= i < |impacted| && impacted[i].id == y;
      assert GoodReport(g, flows, group, depth, impacted[i]);
      OneDistance(g, flows, group, y, 1, impacted[i].depth);
    }
  }

  /** Whichever member of the group is named, the same entities are reported at the same
      depths. */
  lemma SameImpactFromAnyMember(g: P.Graph, belief: Belief, threshold: real, flows: Flows, a: EntityId, b: EntityId,
                                depth: nat,
                                ga: set<EntityId>, gb: set<EntityId>, ia: seq<Impact>, ib: seq<Impact>, y: EntityId,
                                  n: nat)
    requires IsGroup(g, belief, threshold, a, ga) && IsGroup(g, belief, threshold, b, gb) && b in ga
    requires ExactImpact(g, flows, ga, depth, ia) && ExactImpact(g, flows, gb, depth, ib)
    requires exists i :: 0 <= i < |ia| && ia[i].id == y && ia[i].depth == n
    ensures exists i :: 0 <= i < |ib| && ib[i].id == y && ib[i].depth == n
  {
    SameGroupFromAnyMember(g, belief, threshold, a, b, ga, gb);
    var i :| 0 <= i < |ia| && ia[i].id == y && ia[i].depth == n;
    assert GoodReport(g, flows, ga, depth, ia[i]);
    assert Mentions(ib, y);
    var j :| 0 <= j < |ib| && ib[j].id == y;
    assert GoodReport(g, flows, gb, depth, ib[j]);
    OneDistance(g, flows, ga, y, n, ib[j].depth);
  }

  lemma OneDistance(g: P.Graph, flows: Flows, group: set<EntityId>, y: EntityId, m: nat, n: nat)
    requires Distance(g, flows, group, y, m) && Distance(g, flows, group, y, n)
    ensures m == n
  {
  }
}
