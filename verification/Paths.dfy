/** Constrained path search: breadth-first, refusing to read a convergence as a route. */
module Paths {
  import opened Text
  import opened Model
  import opened Traversal
  import opened BlastRadius
  import P = Projection

  /** The entity types a traversal may end on but not pass through, and those it may pass
      only by changing relation type. */
  datatype Rules = Rules(terminal: set<Str>, crossing: set<Str>, belief: Belief, threshold: real)

  const TERMINAL_TYPES: set<Str> := {Ascii("network.endpoint")}
  const CROSSING_TYPES: set<Str> := {Ascii("network.neighbor"), Ascii("network.interface")}

  /** How the search reached an entity: from where, by which edge, in how many hops. */
  datatype CameFrom = Start | Via(prev: EntityId, edge: Edge)

  type Parents = map<EntityId, CameFrom>

  /** The rules the traversals run under: the fixed entity types, the belief edges carry and
      the threshold a belief is held to. */
  function SourceRules(belief: Belief, threshold: real): Rules {
    Rules(TERMINAL_TYPES, CROSSING_TYPES, belief, threshold)
  }

  function TypeAt(g: P.Graph, id: EntityId): Str {
    if id in g.entities then g.entities[id].ident.typ else []
  }

  // ------------------------------------------------------------ which steps are allowed

  /** Whether a step may leave cur by edge e, having entered it as came says. */
  predicate MayLeave(g: P.Graph, rules: Rules, cur: EntityId, came: CameFrom, e: Edge) {
    came.Via? && cur in g.entities ==>
      && (TypeAt(g, cur) in rules.terminal ==> e.outgoing)
      && (TypeAt(g, cur) in rules.crossing && came.edge.rel.typ != [] ==> e.rel.typ != came.edge.rel.typ)
  }

  /** Some edge of cur is refused by the rules, given how cur was entered. */
  ghost predicate Refused(g: P.Graph, rules: Rules, relType: Str, cur: EntityId, came: CameFrom) {
    exists e :: Leads(g, cur, relType, e) && !MayLeave(g, rules, cur, came, e)
  }

  predicate Strong(g: P.Graph, rules: Rules, e: Edge) {
    e.rel.typ == SAME_AS ==> Believed(g, rules.belief, rules.threshold, e.rel)
  }

  /** A step the search takes: to a live entity over an existing relation of the wanted
      type, allowed by the rules. */
  predicate Crossable(g: P.Graph, rules: Rules, relType: Str, cur: EntityId, came: CameFrom, e: Edge) {
    Leads(g, cur, relType, e) && MayLeave(g, rules, cur, came, e) && Strong(g, rules, e)
  }

  // ------------------------------------------------------------ the search tree

  /** A well-founded tree of crossable steps from start, no deeper than depth. */
  ghost predicate Tree(g: P.Graph, rules: Rules, relType: Str, start: EntityId, parents: Parents,
                       level: map<EntityId, nat>, depth: nat) {
    && start in parents && level.Keys == parents.Keys
    && (forall x :: x in parents ==> (parents[x].Start? <==> x == start))
    && level[start] == 0
    && (forall x :: x in parents && x != start ==> Branch(g, rules, relType, parents, level, depth, x))
  }

  /** x hangs below its parent by a crossable edge. */
  ghost predicate Branch(g: P.Graph, rules: Rules, relType: Str, parents: Parents, level: map<EntityId, nat>,
                         depth: nat, x: EntityId)
    requires level.Keys == parents.Keys && x in parents
  {
    && parents[x].Via? && parents[x].prev in parents
    && parents[x].edge.other == x
    && Crossable(g, rules, relType, parents[x].prev, parents[parents[x].prev], parents[x].edge)
    && level[x] == level[parents[x].prev] + 1 <= depth
  }

  lemma GrowTree(g: P.Graph, rules: Rules, relType: Str, start: EntityId, parents: Parents, level: map<EntityId, nat>,
                 depth: nat,
                 cur: EntityId, e: Edge)
    requires Tree(g, rules, relType, start, parents, level, depth) && cur in parents && e.other !in parents &&
      level[cur] < depth
    requires Crossable(g, rules, relType, cur, parents[cur], e)
    ensures Tree(g, rules, relType, start, parents[e.other := Via(cur, e)], level[e.other := level[cur] + 1], depth)
  {
    hide Crossable;
    var ps, lv := parents[e.other := Via(cur, e)], level[e.other := level[cur] + 1];
    forall x | x in ps && x != start
      ensures Branch(g, rules, relType, ps, lv, depth, x)
    {
      if x != e.other {
        assert Branch(g, rules, relType, parents, level, depth, x);
      }
    }
  }

  /** Every entity waiting to be expanded is in the tree, at level d. */
  ghost predicate AtLevel(parents: Parents, level: map<EntityId, nat>, frontier: seq<EntityId>, d: nat) {
    forall x :: x in frontier ==> x in parents && x in level && level[x] == d
  }

  ghost predicate Extends(level: map<EntityId, nat>, more: map<EntityId, nat>) {
    forall x :: x in level ==> x in more && more[x] == level[x]
  }

  /** Every step the rules allow from x, as it was entered, stays in the tree, and a refused
      one is on record. */
  ghost predicate ClosedAt(g: P.Graph, rules: Rules, relType: Str, parents: Parents, terminals: set<EntityId>,
                           x: EntityId)
    requires x in parents
  {
    && (forall e :: Crossable(g, rules, relType, x, parents[x], e) ==> e.other in parents)
    && (Refused(g, rules, relType, x, parents[x]) ==> x in terminals)
  }

  ghost predicate ClosedAbove(g: P.Graph, rules: Rules, relType: Str, parents: Parents, terminals: set<EntityId>,
                              level: map<EntityId, nat>, d: nat) {
    forall x :: x in parents && x in level && level[x] < d ==> ClosedAt(g, rules, relType, parents, terminals, x)
  }

  /** Only entities short of level d whose edges were refused are on record. */
  ghost predicate Recorded(g: P.Graph, rules: Rules, relType: Str, parents: Parents, terminals: set<EntityId>,
                           level: map<EntityId, nat>, d: nat) {
    forall x :: x in terminals ==>
      x in parents && x in level && level[x] < d && Refused(g, rules, relType, x, parents[x])
  }

  /** The tree only grew, by the entities added to next at this level. */
  ghost predicate Grew(parents0: Parents, level0: map<EntityId, nat>, next0: seq<EntityId>,
                       parents: Parents, level: map<EntityId, nat>, next: seq<EntityId>, d: nat)
  {
    && (forall x :: x in parents0 ==> x in parents && parents[x] == parents0[x])
    && (forall x :: x in level ==> (x in level0 && level[x] == level0[x]) || (x in next && level[x] == d))
    && (forall x :: x in next0 ==> x in next)
  }

  ghost predicate Kept(parents: Parents, more: Parents) {
    forall x :: x in parents ==> x in more && more[x] == parents[x]
  }

  lemma GrewKeeps(parents0: Parents, level0: map<EntityId, nat>, next0: seq<EntityId>, parents: Parents,
                  level: map<EntityId, nat>, next: seq<EntityId>, d: nat)
    requires Grew(parents0, level0, next0, parents, level, next, d)
    ensures Kept(parents0, parents)
  {
  }

  /** Tried so far: the allowed edges among the first k lead into the tree. */
  ghost predicate Tried(g: P.Graph, rules: Rules, relType: Str, cur: EntityId, came: CameFrom, edges: seq<Edge>,
                        k: nat, parents: Parents, terminals: set<EntityId>) {
    && k <= |edges|
    && (forall i :: 0 <= i < k && Crossable(g, rules, relType, cur, came, edges[i]) ==> edges[i].other in parents)
    && (forall i :: 0 <= i < k && !MayLeave(g, rules, cur, came, edges[i]) ==> cur in terminals)
  }

  lemma TriedAll(g: P.Graph, rules: Rules, relType: Str, cur: EntityId, edges: seq<Edge>, parents: Parents,
                 terminals: set<EntityId>)
    requires cur in parents && Tried(g, rules, relType, cur, parents[cur], edges, |edges|, parents, terminals)
    requires forall e :: e in edges <==> Leads(g, cur, relType, e)
    ensures ClosedAt(g, rules, relType, parents, terminals, cur)
  {
    hide MayLeave;
    if e :| Leads(g, cur, relType, e) && !MayLeave(g, rules, cur, parents[cur], e) {
      assert e in edges;
      var i :| 0 <= i < |edges| && edges[i] == e;
    }
    forall e | Crossable(g, rules, relType, cur, parents[cur], e)
      ensures e.other in parents
    {
      assert e in edges;
      var i :| 0 <= i < |edges| && edges[i] == e;
    }
  }

  lemma TriedOne(g: P.Graph, rules: Rules, relType: Str, cur: EntityId, came: CameFrom, edges: seq<Edge>, k: nat,
                 parents: Parents, terminals: set<EntityId>, more: Parents, others: set<EntityId>)
    requires Tried(g, rules, relType, cur, came, edges, k, parents, terminals) && k < |edges|
    requires parents.Keys <= more.Keys && terminals <= others
    requires Crossable(g, rules, relType, cur, came, edges[k]) ==> edges[k].other in more
    requires !MayLeave(g, rules, cur, came, edges[k]) ==> cur in others
    ensures Tried(g, rules, relType, cur, came, edges, k + 1, more, others)
  {
    hide Crossable, MayLeave;
  }

  lemma GrewOne(parents0: Parents, level0: map<EntityId, nat>, next0: seq<EntityId>, parents: Parents,
                level: map<EntityId, nat>,
                next: seq<EntityId>, d: nat, x: EntityId, came: CameFrom)
    requires Grew(parents0, level0, next0, parents, level, next, d) && x !in parents
    ensures Grew(parents0, level0, next0, parents[x := came], level[x := d], next + [x], d)
  {
  }

  lemma GrewNot(parents: Parents, level: map<EntityId, nat>, next: seq<EntityId>, d: nat)
    ensures Grew(parents, level, next, parents, level, next, d)
  {
  }

  /** Expand one entity. The terminals collected are those whose edges were refused. */
  method Expand(g: P.Graph, rules: Rules, relType: Str, ghost start: EntityId, goal: EntityId, depth: nat, d: nat,
                cur: EntityId,
                parents0: Parents, ghost level0: map<EntityId, nat>, next0: seq<EntityId>, terminals0: set<EntityId>)
    returns (parents: Parents, ghost level: map<EntityId, nat>, next: seq<EntityId>, terminals: set<EntityId>,
      found: bool)
    requires P.AdjacencyExact(g.relations, g.outs, g.ins) && d < depth
    requires Tree(g, rules, relType, start, parents0, level0, depth) && cur in parents0 && level0[cur] == d
    requires AtLevel(parents0, level0, next0, d + 1)
    ensures Tree(g, rules, relType, start, parents, level, depth) && AtLevel(parents, level, next, d + 1)
    ensures Extends(level0, level) && (found ==> goal in parents) && terminals0 <= terminals <= terminals0 + {cur}
    ensures Kept(parents0, parents)
    ensures cur in terminals ==> cur in terminals0 || Refused(g, rules, relType, cur, parents0[cur])
    ensures cur in parents
    ensures !found ==> ClosedAt(g, rules, relType, parents, terminals, cur)
    ensures !found ==> Grew(parents0, level0, next0, parents, level, next, d + 1)
    ensures !found && goal in parents ==> goal in parents0
  {
    hide Tree, P.AdjacencyExact, Leads, Crossable, AtLevel, Extends, Believed, Tried, Grew, ClosedAt, Kept, MayLeave;
    hide Refused;
    GrewNot(parents0, level0, next0, d + 1);
    TreeSizes(g, rules, relType, start, parents0, level0, depth);
    ExtendsItself(level0);
    parents, level, next, terminals, found := parents0, level0, next0, terminals0, false;
    var terminal := false;
    var arrivedBy: Str := [];
    var came := parents[cur];
    if came.Via? && cur in g.entities {
      terminal := g.entities[cur].ident.typ in rules.terminal;
      if g.entities[cur].ident.typ in rules.crossing {
        arrivedBy := came.edge.rel.typ;
      }
    }
    var edges := EdgesOf(g, cur, relType);
    TriedNone(g, rules, relType, cur, came, edges, parents, terminals);
    for i := 0 to |edges|
      invariant Tried(g, rules, relType, cur, came, edges, i, parents, terminals)
      invariant Grew(parents0, level0, next0, parents, level, next, d + 1)
      invariant goal in parents ==> goal in parents0
      invariant Tree(g, rules, relType, start, parents, level, depth) && AtLevel(parents, level, next, d + 1)
      invariant Extends(level0, level) && cur in parents && parents[cur] == came && cur in level && level[cur] == d
      invariant !found && terminals0 <= terminals <= terminals0 + {cur}
      invariant cur in terminals ==> cur in terminals0 || Refused(g, rules, relType, cur, came)
    {
      var e := edges[i];
      assert e in edges;
      ghost var was, had := parents, terminals;
      RefusedOrNot(g, rules, relType, cur, came, e, terminal, arrivedBy);
      if (terminal && !e.outgoing) || (arrivedBy != [] && e.rel.typ == arrivedBy) {
        terminals := terminals + {cur};
      } else if (e.rel.typ != SAME_AS || Believed(g, rules.belief, rules.threshold, e.rel)) && e.other !in parents {
        GrewOne(parents0, level0, next0, parents, level, next, d + 1, e.other, Via(cur, e));
        GrowTree(g, rules, relType, start, parents, level, depth, cur, e);
        GrowLevel(g, rules, relType, start, parents, level, depth, level0, next, d + 1, e.other, Via(cur, e));
        parents := parents[e.other := Via(cur, e)];
        level := level[e.other := d + 1];
        if e.other == goal {
          found := true;
          GrewKeeps(parents0, level0, next0, parents, level, next + [e.other], d + 1);
          return;
        }
        next := next + [e.other];
      }
      TriedOne(g, rules, relType, cur, came, edges, i, was, had, parents, terminals);
    }
    TriedAll(g, rules, relType, cur, edges, parents, terminals);
    GrewKeeps(parents0, level0, next0, parents, level, next, d + 1);
  }

  lemma TriedNone(g: P.Graph, rules: Rules, relType: Str, cur: EntityId, came: CameFrom, edges: seq<Edge>,
                  parents: Parents, terminals: set<EntityId>)
    ensures Tried(g, rules, relType, cur, came, edges, 0, parents, terminals)
  {
  }

  lemma ExtendsItself(level: map<EntityId, nat>)
    ensures Extends(level, level)
  {
  }

  /** The two tests the search makes are the two rules. */
  lemma RefusedOrNot(g: P.Graph, rules: Rules, relType: Str, cur: EntityId, came: CameFrom, e: Edge, terminal: bool,
                     arrivedBy: Str)
    requires Leads(g, cur, relType, e)
    requires terminal == (came.Via? && cur in g.entities && TypeAt(g, cur) in rules.terminal)
    requires arrivedBy == if came.Via? && cur in g.entities &&
      TypeAt(g, cur) in rules.crossing then came.edge.rel.typ else []
    ensures MayLeave(g, rules, cur, came, e) <==>
            !(terminal && !e.outgoing) && !(arrivedBy != [] && e.rel.typ == arrivedBy)
    ensures !MayLeave(g, rules, cur, came, e) ==> Refused(g, rules, relType, cur, came)
    ensures Crossable(g, rules, relType, cur, came, e) <==>
            && MayLeave(g, rules, cur, came, e)
            && (e.rel.typ == SAME_AS ==> Believed(g, rules.belief, rules.threshold, e.rel))
  {
  }

  lemma GrowLevel(g: P.Graph, rules: Rules, relType: Str, start: EntityId, parents: Parents, level: map<EntityId, nat>,
                  depth: nat,
                  level0: map<EntityId, nat>, next: seq<EntityId>, d: nat, x: EntityId, came: CameFrom)
    requires Tree(g, rules, relType, start, parents, level, depth) && x !in parents
    requires AtLevel(parents, level, next, d) && Extends(level0, level)
    ensures AtLevel(parents[x := came], level[x := d], next, d) &&
      AtLevel(parents[x := came], level[x := d], next + [x], d)
    ensures Extends(level0, level[x := d])
  {
  }

  lemma TreeSizes(g: P.Graph, rules: Rules, relType: Str, start: EntityId, parents: Parents, level: map<EntityId, nat>,
                  depth: nat)
    requires Tree(g, rules, relType, start, parents, level, depth)
    ensures level.Keys == parents.Keys
  {
  }

  /** The shape of the search between levels: above level d everything is closed, and the
      frontier is level d. */
  ghost predicate Levels(g: P.Graph, rules: Rules, relType: Str, parents: Parents, terminals: set<EntityId>,
                         level: map<EntityId, nat>, frontier: seq<EntityId>, d: nat) {
    && ClosedAbove(g, rules, relType, parents, terminals, level, d)
    && (forall x :: x in level ==> level[x] < d || (level[x] == d && x in frontier))
  }

  /** ... and within level d, with the first k of the frontier expanded. */
  ghost predicate WithinLevel(g: P.Graph, rules: Rules, relType: Str, parents: Parents, terminals: set<EntityId>,
                              level: map<EntityId, nat>, frontier: seq<EntityId>, next: seq<EntityId>, d: nat, k: nat)
  {
    && k <= |frontier| && ClosedAbove(g, rules, relType, parents, terminals, level, d)
    && (forall x :: x in level ==> level[x] < d || (level[x] == d && x in frontier) || (level[x] == d + 1 && x in next))
    && (forall i :: 0 <= i < k ==> frontier[i] in parents)
    && (forall i :: 0 <= i < k ==> ClosedAt(g, rules, relType, parents, terminals, frontier[i]))
  }

  lemma StillClosed(g: P.Graph, rules: Rules, relType: Str, parents: Parents, terminals: set<EntityId>, more: Parents,
                    others: set<EntityId>, x: EntityId)
    requires x in parents && ClosedAt(g, rules, relType, parents, terminals, x)
    requires Kept(parents, more) && terminals <= others
    ensures ClosedAt(g, rules, relType, more, others, x)
  {
    hide Crossable, Refused;
  }

  lemma ExpandedOne(g: P.Graph, rules: Rules, relType: Str, start: EntityId, depth: nat, parents: Parents,
                    terminals: set<EntityId>, level: map<EntityId, nat>,
                    next: seq<EntityId>, frontier: seq<EntityId>, d: nat, k: nat, parents': Parents,
                    terminals': set<EntityId>, level': map<EntityId, nat>, next': seq<EntityId>)
    requires WithinLevel(g, rules, relType, parents, terminals, level, frontier, next, d, k) && k < |frontier|
    requires Tree(g, rules, relType, start, parents, level, depth)
    requires Grew(parents, level, next, parents', level', next', d + 1) && terminals <= terminals'
    requires frontier[k] in parents' && ClosedAt(g, rules, relType, parents', terminals', frontier[k])
    ensures WithinLevel(g, rules, relType, parents', terminals', level', frontier, next', d, k + 1)
  {
    hide ClosedAt, Branch;
    forall x | x in parents' && x in level' && level'[x] < d
      ensures ClosedAt(g, rules, relType, parents', terminals', x)
    {
      StillClosed(g, rules, relType, parents, terminals, parents', terminals', x);
    }
    forall i | 0 <= i < k
      ensures frontier[i] in parents' && ClosedAt(g, rules, relType, parents', terminals', frontier[i])
    {
      StillClosed(g, rules, relType, parents, terminals, parents', terminals', frontier[i]);
    }
  }

  lemma LevelDone(g: P.Graph, rules: Rules, relType: Str, parents: Parents, terminals: set<EntityId>,
                  level: map<EntityId, nat>, frontier: seq<EntityId>, next: seq<EntityId>, d: nat)
    requires WithinLevel(g, rules, relType, parents, terminals, level, frontier, next, d, |frontier|)
    ensures Levels(g, rules, relType, parents, terminals, level, next, d + 1)
  {
    hide ClosedAt;
    forall x | x in parents && x in level && level[x] < d + 1
      ensures ClosedAt(g, rules, relType, parents, terminals, x)
    {
      if level[x] == d {
        var i :| 0 <= i < |frontier| && frontier[i] == x;
      }
    }
  }

  lemma SearchDone(g: P.Graph, rules: Rules, relType: Str, parents: Parents, terminals: set<EntityId>,
                   level: map<EntityId, nat>, frontier: seq<EntityId>, d: nat, depth: nat)
    requires Levels(g, rules, relType, parents, terminals, level, frontier, d) && (d == depth || frontier == [])
    ensures ClosedAbove(g, rules, relType, parents, terminals, level, depth)
  {
    hide ClosedAt;
  }

  lemma LevelStart(g: P.Graph, rules: Rules, relType: Str, parents: Parents, terminals: set<EntityId>,
                   level: map<EntityId, nat>, frontier: seq<EntityId>, d: nat)
    requires Levels(g, rules, relType, parents, terminals, level, frontier, d)
    ensures WithinLevel(g, rules, relType, parents, terminals, level, frontier, [], d, 0)
    ensures AtLevel(parents, level, [], d + 1)
  {
    hide ClosedAt;
  }

  lemma StillRecorded(g: P.Graph, rules: Rules, relType: Str, parents: Parents, terminals: set<EntityId>,
                      level: map<EntityId, nat>, d: nat,
                      parents': Parents, terminals': set<EntityId>, level': map<EntityId, nat>, cur: EntityId)
    requires Recorded(g, rules, relType, parents, terminals, level, d) && Kept(parents, parents')
    requires Extends(level, level') && terminals' <= terminals + {cur}
    requires cur in parents && cur in level && level[cur] < d
    requires cur in terminals' ==> cur in terminals || Refused(g, rules, relType, cur, parents[cur])
    ensures Recorded(g, rules, relType, parents', terminals', level', d)
  {
    hide Refused;
  }

  /** Expand every entity of one level, unless the goal turns up. */
  method ExpandLevel(g: P.Graph, rules: Rules, relType: Str, ghost start: EntityId, goal: EntityId, depth: nat, d: nat,
                     frontier: seq<EntityId>,
                     parents0: Parents, ghost level0: map<EntityId, nat>, terminals0: set<EntityId>)
    returns (parents: Parents, ghost level: map<EntityId, nat>, next: seq<EntityId>, terminals: set<EntityId>,
      found: bool)
    requires P.AdjacencyExact(g.relations, g.outs, g.ins) && d < depth && goal !in parents0
    requires Tree(g, rules, relType, start, parents0, level0, depth) && AtLevel(parents0, level0, frontier, d)
    requires Levels(g, rules, relType, parents0, terminals0, level0, frontier, d)
    requires Recorded(g, rules, relType, parents0, terminals0, level0, depth)
    ensures Tree(g, rules, relType, start, parents, level, depth) && AtLevel(parents, level, next, d + 1)
    ensures !found ==> Levels(g, rules, relType, parents, terminals, level, next, d + 1)
    ensures (found <==> goal in parents) && Recorded(g, rules, relType, parents, terminals, level, depth)
  {
    hide Tree, P.AdjacencyExact, Levels, WithinLevel, ClosedAt, Grew, Kept, Recorded, Refused, Extends;
    parents, level, next, terminals, found := parents0, level0, [], terminals0, false;
    LevelStart(g, rules, relType, parents, terminals, level, frontier, d);
    for k := 0 to |frontier|
      invariant Tree(g, rules, relType, start, parents, level, depth) && !found && goal !in parents
      invariant AtLevel(parents, level, frontier, d) && AtLevel(parents, level, next, d + 1)
      invariant WithinLevel(g, rules, relType, parents, terminals, level, frontier, next, d, k)
      invariant Recorded(g, rules, relType, parents, terminals, level, depth)
    {
      assert frontier[k] in frontier;
      ghost var ps, lv, nx, ts := parents, level, next, terminals;
      TreeSizes(g, rules, relType, start, parents, level, depth);
      parents, level, next, terminals, found :=
        Expand(g, rules, relType, start, goal, depth, d, frontier[k], parents, level, next, terminals);
      TreeSizes(g, rules, relType, start, parents, level, depth);
      StillRecorded(g, rules, relType, ps, ts, lv, depth, parents, terminals, level, frontier[k]);
      StillAtLevel(ps, lv, parents, level, frontier, d);
      if found {
        return;
      }
      ExpandedOne(g, rules, relType, start, depth, ps, ts, lv, nx, frontier, d, k, parents, terminals, level, next);
    }
    LevelDone(g, rules, relType, parents, terminals, level, frontier, next, d);
  }

  lemma StillAtLevel(parents: Parents, level: map<EntityId, nat>, parents': Parents, level': map<EntityId, nat>,
                     frontier: seq<EntityId>, d: nat)
    requires AtLevel(parents, level, frontier, d) && Kept(parents, parents') && Extends(level, level')
    ensures AtLevel(parents', level', frontier, d)
  {
  }

  /** Breadth-first from start, up to depth hops, stopping at goal. When the goal was not
      found, the tree is closed: no allowed step from an entity less than depth hops out
      leads anywhere new. */
  method WalkPaths(g: P.Graph, rules: Rules, relType: Str, start: EntityId, goal: EntityId, depth: nat)
    returns (parents: Parents, ghost level: map<EntityId, nat>, terminals: set<EntityId>, found: bool)
    requires P.AdjacencyExact(g.relations, g.outs, g.ins)
    ensures Tree(g, rules, relType, start, parents, level, depth) && (found <==> goal in parents)
    ensures !found ==> ClosedAbove(g, rules, relType, parents, terminals, level, depth)
    ensures Recorded(g, rules, relType, parents, terminals, level, depth)
  {
    parents, level, terminals, found := map[start := Start], map[start := 0], {}, start == goal;
    var frontier := [start];
    var d := 0;
    while d < depth && |frontier| > 0 && !found
      invariant 0 <= d <= depth
      invariant Tree(g, rules, relType, start, parents, level, depth) && AtLevel(parents, level, frontier, d)
      invariant !found ==> Levels(g, rules, relType, parents, terminals, level, frontier, d)
      invariant (found <==> goal in parents) && Recorded(g, rules, relType, parents, terminals, level, depth)
      decreases depth - d
    {
      hide Tree, P.AdjacencyExact, Levels, ClosedAbove, Recorded;
      parents, level, frontier, terminals, found :=
        ExpandLevel(g, rules, relType, start, goal, depth, d, frontier, parents, level, terminals);
      d := d + 1;
    }
    if !found {
      SearchDone(g, rules, relType, parents, terminals, level, frontier, d, depth);
    }
  }

  // ------------------------------------------------------------ the path

  /** One entity along a path, with the edge that reached it. */
  datatype Hop = Hop(id: EntityId, came: CameFrom)

  /** A simple chain of crossable steps from start to goal, within depth hops. */
  ghost predicate SoundPath(g: P.Graph, rules: Rules, relType: Str, start: EntityId, goal: EntityId, depth: nat,
                            path: seq<Hop>) {
    && 1 <= |path| <= depth + 1
    && path[0].id == start && path[0].came.Start? && path[|path| - 1].id == goal
    && (forall i, j :: 0 <= i < j < |path| ==> path[i].id != path[j].id)
    && (forall i :: 0 <= i < |path| - 1 ==> Joined(g, rules, relType, path[i], path[i + 1]))
  }

  /** b follows a along an existing relation the rules let a be left by. */
  ghost predicate Joined(g: P.Graph, rules: Rules, relType: Str, a: Hop, b: Hop) {
    && b.came.Via? && b.came.prev == a.id && b.came.edge.other == b.id
    && Crossable(g, rules, relType, a.id, a.came, b.came.edge)
  }

  /** The path walked back from goal: levels fall by one to the start. */
  ghost predicate WalkedBack(g: P.Graph, rules: Rules, relType: Str, parents: Parents, level: map<EntityId, nat>,
                             goal: EntityId, hops: seq<Hop>) {
    && hops != [] && hops[0].id == goal && goal in level
    && (forall i :: 0 <= i < |hops| ==>
          && hops[i].id in parents && hops[i].id in level && hops[i].came == parents[hops[i].id]
          && level[hops[i].id] + i == level[goal])
    && (forall i :: 0 <= i < |hops| - 1 ==> Joined(g, rules, relType, hops[i + 1], hops[i]))
  }

  lemma BackOne(g: P.Graph, rules: Rules, relType: Str, start: EntityId, parents: Parents, level: map<EntityId, nat>,
                depth: nat,
                goal: EntityId, hops: seq<Hop>, cur: EntityId)
    requires Tree(g, rules, relType, start, parents, level, depth) &&
      WalkedBack(g, rules, relType, parents, level, goal, hops)
    requires cur == hops[|hops| - 1].id && cur != start
    ensures parents[cur].Via? && parents[cur].prev in parents && level[parents[cur].prev] + 1 == level[cur]
    ensures WalkedBack(g, rules, relType, parents, level, goal,
      hops + [Hop(parents[cur].prev, parents[parents[cur].prev])])
  {
    hide Crossable;
    assert Branch(g, rules, relType, parents, level, depth, cur);
    var prev := parents[cur].prev;
    var more := hops + [Hop(prev, parents[prev])];
    forall i | 0 <= i < |more| - 1
      ensures Joined(g, rules, relType, more[i + 1], more[i])
    {
      if i < |hops| - 1 {
        assert Joined(g, rules, relType, hops[i + 1], hops[i]);
      }
    }
  }

  lemma ReversedIsSound(g: P.Graph, rules: Rules, relType: Str, start: EntityId, goal: EntityId, parents: Parents,
                        level: map<EntityId, nat>, depth: nat, hops: seq<Hop>, path: seq<Hop>)
    requires Tree(g, rules, relType, start, parents, level, depth) &&
      WalkedBack(g, rules, relType, parents, level, goal, hops)
    requires hops[|hops| - 1].id == start
    requires |path| == |hops| && forall k :: 0 <= k < |path| ==> path[k] == hops[|hops| - 1 - k]
    ensures SoundPath(g, rules, relType, start, goal, depth, path)
  {
    hide Crossable, Branch;
    assert level[goal] == |hops| - 1;
    LevelBounded(g, rules, relType, start, parents, level, depth, goal);
    forall i | 0 <= i < |path| - 1
      ensures Joined(g, rules, relType, path[i], path[i + 1])
    {
      assert Joined(g, rules, relType, hops[|hops| - 1 - i - 1 + 1], hops[|hops| - 1 - i - 1]);
    }
  }

  lemma LevelBounded(g: P.Graph, rules: Rules, relType: Str, start: EntityId, parents: Parents,
                     level: map<EntityId, nat>, depth: nat, x: EntityId)
    requires Tree(g, rules, relType, start, parents, level, depth) && x in parents
    ensures x in level && level[x] <= depth
  {
    if x != start {
      assert Branch(g, rules, relType, parents, level, depth, x);
    }
  }

  /** Reverse the hops in place, swapping from both ends. */
  method ReverseHops(hops: seq<Hop>) returns (r: seq<Hop>)
    ensures |r| == |hops| && forall k :: 0 <= k < |r| ==> r[k] == hops[|hops| - 1 - k]
  {
    r := hops;
    var i, j := 0, |hops| - 1;
    while i < j
      invariant 0 <= i && j == |hops| - 1 - i && i <= j + 1 && |r| == |hops|
      invariant forall k :: 0 <= k < i ==> r[k] == hops[|hops| - 1 - k] && r[|hops| - 1 - k] == hops[k]
      invariant forall k :: i <= k <= j ==> r[k] == hops[k]
    {
      r := r[i := r[j]][j := r[i]];
      i, j := i + 1, j - 1;
    }
  }

  /** Every entity of the tree is the end of a sound path. */
  lemma TreePath(g: P.Graph, rules: Rules, relType: Str, start: EntityId, parents: Parents, level: map<EntityId, nat>,
                 depth: nat, goal: EntityId) returns (path: seq<Hop>)
    requires Tree(g, rules, relType, start, parents, level, depth) && goal in parents
    ensures SoundPath(g, rules, relType, start, goal, depth, path) && |path| == level[goal] + 1
    ensures path[|path| - 1].came == parents[goal]
  {
    hide Crossable, Branch;
    var hops := WalkBack(g, rules, relType, start, parents, level, depth, goal, [Hop(goal, parents[goal])]);
    path := seq(|hops|, k requires 0 <= k < |hops| => hops[|hops| - 1 - k]);
    ReversedIsSound(g, rules, relType, start, goal, parents, level, depth, hops, path);
  }

  lemma {:induction false} WalkBack(g: P.Graph, rules: Rules, relType: Str, start: EntityId, parents: Parents,
                                    level: map<EntityId, nat>, depth: nat, goal: EntityId, hops: seq<Hop>)
    returns (all: seq<Hop>)
    requires Tree(g, rules, relType, start, parents, level, depth)
    requires WalkedBack(g, rules, relType, parents, level, goal, hops)
    ensures WalkedBack(g, rules, relType, parents, level, goal, all) && all[|all| - 1].id == start
    ensures all[0] == hops[0] && |all| == level[goal] + 1
    decreases level[hops[|hops| - 1].id]
  {
    hide Crossable, Branch, Joined;
    var cur := hops[|hops| - 1].id;
    all := hops;
    if cur != start {
      BackOne(g, rules, relType, start, parents, level, depth, goal, hops, cur);
      var prev := parents[cur].prev;
      all := WalkBack(g, rules, relType, start, parents, level, depth, goal, hops + [Hop(prev, parents[prev])]);
    }
  }

  /** The result of a search: the tree, the levels it built it by, and the entities whose edges
      it refused. */
  datatype Search = Search(parents: Parents, level: map<EntityId, nat>, terminals: set<EntityId>)

  /** A search that met its goal or went as far as the cap. */
  ghost predicate Searched(g: P.Graph, rules: Rules, relType: Str, start: EntityId, goal: EntityId, depth: nat,
                           w: Search) {
    && Tree(g, rules, relType, start, w.parents, w.level, depth)
    && (goal !in w.parents ==> ClosedAbove(g, rules, relType, w.parents, w.terminals, w.level, depth))
    && Recorded(g, rules, relType, w.parents, w.terminals, w.level, depth)
  }

  /** Where a search that missed its goal was refused: exactly at the entities short of the cap
      with an edge the rules do not let it leave by. */
  lemma TerminalsExact(g: P.Graph, rules: Rules, relType: Str, start: EntityId, goal: EntityId, depth: nat, w: Search,
                       x: EntityId)
    requires Searched(g, rules, relType, start, goal, depth, w) && goal !in w.parents
    ensures x in w.terminals <==>
            x in w.parents && w.level[x] < depth && Refused(g, rules, relType, x, w.parents[x])
  {
    hide Refused, Branch;
    if x in w.parents && w.level[x] < depth {
      assert ClosedAt(g, rules, relType, w.parents, w.terminals, x);
    }
  }

  /** A path on which x is short of the cap and was entered so that an edge of it is
      refused. */
  ghost predicate RefusedPath(g: P.Graph, rules: Rules, relType: Str, start: EntityId, x: EntityId, depth: nat,
                              path: seq<Hop>) {
    && SoundPath(g, rules, relType, start, x, depth, path) && |path| <= depth
    && Refused(g, rules, relType, x, path[|path| - 1].came)
  }

  /** An entity where the two ends meet without a route through it. */
  ghost predicate Convergence(g: P.Graph, rules: Rules, relType: Str, from: EntityId, to: EntityId, depth: nat,
                              x: EntityId) {
    && (exists path :: RefusedPath(g, rules, relType, from, x, depth, path))
    && (exists path :: RefusedPath(g, rules, relType, to, x, depth, path))
  }

  /** What is on record is where a path was refused. */
  lemma RecordedPath(g: P.Graph, rules: Rules, relType: Str, start: EntityId, depth: nat, w: Search, x: EntityId)
    requires Tree(g, rules, relType, start, w.parents, w.level, depth) && x in w.terminals
    requires Recorded(g, rules, relType, w.parents, w.terminals, w.level, depth)
    ensures exists path :: RefusedPath(g, rules, relType, start, x, depth, path)
  {
    hide Tree, Refused, SoundPath;
    var path := TreePath(g, rules, relType, start, w.parents, w.level, depth, x);
    assert RefusedPath(g, rules, relType, start, x, depth, path);
  }

  /** A convergence is a live entity of a type that is not to be passed freely, and neither end. */
  lemma ConvergenceMeans(g: P.Graph, belief: Belief, threshold: real, relType: Str, from: EntityId, to: EntityId,
                         depth: nat, x: EntityId)
    requires Convergence(g, SourceRules(belief, threshold), relType, from, to, depth, x)
    ensures x != from && x != to && x in P.Live(g)
    ensures TypeAt(g, x) in {Ascii("network.endpoint"), Ascii("network.neighbor"), Ascii("network.interface")}
  {
    hide Crossable;
    var rules := SourceRules(belief, threshold);
    var p :| RefusedPath(g, rules, relType, from, x, depth, p);
    var q :| RefusedPath(g, rules, relType, to, x, depth, q);
    EndsRefused(g, rules, relType, from, x, depth, p);
    EndsRefused(g, rules, relType, to, x, depth, q);
  }

  lemma EndsRefused(g: P.Graph, rules: Rules, relType: Str, start: EntityId, x: EntityId, depth: nat, path: seq<Hop>)
    requires RefusedPath(g, rules, relType, start, x, depth, path)
    ensures x != start && x in P.Live(g) && TypeAt(g, x) in rules.terminal + rules.crossing
  {
    hide P.Live;
    var n := |path| - 1;
    assert path[n].came.Via?;
    assert n > 0;
    assert Joined(g, rules, relType, path[n - 1], path[n - 1 + 1]);
  }

  /** find_path: a path, or none found within the cap, and then the entities both ends were
      refused at. */
  method FindPath(g: P.Graph, belief: Belief, threshold: real, relType: Str, from: EntityId, to: EntityId,
                  maxDepth: int)
    returns (path: seq<Hop>, found: bool, shared: set<EntityId>, ghost there: Search, ghost back: Search)
    requires P.AdjacencyExact(g.relations, g.outs, g.ins)
    ensures found ==>
              SoundPath(g, SourceRules(belief, threshold), relType, from, to, ClampDepth(maxDepth), path)
    ensures forall x :: x in shared ==>
              Convergence(g, SourceRules(belief, threshold), relType, from, to, ClampDepth(maxDepth), x)
    ensures if found then shared == {} else path == []
    ensures Searched(g, SourceRules(belief, threshold), relType, from, to, ClampDepth(maxDepth), there)
    ensures found <==> to in there.parents
    ensures !found && there.terminals != {} ==>
              Searched(g, SourceRules(belief, threshold), relType, to, from, ClampDepth(maxDepth), back)
    ensures !found ==> shared == there.terminals * back.terminals
  {
    var rules, depth := SourceRules(belief, threshold), ClampDepth(maxDepth);
    hide SourceRules, Tree, ClosedAbove, Recorded, SoundPath, WalkedBack, P.AdjacencyExact, ClampDepth;
    var tree, terminals;
    ghost var level;
    tree, level, terminals, found := WalkPaths(g, rules, relType, from, to, depth);
    there, back, path, shared := Search(tree, level, terminals), Search(map[], map[], {}), [], {};
    if !found {
      if terminals != {} {
        var tree', level', terminals', found' := WalkPaths(g, rules, relType, to, from, depth);
        back, shared := Search(tree', level', terminals'), terminals * terminals';
        forall x | x in shared
          ensures Convergence(g, rules, relType, from, to, depth, x)
        {
          RecordedPath(g, rules, relType, from, depth, there, x);
          RecordedPath(g, rules, relType, to, depth, back, x);
        }
      }
      return;
    }
    path := PathBack(g, rules, relType, from, to, tree, level, depth);
  }

  /** Follow the edges back from the goal, and turn the hops around. */
  method PathBack(g: P.Graph, rules: Rules, relType: Str, start: EntityId, goal: EntityId, tree: Parents,
                  ghost level: map<EntityId, nat>, depth: nat) returns (path: seq<Hop>)
    requires Tree(g, rules, relType, start, tree, level, depth) && goal in tree
    ensures SoundPath(g, rules, relType, start, goal, depth, path)
  {
    LevelBounded(g, rules, relType, start, tree, level, depth, goal);
    var hops := [Hop(goal, tree[goal])];
    var cur := goal;
    while cur != start
      invariant WalkedBack(g, rules, relType, tree, level, goal, hops) && cur == hops[|hops| - 1].id
      decreases level[cur]
    {
      BackOne(g, rules, relType, start, tree, level, depth, goal, hops, cur);
      cur := tree[cur].prev;
      hops := hops + [Hop(cur, tree[cur])];
    }
    path := ReverseHops(hops);
    ReversedIsSound(g, rules, relType, start, goal, tree, level, depth, hops, path);
  }

  /** What a sound path promises, said of its entities: all but the start are live, each step
      is a relation of the graph, a terminal in the middle is left by an edge of its own, an
      interface or neighbour by another relation than it was entered by, and a same_as step
      is believed. */
  lemma PathSaysWhatItShould(g: P.Graph, belief: Belief, threshold: real, relType: Str, start: EntityId,
                             goal: EntityId, depth: nat, path: seq<Hop>, i: nat)
    requires SoundPath(g, SourceRules(belief, threshold), relType, start, goal, depth, path) && 0 < i < |path|
    ensures path[i].came.Via? && path[i].id in P.Live(g)
    ensures var r := path[i].came.edge.rel;
            && r in g.relations && (relType == [] || r.typ == relType)
            && ((r.src == path[i - 1].id && r.dst == path[i].id) || (r.src == path[i].id && r.dst == path[i - 1].id))
            && (r.typ == Ascii("same_as") ==> SameAs(g, belief, threshold, r))
    ensures i > 1 && TypeAt(g, path[i - 1].id) == Ascii("network.endpoint") ==>
              path[i].came.edge.rel.src == path[i - 1].id
    ensures i > 1 ==> path[i - 1].came.Via?
    ensures i > 1 && TypeAt(g, path[i - 1].id) in {Ascii("network.neighbor"), Ascii("network.interface")} &&
              path[i - 1].came.edge.rel.typ != [] ==>
              path[i].came.edge.rel.typ != path[i - 1].came.edge.rel.typ
  {
    var rules := SourceRules(belief, threshold);
    assert Joined(g, rules, relType, path[i - 1], path[i - 1 + 1]);
    BelievedIsSameAs(g, belief, threshold, path[i].came.edge.rel);
    if i > 1 {
      assert Joined(g, rules, relType, path[i - 2], path[i - 2 + 1]);
    }
  }
}
