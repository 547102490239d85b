/** The tombstone cache as a window for resurrection: how long it stays open, and in which
    order a full cache closes it. */
module Tombstones {
  import opened Model
  import P = Projection

  // ------------------------------------------------------------ resurrection

  /** The cache has room for one more tombstone, or makes it at another's expense. */
  ghost predicate Remembers(g: P.Graph, id: EntityId) {
    var q, d := g.queue + [id], g.deleted + {id};
    |g.deleted| < g.cap || ((exists i :: 0 <= i < |q| && q[i] in d) && q[FirstTomb(q, d)] != id)
  }

  /** A deleted entity can be resurrected by its identity, under its own id, exactly while the
      cache remembers it and its window, anchored on the recorded time, is open. */
  lemma ResurrectionWindow(g: P.Graph, e: Entity, recordedAt: Time, now: Time)
    requires P.Indexed(g) && P.Accounted(g) && e.id in P.Live(g) && P.Live(g)[e.id] == e
    ensures var n := P.DeleteEntity(g, e.id, recordedAt);
            && P.MatchIdentity(n, e.ident) == None
            && (P.MatchTombstone(n, e.ident, now) == Some(e.id) <==>
                  Remembers(g, e.id) && (g.ttl <= 0 || now <= recordedAt + g.ttl))
            && P.MatchIdentity(P.PutEntity(n, e), e.ident) == Some(e.id)
            && P.MatchTombstone(P.PutEntity(n, e), e.ident, now) == None
  {
    hide P.Evict, FirstTomb, P.Indexed;
    var b := P.Bury(P.Unindex(g, e.id), e.id, recordedAt);
    BuriedWindow(g, e, recordedAt, now);
    PutBack(P.DeleteEntity(g, e.id, recordedAt), e, now);
    StillIndexed(g, e.id, recordedAt);
    EvictKeepsWindow(b, e, now);
    if |g.deleted| < g.cap {
      PopNone(b);
    } else {
      FullDeleteDropsFirst(g, e.id, recordedAt);
    }
  }

  lemma StillIndexed(g: P.Graph, id: EntityId, at: Time)
    requires P.Indexed(g) && id in P.Live(g)
    ensures P.Loose(P.Bury(P.Unindex(g, id), id, at))
  {
    P.BuryKeepsLoose(g, id, at);
  }

  /** Eviction closes a window only by dropping its tombstone. */
  lemma {:induction false} EvictKeepsWindow(b: P.Graph, e: Entity, now: Time)
    requires P.Loose(b) && e.id in b.deleted && e.ident in b.tombByHash && b.tombByHash[e.ident] == e.id
    ensures P.MatchIdentity(b, e.ident) == None ==> P.MatchIdentity(P.Evict(b), e.ident) == None
    ensures P.MatchTombstone(P.Evict(b), e.ident, now) ==
            if e.id in P.Evict(b).deleted then P.MatchTombstone(b, e.ident, now) else None
    decreases |b.queue|
  {
    hide P.Evict, Popped, P.Loose;
    if b.tombs > b.cap && b.queue != [] {
      PopOne(b);
      var n := Popped(b);
      PoppedWindow(b, e, now);
      if e.id in n.deleted {
        EvictKeepsWindow(n, e, now);
      } else {
        EvictedWindow(n, e, now);
      }
    } else {
      PopNone(b);
    }
  }

  lemma PoppedWindow(b: P.Graph, e: Entity, now: Time)
    requires P.Loose(b) && b.queue != [] && e.id in b.deleted && e.ident in b.tombByHash &&
      b.tombByHash[e.ident] == e.id
    ensures var n := Popped(b);
            && P.Loose(n) && (P.MatchIdentity(b, e.ident) == None ==> P.MatchIdentity(n, e.ident) == None)
            && (e.id in n.deleted ==> e.ident in n.tombByHash && n.tombByHash[e.ident] == e.id
                                      && P.MatchTombstone(n, e.ident, now) == P.MatchTombstone(b, e.ident, now))
            && (e.id !in n.deleted ==> e.ident !in n.tombByHash)
  {
    PoppedLoose(b);
    EntombedAs(b, e);
    hide P.Loose, P.DropTombstone;
    var popped, x := b.(queue := b.queue[1..]), b.queue[0];
    if x in b.deleted {
      DropOther(popped, x, e, now);
    }
  }

  lemma EntombedAs(b: P.Graph, e: Entity)
    requires P.Loose(b) && e.ident in b.tombByHash && b.tombByHash[e.ident] == e.id
    ensures e.id in b.entities && b.entities[e.id].ident == e.ident
  {
    assert P.TombExact(b.entities, b.deleted, b.tombByHash, b.byHash);
  }

  /** Dropping a tombstone closes its own window and no other. */
  lemma DropOther(g: P.Graph, x: EntityId, e: Entity, now: Time)
    requires e.id in g.deleted && e.ident in g.tombByHash && g.tombByHash[e.ident] == e.id
    requires e.id in g.entities && g.entities[e.id].ident == e.ident
    ensures var n := P.DropTombstone(g, x);
            && (P.MatchIdentity(g, e.ident) == None && (e.ident in g.byHash ==> g.byHash[e.ident] != x) ==>
                  P.MatchIdentity(n, e.ident) == None)
            && (e.id in n.deleted <==> x != e.id)
            && (x != e.id ==> e.ident in n.tombByHash && n.tombByHash[e.ident] == e.id
                              && P.MatchTombstone(n, e.ident, now) == P.MatchTombstone(g, e.ident, now))
            && (x == e.id ==> e.ident !in n.tombByHash)
  {
  }

  lemma PoppedLoose(b: P.Graph)
    requires P.Loose(b) && b.queue != []
    ensures P.Loose(Popped(b))
  {
    var popped := b.(queue := b.queue[1..]);
    assert P.Live(popped) == P.Live(b) && P.Loose(popped);
    if b.queue[0] in b.deleted {
      P.DropKeepsLoose(popped, b.queue[0]);
    }
  }

  lemma EvictedWindow(n: P.Graph, e: Entity, now: Time)
    requires P.Loose(n) && e.id !in n.deleted && e.ident !in n.tombByHash
    ensures P.Evict(n).byHash == n.byHash && P.MatchTombstone(P.Evict(n), e.ident, now) == None
    ensures e.id !in P.Evict(n).deleted
    ensures P.MatchIdentity(n, e.ident) == None ==> P.MatchIdentity(P.Evict(n), e.ident) == None
  {
    P.EvictKeepsLoose(n);
    P.EvictShrinks(n);
    P.EvictMoves(n);
    EvictForgets(n, e.ident);
    if e.ident in n.byHash {
      assert n.byHash[e.ident] in P.Live(n);
    }
  }

  lemma {:induction false} EvictForgets(n: P.Graph, i: Identity)
    requires i !in n.tombByHash
    ensures i !in P.Evict(n).tombByHash
    decreases |n.queue|
  {
    if n.tombs > n.cap && n.queue != [] {
      PopOne(n);
      EvictForgets(Popped(n), i);
    }
  }

  lemma BuriedWindow(g: P.Graph, e: Entity, recordedAt: Time, now: Time)
    requires e.id in g.entities && g.entities[e.id] == e && e.id !in g.deleted
    ensures var n := P.Bury(P.Unindex(g, e.id), e.id, recordedAt);
            && P.MatchIdentity(n, e.ident) == None
            && (P.MatchTombstone(n, e.ident, now) == Some(e.id) <==> g.ttl <= 0 || now <= recordedAt + g.ttl)
  {
  }

  lemma PutBack(g: P.Graph, e: Entity, now: Time)
    ensures P.MatchIdentity(P.PutEntity(g, e), e.ident) == Some(e.id)
    ensures P.MatchTombstone(P.PutEntity(g, e), e.ident, now) == None
  {
  }

  // ------------------------------------------------------------ eviction order

  /** What a delete of a live entity does to the queue while the cap is not exceeded. */
  lemma DeleteQueues(g: P.Graph, e: Entity, at: Time)
    requires e.id in g.entities && e.id !in g.deleted && g.tombs < g.cap
    ensures var n := P.DeleteEntity(g, e.id, at);
            && n.queue == g.queue + [e.id] && n.deleted == g.deleted + {e.id} && n.tombs == g.tombs + 1
            && n.cap == g.cap && n.entities == g.entities
  {
  }

  /** a is deleted, resurrected, and deleted again after b: its first queue entry is stale. */
  function Churned(a: Entity, b: Entity, limit: int, ttl: int, at: Time): P.Graph {
    var g1 := P.DeleteEntity(P.PutEntity(P.NewGraph(limit, ttl), a), a.id, at);
    var g2 := P.DeleteEntity(P.PutEntity(P.PutEntity(g1, a), b), b.id, at);
    P.DeleteEntity(g2, a.id, at)
  }

  lemma ChurnedQueue(a: Entity, b: Entity, ttl: int, at: Time)
    requires a.id != b.id
    ensures var g := Churned(a, b, 2, ttl, at);
            g.queue == [a.id, b.id, a.id] && g.deleted == {a.id, b.id} && g.tombs == 2 == g.cap
            && g.entities == map[a.id := a, b.id := b]
  {
    hide P.DeleteEntity;
    var p0 := P.PutEntity(P.NewGraph(2, ttl), a);
    DeleteQueues(p0, a, at);
    var p1 := P.PutEntity(P.PutEntity(P.DeleteEntity(p0, a.id, at), a), b);
    DeleteQueues(p1, b, at);
    DeleteQueues(P.DeleteEntity(p1, b.id, at), a, at);
  }

  /** The stale entry makes the next eviction drop a, the younger tombstone, and keep b: a
      queue holding an id twice does not evict in deletion order. */
  lemma StaleEntryEvictsYounger(a: Entity, b: Entity, c: Entity, ttl: int, at: Time)
    requires a.id != b.id && c.id != a.id && c.id != b.id
    ensures var n := P.DeleteEntity(P.PutEntity(Churned(a, b, 2, ttl, at), c), c.id, at);
            a.id !in n.deleted && b.id in n.deleted && c.id in n.deleted
  {
    hide Churned;
    ChurnedQueue(a, b, ttl, at);
    var g := P.PutEntity(Churned(a, b, 2, ttl, at), c);
    var buried := P.Bury(P.Unindex(g, c.id), c.id, at);
    assert buried.queue == [a.id, b.id, a.id, c.id] && buried.tombs == 3;
    var popped := buried.(queue := buried.queue[1..]);
    assert P.Evict(buried) == P.Evict(P.DropTombstone(popped, a.id));
  }

  /** The graph after one entry was popped. */
  function Popped(g: P.Graph): P.Graph
    requires g.queue != []
  {
    var popped := g.(queue := g.queue[1..]);
    if g.queue[0] in g.deleted then P.DropTombstone(popped, g.queue[0]) else popped
  }

  /** How many queue entries an eviction pops. */
  function Pops(g: P.Graph): (n: nat)
    ensures n <= |g.queue|
    decreases |g.queue|
  {
    if g.tombs <= g.cap || g.queue == [] then 0 else 1 + Pops(Popped(g))
  }

  /** Eviction drops exactly the tombstones with an entry, stale or not, among the popped. */
  lemma {:induction false} EvictExact(g: P.Graph)
    ensures P.Evict(g).queue == g.queue[Pops(g)..]
    ensures P.Evict(g).deleted == g.deleted - SetOf(g.queue[..Pops(g)])
    decreases |g.queue|
  {
    hide P.Evict, Pops, Popped;
    if g.tombs > g.cap && g.queue != [] {
      PopOne(g);
      var next := Popped(g);
      EvictExact(next);
      PoppedPrefix(g.queue, Pops(next));
    } else {
      PopNone(g);
    }
  }

  lemma PoppedPrefix(queue: seq<EntityId>, n: nat)
    requires n < |queue|
    ensures SetOf(queue[..n + 1]) == {queue[0]} + SetOf(queue[1..][..n]) && queue[1..][n..] == queue[n + 1..]
  {
    assert queue[..n + 1] == [queue[0]] + queue[1..][..n];
  }

  lemma PopOne(g: P.Graph)
    requires g.tombs > g.cap && g.queue != []
    ensures P.Evict(g) == P.Evict(Popped(g)) && Pops(g) == 1 + Pops(Popped(g))
    ensures Popped(g).queue == g.queue[1..] && Popped(g).deleted == g.deleted - {g.queue[0]} && Popped(g).cap == g.cap
    ensures Popped(g).tombs == g.tombs - if g.queue[0] in g.deleted then 1 else 0
  {
  }

  lemma PopNone(g: P.Graph)
    requires g.tombs <= g.cap || g.queue == []
    ensures P.Evict(g) == g && Pops(g) == 0
  {
  }

  /** Where the id stands last in the queue: its latest deletion. */
  function LastEntry(queue: seq<EntityId>, id: EntityId): (i: int)
    ensures -1 <= i < |queue| && (i >= 0 ==> queue[i] == id)
    ensures forall k :: i < k < |queue| ==> queue[k] != id
  {
    if queue == [] then -1
    else if queue[|queue| - 1] == id then |queue| - 1
    else
      var i := LastEntry(queue[..|queue| - 1], id);
      assert forall k :: 0 <= k < |queue| - 1 ==> queue[..|queue| - 1][k] == queue[k];
      i
  }

  /** a was deleted before b, both being tombstones. */
  predicate DeletedBefore(g: P.Graph, a: EntityId, b: EntityId) {
    a in g.deleted && b in g.deleted && LastEntry(g.queue, a) < LastEntry(g.queue, b)
  }

  /** An eviction never drops a tombstone and keeps one deleted before it. */
  ghost predicate EvictsInOrder(g: P.Graph) {
    forall a, b :: DeletedBefore(g, a, b) && b !in P.Evict(g).deleted ==> a !in P.Evict(g).deleted
  }

  /** An entry of b is popped though b was deleted after a, none of whose entries is. */
  ghost predicate StalePopped(g: P.Graph, a: EntityId, b: EntityId) {
    DeletedBefore(g, a, b) && b in g.queue[..Pops(g)] && a !in g.queue[..Pops(g)]
  }

  /** Eviction respects the order of deletion exactly when no stale entry is popped ahead of
      an older tombstone. */
  lemma EvictionOrderExact(g: P.Graph)
    ensures EvictsInOrder(g) <==> !exists a, b :: StalePopped(g, a, b)
  {
    hide P.Evict, Pops, LastEntry;
    EvictExact(g);
    if a, b :| StalePopped(g, a, b) {
      assert DeletedBefore(g, a, b) && b !in P.Evict(g).deleted && a in P.Evict(g).deleted;
    }
    if !EvictsInOrder(g) {
      var a, b :| DeletedBefore(g, a, b) && b !in P.Evict(g).deleted && a in P.Evict(g).deleted;
      assert StalePopped(g, a, b);
    }
  }

  // ------------------------------------------------------------ one delete too many

  /** The first entry of the queue that is a tombstone. */
  function FirstTomb(queue: seq<EntityId>, deleted: set<EntityId>): (f: nat)
    requires exists i :: 0 <= i < |queue| && queue[i] in deleted
    ensures f < |queue| && queue[f] in deleted && forall k :: 0 <= k < f ==> queue[k] !in deleted
  {
    if queue[0] in deleted then 0
    else
      assert forall i :: 0 < i < |queue| ==> queue[1..][i - 1] == queue[i];
      1 + FirstTomb(queue[1..], deleted)
  }

  lemma {:induction false} PopsToFirst(g: P.Graph)
    requires g.tombs == g.cap + 1 && exists i :: 0 <= i < |g.queue| && g.queue[i] in g.deleted
    ensures Pops(g) == FirstTomb(g.queue, g.deleted) + 1
    decreases |g.queue|
  {
    hide P.Evict, Pops, Popped;
    PopOne(g);
    if g.queue[0] !in g.deleted {
      var i :| 0 <= i < |g.queue| && g.queue[i] in g.deleted;
      assert Popped(g).queue[i - 1] in Popped(g).deleted;
      PopsToFirst(Popped(g));
    } else {
      PopNone(Popped(g));
    }
  }

  /** A delete into a full cache drops one tombstone, that of the first tombstoned entry. */
  lemma FullDeleteDropsFirst(g: P.Graph, id: EntityId, at: Time)
    requires P.Accounted(g) && |g.deleted| == g.cap && id !in g.deleted
    ensures var q, d := g.queue + [id], g.deleted + {id};
            && (exists i :: 0 <= i < |q| && q[i] in d)
            && P.DeleteEntity(g, id, at).deleted == d - {q[FirstTomb(q, d)]}
  {
    hide P.Evict, Pops, FirstTomb;
    var b := P.Bury(P.Unindex(g, id), id, at);
    var q, d := g.queue + [id], g.deleted + {id};
    assert q[|g.queue|] == id;
    assert b.queue == q && b.deleted == d;
    PopsToFirst(b);
    EvictExact(b);
    var f := FirstTomb(q, d);
    assert d - SetOf(q[..f + 1]) == d - {q[f]};
  }

  // ------------------------------------------------------------ over whole sequences

  /** The ids buried over a sequence of events, in order. */
  function Burials(limit: int, ttl: int, evs: seq<Event>): seq<EntityId> {
    if evs == [] then []
    else
      var n := |evs| - 1;
      var ev := evs[n];
      Burials(limit, ttl, evs[..n]) +
      if ev.EntityEvent? && ev.change == Deleted &&
        ev.entity.id !in P.ApplyAll(P.NewGraph(limit, ttl), evs[..n]).deleted
      then [ev.entity.id] else []
  }

  lemma UnindexKeepsQueue(g: P.Graph, id: EntityId)
    ensures P.Unindex(g, id).queue == g.queue && P.Unindex(g, id).deleted == g.deleted
  {
  }

  ghost predicate SuffixOf(q: seq<EntityId>, all: seq<EntityId>) {
    |q| <= |all| && q == all[|all| - |q|..]
  }

  lemma SuffixGrows(q: seq<EntityId>, all: seq<EntityId>, id: EntityId, k: nat)
    requires SuffixOf(q, all) && k <= |q| + 1
    ensures SuffixOf((q + [id])[k..], all + [id])
  {
    var n := |all| - |q|;
    assert all + [id] == all[..n] + (q + [id]);
  }

  /** The queue is what is left of the burials after those popped from the front. */
  lemma {:induction false} QueueIsBurials(limit: int, ttl: int, evs: seq<Event>)
    ensures SuffixOf(P.ApplyAll(P.NewGraph(limit, ttl), evs).queue, Burials(limit, ttl, evs))
  {
    if evs != [] {
      hide P.Evict, P.PutEntity, P.ApplyAll, SuffixOf;
      var n := |evs| - 1;
      QueueIsBurials(limit, ttl, evs[..n]);
      AppliedLast(limit, ttl, evs);
      var g, ev := P.ApplyAll(P.NewGraph(limit, ttl), evs[..n]), evs[n];
      QueueStep(g, ev, Burials(limit, ttl, evs[..n]));
    } else {
      assert P.ApplyAll(P.NewGraph(limit, ttl), []).queue == [];
    }
  }

  lemma AppliedLast(limit: int, ttl: int, evs: seq<Event>)
    requires evs != []
    ensures P.ApplyAll(P.NewGraph(limit, ttl), evs) ==
            P.Apply(P.ApplyAll(P.NewGraph(limit, ttl), evs[..|evs| - 1]), evs[|evs| - 1])
  {
  }

  lemma QueueStep(g: P.Graph, ev: Event, all: seq<EntityId>)
    requires SuffixOf(g.queue, all)
    ensures SuffixOf(P.Apply(g, ev).queue,
                     all + if ev.EntityEvent? && ev.change == Deleted &&
                       ev.entity.id !in g.deleted then [ev.entity.id] else [])
  {
    hide P.Evict, SuffixOf;
    if ev.EntityEvent? && ev.change == Deleted {
      UnindexKeepsQueue(g, ev.entity.id);
      if ev.entity.id !in g.deleted {
        var b := P.Bury(P.Unindex(g, ev.entity.id), ev.entity.id, ev.recordedAt);
        EvictExact(b);
        SuffixGrows(g.queue, all, ev.entity.id, Pops(b));
      } else {
        assert all + [] == all;
      }
    } else {
      assert all + [] == all;
      assert P.Apply(g, ev).queue == g.queue;
    }
  }

  /** x was deleted, then a, then, having come back, x again. */
  ghost predicate Overtakes(burials: seq<EntityId>, x: EntityId, a: EntityId) {
    exists k :: 0 <= k < |burials| && burials[k] == x && k < LastEntry(burials, a) < LastEntry(burials, x)
  }

  /** Every other tombstone was last deleted after x was. */
  ghost predicate LongestDead(burials: seq<EntityId>, deleted: set<EntityId>, x: EntityId) {
    forall a :: a in deleted && a != x ==> LastEntry(burials, x) < LastEntry(burials, a)
  }

  lemma SuffixEntry(q: seq<EntityId>, all: seq<EntityId>, a: EntityId)
    requires SuffixOf(q, all) && a in q
    ensures LastEntry(all, a) == |all| - |q| + LastEntry(q, a) && LastEntry(q, a) >= 0
  {
    hide LastEntry;
    var n, l := |all| - |q|, LastEntry(q, a);
    var k :| 0 <= k < |q| && q[k] == a;
    assert all[n + l] == a;
    assert forall m :: n + l < m < |all| ==> all[m] == q[m - n];
  }

  lemma NoneBefore(q: seq<EntityId>, d: set<EntityId>, a: EntityId)
    requires a in d && a in q
    ensures (exists i :: 0 <= i < |q| && q[i] in d) && FirstTomb(q, d) <= LastEntry(q, a)
    ensures q[FirstTomb(q, d)] != a ==> FirstTomb(q, d) < LastEntry(q, a)
  {
    hide LastEntry, FirstTomb;
    var k :| 0 <= k < |q| && q[k] == a;
    assert q[k] in d;
  }

  /** Over every sequence of events, a delete into a full cache drops one tombstone x, and x is
      the one longest dead exactly when x was not deleted, overtaken by another tombstone's
      deletion, and deleted again. */
  lemma FullDeleteOrder(limit: int, ttl: int, evs: seq<Event>, id: EntityId, at: Time) returns (x: EntityId)
    requires var g := P.ApplyAll(P.NewGraph(limit, ttl), evs); |g.deleted| == g.cap && id !in g.deleted
    ensures var g := P.ApplyAll(P.NewGraph(limit, ttl), evs);
            var burials, d := Burials(limit, ttl, evs) + [id], g.deleted + {id};
            && x in d && P.DeleteEntity(g, id, at).deleted == d - {x}
            && (LongestDead(burials, d, x) <==> !exists a :: a in d && Overtakes(burials, x, a))
  {
    hide P.ApplyAll, P.DeleteEntity, FirstTomb, LastEntry;
    var g := P.ApplyAll(P.NewGraph(limit, ttl), evs);
    P.TombstonesAccounted(limit, ttl, evs);
    QueueIsBurials(limit, ttl, evs);
    var all, q, d := Burials(limit, ttl, evs) + [id], g.queue + [id], g.deleted + {id};
    SuffixGrows(g.queue, Burials(limit, ttl, evs), id, 0);
    assert q[0..] == q;
    FullDeleteDropsFirst(g, id, at);
    var f := FirstTomb(q, d);
    x := q[f];
    var n := |all| - |q|;
    assert all[n + f] == x;
    forall a | a in d
      ensures a != x ==> n + f < LastEntry(all, a)
    {
      assert a in q;
      SuffixEntry(q, all, a);
      NoneBefore(q, d, a);
    }
    OrderIff(all, d, x, n + f);
  }

  lemma OrderIff(all: seq<EntityId>, d: set<EntityId>, x: EntityId, k: nat)
    requires k < |all| && all[k] == x && forall a :: a in d && a != x ==> k < LastEntry(all, a)
    ensures LongestDead(all, d, x) <==> !exists a :: a in d && Overtakes(all, x, a)
  {
    hide LastEntry;
    forall a | a in d && a != x
      ensures LastEntry(all, a) != LastEntry(all, x)
    {
    }
    forall a | a in d
      ensures Overtakes(all, x, a) <==> a != x && LastEntry(all, a) < LastEntry(all, x)
    {
    }
  }

  /** No tombstoned id stands in the queue twice. */
  ghost predicate QueuedOnce(g: P.Graph) {
    forall i, j :: 0 <= i < j < |g.queue| && g.queue[i] in g.deleted ==> g.queue[i] != g.queue[j]
  }

  /** In particular eviction drops tombstones strictly in the order of their deletion when
      none is queued twice. */
  lemma EvictsOldestFirst(g: P.Graph)
    requires QueuedOnce(g) && P.Queued(g.deleted, g.queue)
    ensures EvictsInOrder(g)
  {
    hide P.Evict, Pops, LastEntry;
    EvictionOrderExact(g);
    if a, b :| StalePopped(g, a, b) {
      OnceNotStale(g, a, b);
    }
  }

  lemma OnceNotStale(g: P.Graph, a: EntityId, b: EntityId)
    requires QueuedOnce(g) && P.Queued(g.deleted, g.queue)
    ensures !StalePopped(g, a, b)
  {
    hide Pops, LastEntry;
    if DeletedBefore(g, a, b) && b in g.queue[..Pops(g)] {
      var i :| 0 <= i < Pops(g) && g.queue[i] == b;
      assert i == LastEntry(g.queue, b);
      var j :| 0 <= j < |g.queue| && g.queue[j] == a;
      var m := LastEntry(g.queue, a);
      assert m >= 0 && g.queue[..Pops(g)][m] == a;
    }
  }
}
