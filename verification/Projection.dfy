/** The in-memory projection of the log as a value: what each event does to its maps,
    and the invariants its indexes and its tombstone cache keep. */
module Projection {
  import opened Text
  import opened Model
  import opened EventLog

  datatype Graph = Graph(
    entities: map<EntityId, Entity>,       // live and soft-deleted
    deleted: set<EntityId>,
    relations: map<RelationId, Relation>,
    outs: map<EntityId, set<RelationId>>,
    ins: map<EntityId, set<RelationId>>,
    byHash: map<Identity, EntityId>,
    byType: map<Str, set<EntityId>>,
    queue: seq<EntityId>,                  // deletion order, may hold stale ids
    cap: nat,
    tombs: int,                            // how many ids are tombstoned
    tombByHash: map<Identity, EntityId>,
    tombDeadline: map<EntityId, Time>,
    ttl: int)

  const DEFAULT_CAP: nat := 1024

  function NewGraph(limit: int, ttl: int): (g: Graph)
    ensures g.cap > 0
  {
    Graph(map[], {}, map[], map[], map[], map[], map[], [],
          if limit <= 0 then DEFAULT_CAP else limit, 0, map[], map[], ttl)
  }

  // ------------------------------------------------------------ mutations

  function Member<K, V>(m: map<K, set<V>>, k: K): set<V> {
    if k in m then m[k] else {}
  }

  function PutEntity(g: Graph, e: Entity): Graph {
    g.(entities := g.entities[e.id := e],
       tombs := if e.id in g.deleted then g.tombs - 1 else g.tombs,
       tombDeadline := if e.id in g.deleted then g.tombDeadline - {e.id} else g.tombDeadline,
       deleted := g.deleted - {e.id},
       tombByHash := g.tombByHash - {e.ident},
       byHash := g.byHash[e.ident := e.id],
       byType := g.byType[e.ident.typ := Member(g.byType, e.ident.typ) + {e.id}])
  }

  /** Drop the live indexes of an entity the graph holds, keeping its identity resurrectable. */
  function Unindex(g: Graph, id: EntityId): Graph {
    if id !in g.entities then g else
    var e := g.entities[id];
    g.(byHash := g.byHash - {e.ident},
       tombByHash := g.tombByHash[e.ident := id],
       byType := if e.ident.typ in g.byType
                 then g.byType[e.ident.typ := g.byType[e.ident.typ] - {id}] else g.byType)
  }

  /** Queue a fresh tombstone, its grace window anchored on the recorded time. */
  function Bury(g: Graph, id: EntityId, recordedAt: Time): Graph {
    g.(deleted := g.deleted + {id},
       queue := g.queue + [id],
       tombs := g.tombs + 1,
       tombDeadline := if g.ttl > 0 then g.tombDeadline[id := recordedAt + g.ttl] else g.tombDeadline)
  }

  function DropTombstone(g: Graph, id: EntityId): Graph {
    g.(tombByHash := if id in g.entities && g.entities[id].ident in g.tombByHash
                        && g.tombByHash[g.entities[id].ident] == id
                     then g.tombByHash - {g.entities[id].ident} else g.tombByHash,
       entities := g.entities - {id},
       deleted := g.deleted - {id},
       tombDeadline := g.tombDeadline - {id},
       tombs := g.tombs - 1)
  }

  /** Evict the oldest tombstones beyond the cap, skipping stale queue entries. */
  function Evict(g: Graph): Graph
    decreases |g.queue|
  {
    if g.tombs <= g.cap || g.queue == [] then g
    else
      var id := g.queue[0];
      var popped := g.(queue := g.queue[1..]);
      if id !in g.deleted then Evict(popped) else Evict(DropTombstone(popped, id))
  }

  function DeleteEntity(g: Graph, id: EntityId, recordedAt: Time): Graph {
    var g1 := Unindex(g, id);
    if id in g1.deleted then g1 else Evict(Bury(g1, id, recordedAt))
  }

  function AddRelation(g: Graph, r: Relation): Graph {
    g.(relations := g.relations[r.id := r],
       outs := g.outs[r.id.src := Member(g.outs, r.id.src) + {r.id}],
       ins := g.ins[r.id.dst := Member(g.ins, r.id.dst) + {r.id}])
  }

  function RemoveRelation(g: Graph, rid: RelationId): Graph {
    g.(relations := g.relations - {rid},
       outs := if rid.src in g.outs then g.outs[rid.src := g.outs[rid.src] - {rid}] else g.outs,
       ins := if rid.dst in g.ins then g.ins[rid.dst := g.ins[rid.dst] - {rid}] else g.ins)
  }

  function Apply(g: Graph, ev: Event): Graph {
    match ev
    case EntityEvent(Deleted, e, _, recordedAt) => DeleteEntity(g, e.id, recordedAt)
    case EntityEvent(Unchanged, e, _, _) => if e.id in g.entities then g else PutEntity(g, e)
    case EntityEvent(_, e, _, _) => PutEntity(g, e)
    case RelationEvent(Removed, r, _, _) => RemoveRelation(g, r.id)
    case RelationEvent(_, r, _, _) => AddRelation(g, r)
  }

  function ApplyAll(g: Graph, evs: seq<Event>): Graph {
    if evs == [] then g
    else Apply(ApplyAll(g, evs[..|evs| - 1]), evs[|evs| - 1])
  }

  lemma {:induction false} ApplyAllConcat(g: Graph, a: seq<Event>, b: seq<Event>)
    ensures ApplyAll(g, a + b) == ApplyAll(ApplyAll(g, a), b)
  {
    if b == [] {
      assert a + b == a;
    } else {
      var n := |b| - 1;
      assert (a + b)[..|a| + n] == a + b[..n];
      ApplyAllConcat(g, a, b[..n]);
    }
  }

  /** The tombstones whose grace window has elapsed. */
  function Elapsed(g: Graph, now: Time): set<EntityId> {
    set id | id in g.tombDeadline && now > g.tombDeadline[id]
  }

  /** Drop a set of ids from the tombstone cache, or only their moot deadlines. */
  function Forget(g: Graph, ids: set<EntityId>): Graph {
    var gone := ids * g.deleted;
    g.(tombByHash := map i | i in g.tombByHash
                       && !(g.tombByHash[i] in gone && g.tombByHash[i] in g.entities
                            && g.entities[g.tombByHash[i]].ident == i) :: g.tombByHash[i],
       entities := g.entities - gone,
       deleted := g.deleted - gone,
       tombDeadline := g.tombDeadline - ids,
       tombs := g.tombs - |gone|)
  }

  /** Keep the queue entries still tombstoned, one each, the oldest position winning. */
  function Compacted(queue: seq<EntityId>, deleted: set<EntityId>): seq<EntityId> {
    if queue == [] then []
    else
      var n := |queue| - 1;
      var kept := Compacted(queue[..n], deleted);
      if queue[n] in deleted && queue[n] !in kept then kept + [queue[n]] else kept
  }

  function PruneTombstones(g: Graph, now: Time): Graph {
    if g.ttl <= 0 then g
    else
      var g1 := Forget(g, Elapsed(g, now));
      if |g1.queue| > 2 * g1.tombs then g1.(queue := Compacted(g1.queue, g1.deleted)) else g1
  }

  // ------------------------------------------------------------ reads

  /** The live entities. */
  function Live(g: Graph): map<EntityId, Entity> {
    g.entities - g.deleted
  }

  function MatchIdentity(g: Graph, ident: Identity): Option<EntityId> {
    if ident in g.byHash && g.byHash[ident] !in g.deleted then Some(g.byHash[ident]) else None
  }

  function MatchTombstone(g: Graph, ident: Identity, now: Time): Option<EntityId> {
    if ident !in g.tombByHash || g.tombByHash[ident] !in g.deleted then None else
    var id := g.tombByHash[ident];
    if g.ttl > 0 && id in g.tombDeadline && now > g.tombDeadline[id] then None else Some(id)
  }

  // ------------------------------------------------------------ index invariants

  ghost predicate Keyed(entities: map<EntityId, Entity>, relations: map<RelationId, Relation>) {
    && (forall id :: id in entities ==> entities[id].id == id)
    && (forall r :: r in relations ==> relations[r].id == r)
  }

  ghost predicate HashSound(live: map<EntityId, Entity>, byHash: map<Identity, EntityId>) {
    forall i :: i in byHash ==> byHash[i] in live && live[byHash[i]].ident == i
  }

  /** The hash index holds exactly one entry per live entity. */
  ghost predicate HashExact(live: map<EntityId, Entity>, byHash: map<Identity, EntityId>) {
    && HashSound(live, byHash)
    && (forall id :: id in live ==> live[id].ident in byHash && byHash[live[id].ident] == id)
  }

  /** A tombstone answers for an identity nobody live holds. */
  ghost predicate TombExact(entities: map<EntityId, Entity>, deleted: set<EntityId>,
                            tombByHash: map<Identity, EntityId>, byHash: map<Identity, EntityId>)
  {
    forall i :: i in tombByHash ==>
      && tombByHash[i] in entities && tombByHash[i] in deleted
      && entities[tombByHash[i]].ident == i && i !in byHash
  }

  ghost predicate TypeExact(live: map<EntityId, Entity>, byType: map<Str, set<EntityId>>) {
    && (forall t, id :: t in byType && id in byType[t] ==> id in live && live[id].ident.typ == t)
    && (forall id :: id in live ==> live[id].ident.typ in byType && id in byType[live[id].ident.typ])
  }

  ghost predicate AdjacencyExact(relations: map<RelationId, Relation>,
                                 outs: map<EntityId, set<RelationId>>, ins: map<EntityId, set<RelationId>>)
  {
    && (forall a, r :: a in outs && r in outs[a] ==> r in relations && r.src == a)
    && (forall a, r :: a in ins && r in ins[a] ==> r in relations && r.dst == a)
    && (forall r :: r in relations ==> r.src in outs && r in outs[r.src] && r.dst in ins && r in ins[r.dst])
  }

  /** Every index entry is right, though a live entity may lack its hash entry. */
  ghost predicate Loose(g: Graph) {
    && Keyed(g.entities, g.relations)
    && HashSound(Live(g), g.byHash)
    && TombExact(g.entities, g.deleted, g.tombByHash, g.byHash)
    && TypeExact(Live(g), g.byType)
    && AdjacencyExact(g.relations, g.outs, g.ins)
  }

  ghost predicate Indexed(g: Graph) {
    Loose(g) && HashExact(Live(g), g.byHash)
  }

  /** The event names its entity by the identity the graph knows it by. */
  ghost predicate KeepsName(g: Graph, ev: Event) {
    ev.EntityEvent? && ev.entity.id in g.entities ==> g.entities[ev.entity.id].ident == ev.entity.ident
  }

  /** A heartbeat or a delete does not name a tombstone. */
  ghost predicate NotBuried(g: Graph, ev: Event) {
    ev.EntityEvent? && (ev.change == Unchanged || ev.change == Deleted) && ev.entity.id in g.entities ==>
      ev.entity.id !in g.deleted
  }

  /** An event the indexes can absorb: it keeps its entity's name, does not stir a
      tombstone, and its identity has no other live owner. */
  ghost predicate Fits(g: Graph, ev: Event) {
    && KeepsName(g, ev)
    && NotBuried(g, ev)
    && (ev.EntityEvent? && ev.change != Deleted && ev.entity.ident in g.byHash ==>
          g.byHash[ev.entity.ident] == ev.entity.id)
  }

  lemma HashSoundPut(live: map<EntityId, Entity>, byHash: map<Identity, EntityId>, e: Entity)
    requires HashSound(live, byHash)
    requires e.id in live ==> live[e.id].ident == e.ident
    ensures HashSound(live[e.id := e], byHash[e.ident := e.id])
  {
  }

  lemma HashSoundRemove(live: map<EntityId, Entity>, byHash: map<Identity, EntityId>, id: EntityId)
    requires HashSound(live, byHash) && id in live
    ensures HashSound(live - {id}, byHash - {live[id].ident})
  {
  }

  lemma HashPut(live: map<EntityId, Entity>, byHash: map<Identity, EntityId>, e: Entity)
    requires HashExact(live, byHash)
    requires e.id in live ==> live[e.id].ident == e.ident
    requires e.ident in byHash ==> byHash[e.ident] == e.id
    ensures HashExact(live[e.id := e], byHash[e.ident := e.id])
  {
  }

  lemma HashRemove(live: map<EntityId, Entity>, byHash: map<Identity, EntityId>, id: EntityId)
    requires HashExact(live, byHash) && id in live
    ensures HashExact(live - {id}, byHash - {live[id].ident})
  {
  }

  lemma TypePut(live: map<EntityId, Entity>, byType: map<Str, set<EntityId>>, e: Entity)
    requires TypeExact(live, byType)
    requires e.id in live ==> live[e.id].ident == e.ident
    ensures TypeExact(live[e.id := e], byType[e.ident.typ := Member(byType, e.ident.typ) + {e.id}])
  {
  }

  lemma TypeRemove(live: map<EntityId, Entity>, byType: map<Str, set<EntityId>>, id: EntityId)
    requires TypeExact(live, byType) && id in live
    ensures live[id].ident.typ in byType
    ensures TypeExact(live - {id}, byType[live[id].ident.typ := byType[live[id].ident.typ] - {id}])
  {
    var n := byType[live[id].ident.typ := byType[live[id].ident.typ] - {id}];
    assert forall t :: t in byType && id in byType[t] ==> t == live[id].ident.typ;
    assert forall t, x :: t in n && x in n[t] ==> x in byType[t] && x != id;
  }

  lemma AdjacencyAdd(g: Graph, r: Relation)
    requires AdjacencyExact(g.relations, g.outs, g.ins)
    ensures var n := AddRelation(g, r); AdjacencyExact(n.relations, n.outs, n.ins)
  {
    var n := AddRelation(g, r);
    forall a, q | a in n.outs && q in n.outs[a]
      ensures q in n.relations && q.src == a
    {
      assert q == r.id || (a in g.outs && q in g.outs[a]);
    }
    forall a, q | a in n.ins && q in n.ins[a]
      ensures q in n.relations && q.dst == a
    {
      assert q == r.id || (a in g.ins && q in g.ins[a]);
    }
  }

  lemma AdjacencyRemove(g: Graph, rid: RelationId)
    requires AdjacencyExact(g.relations, g.outs, g.ins)
    ensures var n := RemoveRelation(g, rid); AdjacencyExact(n.relations, n.outs, n.ins)
  {
    RemovedOuts(g.relations, g.outs, rid);
    RemovedIns(g.relations, g.ins, rid);
  }

  lemma RemovedOuts(relations: map<RelationId, Relation>, outs: map<EntityId, set<RelationId>>, rid: RelationId)
    requires forall a, r :: a in outs && r in outs[a] ==> r in relations && r.src == a
    requires forall r :: r in relations ==> r.src in outs && r in outs[r.src]
    ensures var n := if rid.src in outs then outs[rid.src := outs[rid.src] - {rid}] else outs;
            && (forall a, r :: a in n && r in n[a] ==> r in relations - {rid} && r.src == a)
            && (forall r :: r in relations - {rid} ==> r.src in n && r in n[r.src])
  {
    var n := if rid.src in outs then outs[rid.src := outs[rid.src] - {rid}] else outs;
    forall a, r | a in n && r in n[a]
      ensures r in relations - {rid} && r.src == a
    {
      assert a in outs && r in outs[a];
    }
  }

  lemma RemovedIns(relations: map<RelationId, Relation>, ins: map<EntityId, set<RelationId>>, rid: RelationId)
    requires forall a, r :: a in ins && r in ins[a] ==> r in relations && r.dst == a
    requires forall r :: r in relations ==> r.dst in ins && r in ins[r.dst]
    ensures var n := if rid.dst in ins then ins[rid.dst := ins[rid.dst] - {rid}] else ins;
            && (forall a, r :: a in n && r in n[a] ==> r in relations - {rid} && r.dst == a)
            && (forall r :: r in relations - {rid} ==> r.dst in n && r in n[r.dst])
  {
    var n := if rid.dst in ins then ins[rid.dst := ins[rid.dst] - {rid}] else ins;
    forall a, r | a in n && r in n[a]
      ensures r in relations - {rid} && r.dst == a
    {
      assert a in ins && r in ins[a];
    }
  }

  // Each mutation, index by index.

  lemma LivePut(g: Graph, e: Entity)
    ensures Live(PutEntity(g, e)) == Live(g)[e.id := e]
  {
  }

  lemma TombPut(g: Graph, e: Entity)
    requires TombExact(g.entities, g.deleted, g.tombByHash, g.byHash)
    requires e.id in g.entities ==> g.entities[e.id].ident == e.ident
    ensures var n := PutEntity(g, e); TombExact(n.entities, n.deleted, n.tombByHash, n.byHash)
  {
  }

  lemma KeyedPut(g: Graph, e: Entity)
    requires Keyed(g.entities, g.relations)
    ensures var n := PutEntity(g, e); Keyed(n.entities, n.relations)
  {
  }

  lemma PutKeepsLoose(g: Graph, e: Entity)
    requires Loose(g)
    requires e.id in g.entities ==> g.entities[e.id].ident == e.ident
    ensures Loose(PutEntity(g, e))
  {
    LivePut(g, e);
    KeyedPut(g, e);
    TombPut(g, e);
    HashSoundPut(Live(g), g.byHash, e);
    TypePut(Live(g), g.byType, e);
  }

  lemma DropMoves(g: Graph, id: EntityId)
    requires id in g.deleted
    ensures Live(DropTombstone(g, id)) == Live(g)
    ensures DropTombstone(g, id).entities.Items <= g.entities.Items
  {
  }

  /** Eviction only forgets tombstones. */
  lemma {:induction false} EvictMoves(g: Graph)
    ensures Live(Evict(g)) == Live(g)
    ensures Evict(g).relations == g.relations
    ensures Evict(g).entities.Items <= g.entities.Items
    decreases |g.queue|
  {
    if g.tombs > g.cap && g.queue != [] {
      var popped := g.(queue := g.queue[1..]);
      assert Live(popped) == Live(g);
      if g.queue[0] in g.deleted {
        DropMoves(popped, g.queue[0]);
        EvictMoves(DropTombstone(popped, g.queue[0]));
      } else {
        EvictMoves(popped);
      }
    }
  }

  lemma {:induction false} EvictShrinks(g: Graph)
    ensures Evict(g).deleted <= g.deleted
    decreases |g.queue|
  {
    if g.tombs > g.cap && g.queue != [] {
      var popped := g.(queue := g.queue[1..]);
      EvictShrinks(if g.queue[0] in g.deleted then DropTombstone(popped, g.queue[0]) else popped);
    }
  }

  lemma DropKeepsLoose(g: Graph, id: EntityId)
    requires Loose(g) && id in g.deleted
    ensures Loose(DropTombstone(g, id))
  {
    DropMoves(g, id);
  }

  lemma {:induction false} EvictKeepsLoose(g: Graph)
    requires Loose(g)
    ensures Loose(Evict(g)) && Evict(g).byHash == g.byHash
    decreases |g.queue|
  {
    if g.tombs > g.cap && g.queue != [] {
      var popped := g.(queue := g.queue[1..]);
      assert Live(popped) == Live(g) && Loose(popped);
      if g.queue[0] in g.deleted {
        DropKeepsLoose(popped, g.queue[0]);
        EvictKeepsLoose(DropTombstone(popped, g.queue[0]));
      } else {
        EvictKeepsLoose(popped);
      }
    }
  }

  lemma LiveBury(g: Graph, id: EntityId, at: Time)
    ensures Live(Bury(Unindex(g, id), id, at)) == Live(g) - {id}
  {
  }

  lemma TombBury(g: Graph, id: EntityId, at: Time)
    requires TombExact(g.entities, g.deleted, g.tombByHash, g.byHash)
    ensures var n := Bury(Unindex(g, id), id, at); TombExact(n.entities, n.deleted, n.tombByHash, n.byHash)
  {
  }

  lemma BuryKeepsLoose(g: Graph, id: EntityId, at: Time)
    requires Loose(g) && id !in g.deleted
    ensures Loose(Bury(Unindex(g, id), id, at))
  {
    LiveBury(g, id, at);
    TombBury(g, id, at);
    if id in g.entities {
      assert id in Live(g) && Live(g)[id] == g.entities[id];
      HashSoundRemove(Live(g), g.byHash, id);
      TypeRemove(Live(g), g.byType, id);
    } else {
      assert Live(g) - {id} == Live(g);
    }
  }

  lemma DeleteMoves(g: Graph, id: EntityId, at: Time)
    ensures var n := DeleteEntity(g, id, at);
            Live(n) == Live(g) - {id} && n.relations == g.relations && n.entities.Items <= g.entities.Items
  {
    var g1 := Unindex(g, id);
    if id in g1.deleted {
      assert Live(g1) == Live(g) - {id};
    } else {
      LiveBury(g, id, at);
      EvictMoves(Bury(g1, id, at));
    }
  }

  lemma DeleteKeepsLoose(g: Graph, id: EntityId, at: Time)
    requires Loose(g) && (id in g.entities ==> id !in g.deleted)
    ensures Loose(DeleteEntity(g, id, at))
    ensures DeleteEntity(g, id, at).byHash == if id in g.entities then g.byHash - {g.entities[id].ident} else g.byHash
  {
    if id !in g.deleted {
      BuryKeepsLoose(g, id, at);
      EvictKeepsLoose(Bury(Unindex(g, id), id, at));
    }
  }

  lemma AddRelationKeepsLoose(g: Graph, r: Relation)
    requires Loose(g)
    ensures Loose(AddRelation(g, r))
  {
    AdjacencyAdd(g, r);
    assert Live(AddRelation(g, r)) == Live(g);
  }

  lemma RemoveRelationKeepsLoose(g: Graph, rid: RelationId)
    requires Loose(g)
    ensures Loose(RemoveRelation(g, rid))
  {
    AdjacencyRemove(g, rid);
    assert Live(RemoveRelation(g, rid)) == Live(g);
  }

  /** What an event does to the hash index. */
  function HashStep(g: Graph, ev: Event): map<Identity, EntityId> {
    match ev
    case EntityEvent(Deleted, e, _, _) =>
      if e.id in g.entities then g.byHash - {g.entities[e.id].ident} else g.byHash
    case EntityEvent(Unchanged, e, _, _) =>
      if e.id in g.entities then g.byHash else g.byHash[e.ident := e.id]
    case EntityEvent(_, e, _, _) => g.byHash[e.ident := e.id]
    case RelationEvent(_, _, _, _) => g.byHash
  }

  /** Every event that keeps names and leaves tombstones alone leaves the index entries right. */
  lemma ApplyKeepsLoose(g: Graph, ev: Event)
    requires Loose(g) && KeepsName(g, ev) && NotBuried(g, ev)
    ensures Loose(Apply(g, ev)) && Apply(g, ev).byHash == HashStep(g, ev)
  {
    hide Loose, DeleteEntity, PutEntity, AddRelation, RemoveRelation;
    match ev
    case EntityEvent(Deleted, e, _, at) =>
      assert Apply(g, ev) == DeleteEntity(g, e.id, at);
      DeleteKeepsLoose(g, e.id, at);
    case EntityEvent(_, e, _, _) =>
      assert Apply(g, ev) == g || Apply(g, ev) == PutEntity(g, e);
      PutKeepsLoose(g, e);
      PutHash(g, e);
    case RelationEvent(ct, r, _, _) =>
      assert Apply(g, ev) == if ct == Removed then RemoveRelation(g, r.id) else AddRelation(g, r);
      AddRelationKeepsLoose(g, r);
      RemoveRelationKeepsLoose(g, r.id);
      RelationsKeepHash(g, r);
  }

  lemma PutHash(g: Graph, e: Entity)
    ensures PutEntity(g, e).byHash == g.byHash[e.ident := e.id]
  {
  }

  lemma RelationsKeepHash(g: Graph, r: Relation)
    ensures AddRelation(g, r).byHash == g.byHash && RemoveRelation(g, r.id).byHash == g.byHash
  {
  }

  lemma LiveForget(g: Graph, ids: set<EntityId>)
    ensures Live(Forget(g, ids)) == Live(g)
  {
  }

  lemma TombForget(g: Graph, ids: set<EntityId>)
    requires TombExact(g.entities, g.deleted, g.tombByHash, g.byHash)
    ensures var n := Forget(g, ids); TombExact(n.entities, n.deleted, n.tombByHash, n.byHash)
  {
  }

  lemma ForgetKeepsIndexes(g: Graph, ids: set<EntityId>)
    requires Indexed(g)
    ensures Indexed(Forget(g, ids)) && Live(Forget(g, ids)) == Live(g)
  {
    LiveForget(g, ids);
    TombForget(g, ids);
  }

  lemma PruneKeepsIndexes(g: Graph, now: Time)
    requires Indexed(g)
    ensures Indexed(PruneTombstones(g, now)) && Live(PruneTombstones(g, now)) == Live(g)
    ensures PruneTombstones(g, now).relations == g.relations
    ensures PruneTombstones(g, now).entities.Items <= g.entities.Items
  {
    if g.ttl > 0 {
      var g1 := Forget(g, Elapsed(g, now));
      ForgetKeepsIndexes(g, Elapsed(g, now));
      var g2 := g1.(queue := Compacted(g1.queue, g1.deleted));
      assert Live(g2) == Live(g1);
    }
  }

  // ------------------------------------------------------------ agreement with the log

  /** These live entities and relations are exactly the view. */
  ghost predicate ShowsMaps(live: map<EntityId, Entity>, relations: map<RelationId, Relation>, view: View) {
    && (forall id :: Ent(id) in view <==> id in live)
    && (forall id :: id in live ==> view[Ent(id)] == CoreOf(live[id]))
    && (forall r :: Rel(r) in view <==> r in relations)
    && (forall r :: r in relations ==> view[Rel(r)] == RelCore(relations[r].attrs))
  }

  ghost predicate Shows(g: Graph, view: View) {
    ShowsMaps(Live(g), g.relations, view)
  }

  /** Wherever both know an entity id, they know it by the same identity. */
  ghost predicate SameNames(entities: map<EntityId, Entity>, ident: map<EntityId, Identity>) {
    forall id :: id in entities && id in ident ==> entities[id].ident == ident[id]
  }

  lemma NamesShrink(entities: map<EntityId, Entity>, fewer: map<EntityId, Entity>, ident: map<EntityId, Identity>)
    requires SameNames(entities, ident) && fewer.Items <= entities.Items
    ensures SameNames(fewer, ident)
    ensures fewer.Keys <= entities.Keys
  {
    forall id | id in fewer
      ensures id in entities && fewer[id] == entities[id]
    {
      assert (id, fewer[id]) in fewer.Items;
    }
  }

  function LiveStep(live: map<EntityId, Entity>, ev: Event): map<EntityId, Entity> {
    match ev
    case EntityEvent(Deleted, e, _, _) => live - {e.id}
    case EntityEvent(Unchanged, e, _, _) => if e.id in live then live else live[e.id := e]
    case EntityEvent(_, e, _, _) => live[e.id := e]
    case RelationEvent(_, _, _, _) => live
  }

  function RelationStep(relations: map<RelationId, Relation>, ev: Event): map<RelationId, Relation> {
    match ev
    case EntityEvent(_, _, _, _) => relations
    case RelationEvent(Removed, r, _, _) => relations - {r.id}
    case RelationEvent(_, r, _, _) => relations[r.id := r]
  }

  lemma DeleteMovesLive(g: Graph, ev: Event)
    requires ev.EntityEvent? && ev.change == Deleted
    ensures Live(Apply(g, ev)) == LiveStep(Live(g), ev) && Apply(g, ev).relations == g.relations
  {
    DeleteMoves(g, ev.entity.id, ev.recordedAt);
  }

  lemma PutMovesLive(g: Graph, ev: Event)
    requires ev.EntityEvent? && ev.change != Deleted && NotBuried(g, ev)
    ensures Live(Apply(g, ev)) == LiveStep(Live(g), ev) && Apply(g, ev).relations == g.relations
  {
    assert ev.entity.id in g.entities && ev.change == Unchanged ==> ev.entity.id in Live(g);
    LivePut(g, ev.entity);
  }

  lemma RelationMovesLive(g: Graph, ev: Event)
    requires ev.RelationEvent?
    ensures Live(Apply(g, ev)) == Live(g) && Apply(g, ev).relations == RelationStep(g.relations, ev)
  {
    match ev
    case RelationEvent(Removed, r, _, _) => assert Apply(g, ev) == RemoveRelation(g, r.id);
    case RelationEvent(_, r, _, _) => assert Apply(g, ev) == AddRelation(g, r);
  }

  /** What an event does to the live entities and relations. */
  lemma ApplyMovesLive(g: Graph, ev: Event)
    requires NotBuried(g, ev)
    ensures Live(Apply(g, ev)) == LiveStep(Live(g), ev)
    ensures Apply(g, ev).relations == RelationStep(g.relations, ev)
  {
    if ev.RelationEvent? {
      RelationMovesLive(g, ev);
    } else if ev.change == Deleted {
      DeleteMovesLive(g, ev);
    } else {
      PutMovesLive(g, ev);
    }
  }

  lemma HashExactStep(g: Graph, ev: Event)
    requires HashExact(Live(g), g.byHash) && Fits(g, ev)
    ensures HashExact(LiveStep(Live(g), ev), HashStep(g, ev))
  {
    match ev
    case EntityEvent(Deleted, e, _, _) =>
      if e.id in g.entities {
        assert Live(g)[e.id] == g.entities[e.id];
        HashRemove(Live(g), g.byHash, e.id);
      } else {
        assert Live(g) - {e.id} == Live(g);
      }
    case EntityEvent(Unchanged, e, _, _) =>
      assert e.id in g.entities <==> e.id in Live(g);
      HashPut(Live(g), g.byHash, e);
    case EntityEvent(_, e, _, _) => HashPut(Live(g), g.byHash, e);
    case RelationEvent(_, _, _, _) =>
  }

  /** Every event that fits leaves every index exact. */
  lemma ApplyKeepsIndexes(g: Graph, ev: Event)
    requires Indexed(g) && Fits(g, ev)
    ensures Indexed(Apply(g, ev))
  {
    ApplyKeepsLoose(g, ev);
    ApplyMovesLive(g, ev);
    HashExactStep(g, ev);
  }

  lemma ShowsStep(live: map<EntityId, Entity>, relations: map<RelationId, Relation>, view: View, ev: Event)
    requires ShowsMaps(live, relations, view)
    ensures ShowsMaps(LiveStep(live, ev), RelationStep(relations, ev), NextLive(view, ev))
  {
  }

  /** One event moves the projection and the log's view together. */
  lemma ApplyShows(g: Graph, view: View, ev: Event)
    requires Shows(g, view) && NotBuried(g, ev)
    ensures Shows(Apply(g, ev), NextLive(view, ev))
  {
    ApplyMovesLive(g, ev);
    ShowsStep(Live(g), g.relations, view, ev);
  }

  /** The ids the projection can hold after an event, and their identities. */
  lemma ApplyEntities(g: Graph, ev: Event)
    ensures ev.EntityEvent? ==> Apply(g, ev).entities.Items <= g.entities[ev.entity.id := ev.entity].Items
                                || Apply(g, ev).entities.Items <= g.entities.Items
    ensures ev.RelationEvent? ==> Apply(g, ev).entities == g.entities
  {
    if ev.EntityEvent? && ev.change == Deleted {
      DeleteMoves(g, ev.entity.id, ev.recordedAt);
    }
  }

  /** ... and the names by which both know the entities. */
  lemma ApplyNames(g: Graph, ident: map<EntityId, Identity>, ev: Event)
    requires SameNames(g.entities, ident) && KeepsName(g, ev)
    ensures SameNames(Apply(g, ev).entities, NextIdent(ident, ev))
    ensures Apply(g, ev).entities.Keys <= g.entities.Keys + (if ev.EntityEvent? then {ev.entity.id} else {})
  {
    ApplyEntities(g, ev);
    if ev.EntityEvent? {
      var next := NextIdent(ident, ev);
      if Apply(g, ev).entities.Items <= g.entities.Items {
        NamesShrink(g.entities, Apply(g, ev).entities, next);
      } else {
        NamesShrink(g.entities[ev.entity.id := ev.entity], Apply(g, ev).entities, next);
      }
    }
  }

  /** The projection of a whole log: sound indexes, the log's live things, and only ids the
      log named, each under its identity. */
  ghost predicate Projects(g: Graph, h: History) {
    && Indexed(g) && Coherent(h) && Shows(g, h.live) && SameNames(g.entities, h.ident)
    && (forall id :: id in g.entities ==> id in h.ident)
  }

  lemma FitsReplay(g: Graph, h: History, ev: Event)
    requires Projects(g, h) && Allowed(h, ev)
    ensures Fits(g, ev)
  {
    if ev.EntityEvent? && ev.entity.ident in g.byHash {
      assert Owns(h.live, g.byHash[ev.entity.ident], ev.entity.ident);
    }
    if ev.EntityEvent? && ev.entity.id in g.entities {
      assert Ent(ev.entity.id) in h.live ==> ev.entity.id in Live(g);
    }
  }

  /** Replaying any tolerated log into the projection yields exactly the live things the
      log denotes, with every index exact. */
  lemma {:induction false} ReplayProjects(g: Graph, h: History, evs: seq<Event>)
    requires Projects(g, h) && AllowedFrom(h, evs)
    ensures Projects(ApplyAll(g, evs), ReplayFrom(h, evs))
  {
    if evs != [] {
      var n := |evs| - 1;
      ReplayProjects(g, h, evs[..n]);
      var g1, h1 := ApplyAll(g, evs[..n]), ReplayFrom(h, evs[..n]);
      FitsReplay(g1, h1, evs[n]);
      ApplyKeepsIndexes(g1, evs[n]);
      ApplyShows(g1, h1.live, evs[n]);
      ApplyNames(g1, h1.ident, evs[n]);
      CoherentStep(h1, evs[n]);
    }
  }

  /** The projection of a log whose pruned past it may still remember: sound indexes, the
      log's live things, and no disagreement about names. */
  ghost predicate Tracks(g: Graph, h: History) {
    Indexed(g) && Coherent(h) && Shows(g, h.live) && SameNames(g.entities, h.ident)
  }

  /** An event the engine emits keeps the projection in step with the log. */
  lemma TrackStep(g: Graph, h: History, ev: Event)
    requires Tracks(g, h) && Emitted(h, ev) && KeepsName(g, ev)
    ensures Tracks(Apply(g, ev), Next(h, ev))
  {
    if ev.EntityEvent? {
      assert Ent(ev.entity.id) in h.live <==> ev.entity.id in Live(g);
      if ev.entity.ident in g.byHash {
        assert Owns(h.live, g.byHash[ev.entity.ident], ev.entity.ident);
      }
    }
    ApplyKeepsIndexes(g, ev);
    ApplyShows(g, h.live, ev);
    ApplyNames(g, h.ident, ev);
    CoherentStep(h, ev);
  }

  lemma NewGraphProjects(limit: int, ttl: int)
    ensures Projects(NewGraph(limit, ttl), EMPTY)
  {
  }

  /** The answers every live read is built from. */
  ghost predicate SameAnswers(g: Graph, k: Graph) {
    && g.byHash == k.byHash
    && g.relations == k.relations
    && Live(g).Keys == Live(k).Keys
    && (forall id :: id in Live(g) && id in Live(k) ==> CoreOf(Live(g)[id]) == CoreOf(Live(k)[id]))
    && (forall t :: Member(g.byType, t) == Member(k.byType, t))
    && (forall a :: Member(g.outs, a) == Member(k.outs, a) && Member(g.ins, a) == Member(k.ins, a))
  }

  lemma SameLive(live: map<EntityId, Entity>, rels: map<RelationId, Relation>,
                 live': map<EntityId, Entity>, rels': map<RelationId, Relation>, view: View)
    requires ShowsMaps(live, rels, view) && ShowsMaps(live', rels', view)
    requires Keyed(map[], rels) && Keyed(map[], rels')
    ensures live.Keys == live'.Keys && rels == rels'
    ensures forall id :: id in live && id in live' ==> CoreOf(live[id]) == CoreOf(live'[id])
  {
    assert forall id :: id in live <==> Ent(id) in view;
    assert forall r :: r in rels <==> Rel(r) in view;
    forall r | r in rels
      ensures rels[r] == rels'[r]
    {
      assert view[Rel(r)] == RelCore(rels[r].attrs) == RelCore(rels'[r].attrs);
    }
  }

  /** Two exactly indexed graphs showing the same view answer every live read alike. */
  lemma SameViewSameAnswers(g: Graph, k: Graph, view: View)
    requires Indexed(g) && Indexed(k) && Shows(g, view) && Shows(k, view)
    ensures SameAnswers(g, k)
  {
    SameLive(Live(g), g.relations, Live(k), k.relations, view);
    SameHashes(Live(g), g.byHash, Live(k), k.byHash);
    SameTypes(Live(g), g.byType, Live(k), k.byType);
    SameAdjacency(g, k);
  }

  lemma SameHashes(live: map<EntityId, Entity>, byHash: map<Identity, EntityId>,
                   live': map<EntityId, Entity>, byHash': map<Identity, EntityId>)
    requires HashExact(live, byHash) && HashExact(live', byHash') && live.Keys == live'.Keys
    requires forall id :: id in live && id in live' ==> CoreOf(live[id]) == CoreOf(live'[id])
    ensures byHash == byHash'
  {
    forall i
      ensures i in byHash <==> i in byHash'
      ensures i in byHash && i in byHash' ==> byHash[i] == byHash'[i]
    {
      assert i in byHash ==> byHash[i] in live'.Keys;
      assert i in byHash' ==> byHash'[i] in live.Keys;
    }
  }

  lemma SameTypes(live: map<EntityId, Entity>, byType: map<Str, set<EntityId>>,
                  live': map<EntityId, Entity>, byType': map<Str, set<EntityId>>)
    requires TypeExact(live, byType) && TypeExact(live', byType') && live.Keys == live'.Keys
    requires forall id :: id in live && id in live' ==> CoreOf(live[id]) == CoreOf(live'[id])
    ensures forall t :: Member(byType, t) == Member(byType', t)
  {
    forall t
      ensures Member(byType, t) == Member(byType', t)
    {
      assert forall id :: id in Member(byType, t) <==> id in live.Keys && live[id].ident.typ == t;
      assert forall id :: id in Member(byType', t) <==> id in live'.Keys && live'[id].ident.typ == t;
    }
  }

  lemma SameAdjacency(g: Graph, k: Graph)
    requires AdjacencyExact(g.relations, g.outs, g.ins) && AdjacencyExact(k.relations, k.outs, k.ins)
    requires g.relations == k.relations
    ensures forall a :: Member(g.outs, a) == Member(k.outs, a) && Member(g.ins, a) == Member(k.ins, a)
  {
    forall a
      ensures Member(g.outs, a) == Member(k.outs, a) && Member(g.ins, a) == Member(k.ins, a)
    {
      assert forall r :: r in Member(g.outs, a) <==> r in g.relations && r.src == a;
      assert forall r :: r in Member(k.outs, a) <==> r in k.relations && r.src == a;
      assert forall r :: r in Member(g.ins, a) <==> r in g.relations && r.dst == a;
      assert forall r :: r in Member(k.ins, a) <==> r in k.relations && r.dst == a;
    }
  }

  // ------------------------------------------------------------ tombstone accounting

  ghost predicate Queued(deleted: set<EntityId>, queue: seq<EntityId>) {
    forall id :: id in deleted ==> id in queue
  }

  /** The counter is the number of tombstones, the cap bounds it, and each is queued. */
  ghost predicate Accounted(g: Graph) {
    && g.tombs == |g.deleted|
    && |g.deleted| <= g.cap
    && Queued(g.deleted, g.queue)
  }

  lemma QueuePop(deleted: set<EntityId>, queue: seq<EntityId>)
    requires Queued(deleted, queue) && deleted != {}
    ensures queue != [] && Queued(deleted - {queue[0]}, queue[1..])
  {
    var id :| id in deleted;
    assert id in queue;
    assert queue == [queue[0]] + queue[1..];
  }

  /** Before eviction the cap may be exceeded by the tombstone just buried; eviction
      always finds one to drop. */
  lemma {:induction false} EvictAccounts(g: Graph)
    requires g.tombs == |g.deleted| && Queued(g.deleted, g.queue)
    ensures Accounted(Evict(g))
    ensures Evict(g).cap == g.cap && Evict(g).ttl == g.ttl
    decreases |g.queue|
  {
    if g.tombs > g.cap {
      QueuePop(g.deleted, g.queue);
      var id := g.queue[0];
      var popped := g.(queue := g.queue[1..]);
      if id in g.deleted {
        assert |g.deleted - {id}| == |g.deleted| - 1;
        EvictAccounts(DropTombstone(popped, id));
      } else {
        assert g.deleted - {id} == g.deleted;
        EvictAccounts(popped);
      }
    }
  }

  lemma DeleteAccounts(g: Graph, id: EntityId, at: Time)
    requires Accounted(g)
    ensures var n := DeleteEntity(g, id, at); Accounted(n) && n.cap == g.cap && n.ttl == g.ttl
  {
    var g1 := Unindex(g, id);
    if id !in g1.deleted {
      assert |g1.deleted + {id}| == |g1.deleted| + 1;
      EvictAccounts(Bury(g1, id, at));
    }
  }

  lemma PutAccounts(g: Graph, e: Entity)
    requires Accounted(g)
    ensures var n := PutEntity(g, e); Accounted(n) && n.cap == g.cap && n.ttl == g.ttl
  {
    if e.id in g.deleted {
      assert |g.deleted - {e.id}| == |g.deleted| - 1;
    } else {
      assert g.deleted - {e.id} == g.deleted;
    }
  }

  lemma ApplyAccounts(g: Graph, ev: Event)
    requires Accounted(g)
    ensures Accounted(Apply(g, ev)) && Apply(g, ev).cap == g.cap && Apply(g, ev).ttl == g.ttl
  {
    match ev
    case EntityEvent(Deleted, e, _, at) => DeleteAccounts(g, e.id, at);
    case EntityEvent(_, e, _, _) => PutAccounts(g, e);
    case RelationEvent(_, r, _, _) =>
  }

  /** For every event sequence whatever -- deletes of unknown ids, double deletes,
      resurrections -- the tombstone counter is exact and within the cap, and every
      tombstone is queued, so eviction always finds one to drop. */
  lemma {:induction false} TombstonesAccounted(limit: int, ttl: int, evs: seq<Event>)
    ensures Accounted(ApplyAll(NewGraph(limit, ttl), evs))
    ensures ApplyAll(NewGraph(limit, ttl), evs).cap == NewGraph(limit, ttl).cap
  {
    if evs != [] {
      TombstonesAccounted(limit, ttl, evs[..|evs| - 1]);
      ApplyAccounts(ApplyAll(NewGraph(limit, ttl), evs[..|evs| - 1]), evs[|evs| - 1]);
    }
  }

  lemma {:induction false} CompactedExact(queue: seq<EntityId>, deleted: set<EntityId>)
    ensures forall id :: id in Compacted(queue, deleted) <==> id in queue && id in deleted
    ensures forall i, j :: 0 <= i < j < |Compacted(queue, deleted)| ==>
                             Compacted(queue, deleted)[i] != Compacted(queue, deleted)[j]
  {
    if queue != [] {
      var n := |queue| - 1;
      CompactedExact(queue[..n], deleted);
      assert queue == queue[..n] + [queue[n]];
    }
  }

  lemma {:induction false} DistinctLength(s: seq<EntityId>, ids: set<EntityId>)
    requires forall i, j :: 0 <= i < j < |s| ==> s[i] != s[j]
    requires forall id :: id in s <==> id in ids
    ensures |s| == |ids|
  {
    if s == [] {
      assert ids == {};
    } else {
      var n := |s| - 1;
      assert s == s[..n] + [s[n]];
      assert s[n] in ids;
      DistinctLength(s[..n], ids - {s[n]});
    }
  }

  lemma ForgetAccounts(g: Graph, ids: set<EntityId>)
    requires Accounted(g)
    ensures Accounted(Forget(g, ids))
  {
    var gone := ids * g.deleted;
    assert |g.deleted - gone| == |g.deleted| - |gone|;
  }

  lemma CompactionBounds(queue: seq<EntityId>, deleted: set<EntityId>)
    requires Queued(deleted, queue)
    ensures Queued(deleted, Compacted(queue, deleted)) && |Compacted(queue, deleted)| == |deleted|
  {
    CompactedExact(queue, deleted);
    DistinctLength(Compacted(queue, deleted), deleted);
  }

  /** A time-bound prune drops exactly the tombstones whose deadline is past, keeps the accounting,
      and bounds the queue by twice the tombstones that remain. */
  lemma PruneAccounts(g: Graph, now: Time)
    requires Accounted(g)
    ensures var n := PruneTombstones(g, now);
            && Accounted(n) && n.cap == g.cap && n.ttl == g.ttl
            && (g.ttl > 0 ==> |n.queue| <= 2 * |n.deleted|)
            && (g.ttl > 0 ==> forall id :: id in n.tombDeadline ==> now <= n.tombDeadline[id])
            && (forall id :: id in n.deleted <==>
                  id in g.deleted && (g.ttl > 0 && id in g.tombDeadline ==> now <= g.tombDeadline[id]))
  {
    if g.ttl > 0 {
      var g1 := Forget(g, Elapsed(g, now));
      ForgetAccounts(g, Elapsed(g, now));
      CompactionBounds(g1.queue, g1.deleted);
    }
  }
}
