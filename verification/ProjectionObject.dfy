/** The projection as the object the server keeps: its maps, queue and counter are updated
    in place, each method as the value-level model says, and what that means for readers. */
module ProjectionObject {
  import opened Text
  import opened Model
  import opened EventLog
  import P = Projection

  lemma ForgetNone(g: P.Graph)
    ensures P.Forget(g, {}) == g
  {
    var f := P.Forget(g, {});
    assert {} * g.deleted == {};
    assert f.tombByHash == g.tombByHash && f.entities == g.entities && f.deleted == g.deleted &&
        f.tombDeadline == g.tombDeadline;
  }

  lemma ForgetDeadline(g: P.Graph, ids: set<EntityId>, id: EntityId)
    requires id !in g.deleted
    ensures var f := P.Forget(g, ids);
            P.Forget(g, ids + {id}) == f.(tombDeadline := f.tombDeadline - {id})
  {
    assert (ids + {id}) * g.deleted == ids * g.deleted;
    assert g.tombDeadline - (ids + {id}) == g.tombDeadline - ids - {id};
  }

  lemma ForgetHashes(g: P.Graph, ids: set<EntityId>, id: EntityId)
    requires id in g.deleted && id !in ids
    ensures P.Forget(g, ids + {id}).tombByHash == P.DropTombstone(P.Forget(g, ids), id).tombByHash
  {
    var gone := ids * g.deleted;
    assert (ids + {id}) * g.deleted == gone + {id};
    var f := P.Forget(g, ids);
    var a, b := P.Forget(g, ids + {id}).tombByHash, P.DropTombstone(f, id).tombByHash;
    assert id in f.entities <==> id in g.entities;
    assert id in f.entities ==> f.entities[id] == g.entities[id];
    forall i
      ensures i in a <==> i in b
      ensures i in a && i in b ==> a[i] == b[i]
    {
      assert i in a <==> i in g.tombByHash && !Buries(g, gone + {id}, i);
      assert i in f.tombByHash <==> i in g.tombByHash && !Buries(g, gone, i);
      assert i in b <==> i in f.tombByHash && !Buries(g, {id}, i);
    }
  }

  /** The identity's tombstone is that of one of these ids. */
  predicate Buries(g: P.Graph, ids: set<EntityId>, i: Identity) {
    && i in g.tombByHash && g.tombByHash[i] in ids
    && g.tombByHash[i] in g.entities && g.entities[g.tombByHash[i]].ident == i
  }

  lemma ForgetOne(g: P.Graph, ids: set<EntityId>, id: EntityId)
    requires id in g.deleted && id !in ids
    ensures P.Forget(g, ids + {id}) == P.DropTombstone(P.Forget(g, ids), id)
  {
    ForgetHashes(g, ids, id);
    var gone := ids * g.deleted;
    assert (ids + {id}) * g.deleted == gone + {id};
    MapMinus(g.entities, gone, id);
    MapMinus(g.tombDeadline, ids, id);
    assert g.deleted - (gone + {id}) == g.deleted - gone - {id};
    assert |gone + {id}| == |gone| + 1;
  }

  lemma MapMinus<V>(m: map<EntityId, V>, ids: set<EntityId>, id: EntityId)
    ensures m - (ids + {id}) == m - ids - {id}
  {
  }

  /** The entity is live and its identity matches it and no tombstone, no other live entity
      changed, and the indexes stay exact if the entity fits them. */
  ghost predicate Enlivened(g: P.Graph, n: P.Graph, e: Entity) {
    && P.Live(n) == P.Live(g)[e.id := e] && n.relations == g.relations
    && P.MatchIdentity(n, e.ident) == Some(e.id)
    && (forall now :: P.MatchTombstone(n, e.ident, now) == None)
    && (P.Indexed(g) && P.Fits(g, EntityEvent(Created, e, 0, 0)) ==> P.Indexed(n))
  }

  lemma PutMeans(g: P.Graph, e: Entity)
    ensures Enlivened(g, P.PutEntity(g, e), e)
  {
    P.LivePut(g, e);
    if P.Indexed(g) && P.Fits(g, EntityEvent(Created, e, 0, 0)) {
      P.ApplyKeepsIndexes(g, EntityEvent(Created, e, 0, 0));
    }
  }

  /** The tombstone is unreadable and cannot be resurrected, and no live entity changed. */
  ghost predicate Forgotten(g: P.Graph, n: P.Graph, id: EntityId) {
    && id !in n.entities && id !in n.deleted && n.relations == g.relations
    && (id in g.deleted ==> P.Live(n) == P.Live(g))
    && (id in g.deleted && P.Indexed(g) ==> P.Indexed(n))
    && (P.Indexed(g) ==> forall i, now :: P.MatchTombstone(n, i, now) != Some(id))
  }

  lemma DropMeans(g: P.Graph, id: EntityId)
    ensures Forgotten(g, P.DropTombstone(g, id), id)
  {
    if id in g.deleted {
      P.DropMoves(g, id);
      if P.Indexed(g) {
        P.DropKeepsLoose(g, id);
      }
    }
  }

  /** The relation is found from both its ends, every other as before. */
  ghost predicate Joined(g: P.Graph, n: P.Graph, r: Relation) {
    && n.relations == g.relations[r.id := r] && P.Live(n) == P.Live(g)
    && (forall q, a :: q in P.Member(n.outs, a) <==> q in P.Member(g.outs, a) || (q == r.id && a == r.id.src))
    && (forall q, a :: q in P.Member(n.ins, a) <==> q in P.Member(g.ins, a) || (q == r.id && a == r.id.dst))
    && (P.Indexed(g) ==> P.Indexed(n))
  }

  lemma AddMeans(g: P.Graph, r: Relation)
    ensures Joined(g, P.AddRelation(g, r), r)
  {
    if P.Indexed(g) {
      P.ApplyKeepsIndexes(g, RelationEvent(Added, r, 0, 0));
    }
  }

  /** The relation is found from neither end, every other as before. */
  ghost predicate Parted(g: P.Graph, n: P.Graph, rid: RelationId) {
    && n.relations == g.relations - {rid} && P.Live(n) == P.Live(g)
    && (forall q, a :: q in P.Member(n.outs, a) <==> q in P.Member(g.outs, a) && !(q == rid && a == rid.src))
    && (forall q, a :: q in P.Member(n.ins, a) <==> q in P.Member(g.ins, a) && !(q == rid && a == rid.dst))
    && (P.Indexed(g) ==> P.Indexed(n))
  }

  lemma RemoveMeans(g: P.Graph, rid: RelationId)
    ensures Parted(g, P.RemoveRelation(g, rid), rid)
  {
    if P.Indexed(g) {
      P.ApplyKeepsIndexes(g, RelationEvent(Removed, Relation(rid, map[]), 0, 0));
    }
  }

  lemma ApplyIndexes(g: P.Graph, ev: Event)
    ensures P.Indexed(g) && P.Fits(g, ev) ==> P.Indexed(P.Apply(g, ev))
  {
    if P.Indexed(g) && P.Fits(g, ev) {
      P.ApplyKeepsIndexes(g, ev);
    }
  }

  class Graph {
    var entities: map<EntityId, Entity>
    var deleted: set<EntityId>
    var relations: map<RelationId, Relation>
    var outs: map<EntityId, set<RelationId>>
    var ins: map<EntityId, set<RelationId>>
    var byHash: map<Identity, EntityId>
    var byType: map<Str, set<EntityId>>
    var tombstones: seq<EntityId>
    const tombstoneCap: nat
    var liveTombstones: int
    var tombByHash: map<Identity, EntityId>
    var tombDeadline: map<EntityId, Time>
    const tombstoneTTL: int

    /** The value this object holds. */
    function State(): P.Graph
      reads this
    {
      P.Graph(entities, deleted, relations, outs, ins, byHash, byType, tombstones, tombstoneCap, liveTombstones,
              tombByHash, tombDeadline, tombstoneTTL)
    }

    /** The tombstone cache is accounted for. */
    ghost predicate Valid()
      reads this
    {
      P.Accounted(State())
    }

    constructor (limit: int, ttl: int)
      ensures Valid() && State() == P.NewGraph(limit, ttl)
    {
      entities, deleted, relations, outs, ins := map[], {}, map[], map[], map[];
      byHash, byType, tombstones, liveTombstones := map[], map[], [], 0;
      tombByHash, tombDeadline := map[], map[];
      tombstoneCap := if limit <= 0 then P.DEFAULT_CAP else limit;
      tombstoneTTL := ttl;
    }

    /** A resurrection un-tombstones the id; its queue entry goes stale. */
    method Unbury(id: EntityId)
      modifies this`deleted, this`liveTombstones, this`tombDeadline
      ensures deleted == old(deleted) - {id}
      ensures liveTombstones == if id in old(deleted) then old(liveTombstones) - 1 else old(liveTombstones)
      ensures tombDeadline == if id in old(deleted) then old(tombDeadline) - {id} else old(tombDeadline)
    {
      if id in deleted {
        liveTombstones := liveTombstones - 1;
        tombDeadline := tombDeadline - {id};
      }
      deleted := deleted - {id};
    }

    /** Make an entity live: it is readable, its identity matches it and no tombstone, and no
        other live entity changed. */
    method PutEntity(e: Entity)
      modifies this
      ensures State() == P.PutEntity(old(State()), e)
      ensures Enlivened(old(State()), State(), e)
    {
      hide Enlivened;
      PutMeans(State(), e);
      entities := entities[e.id := e];
      Unbury(e.id);
      IndexEntity(e);
    }

    /** The identity is live again, or owned by this id now. */
    method IndexEntity(e: Entity)
      modifies this`tombByHash, this`byHash, this`byType
      ensures tombByHash == old(tombByHash) - {e.ident} && byHash == old(byHash)[e.ident := e.id]
      ensures byType == old(byType)[e.ident.typ := P.Member(old(byType), e.ident.typ) + {e.id}]
    {
      tombByHash := tombByHash - {e.ident};
      byHash := byHash[e.ident := e.id];
      byType := byType[e.ident.typ := P.Member(byType, e.ident.typ) + {e.id}];
    }

    /** Forget a tombstone: its id is unreadable, no identity can resurrect it, and no live
        entity changed. */
    method DropTombstone(id: EntityId)
      modifies this
      ensures State() == P.DropTombstone(old(State()), id)
      ensures Forgotten(old(State()), State(), id)
    {
      hide Forgotten;
      if id in entities {
        var h := entities[id].ident;
        if h in tombByHash && tombByHash[h] == id {
          tombByHash := tombByHash - {h};
        }
      }
      entities := entities - {id};
      deleted := deleted - {id};
      tombDeadline := tombDeadline - {id};
      liveTombstones := liveTombstones - 1;
      assert State() == P.DropTombstone(old(State()), id);
      hide P.DropTombstone;
      DropMeans(old(State()), id);
    }

    /** Drop the oldest tombstones beyond the cap, skipping stale queue entries. */
    method EvictTombstones()
      modifies this
      ensures State() == P.Evict(old(State()))
    {
      while liveTombstones > tombstoneCap && |tombstones| > 0
        invariant P.Evict(State()) == P.Evict(old(State()))
        decreases |tombstones|
      {
        var id := tombstones[0];
        tombstones := tombstones[1..];
        if id in deleted {
          DropTombstone(id);
        }
      }
    }

    /** Drop the live indexes of an entity, keeping its identity resurrectable. */
    method Unindex(id: EntityId)
      modifies this`byHash, this`tombByHash, this`byType
      ensures State() == P.Unindex(old(State()), id)
    {
      if id in entities {
        var e := entities[id];
        byHash := byHash - {e.ident};
        tombByHash := tombByHash[e.ident := id];
        if e.ident.typ in byType {
          byType := byType[e.ident.typ := byType[e.ident.typ] - {id}];
        }
      }
    }

    /** Queue a fresh tombstone, its grace window anchored on the recorded time. */
    method Bury(id: EntityId, recordedAt: Time)
      modifies this`deleted, this`tombstones, this`liveTombstones, this`tombDeadline
      ensures State() == P.Bury(old(State()), id, recordedAt)
    {
      deleted := deleted + {id};
      tombstones := tombstones + [id];
      liveTombstones := liveTombstones + 1;
      if tombstoneTTL > 0 {
        tombDeadline := tombDeadline[id := recordedAt + tombstoneTTL];
      }
    }

    method DeleteEntity(id: EntityId, recordedAt: Time)
      modifies this
      ensures State() == P.DeleteEntity(old(State()), id, recordedAt)
    {
      hide P.Unindex, P.Bury, P.Evict;
      Unindex(id);
      if id !in deleted {
        Bury(id, recordedAt);
        EvictTombstones();
      }
    }

    /** Add or overwrite a relation: it is found from both its ends, others as before. */
    method AddRelation(r: Relation)
      modifies this
      ensures State() == P.AddRelation(old(State()), r)
      ensures Joined(old(State()), State(), r)
    {
      hide Joined;
      AddMeans(State(), r);
      relations := relations[r.id := r];
      var leaving := if r.id.src in outs then outs[r.id.src] else {};
      outs := outs[r.id.src := leaving + {r.id}];
      var entering := if r.id.dst in ins then ins[r.id.dst] else {};
      ins := ins[r.id.dst := entering + {r.id}];
    }

    /** Remove a relation, present or not: it is found from neither end, others as before. */
    method RemoveRelation(rid: RelationId)
      modifies this
      ensures State() == P.RemoveRelation(old(State()), rid)
      ensures Parted(old(State()), State(), rid)
    {
      hide Parted;
      relations := relations - {rid};
      if rid.src in outs {
        outs := outs[rid.src := outs[rid.src] - {rid}];
      }
      if rid.dst in ins {
        ins := ins[rid.dst := ins[rid.dst] - {rid}];
      }
      assert State() == P.RemoveRelation(old(State()), rid);
      hide P.RemoveRelation;
      RemoveMeans(old(State()), rid);
    }

    /** Fold one event into the graph, whatever it is. */
    method Apply(ev: Event)
      requires Valid()
      modifies this
      ensures Valid() && State() == P.Apply(old(State()), ev)
      ensures old(P.Indexed(State()) && P.Fits(State(), ev)) ==> P.Indexed(State())
    {
      hide P.Accounted, P.PutEntity, P.DeleteEntity, P.AddRelation, P.RemoveRelation, P.Indexed, P.Fits, P.Live,
           P.MatchIdentity, P.MatchTombstone, P.Member;
      P.ApplyAccounts(State(), ev);
      ApplyIndexes(State(), ev);
      match ev {
        case EntityEvent(Deleted, e, _, recordedAt) => DeleteEntity(e.id, recordedAt);
        case EntityEvent(Unchanged, e, _, _) =>
          if e.id !in entities {
            PutEntity(e);
          }
        case EntityEvent(_, e, _, _) => PutEntity(e);
        case RelationEvent(Removed, r, _, _) => RemoveRelation(r.id);
        case RelationEvent(_, r, _, _) => AddRelation(r);
      }
    }

    /** Rebuild by applying every event of a log in order. What it denotes is what the log
        denotes, with every index exact. */
    method Replay(log: seq<Event>)
      requires Valid()
      modifies this
      ensures Valid() && State() == P.ApplyAll(old(State()), log)
      ensures AllowedLog(log) && P.Projects(old(State()), EMPTY) ==> P.Projects(State(), EventLog.Replay(log))
    {
      ghost var start := State();
      for i := 0 to |log|
        invariant Valid() && State() == P.ApplyAll(start, log[..i])
      {
        assert log[..i + 1][..i] == log[..i];
        Apply(log[i]);
      }
      assert log[..|log|] == log;
      if AllowedLog(log) && P.Projects(start, EMPTY) {
        P.ReplayProjects(start, EMPTY, log);
      }
    }

    /** Rewrite the queue, keeping one entry for each id still tombstoned, the oldest first. */
    method CompactTombstones()
      modifies this`tombstones
      ensures tombstones == P.Compacted(old(tombstones), deleted)
    {
      var kept: seq<EntityId>, seen: set<EntityId> := [], {};
      for i := 0 to |tombstones|
        invariant kept == P.Compacted(tombstones[..i], deleted)
        invariant forall id :: id in seen <==> id in kept
      {
        assert tombstones[..i + 1][..i] == tombstones[..i];
        var id := tombstones[i];
        if id in deleted && id !in seen {
          seen := seen + {id};
          kept := kept + [id];
        }
      }
      assert tombstones[..|tombstones|] == tombstones;
      tombstones := kept;
    }

    /** Drop the tombstones whose window has elapsed, and moot deadlines, in whatever order
        the map yields them. */
    method DropElapsed(now: Time) returns (n: nat)
      modifies this
      ensures State() == P.Forget(old(State()), P.Elapsed(old(State()), now))
      ensures n == |P.Elapsed(old(State()), now) * old(deleted)|
    {
      hide P.Forget, P.DropTombstone, Scanned, P.Elapsed;
      n := 0;
      var todo := tombDeadline.Keys;
      ghost var start := State();
      ScanNone(start, now);
      ghost var gone: set<EntityId> := {};
      ForgetNone(start);
      while todo != {}
        invariant Scanned(start, now, todo, gone)
        invariant State() == P.Forget(start, gone)
        invariant n == |gone * start.deleted|
        decreases |todo|
      {
        var id :| id in todo;
        ForgetFields(start, gone);
        ScanOne(start, now, todo, gone, id);
        todo := todo - {id};
        if now > tombDeadline[id] {
          if id in deleted {
            ForgetOne(start, gone, id);
            DropTombstone(id);
            n := n + 1;
          } else {
            ForgetDeadline(start, gone, id);
            tombDeadline := tombDeadline - {id};
          }
          gone := gone + {id};
        }
      }
      ScanAll(start, now, gone);
    }

    /** Bound the resurrection window in time, and the queue by twice what remains. */
    method PruneTombstones(now: Time) returns (n: nat)
      requires Valid()
      modifies this
      ensures Valid() && State() == P.PruneTombstones(old(State()), now)
      ensures tombstoneTTL > 0 ==> |tombstones| <= 2 * |deleted|
      ensures n == if tombstoneTTL > 0 then |P.Elapsed(old(State()), now) * old(deleted)| else 0
    {
      P.PruneAccounts(State(), now);
      if tombstoneTTL <= 0 {
        return 0;
      }
      n := DropElapsed(now);
      if |tombstones| > 2 * liveTombstones {
        CompactTombstones();
      }
    }
  }

  /** The scan has dealt with the elapsed ids not still to do. */
  ghost predicate Scanned(g: P.Graph, now: Time, todo: set<EntityId>, gone: set<EntityId>) {
    && todo <= g.tombDeadline.Keys && todo !! gone
    && (forall id :: id in gone <==> id in P.Elapsed(g, now) && id !in todo)
  }

  lemma ScanNone(g: P.Graph, now: Time)
    ensures Scanned(g, now, g.tombDeadline.Keys, {}) && |{} * g.deleted| == 0
  {
    assert {} * g.deleted == {};
  }

  lemma ScanAll(g: P.Graph, now: Time, gone: set<EntityId>)
    requires Scanned(g, now, {}, gone)
    ensures gone == P.Elapsed(g, now)
  {
  }

  lemma ScanOne(g: P.Graph, now: Time, todo: set<EntityId>, gone: set<EntityId>, id: EntityId)
    requires Scanned(g, now, todo, gone) && id in todo
    ensures id in g.tombDeadline && id !in gone
    ensures Scanned(g, now, todo - {id}, if now > g.tombDeadline[id] then gone + {id} else gone)
    ensures |(gone + {id}) * g.deleted| == |gone * g.deleted| + if id in g.deleted then 1 else 0
  {
    if id in g.deleted {
      assert (gone + {id}) * g.deleted == gone * g.deleted + {id};
    } else {
      assert (gone + {id}) * g.deleted == gone * g.deleted;
    }
  }

  /** What forgetting some ids leaves of the maps the scan reads. */
  lemma ForgetFields(g: P.Graph, ids: set<EntityId>)
    ensures P.Forget(g, ids).tombDeadline == g.tombDeadline - ids
    ensures P.Forget(g, ids).deleted == g.deleted - ids * g.deleted
  {
  }
}
