/** What every operation of a batch keeps: the staged events stay what a well-formed log
    may append, every edge joins two live entities, and -- when nothing was lost to a
    failed append -- a thing is live exactly while some speaker references it. */
module EngineSteps {
  import opened Text
  import opened Model
  import opened EventLog
  import opened Aliases
  import opened ChangeEngine
  import opened Overlay
  import CanonicalValue
  import P = Projection

  /** Every live edge joins two live entities. */
  ghost predicate Linked(live: View) {
    forall r :: Rel(r) in live ==> Ent(r.src) in live && Ent(r.dst) in live
  }

  /** The live entities are exactly the referenced ones, and so are the edges. */
  ghost predicate Counted(s: Engine) {
    && CountedEntities(s.refs, Cur(s).live)
    && CountedRelations(s.relRefs, Cur(s).live)
  }

  ghost predicate CountedEntities(refs: map<EntityId, Refs>, live: View) {
    && (forall id :: id in refs <==> Ent(id) in live)
    && (forall id :: id in refs ==> refs[id] != map[])
  }

  ghost predicate CountedRelations(relRefs: map<RelationId, Refs>, live: View) {
    && (forall r :: r in relRefs <==> Rel(r) in live)
    && (forall r :: r in relRefs ==> relRefs[r] != map[])
  }

  /** Same entities with the same state: edges may have come or gone. */
  ghost predicate SameEntities(a: View, b: View) {
    forall id: EntityId :: (Ent(id) in a <==> Ent(id) in b) && (Ent(id) in a ==> a[Ent(id)] == b[Ent(id)])
  }

  // ------------------------------------------------------------ observing an entity

  lemma NextIdSound(s: Engine, next: EntityId)
    requires Sound(s) && s.nextId <= next
    ensures Sound(s.(nextId := next)) && Cur(s.(nextId := next)) == Cur(s)
  {
  }

  lemma ClassifyExact(before: Attrs, after: Attrs)
    ensures Classify(before, after) == Unchanged <==> before == after
    ensures Classify(before, after) in {Unchanged, StateChanged, AttributeUpdated}
  {
    CanonicalValue.UnchangedIffWithin(before, after);
  }

  /** The projection still offers the dead entity x for this identity, and the batch has not
      itself deleted it. */
  predicate Offered(s: Engine, ident: Identity, now: Time, x: EntityId) {
    P.MatchTombstone(s.g, ident, now) == Some(x) && x !in s.st.deleted
  }

  /** The id an observation is about: the live owner of the identity; or the tombstone still
      offered for it; or the next fresh one. */
  ghost predicate Picked(s: Engine, ident: Identity, now: Time, id: EntityId, next: EntityId) {
    if exists x: EntityId :: Owns(Cur(s).live, x, ident) then Owns(Cur(s).live, id, ident) && next == s.nextId
    else if exists x :: Offered(s, ident, now, x) then Offered(s, ident, now, id) && next == s.nextId
    else id == s.nextId && next == s.nextId + 1
  }

  /** An observation names a live owner, a dead tombstone of its identity, or a fresh id. */
  lemma TargetEmits(s: Engine, obs: EntityObs, now: Time)
    requires Sound(s)
    ensures var (id, ct, next) := Target(s, obs, now);
            var ev := EntityEventOf(ct, id, obs, now);
            && s.nextId <= next && id < next && ct != Deleted
            && Emitted(Cur(s), ev) && P.KeepsName(s.g, ev)
            && (Ent(id) in Cur(s).live <==> MatchIdentity(s, obs.ident) == Some(id))
  {
    MatchIsOwner(s, obs.ident);
    match MatchIdentity(s, obs.ident)
    case Some(id) =>
      GetEntityIsLive(s, id);
      ClassifyExact(GetEntity(s, id).0.value.attrs, obs.attrs);
      MatchedEmits(s, obs, now, id);
    case None =>
      match MatchTombstone(s, obs.ident, now)
      case Some(id) =>
        TombstoneIsDead(s, obs.ident, now);
        assert id < s.nextId;
      case None =>
        FreshIsUnknown(s);
  }

  /** A created entity takes the id of the tombstone exactly when one is offered. */
  lemma TargetNamed(s: Engine, obs: EntityObs, now: Time)
    requires Sound(s)
    ensures var (id, ct, next) := Target(s, obs, now); Picked(s, obs.ident, now, id, next)
  {
    hide Sound, Cur;
    MatchIsOwner(s, obs.ident);
    if MatchIdentity(s, obs.ident).None? {
      match MatchTombstone(s, obs.ident, now)
      case Some(id) => assert Offered(s, obs.ident, now, id);
      case None =>
    }
  }

  lemma FreshIsUnknown(s: Engine)
    requires Sound(s)
    ensures s.nextId !in Cur(s).ident && s.nextId !in s.g.entities && Ent(s.nextId) !in Cur(s).live
  {
  }

  lemma MatchedEmits(s: Engine, obs: EntityObs, now: Time, id: EntityId)
    requires Sound(s) && Owns(Cur(s).live, id, obs.ident)
    ensures id < s.nextId && id in Cur(s).ident && Cur(s).ident[id] == obs.ident
    ensures id in s.g.entities ==> s.g.entities[id].ident == obs.ident
    ensures SoleOwner(Cur(s).live, id, obs.ident)
  {
  }

  lemma AssertEntitySound(s: Engine, obs: EntityObs, now: Time)
    requires Sound(s)
    ensures var (id, ct, next) := Target(s, obs, now);
            var t := AssertEntity(s, obs, now);
            && Sound(t) && Base(t) == Base(s)
            && Cur(t) == Next(Cur(s), EntityEventOf(ct, id, obs, now)) && ct != Deleted
            && Owns(Cur(t).live, id, obs.ident)
            && Cur(t).live == Cur(s).live[Ent(id) := EntCore(obs.ident, obs.attrs)]
            && Picked(s, obs.ident, now, id, next)
            && (Ent(id) in Cur(s).live <==> MatchIdentity(s, obs.ident) == Some(id))
  {
    hide Sound;
    var (id, ct, next) := Target(s, obs, now);
    TargetEmits(s, obs, now);
    TargetNamed(s, obs, now);
    NextIdSound(s, next);
    var s0 := s.(nextId := next);
    CommitSound(s0, EntityEventOf(ct, id, obs, now));
    var s1 := Commit(s0, EntityEventOf(ct, id, obs, now));
    SameCoreSound(s1, AssertEntity(s, obs, now));
    hide Target, Picked, P.KeepsName;
    EntityEventPuts(Cur(s), ct, id, obs, now);
  }

  /** Whatever the change, the entity ends with the state observed. */
  lemma EntityEventPuts(h: History, ct: EntityChange, id: EntityId, obs: EntityObs, now: Time)
    requires Emitted(h, EntityEventOf(ct, id, obs, now)) && ct != Deleted
    ensures Next(h, EntityEventOf(ct, id, obs, now)).live == h.live[Ent(id) := EntCore(obs.ident, obs.attrs)]
  {
  }

  lemma PutKeepsLinks(live: View, ev: Event)
    requires Linked(live) && ev.EntityEvent? && ev.change != Deleted
    ensures Linked(NextLive(live, ev))
  {
    assert forall t :: t in live ==> t in NextLive(live, ev);
  }

  lemma PutKeepsCount(refs: map<EntityId, Refs>, live: View, ev: Event, key: Str, ref: Ref)
    requires CountedEntities(refs, live) && ev.EntityEvent? && ev.change != Deleted
    ensures CountedEntities(refs[ev.entity.id := Held(refs, ev.entity.id)[key := ref]], NextLive(live, ev))
  {
    var id := ev.entity.id;
    assert Held(refs, id)[key := ref] != map[] by {
      assert key in Held(refs, id)[key := ref];
    }
  }

  lemma PutKeepsRelationCount(relRefs: map<RelationId, Refs>, live: View, ev: Event)
    requires CountedRelations(relRefs, live) && ev.EntityEvent?
    ensures CountedRelations(relRefs, NextLive(live, ev))
  {
    assert forall r :: Rel(r) in NextLive(live, ev) <==> Rel(r) in live;
  }

  lemma AssertEntityKeeps(s: Engine, obs: EntityObs, now: Time)
    requires Sound(s)
    ensures var t := AssertEntity(s, obs, now);
            && Sound(t)
            && (Linked(Cur(s).live) ==> Linked(Cur(t).live))
            && (Counted(s) ==> Counted(t))
  {
    hide Sound;
    var (id, ct, next) := Target(s, obs, now);
    var ev := EntityEventOf(ct, id, obs, now);
    AssertEntitySound(s, obs, now);
    if Linked(Cur(s).live) {
      PutKeepsLinks(Cur(s).live, ev);
    }
    if Counted(s) {
      PutKeepsCount(s.refs, Cur(s).live, ev, Key(s, obs.producer), RefFor(obs.interval, now));
      PutKeepsRelationCount(s.relRefs, Cur(s).live, ev);
    }
  }

  // ------------------------------------------------------------ removing edges

  /** The bookkeeping other than edge references. */
  ghost predicate SameBooks(s: Engine, t: Engine) {
    && t.g == s.g && t.log == s.log && t.notified == s.notified && t.nextId == s.nextId
    && t.refs == s.refs && t.pending == s.pending && t.waited == s.waited
    && t.aliases == s.aliases && t.bufferTTL == s.bufferTTL && t.st.scope == s.st.scope
  }

  function RelThings(rids: seq<RelationId>): set<Thing> {
    set r | r in rids :: Rel(r)
  }

  ghost predicate AllDistinct<T>(s: seq<T>) {
    forall i, j :: 0 <= i < j < |s| ==> s[i] != s[j]
  }

  lemma RemoveEdgeSound(s: Engine, r: RelationId, when: Time, now: Time)
    requires Sound(s) && Rel(r) in Cur(s).live
    ensures var t := Commit(s, RemovedEvent(s, r, when, now));
            Sound(t) && Cur(t).live == Cur(s).live - {Rel(r)} && Base(t) == Base(s)
            && t.st.events == s.st.events + [RemovedEvent(s, r, when, now)]
  {
    hide Sound;
    GetRelationIsLive(s, r);
    CommitSound(s, RemovedEvent(s, r, when, now));
    StageAppends(s.st, RemovedEvent(s, r, when, now));
  }

  lemma RelThingsSnoc(rids: seq<RelationId>, r: RelationId, live: View, relRefs: map<RelationId, Refs>)
    ensures live - RelThings(rids) - {Rel(r)} == live - RelThings(rids + [r])
    ensures relRefs - (set x | x in rids) - {r} == relRefs - (set x | x in rids + [r])
  {
    assert RelThings(rids + [r]) == RelThings(rids) + {Rel(r)};
    assert (set x | x in rids + [r]) == (set x | x in rids) + {r};
  }

  lemma {:induction false} RemoveEdgesSound(s: Engine, rids: seq<RelationId>, when: Time, now: Time)
    requires Sound(s) && AllDistinct(rids) && forall k :: 0 <= k < |rids| ==> Rel(rids[k]) in Cur(s).live
    ensures var t := RemoveEdges(s, rids, when, now);
            && Sound(t) && SameBooks(s, t) && Base(t) == Base(s)
            && Cur(t).live == Cur(s).live - RelThings(rids)
            && t.relRefs == s.relRefs - (set r | r in rids)
            && |t.st.events| == |s.st.events| + |rids|
  {
    hide Sound;
    if rids == [] {
      assert Cur(s).live - RelThings(rids) == Cur(s).live;
      assert s.relRefs - (set r | r in rids) == s.relRefs;
    } else {
      var n := |rids| - 1;
      RemoveEdgesSound(s, rids[..n], when, now);
      var s1 := RemoveEdges(s, rids[..n], when, now);
      assert Rel(rids[n]) in Cur(s1).live by {
        assert rids[n] !in rids[..n];
      }
      RemoveEdgesStep(s1, rids[n], when, now);
      RelThingsSnoc(rids[..n], rids[n], Cur(s).live, s.relRefs);
      assert rids == rids[..n] + [rids[n]];
    }
  }

  lemma RemoveEdgesStep(s: Engine, r: RelationId, when: Time, now: Time)
    requires Sound(s) && Rel(r) in Cur(s).live
    ensures var s2 := Commit(s, RemovedEvent(s, r, when, now));
            var t := s2.(relRefs := s2.relRefs - {r});
            && Sound(t) && SameBooks(s, t) && Base(t) == Base(s)
            && Cur(t).live == Cur(s).live - {Rel(r)} && t.relRefs == s.relRefs - {r}
            && |t.st.events| == |s.st.events| + 1
  {
    hide Sound;
    RemoveEdgeSound(s, r, when, now);
    StageAppends(s.st, RemovedEvent(s, r, when, now));
    var s2 := Commit(s, RemovedEvent(s, r, when, now));
    SameCoreSound(s2, s2.(relRefs := s2.relRefs - {r}));
  }

  /** t is s without the edges touching id, references included. */
  ghost predicate Cascaded(s: Engine, t: Engine, id: EntityId) {
    && (forall x :: Ent(x) in Cur(t).live <==> Ent(x) in Cur(s).live)
    && (forall r :: Rel(r) in Cur(t).live <==> Rel(r) in Cur(s).live && !Touches(r, id))
    && (forall u :: u in Cur(t).live ==> u in Cur(s).live && Cur(t).live[u] == Cur(s).live[u])
    && (forall r :: r in t.relRefs <==> r in s.relRefs && !(Rel(r) in Cur(s).live && Touches(r, id)))
    && (forall r :: r in t.relRefs ==> r in s.relRefs && t.relRefs[r] == s.relRefs[r])
  }

  lemma CascadedFrom(s: Engine, t: Engine, rids: seq<RelationId>, id: EntityId)
    requires Cur(t).live == Cur(s).live - RelThings(rids) && t.relRefs == s.relRefs - (set r | r in rids)
    requires forall r :: r in rids <==> Rel(r) in Cur(s).live && Touches(r, id)
    ensures Cascaded(s, t, id)
  {
    assert forall r :: Rel(r) in RelThings(rids) <==> r in rids;
    assert forall x :: Ent(x) !in RelThings(rids);
  }

  lemma CascadeSound(s: Engine, id: EntityId, when: Time, now: Time)
    requires Sound(s)
    ensures var t := Cascade(s, id, when, now);
            && Sound(t) && SameBooks(s, t) && Base(t) == Base(s) && Cascaded(s, t, id)
            && |t.st.events| == |s.st.events| + |ListRelationsTouching(s, id)|
  {
    hide Sound, Cur, Base, Cascaded, ListRelationsTouching, RemoveEdges, RelThings;
    var rids := ListRelationsTouching(s, id);
    TouchingIsLive(s, id);
    RemoveEdgesSound(s, rids, when, now);
    CascadedFrom(s, RemoveEdges(s, rids, when, now), rids, id);
  }

  // ------------------------------------------------------------ deleting an entity

  /** t is s with entity id gone and every edge touching it, references included. */
  ghost predicate Killed(s: Engine, t: Engine, id: EntityId) {
    && (forall x :: Ent(x) in Cur(t).live <==> Ent(x) in Cur(s).live && x != id)
    && (forall r :: Rel(r) in Cur(t).live <==> Rel(r) in Cur(s).live && !Touches(r, id))
    && (forall u :: u in Cur(t).live ==> u in Cur(s).live && Cur(t).live[u] == Cur(s).live[u])
    && (forall r :: r in t.relRefs <==> r in s.relRefs && !(Rel(r) in Cur(s).live && Touches(r, id)))
    && (forall r :: r in t.relRefs ==> r in s.relRefs && t.relRefs[r] == s.relRefs[r])
  }

  lemma DeleteSound(s: Engine, e: Entity, when: Time, now: Time)
    requires Sound(s) && Owns(Cur(s).live, e.id, e.ident)
    ensures var s1 := Commit(s, EntityEvent(Deleted, e, when, now));
            && Sound(s1) && SameBooks(s, s1) && s1.relRefs == s.relRefs && Base(s1) == Base(s)
            && Cur(s1).live == Cur(s).live - {Ent(e.id)} && |s1.st.events| == |s.st.events| + 1
  {
    hide Sound;
    var ev := EntityEvent(Deleted, e, when, now);
    LiveNames(s, e.id, e.ident);
    CommitSound(s, ev);
    StageAppends(s.st, ev);
  }

  lemma KilledFrom(s: Engine, s1: Engine, t: Engine, id: EntityId)
    requires Cur(s1).live == Cur(s).live - {Ent(id)} && s1.relRefs == s.relRefs
    requires Cascaded(s1, t, id)
    ensures Killed(s, t, id)
  {
  }

  /** The node goes first, its edges after it: between the two an edge may dangle. */
  lemma KillSound(s: Engine, id: EntityId, e: Entity, when: Time, now: Time)
    requires Sound(s) && e.id == id && Owns(Cur(s).live, id, e.ident)
    ensures var s1 := Commit(s, EntityEvent(Deleted, e, when, now));
            var t := Cascade(s1, id, when, now);
            && Sound(s1) && Sound(t) && SameBooks(s, t) && Base(t) == Base(s)
            && Killed(s, t, id)
            && |t.st.events| == |s.st.events| + 1 + |ListRelationsTouching(s1, id)|
  {
    hide Sound, Commit, Cascade, Killed, Cascaded, ListRelationsTouching, Cur, Base;
    DeleteSound(s, e, when, now);
    var s1 := Commit(s, EntityEvent(Deleted, e, when, now));
    CascadeSound(s1, id, when, now);
    KilledFrom(s, s1, Cascade(s1, id, when, now), id);
  }

  lemma LiveNames(s: Engine, id: EntityId, i: Identity)
    requires Sound(s) && Owns(Cur(s).live, id, i)
    ensures id < s.nextId && id in Cur(s).ident && Cur(s).ident[id] == i
    ensures id in s.g.entities ==> s.g.entities[id].ident == i
  {
  }

  lemma KilledCounts(s: Engine, t: Engine, id: EntityId)
    requires Counted(s) && Killed(s, t, id) && t.refs == s.refs - {id}
    ensures Counted(t)
  {
  }

  lemma KilledLinks(s: Engine, t: Engine, id: EntityId)
    requires Linked(Cur(s).live) && Killed(s, t, id)
    ensures Linked(Cur(t).live)
  {
  }

  lemma DeleteEntityKeeps(s: Engine, obs: EntityObs, now: Time)
    requires Sound(s)
    ensures var t := DeleteEntityOp(s, obs, now);
            && Sound(t)
            && (Linked(Cur(s).live) ==> Linked(Cur(t).live))
            && (Counted(s) ==> Counted(t))
  {
    hide Sound;
    MatchIsOwner(s, obs.ident);
    match MatchIdentity(s, obs.ident)
    case None =>
    case Some(id) =>
      var left := Held(s.refs, id) - {Key(s, obs.producer)};
      if id in s.refs && left != map[] {
        SameCoreSound(s, s.(refs := s.refs[id := left]));
      } else {
        var s0 := s.(refs := s.refs - {id});
        SameCoreSound(s, s0);
        var e := Entity(id, obs.ident, obs.attrs, obs.schema);
        KillSound(s0, id, e, obs.eventTime, now);
        var t := DeleteEntityOp(s, obs, now);
        if Linked(Cur(s).live) {
          KilledLinks(s, t, id);
        }
        if Counted(s) {
          KilledCounts(s, t, id);
        }
      }
  }

  // ------------------------------------------------------------ asserting an edge

  lemma AssertRelationSound(s: Engine, obs: RelationObs, src: EntityId, dst: EntityId, now: Time)
    requires Sound(s) && Ent(src) in Cur(s).live && Ent(dst) in Cur(s).live
    ensures var t := AssertRelation(s, obs, src, dst, now);
            var rid := RelationId(obs.typ, src, dst);
            && Sound(t) && SameBooks(s, t) && Base(t) == Base(s)
            && SameEntities(Cur(s).live, Cur(t).live)
            && (forall r :: Rel(r) in Cur(t).live <==> Rel(r) in Cur(s).live || r == rid)
            && Cur(t).live == Cur(s).live[Rel(rid) := RelCore(obs.attrs)]
            && t.relRefs == s.relRefs[rid := Held(s.relRefs, rid)[Key(s, obs.producer) := EdgeRef(s, obs, src, now)]]
  {
    hide Sound;
    var rid := RelationId(obs.typ, src, dst);
    var s1 := s.(relRefs := s.relRefs[rid := Held(s.relRefs, rid)[Key(s, obs.producer) := EdgeRef(s, obs, src, now)]]);
    SameCoreSound(s, s1);
    GetRelationIsLive(s, rid);
    match GetRelation(s, rid)
    case None =>
      var ev := RelationEvent(Added, Relation(rid, obs.attrs), obs.eventTime, now);
      EdgeCommitSound(s1, ev);
    case Some(prior) =>
      CanonicalValue.UnchangedIffWithin(prior.attrs, obs.attrs);
      if CanonicalValue.ChangedKeys(prior.attrs, obs.attrs) != {} {
        var ev := RelationEvent(AttributeChanged, Relation(rid, obs.attrs), obs.eventTime, now);
        EdgeCommitSound(s1, ev);
      }
  }

  /** What observing an edge reports: that it came, that its attributes changed, or nothing. */
  ghost function EdgeReport(live: View, rid: RelationId, obs: RelationObs, now: Time): seq<Event> {
    if Rel(rid) !in live then [RelationEvent(Added, Relation(rid, obs.attrs), obs.eventTime, now)]
    else if live[Rel(rid)] == RelCore(obs.attrs) then []
    else [RelationEvent(AttributeChanged, Relation(rid, obs.attrs), obs.eventTime, now)]
  }

  lemma AssertRelationReports(s: Engine, obs: RelationObs, src: EntityId, dst: EntityId, now: Time)
    requires Sound(s)
    ensures AssertRelation(s, obs, src, dst, now).st.events ==
            s.st.events + EdgeReport(Cur(s).live, RelationId(obs.typ, src, dst), obs, now)
  {
    hide Sound, Stage, GetRelation, Cur;
    var rid := RelationId(obs.typ, src, dst);
    GetRelationIsLive(s, rid);
    match GetRelation(s, rid)
    case None => StageAppends(s.st, RelationEvent(Added, Relation(rid, obs.attrs), obs.eventTime, now));
    case Some(prior) =>
      CanonicalValue.UnchangedIffWithin(prior.attrs, obs.attrs);
      StageAppends(s.st, RelationEvent(AttributeChanged, Relation(rid, obs.attrs), obs.eventTime, now));
  }

  lemma EdgeCommitSound(s: Engine, ev: Event)
    requires Sound(s) && Emitted(Cur(s), ev) && ev.RelationEvent? && ev.relChange != Removed
    ensures var t := Commit(s, ev);
            && Sound(t) && SameBooks(s, t) && Base(t) == Base(s) && t.relRefs == s.relRefs
            && SameEntities(Cur(s).live, Cur(t).live)
            && (forall r :: Rel(r) in Cur(t).live <==> Rel(r) in Cur(s).live || r == ev.relation.id)
            && Cur(t).live == Cur(s).live[Rel(ev.relation.id) := RelCore(ev.relation.attrs)]
  {
    hide Sound, Stage;
    CommitSound(s, ev);
    StageAppends(s.st, ev);
  }

  lemma EdgeKeepsCount(relRefs: map<RelationId, Refs>, live: View, n: View, rid: RelationId, key: Str, ref: Ref)
    requires CountedRelations(relRefs, live)
    requires forall r :: Rel(r) in n <==> Rel(r) in live || r == rid
    ensures CountedRelations(relRefs[rid := Held(relRefs, rid)[key := ref]], n)
  {
    assert key in Held(relRefs, rid)[key := ref];
  }

  /** Everything an operation that only adds edges keeps. */
  ghost predicate KeepsAll(s: Engine, t: Engine) {
    && Sound(t)
    && SameEntities(Cur(s).live, Cur(t).live)
    && t.refs == s.refs && t.st.scope == s.st.scope && t.aliases == s.aliases && t.bufferTTL == s.bufferTTL
    && t.log == s.log && t.g == s.g && t.nextId == s.nextId && t.notified == s.notified
    && (Linked(Cur(s).live) ==> Linked(Cur(t).live))
    && (Counted(s) ==> Counted(t))
  }

  lemma AssertRelationKeeps(s: Engine, obs: RelationObs, src: EntityId, dst: EntityId, now: Time)
    requires Sound(s) && Ent(src) in Cur(s).live && Ent(dst) in Cur(s).live
    ensures var t := AssertRelation(s, obs, src, dst, now);
            KeepsAll(s, t) && t.pending == s.pending && t.waited == s.waited
  {
    hide Sound;
    AssertRelationSound(s, obs, src, dst, now);
    var t := AssertRelation(s, obs, src, dst, now);
    if Counted(s) {
      EdgeKeepsCount(s.relRefs, Cur(s).live, Cur(t).live, RelationId(obs.typ, src, dst),
                     Key(s, obs.producer), EdgeRef(s, obs, src, now));
    }
  }

  // ------------------------------------------------------------ endpoints

  /** The endpoint's identity, or the one its aliases stand for, has a live owner. */
  ghost predicate Resolvable(live: View, idx: AliasIndex, ident: Identity) {
    || (exists id: EntityId :: Owns(live, id, ident))
    || (Substitute(idx, ident).Some? && exists id: EntityId :: Owns(live, id, Substitute(idx, ident).value))
  }

  lemma ResolvesIffResolvable(s: Engine, ident: Identity)
    requires Sound(s)
    ensures ResolveEndpoint(s, ident).Found? <==> Resolvable(Cur(s).live, s.aliases, ident)
    ensures ResolveEndpoint(s, ident).Found? ==> Ent(ResolveEndpoint(s, ident).id) in Cur(s).live
  {
    MatchIsOwner(s, ident);
    match MatchIdentity(s, ident)
    case Some(id) =>
    case None =>
      match Substitute(s.aliases, ident)
      case None =>
      case Some(sub) => MatchIsOwner(s, sub);
  }

  /** The endpoint stands for entity x: the owner of its identity or, if that has none, of the
      identity its aliases stand for. */
  ghost predicate Denotes(live: View, idx: AliasIndex, ident: Identity, x: EntityId) {
    if exists o: EntityId :: Owns(live, o, ident) then Owns(live, x, ident)
    else Substitute(idx, ident).Some? && Owns(live, x, Substitute(idx, ident).value)
  }

  /** The observation is about the edge from a to b: its endpoints stand for them, and no alias
      makes them one. */
  ghost predicate Joins(live: View, idx: AliasIndex, obs: RelationObs, a: EntityId, b: EntityId) {
    && Denotes(live, idx, obs.src, a) && Denotes(live, idx, obs.dst, b)
    && (a == b ==> Owns(live, a, obs.src) && Owns(live, a, obs.dst))
  }

  lemma EndpointDenotes(s: Engine, ident: Identity)
    requires Sound(s)
    ensures match ResolveEndpoint(s, ident)
            case Found(x, substituted) =>
              && (forall y :: Denotes(Cur(s).live, s.aliases, ident, y) <==> y == x)
              && (substituted <==> !Owns(Cur(s).live, x, ident))
            case NotFound => forall y :: !Denotes(Cur(s).live, s.aliases, ident, y)
  {
    MatchIsOwner(s, ident);
    OneOwner(s, ident);
    if Substitute(s.aliases, ident).Some? {
      MatchIsOwner(s, Substitute(s.aliases, ident).value);
      OneOwner(s, Substitute(s.aliases, ident).value);
    }
    hide Sound, Cur, MatchIdentity, Substitute;
  }

  /** What endpoint resolution answers: the edge the observation is about, if it is about one. */
  lemma EndsExact(s: Engine, obs: RelationObs)
    requires Sound(s)
    ensures forall a, b :: ResolveEnds(s, obs) == Ends(a, b) <==> Joins(Cur(s).live, s.aliases, obs, a, b)
    ensures ResolveEnds(s, obs).EndpointsCollapsed? <==>
            exists a :: Denotes(Cur(s).live, s.aliases, obs.src, a) && Denotes(Cur(s).live, s.aliases, obs.dst, a) &&
              !(Owns(Cur(s).live, a, obs.src) && Owns(Cur(s).live, a, obs.dst))
  {
    hide Sound, Cur, Denotes, ResolveEndpoint;
    EndpointDenotes(s, obs.src);
    EndpointDenotes(s, obs.dst);
  }

  lemma EndsAreLive(s: Engine, obs: RelationObs)
    requires Sound(s)
    ensures ResolveEnds(s, obs).Ends? ==>
              Ent(ResolveEnds(s, obs).src) in Cur(s).live && Ent(ResolveEnds(s, obs).dst) in Cur(s).live
    ensures ResolveEnds(s, obs).EndpointMissing? <==>
              !Resolvable(Cur(s).live, s.aliases, obs.src) || !Resolvable(Cur(s).live, s.aliases, obs.dst)
  {
    ResolvesIffResolvable(s, obs.src);
    ResolvesIffResolvable(s, obs.dst);
  }

  // ------------------------------------------------------------ parked edges

  lemma RetryKeeps(s: Engine, p: Pending, now: Time)
    requires Sound(s)
    ensures var (t, stays) := Retry(s, p, now);
            KeepsAll(s, t) && t.pending == s.pending && t.waited == s.waited
            && (stays <==> now <= p.deadline && ResolveEnds(s, p.obs).EndpointMissing?)
  {
    hide Sound;
    EndsAreLive(s, p.obs);
    if now <= p.deadline && ResolveEnds(s, p.obs).Ends? {
      var e := ResolveEnds(s, p.obs);
      var s0 := s.(st := s.st.(scope := p.scope));
      SameCoreSound(s, s0);
      AssertRelationKeeps(s0, p.obs, e.src, e.dst, now);
      var s1 := AssertRelation(s0, p.obs, e.src, e.dst, now);
      SameCoreSound(s1, s1.(st := s1.st.(scope := s.st.scope)));
    }
  }

  lemma KeepsAllTransitive(s: Engine, t: Engine, u: Engine)
    requires KeepsAll(s, t) && KeepsAll(t, u)
    ensures KeepsAll(s, u)
  {
    hide Sound;
  }

  /** Whether a parked edge still waits for an endpoint. */
  ghost predicate Waiting(live: View, idx: AliasIndex, p: Pending) {
    !Resolvable(live, idx, p.obs.src) || !Resolvable(live, idx, p.obs.dst)
  }

  lemma SameEntitiesResolve(a: View, b: View, idx: AliasIndex, ident: Identity)
    requires SameEntities(a, b)
    ensures Resolvable(a, idx, ident) <==> Resolvable(b, idx, ident)
  {
    assert forall id: EntityId, i :: Owns(a, id, i) <==> Owns(b, id, i);
  }

  /** A retry pass keeps exactly the unexpired edges that still wait. */
  lemma {:induction false} RetryAllKeeps(s: Engine, ps: seq<Pending>, now: Time)
    requires Sound(s)
    ensures var (t, kept) := RetryAll(s, ps, now);
            && KeepsAll(s, t) && t.pending == s.pending && t.waited == s.waited
            && |kept| <= |ps|
            && (forall p :: p in kept ==> p in ps && now <= p.deadline && Waiting(Cur(s).live, s.aliases, p))
            && (forall p :: p in ps && now <= p.deadline && Waiting(Cur(s).live, s.aliases, p) ==> p in kept)
  {
    hide Sound;
    if ps == [] {
      KeepsNothing(s);
    } else {
      var n := |ps| - 1;
      RetryAllKeeps(s, ps[..n], now);
      var (s1, kept) := RetryAll(s, ps[..n], now);
      RetryKeeps(s1, ps[n], now);
      var (s2, stays) := Retry(s1, ps[n], now);
      KeepsAllTransitive(s, s1, s2);
      EndsAreLive(s1, ps[n].obs);
      SameEntitiesResolve(Cur(s).live, Cur(s1).live, s.aliases, ps[n].obs.src);
      SameEntitiesResolve(Cur(s).live, Cur(s1).live, s.aliases, ps[n].obs.dst);
      assert ps == ps[..n] + [ps[n]];
    }
  }

  lemma KeepsNothing(s: Engine)
    requires Sound(s)
    ensures KeepsAll(s, s)
  {
  }

  lemma SetPendingKeeps(s: Engine, ps: seq<Pending>)
    requires Sound(s)
    ensures KeepsAll(s, SetPending(s, ps)) && Cur(SetPending(s, ps)) == Cur(s)
  {
    hide Sound;
    SameCoreSound(s, SetPending(s, ps));
  }

  lemma FlushPendingKeeps(s: Engine, now: Time)
    requires Sound(s)
    ensures var t := FlushPending(s, now);
            && KeepsAll(s, t)
            && t.waited == WaitedHashes(t.aliases, t.pending)
            && |t.pending| <= |s.pending|
            && (forall p :: p in t.pending ==>
                  p in s.pending && now <= p.deadline && Waiting(Cur(t).live, t.aliases, p))
  {
    hide Sound;
    RetryAllKeeps(s, s.pending, now);
    var (s1, kept) := RetryAll(s, s.pending, now);
    SetPendingKeeps(s1, kept);
    KeepsAllTransitive(s, s1, SetPending(s1, kept));
    forall p | p in kept
      ensures Waiting(Cur(s1).live, s.aliases, p)
    {
      SameEntitiesResolve(Cur(s).live, Cur(s1).live, s.aliases, p.obs.src);
      SameEntitiesResolve(Cur(s).live, Cur(s1).live, s.aliases, p.obs.dst);
    }
  }

  // ------------------------------------------------------------ the operations

  /** What every operation keeps. */
  ghost predicate Keeps(s: Engine, t: Engine) {
    && Sound(t)
    && t.log == s.log && t.g == s.g && t.notified == s.notified && s.nextId <= t.nextId
    && (Linked(Cur(s).live) ==> Linked(Cur(t).live))
    && (Counted(s) ==> Counted(t))
  }

  lemma ObserveEntityKeeps(s: Engine, obs: EntityObs, now: Time)
    requires Sound(s)
    ensures Keeps(s, ObserveEntityOp(s, obs, now))
  {
    hide Sound;
    AssertEntityKeeps(s, obs, now);
    var s1 := AssertEntity(s, obs, now);
    FlushPendingKeeps(s1, now);
  }

  lemma RecordAliasKeeps(s: Engine, obs: RelationObs, now: Time)
    requires Sound(s)
    ensures Keeps(s, RecordAlias(s, obs, now))
    ensures RecordAlias(s, obs, now).st.scope == s.st.scope
    ensures SameEntities(Cur(s).live, Cur(RecordAlias(s, obs, now)).live)
    ensures RecordAlias(s, obs, now).refs == s.refs
  {
    hide Sound;
    KeepsNothing(s);
    match (ClaimOf(obs), AliasDeadline(obs, now))
    case (Some(claim), Some(d)) =>
      var s1 := s.(aliases := Record(s.aliases, claim, Key(s, obs.producer), Ref(d, 0)));
      SameCoreSound(s, s1);
      var s2 := SetPending(s1, s1.pending);
      SameCoreSound(s1, s2);
      FlushPendingKeeps(s2, now);
    case _ =>
  }

  lemma ObserveRelationKeeps(s: Engine, obs: RelationObs, now: Time)
    requires Sound(s)
    ensures Keeps(s, ObserveRelationOp(s, obs, now))
  {
    hide Sound;
    KeepsNothing(s);
    RecordAliasKeeps(s, obs, now);
    var s1 := if obs.typ == SAME_AS then RecordAlias(s, obs, now) else s;
    EndsAreLive(s1, obs);
    match ResolveEnds(s1, obs)
    case Ends(src, dst) => AssertRelationKeeps(s1, obs, src, dst, now);
    case EndpointsCollapsed =>
    case EndpointMissing =>
      if s1.bufferTTL > 0 {
        var t := Park(s1, obs, now);
        SameCoreSound(s1, t);
      }
  }

  lemma ForgottenEdgeCounts(s: Engine, t: Engine, rid: RelationId)
    requires Counted(s) && t.refs == s.refs && t.relRefs == s.relRefs - {rid}
    requires Cur(t).live == Cur(s).live - {Rel(rid)}
    ensures Counted(t)
  {
  }

  lemma RemoveRelationKeeps(s: Engine, obs: RelationObs, now: Time)
    requires Sound(s)
    ensures Keeps(s, RemoveRelationOp(s, obs, now))
  {
    hide Sound;
    match ResolveEnds(s, obs)
    case Ends(src, dst) =>
      var rid := RelationId(obs.typ, src, dst);
      var left := Held(s.relRefs, rid) - {Key(s, obs.producer)};
      if rid in s.relRefs && left != map[] {
        SameCoreSound(s, s.(relRefs := s.relRefs[rid := left]));
      } else {
        ForgetEdgeKeeps(s, rid, obs.eventTime, now);
      }
    case _ =>
  }

  /** Forgetting an edge's references removes it too, if it is there. */
  lemma ForgetEdgeKeeps(s: Engine, rid: RelationId, when: Time, now: Time)
    requires Sound(s)
    ensures var s1 := s.(relRefs := s.relRefs - {rid});
            Keeps(s, if GetRelation(s, rid).None? then s1 else Commit(s1, RemovedEvent(s, rid, when, now)))
  {
    hide Sound, Counted, RemovedEvent, Commit, GetRelation;
    var s1 := s.(relRefs := s.relRefs - {rid});
    SameCoreSound(s, s1);
    GetRelationIsLive(s, rid);
    if GetRelation(s, rid).None? {
      assert Cur(s).live - {Rel(rid)} == Cur(s).live;
      if Counted(s) {
        ForgottenEdgeCounts(s, s1, rid);
      }
    } else {
      SameRemovedEvent(s, s1, rid, when, now);
      RemoveEdgeSound(s1, rid, when, now);
      var t := Commit(s1, RemovedEvent(s1, rid, when, now));
      CommitFrames(s1, RemovedEvent(s1, rid, when, now));
      if Counted(s) {
        ForgottenEdgeCounts(s, t, rid);
      }
    }
  }

  lemma SameRemovedEvent(s: Engine, s1: Engine, rid: RelationId, when: Time, now: Time)
    requires s1 == s.(relRefs := s.relRefs - {rid})
    ensures RemovedEvent(s1, rid, when, now) == RemovedEvent(s, rid, when, now)
  {
  }

  lemma CommitFrames(s: Engine, ev: Event)
    ensures var t := Commit(s, ev);
            t.log == s.log && t.g == s.g && t.notified == s.notified && t.refs == s.refs && t.relRefs == s.relRefs
            && t.nextId == s.nextId
  {
  }

  lemma StepKeeps(s: Engine, op: Op, now: Time)
    requires Sound(s)
    ensures Keeps(s, Step(s, op, now))
  {
    hide Sound, ObserveEntityOp, DeleteEntityOp, ObserveRelationOp, RemoveRelationOp;
    match op
    case SetScope(scope) => SameCoreSound(s, s.(st := s.st.(scope := scope)));
    case ObserveEntity(obs) => ObserveEntityKeeps(s, obs, now);
    case DeleteEntity(obs) =>
      DeleteEntityKeeps(s, obs, now);
      DeleteFrames(s, obs, now);
    case ObserveRelation(obs) => ObserveRelationKeeps(s, obs, now);
    case RemoveRelation(obs) => RemoveRelationKeeps(s, obs, now);
  }

  lemma {:induction false} RemoveEdgesFrames(s: Engine, rids: seq<RelationId>, when: Time, now: Time)
    ensures SameBooks(s, RemoveEdges(s, rids, when, now))
  {
    if rids != [] {
      RemoveEdgesFrames(s, rids[..|rids| - 1], when, now);
      var s1 := RemoveEdges(s, rids[..|rids| - 1], when, now);
      StageAppends(s1.st, RemovedEvent(s1, rids[|rids| - 1], when, now));
    }
  }

  lemma DeleteFrames(s: Engine, obs: EntityObs, now: Time)
    ensures var t := DeleteEntityOp(s, obs, now);
            t.log == s.log && t.g == s.g && t.notified == s.notified && t.nextId == s.nextId
  {
    match MatchIdentity(s, obs.ident)
    case None =>
    case Some(id) =>
      var s1 := Commit(s.(refs := s.refs - {id}), EntityEventOf(Deleted, id, obs, now));
      RemoveEdgesFrames(s1, ListRelationsTouching(s1, id), obs.eventTime, now);
  }

  lemma {:induction false} StepsKeep(s: Engine, ops: seq<Timed>)
    requires Sound(s)
    ensures Keeps(s, Steps(s, ops))
  {
    hide Sound;
    if ops == [] {
      KeepsNothing(s);
    } else {
      var n := |ops| - 1;
      StepsKeep(s, ops[..n]);
      StepKeeps(Steps(s, ops[..n]), ops[n].op, ops[n].now);
    }
  }
}
