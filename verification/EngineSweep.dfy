/** The liveness pass: exact, and safe for the edges of what it expires. */
module EngineSweep {
  import opened Model
  import opened EventLog
  import opened Aliases
  import opened ChangeEngine
  import opened Overlay
  import opened EngineSteps
  import P = Projection

  // ------------------------------------------------------------ counting events

  function CountDeleted(evs: seq<Event>): nat {
    if evs == [] then 0
    else
      var last := evs[|evs| - 1];
      CountDeleted(evs[..|evs| - 1]) + if last.EntityEvent? && last.change == Deleted then 1 else 0
  }

  function CountRemoved(evs: seq<Event>): nat {
    if evs == [] then 0
    else
      var last := evs[|evs| - 1];
      CountRemoved(evs[..|evs| - 1]) + if last.RelationEvent? && last.relChange == Removed then 1 else 0
  }

  /** The staged events are that many deletes and that many removals, and nothing else. */
  ghost predicate Tally(evs: seq<Event>, entities: nat, relations: nat) {
    CountDeleted(evs) == entities && CountRemoved(evs) == relations && |evs| == entities + relations
  }

  lemma TallyNothing(entities: nat, relations: nat)
    requires Tally([], entities, relations)
    ensures entities == 0 && relations == 0
  {
  }

  lemma TallyDelete(evs: seq<Event>, ev: Event, entities: nat, relations: nat)
    requires Tally(evs, entities, relations) && ev.EntityEvent? && ev.change == Deleted
    ensures Tally(evs + [ev], entities + 1, relations)
  {
    assert (evs + [ev])[..|evs|] == evs;
  }

  lemma TallyRemove(evs: seq<Event>, ev: Event, entities: nat, relations: nat)
    requires Tally(evs, entities, relations) && ev.RelationEvent? && ev.relChange == Removed
    ensures Tally(evs + [ev], entities, relations + 1)
  {
    assert (evs + [ev])[..|evs|] == evs;
  }

  lemma {:induction false} RemoveEdgesTally(s: Engine, rids: seq<RelationId>, when: Time, now: Time, entities: nat,
                                            relations: nat)
    requires Tally(s.st.events, entities, relations)
    ensures Tally(RemoveEdges(s, rids, when, now).st.events, entities, relations + |rids|)
  {
    if rids != [] {
      var n := |rids| - 1;
      RemoveEdgesTally(s, rids[..n], when, now, entities, relations);
      var s1 := RemoveEdges(s, rids[..n], when, now);
      var ev := RemovedEvent(s1, rids[n], when, now);
      StageAppends(s1.st, ev);
      TallyRemove(s1.st.events, ev, entities, relations + n);
    }
  }

  // ------------------------------------------------------------ expiring entities

  /** The keys of the reference maps are the live things, though some sets may be empty. */
  ghost predicate KeysCounted(s: Engine) {
    && (forall id :: id in s.refs <==> Ent(id) in Cur(s).live)
    && (forall r :: r in s.relRefs <==> Rel(r) in Cur(s).live)
  }

  /** Everything an expiry leaves alone. */
  ghost predicate SameStatics(s: Engine, t: Engine) {
    && t.g == s.g && t.log == s.log && t.notified == s.notified && t.nextId == s.nextId
    && t.aliases == s.aliases && t.bufferTTL == s.bufferTTL && t.st.scope == s.st.scope
  }

  /** From s to t edges only go, and edge references only with their edge. */
  ghost predicate Sheds(s: Engine, t: Engine) {
    && (forall u :: u in Cur(t).live ==> u in Cur(s).live)
    && (forall r :: r in t.relRefs ==> r in s.relRefs && t.relRefs[r] == s.relRefs[r])
    && (forall r :: r in s.relRefs && Rel(r) in Cur(t).live ==> r in t.relRefs)
  }

  /** No live edge is lost but those whose references were dropped with them. */
  ghost predicate EdgesTracked(s: Engine) {
    forall r :: Rel(r) in Base(s).live && r in s.relRefs ==> Rel(r) in Cur(s).live
  }

  /** What is live is live in the durable log, in the same state. */
  ghost predicate OnlyShrunk(s: Engine) {
    forall u :: u in Cur(s).live ==> u in Base(s).live && Cur(s).live[u] == Base(s).live[u]
  }

  ghost predicate EntitiesLeft(s: Engine, gone: set<EntityId>) {
    forall x: EntityId :: Ent(x) in Cur(s).live <==> Ent(x) in Base(s).live && x !in gone
  }

  /** The edges left are those of no expired entity, save the dropped ones. */
  ghost predicate EdgesLeft(s: Engine, gone: set<EntityId>, dropped: set<RelationId>) {
    forall r :: Rel(r) in Cur(s).live <==>
      Rel(r) in Base(s).live && r !in dropped && !(exists x :: x in gone && Ent(x) in Base(s).live && Touches(r, x))
  }

  /** The state of a pass after expiring the entities in gone and the edges in dropped. */
  ghost predicate Expired(s: Engine, w: SweepState, gone: set<EntityId>, dropped: set<RelationId>) {
    && Sound(w.e) && SameStatics(s, w.e) && Base(w.e) == Base(s)
    && EntitiesLeft(w.e, gone) && EdgesLeft(w.e, gone, dropped) && OnlyShrunk(w.e) && EdgesTracked(w.e)
    && Tally(w.e.st.events, w.entities, w.relations)
    && (Linked(Base(s).live) ==> Linked(Cur(w.e).live))
  }

  lemma SweepStartExpired(s: Engine, now: Time)
    requires Sound(s)
    ensures Expired(s.(st := NO_STAGED), SweepStart(s, now), {}, {})
    ensures KeysCounted(s.(st := NO_STAGED)) ==> KeysCounted(SweepStart(s, now).e)
  {
    UnstagedSound(s);
    var s0 := s.(st := NO_STAGED);
    SameCoreSound(s0, SweepStart(s, now).e);
  }

  lemma GraphEntityOwns(s: Engine, id: EntityId)
    requires Sound(s) && id in s.g.entities && id !in s.g.deleted
    ensures s.g.entities[id].id == id && Owns(Base(s).live, id, s.g.entities[id].ident)
  {
    assert id in P.Live(s.g);
  }

  lemma DeadInBase(s: Engine, id: EntityId)
    requires Sound(s) && (id !in s.g.entities || id in s.g.deleted)
    ensures Ent(id) !in Base(s).live
  {
    assert id !in P.Live(s.g);
  }

  lemma KilledExpired(s: Engine, w: SweepState, x: SweepState, id: EntityId, gone: set<EntityId>)
    requires Expired(s, w, gone, {}) && Killed(w.e, x.e, id) && Sound(x.e) && Base(x.e) == Base(w.e)
    requires SameBooks(w.e.(refs := w.e.refs - {id}), x.e) && Tally(x.e.st.events, x.entities, x.relations)
    requires Ent(id) in Base(w.e).live
    ensures Expired(s, x, gone + {id}, {})
  {
    hide Sound, Tally, Cur, Base;
    forall r | Rel(r) in Base(x.e).live && !Touches(r, id)
      ensures (exists y :: y in gone + {id} && Ent(y) in Base(x.e).live && Touches(r, y)) ==>
              exists y :: y in gone && Ent(y) in Base(x.e).live && Touches(r, y)
    {
    }
  }

  lemma KilledKeysCounted(s: Engine, t: Engine, id: EntityId)
    requires KeysCounted(s) && Killed(s, t, id) && t.refs == s.refs - {id}
    ensures KeysCounted(t)
  {
  }

  lemma ExpireEntityStep(s: Engine, w: SweepState, id: EntityId, now: Time, gone: set<EntityId>)
    requires Expired(s, w, gone, {}) && id !in gone
    ensures Expired(s, ExpireEntity(w, id, now), gone + {id}, {})
    ensures KeysCounted(w.e) && id in w.e.refs ==> KeysCounted(ExpireEntity(w, id, now).e)
    ensures ExpireEntity(w, id, now).e.refs == w.e.refs - {id}
    ensures ExpireEntity(w, id, now).e.pending == w.e.pending && ExpireEntity(w, id, now).e.waited == w.e.waited
    ensures Sheds(w.e, ExpireEntity(w, id, now).e)
  {
    hide Sound, Killed, ListRelationsTouching, Tally, Cur, Base, Linked;
    var s0 := w.e.(refs := w.e.refs - {id});
    SameCoreSound(w.e, s0);
    if id !in s0.g.entities || id in s0.g.deleted {
      DeadExpired(s, w, id, gone);
    } else {
      LiveExpired(s, w, id, now, gone);
    }
  }

  lemma DeadExpired(s: Engine, w: SweepState, id: EntityId, gone: set<EntityId>)
    requires Expired(s, w, gone, {}) && (id !in w.e.g.entities || id in w.e.g.deleted)
    ensures Expired(s, w.(e := w.e.(refs := w.e.refs - {id})), gone + {id}, {})
    ensures KeysCounted(w.e) ==> id !in w.e.refs
    ensures Sheds(w.e, w.e.(refs := w.e.refs - {id}))
  {
    hide Sound;
    SameCoreSound(w.e, w.e.(refs := w.e.refs - {id}));
    DeadInBase(w.e, id);
  }

  lemma LiveExpired(s: Engine, w: SweepState, id: EntityId, now: Time, gone: set<EntityId>)
    requires Expired(s, w, gone, {}) && id !in gone && id in w.e.g.entities && id !in w.e.g.deleted
    ensures var x := ExpireEntity(w, id, now);
            && Expired(s, x, gone + {id}, {})
            && (KeysCounted(w.e) ==> KeysCounted(x.e))
            && x.e.refs == w.e.refs - {id} && x.e.pending == w.e.pending && x.e.waited == w.e.waited
            && Sheds(w.e, x.e)
  {
    hide *;
    LiveKilled(s, w, id, now, gone);
    var x := ExpireEntity(w, id, now);
    LiveTally(s, w, id, now, gone);
    KilledExpired(s, w, x, id, gone);
    if KeysCounted(w.e) {
      KilledKeysCounted(w.e, x.e, id);
    }
    KilledSheds(w.e, x.e, id);
  }

  /** The state of a pass that expires one live entity: it and its edges are gone. */
  lemma LiveKilled(s: Engine, w: SweepState, id: EntityId, now: Time, gone: set<EntityId>)
    requires Expired(s, w, gone, {}) && id !in gone && id in w.e.g.entities && id !in w.e.g.deleted
    ensures var x := ExpireEntity(w, id, now).e;
            && Sound(x) && Killed(w.e, x, id) && Base(x) == Base(w.e) && SameBooks(w.e.(refs := w.e.refs - {id}), x)
            && x.refs == w.e.refs - {id} && x.pending == w.e.pending && x.waited == w.e.waited
            && Ent(id) in Base(w.e).live
  {
    hide Sound, Killed, Cascade, ListRelationsTouching, Tally, Commit, Linked, EdgesTracked;
    var s0 := w.e.(refs := w.e.refs - {id});
    SameCoreSound(w.e, s0);
    var e := s0.g.entities[id];
    GraphEntityOwns(w.e, id);
    assert Owns(Cur(s0).live, id, e.ident);
    KillSound(s0, id, e, now, now);
    KilledBefore(w.e, s0, ExpireEntity(w, id, now).e, id);
  }

  lemma LiveTally(s: Engine, w: SweepState, id: EntityId, now: Time, gone: set<EntityId>)
    requires Expired(s, w, gone, {}) && id in w.e.g.entities && id !in w.e.g.deleted
    ensures var x := ExpireEntity(w, id, now); Tally(x.e.st.events, x.entities, x.relations)
  {
    hide Sound, ListRelationsTouching, Tally, Cur, Base, EdgesTracked, OnlyShrunk, EntitiesLeft, Linked;
    var s0 := w.e.(refs := w.e.refs - {id});
    var ev := EntityEvent(Deleted, s0.g.entities[id], now, now);
    var s1 := Commit(s0, ev);
    StageAppends(s0.st, ev);
    TallyDelete(s0.st.events, ev, w.entities, w.relations);
    RemoveEdgesTally(s1, ListRelationsTouching(s1, id), now, now, w.entities + 1, w.relations);
  }

  lemma KilledSheds(s: Engine, t: Engine, id: EntityId)
    requires Killed(s, t, id)
    ensures Sheds(s, t)
  {
    hide Cur;
  }

  lemma KilledBefore(s: Engine, s0: Engine, t: Engine, id: EntityId)
    requires Killed(s0, t, id) && Cur(s0) == Cur(s) && s0.relRefs == s.relRefs
    ensures Killed(s, t, id)
  {
  }

  /** A pass that has expired gone, told by the references that are left. */
  ghost predicate ExpiredRefs(s: Engine, now: Time, w: SweepState, gone: set<EntityId>) {
    && w.e.refs == DropLapsed(s.refs, now) - gone
    && w.e.pending == s.pending && w.e.waited == s.waited
    && Sheds(s.(st := NO_STAGED), w.e)
  }

  lemma {:induction false} ExpireEntitiesSound(s: Engine, now: Time, ids: seq<EntityId>)
    requires Sound(s) && AllDistinct(ids)
    requires forall k :: 0 <= k < |ids| ==> ids[k] in DropLapsed(s.refs, now)
    ensures var w := ExpireEntities(SweepStart(s, now), ids, now);
            && Expired(s.(st := NO_STAGED), w, SetOf(ids), {})
            && (KeysCounted(s.(st := NO_STAGED)) ==> KeysCounted(w.e))
            && ExpiredRefs(s, now, w, SetOf(ids))
  {
    hide Expired, KeysCounted, Sound, ExpireEntity, ExpiredRefs, DropLapsed, SweepStart;
    if ids == [] {
      SweepStartExpired(s, now);
      SweepStartRefs(s, now);
      assert SetOf(ids) == {};
    } else {
      var n := |ids| - 1;
      ExpireEntitiesSound(s, now, ids[..n]);
      var w := ExpireEntities(SweepStart(s, now), ids[..n], now);
      assert ids[n] !in ids[..n];
      SetOfSnoc(ids);
      RefsLeft(s, now, w, SetOf(ids[..n]), ids[n]);
      ExpireEntityStep(s.(st := NO_STAGED), w, ids[n], now, SetOf(ids[..n]));
      ExpiredRefsStep(s, now, w, ExpireEntity(w, ids[n], now), SetOf(ids[..n]), ids[n]);
    }
  }

  lemma SweepStartRefs(s: Engine, now: Time)
    requires Sound(s)
    ensures ExpiredRefs(s, now, SweepStart(s, now), {})
  {
    hide Sound;
    UnstagedSound(s);
    SameCoreSound(s.(st := NO_STAGED), SweepStart(s, now).e);
    assert DropLapsed(s.refs, now) - {} == DropLapsed(s.refs, now);
  }

  lemma SetOfSnoc<T>(s: seq<T>)
    requires s != []
    ensures SetOf(s) == SetOf(s[..|s| - 1]) + {s[|s| - 1]}
  {
    assert s == s[..|s| - 1] + [s[|s| - 1]];
  }

  lemma RefsLeft(s: Engine, now: Time, w: SweepState, gone: set<EntityId>, id: EntityId)
    requires ExpiredRefs(s, now, w, gone) && id in DropLapsed(s.refs, now) && id !in gone
    ensures id in w.e.refs
  {
  }

  lemma ExpiredRefsStep(s: Engine, now: Time, w: SweepState, x: SweepState, gone: set<EntityId>, id: EntityId)
    requires ExpiredRefs(s, now, w, gone)
    requires x.e.refs == w.e.refs - {id} && x.e.pending == w.e.pending && x.e.waited == w.e.waited
    requires Sheds(w.e, x.e)
    ensures ExpiredRefs(s, now, x, gone + {id})
  {
    hide Cur;
    assert DropLapsed(s.refs, now) - gone - {id} == DropLapsed(s.refs, now) - (gone + {id});
  }

  // ------------------------------------------------------------ expiring edges

  lemma MiddleExpired(s: Engine, w: SweepState, now: Time, gone: set<EntityId>)
    requires Expired(s, w, gone, {})
    ensures var m := SweepMiddle(w, now);
            && Expired(s, m, gone, {}) && m.e.refs == w.e.refs && m.e.relRefs == DropLapsed(w.e.relRefs, now)
            && Cur(m.e) == Cur(w.e)
            && (KeysCounted(w.e) ==> KeysCounted(m.e))
  {
    hide Sound;
    SameCoreSound(w.e, SweepMiddle(w, now).e);
  }

  lemma GraphEdgeLive(s: Engine, r: RelationId)
    requires Sound(s)
    ensures r in s.g.relations <==> Rel(r) in Base(s).live
    ensures r in s.g.relations ==> s.g.relations[r].id == r
  {
  }

  lemma ExpireRelationStep(s: Engine, w: SweepState, r: RelationId, now: Time, gone: set<EntityId>,
                           dropped: set<RelationId>)
    requires Expired(s, w, gone, dropped) && r in w.e.relRefs
    ensures var x := ExpireRelation(w, r, now);
            && Expired(s, x, gone, dropped + {r}) && (KeysCounted(w.e) ==> KeysCounted(x.e))
            && x.e.relRefs == w.e.relRefs - {r} && x.e.refs == w.e.refs
            && x.e.pending == w.e.pending && x.e.waited == w.e.waited
  {
    hide Sound, Tally, Cur, Base, Expired, KeysCounted, Commit;
    var s0 := w.e.(relRefs := w.e.relRefs - {r});
    assert Sound(w.e) by {
      ExpiredSound(s, w, gone, dropped);
    }
    SameCoreSound(w.e, s0);
    GraphEdgeLive(w.e, r);
    if r in s0.g.relations {
      EdgeTracked(s, w, r, gone, dropped);
      var ev := RelationEvent(Removed, s0.g.relations[r], now, now);
      DropEdgeSound(s0, ev);
      TallyEdge(s, w, s0, ev, gone, dropped);
      EdgeExpired(s, w, ExpireRelation(w, r, now), r, gone, dropped);
    } else {
      EdgeAbsent(s, w, ExpireRelation(w, r, now), r, gone, dropped);
    }
  }

  lemma EdgeTracked(s: Engine, w: SweepState, r: RelationId, gone: set<EntityId>, dropped: set<RelationId>)
    requires Expired(s, w, gone, dropped) && r in w.e.relRefs && Rel(r) in Base(w.e).live
    ensures Rel(r) in Cur(w.e).live
  {
    hide Sound, Cur, Base;
  }

  lemma DropEdgeSound(s: Engine, ev: Event)
    requires Sound(s) && ev.RelationEvent? && ev.relChange == Removed && Rel(ev.relation.id) in Cur(s).live
    ensures var t := Commit(s, ev);
            Sound(t) && Cur(t).live == Cur(s).live - {Rel(ev.relation.id)} && Base(t) == Base(s) && SameBooks(s, t)
            && t.relRefs == s.relRefs
  {
    hide Sound;
    CommitSound(s, ev);
    StageAppends(s.st, ev);
  }

  lemma TallyEdge(s: Engine, w: SweepState, s0: Engine, ev: Event, gone: set<EntityId>, dropped: set<RelationId>)
    requires Expired(s, w, gone, dropped) && ev.RelationEvent? && ev.relChange == Removed && s0.st == w.e.st
    ensures Tally(Commit(s0, ev).st.events, w.entities, w.relations + 1)
  {
    hide Sound, Tally, Cur, Base;
    StageAppends(s0.st, ev);
    TallyRemove(s0.st.events, ev, w.entities, w.relations);
  }

  lemma EdgeExpired(s: Engine, w: SweepState, x: SweepState, r: RelationId, gone: set<EntityId>,
                    dropped: set<RelationId>)
    requires Expired(s, w, gone, dropped) && Sound(x.e) && Base(x.e) == Base(w.e) && SameBooks(w.e, x.e)
    requires Cur(x.e).live == Cur(w.e).live - {Rel(r)} && x.e.relRefs == w.e.relRefs - {r}
    requires Tally(x.e.st.events, x.entities, x.relations)
    ensures Expired(s, x, gone, dropped + {r}) && (KeysCounted(w.e) ==> KeysCounted(x.e))
  {
    hide Sound, Tally, Cur, Base;
  }

  lemma EdgeAbsent(s: Engine, w: SweepState, x: SweepState, r: RelationId, gone: set<EntityId>,
                   dropped: set<RelationId>)
    requires Expired(s, w, gone, dropped) && Sound(x.e) && x == w.(e := w.e.(relRefs := w.e.relRefs - {r}))
    requires Cur(x.e) == Cur(w.e) && Base(x.e) == Base(w.e) && Rel(r) !in Base(w.e).live && r in w.e.relRefs
    ensures Expired(s, x, gone, dropped + {r}) && (KeysCounted(w.e) ==> KeysCounted(x.e))
  {
    hide Sound, Tally, Cur, Base;
  }

  lemma {:induction false} ExpireRelationsSound(s: Engine, w: SweepState, now: Time, rids: seq<RelationId>,
                                                gone: set<EntityId>)
    requires Expired(s, w, gone, {}) && AllDistinct(rids)
    requires forall k :: 0 <= k < |rids| ==> rids[k] in w.e.relRefs
    ensures var x := ExpireRelations(w, rids, now);
            && Expired(s, x, gone, SetOf(rids))
            && (KeysCounted(w.e) ==> KeysCounted(x.e))
            && x.e.relRefs == w.e.relRefs - SetOf(rids)
            && x.e.refs == w.e.refs && x.e.pending == w.e.pending && x.e.waited == w.e.waited
  {
    hide Expired, KeysCounted, Sound, ExpireRelation;
    if rids == [] {
      assert SetOf(rids) == {};
      assert w.e.relRefs - SetOf(rids) == w.e.relRefs;
    } else {
      var n := |rids| - 1;
      ExpireRelationsSound(s, w, now, rids[..n], gone);
      var x := ExpireRelations(w, rids[..n], now);
      assert rids[n] !in rids[..n];
      ExpireRelationStep(s, x, rids[n], now, gone, SetOf(rids[..n]));
      SetOfSnoc(rids);
      assert w.e.relRefs - SetOf(rids) == w.e.relRefs - SetOf(rids[..n]) - {rids[n]};
    }
  }

  // ------------------------------------------------------------ the whole pass

  /** Every reference set is non-empty and holds only unlapsed references. */
  ghost predicate FreshRefs<K(!new)>(refs: map<K, Refs>, now: Time) {
    forall k :: k in refs ==> refs[k] != map[] && forall q :: q in refs[k] ==> !Lapsed(refs[k][q], now)
  }

  lemma DroppedOrphansFresh<K(!new)>(refs: map<K, Refs>, now: Time, order: seq<K>)
    requires Visits(order, Orphans(DropLapsed(refs, now)))
    ensures FreshRefs(DropLapsed(refs, now) - SetOf(order), now)
  {
    var d := DropLapsed(refs, now);
    forall k | k in d - SetOf(order)
      ensures d[k] != map[]
    {
      assert k !in Orphans(d);
    }
  }

  lemma VisitsDistinct<T(!new)>(order: seq<T>, s: set<T>)
    requires Visits(order, s)
    ensures AllDistinct(order) && forall k :: 0 <= k < |order| ==> order[k] in s
  {
  }

  /** Everything s held on k has lapsed by now. */
  predicate AllLapsed<K>(refs: map<K, Refs>, k: K, now: Time) {
    k in refs && Unlapsed(refs[k], now) == map[]
  }

  /** What a pass leaves of the live things: the entities not wholly lapsed, and the edges
      between such entities that are not wholly lapsed themselves. */
  ghost predicate SweptLive(s: Engine, before: View, after: View, now: Time) {
    && (forall x: EntityId :: Ent(x) in after <==> Ent(x) in before && !AllLapsed(s.refs, x, now))
    && (forall r :: Rel(r) in after <==>
          Rel(r) in before && Ent(r.src) in after && Ent(r.dst) in after && !AllLapsed(s.relRefs, r, now))
    && (forall t :: t in after ==> t in before && after[t] == before[t])
  }

  lemma SweepStagedSound(s: Engine, now: Time, ids: seq<EntityId>, rids: seq<RelationId>)
    requires Sound(s) && SweepOrders(s, now, ids, rids)
    ensures var w := SweepStaged(s, now, ids, rids);
            && Expired(s.(st := NO_STAGED), w, SetOf(ids), SetOf(rids))
            && FreshRefs(w.e.refs, now) && FreshRefs(w.e.relRefs, now)
            && w.e.refs == DropLapsed(s.refs, now) - SetOf(ids)
            && (KeysCounted(s.(st := NO_STAGED)) ==> KeysCounted(w.e))
            && w.e.pending == (if s.pending == [] then [] else UnexpiredPending(s.pending, now))
            && w.e.waited == (if s.pending == [] then s.waited else WaitedHashes(s.aliases, w.e.pending))
            && Dropped(s, now, w.e, SetOf(rids))
  {
    hide Expired, KeysCounted, Sound, FreshRefs, SetOf, DropLapsed, Orphans, ExpireEntity, Sheds, Dropped;
    VisitsDistinct(ids, Orphans(DropLapsed(s.refs, now)));
    OrphansAreKeys(DropLapsed(s.refs, now), ids);
    ExpireEntitiesSound(s, now, ids);
    var w1 := ExpireEntities(SweepStart(s, now), ids, now);
    MiddleExpired(s.(st := NO_STAGED), w1, now, SetOf(ids));
    var w2 := SweepMiddle(w1, now);
    VisitsDistinct(rids, Orphans(w2.e.relRefs));
    OrphansAreKeys(w2.e.relRefs, rids);
    ExpireRelationsSound(s.(st := NO_STAGED), w2, now, rids, SetOf(ids));
    DroppedOrphansFresh(s.refs, now, ids);
    DroppedOrphansFresh(w1.e.relRefs, now, rids);
    MiddlePending(s, w1, now, SetOf(ids));
    var w := SweepStaged(s, now, ids, rids);
    SweepSteps(s.(st := NO_STAGED), w1, w, SetOf(ids), SetOf(rids));
    DroppedAre(s, now, w1.e, w.e, rids, SetOf(ids));
  }

  /** Of the edges that stayed joined, the dropped ones are those wholly lapsed, and the
      others keep their unlapsed references. */
  ghost predicate Dropped(s: Engine, now: Time, t: Engine, dropped: set<RelationId>) {
    && (forall r :: r in dropped ==> AllLapsed(s.relRefs, r, now))
    && (forall r :: Rel(r) in Cur(t).live ==> !AllLapsed(s.relRefs, r, now))
    && (forall r :: Rel(r) in Base(s).live && Rel(r) !in Cur(t).live ==>
          r in dropped || Ent(r.src) !in Cur(t).live || Ent(r.dst) !in Cur(t).live)
    && (forall r :: r in s.relRefs && Rel(r) in Cur(t).live ==>
          r in t.relRefs && t.relRefs[r] == Unlapsed(s.relRefs[r], now))
    && (forall r :: r in t.relRefs ==> r in s.relRefs)
  }

  lemma DroppedAre(s: Engine, now: Time, u: Engine, t: Engine, rids: seq<RelationId>, gone: set<EntityId>)
    requires Sheds(s.(st := NO_STAGED), u) && Visits(rids, Orphans(DropLapsed(u.relRefs, now)))
    requires t.relRefs == DropLapsed(u.relRefs, now) - SetOf(rids) && SubView(Cur(t).live, Cur(u).live)
    requires EdgesLeft(t, gone, SetOf(rids)) && EntitiesLeft(t, gone) && Base(t) == Base(s)
    ensures Dropped(s, now, t, SetOf(rids))
  {
    hide Cur, Base;
  }

  lemma SweepSteps(s: Engine, u: SweepState, t: SweepState, gone: set<EntityId>, dropped: set<RelationId>)
    requires Expired(s, u, gone, {}) && Expired(s, t, gone, dropped)
    ensures SubView(Cur(t.e).live, Cur(u.e).live) && EdgesLeft(t.e, gone, dropped) && EntitiesLeft(t.e, gone)
    ensures Base(t.e) == Base(s)
  {
    hide Sound, Cur, Base;
    forall x | x in Cur(t.e).live
      ensures x in Cur(u.e).live
    {
      match x
      case Ent(id) =>
      case Rel(r) =>
    }
  }

  ghost predicate SubView(a: View, b: View) {
    forall t :: t in a ==> t in b
  }

  lemma MiddlePending(s: Engine, w: SweepState, now: Time, gone: set<EntityId>)
    requires Expired(s.(st := NO_STAGED), w, gone, {}) && w.e.pending == s.pending && w.e.waited == s.waited
    ensures SweepMiddle(w, now).e.pending == (if s.pending == [] then [] else UnexpiredPending(s.pending, now))
    ensures SweepMiddle(w, now).e.waited ==
            (if s.pending == [] then s.waited else WaitedHashes(s.aliases, SweepMiddle(w, now).e.pending))
  {
    hide Sound;
  }

  lemma OrphansAreKeys<K(!new)>(refs: map<K, Refs>, order: seq<K>)
    requires forall k :: 0 <= k < |order| ==> order[k] in Orphans(refs)
    ensures forall k :: 0 <= k < |order| ==> order[k] in refs
  {
  }

  /** Forgetting elapsed tombstones leaves the projection in step with the log. */
  lemma PruneSound(s: Engine, now: Time)
    requires Sound(s) && s.st == NO_STAGED
    ensures Sound(s.(g := P.PruneTombstones(s.g, now))) && Cur(s.(g := P.PruneTombstones(s.g, now))) == Cur(s)
  {
    var t := s.(g := P.PruneTombstones(s.g, now));
    P.PruneKeepsIndexes(s.g, now);
    assert P.Shows(t.g, Base(s).live);
    P.NamesShrink(s.g.entities, t.g.entities, Base(s).ident);
    assert Minted(t);
  }

  lemma SweepEndSound(s: Engine, lands: bool, now: Time)
    requires Sound(s)
    ensures var s1 := Flush(s, lands);
            var e := s1.(aliases := Aliases.Sweep(s1.aliases, now), g := P.PruneTombstones(s1.g, now));
            Sound(e) && Cur(e) == (if lands then Cur(s) else Base(s)) && e.st == NO_STAGED
  {
    hide Sound;
    FlushSound(s, lands);
    var s1 := Flush(s, lands);
    PruneSound(s1, now);
    var s2 := s1.(g := P.PruneTombstones(s1.g, now));
    SameCoreSound(s2, s2.(aliases := Aliases.Sweep(s2.aliases, now)));
  }

  /** A pass that lands leaves only fresh references, its counts are those of the events it
      appended -- deletes and removals and nothing else, none of a relation already gone --
      and it keeps edges joined. One that does not land changes no live thing. */
  lemma SweepExact(s: Engine, now: Time, ids: seq<EntityId>, rids: seq<RelationId>, lands: bool)
    requires Sound(s) && SweepOrders(s, now, ids, rids)
    ensures var w := ChangeEngine.Sweep(s, now, ids, rids, lands);
            var evs := SweepStaged(s, now, ids, rids).e.st.events;
            && Sound(w.e) && w.e.st == NO_STAGED
            && FreshRefs(w.e.refs, now) && FreshRefs(w.e.relRefs, now)
            && EmittedFrom(Base(s), evs)
            && w.e.log == (if lands then s.log + evs else s.log)
            && (lands ==> Tally(evs, w.entities, w.relations))
            && (!lands ==> w.entities == 0 && w.relations == 0 && Cur(w.e) == Base(s))
            && AllDistinct(Things(evs))
            && (Linked(Base(s).live) ==> Linked(Cur(w.e).live))
            && (lands && Linked(Base(s).live) ==> SweptLive(s, Base(s).live, Cur(w.e).live, now))
  {
    hide Tally, Linked, SweepStaged, Expired, Sound, Base, Cur, EmittedFrom, FreshRefs, AllDistinct, Things,
         SweptLive, Dropped, SweepOrders;
    SweepStagedSound(s, now, ids, rids);
    var w := SweepStaged(s, now, ids, rids);
    ExpiredSound(s.(st := NO_STAGED), w, SetOf(ids), SetOf(rids));
    SweepEndSound(w.e, lands, now);
    SweepLog(s, w, lands, SetOf(ids), SetOf(rids));
    if w.e.st.events == [] {
      TallyNothing(w.entities, w.relations);
    }
    if Linked(Base(s).live) {
      OrdersVisit(s, now, ids, rids);
      SweptLiveIs(s, now, w, ids, SetOf(rids));
    }
  }

  lemma OrdersVisit(s: Engine, now: Time, ids: seq<EntityId>, rids: seq<RelationId>)
    requires SweepOrders(s, now, ids, rids)
    ensures Visits(ids, Orphans(DropLapsed(s.refs, now)))
  {
  }

  function Things(evs: seq<Event>): seq<Thing> {
    seq(|evs|, i requires 0 <= i < |evs| => ThingOf(evs[i]))
  }

  ghost predicate OnlyDrops(evs: seq<Event>) {
    forall k :: 0 <= k < |evs| ==> EffectOf(evs[k]).Drop?
  }

  lemma {:induction false} TallyDrops(evs: seq<Event>, entities: nat, relations: nat)
    requires Tally(evs, entities, relations)
    ensures OnlyDrops(evs)
  {
    if evs != [] {
      var n := |evs| - 1;
      TallyBound(evs[..n]);
      TallyDrops(evs[..n], CountDeleted(evs[..n]), CountRemoved(evs[..n]));
      assert forall k :: 0 <= k < n ==> evs[..n][k] == evs[k];
    }
  }

  lemma {:induction false} TallyBound(evs: seq<Event>)
    ensures CountDeleted(evs) + CountRemoved(evs) <= |evs|
  {
    if evs != [] {
      TallyBound(evs[..|evs| - 1]);
    }
  }

  /** A log tail of nothing but drops, each of a live thing, drops no thing twice. */
  lemma {:induction false} DropsDistinct(h: History, evs: seq<Event>)
    requires EmittedFrom(h, evs) && OnlyDrops(evs)
    ensures AllDistinct(Things(evs))
    ensures forall k :: 0 <= k < |evs| ==> ThingOf(evs[k]) !in ReplayFrom(h, evs).live
  {
    if evs != [] {
      var n := |evs| - 1;
      assert forall k :: 0 <= k < n ==> evs[..n][k] == evs[k];
      DropsDistinct(h, evs[..n]);
      assert ThingOf(evs[n]) in ReplayFrom(h, evs[..n]).live;
      assert forall k :: 0 <= k < n ==> Things(evs)[k] == Things(evs[..n])[k];
    }
  }

  lemma SweepLog(s: Engine, w: SweepState, lands: bool, gone: set<EntityId>, dropped: set<RelationId>)
    requires Expired(s.(st := NO_STAGED), w, gone, dropped)
    ensures EmittedFrom(Base(s), w.e.st.events)
    ensures Flush(w.e, lands).log == if lands then s.log + w.e.st.events else s.log
    ensures Base(w.e) == Base(s) && (Linked(Base(s).live) ==> Linked(Cur(w.e).live))
    ensures AllDistinct(Things(w.e.st.events)) && Tally(w.e.st.events, w.entities, w.relations)
  {
    hide Things, EntitiesLeft, EdgesLeft, OnlyShrunk, EdgesTracked, Linked, Minted, Overlaid, Tally, OnlyDrops;
    assert s.log + [] == s.log;
    TallyDrops(w.e.st.events, w.entities, w.relations);
    DropsDistinct(Base(s), w.e.st.events);
  }

  lemma SweptLiveIs(s: Engine, now: Time, w: SweepState, ids: seq<EntityId>, dropped: set<RelationId>)
    requires Expired(s.(st := NO_STAGED), w, SetOf(ids), dropped) && Dropped(s, now, w.e, dropped)
    requires Visits(ids, Orphans(DropLapsed(s.refs, now))) && Linked(Base(s).live)
    ensures SweptLive(s, Base(s).live, Cur(w.e).live, now)
  {
    hide Sound, Cur, Base, Tally;
    BaseUnstaged(s);
    assert forall x: EntityId :: x in SetOf(ids) <==> AllLapsed(s.refs, x, now);
    assert Linked(Cur(w.e).live);
  }

  lemma BaseUnstaged(s: Engine)
    ensures Base(s.(st := NO_STAGED)) == Base(s)
  {
  }

  /** With nothing lost to failed appends, a landed pass keeps the count exact. */
  lemma SweepCounted(s: Engine, now: Time, ids: seq<EntityId>, rids: seq<RelationId>)
    requires Sound(s) && s.st == NO_STAGED && SweepOrders(s, now, ids, rids) && Counted(s)
    ensures Counted(ChangeEngine.Sweep(s, now, ids, rids, true).e)
  {
    hide Sound, Expired, SweepStaged, Cur, KeysCounted, FreshRefs, SweepOrders, Counted;
    SweepStagedSound(s, now, ids, rids);
    var w := SweepStaged(s, now, ids, rids);
    ExpiredSound(s.(st := NO_STAGED), w, SetOf(ids), SetOf(rids));
    SweepEndSound(w.e, true, now);
    CountedKeys(s);
    FreshKeysCounted(w.e, ChangeEngine.Sweep(s, now, ids, rids, true).e, now);
  }

  lemma CountedKeys(s: Engine)
    requires Counted(s)
    ensures KeysCounted(s)
  {
    hide Cur;
  }

  lemma FreshKeysCounted(s: Engine, t: Engine, now: Time)
    requires KeysCounted(s) && FreshRefs(s.refs, now) && FreshRefs(s.relRefs, now)
    requires Cur(t) == Cur(s) && t.refs == s.refs && t.relRefs == s.relRefs
    ensures Counted(t)
  {
    hide Cur;
  }

  lemma ExpiredSound(s: Engine, w: SweepState, gone: set<EntityId>, dropped: set<RelationId>)
    requires Expired(s, w, gone, dropped)
    ensures Sound(w.e)
  {
  }
}
