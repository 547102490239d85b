/** What the engine appends: events recorded at their operation's time, whose creates name
    tombstones or fresh ids only. So a log stays prunable, its owners stay anchored, and no
    id ever changes its identity. */
module EngineAppends {
  import opened Model
  import opened EventLog
  import opened Aliases
  import opened ChangeEngine
  import opened Overlay
  import opened EngineSteps
  import opened EngineSweep
  import P = Projection
  import R = Retention
  import SR = SnapshotRestore
  import SC = SnapshotCompaction

  // ------------------------------------------------------------ what an operation stages

  /** b is a with events appended, all recorded at now, the creates naming ids of minted. */
  ghost predicate Appended(a: seq<Event>, b: seq<Event>, now: Time, minted: iset<EntityId>) {
    && |a| <= |b| && b[..|a|] == a
    && forall k :: |a| <= k < |b| ==> b[k].recordedAt == now && (Creates(b[k]) ==> b[k].entity.id in minted)
  }

  predicate Creates(ev: Event) {
    ev.EntityEvent? && ev.change == Created
  }

  /** If the observation creates its entity, it is one of minted. */
  ghost predicate Mints(s: Engine, obs: EntityObs, now: Time, minted: iset<EntityId>) {
    Target(s, obs, now).1 == Created ==> Target(s, obs, now).0 in minted
  }

  lemma AppendedThen(a: seq<Event>, b: seq<Event>, c: seq<Event>, now: Time, minted: iset<EntityId>)
    requires Appended(a, b, now, minted) && Appended(b, c, now, minted)
    ensures Appended(a, c, now, minted)
  {
    assert c[..|a|] == b[..|a|];
    assert forall k :: |a| <= k < |b| ==> c[k] == b[k];
  }

  lemma CommitAppends(s: Engine, ev: Event, minted: iset<EntityId>)
    requires Creates(ev) ==> ev.entity.id in minted
    ensures Appended(s.st.events, Commit(s, ev).st.events, ev.recordedAt, minted)
  {
    StageAppends(s.st, ev);
  }

  lemma {:induction false} RemoveEdgesAppends(s: Engine, rids: seq<RelationId>, when: Time, now: Time,
                                              minted: iset<EntityId>)
    ensures Appended(s.st.events, RemoveEdges(s, rids, when, now).st.events, now, minted)
  {
    if rids != [] {
      var n := |rids| - 1;
      RemoveEdgesAppends(s, rids[..n], when, now, minted);
      var s1 := RemoveEdges(s, rids[..n], when, now);
      var ev := RemovedEvent(s1, rids[n], when, now);
      CommitAppends(s1, ev, minted);
      AppendedThen(s.st.events, s1.st.events, Commit(s1, ev).st.events, now, minted);
    }
  }

  lemma AssertEntityAppends(s: Engine, obs: EntityObs, now: Time, minted: iset<EntityId>)
    requires Mints(s, obs, now, minted)
    ensures Appended(s.st.events, AssertEntity(s, obs, now).st.events, now, minted)
  {
    var (id, ct, next) := Target(s, obs, now);
    CommitAppends(s.(nextId := next), EntityEventOf(ct, id, obs, now), minted);
  }

  lemma AssertRelationAppends(s: Engine, obs: RelationObs, src: EntityId, dst: EntityId, now: Time,
                              minted: iset<EntityId>)
    ensures Appended(s.st.events, AssertRelation(s, obs, src, dst, now).st.events, now, minted)
  {
    var rid := RelationId(obs.typ, src, dst);
    var s1 := s.(relRefs := s.relRefs[rid := Held(s.relRefs, rid)[Key(s, obs.producer) := EdgeRef(s, obs, src, now)]]);
    CommitAppends(s1, RelationEvent(Added, Relation(rid, obs.attrs), obs.eventTime, now), minted);
    CommitAppends(s1, RelationEvent(AttributeChanged, Relation(rid, obs.attrs), obs.eventTime, now), minted);
  }

  lemma RetryAppends(s: Engine, p: Pending, now: Time, minted: iset<EntityId>)
    ensures Appended(s.st.events, Retry(s, p, now).0.st.events, now, minted)
  {
    if now <= p.deadline && ResolveEnds(s, p.obs).Ends? {
      var e := ResolveEnds(s, p.obs);
      AssertRelationAppends(s.(st := s.st.(scope := p.scope)), p.obs, e.src, e.dst, now, minted);
    }
  }

  lemma {:induction false} RetryAllAppends(s: Engine, ps: seq<Pending>, now: Time, minted: iset<EntityId>)
    ensures Appended(s.st.events, RetryAll(s, ps, now).0.st.events, now, minted)
  {
    if ps != [] {
      var n := |ps| - 1;
      RetryAllAppends(s, ps[..n], now, minted);
      var s1 := RetryAll(s, ps[..n], now).0;
      RetryAppends(s1, ps[n], now, minted);
      AppendedThen(s.st.events, s1.st.events, Retry(s1, ps[n], now).0.st.events, now, minted);
    }
  }

  lemma FlushPendingAppends(s: Engine, now: Time, minted: iset<EntityId>)
    ensures Appended(s.st.events, FlushPending(s, now).st.events, now, minted)
  {
    RetryAllAppends(s, s.pending, now, minted);
  }

  lemma ObserveEntityAppends(s: Engine, obs: EntityObs, now: Time, minted: iset<EntityId>)
    requires Mints(s, obs, now, minted)
    ensures Appended(s.st.events, ObserveEntityOp(s, obs, now).st.events, now, minted)
  {
    hide AssertEntity, FlushPending;
    AssertEntityAppends(s, obs, now, minted);
    var s1 := AssertEntity(s, obs, now);
    FlushPendingAppends(s1, now, minted);
    AppendedThen(s.st.events, s1.st.events, FlushPending(s1, now).st.events, now, minted);
  }

  lemma DeleteEntityAppends(s: Engine, obs: EntityObs, now: Time, minted: iset<EntityId>)
    ensures Appended(s.st.events, DeleteEntityOp(s, obs, now).st.events, now, minted)
  {
    match MatchIdentity(s, obs.ident)
    case None =>
    case Some(id) =>
      var s0 := s.(refs := s.refs - {id});
      var s1 := Commit(s0, EntityEventOf(Deleted, id, obs, now));
      CommitAppends(s0, EntityEventOf(Deleted, id, obs, now), minted);
      RemoveEdgesAppends(s1, ListRelationsTouching(s1, id), obs.eventTime, now, minted);
      AppendedThen(s.st.events, s1.st.events, Cascade(s1, id, obs.eventTime, now).st.events, now, minted);
  }

  lemma RecordAliasAppends(s: Engine, obs: RelationObs, now: Time, minted: iset<EntityId>)
    ensures Appended(s.st.events, RecordAlias(s, obs, now).st.events, now, minted)
  {
    hide FlushPending;
    match (ClaimOf(obs), AliasDeadline(obs, now))
    case (Some(claim), Some(d)) =>
      var s1 := s.(aliases := Record(s.aliases, claim, Key(s, obs.producer), Ref(d, 0)));
      FlushPendingAppends(SetPending(s1, s1.pending), now, minted);
    case _ =>
  }

  lemma ObserveRelationAppends(s: Engine, obs: RelationObs, now: Time, minted: iset<EntityId>)
    ensures Appended(s.st.events, ObserveRelationOp(s, obs, now).st.events, now, minted)
  {
    hide RecordAlias, AssertRelation, ResolveEnds;
    RecordAliasAppends(s, obs, now, minted);
    var s1 := if obs.typ == SAME_AS then RecordAlias(s, obs, now) else s;
    match ResolveEnds(s1, obs)
    case Ends(src, dst) =>
      AssertRelationAppends(s1, obs, src, dst, now, minted);
      AppendedThen(s.st.events, s1.st.events, AssertRelation(s1, obs, src, dst, now).st.events, now, minted);
    case _ =>
  }

  lemma RemoveRelationAppends(s: Engine, obs: RelationObs, now: Time, minted: iset<EntityId>)
    ensures Appended(s.st.events, RemoveRelationOp(s, obs, now).st.events, now, minted)
  {
    match ResolveEnds(s, obs)
    case Ends(src, dst) =>
      var rid := RelationId(obs.typ, src, dst);
      CommitAppends(s.(relRefs := s.relRefs - {rid}), RemovedEvent(s, rid, obs.eventTime, now), minted);
    case _ =>
  }

  /** Every operation stages only events recorded at its own time, after those before. */
  lemma StepAppends(s: Engine, op: Op, now: Time, minted: iset<EntityId>)
    requires op.ObserveEntity? ==> Mints(s, op.entity, now, minted)
    ensures Appended(s.st.events, Step(s, op, now).st.events, now, minted)
  {
    match op
    case SetScope(scope) =>
    case ObserveEntity(obs) => ObserveEntityAppends(s, obs, now, minted);
    case DeleteEntity(obs) => DeleteEntityAppends(s, obs, now, minted);
    case ObserveRelation(obs) => ObserveRelationAppends(s, obs, now, minted);
    case RemoveRelation(obs) => RemoveRelationAppends(s, obs, now, minted);
  }

  lemma ExpireEntityAppends(w: SweepState, id: EntityId, now: Time, minted: iset<EntityId>)
    ensures Appended(w.e.st.events, ExpireEntity(w, id, now).e.st.events, now, minted)
  {
    var s := w.e.(refs := w.e.refs - {id});
    if id in s.g.entities && id !in s.g.deleted {
      var ev := EntityEvent(Deleted, s.g.entities[id], now, now);
      CommitAppends(s, ev, minted);
      var s1 := Commit(s, ev);
      RemoveEdgesAppends(s1, ListRelationsTouching(s1, id), now, now, minted);
      AppendedThen(s.st.events, s1.st.events, Cascade(s1, id, now, now).st.events, now, minted);
    }
  }

  lemma {:induction false} ExpireEntitiesAppends(w: SweepState, ids: seq<EntityId>, now: Time, minted: iset<EntityId>)
    ensures Appended(w.e.st.events, ExpireEntities(w, ids, now).e.st.events, now, minted)
  {
    if ids != [] {
      var n := |ids| - 1;
      ExpireEntitiesAppends(w, ids[..n], now, minted);
      var w1 := ExpireEntities(w, ids[..n], now);
      ExpireEntityAppends(w1, ids[n], now, minted);
      AppendedThen(w.e.st.events, w1.e.st.events, ExpireEntity(w1, ids[n], now).e.st.events, now, minted);
    }
  }

  lemma {:induction false} ExpireRelationsAppends(w: SweepState, rids: seq<RelationId>, now: Time,
                                                  minted: iset<EntityId>)
    ensures Appended(w.e.st.events, ExpireRelations(w, rids, now).e.st.events, now, minted)
  {
    if rids != [] {
      var n := |rids| - 1;
      ExpireRelationsAppends(w, rids[..n], now, minted);
      var w1 := ExpireRelations(w, rids[..n], now);
      var s := w1.e.(relRefs := w1.e.relRefs - {rids[n]});
      if rids[n] in s.g.relations {
        var ev := RelationEvent(Removed, s.g.relations[rids[n]], now, now);
        CommitAppends(s, ev, minted);
        AppendedThen(w.e.st.events, w1.e.st.events, Commit(s, ev).st.events, now, minted);
      }
    }
  }

  lemma SweepAppends(s: Engine, now: Time, ids: seq<EntityId>, rids: seq<RelationId>, minted: iset<EntityId>)
    ensures Appended([], SweepStaged(s, now, ids, rids).e.st.events, now, minted)
  {
    hide ExpireEntities, ExpireRelations;
    var w0 := SweepStart(s, now);
    ExpireEntitiesAppends(w0, ids, now, minted);
    var w1 := ExpireEntities(w0, ids, now);
    var w2 := SweepMiddle(w1, now);
    ExpireRelationsAppends(w2, rids, now, minted);
    AppendedThen([], w2.e.st.events, ExpireRelations(w2, rids, now).e.st.events, now, minted);
  }

  // ------------------------------------------------------------ the clock

  /** A log recorded by now that any later prune can prune and any restart can rely on. */
  ghost predicate Timely(log: seq<Event>, now: Time) {
    && R.Settled(log) && SC.Secured(log)
    && forall k :: 0 <= k < |log| ==> log[k].recordedAt <= now
  }

  lemma TimelyLater(log: seq<Event>, was: Time, now: Time)
    requires Timely(log, was) && was <= now
    ensures Timely(log, now)
  {
  }

  lemma AppendOne(log: seq<Event>, ev: Event, was: Time, now: Time)
    requires Timely(log, was) && was <= now && ev.recordedAt == now && AllowedLog(log) && Emitted(Replay(log), ev)
    ensures Timely(log + [ev], now)
  {
    hide R.Settled, SC.Secured, AllowedFrom, Emitted;
    R.LaterAppendSettled(log, ev);
    CoherentReplay(EMPTY, log);
    SC.SecuredAppend(log, ev);
  }

  lemma {:induction false} AppendTimely(log: seq<Event>, evs: seq<Event>, was: Time, now: Time)
    requires Timely(log, was) && was <= now && AllowedLog(log) && EmittedFrom(Replay(log), evs)
    requires forall k :: 0 <= k < |evs| ==> evs[k].recordedAt == now
    ensures Timely(log + evs, now)
  {
    hide Timely, Emitted, AllowedLog;
    TimelyLater(log, was, now);
    if evs == [] {
      assert log + evs == log;
    } else {
      var n := |evs| - 1;
      AppendTimely(log, evs[..n], was, now);
      assert log + evs == log + evs[..n] + [evs[n]];
      SR.EngineTail(log, evs[..n]);
      AppendOne(log + evs[..n], evs[n], now, now);
    }
  }

  lemma AppendedTimely(log: seq<Event>, a: seq<Event>, b: seq<Event>, was: Time, now: Time, minted: iset<EntityId>)
    requires Timely(log + a, was) && was <= now && Appended(a, b, now, minted)
    requires AllowedLog(log) && EmittedFrom(Replay(log), b)
    ensures Timely(log + b, now)
  {
    hide Timely, EmittedFrom, AllowedLog;
    assert b == a + b[|a|..];
    EmittedConcat(Replay(log), a, b[|a|..]);
    SR.EngineTail(log, a);
    AppendTimely(log + a, b[|a|..], was, now);
    assert log + a + b[|a|..] == log + b;
  }

  /** The time the last operation of a batch runs at. */
  function Clock(was: Time, ops: seq<Timed>): Time {
    if ops == [] then was else ops[|ops| - 1].now
  }

  /** The clock does not run backwards. */
  predicate Forward(was: Time, ops: seq<Timed>) {
    ops != [] ==>
      && Forward(was, ops[..|ops| - 1])
      && Clock(was, ops[..|ops| - 1]) <= ops[|ops| - 1].now
  }

  /** The ids a batch may create: what the projection remembers, and fresh ones. */
  ghost function Mintable(s: Engine): iset<EntityId> {
    iset id: EntityId | id in s.g.entities || s.nextId <= id
  }

  lemma TargetMints(s: Engine, obs: EntityObs, now: Time)
    requires Sound(s)
    ensures Mints(s, obs, now, Mintable(s))
  {
    hide Sound, Classify, MatchTombstone, MatchIdentity;
    match MatchIdentity(s, obs.ident)
    case Some(id) =>
      var before := match GetEntity(s, id).0 case Some(e) => e.attrs case None => map[];
      ClassifyExact(before, obs.attrs);
    case None =>
      if MatchTombstone(s, obs.ident, now).Some? {
        TombstoneIsDead(s, obs.ident, now);
      }
  }

  ghost predicate CreatesOnly(evs: seq<Event>, minted: iset<EntityId>) {
    forall k :: 0 <= k < |evs| && Creates(evs[k]) ==> evs[k].entity.id in minted
  }

  lemma StepMints(s: Engine, s1: Engine, op: Op, now: Time)
    requires Sound(s1) && s1.g == s.g && s.nextId <= s1.nextId
    ensures op.ObserveEntity? ==> Mints(s1, op.entity, now, Mintable(s))
  {
    hide Sound, Target;
    if op.ObserveEntity? {
      TargetMints(s1, op.entity, now);
    }
  }

  /** Over a whole batch: the log stays timely, and only mintable ids are created. */
  lemma {:induction false} StepsTimely(s: Engine, ops: seq<Timed>, was: Time)
    requires Timely(s.log, was) && Forward(was, ops) && Sound(s) && s.st == NO_STAGED
    ensures Timely(s.log + Steps(s, ops).st.events, Clock(was, ops)) && was <= Clock(was, ops)
    ensures CreatesOnly(Steps(s, ops).st.events, Mintable(s))
  {
    hide Sound, Timely, Step, Mintable, Mints, AllowedLog, EmittedFrom, Linked, Counted;
    if ops == [] {
      assert s.log + [] == s.log;
    } else {
      var n := |ops| - 1;
      StepsTimely(s, ops[..n], was);
      var s1, t := Steps(s, ops[..n]), Steps(s, ops);
      StepsKeep(s, ops[..n]);
      StepKeeps(s1, ops[n].op, ops[n].now);
      StepMints(s, s1, ops[n].op, ops[n].now);
      StepAppends(s1, ops[n].op, ops[n].now, Mintable(s));
      SoundEmits(t);
      AppendedTimely(s.log, s1.st.events, t.st.events, Clock(was, ops[..n]), ops[n].now, Mintable(s));
      CreatesMore(s1.st.events, t.st.events, ops[n].now, Mintable(s));
    }
  }

  lemma CreatesMore(a: seq<Event>, b: seq<Event>, now: Time, minted: iset<EntityId>)
    requires CreatesOnly(a, minted) && Appended(a, b, now, minted)
    ensures CreatesOnly(b, minted)
  {
    assert forall k :: 0 <= k < |a| ==> b[k] == a[k];
  }

  lemma SoundEmits(s: Engine)
    requires Sound(s)
    ensures AllowedLog(s.log) && EmittedFrom(Base(s), s.st.events) && Coherent(Base(s))
    ensures forall k :: 0 <= k < |s.st.events| ==> P.KeepsName(s.g, s.st.events[k])
  {
  }

  // ------------------------------------------------------------ names

  /** The two agree on every id both know. */
  ghost predicate Agree(a: map<EntityId, Identity>, b: map<EntityId, Identity>) {
    forall id :: id in a && id in b ==> a[id] == b[id]
  }

  /** names are those of a projection, and all minted before next. */
  ghost predicate NamesOf(g: P.Graph, names: map<EntityId, Identity>, next: EntityId) {
    SR.NamedBy(g, names) && forall id :: id in names ==> id < next
  }

  lemma NameStep(h: History, ev: Event, g: P.Graph, names: map<EntityId, Identity>, next: EntityId)
    requires Coherent(h) && Emitted(h, ev) && Agree(names, h.ident) && NamesOf(g, names, next) && P.KeepsName(g, ev)
    requires Creates(ev) ==> ev.entity.id in g.entities || next <= ev.entity.id
    ensures Agree(names, NextIdent(h.ident, ev))
  {
  }

  /** No event the engine emits gives an id it ever used another identity. */
  lemma {:induction false} NamesAgree(h: History, evs: seq<Event>, s: Engine, names: map<EntityId, Identity>)
    requires Coherent(h) && EmittedFrom(h, evs) && Agree(names, h.ident) && NamesOf(s.g, names, s.nextId)
    requires CreatesOnly(evs, Mintable(s)) && forall k :: 0 <= k < |evs| ==> P.KeepsName(s.g, evs[k])
    ensures Agree(names, ReplayFrom(h, evs).ident)
  {
    if evs != [] {
      hide Emitted, Coherent, Agree, NamesOf;
      var n := |evs| - 1;
      assert forall k :: 0 <= k < n ==> evs[..n][k] == evs[k];
      NamesAgree(h, evs[..n], s, names);
      EmittedIsAllowed(h, evs[..n]);
      CoherentReplay(h, evs[..n]);
      NameStep(ReplayFrom(h, evs[..n]), evs[n], s.g, names, s.nextId);
    }
  }
}
