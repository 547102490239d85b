/** What observations leave: the state of what was observed, the events that report it, and,
    over whole runs, that the last observation of an identity decides what it is. */
module ObservedState {
  import opened Model
  import opened EventLog
  import opened Aliases
  import opened SpeakerKeys
  import opened ChangeEngine
  import opened Overlay
  import opened EngineSteps
  import opened EngineSweep
  import opened EngineAppends
  import opened EngineRuns
  import opened Survival
  import opened EngineMeaning
  import P = Projection
  import RelationOrder

  // ------------------------------------------------------------ one observation

  /** The event says of entity id what was observed, when it happened and when it was recorded;
      it is a creation exactly when id was not live, a heartbeat exactly when nothing moved,
      and a state change exactly when a state key did. */
  ghost predicate Reports(live: View, id: EntityId, obs: EntityObs, now: Time, ev: Event) {
    && ev.EntityEvent? && ev.entity == Entity(id, obs.ident, obs.attrs, obs.schema)
    && ev.eventTime == obs.eventTime && ev.recordedAt == now && ev.change != Deleted
    && (ev.change == Created <==> Ent(id) !in live)
    && (Ent(id) in live ==> live[Ent(id)].EntCore?)
    && (Ent(id) in live ==> (ev.change == Unchanged <==> live[Ent(id)].attrs == obs.attrs))
    && (Ent(id) in live ==>
          (ev.change == StateChanged <==>
            exists k :: k in STATE_KEYS && EngineMeaning.Moved(live[Ent(id)].attrs, obs.attrs, k)))
  }

  /** Every entity but id is as it was. */
  ghost predicate OthersAsBefore(a: View, b: View, id: EntityId) {
    forall x: EntityId :: x != id ==>
      (Ent(x) in a <==> Ent(x) in b) && (Ent(x) in a && Ent(x) in b ==> a[Ent(x)] == b[Ent(x)])
  }

  /** Entity id is what was observed, every other entity is as before, the speaker references
      it for as long as it promised, and the first event staged reports exactly that. */
  ghost predicate ObservedAs(s: Engine, t: Engine, obs: EntityObs, now: Time, id: EntityId) {
    var n := |s.st.events|;
    && Ent(id) in Cur(t).live && Cur(t).live[Ent(id)] == EntCore(obs.ident, obs.attrs)
    && OthersAsBefore(Cur(s).live, Cur(t).live, id)
    && t.refs == s.refs[id := Held(s.refs, id)[KeyOf(Speaker(obs.producer, s.st.scope)) := Pledge(obs.interval, now)]]
    && Holds(t, id, obs.ident, Speaker(obs.producer, s.st.scope), Exactly(Promised(obs.interval, now)))
    && n < |t.st.events| && t.st.events[..n] == s.st.events
    && Reports(Cur(s).live, id, obs, now, t.st.events[n])
  }

  /** The reference an interval is worth: kept with it, if it is believed. */
  ghost function Pledge(interval: int, now: Time): Ref {
    if 0 < interval <= WEEK then Ref(By(now + interval), interval) else Ref(Never, 0)
  }

  lemma ReportsChange(s: Engine, obs: EntityObs, now: Time)
    requires Sound(s)
    ensures var (id, ct, next) := Target(s, obs, now);
            Reports(Cur(s).live, id, obs, now, EntityEventOf(ct, id, obs, now))
  {
    hide Sound, GetEntity, MatchTombstone, Classify;
    TargetEmits(s, obs, now);
    MatchIsOwner(s, obs.ident);
    match MatchIdentity(s, obs.ident)
    case Some(id) =>
      GetEntityIsLive(s, id);
      var before := GetEntity(s, id).0.value.attrs;
      ClassificationExact(before, obs.attrs);
      ClassifyExact(before, obs.attrs);
    case None =>
  }

  /** After an observation, whatever parked edges it woke. */
  lemma ObservationDecides(s: Engine, obs: EntityObs, now: Time) returns (id: EntityId)
    requires Sound(s)
    ensures ObservedAs(s, ObserveEntityOp(s, obs, now), obs, now, id)
  {
    hide Sound, Cur, Target, ObserveEntityOp, Reports, OthersAsBefore;
    id := Target(s, obs, now).0;
    ObservedLive(s, obs, now);
    var x := AssertionHolds(s, obs, now);
    ObserveEntityKeeps(s, obs, now);
    SoundOneOwner(ObserveEntityOp(s, obs, now), id, x, obs.ident);
    ReportsChange(s, obs, now);
    StagedReport(s, obs, now);
  }

  lemma ObservedLive(s: Engine, obs: EntityObs, now: Time)
    requires Sound(s)
    ensures var id, live := Target(s, obs, now).0, Cur(ObserveEntityOp(s, obs, now)).live;
            && Ent(id) in live && live[Ent(id)] == EntCore(obs.ident, obs.attrs)
            && OthersAsBefore(Cur(s).live, live, id)
            && ObserveEntityOp(s, obs, now).refs ==
               s.refs[id := Held(s.refs, id)[KeyOf(Speaker(obs.producer, s.st.scope)) := Pledge(obs.interval, now)]]
  {
    hide Sound, Cur, Target, FlushPending, Linked, Counted, Picked;
    AssertEntitySound(s, obs, now);
    FlushPendingKeeps(AssertEntity(s, obs, now), now);
  }

  lemma StagedReport(s: Engine, obs: EntityObs, now: Time)
    ensures var (id, ct, next) := Target(s, obs, now);
            var t, n := ObserveEntityOp(s, obs, now), |s.st.events|;
            n < |t.st.events| && t.st.events[..n] == s.st.events && t.st.events[n] == EntityEventOf(ct, id, obs, now)
  {
    hide Target, FlushPending, EntityEventOf;
    var (id, ct, next) := Target(s, obs, now);
    var s1 := AssertEntity(s, obs, now);
    StageAppends(s.st, EntityEventOf(ct, id, obs, now));
    FlushPendingAppends(s1, now, iset{});
    var t := ObserveEntityOp(s, obs, now);
    assert t.st.events[..|s1.st.events|] == s1.st.events;
    assert t.st.events[..|s.st.events|] == t.st.events[..|s1.st.events|][..|s.st.events|];
  }

  // ------------------------------------------------------------ expiries

  /** The event ends a thing, as it was projected, at the time it is recorded. */
  ghost predicate EndsAt(g: P.Graph, ev: Event, now: Time) {
    && ev.eventTime == now && ev.recordedAt == now
    && match ev
       case EntityEvent(ct, e, _, _) => ct == Deleted && exists id :: id in g.entities && g.entities[id] == e
       case RelationEvent(ct, r, _, _) => ct == Removed && (r.id in g.relations ==> g.relations[r.id] == r)
  }

  /** b is a, and then only events that end something now. */
  ghost predicate OnlyEnds(g: P.Graph, a: seq<Event>, b: seq<Event>, now: Time) {
    |a| <= |b| && b[..|a|] == a && forall k :: |a| <= k < |b| ==> EndsAt(g, b[k], now)
  }

  /** So far the pass has staged nothing else, and the projection is keyed. */
  ghost predicate Ending(g: P.Graph, s: Engine, now: Time) {
    s.g == g && s.st.relations == map[] && P.Keyed(g.entities, g.relations) && OnlyEnds(g, [], s.st.events, now)
  }

  lemma EndOne(g: P.Graph, s: Engine, ev: Event, now: Time)
    requires Ending(g, s, now) && EndsAt(g, ev, now)
    ensures Ending(g, Commit(s, ev), now)
  {
    hide EndsAt;
    StageAppends(s.st, ev);
    assert ev.EntityEvent? ==> ev.change == Deleted by {
      EndsKind(g, ev, now);
    }
    EndsKind(g, ev, now);
  }

  lemma EndsKind(g: P.Graph, ev: Event, now: Time)
    requires EndsAt(g, ev, now)
    ensures if ev.EntityEvent? then ev.change == Deleted else ev.relChange == Removed
  {
  }

  lemma {:induction false} RemoveEdgesEnds(g: P.Graph, s: Engine, rids: seq<RelationId>, now: Time)
    requires Ending(g, s, now) && AllDistinct(rids) && forall k :: 0 <= k < |rids| ==> rids[k] !in s.st.removed
    ensures Ending(g, RemoveEdges(s, rids, now, now), now)
    ensures RemoveEdges(s, rids, now, now).st.removed == s.st.removed + SetOf(rids)
  {
    hide OnlyEnds;
    if rids != [] {
      var n := |rids| - 1;
      RemoveEdgesEnds(g, s, rids[..n], now);
      var s1 := RemoveEdges(s, rids[..n], now, now);
      assert rids == rids[..n] + [rids[n]];
      assert rids[n] !in s1.st.removed;
      var ev := RemovedEvent(s1, rids[n], now, now);
      KeyedRemoval(g, s1, rids[n], now);
      EndOne(g, s1, ev, now);
    }
  }

  lemma KeyedRemoval(g: P.Graph, s: Engine, rid: RelationId, now: Time)
    requires Ending(g, s, now) && rid !in s.st.removed
    ensures EndsAt(g, RemovedEvent(s, rid, now, now), now) && RemovedEvent(s, rid, now, now).relation.id == rid
  {
    hide OnlyEnds;
  }

  lemma TouchingUnremoved(g: P.Graph, s: Engine, id: EntityId, now: Time)
    requires Ending(g, s, now)
    ensures var rids := ListRelationsTouching(s, id);
            AllDistinct(rids) && forall k :: 0 <= k < |rids| ==> rids[k] !in s.st.removed
  {
    hide OnlyEnds;
    RelationOrder.SortedInOrder(TouchingSet(s, id));
    var rids := ListRelationsTouching(s, id);
    assert forall k :: 0 <= k < |rids| ==> rids[k] in rids;
  }

  lemma {:induction false} ExpireEntitiesEnds(g: P.Graph, w: SweepState, ids: seq<EntityId>, now: Time)
    requires Ending(g, w.e, now)
    ensures Ending(g, ExpireEntities(w, ids, now).e, now)
  {
    hide OnlyEnds, RemoveEdges, ListRelationsTouching, Stage;
    if ids != [] {
      var n := |ids| - 1;
      ExpireEntitiesEnds(g, w, ids[..n], now);
      var w1 := ExpireEntities(w, ids[..n], now);
      var s := w1.e.(refs := w1.e.refs - {ids[n]});
      if ids[n] in s.g.entities && ids[n] !in s.g.deleted {
        var ev := EntityEvent(Deleted, s.g.entities[ids[n]], now, now);
        EndOne(g, s, ev, now);
        TouchingUnremoved(g, Commit(s, ev), ids[n], now);
        RemoveEdgesEnds(g, Commit(s, ev), ListRelationsTouching(Commit(s, ev), ids[n]), now);
      }
    }
  }

  lemma {:induction false} ExpireRelationsEnds(g: P.Graph, w: SweepState, rids: seq<RelationId>, now: Time)
    requires Ending(g, w.e, now)
    ensures Ending(g, ExpireRelations(w, rids, now).e, now)
  {
    hide OnlyEnds, Stage;
    if rids != [] {
      var n := |rids| - 1;
      ExpireRelationsEnds(g, w, rids[..n], now);
      var w1 := ExpireRelations(w, rids[..n], now);
      var s := w1.e.(relRefs := w1.e.relRefs - {rids[n]});
      if rids[n] in s.g.relations {
        EndOne(g, s, RelationEvent(Removed, s.g.relations[rids[n]], now, now), now);
      }
    }
  }

  /** What a sweep appends to the log: only the ends of things, at its own time. */
  lemma SweepReports(s: Engine, now: Time, ids: seq<EntityId>, rids: seq<RelationId>, lands: bool)
    requires Sound(s) && SweepOrders(s, now, ids, rids)
    ensures OnlyEnds(s.g, s.log, ChangeEngine.Sweep(s, now, ids, rids, lands).e.log, now)
  {
    assert P.Keyed(s.g.entities, s.g.relations);
    hide ExpireEntities, ExpireRelations, OnlyEnds, P.Keyed, Sound, Linked, Cur, Base, Things, SweepOrders, Tally,
         FreshRefs, AllDistinct, EmittedFrom, SweptLive;
    var w0 := SweepStart(s, now);
    assert OnlyEnds(s.g, [], w0.e.st.events, now) by {
      EndsAppended(s.g, [], [], now);
    }
    ExpireEntitiesEnds(s.g, w0, ids, now);
    var w1 := ExpireEntities(w0, ids, now);
    ExpireRelationsEnds(s.g, SweepMiddle(w1, now), rids, now);
    SweepExact(s, now, ids, rids, lands);
    EndsAppended(s.g, s.log, SweepStaged(s, now, ids, rids).e.st.events, now);
  }

  lemma EndsAppended(g: P.Graph, log: seq<Event>, evs: seq<Event>, now: Time)
    requires OnlyEnds(g, [], evs, now)
    ensures OnlyEnds(g, log, log + evs, now) && OnlyEnds(g, log, log, now)
  {
    hide EndsAt;
  }

  // ------------------------------------------------------------ the last word

  /** What the operations last say an identity's attributes are. */
  function LastSaid(ops: seq<Timed>, ident: Identity): Option<Attrs> {
    if ops == [] then None
    else
      var n := |ops| - 1;
      match ops[n].op
      case ObserveEntity(obs) => if obs.ident == ident then Some(obs.attrs) else LastSaid(ops[..n], ident)
      case _ => LastSaid(ops[..n], ident)
  }

  /** If id has the identity afterwards, its state is the one said or, if none was, the one
      it had, under that identity, before. */
  ghost predicate AsSaid(before: View, after: View, said: Option<Attrs>, id: EntityId, ident: Identity) {
    Owns(after, id, ident) ==>
      match said
      case Some(attrs) => after[Ent(id)] == EntCore(ident, attrs)
      case None => Ent(id) in before && after[Ent(id)] == before[Ent(id)]
  }

  lemma StepAsSaid(s: Engine, op: Op, now: Time, id: EntityId, ident: Identity)
    requires Sound(s)
    ensures AsSaid(Cur(s).live, Cur(Step(s, op, now)).live,
                   if op.ObserveEntity? && op.entity.ident == ident then Some(op.entity.attrs) else None, id, ident)
  {
    hide Sound, ObserveEntityOp, DeleteEntityOp, ObserveRelationOp, RemoveRelationOp, Cur, Reports, Holds;
    match op
    case SetScope(scope) => SameCoreSound(s, s.(st := s.st.(scope := scope)));
    case ObserveEntity(obs) =>
      var x := ObservationDecides(s, obs, now);
      ObserveEntityKeeps(s, obs, now);
      if obs.ident == ident && Owns(Cur(Step(s, op, now)).live, id, ident) {
        SoundOneOwner(Step(s, op, now), id, x, ident);
      }
    case DeleteEntity(obs) => DeleteKeepsCores(s, obs, now, id);
    case ObserveRelation(obs) => ObserveRelationAlone(s, obs, now);
    case RemoveRelation(obs) => RemoveRelationAlone(s, obs, now);
  }

  lemma SoundOneOwner(s: Engine, a: EntityId, b: EntityId, ident: Identity)
    requires Sound(s) && Owns(Cur(s).live, a, ident) && Owns(Cur(s).live, b, ident)
    ensures a == b
  {
    OneOwner(s, ident);
  }

  lemma DeleteKeepsCores(s: Engine, obs: EntityObs, now: Time, id: EntityId)
    requires Sound(s)
    ensures Ent(id) in Cur(DeleteEntityOp(s, obs, now)).live ==>
              Ent(id) in Cur(s).live && Cur(DeleteEntityOp(s, obs, now)).live[Ent(id)] == Cur(s).live[Ent(id)]
  {
    hide Sound, Cascade, Commit, Cur;
    MatchIsOwner(s, obs.ident);
    match MatchIdentity(s, obs.ident)
    case None =>
    case Some(x) =>
      var left := Held(s.refs, x) - {Key(s, obs.producer)};
      SameCoreSound(s, s.(refs := s.refs[x := left]));
      var s0 := s.(refs := s.refs - {x});
      SameCoreSound(s, s0);
      KillSound(s0, x, Entity(x, obs.ident, obs.attrs, obs.schema), obs.eventTime, now);
  }

  lemma {:induction false} StepsAsSaid(s: Engine, ops: seq<Timed>, id: EntityId, ident: Identity)
    requires Sound(s)
    ensures AsSaid(Cur(s).live, Cur(Steps(s, ops)).live, LastSaid(ops, ident), id, ident)
  {
    hide Sound, Step, Cur;
    if ops != [] {
      var n := |ops| - 1;
      StepsAsSaid(s, ops[..n], id, ident);
      StepsKeep(s, ops[..n]);
      StepAsSaid(Steps(s, ops[..n]), ops[n].op, ops[n].now, id, ident);
    }
  }

  /** A batch that lands leaves every identity as the batch last said, and what it does not
      speak of as it was; one that does not land leaves every one as it was. */
  lemma BatchAsSaid(s: Engine, ops: seq<Timed>, lands: bool, id: EntityId, ident: Identity)
    requires Sound(s) && s.st == NO_STAGED
    ensures AsSaid(Base(s).live, Base(Batch(s, ops, lands)).live, if lands then LastSaid(ops, ident)
      else None, id, ident)
  {
    hide Sound, Steps, Linked, Counted, AsSaid, LastSaid;
    assert s.(st := NO_STAGED) == s;
    StepsAsSaid(s, ops, id, ident);
    StepsKeep(s, ops);
    FlushSound(Steps(s, ops), lands);
    UnstagedCur(s);
    UnstagedCur(Batch(s, ops, lands));
    if !lands {
      AsBefore(Base(s).live, id, ident);
    }
  }

  lemma AsBefore(live: View, id: EntityId, ident: Identity)
    ensures AsSaid(live, live, None, id, ident)
  {
  }

  // ------------------------------------------------------------ over runs

  /** What the landed batches of a run last say an identity's attributes are. */
  function LastLanded(acts: seq<Act>, ident: Identity): Option<Attrs> {
    if acts == [] then None
    else
      var n := |acts| - 1;
      match acts[n]
      case DoBatch(ops, true) =>
        if LastSaid(ops, ident).Some? then LastSaid(ops, ident) else LastLanded(acts[..n], ident)
      case _ => LastLanded(acts[..n], ident)
  }

  ghost function SaidBy(a: Act, ident: Identity): Option<Attrs> {
    match a
    case DoBatch(ops, lands) => if lands then LastSaid(ops, ident) else None
    case _ => None
  }

  lemma ActAsSaid(w: World, a: Act, id: EntityId, ident: Identity)
    requires Good(w) && Legal(w, a)
    ensures AsSaid(Base(w.e).live, Base(Acted(w, a).e).live, SaidBy(a, ident), id, ident)
  {
    hide Sound, LastSaid, Linked, P.Accounted, Timely, Named, Stored, SweepOrders, Forward;
    match a
    case DoBatch(ops, lands) => BatchAsSaid(w.e, ops, lands, id, ident);
    case DoSweep(now, ids, rids, lands) => SweepAsSaid(w.e, now, ids, rids, lands, id, ident);
    case _ =>
      QuietAct(w, a);
      AsBefore(Base(w.e).live, id, ident);
  }

  lemma SweepAsSaid(s: Engine, now: Time, ids: seq<EntityId>, rids: seq<RelationId>, lands: bool, id: EntityId,
                    ident: Identity)
    requires Sound(s) && SweepOrders(s, now, ids, rids) && Linked(Base(s).live)
    ensures AsSaid(Base(s).live, Base(ChangeEngine.Sweep(s, now, ids, rids, lands).e).live, None, id, ident)
  {
    hide Sound, SweepStaged, SweepOrders, Linked, Tally, FreshRefs, AllDistinct, AllLapsed, EmittedFrom;
    SweepExact(s, now, ids, rids, lands);
    UnstagedCur(ChangeEngine.Sweep(s, now, ids, rids, lands).e);
  }

  /** At every point of every safe run, whatever was compacted, swept, lost to failed appends
      or restarted from a snapshot: the attributes an entity is projected with are those that
      the last observation of its identity in a batch that landed gave it. */
  lemma {:induction false} LastObservationDecides(ws: seq<World>, acts: seq<Act>, k: nat, id: EntityId,
                                                  ident: Identity)
    requires SafeRun(ws, acts) && k < |ws| && Owns(Base(ws[k].e).live, id, ident)
    ensures LastLanded(acts[..k], ident).Some?
    ensures id in P.Live(ws[k].e.g) && P.Live(ws[k].e.g)[id].ident == ident
    ensures P.Live(ws[k].e.g)[id].attrs == LastLanded(acts[..k], ident).value
  {
    hide Good, Safe, Legal, Acted, LastLanded;
    RunGood(ws, acts, k);
    RunAsSaid(ws, acts, k, id, ident);
    ProjectedAs(ws[k], id);
  }

  lemma ProjectedAs(w: World, id: EntityId)
    requires Good(w) && Ent(id) in Base(w.e).live
    ensures id in P.Live(w.e.g) && Base(w.e).live[Ent(id)] == CoreOf(P.Live(w.e.g)[id])
  {
    UnstagedCur(w.e);
    ShowsEntity(w.e.g, Base(w.e).live, id);
  }

  lemma {:induction false} RunAsSaid(ws: seq<World>, acts: seq<Act>, k: nat, id: EntityId, ident: Identity)
    requires SafeRun(ws, acts) && k < |ws| && Owns(Base(ws[k].e).live, id, ident)
    ensures LastLanded(acts[..k], ident).Some?
    ensures Base(ws[k].e).live[Ent(id)] == EntCore(ident, LastLanded(acts[..k], ident).value)
  {
    hide Good, Safe, Legal, Acted, SaidBy, LastLanded;
    NothingAtFirst(ws[0]);
    if k > 0 {
      RunGood(ws, acts, k - 1);
      ActAsSaid(ws[k - 1], acts[k - 1], id, ident);
      LastOfPrefix(acts, k, ident);
      if SaidBy(acts[k - 1], ident).None? {
        RunAsSaid(ws, acts, k - 1, id, ident);
      }
    }
  }

  lemma NothingAtFirst(w: World)
    requires exists limit, ttl, bufferTTL :: Newborn(w, limit, ttl, bufferTTL)
    ensures Base(w.e).live == map[]
  {
  }

  lemma LastOfPrefix(acts: seq<Act>, k: nat, ident: Identity)
    requires 0 < k <= |acts|
    ensures LastLanded(acts[..k], ident) ==
            if SaidBy(acts[k - 1], ident).Some? then SaidBy(acts[k - 1], ident) else LastLanded(acts[..k - 1], ident)
  {
    assert acts[..k][..k - 1] == acts[..k - 1];
  }
}
