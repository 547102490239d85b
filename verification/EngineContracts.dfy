/** What the engine keeps between any two operations, and what each operation means for the
    caller that performed it. */
module EngineContracts {
  import opened Text
  import opened Model
  import opened EventLog
  import opened Aliases
  import opened SpeakerKeys
  import opened ChangeEngine
  import opened Overlay
  import opened EngineSteps
  import opened EngineSweep
  import opened EngineRuns
  import opened Survival
  import opened EdgeSurvival
  import opened EngineAppends
  import opened ObservedState
  import opened Promises
  import P = Projection
  import SR = SnapshotRestore

  /** The overlay means the staged events, every edge joins live entities with and without
      them, and the tombstone cache is accounted for. */
  ghost predicate Whole(s: Engine) {
    Sound(s) && Linked(Base(s).live) && Linked(Cur(s).live) && P.Accounted(s.g)
  }

  lemma NewEngineWhole(limit: int, ttl: int, bufferTTL: int)
    ensures Whole(NewEngine(limit, ttl, bufferTTL))
  {
    var s := NewEngine(limit, ttl, bufferTTL);
    NewbornGood(World(s, 0, map[], None), limit, ttl, bufferTTL);
    UnstagedCur(s);
  }

  /** So the projection answers every live read as a fresh replay of the durable log. */
  lemma WholeAnswers(s: Engine, limit: int, ttl: int)
    requires Whole(s)
    ensures P.SameAnswers(s.g, P.ApplyAll(P.NewGraph(limit, ttl), s.log))
  {
    hide Linked, P.Accounted, P.SameAnswers;
    SR.FullReplay(s.log, limit, ttl);
    P.SameViewSameAnswers(s.g, P.ApplyAll(P.NewGraph(limit, ttl), s.log), Base(s).live);
  }

  lemma KeepsWhole(s: Engine, t: Engine)
    requires Whole(s) && Keeps(s, t)
    ensures Whole(t)
  {
    hide Sound, Linked, Counted, Cur, P.Accounted;
  }

  lemma FlushWhole(s: Engine, lands: bool)
    requires Whole(s)
    ensures Whole(Flush(s, lands))
  {
    hide Sound, Linked, P.Accounted;
    FlushSound(s, lands);
    FlushAccounts(s, lands);
    UnstagedCur(Flush(s, lands));
  }

  lemma RescopeWhole(s: Engine, scope: Str)
    requires Whole(s)
    ensures Whole(s.(st := s.st.(scope := scope)))
  {
    hide Sound, Linked, P.Accounted;
    SameCoreSound(s, s.(st := s.st.(scope := scope)));
  }

  lemma AssertEntityWhole(s: Engine, obs: EntityObs, now: Time)
    ensures Whole(s) ==> Whole(AssertEntity(s, obs, now))
  {
    hide Sound, Linked, P.Accounted, Target;
    if Whole(s) {
      AssertEntityKeeps(s, obs, now);
    }
  }

  lemma AssertRelationWhole(s: Engine, obs: RelationObs, src: EntityId, dst: EntityId, now: Time)
    ensures Whole(s) && Ent(src) in Cur(s).live && Ent(dst) in Cur(s).live ==>
              && Whole(AssertRelation(s, obs, src, dst, now))
              && HoldsEdge(AssertRelation(s, obs, src, dst, now), RelationId(obs.typ, src, dst),
                           Speaker(obs.producer, s.st.scope), Exactly(EdgePromised(s, obs, src, now)))
  {
    hide Sound, Linked, P.Accounted, AssertRelation, HoldsEdge, Counted;
    if Whole(s) && Ent(src) in Cur(s).live && Ent(dst) in Cur(s).live {
      AssertRelationKeeps(s, obs, src, dst, now);
      EdgeAssertionHolds(s, obs, src, dst, now);
    }
  }

  lemma FlushPendingWhole(s: Engine, now: Time)
    ensures Whole(s) ==> Whole(FlushPending(s, now))
  {
    hide Sound, Linked, P.Accounted, FlushPending, Counted;
    if Whole(s) {
      FlushPendingKeeps(s, now);
    }
  }

  lemma ParkWhole(s: Engine, obs: RelationObs, now: Time)
    ensures Whole(s) ==> Whole(Park(s, obs, now))
  {
    hide Sound, Linked, P.Accounted;
    if Whole(s) {
      SameCoreSound(s, Park(s, obs, now));
    }
  }

  lemma WholeAccounts(s: Engine)
    requires Whole(s)
    ensures P.Accounted(s.g)
  {
  }

  /** Whether or not it lands, a batch appends, applies and notifies the same events. */
  lemma BatchAppends(s: Engine, ops: seq<Timed>, lands: bool)
    requires Whole(s)
    ensures var t := Batch(s, ops, lands);
            && t.st == NO_STAGED && s.log <= t.log && t.notified == s.notified + t.log[|s.log|..]
            && t.g == P.ApplyAll(s.g, t.log[|s.log|..]) && (!lands ==> t.log == s.log)
  {
    hide Linked, P.Accounted, Counted, Steps, Sound, EmittedFrom, P.ApplyAll;
    UnstagedSound(s);
    var s0 := s.(st := NO_STAGED);
    BatchKeeps(s0, ops, lands);
    assert Batch(s, ops, lands) == Batch(s0, ops, lands);
    var t := Batch(s, ops, lands);
    if lands {
      assert t.log[|s.log|..] == Steps(s0, ops).st.events;
    } else {
      assert t.log[|s.log|..] == [];
      NothingApplied(s.g);
    }
  }

  lemma NothingApplied(g: P.Graph)
    ensures P.ApplyAll(g, []) == g
  {
  }

  lemma OneMoreApplied(g: P.Graph, evs: seq<Event>, i: nat)
    requires i < |evs|
    ensures P.ApplyAll(g, evs[..i + 1]) == P.Apply(P.ApplyAll(g, evs[..i]), evs[i])
  {
    hide P.Apply;
    assert evs[..i + 1][..i] == evs[..i];
  }

  lemma SweepStagedWhole(s: Engine, now: Time, ids: seq<EntityId>, rids: seq<RelationId>)
    requires Whole(s) && SweepOrders(s, now, ids, rids)
    ensures Whole(SweepStaged(s, now, ids, rids).e)
  {
    hide Sound, Linked, P.Accounted, SweepOrders, SweepStaged, Expired, Dropped, FreshRefs, KeysCounted;
    StagedStatics(s, now, ids, rids);
    SweepStagedSound(s, now, ids, rids);
    ExpiredLinks(s, SweepStaged(s, now, ids, rids), SetOf(ids), SetOf(rids));
  }

  lemma ExpiredLinks(s: Engine, w: SweepState, gone: set<EntityId>, dropped: set<RelationId>)
    requires Expired(s.(st := NO_STAGED), w, gone, dropped) && Linked(Base(s).live)
    ensures Linked(Cur(w.e).live)
  {
    hide Sound, Linked, Tally;
  }

  lemma UnstagedWhole(s: Engine)
    requires Whole(s)
    ensures Whole(s.(st := NO_STAGED))
  {
    hide Sound, Linked, P.Accounted;
    UnstagedSound(s);
  }

  lemma SweepWhole(s: Engine, now: Time, ids: seq<EntityId>, rids: seq<RelationId>, lands: bool)
    requires Whole(s) && SweepOrders(s, now, ids, rids)
    ensures Whole(ChangeEngine.Sweep(s, now, ids, rids, lands).e)
  {
    hide Sound, Linked, P.Accounted, SweepOrders, SweepStaged, Tally, FreshRefs, SweptLive, AllDistinct, EmittedFrom;
    SweepExact(s, now, ids, rids, lands);
    StagedStatics(s, now, ids, rids);
    var u := SweepStaged(s, now, ids, rids).e;
    UnstagedCur(ChangeEngine.Sweep(s, now, ids, rids, lands).e);
    FlushAccounts(u, lands);
    P.PruneAccounts(Flush(u, lands).g, now);
  }

  // ------------------------------------------------------------ entities

  /** Some entity is what was observed, as ObservedState says. */
  ghost predicate Observed(s: Engine, t: Engine, obs: EntityObs, now: Time) {
    exists id :: ObservedAs(s, t, obs, now, id)
  }

  lemma ObserveMeans(s: Engine, obs: EntityObs, now: Time)
    requires Whole(s)
    ensures Whole(ObserveEntityOp(s, obs, now)) && Observed(s, ObserveEntityOp(s, obs, now), obs, now)
  {
    hide Sound, Linked, P.Accounted, ObserveEntityOp, ObservedAs, Target;
    ObserveEntityKeeps(s, obs, now);
    var id := ObservationDecides(s, obs, now);
    KeepsWhole(s, ObserveEntityOp(s, obs, now));
  }

  /** Somebody other than this speaker references k. */
  predicate OthersHold<K>(refs: map<K, Refs>, k: K, key: Str) {
    k in refs && refs[k] - {key} != map[]
  }

  /** An owner of the identity is no longer referenced by the speaker; it stays, and with it
      everything else, exactly when another speaker references it. If not it goes, and takes
      its edges and nothing else along. */
  ghost predicate Released(s: Engine, t: Engine, obs: EntityObs, now: Time) {
    && ((forall id: EntityId :: !Owns(Cur(s).live, id, obs.ident)) ==> t == s)
    && forall id: EntityId :: Owns(Cur(s).live, id, obs.ident) ==>
      if OthersHold(s.refs, id, Key(s, obs.producer))
      then t == s.(refs := s.refs[id := s.refs[id] - {Key(s, obs.producer)}])
      else t.refs == s.refs - {id} && Killed(s, t, id) && DeathReported(s, t.st.events, id, obs, now)
  }

  /** The first event reports the deletion, as observed; the others the removal of its edges, at
      the same time. */
  ghost predicate DeathReported(s: Engine, b: seq<Event>, id: EntityId, obs: EntityObs, now: Time) {
    var n := |s.st.events|;
    && n < |b| && b[..n] == s.st.events
    && b[n] == EntityEvent(Deleted, Entity(id, obs.ident, obs.attrs, obs.schema), obs.eventTime, now)
    && forall k :: n < k < |b| ==>
      RemovalReported(Cur(s).live, b[k], obs.eventTime, now) && Touches(b[k].relation.id, id)
  }

  /** The event ends a live edge, as it was. */
  ghost predicate RemovalReported(live: View, ev: Event, when: Time, now: Time) {
    && ev.RelationEvent? && ev.relChange == Removed && ev.eventTime == when && ev.recordedAt == now
    && Rel(ev.relation.id) in live && live[Rel(ev.relation.id)] == RelCore(ev.relation.attrs)
  }

  lemma ReleaseMeans(s: Engine, obs: EntityObs, now: Time)
    requires Whole(s)
    ensures Whole(DeleteEntityOp(s, obs, now)) && Released(s, DeleteEntityOp(s, obs, now), obs, now)
  {
    hide Sound, Linked, P.Accounted, DeleteEntityOp, MatchIdentity, Counted, Killed, DeathReported;
    DeleteEntityKeeps(s, obs, now);
    DeleteFrames(s, obs, now);
    KeepsWhole(s, DeleteEntityOp(s, obs, now));
    MatchIsOwner(s, obs.ident);
    OneOwner(s, obs.ident);
    ReleasedOwner(s, obs, now);
  }

  lemma ReleasedOwner(s: Engine, obs: EntityObs, now: Time)
    requires Sound(s)
    ensures var t, key := DeleteEntityOp(s, obs, now), Key(s, obs.producer);
            match MatchIdentity(s, obs.ident)
            case None => t == s
            case Some(id) =>
              if OthersHold(s.refs, id, key) then t == s.(refs := s.refs[id := s.refs[id] - {key}])
              else t.refs == s.refs - {id} && Killed(s, t, id) && DeathReported(s, t.st.events, id, obs, now)
  {
    hide Sound, Cascade, Commit, MatchIdentity, Killed, Cur, DeathReported;
    MatchIsOwner(s, obs.ident);
    match MatchIdentity(s, obs.ident)
    case None =>
    case Some(id) =>
      if !OthersHold(s.refs, id, Key(s, obs.producer)) {
        LastOne(s, obs, now, id);
        LastReported(s, obs, now, id);
      }
  }

  lemma LastOne(s: Engine, obs: EntityObs, now: Time, id: EntityId)
    requires Sound(s) && Owns(Cur(s).live, id, obs.ident)
    ensures var s1 := Commit(s.(refs := s.refs - {id}), EntityEventOf(Deleted, id, obs, now));
            var t := Cascade(s1, id, obs.eventTime, now);
            t.refs == s.refs - {id} && Killed(s, t, id)
  {
    hide Sound, Cascade, Commit, Cur, Killed;
    var s0 := s.(refs := s.refs - {id});
    SameCoreSound(s, s0);
    KillSound(s0, id, Entity(id, obs.ident, obs.attrs, obs.schema), obs.eventTime, now);
    KilledSame(s, s0, Cascade(Commit(s0, EntityEventOf(Deleted, id, obs, now)), id, obs.eventTime, now), id);
  }

  lemma KilledSame(s: Engine, s0: Engine, t: Engine, id: EntityId)
    requires Killed(s0, t, id) && Cur(s0) == Cur(s) && s0.relRefs == s.relRefs
    ensures Killed(s, t, id)
  {
  }

  lemma {:induction false} RemovalsReported(s: Engine, rids: seq<RelationId>, when: Time, now: Time)
    requires Sound(s) && AllDistinct(rids) && forall k :: 0 <= k < |rids| ==> Rel(rids[k]) in Cur(s).live
    ensures var a, b := s.st.events, RemoveEdges(s, rids, when, now).st.events;
            && |a| <= |b| && b[..|a|] == a
            && forall k :: |a| <= k < |b| ==> RemovalReported(Cur(s).live, b[k], when, now) && b[k].relation.id in rids
  {
    if rids != [] {
      hide Sound, Cur, Base, RelThings;
      var n := |rids| - 1;
      RemovalsReported(s, rids[..n], when, now);
      RemoveEdgesSound(s, rids[..n], when, now);
      var s1 := RemoveEdges(s, rids[..n], when, now);
      var ev := RemovedEvent(s1, rids[n], when, now);
      StillThere(Cur(s).live, rids);
      RemovedNames(s1, rids[n], when, now);
      StageAppends(s1.st, ev);
      ReportOneMore(Cur(s).live, s.st.events, s1.st.events, ev, rids, when, now);
    }
  }

  lemma StillThere(live: View, rids: seq<RelationId>)
    requires rids != [] && AllDistinct(rids) && Rel(rids[|rids| - 1]) in live
    ensures var r, left := Rel(rids[|rids| - 1]), live - RelThings(rids[..|rids| - 1]);
            r in left && left[r] == live[r]
  {
    var n := |rids| - 1;
    assert forall k :: 0 <= k < n ==> rids[..n][k] == rids[k];
  }

  lemma ReportOneMore(live: View, a: seq<Event>, b: seq<Event>, ev: Event, rids: seq<RelationId>, when: Time, now: Time)
    requires |a| <= |b| && b[..|a|] == a && rids != []
    requires forall k :: |a| <= k < |b| ==>
      RemovalReported(live, b[k], when, now) && b[k].relation.id in rids[..|rids| - 1]
    requires RemovalReported(live, ev, when, now) && ev.relation.id == rids[|rids| - 1]
    ensures var c := b + [ev];
            && c[..|a|] == a
            && forall k :: |a| <= k < |c| ==> RemovalReported(live, c[k], when, now) && c[k].relation.id in rids
  {
  }

  lemma ReportedBefore(live: View, id: EntityId, ev: Event, when: Time, now: Time)
    requires RemovalReported(live - {Ent(id)}, ev, when, now)
    ensures RemovalReported(live, ev, when, now)
  {
  }

  lemma LastReported(s: Engine, obs: EntityObs, now: Time, id: EntityId)
    requires Sound(s) && Owns(Cur(s).live, id, obs.ident)
    ensures var s1 := Commit(s.(refs := s.refs - {id}), EntityEventOf(Deleted, id, obs, now));
            DeathReported(s, Cascade(s1, id, obs.eventTime, now).st.events, id, obs, now)
  {
    hide Sound, Cur, ListRelationsTouching, RemoveEdges, Stage, RemovalReported;
    var s0 := s.(refs := s.refs - {id});
    SameCoreSound(s, s0);
    var ev := EntityEventOf(Deleted, id, obs, now);
    DeleteSound(s0, Entity(id, obs.ident, obs.attrs, obs.schema), obs.eventTime, now);
    StageAppends(s0.st, ev);
    var s1 := Commit(s0, ev);
    TouchingIsLive(s1, id);
    RemovalsReported(s1, ListRelationsTouching(s1, id), obs.eventTime, now);
    var b := Cascade(s1, id, obs.eventTime, now).st.events;
    forall k | |s1.st.events| <= k < |b|
      ensures RemovalReported(Cur(s).live, b[k], obs.eventTime, now)
    {
      ReportedBefore(Cur(s).live, id, b[k], obs.eventTime, now);
    }
    assert b[..|s.st.events|] == b[..|s1.st.events|][..|s.st.events|];
    assert b[|s.st.events|] == b[..|s1.st.events|][|s.st.events|];
  }

  // ------------------------------------------------------------ relations

  /** The edge the observation is about, if any, is live with the attributes observed, and held
      by its speaker; one missing an endpoint is parked last, if edges are parked at all. */
  ghost predicate EdgeObserved(s: Engine, t: Engine, obs: RelationObs, now: Time) {
    var live := Cur(t).live;
    && SameEntities(Cur(s).live, live)
    && (forall src, dst :: Joins(live, t.aliases, obs, src, dst) ==>
          && HoldsEdge(t, RelationId(obs.typ, src, dst), Speaker(obs.producer, s.st.scope),
                       Exactly(EdgePromised(s, obs, src, now)))
          && live[Rel(RelationId(obs.typ, src, dst))] == RelCore(obs.attrs)
          && (obs.typ != SAME_AS ==>
                t.st.events == s.st.events + EdgeReport(Cur(s).live, RelationId(obs.typ, src, dst), obs, now)))
    && (!Resolvable(live, t.aliases, obs.src) || !Resolvable(live, t.aliases, obs.dst) ==>
          s.bufferTTL > 0 ==> ParkedLast(s, t.pending, obs, now))
  }

  /** The edge is parked last, for the buffer's time to live or its source's interval, whichever
      is longer; unless it asserts an equivalence, the others stay, save that the oldest of a
      full buffer of 4096 goes. */
  ghost predicate ParkedLast(s: Engine, ps: seq<Pending>, obs: RelationObs, now: Time) {
    var n := |ps| - 1;
    && 0 <= n && ps[n].obs == obs && ps[n].scope == s.st.scope
    && now + s.bufferTTL <= ps[n].deadline && now + obs.sourceInterval <= ps[n].deadline
    && ps[n].deadline in {now + s.bufferTTL, now + obs.sourceInterval}
    && (obs.typ != SAME_AS ==> ps[..n] == if |s.pending| < 4096 then s.pending else s.pending[1..])
  }

  /** After an observation its endpoints resolve as they did for it. */
  lemma JoinsAs(s: Engine, obs: RelationObs, now: Time)
    requires Sound(s)
    ensures var t, m := ObserveRelationOp(s, obs, now), Resolving(s, ObserveRelation(obs), now);
            && (forall a, b :: Joins(Cur(t).live, t.aliases, obs, a, b) <==> ResolveEnds(m, obs) == Ends(a, b))
            && (!Resolvable(Cur(t).live, t.aliases, obs.src) || !Resolvable(Cur(t).live, t.aliases, obs.dst) <==>
                  ResolveEnds(m, obs).EndpointMissing?)
  {
    hide Sound, ObserveRelationOp, ResolveEnds, ClaimOf, AliasDeadline, Record, Joins, Resolvable, Linked, Counted;
    var t, m := ObserveRelationOp(s, obs, now), Resolving(s, ObserveRelation(obs), now);
    SameCoreSound(s, m);
    ObserveRelationAlone(s, obs, now);
    ObserveRelationKeeps(s, obs, now);
    SameAliases(s, obs, now);
    assert t.aliases == m.aliases;
    SameResolution(m, t, obs);
    EndsExact(t, obs);
    EndsAreLive(t, obs);
  }

  lemma EdgeObserveMeans(s: Engine, obs: RelationObs, now: Time)
    requires Whole(s)
    ensures Whole(ObserveRelationOp(s, obs, now)) && EdgeObserved(s, ObserveRelationOp(s, obs, now), obs, now)
  {
    hide Sound, Linked, P.Accounted, ObserveRelationOp, ResolveEnds, HoldsEdge, Resolving, Counted, Joins, Resolvable,
         ParkedLast, EdgePromised, EdgeReport;
    ObserveRelationKeeps(s, obs, now);
    KeepsWhole(s, ObserveRelationOp(s, obs, now));
    ObserveRelationAlone(s, obs, now);
    JoinsAs(s, obs, now);
    match ResolveEnds(Resolving(s, ObserveRelation(obs), now), obs)
    case Ends(src, dst) =>
      ObservedEdgeHolds(s, obs, now, src, dst);
      ObservedEdgeCore(s, obs, now, src, dst);
      ObservedEdgeReport(s, obs, now, src, dst);
    case EndpointMissing =>
      if s.bufferTTL > 0 {
        ParkedMeans(s, obs, now);
      }
    case EndpointsCollapsed =>
  }

  lemma ObservedEdgeCore(s: Engine, obs: RelationObs, now: Time, src: EntityId, dst: EntityId)
    requires Sound(s) && ResolveEnds(Resolving(s, ObserveRelation(obs), now), obs) == Ends(src, dst)
    ensures var live, r := Cur(ObserveRelationOp(s, obs, now)).live, RelationId(obs.typ, src, dst);
            Rel(r) in live && live[Rel(r)] == RelCore(obs.attrs)
  {
    hide Sound, RecordAlias, ResolveEnds, AssertRelation, Resolving, Linked, Counted, Cur;
    RecordAliasKeeps(s, obs, now);
    var s1 := if obs.typ == SAME_AS then RecordAlias(s, obs, now) else s;
    AliasResolution(s, obs, now);
    EndsAreLive(s1, obs);
    AssertRelationSound(s1, obs, src, dst, now);
  }

  lemma ObservedEdgeReport(s: Engine, obs: RelationObs, now: Time, src: EntityId, dst: EntityId)
    requires Sound(s) && ResolveEnds(Resolving(s, ObserveRelation(obs), now), obs) == Ends(src, dst)
    ensures obs.typ != SAME_AS ==>
              ObserveRelationOp(s, obs, now).st.events ==
              s.st.events + EdgeReport(Cur(s).live, RelationId(obs.typ, src, dst), obs, now)
  {
    hide Sound, ResolveEnds, AssertRelation, Cur, EdgeReport;
    AssertRelationReports(s, obs, src, dst, now);
  }

  lemma ParkedMeans(s: Engine, obs: RelationObs, now: Time)
    requires Sound(s) && ResolveEnds(Resolving(s, ObserveRelation(obs), now), obs).EndpointMissing? && s.bufferTTL > 0
    ensures ParkedLast(s, ObserveRelationOp(s, obs, now).pending, obs, now)
  {
    hide Sound, ResolveEnds, Resolving, RecordAlias, Linked, Counted, WaitedHashes;
    AliasResolution(s, obs, now);
    RecordAliasKeeps(s, obs, now);
    RecordAliasBuffer(s, obs, now);
  }

  lemma RecordAliasBuffer(s: Engine, obs: RelationObs, now: Time)
    requires Sound(s)
    ensures RecordAlias(s, obs, now).bufferTTL == s.bufferTTL
  {
    hide Sound, FlushPending;
    match (ClaimOf(obs), AliasDeadline(obs, now))
    case (Some(claim), Some(d)) =>
      var s1 := s.(aliases := Record(s.aliases, claim, Key(s, obs.producer), Ref(d, 0)));
      var s2 := SetPending(s1, s1.pending);
      SameCoreSound(s, s2);
      FlushPendingKeeps(s2, now);
    case _ =>
  }

  /** The edge the observation is about, if any, is no longer referenced by the speaker, and
      stays exactly when another speaker references it. Nothing else changed. */
  ghost predicate EdgeReleased(s: Engine, t: Engine, obs: RelationObs, now: Time) {
    && (forall src, dst :: Joins(Cur(s).live, s.aliases, obs, src, dst) ==>
          EdgeReleasedAt(s, t, RelationId(obs.typ, src, dst), Key(s, obs.producer), obs.eventTime, now))
    && ((forall src, dst :: !Joins(Cur(s).live, s.aliases, obs, src, dst)) ==> t == s)
  }

  ghost predicate EdgeReleasedAt(s: Engine, t: Engine, rid: RelationId, key: Str, when: Time, now: Time) {
    && SameBooks(s, t)
    && if OthersHold(s.relRefs, rid, key)
       then t == s.(relRefs := s.relRefs[rid := s.relRefs[rid] - {key}])
       else
         && t.relRefs == s.relRefs - {rid} && Cur(t).live == Cur(s).live - {Rel(rid)}
         && (Rel(rid) !in Cur(s).live ==> t.st == s.st)
         && (Rel(rid) in Cur(s).live ==>
               && |t.st.events| == |s.st.events| + 1 && t.st.events[..|s.st.events|] == s.st.events
               && RemovalReported(Cur(s).live, t.st.events[|s.st.events|], when, now)
               && t.st.events[|s.st.events|].relation.id == rid)
  }

  lemma EdgeReleaseMeans(s: Engine, obs: RelationObs, now: Time)
    requires Whole(s)
    ensures Whole(RemoveRelationOp(s, obs, now)) && EdgeReleased(s, RemoveRelationOp(s, obs, now), obs, now)
  {
    hide Sound, Linked, P.Accounted, RemoveRelationOp, ResolveEnds, Counted, EdgeReleasedAt, Joins;
    RemoveRelationKeeps(s, obs, now);
    KeepsWhole(s, RemoveRelationOp(s, obs, now));
    ReleasedEdge(s, obs, now);
    EndsExact(s, obs);
  }

  lemma ReleasedEdge(s: Engine, obs: RelationObs, now: Time)
    requires Sound(s)
    ensures var t := RemoveRelationOp(s, obs, now);
            match ResolveEnds(s, obs)
            case Ends(src, dst) =>
              EdgeReleasedAt(s, t, RelationId(obs.typ, src, dst), Key(s, obs.producer), obs.eventTime, now)
            case _ => t == s
  {
    hide Sound, ResolveEnds, RemovedEvent, Stage, GetRelation;
    match ResolveEnds(s, obs)
    case Ends(src, dst) =>
      var rid := RelationId(obs.typ, src, dst);
      var left := Held(s.relRefs, rid) - {Key(s, obs.producer)};
      var s1 := s.(relRefs := s.relRefs - {rid});
      SameCoreSound(s, s1);
      GetRelationIsLive(s, rid);
      if rid in s.relRefs && left != map[] {
        SameCoreSound(s, s.(relRefs := s.relRefs[rid := left]));
      } else if GetRelation(s, rid).Some? {
        SameRemovedEvent(s, s1, rid, obs.eventTime, now);
        RemovedNames(s1, rid, obs.eventTime, now);
        RemoveEdgeSound(s1, rid, obs.eventTime, now);
        StageAppends(s1.st, RemovedEvent(s1, rid, obs.eventTime, now));
      } else {
        assert Cur(s).live - {Rel(rid)} == Cur(s).live;
      }
    case _ =>
  }

  lemma RemovedNames(s: Engine, rid: RelationId, when: Time, now: Time)
    requires Sound(s) && Rel(rid) in Cur(s).live
    ensures RemovalReported(Cur(s).live, RemovedEvent(s, rid, when, now), when, now)
    ensures RemovedEvent(s, rid, when, now).relation.id == rid
  {
    GetRelationIsLive(s, rid);
  }

  // ------------------------------------------------------------ equivalences

  /** A believed equivalence is spoken for by the speaker for two cycles, or for good without
      one; one on a cycle of more than a week, like an observation that asserts none, changes
      nothing. No entity changed either way. */
  ghost predicate AliasRecorded(s: Engine, t: Engine, obs: RelationObs, now: Time) {
    && SameEntities(Cur(s).live, Cur(t).live)
    && (forall claim :: Equates(obs, claim) && Cycle(obs) <= WEEK ==>
          && Refers(t.aliases.speakers, claim, Speaker(obs.producer, s.st.scope),
                    Exactly(if Cycle(obs) > 0 then By(now + 2 * Cycle(obs)) else Never))
          && claim.canonical in Candidates(t.aliases, claim.alias))
    && (Cycle(obs) > WEEK || (forall claim :: !Equates(obs, claim)) ==> t == s)
  }

  lemma AliasMeans(s: Engine, obs: RelationObs, now: Time)
    requires Whole(s)
    ensures Whole(RecordAlias(s, obs, now)) && AliasRecorded(s, RecordAlias(s, obs, now), obs, now)
  {
    hide Sound, Linked, P.Accounted, Counted, RecordAlias, Equates;
    RecordAliasKeeps(s, obs, now);
    KeepsWhole(s, RecordAlias(s, obs, now));
    forall claim
      ensures ClaimOf(obs) == Some(claim) <==> Equates(obs, claim)
    {
      ClaimExact(obs, claim);
    }
    hide ClaimOf, Record;
    RecordedAliases(s, obs, now);
    RefusedAlias(s, obs, now);
    if ClaimOf(obs).Some? && Cycle(obs) <= WEEK {
      RecordedFor(s.aliases, ClaimOf(obs).value, Speaker(obs.producer, s.st.scope),
                  Ref(AliasDeadline(obs, now).value, 0));
    }
  }

  lemma RefusedAlias(s: Engine, obs: RelationObs, now: Time)
    ensures ClaimOf(obs).None? || AliasDeadline(obs, now).None? ==> RecordAlias(s, obs, now) == s
  {
    hide ClaimOf, AliasDeadline;
  }
}
