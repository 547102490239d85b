/** Survival of edges: an edge a speaker asserted and has not itself released stays live
    while both its endpoints do, through every sweep not past its deadline. */
module EdgeSurvival {
  import opened Model
  import opened EventLog
  import opened Aliases
  import opened SpeakerKeys
  import opened ChangeEngine
  import opened Overlay
  import opened EngineSteps
  import opened EngineSweep
  import opened EngineAppends
  import opened EngineRuns
  import opened Survival

  // ------------------------------------------------------------ whose word on which edge

  /** In state s the observation resolves to the edge r. */
  predicate About(s: Engine, obs: RelationObs, r: RelationId) {
    obs.typ == r.typ && ResolveEnds(s, obs) == Ends(r.src, r.dst)
  }

  /** sp has no parked edge that s would resolve to r. */
  ghost predicate NoneParked(s: Engine, ps: seq<Pending>, sp: Speaker, r: RelationId) {
    forall k :: 0 <= k < |ps| && Speaker(ps[k].obs.producer, ps[k].scope) == sp ==> !About(s, ps[k].obs, r)
  }

  /** The state in which an operation resolves endpoints. */
  function Resolving(s: Engine, op: Op, now: Time): Engine {
    match op
    case ObserveEntity(obs) => AssertEntity(s, obs, now)
    case ObserveRelation(obs) =>
      if obs.typ != SAME_AS then s else
      (match (ClaimOf(obs), AliasDeadline(obs, now))
       case (Some(claim), Some(d)) => s.(aliases := Record(s.aliases, claim, Key(s, obs.producer), Ref(d, 0)))
       case _ => s)
    case _ => s
  }

  /** Neither the operation nor any parked edge it may wake is sp's own word on r. */
  ghost predicate Hushed(s: Engine, op: Op, now: Time, sp: Speaker, r: RelationId) {
    var m := Resolving(s, op, now);
    && NoneParked(m, s.pending, sp, r)
    && (op.ObserveRelation? || op.RemoveRelation? ==>
          Speaker(op.relation.producer, s.st.scope) == sp ==> !About(m, op.relation, r))
  }

  ghost predicate EndsLive(s: Engine, r: RelationId) {
    Ent(r.src) in Cur(s).live && Ent(r.dst) in Cur(s).live
  }

  // ------------------------------------------------------------ resolution

  lemma SameOwnersMatch(s: Engine, t: Engine, i: Identity)
    requires Sound(s) && Sound(t) && SameEntities(Cur(s).live, Cur(t).live)
    ensures MatchIdentity(s, i) == MatchIdentity(t, i)
  {
    MatchIsOwner(s, i);
    MatchIsOwner(t, i);
    hide MatchIdentity;
    assert forall id: EntityId :: Owns(Cur(s).live, id, i) <==> Owns(Cur(t).live, id, i);
    OneOwner(s, i);
  }

  /** Endpoint resolution sees only the live entities and the aliases. */
  lemma SameResolution(s: Engine, t: Engine, obs: RelationObs)
    requires Sound(s) && Sound(t) && SameEntities(Cur(s).live, Cur(t).live) && s.aliases == t.aliases
    ensures ResolveEnds(s, obs) == ResolveEnds(t, obs)
  {
    hide Sound, Cur, MatchIdentity, SameEntities;
    SameOwnersMatch(s, t, obs.src);
    SameOwnersMatch(s, t, obs.dst);
    if Substitute(s.aliases, obs.src).Some? {
      SameOwnersMatch(s, t, Substitute(s.aliases, obs.src).value);
    }
    if Substitute(s.aliases, obs.dst).Some? {
      SameOwnersMatch(s, t, Substitute(s.aliases, obs.dst).value);
    }
  }

  // ------------------------------------------------------------ asserting edges

  /** How long an observed edge is held: for the promised interval, or else as long as its
      speaker's own claim on the source, or else for good. */
  ghost function EdgePromised(s: Engine, obs: RelationObs, src: EntityId, now: Time): Deadline {
    var key := KeyOf(Speaker(obs.producer, s.st.scope));
    if 0 < obs.interval <= WEEK then By(now + obs.interval)
    else if src in s.refs && key in s.refs[src] then s.refs[src][key].deadline
    else Never
  }

  /** A speaker whose edge resolves holds it for as long as it promised, or as its claim on
      the source does. */
  lemma EdgeAssertionHolds(s: Engine, obs: RelationObs, src: EntityId, dst: EntityId, now: Time)
    requires Sound(s) && Ent(src) in Cur(s).live && Ent(dst) in Cur(s).live
    ensures HoldsEdge(AssertRelation(s, obs, src, dst, now), RelationId(obs.typ, src, dst),
                      Speaker(obs.producer, s.st.scope), Exactly(EdgePromised(s, obs, src, now)))
  {
    hide Sound;
    AssertRelationSound(s, obs, src, dst, now);
  }

  lemma AssertRelationHoldsEdge(s: Engine, obs: RelationObs, src: EntityId, dst: EntityId, now: Time,
                                r: RelationId, sp: Speaker, d: Term)
    requires Sound(s) && Ent(src) in Cur(s).live && Ent(dst) in Cur(s).live && HoldsEdge(s, r, sp, d)
    requires RelationId(obs.typ, src, dst) == r ==> Speaker(obs.producer, s.st.scope) != sp
    ensures HoldsEdge(AssertRelation(s, obs, src, dst, now), r, sp, d)
  {
    hide Sound, Cur, Refers;
    AssertRelationSound(s, obs, src, dst, now);
    OtherSpeakerKeeps(s.relRefs, r, sp, d, RelationId(obs.typ, src, dst), Speaker(obs.producer, s.st.scope),
                      EdgeRef(s, obs, src, now));
  }

  lemma RetryHoldsEdge(s: Engine, p: Pending, now: Time, r: RelationId, sp: Speaker, d: Term)
    requires Sound(s) && HoldsEdge(s, r, sp, d)
    requires Speaker(p.obs.producer, p.scope) == sp ==> !About(s, p.obs, r)
    ensures HoldsEdge(Retry(s, p, now).0, r, sp, d)
  {
    hide Sound, AssertRelation, ResolveEnds;
    if now <= p.deadline && ResolveEnds(s, p.obs).Ends? {
      EndsAreLive(s, p.obs);
      var e := ResolveEnds(s, p.obs);
      var s0 := s.(st := s.st.(scope := p.scope));
      SameCoreSound(s, s0);
      AssertRelationHoldsEdge(s0, p.obs, e.src, e.dst, now, r, sp, d);
      AssertRelationKeeps(s0, p.obs, e.src, e.dst, now);
      var s1 := AssertRelation(s0, p.obs, e.src, e.dst, now);
      SameCoreSound(s1, s1.(st := s1.st.(scope := s.st.scope)));
    }
  }

  lemma {:induction false} RetryAllHoldsEdge(s: Engine, ps: seq<Pending>, now: Time, r: RelationId, sp: Speaker,
                                             d: Term)
    requires Sound(s) && HoldsEdge(s, r, sp, d) && NoneParked(s, ps, sp, r)
    ensures HoldsEdge(RetryAll(s, ps, now).0, r, sp, d)
  {
    hide Sound, HoldsEdge, ResolveEnds, Retry;
    if ps != [] {
      var n := |ps| - 1;
      assert forall k :: 0 <= k < n ==> ps[..n][k] == ps[k];
      RetryAllHoldsEdge(s, ps[..n], now, r, sp, d);
      RetryAllKeeps(s, ps[..n], now);
      var s1 := RetryAll(s, ps[..n], now).0;
      SameResolution(s, s1, ps[n].obs);
      RetryHoldsEdge(s1, ps[n], now, r, sp, d);
    }
  }

  lemma FlushPendingHoldsEdge(s: Engine, now: Time, r: RelationId, sp: Speaker, d: Term)
    requires Sound(s) && HoldsEdge(s, r, sp, d) && NoneParked(s, s.pending, sp, r)
    ensures HoldsEdge(FlushPending(s, now), r, sp, d)
  {
    hide Sound, RetryAll;
    RetryAllHoldsEdge(s, s.pending, now, r, sp, d);
    RetryAllKeeps(s, s.pending, now);
    var (s1, kept) := RetryAll(s, s.pending, now);
    SetPendingKeeps(s1, kept);
  }

  // ------------------------------------------------------------ operations

  lemma SameEdges(s: Engine, t: Engine, r: RelationId, sp: Speaker, d: Term)
    requires HoldsEdge(s, r, sp, d) && Cur(t) == Cur(s) && t.relRefs == s.relRefs
    ensures HoldsEdge(t, r, sp, d)
  {
  }

  lemma ObserveEntityHoldsEdge(s: Engine, obs: EntityObs, now: Time, r: RelationId, sp: Speaker, d: Term)
    requires Sound(s) && HoldsEdge(s, r, sp, d) && NoneParked(AssertEntity(s, obs, now), s.pending, sp, r)
    ensures HoldsEdge(ObserveEntityOp(s, obs, now), r, sp, d)
  {
    hide Sound, NoneParked, FlushPending;
    AssertEntitySound(s, obs, now);
    var s1 := AssertEntity(s, obs, now);
    assert HoldsEdge(s1, r, sp, d);
    FlushPendingHoldsEdge(s1, now, r, sp, d);
  }

  lemma DeleteEntityHoldsEdge(s: Engine, obs: EntityObs, now: Time, r: RelationId, sp: Speaker, d: Term)
    requires Sound(s) && HoldsEdge(s, r, sp, d) && EndsLive(DeleteEntityOp(s, obs, now), r)
    ensures HoldsEdge(DeleteEntityOp(s, obs, now), r, sp, d)
  {
    hide Sound, Cascade;
    MatchIsOwner(s, obs.ident);
    match MatchIdentity(s, obs.ident)
    case None =>
    case Some(id) =>
      var left := Held(s.refs, id) - {Key(s, obs.producer)};
      if id in s.refs && left != map[] {
        SameCoreSound(s, s.(refs := s.refs[id := left]));
      } else {
        var s0 := s.(refs := s.refs - {id});
        SameCoreSound(s, s0);
        KillSound(s0, id, Entity(id, obs.ident, obs.attrs, obs.schema), obs.eventTime, now);
        KilledSparesEdge(s0, DeleteEntityOp(s, obs, now), id, r, sp, d);
      }
  }

  lemma KilledSparesEdge(s: Engine, t: Engine, id: EntityId, r: RelationId, sp: Speaker, d: Term)
    requires HoldsEdge(s, r, sp, d) && Killed(s, t, id) && EndsLive(t, r)
    ensures HoldsEdge(t, r, sp, d)
  {
    hide Cur;
  }

  lemma RecordAliasHoldsEdge(s: Engine, obs: RelationObs, now: Time, r: RelationId, sp: Speaker, d: Term)
    requires Sound(s) && HoldsEdge(s, r, sp, d) && obs.typ == SAME_AS
    requires NoneParked(Resolving(s, ObserveRelation(obs), now), s.pending, sp, r)
    ensures HoldsEdge(RecordAlias(s, obs, now), r, sp, d)
  {
    hide Sound, FlushPending, ResolveEnds;
    match (ClaimOf(obs), AliasDeadline(obs, now))
    case (Some(claim), Some(dl)) =>
      var s1 := Resolving(s, ObserveRelation(obs), now);
      SameCoreSound(s, s1);
      var s2 := SetPending(s1, s1.pending);
      SameCoreSound(s1, s2);
      forall k | 0 <= k < |s.pending|
        ensures ResolveEnds(s2, s.pending[k].obs) == ResolveEnds(s1, s.pending[k].obs)
      {
        SameResolution(s1, s2, s.pending[k].obs);
      }
      FlushPendingHoldsEdge(s2, now, r, sp, d);
    case _ =>
  }

  /** Recording an alias leaves a state that resolves endpoints as the recorded claim says. */
  lemma AliasResolution(s: Engine, obs: RelationObs, now: Time)
    requires Sound(s)
    ensures var s1 := if obs.typ == SAME_AS then RecordAlias(s, obs, now) else s;
            ResolveEnds(s1, obs) == ResolveEnds(Resolving(s, ObserveRelation(obs), now), obs)
  {
    hide Sound, FlushPending, ResolveEnds;
    if obs.typ == SAME_AS {
      match (ClaimOf(obs), AliasDeadline(obs, now))
      case (Some(claim), Some(dl)) =>
        var s1 := Resolving(s, ObserveRelation(obs), now);
        SameCoreSound(s, s1);
        var s2 := SetPending(s1, s1.pending);
        SameCoreSound(s1, s2);
        FlushPendingKeeps(s2, now);
        SameResolution(s1, if s1.pending == [] then s1 else FlushPending(s2, now), obs);
      case _ =>
    }
  }

  lemma ObserveRelationHoldsEdge(s: Engine, obs: RelationObs, now: Time, r: RelationId, sp: Speaker, d: Term)
    requires Sound(s) && HoldsEdge(s, r, sp, d) && Hushed(s, ObserveRelation(obs), now, sp, r)
    ensures HoldsEdge(ObserveRelationOp(s, obs, now), r, sp, d)
  {
    hide Sound, RecordAlias, ResolveEnds, AssertRelation, HoldsEdge, Resolving, NoneParked;
    RecordAliasKeeps(s, obs, now);
    var s1 := if obs.typ == SAME_AS then RecordAlias(s, obs, now) else s;
    if obs.typ == SAME_AS {
      RecordAliasHoldsEdge(s, obs, now, r, sp, d);
    }
    AliasResolution(s, obs, now);
    EndsAreLive(s1, obs);
    match ResolveEnds(s1, obs)
    case Ends(src, dst) => AssertRelationHoldsEdge(s1, obs, src, dst, now, r, sp, d);
    case EndpointsCollapsed =>
    case EndpointMissing =>
      SameCoreSound(s1, Park(s1, obs, now));
      SameEdges(s1, Park(s1, obs, now), r, sp, d);
  }

  /** A speaker whose observed edge resolves holds it, also when the observation is itself an
      equivalence that makes it resolve. */
  lemma ObservedEdgeHolds(s: Engine, obs: RelationObs, now: Time, src: EntityId, dst: EntityId)
    requires Sound(s) && ResolveEnds(Resolving(s, ObserveRelation(obs), now), obs) == Ends(src, dst)
    ensures HoldsEdge(ObserveRelationOp(s, obs, now), RelationId(obs.typ, src, dst),
                      Speaker(obs.producer, s.st.scope), Exactly(EdgePromised(s, obs, src, now)))
  {
    hide Sound, RecordAlias, ResolveEnds, AssertRelation, HoldsEdge, Resolving, Linked, Counted, Cur;
    RecordAliasKeeps(s, obs, now);
    var s1 := if obs.typ == SAME_AS then RecordAlias(s, obs, now) else s;
    AliasResolution(s, obs, now);
    EndsAreLive(s1, obs);
    EdgeAssertionHolds(s1, obs, src, dst, now);
    assert EdgePromised(s1, obs, src, now) == EdgePromised(s, obs, src, now);
  }

  lemma RemoveRelationHoldsEdge(s: Engine, obs: RelationObs, now: Time, r: RelationId, sp: Speaker, d: Term)
    requires Sound(s) && HoldsEdge(s, r, sp, d) && Hushed(s, RemoveRelation(obs), now, sp, r)
    ensures HoldsEdge(RemoveRelationOp(s, obs, now), r, sp, d)
  {
    hide Sound, ResolveEnds, Refers, Cur, NoneParked;
    match ResolveEnds(s, obs)
    case Ends(src, dst) =>
      var rid := RelationId(obs.typ, src, dst);
      OtherSpeakerLeaves(s.relRefs, r, sp, d, rid, Speaker(obs.producer, s.st.scope));
      HeldIsKnown(s.relRefs, r, sp, d);
      var left := Held(s.relRefs, rid) - {Key(s, obs.producer)};
      if rid in s.relRefs && left != map[] {
        SameCoreSound(s, s.(relRefs := s.relRefs[rid := left]));
      } else {
        var s1 := s.(relRefs := s.relRefs - {rid});
        SameCoreSound(s, s1);
        GetRelationIsLive(s, rid);
        if GetRelation(s, rid).Some? {
          RemoveEdgeSound(s1, rid, obs.eventTime, now);
        }
      }
    case _ =>
  }

  /** Whatever anyone else says, a held edge stays held while both its endpoints live. */
  lemma EdgeSurvivesStep(s: Engine, op: Op, now: Time, r: RelationId, sp: Speaker, d: Term)
    requires Sound(s) && HoldsEdge(s, r, sp, d) && Hushed(s, op, now, sp, r) && EndsLive(Step(s, op, now), r)
    ensures HoldsEdge(Step(s, op, now), r, sp, d)
  {
    hide Sound, HoldsEdge, NoneParked, EndsLive;
    match op
    case SetScope(scope) =>
      var t := s.(st := s.st.(scope := scope));
      SameCoreSound(s, t);
      SameEdges(s, t, r, sp, d);
    case ObserveEntity(obs) => ObserveEntityHoldsEdge(s, obs, now, r, sp, d);
    case DeleteEntity(obs) => DeleteEntityHoldsEdge(s, obs, now, r, sp, d);
    case ObserveRelation(obs) => ObserveRelationHoldsEdge(s, obs, now, r, sp, d);
    case RemoveRelation(obs) => RemoveRelationHoldsEdge(s, obs, now, r, sp, d);
  }

  // ------------------------------------------------------------ acts

  ghost predicate UndisturbedAt(s: Engine, ops: seq<Timed>, j: int, sp: Speaker, r: RelationId)
    requires 0 <= j < |ops|
  {
    && Hushed(Steps(s, ops[..j]), ops[j].op, ops[j].now, sp, r)
    && EndsLive(Steps(s, ops[..j + 1]), r)
  }

  /** At every point of the batch both endpoints are live, and no operation is sp's own
      word on the edge. */
  ghost predicate EdgeUndisturbed(s: Engine, ops: seq<Timed>, sp: Speaker, r: RelationId) {
    forall j :: 0 <= j < |ops| ==> UndisturbedAt(s, ops, j, sp, r)
  }

  lemma UndisturbedPrefix(s: Engine, ops: seq<Timed>, sp: Speaker, r: RelationId)
    requires ops != [] && EdgeUndisturbed(s, ops, sp, r)
    ensures EdgeUndisturbed(s, ops[..|ops| - 1], sp, r)
    ensures Hushed(Steps(s, ops[..|ops| - 1]), ops[|ops| - 1].op, ops[|ops| - 1].now, sp, r)
    ensures EndsLive(Steps(s, ops), r)
  {
    hide Hushed, EndsLive, Steps;
    var n := |ops| - 1;
    assert ops[..n + 1] == ops;
    assert UndisturbedAt(s, ops, n, sp, r);
    forall j | 0 <= j < n
      ensures UndisturbedAt(s, ops[..n], j, sp, r)
    {
      assert UndisturbedAt(s, ops, j, sp, r);
      assert ops[..n][..j] == ops[..j] && ops[..n][..j + 1] == ops[..j + 1];
    }
  }

  lemma {:induction false} EdgeSurvivesSteps(s: Engine, ops: seq<Timed>, r: RelationId, sp: Speaker, d: Term)
    requires Sound(s) && HoldsEdge(s, r, sp, d) && EdgeUndisturbed(s, ops, sp, r)
    ensures HoldsEdge(Steps(s, ops), r, sp, d)
  {
    hide Sound, HoldsEdge, Step, EdgeUndisturbed, Hushed, EndsLive;
    if ops != [] {
      var n := |ops| - 1;
      UndisturbedPrefix(s, ops, sp, r);
      EdgeSurvivesSteps(s, ops[..n], r, sp, d);
      StepsKeep(s, ops[..n]);
      EdgeSurvivesStep(Steps(s, ops[..n]), ops[n].op, ops[n].now, r, sp, d);
    }
  }

  /** Operation j observes the edge r for sp. */
  ghost predicate ObservesEdge(s: Engine, ops: seq<Timed>, j: nat, obs: RelationObs, r: RelationId)
    requires j < |ops|
  {
    ops[j].op == ObserveRelation(obs) && About(Resolving(Steps(s, ops[..j]), ops[j].op, ops[j].now), obs, r)
  }

  /** The last thing the speaker said of the edge is operation j's observation: it holds the
      edge at every later point of the batch at which both endpoints are live. */
  lemma {:induction false} EdgeAssertedSince(s: Engine, ops: seq<Timed>, j: nat, n: nat, obs: RelationObs,
                                             r: RelationId)
    requires Sound(s) && s.st.scope == [] && j < n <= |ops| && ObservesEdge(s, ops, j, obs, r)
    requires forall k :: j < k < |ops| ==> UndisturbedAt(s, ops, k, Speaker(obs.producer, ScopeAfter(ops[..j])), r)
    ensures HoldsEdge(Steps(s, ops[..n]), r, Speaker(obs.producer, ScopeAfter(ops[..j])),
                      Exactly(EdgePromised(Steps(s, ops[..j]), obs, r.src, ops[j].now)))
  {
    hide Sound, HoldsEdge, EdgePromised, ObserveRelationOp, Hushed, EndsLive, Linked, Counted, Resolving, ResolveEnds,
         DeleteEntityOp, ObserveEntityOp, RemoveRelationOp;
    var m := n - 1;
    assert ops[..n][..m] == ops[..m] && ops[..n][m] == ops[m];
    StepsScope(s, ops[..m]);
    StepsKeep(s, ops[..m]);
    if m == j {
      ObservedEdgeHolds(Steps(s, ops[..m]), obs, ops[j].now, r.src, r.dst);
      assert RelationId(obs.typ, r.src, r.dst) == r;
    } else {
      EdgeAssertedSince(s, ops, j, m, obs, r);
      assert UndisturbedAt(s, ops, m, Speaker(obs.producer, ScopeAfter(ops[..j])), r);
      EdgeSurvivesStep(Steps(s, ops[..m]), ops[m].op, ops[m].now, r, Speaker(obs.producer, ScopeAfter(ops[..j])),
                       Exactly(EdgePromised(Steps(s, ops[..j]), obs, r.src, ops[j].now)));
    }
  }

  /** A batch that lands leaves the edge held by the speaker that last observed it. */
  lemma AssertedEdgeIsHeld(s: Engine, ops: seq<Timed>, j: nat, obs: RelationObs, r: RelationId)
    requires Sound(s) && s.st == NO_STAGED && j < |ops| && ObservesEdge(s, ops, j, obs, r)
    requires forall k :: j < k < |ops| ==> UndisturbedAt(s, ops, k, Speaker(obs.producer, ScopeAfter(ops[..j])), r)
    ensures HoldsEdge(Batch(s, ops, true), r, Speaker(obs.producer, ScopeAfter(ops[..j])),
                      Exactly(EdgePromised(Steps(s, ops[..j]), obs, r.src, ops[j].now)))
  {
    hide Sound, Steps, EdgePromised, UndisturbedAt, ObservesEdge, Linked, Counted;
    assert s.(st := NO_STAGED) == s;
    assert ops[..|ops|] == ops;
    EdgeAssertedSince(s, ops, j, |ops|, obs, r);
    StepsKeep(s, ops);
    FlushSound(Steps(s, ops), true);
  }

  lemma EdgeSurvivesBatch(s: Engine, ops: seq<Timed>, lands: bool, r: RelationId, sp: Speaker, d: Term)
    requires Sound(s) && s.st == NO_STAGED && HoldsEdge(s, r, sp, d) && EdgeUndisturbed(s, ops, sp, r)
    ensures HoldsEdge(Batch(s, ops, lands), r, sp, d)
  {
    hide Sound, EdgeUndisturbed, Steps;
    assert s.(st := NO_STAGED) == s;
    EdgeSurvivesSteps(s, ops, r, sp, d);
    StepsKeep(s, ops);
    FlushSound(Steps(s, ops), lands);
    UnstagedCur(s);
  }

  lemma EdgeSurvivesSweep(s: Engine, now: Time, ids: seq<EntityId>, rids: seq<RelationId>, lands: bool,
                          r: RelationId, sp: Speaker, d: Term)
    requires Sound(s) && s.st == NO_STAGED && SweepOrders(s, now, ids, rids)
    requires HoldsEdge(s, r, sp, d) && Reached(d.d, now) && EndsLive(SweepStaged(s, now, ids, rids).e, r)
    ensures HoldsEdge(ChangeEngine.Sweep(s, now, ids, rids, lands).e, r, sp, d)
  {
    hide Sound, SweepStaged, SweepOrders, FreshRefs, Expired, KeysCounted, AllLapsed, Cur;
    SweepStagedSound(s, now, ids, rids);
    var w := SweepStaged(s, now, ids, rids);
    ExpiredSound(s.(st := NO_STAGED), w, SetOf(ids), SetOf(rids));
    SweepEndSound(w.e, lands, now);
    UnstagedCur(s);
    UnlapsedKeeps(s.relRefs, r, sp, d, now);
    ExpiredBase(s, w, ids, rids);
    assert Rel(r) in Cur(w.e).live;
  }

  lemma ExpiredBase(s: Engine, w: SweepState, ids: seq<EntityId>, rids: seq<RelationId>)
    requires Expired(s.(st := NO_STAGED), w, SetOf(ids), SetOf(rids))
    ensures Base(w.e) == Base(s)
  {
    hide Sound;
  }

  /** The act leaves the edge's endpoints live throughout, and is not sp's own word on it, a
      sweep past the deadline, or a restart without liveness saved after sp spoke. */
  ghost predicate SparesEdge(w: World, a: Act, sp: Speaker, r: RelationId, d: Deadline) {
    match a
    case DoBatch(ops, _) => EdgeUndisturbed(w.e, ops, sp, r)
    case DoSweep(now, ids, rids, _) => Reached(d, now) && EndsLive(SweepStaged(w.e, now, ids, rids).e, r)
    case DoRestart(_, _, _, readable) => readable && w.saved.Some? && Refers(w.saved.value.relRefs, r, sp, AtLeast(d))
    case _ => true
  }

  lemma EdgeSurvivesAct(w: World, a: Act, r: RelationId, sp: Speaker, d: Deadline)
    requires Good(w) && Legal(w, a) && HoldsEdge(w.e, r, sp, AtLeast(d)) && SparesEdge(w, a, sp, r, d)
    ensures HoldsEdge(Acted(w, a).e, r, sp, AtLeast(d))
  {
    hide EdgeUndisturbed, EndsLive, Sound, HoldsEdge, Refers, SweepOrders, Stored, Named, Timely;
    match a
    case DoBatch(ops, lands) => EdgeSurvivesBatch(w.e, ops, lands, r, sp, AtLeast(d));
    case DoSweep(now, ids, rids, lands) => EdgeSurvivesSweep(w.e, now, ids, rids, lands, r, sp, AtLeast(d));
    case DoRestart(limit, ttl, now, readable) =>
      QuietAct(w, a);
      RestartKeepsHolders(w.saved.value.relRefs, r, sp, d, now, false);
      SavedHoldsEdge(w.e, Acted(w, a).e, r, sp, AtLeast(d));
    case _ =>
      QuietAct(w, a);
      SameLiveHoldsEdge(w.e, Acted(w, a).e, r, sp, AtLeast(d));
  }

  lemma SameLiveHoldsEdge(s: Engine, t: Engine, r: RelationId, sp: Speaker, d: Term)
    requires HoldsEdge(s, r, sp, d) && s.st == NO_STAGED && t.st == NO_STAGED
    requires Replay(t.log).live == Replay(s.log).live && t.relRefs == s.relRefs
    ensures HoldsEdge(t, r, sp, d)
  {
  }

  lemma SavedHoldsEdge(s: Engine, t: Engine, r: RelationId, sp: Speaker, d: Term)
    requires HoldsEdge(s, r, sp, d) && s.st == NO_STAGED && t.st == NO_STAGED
    requires Replay(t.log).live == Replay(s.log).live && Refers(t.relRefs, r, sp, d)
    ensures HoldsEdge(t, r, sp, d)
  {
  }

  /** Over every stretch of every safe run, a held edge is still projected at the end. */
  lemma {:induction false} HeldEdgeSurvives(ws: seq<World>, acts: seq<Act>, first: nat, last: nat,
                                            r: RelationId, sp: Speaker, d: Deadline)
    requires SafeRun(ws, acts) && first <= last < |ws| && HoldsEdge(ws[first].e, r, sp, AtLeast(d))
    requires forall k :: first <= k < last ==> SparesEdge(ws[k], acts[k], sp, r, d)
    ensures HoldsEdge(ws[last].e, r, sp, AtLeast(d)) && r in ws[last].e.g.relations
    decreases last
  {
    hide HoldsEdge, SparesEdge, Legal, Acted, Good, Safe;
    if first != last {
      HeldEdgeSurvives(ws, acts, first, last - 1, r, sp, d);
      RunGood(ws, acts, last - 1);
      EdgeSurvivesAct(ws[last - 1], acts[last - 1], r, sp, d);
    }
    RunGood(ws, acts, last);
    HeldEdgeIsProjected(ws[last], r, sp, d);
  }

  lemma HeldEdgeIsProjected(w: World, r: RelationId, sp: Speaker, d: Deadline)
    requires Good(w) && HoldsEdge(w.e, r, sp, AtLeast(d))
    ensures r in w.e.g.relations
  {
    UnstagedCur(w.e);
    ShowsRelationAt(w.e.g, Base(w.e).live, r);
  }
}
