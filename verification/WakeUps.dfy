/** No lost wake-ups: although an arrival outside the waited-on identities skips the scan
    of the parked edges, no unexpired parked edge ever has both endpoints resolvable. */
module WakeUps {
  import opened Model
  import opened EventLog
  import opened Aliases
  import opened ChangeEngine
  import opened Overlay
  import opened EngineSteps
  import opened EngineSweep
  import opened EngineAppends
  import opened EngineRuns
  import opened Survival
  import P = Projection

  /** Every identity a parked edge could be woken by is waited on. */
  ghost predicate AllWaited(idx: AliasIndex, ps: seq<Pending>, waited: set<Identity>) {
    forall p :: p in ps ==> EndpointHashes(idx, p.obs.src) <= waited && EndpointHashes(idx, p.obs.dst) <= waited
  }

  ghost predicate AllWaiting(live: View, idx: AliasIndex, ps: seq<Pending>, now: Time) {
    forall p :: p in ps && now <= p.deadline ==> Waiting(live, idx, p)
  }

  /** The parked edges at now: bounded, all waited on, and each unexpired one still waiting. */
  ghost predicate Asleep(s: Engine, live: View, now: Time) {
    && |s.pending| <= MAX_PENDING
    && AllWaited(s.aliases, s.pending, s.waited)
    && AllWaiting(live, s.aliases, s.pending, now)
  }

  // ------------------------------------------------------------ waited-on identities

  lemma {:induction false} WaitedCovers(idx: AliasIndex, ps: seq<Pending>)
    ensures AllWaited(idx, ps, WaitedHashes(idx, ps))
  {
    if ps != [] {
      var n := |ps| - 1;
      WaitedCovers(idx, ps[..n]);
      assert ps == ps[..n] + [ps[n]];
    }
  }

  /** Endpoints only become resolvable by a new owner of an identity they wait on. */
  lemma StillWaiting(before: View, after: View, idx: AliasIndex, p: Pending, arrived: Identity)
    requires Waiting(before, idx, p)
    requires forall x: EntityId, i :: Owns(after, x, i) ==> Owns(before, x, i) || i == arrived
    requires arrived !in EndpointHashes(idx, p.obs.src) && arrived !in EndpointHashes(idx, p.obs.dst)
    ensures Waiting(after, idx, p)
  {
  }

  lemma FewerOwnersWaiting(before: View, after: View, idx: AliasIndex, p: Pending)
    requires Waiting(before, idx, p)
    requires forall x: EntityId, i :: Owns(after, x, i) ==> Owns(before, x, i)
    ensures Waiting(after, idx, p)
  {
  }

  lemma FewerOwnersAsleep(s: Engine, t: Engine, before: View, after: View, was: Time, now: Time)
    requires Asleep(s, before, was) && was <= now
    requires t.pending == s.pending && t.waited == s.waited && t.aliases == s.aliases
    requires forall x: EntityId, i :: Owns(after, x, i) ==> Owns(before, x, i)
    ensures Asleep(t, after, now)
  {
    forall p | p in t.pending && now <= p.deadline
      ensures Waiting(after, t.aliases, p)
    {
      FewerOwnersWaiting(before, after, s.aliases, p);
    }
  }

  lemma SameEntitiesOwners(a: View, b: View)
    requires SameEntities(a, b)
    ensures forall x: EntityId, i :: Owns(b, x, i) ==> Owns(a, x, i)
  {
  }

  // ------------------------------------------------------------ operations

  lemma FlushedAsleep(s: Engine, now: Time)
    requires Sound(s) && |s.pending| <= MAX_PENDING
    ensures Asleep(FlushPending(s, now), Cur(FlushPending(s, now)).live, now)
  {
    hide Sound, FlushPending, Cur;
    FlushPendingKeeps(s, now);
    WaitedCovers(FlushPending(s, now).aliases, FlushPending(s, now).pending);
  }

  lemma PutOwners(live: View, ev: Event, i: Identity)
    requires ev.EntityEvent? && ev.change != Deleted && ev.entity.ident == i
    ensures forall x: EntityId, j :: Owns(NextLive(live, ev), x, j) ==> Owns(live, x, j) || j == i
  {
  }

  lemma ObserveEntityAsleep(s: Engine, obs: EntityObs, was: Time, now: Time)
    requires Sound(s) && Asleep(s, Cur(s).live, was) && was <= now
    ensures var t := ObserveEntityOp(s, obs, now); Asleep(t, Cur(t).live, now)
  {
    hide Sound, FlushPending, Cur, Target;
    AssertEntitySound(s, obs, now);
    var s1 := AssertEntity(s, obs, now);
    assert s1.pending == s.pending && s1.waited == s.waited && s1.aliases == s.aliases;
    if s1.pending != [] && obs.ident in s1.waited {
      FlushedAsleep(s1, now);
    } else {
      var (id, ct, next) := Target(s, obs, now);
      PutOwners(Cur(s).live, EntityEventOf(ct, id, obs, now), obs.ident);
      forall p | p in s.pending && now <= p.deadline
        ensures Waiting(Cur(s1).live, s.aliases, p)
      {
        StillWaiting(Cur(s).live, Cur(s1).live, s.aliases, p, obs.ident);
      }
    }
  }

  lemma DeleteOwners(s: Engine, obs: EntityObs, now: Time)
    requires Sound(s)
    ensures var t := DeleteEntityOp(s, obs, now);
            && (forall x: EntityId, i :: Owns(Cur(t).live, x, i) ==> Owns(Cur(s).live, x, i))
            && t.pending == s.pending && t.waited == s.waited && t.aliases == s.aliases
  {
    hide Sound, Cascade, Commit;
    MatchIsOwner(s, obs.ident);
    match MatchIdentity(s, obs.ident)
    case None =>
    case Some(id) =>
      var left := Held(s.refs, id) - {Key(s, obs.producer)};
      if id in s.refs && left != map[] {
        SameCoreSound(s, s.(refs := s.refs[id := left]));
      } else {
        var s0 := s.(refs := s.refs - {id});
        SameCoreSound(s, s0);
        KillSound(s0, id, Entity(id, obs.ident, obs.attrs, obs.schema), obs.eventTime, now);
      }
  }

  lemma SameEntitiesAsleep(s: Engine, t: Engine, now: Time)
    requires Asleep(s, Cur(s).live, now) && SameEntities(Cur(s).live, Cur(t).live)
    requires t.pending == s.pending && t.waited == s.waited && t.aliases == s.aliases
    ensures Asleep(t, Cur(t).live, now)
  {
    hide Cur;
    SameEntitiesOwners(Cur(s).live, Cur(t).live);
    FewerOwnersAsleep(s, t, Cur(s).live, Cur(t).live, now, now);
  }

  lemma LaterAsleep(s: Engine, live: View, was: Time, now: Time)
    requires Asleep(s, live, was) && was <= now
    ensures Asleep(s, live, now)
  {
  }

  lemma RecordAliasAsleep(s: Engine, obs: RelationObs, now: Time)
    requires Sound(s) && Asleep(s, Cur(s).live, now)
    ensures var t := RecordAlias(s, obs, now); Asleep(t, Cur(t).live, now)
  {
    hide Sound, FlushPending, Cur;
    match (ClaimOf(obs), AliasDeadline(obs, now))
    case (Some(claim), Some(d)) =>
      var s1 := s.(aliases := Record(s.aliases, claim, Key(s, obs.producer), Ref(d, 0)));
      SameCoreSound(s, s1);
      var s2 := SetPending(s1, s1.pending);
      SameCoreSound(s1, s2);
      FlushedAsleep(s2, now);
    case _ =>
  }

  lemma ParkAsleep(s: Engine, obs: RelationObs, now: Time)
    requires Sound(s) && Asleep(s, Cur(s).live, now) && ResolveEnds(s, obs).EndpointMissing?
    ensures Asleep(Park(s, obs, now), Cur(Park(s, obs, now)).live, now)
  {
    hide Sound, Cur, ResolveEnds, Hold;
    EndsAreLive(s, obs);
    var t := Park(s, obs, now);
    SameCoreSound(s, t);
    WaitedCovers(s.aliases, t.pending);
    forall p | p in t.pending
      ensures p in s.pending || p.obs == obs
    {
    }
  }

  lemma ObserveRelationAsleep(s: Engine, obs: RelationObs, now: Time)
    requires Sound(s) && Asleep(s, Cur(s).live, now)
    ensures var t := ObserveRelationOp(s, obs, now); Asleep(t, Cur(t).live, now)
  {
    hide Sound, Asleep, RecordAlias, AssertRelation, ResolveEnds, Park, Cur;
    RecordAliasKeeps(s, obs, now);
    RecordAliasAsleep(s, obs, now);
    var s1 := if obs.typ == SAME_AS then RecordAlias(s, obs, now) else s;
    EndsAreLive(s1, obs);
    match ResolveEnds(s1, obs)
    case Ends(src, dst) =>
      AssertRelationKeeps(s1, obs, src, dst, now);
      SameEntitiesAsleep(s1, AssertRelation(s1, obs, src, dst, now), now);
    case EndpointsCollapsed =>
    case EndpointMissing => ParkAsleep(s1, obs, now);
  }

  lemma RemoveRelationFrames(s: Engine, obs: RelationObs, now: Time)
    ensures var t := RemoveRelationOp(s, obs, now);
            t.pending == s.pending && t.waited == s.waited && t.aliases == s.aliases
  {
  }

  /** After every operation no unexpired parked edge has both endpoints resolvable, and the
      buffer is within its cap. */
  lemma StepAsleep(s: Engine, op: Op, was: Time, now: Time)
    requires Sound(s) && Asleep(s, Cur(s).live, was) && was <= now
    ensures Asleep(Step(s, op, now), Cur(Step(s, op, now)).live, now)
  {
    hide Sound, Asleep, Cur;
    LaterAsleep(s, Cur(s).live, was, now);
    match op
    case SetScope(scope) =>
      var t := s.(st := s.st.(scope := scope));
      SameCoreSound(s, t);
      SameEntitiesAsleep(s, t, now);
    case ObserveEntity(obs) => ObserveEntityAsleep(s, obs, was, now);
    case DeleteEntity(obs) =>
      DeleteOwners(s, obs, now);
      FewerOwnersAsleep(s, DeleteEntityOp(s, obs, now), Cur(s).live, Cur(DeleteEntityOp(s, obs, now)).live, now, now);
    case ObserveRelation(obs) => ObserveRelationAsleep(s, obs, now);
    case RemoveRelation(obs) =>
      RemoveRelationAlone(s, obs, now);
      RemoveRelationFrames(s, obs, now);
      SameEntitiesAsleep(s, RemoveRelationOp(s, obs, now), now);
  }

  lemma {:induction false} StepsAsleep(s: Engine, ops: seq<Timed>, was: Time)
    requires Sound(s) && Asleep(s, Cur(s).live, was) && Forward(was, ops)
    ensures Asleep(Steps(s, ops), Cur(Steps(s, ops)).live, Clock(was, ops))
  {
    hide Sound, Asleep, Cur, Step;
    if ops != [] {
      var n := |ops| - 1;
      StepsAsleep(s, ops[..n], was);
      StepsKeep(s, ops[..n]);
      StepAsleep(Steps(s, ops[..n]), ops[n].op, Clock(was, ops[..n]), ops[n].now);
    }
  }

  // ------------------------------------------------------------ batches

  predicate NoDeletes(ops: seq<Timed>) {
    forall k :: 0 <= k < |ops| ==> !ops[k].op.DeleteEntity?
  }

  /** Identities owned before are owned after. */
  ghost predicate OwnersKept(a: View, b: View) {
    forall x: EntityId, i :: Owns(a, x, i) ==> Owns(b, x, i)
  }

  lemma ObserveKeepsOwners(s: Engine, obs: EntityObs, now: Time)
    requires Sound(s)
    ensures OwnersKept(Cur(s).live, Cur(ObserveEntityOp(s, obs, now)).live)
  {
    hide Sound, FlushPending, Target;
    AssertEntitySound(s, obs, now);
    var s1 := AssertEntity(s, obs, now);
    var (id, ct, next) := Target(s, obs, now);
    MatchIsOwner(s, obs.ident);
    forall x: EntityId, i | Owns(Cur(s).live, x, i)
      ensures Owns(Cur(s1).live, x, i)
    {
      if x == id {
        SameOwner(s, id, i, obs.ident);
      }
    }
    FlushPendingKeeps(s1, now);
    SameEntitiesOwners(Cur(FlushPending(s1, now)).live, Cur(s1).live) by {
      assert SameEntities(Cur(FlushPending(s1, now)).live, Cur(s1).live);
    }
  }

  lemma StepKeepsOwners(s: Engine, op: Op, now: Time)
    requires Sound(s) && !op.DeleteEntity?
    ensures OwnersKept(Cur(s).live, Cur(Step(s, op, now)).live)
  {
    hide Sound, Cur;
    match op
    case SetScope(scope) => SameCoreSound(s, s.(st := s.st.(scope := scope)));
    case ObserveEntity(obs) => ObserveKeepsOwners(s, obs, now);
    case ObserveRelation(obs) => ObserveRelationAlone(s, obs, now);
    case RemoveRelation(obs) => RemoveRelationAlone(s, obs, now);
  }

  lemma {:induction false} StepsKeepOwners(s: Engine, ops: seq<Timed>)
    requires Sound(s) && NoDeletes(ops)
    ensures OwnersKept(Cur(s).live, Cur(Steps(s, ops)).live)
  {
    hide Sound, Cur, Step;
    if ops != [] {
      var n := |ops| - 1;
      StepsKeepOwners(s, ops[..n]);
      StepsKeep(s, ops[..n]);
      StepKeepsOwners(Steps(s, ops[..n]), ops[n].op, ops[n].now);
    }
  }

  /** A flush that fails leaves the parked edges asleep exactly when every unexpired one is
      waiting in what the log holds without the staged events. */
  lemma FailedFlushAsleep(u: Engine, now: Time)
    requires Asleep(u, Cur(u).live, now)
    ensures Asleep(Flush(u, false), Base(u).live, now) <==> AllWaiting(Base(u).live, u.aliases, u.pending, now)
  {
    hide Cur, Base;
  }

  /** The state of a batch when it comes to flush. */
  ghost function Unflushed(s: Engine, ops: seq<Timed>): Engine {
    Steps(s.(st := NO_STAGED), ops)
  }

  /** A batch leaves the parked edges asleep exactly when it lands, or every edge parked when
      it fails waits for something the log does not hold either. */
  lemma BatchAsleepIff(s: Engine, ops: seq<Timed>, lands: bool, was: Time)
    requires Sound(s) && s.st == NO_STAGED && Asleep(s, Base(s).live, was) && Forward(was, ops)
    ensures var t, u := Batch(s, ops, lands), Unflushed(s, ops);
            Asleep(t, Base(t).live, Clock(was, ops)) <==>
            lands || AllWaiting(Base(s).live, u.aliases, u.pending, Clock(was, ops))
  {
    hide Sound, Asleep, Cur, Base, Steps, AllWaiting, Linked, Counted;
    assert s.(st := NO_STAGED) == s;
    UnstagedCur(s);
    StepsAsleep(s, ops, was);
    StepsKeep(s, ops);
    var u := Steps(s, ops);
    FlushSound(u, lands);
    var t := Flush(u, lands);
    UnstagedCur(t);
    SameLogBase(s, u);
    if lands {
      FewerOwnersAsleep(u, t, Cur(u).live, Cur(u).live, Clock(was, ops), Clock(was, ops));
    } else {
      FailedFlushAsleep(u, Clock(was, ops));
    }
  }

  /** In particular a failed batch that deletes nothing leaves every parked edge waiting. */
  lemma BatchAsleep(s: Engine, ops: seq<Timed>, lands: bool, was: Time)
    requires Sound(s) && s.st == NO_STAGED && Asleep(s, Base(s).live, was) && Forward(was, ops)
    requires lands || NoDeletes(ops)
    ensures Asleep(Batch(s, ops, lands), Base(Batch(s, ops, lands)).live, Clock(was, ops))
  {
    hide Sound, Asleep, Cur, Base, Steps, Waiting, Linked, Counted, Batch, NoDeletes;
    BatchAsleepIff(s, ops, lands, was);
    if !lands {
      assert s.(st := NO_STAGED) == s;
      UnstagedCur(s);
      StepsAsleep(s, ops, was);
      StepsKeepOwners(s, ops);
      var u := Steps(s, ops);
      KeptOwnersWaiting(u, Base(s).live, Clock(was, ops));
    }
  }

  lemma KeptOwnersWaiting(u: Engine, live: View, now: Time)
    requires Asleep(u, Cur(u).live, now) && OwnersKept(live, Cur(u).live)
    ensures AllWaiting(live, u.aliases, u.pending, now)
  {
    hide Cur;
    forall p | p in u.pending && now <= p.deadline
      ensures Waiting(live, u.aliases, p)
    {
      FewerOwnersWaiting(Cur(u).live, live, u.aliases, p);
    }
  }

  lemma SameLogBase(s: Engine, t: Engine)
    requires t.log == s.log
    ensures Base(t) == Base(s)
  {
  }

  // ------------------------------------------------------------ sweeps

  /** Dropping lapsed claims changes no parked endpoint's substitution, other than to none. */
  ghost predicate AliasesHold(idx: AliasIndex, now: Time, ps: seq<Pending>) {
    forall p :: p in ps ==> HoldsFor(idx, now, p.obs.src) && HoldsFor(idx, now, p.obs.dst)
  }

  predicate HoldsFor(idx: AliasIndex, now: Time, ident: Identity) {
    var swept := Substitute(Aliases.Sweep(idx, now), ident);
    swept == None || swept == Substitute(idx, ident)
  }

  /** In particular when no claim loses its last speaker. */
  lemma NothingVanishedHolds(idx: AliasIndex, now: Time, ps: seq<Pending>)
    requires Vanished(idx, now) == {}
    ensures AliasesHold(idx, now, ps)
  {
    SweepKeepsMeaning(idx, now);
    forall p | p in ps
      ensures HoldsFor(idx, now, p.obs.src) && HoldsFor(idx, now, p.obs.dst)
    {
      SameSubstitutes(idx, Aliases.Sweep(idx, now), p.obs.src);
      SameSubstitutes(idx, Aliases.Sweep(idx, now), p.obs.dst);
    }
  }

  lemma {:induction false} UnexpiredSubset(ps: seq<Pending>, now: Time)
    ensures forall p :: p in UnexpiredPending(ps, now) ==> p in ps && now <= p.deadline
    ensures forall p :: p in ps && now <= p.deadline ==> p in UnexpiredPending(ps, now)
    ensures |UnexpiredPending(ps, now)| <= |ps|
  {
    if ps != [] {
      var n := |ps| - 1;
      UnexpiredSubset(ps[..n], now);
      assert ps == ps[..n] + [ps[n]];
    }
  }

  /** After a sweep the identity has a live owner: one it had before and, if the sweep
      lands, one not wholly lapsed. */
  ghost predicate OwnedAfter(s: Engine, now: Time, lands: bool, i: Identity) {
    exists x: EntityId :: Owns(Base(s).live, x, i) && (lands ==> !AllLapsed(s.refs, x, now))
  }

  /** The endpoint, or what the surviving aliases make of it, has a live owner then. */
  ghost predicate ResolvesAfter(s: Engine, now: Time, lands: bool, ident: Identity) {
    || OwnedAfter(s, now, lands, ident)
    || match Substitute(Aliases.Sweep(s.aliases, now), ident)
       case Some(sub) => OwnedAfter(s, now, lands, sub)
       case None => false
  }

  /** The sweep leaves the parked edge waiting, and on identities it was already waiting on. */
  ghost predicate StaysAsleep(s: Engine, now: Time, lands: bool, p: Pending) {
    var waited, swept := WaitedHashes(s.aliases, UnexpiredPending(s.pending, now)), Aliases.Sweep(s.aliases, now);
    && (!ResolvesAfter(s, now, lands, p.obs.src) || !ResolvesAfter(s, now, lands, p.obs.dst))
    && EndpointHashes(swept, p.obs.src) <= waited && EndpointHashes(swept, p.obs.dst) <= waited
  }

  ghost predicate AllStayAsleep(s: Engine, now: Time, lands: bool) {
    forall p :: p in s.pending && now <= p.deadline ==> StaysAsleep(s, now, lands, p)
  }

  lemma OwnedAfterSweep(s: Engine, after: View, now: Time, lands: bool, i: Identity)
    requires if lands then SweptLive(s, Base(s).live, after, now) else after == Base(s).live
    ensures OwnedAfter(s, now, lands, i) <==> exists x: EntityId :: Owns(after, x, i)
  {
    hide Base, AllLapsed;
    if x: EntityId :| Owns(Base(s).live, x, i) && (lands ==> !AllLapsed(s.refs, x, now)) {
      assert Ent(x) in after;
      assert Owns(after, x, i);
    }
    if x: EntityId :| Owns(after, x, i) {
      assert Ent(x) in Base(s).live;
      assert Owns(Base(s).live, x, i);
    }
  }

  lemma ResolvesAfterSweep(s: Engine, after: View, now: Time, lands: bool, ident: Identity)
    requires if lands then SweptLive(s, Base(s).live, after, now) else after == Base(s).live
    ensures ResolvesAfter(s, now, lands, ident) <==> Resolvable(after, Aliases.Sweep(s.aliases, now), ident)
  {
    hide Base, SweptLive, OwnedAfter, Aliases.Sweep;
    OwnedAfterSweep(s, after, now, lands, ident);
    match Substitute(Aliases.Sweep(s.aliases, now), ident)
    case Some(sub) => OwnedAfterSweep(s, after, now, lands, sub);
    case None =>
  }

  /** A sweep leaves the parked edges asleep exactly when every unexpired one still lacks an
      owner for an endpoint, under the aliases left, and waits on no new identity. */
  lemma SweepAsleepIff(s: Engine, now: Time, ids: seq<EntityId>, rids: seq<RelationId>, lands: bool, was: Time)
    requires Sound(s) && s.st == NO_STAGED && SweepOrders(s, now, ids, rids) && Linked(Base(s).live)
    requires Asleep(s, Base(s).live, was) && was <= now
    ensures var t := ChangeEngine.Sweep(s, now, ids, rids, lands).e;
            Asleep(t, Base(t).live, now) <==> AllStayAsleep(s, now, lands)
  {
    hide Sound, SweepStaged, SweepOrders, Linked, Tally, FreshRefs, AllDistinct, Cur, Base, Waiting, EndpointHashes,
         WaitedHashes, UnexpiredPending, ResolvesAfter, Resolvable, SweptLive, Aliases.Sweep, ChangeEngine.Sweep;
    SweepExact(s, now, ids, rids, lands);
    var t := ChangeEngine.Sweep(s, now, ids, rids, lands).e;
    UnstagedCur(t);
    UnexpiredSubset(s.pending, now);
    SweepBooks(s, now, ids, rids, lands);
    forall p
      ensures Waiting(Base(t).live, t.aliases, p) <==>
              !ResolvesAfter(s, now, lands, p.obs.src) || !ResolvesAfter(s, now, lands, p.obs.dst)
    {
      WaitingAfter(s, Base(t).live, now, lands, p);
    }
  }

  lemma WaitingAfter(s: Engine, after: View, now: Time, lands: bool, p: Pending)
    requires if lands then SweptLive(s, Base(s).live, after, now) else after == Base(s).live
    ensures Waiting(after, Aliases.Sweep(s.aliases, now), p) <==>
            !ResolvesAfter(s, now, lands, p.obs.src) || !ResolvesAfter(s, now, lands, p.obs.dst)
  {
    hide Base, SweptLive, ResolvesAfter, Resolvable, Aliases.Sweep;
    ResolvesAfterSweep(s, after, now, lands, p.obs.src);
    ResolvesAfterSweep(s, after, now, lands, p.obs.dst);
  }

  /** In particular a sweep that keeps the aliases parked edges rest on -- also when its own
      append fails. */
  lemma SweepAsleep(s: Engine, now: Time, ids: seq<EntityId>, rids: seq<RelationId>, lands: bool, was: Time)
    requires Sound(s) && s.st == NO_STAGED && SweepOrders(s, now, ids, rids) && Linked(Base(s).live)
    requires Asleep(s, Base(s).live, was) && was <= now && AliasesHold(s.aliases, now, UnexpiredPending(s.pending, now))
    ensures var t := ChangeEngine.Sweep(s, now, ids, rids, lands).e; Asleep(t, Base(t).live, now)
  {
    hide Sound, SweepStaged, SweepOrders, Linked, Base, Waiting, EndpointHashes, WaitedHashes, HoldsFor,
         UnexpiredPending,
         ResolvesAfter, Aliases.Sweep, ChangeEngine.Sweep;
    SweepAsleepIff(s, now, ids, rids, lands, was);
    UnexpiredSubset(s.pending, now);
    WaitedCovers(s.aliases, UnexpiredPending(s.pending, now));
    forall p | p in s.pending && now <= p.deadline
      ensures StaysAsleep(s, now, lands, p)
    {
      HeldStaysAsleep(s, now, lands, p);
    }
  }

  lemma HeldStaysAsleep(s: Engine, now: Time, lands: bool, p: Pending)
    requires Waiting(Base(s).live, s.aliases, p) && HoldsFor(s.aliases, now, p.obs.src) &&
      HoldsFor(s.aliases, now, p.obs.dst)
    ensures !ResolvesAfter(s, now, lands, p.obs.src) || !ResolvesAfter(s, now, lands, p.obs.dst)
    ensures EndpointHashes(Aliases.Sweep(s.aliases, now), p.obs.src) <= EndpointHashes(s.aliases, p.obs.src)
    ensures EndpointHashes(Aliases.Sweep(s.aliases, now), p.obs.dst) <= EndpointHashes(s.aliases, p.obs.dst)
  {
    hide Base, Aliases.Sweep, Substitute;
  }

  lemma SweepBooks(s: Engine, now: Time, ids: seq<EntityId>, rids: seq<RelationId>, lands: bool)
    requires Sound(s) && SweepOrders(s, now, ids, rids)
    ensures var t := ChangeEngine.Sweep(s, now, ids, rids, lands).e;
            && t.aliases == Aliases.Sweep(s.aliases, now)
            && t.pending == UnexpiredPending(s.pending, now)
            && t.waited == (if s.pending == [] then s.waited else WaitedHashes(s.aliases, t.pending))
  {
    hide Sound, SweepStaged, SweepOrders;
    SweepStagedSound(s, now, ids, rids);
  }

  // ------------------------------------------------------------ runs

  /** A failed batch parks nothing the log could resolve, and a sweep lapses no alias a
      parked edge rests on. */
  ghost predicate Watchful(w: World, a: Act) {
    match a
    case DoBatch(ops, lands) =>
      var u := Unflushed(w.e, ops);
      lands || AllWaiting(Base(w.e).live, u.aliases, u.pending, Clock(w.clock, ops))
    case DoSweep(now, _, _, lands) => AllStayAsleep(w.e, now, lands)
    case _ => true
  }

  ghost predicate WorldAsleep(w: World) {
    Asleep(w.e, Base(w.e).live, w.clock)
  }

  lemma ActAsleepIff(w: World, a: Act)
    requires Good(w) && Legal(w, a) && WorldAsleep(w)
    ensures WorldAsleep(Acted(w, a)) <==> Watchful(w, a)
  {
    hide Asleep, AllStayAsleep, AllWaiting, Sound, Linked, P.Accounted, Timely, Named, Stored, SweepOrders, Forward;
    match a
    case DoBatch(ops, lands) => BatchAsleepIff(w.e, ops, lands, w.clock);
    case DoSweep(now, ids, rids, lands) => SweepAsleepIff(w.e, now, ids, rids, lands, w.clock);
    case DoRestart(_, _, _, _) => NoneAsleep(Acted(w, a).e, Acted(w, a).clock);
    case _ =>
      QuietAct(w, a);
      SamePendingAsleep(w.e, Acted(w, a).e, w.clock);
  }

  lemma SamePendingAsleep(s: Engine, t: Engine, now: Time)
    requires t == s.(log := t.log) && Base(t).live == Base(s).live && Asleep(s, Base(s).live, now)
    ensures Asleep(t, Base(t).live, now)
  {
    hide Base;
  }

  lemma NoneAsleep(s: Engine, now: Time)
    requires s.pending == []
    ensures Asleep(s, Base(s).live, now)
  {
  }

  /** Over every safe run: as long as every act is watchful, no unexpired parked edge has both
      its endpoints resolvable and the buffer is within its cap. */
  lemma {:induction false} NoLostWakeUps(ws: seq<World>, acts: seq<Act>, k: nat)
    requires SafeRun(ws, acts) && k < |ws| && forall j :: 0 <= j < k ==> Watchful(ws[j], acts[j])
    ensures WorldAsleep(ws[k])
  {
    hide Good, Legal, Acted, WorldAsleep, Watchful, Safe;
    if k == 0 {
      NewbornAsleep(ws[0]);
    } else {
      NoLostWakeUps(ws, acts, k - 1);
      RunGood(ws, acts, k - 1);
      ActAsleepIff(ws[k - 1], acts[k - 1]);
    }
  }

  lemma NewbornAsleep(w: World)
    requires exists limit, ttl, bufferTTL :: Newborn(w, limit, ttl, bufferTTL)
    ensures WorldAsleep(w)
  {
    NoneAsleep(w.e, w.clock);
  }

  /** ... and never otherwise: the run loses no wake-up exactly when every act is watchful. */
  lemma WakeUpsExact(ws: seq<World>, acts: seq<Act>)
    requires SafeRun(ws, acts)
    ensures (forall k :: 0 <= k < |ws| ==> WorldAsleep(ws[k])) <==>
            (forall j :: 0 <= j < |acts| ==> Watchful(ws[j], acts[j]))
  {
    hide Good, Legal, Acted, WorldAsleep, Watchful, Safe;
    if forall j :: 0 <= j < |acts| ==> Watchful(ws[j], acts[j]) {
      forall k | 0 <= k < |ws|
        ensures WorldAsleep(ws[k])
      {
        NoLostWakeUps(ws, acts, k);
      }
    }
    if forall k :: 0 <= k < |ws| ==> WorldAsleep(ws[k]) {
      forall j | 0 <= j < |acts|
        ensures Watchful(ws[j], acts[j])
      {
        RunGood(ws, acts, j);
        ActAsleepIff(ws[j], acts[j]);
        assert WorldAsleep(ws[j + 1]);
      }
    }
  }
}
