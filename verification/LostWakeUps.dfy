/** Exactly when a wake-up is lost. A parked edge waits on a set of identities; it is exposed
    when identities outside that set could complete it, for then a batch that lands can own
    them without the edge being looked at. As long as no unexpired edge is exposed no batch
    that lands loses one, and an exposed edge is lost by a batch of at most two observations. */
module LostWakeUps {
  import opened Model
  import opened EventLog
  import opened Aliases
  import opened ChangeEngine
  import opened Overlay
  import opened EngineSteps
  import opened EngineSweep
  import opened EngineAppends
  import opened EngineRuns
  import opened Survival
  import opened WakeUps
  import P = Projection

  /** The edge is parked and unexpired though both its endpoints resolve. */
  ghost predicate Lost(s: Engine, live: View, now: Time, p: Pending) {
    p in s.pending && now <= p.deadline && !Waiting(live, s.aliases, p)
  }

  /** The endpoint resolves, or could come to without the parked edges being scanned. */
  ghost predicate Open(s: Engine, live: View, ident: Identity) {
    Resolvable(live, s.aliases, ident) || !(EndpointHashes(s.aliases, ident) <= s.waited)
  }

  ghost predicate Exposed(s: Engine, live: View, p: Pending) {
    Open(s, live, p.obs.src) && Open(s, live, p.obs.dst)
  }

  ghost predicate NoneExposed(s: Engine, live: View, now: Time) {
    forall p :: p in s.pending && now <= p.deadline ==> !Exposed(s, live, p)
  }

  predicate Bounded(s: Engine) {
    |s.pending| <= MAX_PENDING
  }

  lemma UnexposedWaits(s: Engine, live: View, now: Time)
    requires NoneExposed(s, live, now)
    ensures AllWaiting(live, s.aliases, s.pending, now)
  {
  }

  /** Where every waited-on identity is indexed, only an edge that resolves is exposed. */
  lemma AsleepUnexposed(s: Engine, live: View, now: Time)
    requires Asleep(s, live, now)
    ensures NoneExposed(s, live, now) && Bounded(s)
  {
  }

  // ------------------------------------------------------------ operations

  lemma OpenedBefore(s: Engine, t: Engine, before: View, after: View, ident: Identity, arrived: Identity)
    requires t.waited == s.waited && t.aliases == s.aliases && arrived !in s.waited && Open(t, after, ident)
    requires forall x: EntityId, i :: Owns(after, x, i) ==> Owns(before, x, i) || i == arrived
    ensures Open(s, before, ident)
  {
  }

  /** The parked edges are the same, and at most one identity, not waited on, gained an owner. */
  lemma KeptUnexposed(s: Engine, t: Engine, before: View, after: View, was: Time, now: Time, arrived: Identity)
    requires NoneExposed(s, before, was) && was <= now && (s.pending != [] ==> arrived !in s.waited)
    requires t.pending == s.pending && t.waited == s.waited && t.aliases == s.aliases
    requires forall x: EntityId, i :: Owns(after, x, i) ==> Owns(before, x, i) || i == arrived
    ensures NoneExposed(t, after, now)
  {
    hide Open;
    forall p | p in t.pending && now <= p.deadline && Exposed(t, after, p)
      ensures Exposed(s, before, p)
    {
      OpenedBefore(s, t, before, after, p.obs.src, arrived);
      OpenedBefore(s, t, before, after, p.obs.dst, arrived);
    }
  }

  lemma OpenedEarlier(s: Engine, t: Engine, before: View, after: View, ident: Identity)
    requires t.waited == s.waited && t.aliases == s.aliases && Open(t, after, ident)
    requires forall x: EntityId, i :: Owns(after, x, i) ==> Owns(before, x, i)
    ensures Open(s, before, ident)
  {
  }

  lemma FewerOwnersUnexposed(s: Engine, t: Engine, before: View, after: View, was: Time, now: Time)
    requires NoneExposed(s, before, was) && was <= now
    requires t.pending == s.pending && t.waited == s.waited && t.aliases == s.aliases
    requires forall x: EntityId, i :: Owns(after, x, i) ==> Owns(before, x, i)
    ensures NoneExposed(t, after, now)
  {
    hide Open;
    forall p | p in t.pending && now <= p.deadline && Exposed(t, after, p)
      ensures Exposed(s, before, p)
    {
      OpenedEarlier(s, t, before, after, p.obs.src);
      OpenedEarlier(s, t, before, after, p.obs.dst);
    }
  }

  lemma SameEntitiesUnexposed(s: Engine, t: Engine, now: Time)
    requires NoneExposed(s, Cur(s).live, now) && SameEntities(Cur(s).live, Cur(t).live)
    requires t.pending == s.pending && t.waited == s.waited && t.aliases == s.aliases
    ensures NoneExposed(t, Cur(t).live, now)
  {
    hide Cur, NoneExposed;
    SameEntitiesOwners(Cur(s).live, Cur(t).live);
    FewerOwnersUnexposed(s, t, Cur(s).live, Cur(t).live, now, now);
  }

  lemma ObserveEntityUnexposed(s: Engine, obs: EntityObs, was: Time, now: Time)
    requires Sound(s) && Bounded(s) && NoneExposed(s, Cur(s).live, was) && was <= now
    ensures var t := ObserveEntityOp(s, obs, now); NoneExposed(t, Cur(t).live, now) && Bounded(t)
  {
    hide Sound, FlushPending, Cur, Target, NoneExposed, Asleep;
    AssertEntitySound(s, obs, now);
    var s1 := AssertEntity(s, obs, now);
    if s1.pending != [] && obs.ident in s1.waited {
      FlushedAsleep(s1, now);
      AsleepUnexposed(FlushPending(s1, now), Cur(FlushPending(s1, now)).live, now);
    } else {
      var (id, ct, next) := Target(s, obs, now);
      PutOwners(Cur(s).live, EntityEventOf(ct, id, obs, now), obs.ident);
      KeptUnexposed(s, s1, Cur(s).live, Cur(s1).live, was, now, obs.ident);
    }
  }

  lemma RecordAliasUnexposed(s: Engine, obs: RelationObs, now: Time)
    requires Sound(s) && Bounded(s) && NoneExposed(s, Cur(s).live, now)
    ensures var t := RecordAlias(s, obs, now); NoneExposed(t, Cur(t).live, now) && Bounded(t)
  {
    hide Sound, FlushPending, Cur, Asleep, Exposed;
    match (ClaimOf(obs), AliasDeadline(obs, now))
    case (Some(claim), Some(d)) =>
      var s1 := s.(aliases := Record(s.aliases, claim, Key(s, obs.producer), Ref(d, 0)));
      SameCoreSound(s, s1);
      var s2 := SetPending(s1, s1.pending);
      SameCoreSound(s1, s2);
      FlushedAsleep(s2, now);
      AsleepUnexposed(FlushPending(s2, now), Cur(FlushPending(s2, now)).live, now);
    case _ =>
  }

  lemma ParkUnexposed(s: Engine, obs: RelationObs, now: Time)
    requires Sound(s) && Bounded(s) && NoneExposed(s, Cur(s).live, now) && ResolveEnds(s, obs).EndpointMissing?
    ensures var t := Park(s, obs, now); NoneExposed(t, Cur(t).live, now) && Bounded(t)
  {
    hide Sound, Cur, ResolveEnds, Hold, NoneExposed, WaitedHashes, Waiting;
    UnexposedWaits(s, Cur(s).live, now);
    EndsAreLive(s, obs);
    MissingWaits(s, obs);
    var t := Park(s, obs, now);
    SameCoreSound(s, t);
    WaitedCovers(s.aliases, t.pending);
    forall p | p in t.pending
      ensures p in s.pending || p.obs == obs
    {
    }
    AsleepUnexposed(t, Cur(t).live, now);
  }

  lemma MissingWaits(s: Engine, obs: RelationObs)
    requires Sound(s) && ResolveEnds(s, obs).EndpointMissing?
    ensures forall p: Pending :: p.obs == obs ==> Waiting(Cur(s).live, s.aliases, p)
  {
    hide Sound, Cur, ResolveEnds;
    EndsAreLive(s, obs);
  }

  lemma ObserveRelationUnexposed(s: Engine, obs: RelationObs, now: Time)
    requires Sound(s) && Bounded(s) && NoneExposed(s, Cur(s).live, now)
    ensures var t := ObserveRelationOp(s, obs, now); NoneExposed(t, Cur(t).live, now) && Bounded(t)
  {
    hide Sound, RecordAlias, AssertRelation, ResolveEnds, Park, Cur, NoneExposed;
    RecordAliasKeeps(s, obs, now);
    RecordAliasUnexposed(s, obs, now);
    var s1 := if obs.typ == SAME_AS then RecordAlias(s, obs, now) else s;
    EndsAreLive(s1, obs);
    match ResolveEnds(s1, obs)
    case Ends(src, dst) =>
      AssertRelationKeeps(s1, obs, src, dst, now);
      SameEntitiesUnexposed(s1, AssertRelation(s1, obs, src, dst, now), now);
    case EndpointsCollapsed =>
    case EndpointMissing => ParkUnexposed(s1, obs, now);
  }

  lemma LaterUnexposed(s: Engine, live: View, was: Time, now: Time)
    requires NoneExposed(s, live, was) && was <= now
    ensures NoneExposed(s, live, now)
  {
    hide Exposed;
  }

  lemma StepUnexposed(s: Engine, op: Op, was: Time, now: Time)
    requires Sound(s) && Bounded(s) && NoneExposed(s, Cur(s).live, was) && was <= now
    ensures var t := Step(s, op, now); NoneExposed(t, Cur(t).live, now) && Bounded(t)
  {
    hide Sound, NoneExposed, Cur;
    LaterUnexposed(s, Cur(s).live, was, now);
    match op
    case SetScope(scope) =>
      var t := s.(st := s.st.(scope := scope));
      SameCoreSound(s, t);
      SameEntitiesUnexposed(s, t, now);
    case ObserveEntity(obs) => ObserveEntityUnexposed(s, obs, was, now);
    case DeleteEntity(obs) =>
      DeleteOwners(s, obs, now);
      FewerOwnersUnexposed(s, DeleteEntityOp(s, obs, now), Cur(s).live, Cur(DeleteEntityOp(s, obs, now)).live, now,
        now);
    case ObserveRelation(obs) => ObserveRelationUnexposed(s, obs, now);
    case RemoveRelation(obs) =>
      RemoveRelationAlone(s, obs, now);
      RemoveRelationFrames(s, obs, now);
      SameEntitiesUnexposed(s, RemoveRelationOp(s, obs, now), now);
  }

  lemma {:induction false} StepsUnexposed(s: Engine, ops: seq<Timed>, was: Time)
    requires Sound(s) && Bounded(s) && NoneExposed(s, Cur(s).live, was) && Forward(was, ops)
    ensures var t := Steps(s, ops); NoneExposed(t, Cur(t).live, Clock(was, ops)) && Bounded(t)
  {
    hide Sound, NoneExposed, Cur, Step;
    if ops != [] {
      var n := |ops| - 1;
      StepsUnexposed(s, ops[..n], was);
      StepsKeep(s, ops[..n]);
      StepUnexposed(Steps(s, ops[..n]), ops[n].op, Clock(was, ops[..n]), ops[n].now);
    }
  }

  // ------------------------------------------------------------ batches

  /** A landed batch exposes nothing that was not exposed. A failed one leaves nothing exposed
      exactly when nothing it has parked is exposed over what the log holds. */
  lemma BatchUnexposedIff(s: Engine, ops: seq<Timed>, lands: bool, was: Time)
    requires Sound(s) && s.st == NO_STAGED && Bounded(s) && NoneExposed(s, Base(s).live, was) && Forward(was, ops)
    ensures var t, u := Batch(s, ops, lands), Unflushed(s, ops);
            && Bounded(t)
            && (NoneExposed(t, Base(t).live, Clock(was, ops)) <==>
                  lands || NoneExposed(u, Base(s).live, Clock(was, ops)))
  {
    hide Sound, Cur, Base, Steps, Exposed, Linked, Counted;
    assert s.(st := NO_STAGED) == s;
    UnstagedCur(s);
    StepsUnexposed(s, ops, was);
    StepsKeep(s, ops);
    var u := Steps(s, ops);
    FlushSound(u, lands);
    var t := Flush(u, lands);
    UnstagedCur(t);
    SameLogBase(s, u);
    SameExposure(u, t, Base(t).live, Clock(was, ops));
  }

  lemma SameExposure(s: Engine, t: Engine, live: View, now: Time)
    requires t.pending == s.pending && t.waited == s.waited && t.aliases == s.aliases
    ensures NoneExposed(s, live, now) <==> NoneExposed(t, live, now)
  {
    hide EndpointHashes, Resolvable;
    forall p
      ensures Exposed(s, live, p) <==> Exposed(t, live, p)
    {
    }
  }

  // ------------------------------------------------------------ an exposed edge is lost

  function Sighting(i: Identity, now: Time): Timed {
    Timed(ObserveEntity(EntityObs(i, map[], [], now, 0, [])), now)
  }

  /** Observing an identity nobody waits on gives it an owner and leaves the parked edges be. */
  lemma UnseenSighting(s: Engine, i: Identity, now: Time)
    requires Sound(s) && i !in s.waited
    ensures var t := Step(s, Sighting(i, now).op, now);
            && Sound(t) && t.pending == s.pending && t.waited == s.waited && t.aliases == s.aliases
            && OwnersKept(Cur(s).live, Cur(t).live) && exists x: EntityId :: Owns(Cur(t).live, x, i)
  {
    hide Sound, Cur, Target, FlushPending, Linked, Counted;
    var obs := EntityObs(i, map[], [], now, 0, []);
    AssertEntitySound(s, obs, now);
    ObserveKeepsOwners(s, obs, now);
    var (id, ct, next) := Target(s, obs, now);
    assert Owns(Cur(AssertEntity(s, obs, now)).live, id, i);
  }

  /** The sighting that opens an endpoint, unless it resolves already. */
  ghost function Opening(s: Engine, live: View, ident: Identity, now: Time): seq<Timed>
    requires Open(s, live, ident)
  {
    if Resolvable(live, s.aliases, ident) then []
    else
      var h :| h in EndpointHashes(s.aliases, ident) && h !in s.waited;
      [Sighting(h, now)]
  }

  lemma KeptResolvable(a: View, b: View, idx: AliasIndex, ident: Identity)
    requires OwnersKept(a, b) && Resolvable(a, idx, ident)
    ensures Resolvable(b, idx, ident)
  {
  }

  lemma OwnedHashResolves(live: View, idx: AliasIndex, ident: Identity, h: Identity)
    requires h in EndpointHashes(idx, ident) && exists x: EntityId :: Owns(live, x, h)
    ensures Resolvable(live, idx, ident)
  {
  }

  lemma OneStep(s: Engine, a: Timed)
    ensures Steps(s, [a]) == Step(s, a.op, a.now) && Steps(s, []) == s
  {
    hide Step;
    assert [a][..0] == [];
  }

  /** Its sighting, if any, resolves the endpoint, and wakes nothing. */
  lemma OpeningResolves(s: Engine, u: Engine, live: View, ident: Identity, now: Time)
    requires Open(s, live, ident) && OwnersKept(live, Cur(u).live) && Sound(u)
    requires u.pending == s.pending && u.waited == s.waited && u.aliases == s.aliases
    ensures var t := Steps(u, Opening(s, live, ident, now));
            && Sound(t) && t.pending == s.pending && t.waited == s.waited && t.aliases == s.aliases
            && OwnersKept(Cur(u).live, Cur(t).live) && Resolvable(Cur(t).live, t.aliases, ident)
  {
    hide Sound, Cur, Step, EndpointHashes, Resolvable;
    var ops := Opening(s, live, ident, now);
    if ops == [] {
      OneStep(u, Sighting(ident, now));
      KeptResolvable(live, Cur(u).live, s.aliases, ident);
    } else {
      var h := ops[0].op.entity.ident;
      OneStep(u, Sighting(h, now));
      UnseenSighting(u, h, now);
      OwnedHashResolves(Cur(Steps(u, ops)).live, s.aliases, ident, h);
    }
  }

  lemma {:induction false} StepsConcat(s: Engine, a: seq<Timed>, b: seq<Timed>)
    ensures Steps(s, a + b) == Steps(Steps(s, a), b)
  {
    hide Step;
    if b == [] {
      assert a + b == a;
    } else {
      var n := |b| - 1;
      assert (a + b)[..|a| + n] == a + b[..n];
      StepsConcat(s, a, b[..n]);
    }
  }

  /** At most two sightings, at now, that complete an exposed edge. */
  ghost function Completing(s: Engine, live: View, p: Pending, now: Time): seq<Timed>
    requires Exposed(s, live, p)
  {
    Opening(s, live, p.obs.src, now) + Opening(s, live, p.obs.dst, now)
  }

  lemma CompletingForward(s: Engine, live: View, p: Pending, was: Time, now: Time)
    requires Exposed(s, live, p) && was <= now
    ensures var ops := Completing(s, live, p, now);
            |ops| <= 2 && Forward(was, ops) && (ops != [] ==> Clock(was, ops) == now)
  {
    hide Open, Opening;
    OpeningIs(s, live, p.obs.src, now);
    OpeningIs(s, live, p.obs.dst, now);
    var ops := Completing(s, live, p, now);
    AllAtNow(was, now, ops);
  }

  lemma OpeningIs(s: Engine, live: View, ident: Identity, now: Time)
    requires Open(s, live, ident)
    ensures var ops := Opening(s, live, ident, now); |ops| <= 1 && (ops != [] ==> ops[0].now == now)
  {
  }

  lemma {:induction false} AllAtNow(was: Time, now: Time, ops: seq<Timed>)
    requires was <= now && forall k :: 0 <= k < |ops| ==> ops[k].now == now
    ensures Forward(was, ops) && (ops != [] ==> Clock(was, ops) == now)
  {
    if ops != [] {
      AllAtNow(was, now, ops[..|ops| - 1]);
    }
  }

  /** An exposed edge is lost by one batch that lands, of at most two observations. */
  lemma ExposedIsLost(s: Engine, p: Pending, now: Time)
    requires Sound(s) && s.st == NO_STAGED && p in s.pending && now <= p.deadline && Exposed(s, Base(s).live, p)
    ensures var t := Batch(s, Completing(s, Base(s).live, p, now), true); Lost(t, Base(t).live, now, p)
  {
    hide Sound, Cur, Base, Opening, Open, Steps, Linked, Counted;
    var live := Base(s).live;
    var a, b := Opening(s, live, p.obs.src, now), Opening(s, live, p.obs.dst, now);
    assert s.(st := NO_STAGED) == s;
    UnstagedCur(s);
    OpeningResolves(s, s, live, p.obs.src, now);
    var u := Steps(s, a);
    OpeningResolves(s, u, live, p.obs.dst, now);
    StepsConcat(s, a, b);
    var v := Steps(u, b);
    KeptResolvable(Cur(u).live, Cur(v).live, s.aliases, p.obs.src);
    FlushSound(v, true);
    UnstagedCur(Flush(v, true));
  }

  /** No batch that lands next loses a wake-up. */
  ghost predicate LosesNone(s: Engine, now: Time) {
    forall ops, p :: Forward(now, ops) ==> !LostBy(s, ops, now, p)
  }

  ghost predicate LostBy(s: Engine, ops: seq<Timed>, now: Time, p: Pending) {
    var t := Batch(s, ops, true); Lost(t, Base(t).live, Clock(now, ops), p)
  }

  /** No batch that lands, the empty one included, loses a wake-up exactly when no unexpired
      parked edge is exposed. */
  lemma LosesNoneIff(s: Engine, now: Time)
    requires Sound(s) && s.st == NO_STAGED && Bounded(s)
    ensures LosesNone(s, now) <==> NoneExposed(s, Base(s).live, now)
  {
    hide Sound, Base, Exposed, Batch, Lost, Completing;
    if NoneExposed(s, Base(s).live, now) {
      forall ops, p | Forward(now, ops)
        ensures !LostBy(s, ops, now, p)
      {
        LandedLosesNone(s, ops, now, p);
      }
    }
    if p :| p in s.pending && now <= p.deadline && Exposed(s, Base(s).live, p) {
      var ops := Completing(s, Base(s).live, p, now);
      CompletingForward(s, Base(s).live, p, now, now);
      ExposedIsLost(s, p, now);
      assert LostBy(s, ops, now, p) by {
        assert Clock(now, ops) == now;
      }
    }
  }

  lemma LandedLosesNone(s: Engine, ops: seq<Timed>, now: Time, p: Pending)
    requires Sound(s) && s.st == NO_STAGED && Bounded(s) && NoneExposed(s, Base(s).live, now) && Forward(now, ops)
    ensures !LostBy(s, ops, now, p)
  {
    hide Sound, Base, Exposed, Batch, Waiting, Steps;
    BatchUnexposedIff(s, ops, true, now);
    var t := Batch(s, ops, true);
    UnexposedWaits(t, Base(t).live, Clock(now, ops));
  }

  // ------------------------------------------------------------ sweeps

  /** Whatever the state, a sweep leaves no edge lost exactly when no unexpired parked edge has
      both endpoints owned afterwards, under the aliases left. */
  lemma SweepWaitingIff(s: Engine, now: Time, ids: seq<EntityId>, rids: seq<RelationId>, lands: bool)
    requires Sound(s) && s.st == NO_STAGED && SweepOrders(s, now, ids, rids) && Linked(Base(s).live)
    ensures var t := ChangeEngine.Sweep(s, now, ids, rids, lands).e;
            AllWaiting(Base(t).live, t.aliases, t.pending, now) <==>
            forall p :: p in s.pending && now <= p.deadline ==>
              !(ResolvesAfter(s, now, lands, p.obs.src) && ResolvesAfter(s, now, lands, p.obs.dst))
  {
    hide Sound, SweepStaged, SweepOrders, Linked, Tally, FreshRefs, AllDistinct, Cur, Base, Waiting, WaitedHashes,
         UnexpiredPending, ResolvesAfter, SweptLive, Aliases.Sweep, ChangeEngine.Sweep;
    SweepExact(s, now, ids, rids, lands);
    var t := ChangeEngine.Sweep(s, now, ids, rids, lands).e;
    UnstagedCur(t);
    UnexpiredSubset(s.pending, now);
    SweepBooks(s, now, ids, rids, lands);
    forall p
      ensures Waiting(Base(t).live, t.aliases, p) <==>
              !ResolvesAfter(s, now, lands, p.obs.src) || !ResolvesAfter(s, now, lands, p.obs.dst)
    {
      WaitingAfter(s, Base(t).live, now, lands, p);
    }
  }

  /** After a sweep the endpoint resolves, or the aliases left wait on something new. */
  ghost predicate OpenAfter(s: Engine, now: Time, lands: bool, ident: Identity) {
    || ResolvesAfter(s, now, lands, ident)
    || !(EndpointHashes(Aliases.Sweep(s.aliases, now), ident) <= WaitedHashes(s.aliases,
      UnexpiredPending(s.pending, now)))
  }

  ghost predicate NoneOpened(s: Engine, now: Time, lands: bool) {
    forall p :: p in s.pending && now <= p.deadline ==>
      !(OpenAfter(s, now, lands, p.obs.src) && OpenAfter(s, now, lands, p.obs.dst))
  }

  lemma OpenAfterSweep(s: Engine, t: Engine, now: Time, lands: bool, ident: Identity)
    requires if lands then SweptLive(s, Base(s).live, Base(t).live, now) else Base(t).live == Base(s).live
    requires t.aliases == Aliases.Sweep(s.aliases, now)
    requires t.waited == WaitedHashes(s.aliases, UnexpiredPending(s.pending, now))
    ensures Open(t, Base(t).live, ident) <==> OpenAfter(s, now, lands, ident)
  {
    hide Base, SweptLive, ResolvesAfter, Resolvable, Aliases.Sweep, EndpointHashes, WaitedHashes;
    ResolvesAfterSweep(s, Base(t).live, now, lands, ident);
  }

  /** Whatever the state, a sweep leaves none exposed exactly under this condition on it. */
  lemma SweepUnexposedIff(s: Engine, now: Time, ids: seq<EntityId>, rids: seq<RelationId>, lands: bool)
    requires Sound(s) && s.st == NO_STAGED && SweepOrders(s, now, ids, rids) && Linked(Base(s).live)
    ensures var t := ChangeEngine.Sweep(s, now, ids, rids, lands).e;
            && (NoneExposed(t, Base(t).live, now) <==> NoneOpened(s, now, lands)) && |t.pending| <= |s.pending|
  {
    hide Sound, SweepStaged, SweepOrders, Linked, Tally, FreshRefs, AllDistinct, Cur, Base, Open, OpenAfter,
         WaitedHashes,
         UnexpiredPending, SweptLive, Aliases.Sweep, ChangeEngine.Sweep;
    SweepExact(s, now, ids, rids, lands);
    var t := ChangeEngine.Sweep(s, now, ids, rids, lands).e;
    UnstagedCur(t);
    UnexpiredSubset(s.pending, now);
    SweepBooks(s, now, ids, rids, lands);
    if s.pending != [] {
      forall p
        ensures Exposed(t, Base(t).live, p) <==>
                OpenAfter(s, now, lands, p.obs.src) && OpenAfter(s, now, lands, p.obs.dst)
      {
        OpenAfterSweep(s, t, now, lands, p.obs.src);
        OpenAfterSweep(s, t, now, lands, p.obs.dst);
      }
    }
  }

  // ------------------------------------------------------------ runs

  /** A failed batch parks nothing exposed over the log, a sweep exposes nothing. */
  ghost predicate Mindful(w: World, a: Act) {
    match a
    case DoBatch(ops, lands) => lands || NoneExposed(Unflushed(w.e, ops), Base(w.e).live, Clock(w.clock, ops))
    case DoSweep(now, _, _, lands) => NoneOpened(w.e, now, lands)
    case _ => true
  }

  ghost predicate Guarded(w: World) {
    NoneExposed(w.e, Base(w.e).live, w.clock) && Bounded(w.e)
  }

  lemma ActGuardedIff(w: World, a: Act)
    requires Good(w) && Legal(w, a) && Guarded(w)
    ensures Guarded(Acted(w, a)) <==> Mindful(w, a)
  {
    hide NoneExposed, NoneOpened, Sound, Linked, P.Accounted, Timely, Named, Stored, SweepOrders, Forward;
    match a
    case DoBatch(ops, lands) => BatchUnexposedIff(w.e, ops, lands, w.clock);
    case DoSweep(now, ids, rids, lands) => SweepUnexposedIff(w.e, now, ids, rids, lands);
    case DoRestart(_, _, _, _) => NoneParkedUnexposed(Acted(w, a));
    case _ =>
      QuietAct(w, a);
      SameExposure(w.e, Acted(w, a).e, Base(w.e).live, w.clock);
  }

  lemma NoneParkedUnexposed(w: World)
    requires w.e.pending == []
    ensures Guarded(w)
  {
  }

  lemma {:induction false} MindfulGuards(ws: seq<World>, acts: seq<Act>, k: nat)
    requires SafeRun(ws, acts) && k < |ws| && forall j :: 0 <= j < k ==> Mindful(ws[j], acts[j])
    ensures Guarded(ws[k])
  {
    hide Good, Legal, Acted, Guarded, Mindful, Safe;
    if k == 0 {
      var limit, ttl, bufferTTL :| Newborn(ws[0], limit, ttl, bufferTTL);
      NoneParkedUnexposed(ws[0]);
    } else {
      MindfulGuards(ws, acts, k - 1);
      RunGood(ws, acts, k - 1);
      ActGuardedIff(ws[k - 1], acts[k - 1]);
    }
  }

  /** At this point no batch that lands next, the empty one included, loses a wake-up. */
  ghost predicate Wakeful(w: World) {
    LosesNone(w.e, w.clock)
  }

  lemma {:induction false} WakefulGuards(ws: seq<World>, acts: seq<Act>, k: nat)
    requires SafeRun(ws, acts) && k < |ws| && forall j :: 0 <= j <= k ==> Wakeful(ws[j])
    ensures Guarded(ws[k]) && forall j :: 0 <= j < k ==> Mindful(ws[j], acts[j])
  {
    hide Good, Legal, Acted, Guarded, Mindful, Safe, Wakeful;
    if k == 0 {
      var limit, ttl, bufferTTL :| Newborn(ws[0], limit, ttl, bufferTTL);
      NoneParkedUnexposed(ws[0]);
    } else {
      WakefulGuards(ws, acts, k - 1);
      RunGood(ws, acts, k - 1);
      RunGood(ws, acts, k);
      ActBounded(ws[k - 1], acts[k - 1]);
      WakefulGuarded(ws[k]);
      ActGuardedIff(ws[k - 1], acts[k - 1]);
    }
  }

  lemma WakefulGuarded(w: World)
    requires Good(w) && Wakeful(w) && Bounded(w.e)
    ensures Guarded(w)
  {
    hide Sound, LosesNone, NoneExposed, Linked, P.Accounted, Timely, Named, Stored;
    LosesNoneIff(w.e, w.clock);
  }

  lemma GuardedWakeful(w: World)
    requires Good(w) && Guarded(w)
    ensures Wakeful(w)
  {
    hide Sound, LosesNone, NoneExposed, Linked, P.Accounted, Timely, Named, Stored;
    LosesNoneIff(w.e, w.clock);
  }

  lemma ActBounded(w: World, a: Act)
    requires Good(w) && Legal(w, a) && Guarded(w)
    ensures Bounded(Acted(w, a).e)
  {
    hide NoneExposed, Sound, Linked, P.Accounted, Timely, Named, Stored, SweepOrders, Forward, NoneOpened;
    match a
    case DoBatch(ops, lands) => BatchUnexposedIff(w.e, ops, lands, w.clock);
    case DoSweep(now, ids, rids, lands) => SweepUnexposedIff(w.e, now, ids, rids, lands);
    case DoRestart(_, _, _, _) =>
    case _ => QuietAct(w, a);
  }

  /** Over a safe run, at no point is a wake-up lost or can a batch that lands lose one,
      exactly when every act is mindful. */
  lemma WakefulExact(ws: seq<World>, acts: seq<Act>)
    requires SafeRun(ws, acts)
    ensures (forall k :: 0 <= k < |ws| ==> Wakeful(ws[k])) <==>
            (forall j :: 0 <= j < |acts| ==> Mindful(ws[j], acts[j]))
  {
    hide Good, Legal, Acted, Guarded, Mindful, Safe, Wakeful;
    if forall j :: 0 <= j < |acts| ==> Mindful(ws[j], acts[j]) {
      forall k | 0 <= k < |ws|
        ensures Wakeful(ws[k])
      {
        MindfulGuards(ws, acts, k);
        RunGood(ws, acts, k);
        GuardedWakeful(ws[k]);
      }
    }
    if forall k :: 0 <= k < |ws| ==> Wakeful(ws[k]) {
      WakefulGuards(ws, acts, |acts|);
    }
  }
}
