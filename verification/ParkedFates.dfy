/** What becomes of a parked edge: over every run it is still parked, or it expired, was given
    up for room, had its endpoints collapse, was asserted in the log, was woken in a batch whose
    append then failed -- and is lost -- or was parked before a restart. */
module ParkedFates {
  import opened Model
  import opened EventLog
  import opened Aliases
  import opened SpeakerKeys
  import opened ChangeEngine
  import opened Overlay
  import opened EngineSteps
  import opened EngineSweep
  import opened EngineAppends
  import opened EngineRuns
  import opened Survival
  import opened EdgeSurvival
  import opened EngineMeaning
  import opened WakeUps
  import P = Projection

  // ------------------------------------------------------------ one retry

  function SpeakerOf(p: Pending): Speaker {
    Speaker(p.obs.producer, p.scope)
  }

  /** The edge is live and the speaker references it. */
  ghost predicate Credited(s: Engine, r: RelationId, sp: Speaker) {
    Rel(r) in Cur(s).live && r in s.relRefs && KeyOf(sp) in s.relRefs[r]
  }

  lemma AssertKeepsCredit(s: Engine, obs: RelationObs, src: EntityId, dst: EntityId, now: Time, r: RelationId,
                          sp: Speaker)
    requires Sound(s) && Ent(src) in Cur(s).live && Ent(dst) in Cur(s).live && Credited(s, r, sp)
    ensures Credited(AssertRelation(s, obs, src, dst, now), r, sp)
  {
    hide Sound, Cur;
    AssertRelationSound(s, obs, src, dst, now);
  }

  lemma SameCoreCredit(s: Engine, t: Engine, r: RelationId, sp: Speaker)
    requires Sound(s) && SameCore(s, t) && t.relRefs == s.relRefs
    ensures Credited(t, r, sp) <==> Credited(s, r, sp)
  {
    hide Sound;
    SameCoreSound(s, t);
  }

  lemma RetryKeepsCredit(s: Engine, q: Pending, now: Time, r: RelationId, sp: Speaker)
    requires Sound(s) && Credited(s, r, sp)
    ensures Credited(Retry(s, q, now).0, r, sp)
  {
    hide Sound, AssertRelation, ResolveEnds, Credited;
    if now <= q.deadline && ResolveEnds(s, q.obs).Ends? {
      EndsAreLive(s, q.obs);
      var e := ResolveEnds(s, q.obs);
      var s0 := s.(st := s.st.(scope := q.scope));
      SameCoreSound(s, s0);
      SameCoreCredit(s, s0, r, sp);
      AssertKeepsCredit(s0, q.obs, e.src, e.dst, now, r, sp);
      AssertRelationKeeps(s0, q.obs, e.src, e.dst, now);
      var s1 := AssertRelation(s0, q.obs, e.src, e.dst, now);
      SameCoreCredit(s1, s1.(st := s1.st.(scope := s.st.scope)), r, sp);
    }
  }

  lemma RetryCredits(s: Engine, p: Pending, now: Time)
    requires Sound(s) && now <= p.deadline && ResolveEnds(s, p.obs).Ends?
    ensures var e := ResolveEnds(s, p.obs);
            Credited(Retry(s, p, now).0, RelationId(p.obs.typ, e.src, e.dst), SpeakerOf(p))
  {
    hide Sound, ResolveEnds, Retry, EdgeRef;
    ParkedEdgeCredited(s, p, now);
  }

  /** An unexpired edge that resolves when the scan begins is credited when it ends. */
  lemma {:induction false} RetryAllCredits(s: Engine, ps: seq<Pending>, now: Time, p: Pending)
    requires Sound(s) && p in ps && now <= p.deadline && ResolveEnds(s, p.obs).Ends?
    ensures var e := ResolveEnds(s, p.obs);
            Credited(RetryAll(s, ps, now).0, RelationId(p.obs.typ, e.src, e.dst), SpeakerOf(p))
  {
    hide Sound, ResolveEnds, Retry, Credited, KeepsAll;
    var n := |ps| - 1;
    assert ps == ps[..n] + [ps[n]];
    RetryAllKeeps(s, ps[..n], now);
    var s1, e := RetryAll(s, ps[..n], now).0, ResolveEnds(s, p.obs);
    KeptSound(s, s1);
    if p in ps[..n] {
      RetryAllCredits(s, ps[..n], now, p);
      RetryKeepsCredit(s1, ps[n], now, RelationId(p.obs.typ, e.src, e.dst), SpeakerOf(p));
    } else {
      SameResolution(s, s1, p.obs);
      RetryCredits(s1, p, now);
    }
  }

  lemma KeptSound(s: Engine, t: Engine)
    requires KeepsAll(s, t)
    ensures Sound(t) && SameEntities(Cur(s).live, Cur(t).live) && t.aliases == s.aliases
  {
    hide Sound, Cur;
  }

  // ------------------------------------------------------------ one operation

  /** The state in which the operation, having recorded an alias if it does, may park. */
  function Parking(s: Engine, op: Op, now: Time): Engine {
    if op.ObserveRelation? && op.relation.typ == SAME_AS then RecordAlias(s, op.relation, now) else s
  }

  ghost predicate Evicted(s: Engine, p: Pending) {
    |s.pending| >= MAX_PENDING && s.pending[0] == p
  }

  /** The edge, resolved where the operation resolves, is credited after it. */
  ghost predicate Woken(s: Engine, op: Op, now: Time, p: Pending, r: RelationId) {
    About(Resolving(s, op, now), p.obs, r) && Credited(Step(s, op, now), r, SpeakerOf(p))
  }

  /** How an operation can take an edge out of the buffer. */
  ghost predicate Taken(s: Engine, op: Op, now: Time, p: Pending) {
    || now > p.deadline
    || Evicted(Parking(s, op, now), p)
    || ResolveEnds(Resolving(s, op, now), p.obs).EndpointsCollapsed?
    || exists r :: Woken(s, op, now, p, r)
  }

  /** A scan drops an edge only when it has expired or its endpoints resolve, to two entities,
      which credits it, or to one. */
  lemma FlushTakes(s: Engine, now: Time, p: Pending)
    requires Sound(s) && p in s.pending && p !in FlushPending(s, now).pending && now <= p.deadline
    ensures ResolveEnds(s, p.obs).Ends? || ResolveEnds(s, p.obs).EndpointsCollapsed?
    ensures ResolveEnds(s, p.obs).Ends? ==>
              Credited(FlushPending(s, now), RelationId(p.obs.typ, ResolveEnds(s, p.obs).src,
                ResolveEnds(s, p.obs).dst),
                       SpeakerOf(p))
  {
    hide Sound, ResolveEnds, RetryAll, Credited, KeepsAll;
    RetryAllKeeps(s, s.pending, now);
    EndsAreLive(s, p.obs);
    var (s1, kept) := RetryAll(s, s.pending, now);
    KeptSound(s, s1);
    if ResolveEnds(s, p.obs).Ends? {
      RetryAllCredits(s, s.pending, now, p);
      var e := ResolveEnds(s, p.obs);
      SameCoreCredit(s1, SetPending(s1, kept), RelationId(p.obs.typ, e.src, e.dst), SpeakerOf(p));
    }
  }

  lemma ObserveEntityTakes(s: Engine, obs: EntityObs, now: Time, p: Pending)
    requires Sound(s) && p in s.pending && p !in ObserveEntityOp(s, obs, now).pending
    ensures Taken(s, ObserveEntity(obs), now, p)
  {
    hide Sound, FlushPending, Target, ResolveEnds, Credited;
    AssertEntitySound(s, obs, now);
    var s1 := AssertEntity(s, obs, now);
    if now <= p.deadline {
      FlushTakes(s1, now, p);
      WokenBy(s, ObserveEntity(obs), now, p);
    }
  }

  /** Resolving to two entities and credited: woken. */
  lemma WokenBy(s: Engine, op: Op, now: Time, p: Pending)
    requires var e := ResolveEnds(Resolving(s, op, now), p.obs);
             e.Ends? ==> Credited(Step(s, op, now), RelationId(p.obs.typ, e.src, e.dst), SpeakerOf(p))
    requires !ResolveEnds(Resolving(s, op, now), p.obs).EndpointMissing?
    ensures Taken(s, op, now, p)
  {
    hide Step, Resolving, ResolveEnds, Credited;
    var e := ResolveEnds(Resolving(s, op, now), p.obs);
    if e.Ends? {
      assert Woken(s, op, now, p, RelationId(p.obs.typ, e.src, e.dst));
    }
  }

  lemma RecordAliasTakes(s: Engine, obs: RelationObs, now: Time, p: Pending)
    requires Sound(s) && obs.typ == SAME_AS && p in s.pending && p !in RecordAlias(s, obs, now).pending &&
      now <= p.deadline
    ensures var m := Resolving(s, ObserveRelation(obs), now);
            && (ResolveEnds(m, p.obs).Ends? || ResolveEnds(m, p.obs).EndpointsCollapsed?)
            && (ResolveEnds(m, p.obs).Ends? ==>
                  Credited(RecordAlias(s, obs, now),
                           RelationId(p.obs.typ, ResolveEnds(m, p.obs).src, ResolveEnds(m, p.obs).dst), SpeakerOf(p)))
  {
    hide Sound, FlushPending, ResolveEnds, Credited;
    match (ClaimOf(obs), AliasDeadline(obs, now))
    case (Some(claim), Some(d)) =>
      var s1 := Resolving(s, ObserveRelation(obs), now);
      SameCoreSound(s, s1);
      var s2 := SetPending(s1, s1.pending);
      SameCoreSound(s1, s2);
      SameResolution(s1, s2, p.obs);
      FlushTakes(s2, now, p);
    case _ =>
  }

  lemma ParkTakes(s: Engine, obs: RelationObs, now: Time, p: Pending)
    requires p in s.pending && p !in Park(s, obs, now).pending
    ensures Evicted(s, p)
  {
    if !Evicted(s, p) {
      ParkSpares(s, obs, now, p);
    }
  }

  lemma ParkSpares(s: Engine, obs: RelationObs, now: Time, p: Pending)
    requires p in s.pending && !Evicted(s, p)
    ensures p in Park(s, obs, now).pending
  {
    var k :| 0 <= k < |s.pending| && s.pending[k] == p;
    var room := if |s.pending| >= MAX_PENDING then s.pending[1..] else s.pending;
    assert room[if |s.pending| >= MAX_PENDING then k - 1 else k] == p;
  }

  /** What an operation does once an alias is recorded keeps every credit. */
  lemma ObserveRelationKeepsCredit(s: Engine, obs: RelationObs, now: Time, r: RelationId, sp: Speaker)
    requires Sound(s) && Credited(Parking(s, ObserveRelation(obs), now), r, sp)
    ensures Credited(ObserveRelationOp(s, obs, now), r, sp)
  {
    hide Sound, RecordAlias, ResolveEnds, AssertRelation, Credited, Linked, Counted;
    RecordAliasKeeps(s, obs, now);
    var s1 := Parking(s, ObserveRelation(obs), now);
    EndsAreLive(s1, obs);
    match ResolveEnds(s1, obs)
    case Ends(src, dst) => AssertKeepsCredit(s1, obs, src, dst, now, r, sp);
    case EndpointsCollapsed =>
    case EndpointMissing => SameCoreCredit(s1, Park(s1, obs, now), r, sp);
  }

  lemma ObserveRelationTakes(s: Engine, obs: RelationObs, now: Time, p: Pending)
    requires Sound(s) && p in s.pending && p !in ObserveRelationOp(s, obs, now).pending
    ensures Taken(s, ObserveRelation(obs), now, p)
  {
    hide Sound, RecordAlias, ResolveEnds, AssertRelation, Park, Credited, Resolving, Evicted;
    var s1 := Parking(s, ObserveRelation(obs), now);
    if now <= p.deadline && p in s1.pending {
      RecordAliasKeeps(s, obs, now);
      EndsAreLive(s1, obs);
      if ResolveEnds(s1, obs).Ends? {
        AssertRelationKeeps(s1, obs, ResolveEnds(s1, obs).src, ResolveEnds(s1, obs).dst, now);
      }
      ParkTakes(s1, obs, now, p);
    } else if now <= p.deadline {
      RecordAliasTakes(s, obs, now, p);
      var e := ResolveEnds(Resolving(s, ObserveRelation(obs), now), p.obs);
      if e.Ends? {
        ObserveRelationKeepsCredit(s, obs, now, RelationId(p.obs.typ, e.src, e.dst), SpeakerOf(p));
      }
      WokenBy(s, ObserveRelation(obs), now, p);
    }
  }

  lemma StepTakes(s: Engine, op: Op, now: Time, p: Pending)
    requires Sound(s) && p in s.pending && p !in Step(s, op, now).pending
    ensures Taken(s, op, now, p)
  {
    hide Sound, Taken, ObserveEntityOp, ObserveRelationOp;
    match op
    case SetScope(scope) =>
    case ObserveEntity(obs) => ObserveEntityTakes(s, obs, now, p);
    case DeleteEntity(obs) => DeleteOwners(s, obs, now);
    case ObserveRelation(obs) => ObserveRelationTakes(s, obs, now, p);
    case RemoveRelation(obs) => RemoveRelationFrames(s, obs, now);
  }

  // ------------------------------------------------------------ batches

  /** Operation j of the batch takes the edge. */
  ghost predicate TakenAt(s: Engine, ops: seq<Timed>, j: nat, p: Pending)
    requires j < |ops|
  {
    p in Steps(s, ops[..j]).pending && Taken(Steps(s, ops[..j]), ops[j].op, ops[j].now, p)
  }

  lemma {:induction false} StepsTake(s: Engine, ops: seq<Timed>, p: Pending) returns (j: nat)
    requires Sound(s) && p in s.pending && p !in Steps(s, ops).pending
    ensures j < |ops| && TakenAt(s, ops, j, p)
  {
    hide Sound, Taken, Step, Linked, Counted;
    var n := |ops| - 1;
    StepsKeep(s, ops[..n]);
    if p in Steps(s, ops[..n]).pending {
      j := n;
      StepTakes(Steps(s, ops[..n]), ops[n].op, ops[n].now, p);
    } else {
      j := StepsTake(s, ops[..n], p);
      assert ops[..n][..j] == ops[..j];
    }
  }

  // ------------------------------------------------------------ runs

  /** Taken by operation j for good: expired, given up for room, or collapsed. */
  ghost predicate Dropped(s: Engine, ops: seq<Timed>, j: nat, p: Pending)
    requires j < |ops|
  {
    var s1 := Steps(s, ops[..j]);
    || ops[j].now > p.deadline
    || Evicted(Parking(s1, ops[j].op, ops[j].now), p)
    || ResolveEnds(Resolving(s1, ops[j].op, ops[j].now), p.obs).EndpointsCollapsed?
  }

  ghost predicate WokenAt(s: Engine, ops: seq<Timed>, j: nat, p: Pending, r: RelationId)
    requires j < |ops|
  {
    Woken(Steps(s, ops[..j]), ops[j].op, ops[j].now, p, r)
  }

  /** The log, at some point after the first n events, asserts the edge. */
  ghost predicate Logged(log: seq<Event>, n: nat, r: RelationId) {
    exists m :: n <= m <= |log| && Rel(r) in Replay(log[..m]).live
  }

  /** What an act may do to a parked edge that is no longer parked after it. */
  ghost predicate Ended(w: World, a: Act, p: Pending)
    requires Legal(w, a)
  {
    match a
    case DoBatch(ops, lands) =>
      exists j :: 0 <= j < |ops| && p in Steps(w.e, ops[..j]).pending &&
        (|| Dropped(w.e, ops, j, p)
         || exists r :: WokenAt(w.e, ops, j, p, r) && (lands ==> Logged(Acted(w, a).e.log, |w.e.log|, r)))
    case DoSweep(now, _, _, _) => now > p.deadline
    case DoRestart(_, _, _, _) => true
    case _ => false
  }

  /** The events staged by a part of a batch are the first of those it stages. */
  lemma {:induction false} StagedPrefix(s: Engine, ops: seq<Timed>, j: nat)
    requires Sound(s) && j <= |ops|
    ensures Steps(s, ops[..j]).st.events <= Steps(s, ops).st.events
  {
    hide Sound, Step, Linked, Counted, Appended, Mints;
    if j == |ops| {
      assert ops[..j] == ops;
    } else {
      var n := |ops| - 1;
      assert ops[..n][..j] == ops[..j];
      StagedPrefix(s, ops[..n], j);
      StepExtends(Steps(s, ops[..n]), ops[n].op, ops[n].now);
    }
  }

  lemma StepExtends(s: Engine, op: Op, now: Time)
    ensures s.st.events <= Step(s, op, now).st.events
  {
    hide Step, Target;
    StepAppends(s, op, now, if op.ObserveEntity? then iset{Target(s, op.entity, now).0} else iset{});
  }

  /** What is live at a point of a batch that lands is live at a point of the log. */
  lemma LandedIsLogged(s: Engine, ops: seq<Timed>, j: nat, r: RelationId)
    requires Sound(s) && s.st == NO_STAGED && j < |ops| && Rel(r) in Cur(Steps(s, ops[..j + 1])).live
    ensures Logged(Batch(s, ops, true).log, |s.log|, r)
  {
    hide Sound, Steps, Linked, Counted, Batch, Logged, EmittedFrom;
    assert s.(st := NO_STAGED) == s;
    StagedPrefix(s, ops, j + 1);
    StepsKeep(s, ops[..j + 1]);
    BatchKeeps(s, ops, true);
    PrefixLogged(s.log, Steps(s, ops[..j + 1]).st.events, Steps(s, ops).st.events, r);
  }

  lemma PrefixLogged(log: seq<Event>, some: seq<Event>, all: seq<Event>, r: RelationId)
    requires some <= all && Rel(r) in ReplayFrom(Replay(log), some).live
    ensures Logged(log + all, |log|, r)
  {
    hide ReplayFrom;
    assert (log + all)[..|log| + |some|] == log + some;
    ReplayConcat(EMPTY, log, some);
  }

  lemma BatchEnds(w: World, ops: seq<Timed>, lands: bool, p: Pending)
    requires Good(w) && Legal(w, DoBatch(ops, lands)) && p in w.e.pending
    requires p !in Acted(w, DoBatch(ops, lands)).e.pending
    ensures Ended(w, DoBatch(ops, lands), p)
  {
    hide Sound, Linked, P.Accounted, Timely, Named, Stored, Steps, Woken, Logged, Evicted, Forward;
    var s := w.e;
    assert s.(st := NO_STAGED) == s;
    var j := StepsTake(s, ops, p);
    if !Dropped(s, ops, j, p) {
      var r :| Woken(Steps(s, ops[..j]), ops[j].op, ops[j].now, p, r);
      assert WokenAt(s, ops, j, p, r);
      if lands {
        WokenIsLive(s, ops, j, p, r);
        LandedIsLogged(s, ops, j, r);
      }
    }
  }

  lemma WokenIsLive(s: Engine, ops: seq<Timed>, j: nat, p: Pending, r: RelationId)
    requires j < |ops| && WokenAt(s, ops, j, p, r)
    ensures Rel(r) in Cur(Steps(s, ops[..j + 1])).live
  {
    hide Step;
    assert ops[..j + 1][..j] == ops[..j];
  }

  lemma SweepEnds(s: Engine, now: Time, ids: seq<EntityId>, rids: seq<RelationId>, lands: bool, p: Pending)
    requires Sound(s) && SweepOrders(s, now, ids, rids) && p in s.pending
    requires p !in ChangeEngine.Sweep(s, now, ids, rids, lands).e.pending
    ensures now > p.deadline
  {
    hide Sound, SweepOrders, ChangeEngine.Sweep, UnexpiredPending;
    SweepBooks(s, now, ids, rids, lands);
    UnexpiredSubset(s.pending, now);
  }

  lemma ActEnds(w: World, a: Act, p: Pending)
    requires Good(w) && Legal(w, a) && p in w.e.pending && p !in Acted(w, a).e.pending
    ensures Ended(w, a, p)
  {
    hide Sound, Linked, P.Accounted, Timely, Named, Stored, SweepOrders, Forward, Ended;
    match a
    case DoBatch(ops, lands) => BatchEnds(w, ops, lands, p);
    case DoSweep(now, ids, rids, lands) =>
      SweepEnds(w.e, now, ids, rids, lands, p);
      EndedBy(w, a, p);
    case DoRestart(_, _, _, _) => EndedBy(w, a, p);
    case _ => QuietAct(w, a);
  }

  lemma EndedBy(w: World, a: Act, p: Pending)
    requires Legal(w, a) && (a.DoSweep? || a.DoRestart?) && (a.DoSweep? ==> a.now > p.deadline)
    ensures Ended(w, a, p)
  {
  }

  /** Over every safe run: an edge once parked is parked still, or some act in between ended
      that: it expired, was given up for room, collapsed, is asserted in the log, was woken in a
      batch that did not land, or was parked before a restart. */
  lemma {:induction false} ParkedEdgeFate(ws: seq<World>, acts: seq<Act>, first: nat, last: nat, p: Pending)
    returns (k: nat)
    requires SafeRun(ws, acts) && first <= last < |ws| && p in ws[first].e.pending
    ensures p in ws[last].e.pending || (first <= k < last && Legal(ws[k], acts[k]) && Ended(ws[k], acts[k], p))
    decreases last
  {
    hide Good, Acted, Ended, Legal, Safe;
    k := first;
    if first != last {
      k := ParkedEdgeFate(ws, acts, first, last - 1, p);
      if p in ws[last - 1].e.pending && p !in ws[last].e.pending {
        k := last - 1;
        RunGood(ws, acts, k);
        ActEnds(ws[k], acts[k], p);
      }
    }
  }
}
