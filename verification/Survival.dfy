/** Reference-counted survival: what a speaker asserted and has not itself released stays
    live through every sweep not past its deadline, whatever other speakers do and whether
    or not their appends land. */
module Survival {
  import opened Text
  import opened Model
  import opened EventLog
  import opened Aliases
  import opened SpeakerKeys
  import opened ChangeEngine
  import opened Overlay
  import opened EngineSteps
  import opened EngineSweep
  import opened EngineAppends
  import opened EngineRuns
  import P = Projection
  import L = LivenessRestore

  // ------------------------------------------------------------ holding

  predicate Reached(d: Deadline, now: Time) {
    d == Never || now <= d.t
  }

  function KeyOf(sp: Speaker): Str {
    RefKey(sp.producer, sp.scope)
  }

  /** How long a reference lasts: until d or longer, or exactly until d. */
  datatype Term = AtLeast(d: Deadline) | Exactly(d: Deadline)

  predicate Meets(x: Deadline, d: Term) {
    match d
    case AtLeast(y) => Outlasts(x, y)
    case Exactly(y) => x == y
  }

  /** sp references k for the term d. */
  ghost predicate Refers<K(!new)>(refs: map<K, Refs>, k: K, sp: Speaker, d: Term) {
    k in refs && KeyOf(sp) in refs[k] && Meets(refs[k][KeyOf(sp)].deadline, d)
  }

  /** What a declared interval promises: to speak again within it, if it is at most a week. */
  ghost function Promised(interval: int, now: Time): Deadline {
    if 0 < interval <= WEEK then By(now + interval) else Never
  }

  /** The live entity id, of identity ident, is held by sp for the term d. */
  ghost predicate Holds(s: Engine, id: EntityId, ident: Identity, sp: Speaker, d: Term) {
    Owns(Cur(s).live, id, ident) && Refers(s.refs, id, sp, d)
  }

  ghost predicate HoldsEdge(s: Engine, r: RelationId, sp: Speaker, d: Term) {
    Rel(r) in Cur(s).live && Refers(s.relRefs, r, sp, d)
  }

  /** The operation is the speaker's own word on the identity: an assertion renewing its
      deadline, or a release. */
  predicate OwnWord(op: Op, scope: Str, sp: Speaker, ident: Identity) {
    match op
    case ObserveEntity(o) => o.ident == ident && Speaker(o.producer, scope) == sp
    case DeleteEntity(o) => o.ident == ident && Speaker(o.producer, scope) == sp
    case _ => false
  }

  // ------------------------------------------------------------ reference maps

  lemma OtherSpeakerKeeps<K(!new)>(refs: map<K, Refs>, k: K, sp: Speaker, d: Term, x: K, other: Speaker, ref: Ref)
    requires Refers(refs, k, sp, d) && (x == k ==> other != sp)
    ensures Refers(refs[x := Held(refs, x)[KeyOf(other) := ref]], k, sp, d)
  {
    DistinctSpeakersDistinctKeys(sp.producer, sp.scope, other.producer, other.scope);
  }

  lemma OtherSpeakerLeaves<K(!new)>(refs: map<K, Refs>, k: K, sp: Speaker, d: Term, x: K, other: Speaker)
    requires Refers(refs, k, sp, d) && (x == k ==> other != sp)
    ensures var left := Held(refs, x) - {KeyOf(other)};
            && (x == k ==> left != map[])
            && Refers(refs[x := left], k, sp, d)
            && (x != k ==> Refers(refs - {x}, k, sp, d))
  {
    DistinctSpeakersDistinctKeys(sp.producer, sp.scope, other.producer, other.scope);
    var left := Held(refs, x) - {KeyOf(other)};
    if x == k {
      assert KeyOf(sp) in left;
    }
  }

  lemma UnlapsedKeeps<K(!new)>(refs: map<K, Refs>, k: K, sp: Speaker, d: Term, now: Time)
    requires Refers(refs, k, sp, d) && Reached(d.d, now)
    ensures !AllLapsed(refs, k, now)
    ensures Refers(DropLapsed(refs, now), k, sp, d)
  {
    assert KeyOf(sp) in Unlapsed(refs[k], now);
  }

  // ------------------------------------------------------------ operations on entities

  /** A speaker that asserts an entity holds it until the deadline it promised. */
  lemma AssertionHolds(s: Engine, obs: EntityObs, now: Time) returns (id: EntityId)
    requires Sound(s)
    ensures Holds(ObserveEntityOp(s, obs, now), id, obs.ident, Speaker(obs.producer, s.st.scope),
                  Exactly(Promised(obs.interval, now)))
  {
    hide Sound, Cur, Target, FlushPending, Linked, Counted, Picked;
    AssertEntitySound(s, obs, now);
    var s1 := AssertEntity(s, obs, now);
    FlushPendingKeeps(s1, now);
    id := Target(s, obs, now).0;
    assert Owns(Cur(s1).live, id, obs.ident);
  }

  lemma SameOwner(s: Engine, id: EntityId, i: Identity, j: Identity)
    requires Owns(Cur(s).live, id, i) && Owns(Cur(s).live, id, j)
    ensures i == j
  {
  }

  lemma AssertEntityHolds(s: Engine, obs: EntityObs, now: Time, id: EntityId, ident: Identity, sp: Speaker, d: Term)
    requires Sound(s) && Holds(s, id, ident, sp, d) && !OwnWord(ObserveEntity(obs), s.st.scope, sp, ident)
    ensures Holds(AssertEntity(s, obs, now), id, ident, sp, d)
  {
    hide Sound, Refers, Cur;
    var (x, ct, next) := Target(s, obs, now);
    AssertEntitySound(s, obs, now);
    MatchIsOwner(s, obs.ident);
    if x == id {
      SameOwner(s, id, ident, obs.ident);
    }
    OtherSpeakerKeeps(s.refs, id, sp, d, x, Speaker(obs.producer, s.st.scope), RefFor(obs.interval, now));
  }

  lemma DeleteEntityHolds(s: Engine, obs: EntityObs, now: Time, id: EntityId, ident: Identity, sp: Speaker, d: Term)
    requires Sound(s) && Holds(s, id, ident, sp, d) && !OwnWord(DeleteEntity(obs), s.st.scope, sp, ident)
    ensures Holds(DeleteEntityOp(s, obs, now), id, ident, sp, d)
  {
    hide Sound, Refers, Cascade;
    MatchIsOwner(s, obs.ident);
    match MatchIdentity(s, obs.ident)
    case None =>
    case Some(x) =>
      OtherSpeakerLeaves(s.refs, id, sp, d, x, Speaker(obs.producer, s.st.scope));
      HeldIsKnown(s.refs, id, sp, d);
      var left := Held(s.refs, x) - {Key(s, obs.producer)};
      if x in s.refs && left != map[] {
        SameCoreSound(s, s.(refs := s.refs[x := left]));
      } else {
        assert x != id;
        KillKeepsOthers(s, obs, now, x, id, ident);
      }
  }

  lemma HeldIsKnown<K(!new)>(refs: map<K, Refs>, k: K, sp: Speaker, d: Term)
    requires Refers(refs, k, sp, d)
    ensures k in refs
  {
  }

  lemma KillKeepsOthers(s: Engine, obs: EntityObs, now: Time, x: EntityId, id: EntityId, ident: Identity)
    requires Sound(s) && Owns(Cur(s).live, x, obs.ident) && x != id && Owns(Cur(s).live, id, ident)
    ensures var s1 := Commit(s.(refs := s.refs - {x}), EntityEventOf(Deleted, x, obs, now));
            var t := Cascade(s1, x, obs.eventTime, now);
            Owns(Cur(t).live, id, ident) && t.refs == s.refs - {x}
  {
    hide Sound, Cascade, Commit;
    var s0 := s.(refs := s.refs - {x});
    SameCoreSound(s, s0);
    KillSound(s0, x, Entity(x, obs.ident, obs.attrs, obs.schema), obs.eventTime, now);
  }

  /** Operations on relations leave the entities and their references alone. */
  ghost predicate EntitiesAlone(s: Engine, t: Engine) {
    SameEntities(Cur(s).live, Cur(t).live) && t.refs == s.refs && t.st.scope == s.st.scope
  }

  lemma ObserveRelationAlone(s: Engine, obs: RelationObs, now: Time)
    requires Sound(s)
    ensures EntitiesAlone(s, ObserveRelationOp(s, obs, now))
  {
    hide Sound, RecordAlias, AssertRelation, ResolveEnds, Cur, Linked, Counted;
    RecordAliasKeeps(s, obs, now);
    var s1 := if obs.typ == SAME_AS then RecordAlias(s, obs, now) else s;
    EndsAreLive(s1, obs);
    match ResolveEnds(s1, obs)
    case Ends(src, dst) => AssertRelationKeeps(s1, obs, src, dst, now);
    case EndpointsCollapsed =>
    case EndpointMissing => SameCoreSound(s1, Park(s1, obs, now));
  }

  lemma RemoveRelationAlone(s: Engine, obs: RelationObs, now: Time)
    requires Sound(s)
    ensures EntitiesAlone(s, RemoveRelationOp(s, obs, now))
  {
    hide Sound;
    match ResolveEnds(s, obs)
    case Ends(src, dst) =>
      var rid := RelationId(obs.typ, src, dst);
      var s1 := s.(relRefs := s.relRefs - {rid});
      SameCoreSound(s, s1);
      GetRelationIsLive(s, rid);
      if GetRelation(s, rid).Some? {
        RemoveEdgeSound(s1, rid, obs.eventTime, now);
        StageAppends(s1.st, RemovedEvent(s1, rid, obs.eventTime, now));
      }
      SameCoreSound(s, s.(relRefs := s.relRefs[rid := Held(s.relRefs, rid) - {Key(s, obs.producer)}]));
    case _ =>
  }

  lemma AloneHolds(s: Engine, t: Engine, id: EntityId, ident: Identity, sp: Speaker, d: Term)
    requires EntitiesAlone(s, t) && Holds(s, id, ident, sp, d)
    ensures Holds(t, id, ident, sp, d)
  {
    hide Cur;
  }

  lemma FlushPendingHolds(s: Engine, now: Time, id: EntityId, ident: Identity, sp: Speaker, d: Term)
    requires Sound(s) && Holds(s, id, ident, sp, d)
    ensures Holds(FlushPending(s, now), id, ident, sp, d)
  {
    hide Sound, Holds;
    FlushPendingKeeps(s, now);
    AloneHolds(s, FlushPending(s, now), id, ident, sp, d);
  }

  /** Whatever anyone else says, a held entity stays held. */
  lemma EntitySurvivesStep(s: Engine, op: Op, now: Time, id: EntityId, ident: Identity, sp: Speaker, d: Term)
    requires Sound(s) && Holds(s, id, ident, sp, d) && !OwnWord(op, s.st.scope, sp, ident)
    ensures Holds(Step(s, op, now), id, ident, sp, d)
  {
    hide Sound, Holds;
    match op
    case SetScope(scope) => RescopeHolds(s, scope, id, ident, sp, d);
    case ObserveEntity(obs) =>
      AssertEntityHolds(s, obs, now, id, ident, sp, d);
      AssertEntityKeeps(s, obs, now);
      FlushPendingHolds(AssertEntity(s, obs, now), now, id, ident, sp, d);
    case DeleteEntity(obs) => DeleteEntityHolds(s, obs, now, id, ident, sp, d);
    case ObserveRelation(obs) =>
      ObserveRelationAlone(s, obs, now);
      AloneHolds(s, ObserveRelationOp(s, obs, now), id, ident, sp, d);
    case RemoveRelation(obs) =>
      RemoveRelationAlone(s, obs, now);
      AloneHolds(s, RemoveRelationOp(s, obs, now), id, ident, sp, d);
  }

  lemma RescopeHolds(s: Engine, scope: Str, id: EntityId, ident: Identity, sp: Speaker, d: Term)
    requires Sound(s) && Holds(s, id, ident, sp, d)
    ensures Holds(s.(st := s.st.(scope := scope)), id, ident, sp, d)
  {
    hide Sound;
    SameCoreSound(s, s.(st := s.st.(scope := scope)));
  }

  // ------------------------------------------------------------ scopes

  /** The collection method in force after some operations of a batch. */
  function ScopeAfter(ops: seq<Timed>): Str {
    if ops == [] then []
    else match ops[|ops| - 1].op
      case SetScope(scope) => scope
      case _ => ScopeAfter(ops[..|ops| - 1])
  }

  lemma StepScope(s: Engine, op: Op, now: Time)
    requires Sound(s)
    ensures Step(s, op, now).st.scope == if op.SetScope? then op.scope else s.st.scope
  {
    hide Sound;
    match op
    case SetScope(scope) =>
    case ObserveEntity(obs) =>
      AssertEntityKeeps(s, obs, now);
      var (id, ct, next) := Target(s, obs, now);
      StageAppends(s.st, EntityEventOf(ct, id, obs, now));
      FlushPendingKeeps(AssertEntity(s, obs, now), now);
    case DeleteEntity(obs) => DeleteScope(s, obs, now);
    case ObserveRelation(obs) => ObserveRelationAlone(s, obs, now);
    case RemoveRelation(obs) => RemoveRelationAlone(s, obs, now);
  }

  lemma DeleteScope(s: Engine, obs: EntityObs, now: Time)
    ensures DeleteEntityOp(s, obs, now).st.scope == s.st.scope
  {
    match MatchIdentity(s, obs.ident)
    case None =>
    case Some(id) =>
      var s1 := Commit(s.(refs := s.refs - {id}), EntityEventOf(Deleted, id, obs, now));
      StageAppends(s.st, EntityEventOf(Deleted, id, obs, now));
      RemoveEdgesFrames(s1, ListRelationsTouching(s1, id), obs.eventTime, now);
  }

  lemma {:induction false} StepsScope(s: Engine, ops: seq<Timed>)
    requires Sound(s) && s.st.scope == []
    ensures Steps(s, ops).st.scope == ScopeAfter(ops)
  {
    hide Sound, Step;
    if ops != [] {
      var n := |ops| - 1;
      StepsScope(s, ops[..n]);
      StepsKeep(s, ops[..n]);
      StepScope(Steps(s, ops[..n]), ops[n].op, ops[n].now);
    }
  }

  /** Nothing in the batch is the speaker's own word on the identity. */
  ghost predicate SilentOn(ops: seq<Timed>, sp: Speaker, ident: Identity) {
    forall j :: 0 <= j < |ops| ==> !OwnWord(ops[j].op, ScopeAfter(ops[..j]), sp, ident)
  }

  lemma SilentPrefix(ops: seq<Timed>, sp: Speaker, ident: Identity)
    requires ops != [] && SilentOn(ops, sp, ident)
    ensures SilentOn(ops[..|ops| - 1], sp, ident)
    ensures !OwnWord(ops[|ops| - 1].op, ScopeAfter(ops[..|ops| - 1]), sp, ident)
  {
    var n := |ops| - 1;
    forall j | 0 <= j < n
      ensures !OwnWord(ops[..n][j].op, ScopeAfter(ops[..n][..j]), sp, ident)
    {
      assert ops[..n][..j] == ops[..j];
    }
  }

  lemma {:induction false} EntitySurvivesSteps(s: Engine, ops: seq<Timed>, id: EntityId, ident: Identity, sp: Speaker,
                                               d: Term)
    requires Sound(s) && s.st.scope == [] && Holds(s, id, ident, sp, d) && SilentOn(ops, sp, ident)
    ensures Holds(Steps(s, ops), id, ident, sp, d)
  {
    hide Sound, Holds, Step, SilentOn;
    if ops != [] {
      var n := |ops| - 1;
      SilentPrefix(ops, sp, ident);
      EntitySurvivesSteps(s, ops[..n], id, ident, sp, d);
      StepsScope(s, ops[..n]);
      StepsKeep(s, ops[..n]);
      EntitySurvivesStep(Steps(s, ops[..n]), ops[n].op, ops[n].now, id, ident, sp, d);
    }
  }

  /** The last thing the speaker said of the identity is operation j's assertion: it holds
      the entity at every later point of the batch. */
  lemma {:induction false} AssertedSince(s: Engine, ops: seq<Timed>, j: nat, n: nat, obs: EntityObs)
    returns (id: EntityId)
    requires Sound(s) && s.st.scope == [] && j < n <= |ops| && ops[j].op == ObserveEntity(obs)
    requires forall k :: j < k < |ops| ==>
      !OwnWord(ops[k].op, ScopeAfter(ops[..k]), Speaker(obs.producer, ScopeAfter(ops[..j])), obs.ident)
    ensures Holds(Steps(s, ops[..n]), id, obs.ident,
                  Speaker(obs.producer, ScopeAfter(ops[..j])), Exactly(Promised(obs.interval, ops[j].now)))
  {
    hide Sound, Holds, Target, Promised, ObserveEntityOp, OwnWord, Linked, Counted;
    var m := n - 1;
    assert ops[..n][..m] == ops[..m] && ops[..n][m] == ops[m];
    StepsScope(s, ops[..m]);
    StepsKeep(s, ops[..m]);
    if m == j {
      id := AssertionHolds(Steps(s, ops[..m]), obs, ops[j].now);
    } else {
      id := AssertedSince(s, ops, j, m, obs);
      EntitySurvivesStep(Steps(s, ops[..m]), ops[m].op, ops[m].now, id, obs.ident,
                         Speaker(obs.producer, ScopeAfter(ops[..j])), Exactly(Promised(obs.interval, ops[j].now)));
    }
  }

  // ------------------------------------------------------------ acts

  /** A batch that lands leaves the entity held by the speaker that last asserted it. */
  lemma AssertedIsHeld(s: Engine, ops: seq<Timed>, j: nat, obs: EntityObs) returns (id: EntityId)
    requires Sound(s) && s.st == NO_STAGED && j < |ops| && ops[j].op == ObserveEntity(obs)
    requires forall k :: j < k < |ops| ==>
      !OwnWord(ops[k].op, ScopeAfter(ops[..k]), Speaker(obs.producer, ScopeAfter(ops[..j])), obs.ident)
    ensures Holds(Batch(s, ops, true), id, obs.ident,
                  Speaker(obs.producer, ScopeAfter(ops[..j])), Exactly(Promised(obs.interval, ops[j].now)))
  {
    hide Sound, Steps, Target, Promised, OwnWord;
    assert s.(st := NO_STAGED) == s;
    assert ops[..|ops|] == ops;
    id := AssertedSince(s, ops, j, |ops|, obs);
    StepsKeep(s, ops);
    FlushSound(Steps(s, ops), true);
  }

  /** A batch keeps a held entity, whether or not its append lands. */
  lemma EntitySurvivesBatch(s: Engine, ops: seq<Timed>, lands: bool, id: EntityId, ident: Identity, sp: Speaker,
                            d: Term)
    requires Sound(s) && s.st == NO_STAGED && Holds(s, id, ident, sp, d) && SilentOn(ops, sp, ident)
    ensures Holds(Batch(s, ops, lands), id, ident, sp, d)
  {
    hide Sound, SilentOn, Steps;
    assert s.(st := NO_STAGED) == s;
    EntitySurvivesSteps(s, ops, id, ident, sp, d);
    StepsKeep(s, ops);
    FlushSound(Steps(s, ops), lands);
    UnstagedCur(s);
  }

  /** A sweep not past the deadline keeps a held entity. */
  lemma EntitySurvivesSweep(s: Engine, now: Time, ids: seq<EntityId>, rids: seq<RelationId>, lands: bool,
                            id: EntityId, ident: Identity, sp: Speaker, d: Term)
    requires Sound(s) && s.st == NO_STAGED && SweepOrders(s, now, ids, rids) && Linked(Base(s).live)
    requires Holds(s, id, ident, sp, d) && Reached(d.d, now)
    ensures Holds(ChangeEngine.Sweep(s, now, ids, rids, lands).e, id, ident, sp, d)
  {
    hide Sound, SweepStaged, SweepOrders, Linked, Tally, FreshRefs, AllDistinct, Refers, AllLapsed, Expired,
         KeysCounted, Dropped;
    SweepExact(s, now, ids, rids, lands);
    SweepStagedSound(s, now, ids, rids);
    UnlapsedKeeps(s.refs, id, sp, d, now);
    UnstagedCur(s);
    OrdersVisit(s, now, ids, rids);
    NotOrphaned(s.refs, now, ids, id, sp, d);
  }

  lemma NotOrphaned<K(!new)>(refs: map<K, Refs>, now: Time, order: seq<K>, k: K, sp: Speaker, d: Term)
    requires Visits(order, Orphans(DropLapsed(refs, now))) && Refers(DropLapsed(refs, now), k, sp, d)
    ensures Refers(DropLapsed(refs, now) - SetOf(order), k, sp, d)
  {
    assert DropLapsed(refs, now)[k] != map[];
  }

  /** The act is not the speaker's own word, a sweep past the deadline, or a restart without
      liveness saved after the speaker spoke. */
  ghost predicate Spares(w: World, a: Act, id: EntityId, sp: Speaker, ident: Identity, d: Deadline) {
    match a
    case DoBatch(ops, _) => SilentOn(ops, sp, ident)
    case DoSweep(now, _, _, _) => Reached(d, now)
    case DoRestart(_, _, _, readable) => readable && w.saved.Some? && Refers(w.saved.value.refs, id, sp, AtLeast(d))
    case _ => true
  }

  /** Whoever held a thing when liveness was saved holds it after the restart. */
  lemma RestartKeepsHolders<K(!new)>(refs: map<K, Refs>, k: K, sp: Speaker, d: Deadline, now: Time, entity: bool)
    requires Refers(refs, k, sp, AtLeast(d))
    ensures Refers(L.Restored(refs, now, entity), k, sp, AtLeast(d))
  {
    L.RestoredOutlasts(refs, now, entity);
  }

  lemma EntitySurvivesAct(w: World, a: Act, id: EntityId, ident: Identity, sp: Speaker, d: Deadline)
    requires Good(w) && Legal(w, a) && Holds(w.e, id, ident, sp, AtLeast(d)) && Spares(w, a, id, sp, ident, d)
    ensures Holds(Acted(w, a).e, id, ident, sp, AtLeast(d))
  {
    hide Sound, Holds, Refers, SilentOn, SweepOrders, Stored, Named, Timely;
    match a
    case DoBatch(ops, lands) => EntitySurvivesBatch(w.e, ops, lands, id, ident, sp, AtLeast(d));
    case DoSweep(now, ids, rids, lands) => EntitySurvivesSweep(w.e, now, ids, rids, lands, id, ident, sp, AtLeast(d));
    case DoRestart(limit, ttl, now, readable) =>
      QuietAct(w, a);
      var t := Acted(w, a).e;
      RestartKeepsHolders(w.saved.value.refs, id, sp, d, now, true);
      SameLiveHolds(w.e, t.(refs := w.e.refs), id, ident, sp, AtLeast(d));
      SavedHolds(t, w.e.refs, id, ident, sp, AtLeast(d));
    case _ =>
      QuietAct(w, a);
      SameLiveHolds(w.e, Acted(w, a).e, id, ident, sp, AtLeast(d));
  }

  /** Between batches only the live things and the references matter. */
  lemma SameLiveHolds(s: Engine, t: Engine, id: EntityId, ident: Identity, sp: Speaker, d: Term)
    requires Holds(s, id, ident, sp, d) && s.st == NO_STAGED && t.st == NO_STAGED
    requires Replay(t.log).live == Replay(s.log).live && t.refs == s.refs
    ensures Holds(t, id, ident, sp, d)
  {
  }

  lemma SavedHolds(t: Engine, was: map<EntityId, Refs>, id: EntityId, ident: Identity, sp: Speaker, d: Term)
    requires Holds(t.(refs := was), id, ident, sp, d) && Refers(t.refs, id, sp, d)
    ensures Holds(t, id, ident, sp, d)
  {
  }

  /** Over every stretch of every safe run: an entity held by a speaker when the stretch begins
      is still live, and still held, when it ends -- through every batch in which the
      speaker itself says nothing of it, every failed append, every compaction, every sweep
      not past the deadline, and every restart whose saved liveness knew of it. */
  lemma {:induction false} HeldEntitySurvives(ws: seq<World>, acts: seq<Act>, first: nat, last: nat,
                                              id: EntityId, ident: Identity, sp: Speaker, d: Deadline)
    requires SafeRun(ws, acts) && first <= last < |ws| && Holds(ws[first].e, id, ident, sp, AtLeast(d))
    requires forall k :: first <= k < last ==> Spares(ws[k], acts[k], id, sp, ident, d)
    ensures Holds(ws[last].e, id, ident, sp, AtLeast(d))
    ensures id in P.Live(ws[last].e.g) && P.Live(ws[last].e.g)[id].ident == ident
    decreases last
  {
    hide Holds, Spares, Legal, Acted, Good, Safe;
    if first != last {
      HeldEntitySurvives(ws, acts, first, last - 1, id, ident, sp, d);
      RunGood(ws, acts, last - 1);
      EntitySurvivesAct(ws[last - 1], acts[last - 1], id, ident, sp, d);
    }
    RunGood(ws, acts, last);
    HeldIsProjected(ws[last], id, ident, sp, d);
  }

  lemma HeldIsProjected(w: World, id: EntityId, ident: Identity, sp: Speaker, d: Deadline)
    requires Good(w) && Holds(w.e, id, ident, sp, AtLeast(d))
    ensures id in P.Live(w.e.g) && P.Live(w.e.g)[id].ident == ident
  {
    UnstagedCur(w.e);
    ShowsEntity(w.e.g, Base(w.e).live, id);
  }

  // ------------------------------------------------------------ the count is exact

  /** The act loses nothing: its append lands, and it is not a restart. */
  predicate Lossless(a: Act) {
    match a
    case DoBatch(_, lands) => lands
    case DoSweep(_, _, _, lands) => lands
    case DoRestart(_, _, _, _) => false
    case _ => true
  }

  lemma ActCounted(w: World, a: Act)
    requires Good(w) && Legal(w, a) && Lossless(a) && Counted(w.e)
    ensures Counted(Acted(w, a).e)
  {
    hide Counted, Sound, Linked, SweepOrders, Steps, Stored, Named, Timely;
    if a.DoBatch? {
      BatchKeeps(w.e, a.ops, true);
    } else if a.DoSweep? {
      SweepCounted(w.e, a.now, a.ids, a.rids);
    } else {
      QuietAct(w, a);
      CompactCounted(w.e, Acted(w, a).e.log);
    }
  }

  lemma CompactCounted(s: Engine, log: seq<Event>)
    requires Counted(s) && s.st == NO_STAGED && Replay(log).live == Base(s).live
    ensures Counted(s.(log := log))
  {
  }

  /** While every append lands, an entity or an edge is live exactly when some speaker
      references it. */
  lemma {:induction false} LiveIffReferenced(ws: seq<World>, acts: seq<Act>, k: nat)
    requires Run(ws, acts) && k < |ws| && forall j :: 0 <= j < k ==> Lossless(acts[j])
    ensures Counted(ws[k].e)
  {
    hide Good, Legal, Acted, Counted, Recoverable;
    if k == 0 {
      var limit, ttl, bufferTTL :| Newborn(ws[0], limit, ttl, bufferTTL);
      NewEngineCounted(limit, ttl, bufferTTL);
    } else {
      LiveIffReferenced(ws, acts, k - 1);
      GoodUpTo(ws, acts, k - 1);
      ActCounted(ws[k - 1], acts[k - 1]);
    }
  }

  lemma NewEngineCounted(limit: int, ttl: int, bufferTTL: int)
    ensures Counted(NewEngine(limit, ttl, bufferTTL))
  {
  }
}
