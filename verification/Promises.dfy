/** How long what was said lasts: a promised interval, an edge that lives by its source's
    claim, and an equivalence by twice its cycle -- each up to the sweep that ends it. */
module Promises {
  import opened Text
  import opened Model
  import opened EventLog
  import opened Aliases
  import opened SpeakerKeys
  import opened ChangeEngine
  import opened Overlay
  import opened EngineSteps
  import opened EngineSweep
  import opened EngineRuns
  import opened Survival
  import opened EdgeSurvival
  import L = LivenessRestore
  import P = Projection

  /** The deadline is one, and has passed. */
  predicate Past(d: Deadline, now: Time) {
    match d
    case Never => false
    case By(t) => t < now
  }

  /** Somebody's reference on k has not passed. */
  ghost predicate Spoken<K(!new)>(refs: map<K, Refs>, k: K, now: Time) {
    exists key :: key in Held(refs, k) && !Past(Held(refs, k)[key].deadline, now)
  }

  /** ... and somebody's other than this speaker's. */
  ghost predicate SpokenByOthers<K(!new)>(refs: map<K, Refs>, k: K, sp: Speaker, now: Time) {
    exists key :: key in Held(refs, k) && key != KeyOf(sp) && !Past(Held(refs, k)[key].deadline, now)
  }

  lemma LapsedIffUnspoken<K(!new)>(refs: map<K, Refs>, k: K, now: Time)
    requires k in refs
    ensures AllLapsed(refs, k, now) <==> !Spoken(refs, k, now)
  {
    var held := Held(refs, k);
    if Spoken(refs, k, now) {
      var key :| key in held && !Past(held[key].deadline, now);
      assert key in Unlapsed(refs[k], now);
    }
    if Unlapsed(refs[k], now) != map[] {
      var key :| key in Unlapsed(refs[k], now);
      assert key in Held(refs, k) && !Past(Held(refs, k)[key].deadline, now);
    }
  }

  lemma SpokenBySpeaker<K(!new)>(refs: map<K, Refs>, k: K, sp: Speaker, d: Deadline, now: Time)
    requires Refers(refs, k, sp, Exactly(d))
    ensures Spoken(refs, k, now) <==> !Past(d, now) || SpokenByOthers(refs, k, sp, now)
  {
    assert KeyOf(sp) in Held(refs, k) && Held(refs, k)[KeyOf(sp)].deadline == d;
  }

  // ------------------------------------------------------------ entities

  /** What a landed sweep leaves: of the entities that are referenced, those somebody's
      reference on has not passed. */
  lemma SweptEntity(s: Engine, now: Time, ids: seq<EntityId>, rids: seq<RelationId>, id: EntityId)
    requires Sound(s) && s.st == NO_STAGED && SweepOrders(s, now, ids, rids) && Linked(Base(s).live)
    requires id in s.refs
    ensures Ent(id) in Base(ChangeEngine.Sweep(s, now, ids, rids, true).e).live <==>
            Ent(id) in Base(s).live && Spoken(s.refs, id, now)
  {
    hide Sound, SweepStaged, SweepOrders, Linked, Tally, FreshRefs, AllDistinct, AllLapsed, EmittedFrom, Spoken;
    SweepExact(s, now, ids, rids, true);
    UnstagedCur(ChangeEngine.Sweep(s, now, ids, rids, true).e);
    LapsedIffUnspoken(s.refs, id, now);
  }

  /** An entity observed with an interval, at most a week, by a speaker that then keeps silent
      is there after a landed sweep exactly when the sweep is not past the interval or another
      speaker holds it; one observed without stays. */
  lemma ObservedUntil(s: Engine, ops: seq<Timed>, j: nat, obs: EntityObs, now: Time, ids: seq<EntityId>,
                      rids: seq<RelationId>) returns (id: EntityId)
    requires Sound(s) && s.st == NO_STAGED && Linked(Base(s).live)
    requires j < |ops| && ops[j].op == ObserveEntity(obs)
    requires forall k :: j < k < |ops| ==>
      !OwnWord(ops[k].op, ScopeAfter(ops[..k]), Speaker(obs.producer, ScopeAfter(ops[..j])), obs.ident)
    requires SweepOrders(Batch(s, ops, true), now, ids, rids)
    ensures var u, sp := Batch(s, ops, true), Speaker(obs.producer, ScopeAfter(ops[..j]));
            var t := ChangeEngine.Sweep(u, now, ids, rids, true).e;
            && Owns(Base(u).live, id, obs.ident)
            && (Ent(id) in Base(t).live <==>
                  || !(0 < obs.interval <= WEEK) || now <= ops[j].now + obs.interval
                  || SpokenByOthers(u.refs, id, sp, now))
  {
    hide Sound, OwnWord, ScopeAfter, Batch, SweepOrders, Linked, Counted, SpokenByOthers, Spoken, EmittedFrom;
    var sp := Speaker(obs.producer, ScopeAfter(ops[..j]));
    var u := Batch(s, ops, true);
    id := AssertedIsHeld(s, ops, j, obs);
    BatchKeeps(s, ops, true);
    UnstagedCur(u);
    SweptEntity(u, now, ids, rids, id);
    SpokenBySpeaker(u.refs, id, sp, Promised(obs.interval, ops[j].now), now);
  }

  /** After a sweep, landed or not, no tombstone is left whose grace window is over. */
  lemma SweepPrunes(s: Engine, now: Time, ids: seq<EntityId>, rids: seq<RelationId>, lands: bool, id: EntityId)
    requires Sound(s) && P.Accounted(s.g) && SweepOrders(s, now, ids, rids)
    ensures var g := ChangeEngine.Sweep(s, now, ids, rids, lands).e.g;
            g.ttl > 0 && id in g.deleted && id in g.tombDeadline ==> now <= g.tombDeadline[id]
  {
    hide Sound, SweepStaged, P.PruneTombstones, P.Accounted, SweepOrders;
    StagedStatics(s, now, ids, rids);
    var u := SweepStaged(s, now, ids, rids).e;
    FlushAccounts(u, lands);
    P.PruneAccounts(Flush(u, lands).g, now);
  }

  /** Some speaker's saved reference has not lapsed by t after a restart at now. */
  ghost predicate SavedSpoken<K(!new)>(saved: map<K, Refs>, k: K, now: Time, entity: bool, t: Time) {
    exists key :: key in Held(saved, k) && !L.LapsesBy(Held(saved, k)[key], now, entity, t)
  }

  lemma RestoredSpoken<K(!new)>(saved: map<K, Refs>, k: K, now: Time, entity: bool, t: Time)
    requires k in saved
    ensures k in L.Restored(saved, now, entity)
    ensures Spoken(L.Restored(saved, now, entity), k, t) <==> SavedSpoken(saved, k, now, entity, t)
  {
    L.RestoredLapses(saved, now, entity);
    hide L.Restored, L.LapsesBy;
    var refs := L.Restored(saved, now, entity);
    forall key | key in Held(saved, k)
      ensures Past(Held(refs, k)[key].deadline, t) <==> L.LapsesBy(Held(saved, k)[key], now, entity, t)
    {
      assert Lapsed(refs[k][key], t) <==> L.LapsesBy(saved[k][key], now, entity, t);
    }
  }

  // ------------------------------------------------------------ edges

  /** An edge is left by a landed sweep when both its ends are and somebody's reference on it
      has not passed. */
  lemma SweptEdge(s: Engine, now: Time, ids: seq<EntityId>, rids: seq<RelationId>, r: RelationId)
    requires Sound(s) && s.st == NO_STAGED && SweepOrders(s, now, ids, rids) && Linked(Base(s).live)
    requires r in s.relRefs
    ensures var t := ChangeEngine.Sweep(s, now, ids, rids, true).e;
            Rel(r) in Base(t).live <==>
            && Rel(r) in Base(s).live && Ent(r.src) in Base(t).live && Ent(r.dst) in Base(t).live
            && Spoken(s.relRefs, r, now)
  {
    hide Sound, SweepStaged, SweepOrders, Linked, Tally, FreshRefs, AllDistinct, AllLapsed, EmittedFrom, Spoken;
    SweepExact(s, now, ids, rids, true);
    UnstagedCur(ChangeEngine.Sweep(s, now, ids, rids, true).e);
    LapsedIffUnspoken(s.relRefs, r, now);
  }

  /** After a restart from a snapshot in which all speakers stay silent, a landed sweep leaves
      exactly those entities with a saved reference that is not lapsed by then, and, between
      such, exactly those edges. */
  lemma RestartedUntil(ws: seq<World>, acts: seq<Act>, k: nat, id: EntityId, r: RelationId)
    requires SafeRun(ws, acts) && k + 1 < |acts| && ws[k].saved.Some?
    requires acts[k].DoRestart? && acts[k].readable && acts[k + 1].DoSweep? && acts[k + 1].lands
    ensures var v, at, now := ws[k].saved.value, acts[k].now, acts[k + 1].now;
            var was, live := Base(ws[k].e).live, Base(ws[k + 2].e).live;
            && (id in v.refs ==> (Ent(id) in live <==> Ent(id) in was && SavedSpoken(v.refs, id, at, true, now)))
            && (r in v.relRefs ==>
                  (Rel(r) in live <==>
                     && Rel(r) in was && Ent(r.src) in live && Ent(r.dst) in live
                     && SavedSpoken(v.relRefs, r, at, false, now)))
  {
    hide Good, Acted, Legal, Safe, SavedSpoken, Spoken, L.Restored;
    RunGood(ws, acts, k);
    RunGood(ws, acts, k + 1);
    var v, a, b := ws[k].saved.value, acts[k], acts[k + 1];
    assert ws[k + 1 + 1] == Acted(ws[k + 1], b);
    RestartKeeps(ws[k], a);
    SweptAct(ws[k + 1], b, id, r);
    if id in v.refs {
      RestoredSpoken(v.refs, id, a.now, true, b.now);
    }
    if r in v.relRefs {
      RestoredSpoken(v.relRefs, r, a.now, false, b.now);
    }
  }

  lemma RestartKeeps(w: World, a: Act)
    requires Good(w) && Legal(w, a) && a.DoRestart? && a.readable && w.saved.Some?
    ensures var n := Acted(w, a).e;
            && Base(n).live == Base(w.e).live
            && n.refs == L.Restored(w.saved.value.refs, a.now, true)
            && n.relRefs == L.Restored(w.saved.value.relRefs, a.now, false)
  {
    hide Sound, Linked, Stored, Named, L.Restored;
    QuietAct(w, a);
  }

  lemma SweptAct(w: World, a: Act, id: EntityId, r: RelationId)
    requires Good(w) && Legal(w, a) && a.DoSweep? && a.lands
    ensures var was, live := Base(w.e).live, Base(Acted(w, a).e).live;
            && (id in w.e.refs ==> (Ent(id) in live <==> Ent(id) in was && Spoken(w.e.refs, id, a.now)))
            && (r in w.e.relRefs ==>
                  (Rel(r) in live <==>
                     Rel(r) in was && Ent(r.src) in live && Ent(r.dst) in live && Spoken(w.e.relRefs, r, a.now)))
  {
    hide Sound, Linked, Stored, Named, SweepOrders, Spoken, ChangeEngine.Sweep;
    if id in w.e.refs {
      SweptEntity(w.e, a.now, a.ids, a.rids, id);
    }
    if r in w.e.relRefs {
      SweptEdge(w.e, a.now, a.ids, a.rids, r);
    }
  }

  /** After a restart, until equivalences are observed again, an endpoint stands only for the
      owner of its own identity, and no edge is parked. */
  lemma RestartForgets(w: World, a: Act, ident: Identity, x: EntityId)
    requires Good(w) && Legal(w, a) && a.DoRestart?
    ensures var n := Acted(w, a).e;
            && n.pending == []
            && (Denotes(Base(n).live, n.aliases, ident, x) <==> Owns(Base(w.e).live, x, ident))
  {
    hide Sound, Linked, Stored, Named;
    QuietAct(w, a);
    if Substitute(NO_ALIASES, ident).Some? {
      SubstituteExact(NO_ALIASES, ident);
    }
  }

  /** The speaker's reference on a resolving edge: its own promise, if it makes one of at most a
      week; else its reference on the source, if it has one there; else one that never passes. */
  lemma EdgeReference(s: Engine, obs: RelationObs, now: Time, src: EntityId, dst: EntityId)
    requires Sound(s) && ResolveEnds(Resolving(s, ObserveRelation(obs), now), obs) == Ends(src, dst)
    ensures var refs, key := ObserveRelationOp(s, obs, now).relRefs, KeyOf(Speaker(obs.producer, s.st.scope));
            var r := RelationId(obs.typ, src, dst);
            && r in refs && key in refs[r]
            && (0 < obs.interval <= WEEK ==> refs[r][key] == Ref(By(now + obs.interval), obs.interval))
            && (!(0 < obs.interval <= WEEK) && src in s.refs && key in s.refs[src] ==> refs[r][key] == s.refs[src][key])
            && (!(0 < obs.interval <= WEEK) && !(src in s.refs && key in s.refs[src]) ==>
                  refs[r][key].deadline == Never)
  {
    hide Sound, RecordAlias, ResolveEnds, AssertRelation, Resolving, Linked, Counted, Cur;
    RecordAliasKeeps(s, obs, now);
    var s1 := if obs.typ == SAME_AS then RecordAlias(s, obs, now) else s;
    AliasResolution(s, obs, now);
    EndsAreLive(s1, obs);
    AssertRelationSound(s1, obs, src, dst, now);
  }

  /** An edge a speaker observed and then keeps silent on is there after a landed sweep exactly
      when both its ends are and either its own promise, or lacking one its speaker's claim on
      the source as it stood, is not past, or another speaker holds it. */
  lemma EdgeObservedUntil(s: Engine, ops: seq<Timed>, j: nat, obs: RelationObs, r: RelationId, now: Time,
                          ids: seq<EntityId>, rids: seq<RelationId>)
    requires Sound(s) && s.st == NO_STAGED && Linked(Base(s).live) && j < |ops| && ObservesEdge(s, ops, j, obs, r)
    requires forall k :: j < k < |ops| ==> UndisturbedAt(s, ops, k, Speaker(obs.producer, ScopeAfter(ops[..j])), r)
    requires SweepOrders(Batch(s, ops, true), now, ids, rids)
    ensures var u, sp := Batch(s, ops, true), Speaker(obs.producer, ScopeAfter(ops[..j]));
            var t := ChangeEngine.Sweep(u, now, ids, rids, true).e;
            Rel(r) in Base(t).live <==>
            && Ent(r.src) in Base(t).live && Ent(r.dst) in Base(t).live
            && (|| !Past(EdgePromised(Steps(s, ops[..j]), obs, r.src, ops[j].now), now)
                || SpokenByOthers(u.relRefs, r, sp, now))
  {
    hide Sound, ScopeAfter, Batch, SweepOrders, Linked, Counted, SpokenByOthers, Spoken, EmittedFrom, UndisturbedAt,
         ObservesEdge, EdgePromised;
    var sp := Speaker(obs.producer, ScopeAfter(ops[..j]));
    var u := Batch(s, ops, true);
    AssertedEdgeIsHeld(s, ops, j, obs, r);
    BatchKeeps(s, ops, true);
    UnstagedCur(u);
    SweptEdge(u, now, ids, rids, r);
    SpokenBySpeaker(u.relRefs, r, sp, EdgePromised(Steps(s, ops[..j]), obs, r.src, ops[j].now), now);
  }

  // ------------------------------------------------------------ equivalences

  /** The observation asserts the equivalence: it is believed, with a confidence of at least
      0.9, and its two identities, of one type and with the same keys, differ in one key only,
      where the target's value is the alias and the source's the canonical one. */
  ghost predicate Equates(obs: RelationObs, claim: Claim) {
    var k := claim.alias.attr;
    && obs.confidence.Some? && obs.confidence.value >= 0.9
    && obs.src.typ == obs.dst.typ && obs.src.keys.Keys == obs.dst.keys.Keys && k in obs.src.keys
    && obs.src.keys[k] == Plain(claim.canonical) && obs.dst.keys[k] == Plain(claim.alias.value)
    && claim.canonical != claim.alias.value
    && forall x :: x in obs.src.keys && x != k ==> obs.src.keys[x] == obs.dst.keys[x]
  }

  lemma ClaimExact(obs: RelationObs, claim: Claim)
    ensures ClaimOf(obs) == Some(claim) <==> Equates(obs, claim)
  {
    var d := DifferingKeys(obs.src, obs.dst);
    if Equates(obs, claim) {
      assert d == {claim.alias.attr};
      assert TheOne(d) == claim.alias.attr;
    }
    if ClaimOf(obs) == Some(claim) {
      var k := TheOne(d);
      forall x | x in obs.src.keys && x != k
        ensures obs.src.keys[x] == obs.dst.keys[x]
      {
        if obs.src.keys[x] != obs.dst.keys[x] {
          SingletonUnique(d, x, k);
        }
      }
    }
  }

  /** The cycle on which an equivalence is said again: the edge's own, or its source's. */
  ghost function Cycle(obs: RelationObs): int {
    if obs.interval > 0 then obs.interval else obs.sourceInterval
  }

  /** An observation that asserts none changes no equivalence. */
  lemma NoEquivalence(s: Engine, obs: RelationObs, now: Time)
    requires Sound(s) && (obs.typ == Ascii("same_as") ==> forall claim :: !Equates(obs, claim))
    ensures ObserveRelationOp(s, obs, now).aliases == s.aliases
  {
    hide Sound, ObserveRelationOp, ClaimOf, AliasDeadline, Equates;
    SameAliases(s, obs, now);
    if ClaimOf(obs).Some? {
      ClaimExact(obs, ClaimOf(obs).value);
    }
  }

  /** A same_as whose cycle is at most a week is recorded, for two cycles or, without one, for
      good; on a longer cycle it is refused. */
  lemma EquivalenceRecorded(s: Engine, obs: RelationObs, now: Time, claim: Claim)
    requires Sound(s) && obs.typ == Ascii("same_as") && Equates(obs, claim)
    ensures var t, key := ObserveRelationOp(s, obs, now), KeyOf(Speaker(obs.producer, s.st.scope));
            && (Cycle(obs) > WEEK ==> t.aliases == s.aliases)
            && (Cycle(obs) <= WEEK ==>
                  && Refers(t.aliases.speakers, claim, Speaker(obs.producer, s.st.scope),
                            Exactly(if Cycle(obs) > 0 then By(now + 2 * Cycle(obs)) else Never))
                  && t.aliases.speakers == s.aliases.speakers[claim := t.aliases.speakers[claim]]
                  && t.aliases.speakers[claim] - {key} == Held(s.aliases.speakers, claim) - {key}
                  && claim.canonical in Candidates(t.aliases, claim.alias))
  {
    hide Sound, ClaimOf, FlushPending, ResolveEnds, AssertRelation, Linked, Counted, Cur;
    ClaimExact(obs, claim);
    SameAliases(s, obs, now);
    hide ObserveRelationOp, RecordAlias, Equates, Record;
    if Cycle(obs) <= WEEK {
      RecordedFor(s.aliases, claim, Speaker(obs.producer, s.st.scope), Ref(AliasDeadline(obs, now).value, 0));
    }
  }

  lemma RecordedFor(idx: AliasIndex, claim: Claim, sp: Speaker, ref: Ref)
    ensures var n := Record(idx, claim, KeyOf(sp), ref);
            && Refers(n.speakers, claim, sp, Exactly(ref.deadline))
            && n.speakers == idx.speakers[claim := n.speakers[claim]]
            && n.speakers[claim] - {KeyOf(sp)} == Held(idx.speakers, claim) - {KeyOf(sp)}
            && claim.canonical in Candidates(n, claim.alias)
  {
    hide RefKey;
  }

  /** An observation changes the equivalences only as far as it records one. */
  lemma SameAliases(s: Engine, obs: RelationObs, now: Time)
    requires Sound(s)
    ensures ObserveRelationOp(s, obs, now).aliases ==
            if obs.typ == SAME_AS && ClaimOf(obs).Some? && AliasDeadline(obs, now).Some?
            then Record(s.aliases, ClaimOf(obs).value, Key(s, obs.producer), Ref(AliasDeadline(obs, now).value, 0))
            else s.aliases
  {
    hide Sound, ClaimOf, AliasDeadline, FlushPending, ResolveEnds, AssertRelation, Record, Linked, Counted, Cur;
    var s1 := if obs.typ == SAME_AS then RecordAlias(s, obs, now) else s;
    RecordAliasKeeps(s, obs, now);
    RecordedAliases(s, obs, now);
    EndsAreLive(s1, obs);
    if ResolveEnds(s1, obs).Ends? {
      AssertRelationKeeps(s1, obs, ResolveEnds(s1, obs).src, ResolveEnds(s1, obs).dst, now);
    }
  }

  lemma RecordedAliases(s: Engine, obs: RelationObs, now: Time)
    requires Sound(s)
    ensures RecordAlias(s, obs, now).aliases ==
            if ClaimOf(obs).Some? && AliasDeadline(obs, now).Some?
            then Record(s.aliases, ClaimOf(obs).value, Key(s, obs.producer), Ref(AliasDeadline(obs, now).value, 0))
            else s.aliases
  {
    hide Sound, ClaimOf, AliasDeadline, FlushPending, Record, Linked, Counted, Cur;
    match (ClaimOf(obs), AliasDeadline(obs, now))
    case (Some(claim), Some(d)) =>
      var s1 := s.(aliases := Record(s.aliases, claim, Key(s, obs.producer), Ref(d, 0)));
      var s2 := SetPending(s1, s1.pending);
      SameCoreSound(s, s2);
      FlushPendingKeeps(s2, now);
    case _ =>
  }

  /** The index after sweeps at the given times. */
  function SweptAt(idx: AliasIndex, times: seq<Time>): AliasIndex {
    if times == [] then idx
    else Aliases.Sweep(SweptAt(idx, times[..|times| - 1]), times[|times| - 1])
  }

  /** The speaker's reference had not passed at any of the times. */
  ghost predicate Unpassed(refs: Refs, key: Str, times: seq<Time>) {
    key in refs && forall i :: 0 <= i < |times| ==> !Past(refs[key].deadline, times[i])
  }

  /** Whatever sweeps there were, an equivalence is in the index exactly when somebody's word
      for it had not passed at any of them. */
  lemma {:induction false} SweptEquivalence(idx: AliasIndex, times: seq<Time>, claim: Claim)
    requires Exact(idx) && claim in idx.speakers && idx.speakers[claim] != map[]
    ensures var n := SweptAt(idx, times);
            && Exact(n)
            && (forall key :: key in Held(n.speakers, claim) <==> Unpassed(idx.speakers[claim], key, times))
            && (forall key :: key in Held(n.speakers, claim) ==> n.speakers[claim][key] == idx.speakers[claim][key])
            && (claim.canonical in Candidates(n, claim.alias) <==>
                  exists key :: Unpassed(idx.speakers[claim], key, times))
  {
    hide Exact;
    if times == [] {
      HeldIsSpoken(idx, claim);
      var key :| key in idx.speakers[claim];
      assert Unpassed(idx.speakers[claim], key, times);
    } else {
      var k := |times| - 1;
      SweptEquivalence(idx, times[..k], claim);
      OneMoreSweep(idx.speakers[claim], SweptAt(idx, times[..k]), times, claim);
    }
  }

  lemma HeldIsSpoken(idx: AliasIndex, claim: Claim)
    requires Exact(idx)
    ensures claim.canonical in Candidates(idx, claim.alias) <==> claim in idx.speakers
  {
  }

  lemma OneMoreSweep(refs: Refs, idx: AliasIndex, times: seq<Time>, claim: Claim)
    requires Exact(idx) && times != []
    requires forall key :: key in Held(idx.speakers, claim) <==> Unpassed(refs, key, times[..|times| - 1])
    requires forall key :: key in Held(idx.speakers, claim) ==>
      key in refs && idx.speakers[claim][key] == refs[key]
    ensures var n := Aliases.Sweep(idx, times[|times| - 1]);
            && Exact(n)
            && (forall key :: key in Held(n.speakers, claim) <==> Unpassed(refs, key, times))
            && (forall key :: key in Held(n.speakers, claim) ==> key in refs && n.speakers[claim][key] == refs[key])
            && (claim.canonical in Candidates(n, claim.alias) <==> exists key :: Unpassed(refs, key, times))
  {
    var k := |times| - 1;
    var n := Aliases.Sweep(idx, times[k]);
    SweepKeepsExact(idx, times[k]);
    HeldIsSpoken(n, claim);
    hide Exact;
    forall key
      ensures Unpassed(refs, key, times) <==> Unpassed(refs, key, times[..k]) && !Past(refs[key].deadline, times[k])
    {
      UnpassedOnce(refs, key, times);
    }
    hide Unpassed;
    SweptSpeakers(idx, times[k], claim);
    if claim in n.speakers {
      var key :| key in n.speakers[claim];
      assert Unpassed(refs, key, times);
    }
  }

  lemma UnpassedOnce(refs: Refs, key: Str, times: seq<Time>)
    requires times != []
    ensures Unpassed(refs, key, times) <==>
            Unpassed(refs, key, times[..|times| - 1]) && !Past(refs[key].deadline, times[|times| - 1])
  {
    var k := |times| - 1;
    if Unpassed(refs, key, times[..k]) && !Past(refs[key].deadline, times[k]) {
      forall i | 0 <= i < |times|
        ensures !Past(refs[key].deadline, times[i])
      {
        assert i < k ==> times[..k][i] == times[i];
      }
    }
  }

  lemma SweptSpeakers(idx: AliasIndex, now: Time, claim: Claim)
    ensures var n := Aliases.Sweep(idx, now);
            && (forall key :: key in Held(n.speakers, claim) <==>
                  key in Held(idx.speakers, claim) && !Past(Held(idx.speakers, claim)[key].deadline, now))
            && (forall key :: key in Held(n.speakers, claim) ==>
                  n.speakers[claim][key] == idx.speakers[claim][key])
            && (claim in n.speakers ==> n.speakers[claim] != map[])
  {
    if claim in Vanished(idx, now) {
      forall key | key in idx.speakers[claim]
        ensures Past(idx.speakers[claim][key].deadline, now)
      {
        assert key !in Unlapsed(idx.speakers[claim], now);
      }
    }
  }

  /** So an equivalence on a cycle of at most a week, once observed, is in the index after any
      sweeps exactly when none was later than two cycles, or another speaker's word held at
      every one of them; without a cycle it stays for good. */
  lemma EquivalenceUntil(s: Engine, obs: RelationObs, now: Time, claim: Claim, times: seq<Time>)
    requires Sound(s) && Exact(s.aliases) && obs.typ == Ascii("same_as") && Equates(obs, claim) && Cycle(obs) <= WEEK
    ensures var idx, key := ObserveRelationOp(s, obs, now).aliases, KeyOf(Speaker(obs.producer, s.st.scope));
            claim.canonical in Candidates(SweptAt(idx, times), claim.alias) <==>
            || Cycle(obs) <= 0
            || (forall i :: 0 <= i < |times| ==> times[i] <= now + 2 * Cycle(obs))
            || exists other :: other != key && Unpassed(Held(s.aliases.speakers, claim), other, times)
  {
    hide Sound, ObserveRelationOp, Exact, ClaimOf, Record, Equates, AliasDeadline;
    var idx, key := ObserveRelationOp(s, obs, now).aliases, KeyOf(Speaker(obs.producer, s.st.scope));
    EquivalenceRecorded(s, obs, now, claim);
    SameAliases(s, obs, now);
    if obs.typ == SAME_AS && ClaimOf(obs).Some? && AliasDeadline(obs, now).Some? {
      RecordKeepsExact(s.aliases, ClaimOf(obs).value, Key(s, obs.producer), Ref(AliasDeadline(obs, now).value, 0));
    }
    SweptEquivalence(idx, times, claim);
    OwnOrOthers(idx.speakers[claim], Held(s.aliases.speakers, claim), key, times);
  }

  lemma OwnOrOthers(refs: Refs, were: Refs, key: Str, times: seq<Time>)
    requires key in refs && refs - {key} == were - {key}
    ensures (exists k :: Unpassed(refs, k, times)) <==>
            Unpassed(refs, key, times) || exists other :: other != key && Unpassed(were, other, times)
  {
    forall k | k != key
      ensures Unpassed(refs, k, times) <==> Unpassed(were, k, times)
    {
      assert k in refs <==> k in refs - {key};
      assert k in were <==> k in were - {key};
      assert k in refs ==> refs[k] == (refs - {key})[k];
      assert k in were ==> were[k] == (were - {key})[k];
    }
  }
}
