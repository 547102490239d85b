/** Where the liveness and wake-up guarantees end: a failed append keeps the log and the
    projection, but not the bookkeeping already updated on the way to it. */
module FailedAppends {
  import opened Text
  import opened Model
  import opened EventLog
  import opened Aliases
  import opened ChangeEngine
  import opened Overlay
  import opened EngineSteps
  import opened EngineSweep
  import opened EngineAppends
  import opened EngineRuns
  import opened WakeUps

  // ------------------------------------------------------------ sweeps

  lemma UnreferencedStays(s: Engine, now: Time, ids: seq<EntityId>, rids: seq<RelationId>, lands: bool, id: EntityId)
    requires Sound(s) && s.st == NO_STAGED && SweepOrders(s, now, ids, rids) && Linked(Base(s).live)
    requires Ent(id) in Base(s).live && id !in s.refs
    ensures var t := ChangeEngine.Sweep(s, now, ids, rids, lands).e;
            Ent(id) in Base(t).live && id !in t.refs && Sound(t) && t.st == NO_STAGED && Linked(Base(t).live)
  {
    hide Sound, SweepStaged, SweepOrders, Linked, Tally, FreshRefs, AllDistinct, Expired, KeysCounted, Dropped, Cur,
         Base;
    SweepExact(s, now, ids, rids, lands);
    SweepStagedSound(s, now, ids, rids);
    UnstagedCur(ChangeEngine.Sweep(s, now, ids, rids, lands).e);
  }

  /** A sweep whose append fails has already dropped the references of what it meant to
      expire: the entity stays live with nobody holding it, and no later sweep removes it. */
  lemma FailedSweepLeaks(s: Engine, now: Time, ids: seq<EntityId>, rids: seq<RelationId>,
                         now': Time, ids': seq<EntityId>, rids': seq<RelationId>, lands: bool, id: EntityId)
    requires Sound(s) && s.st == NO_STAGED && SweepOrders(s, now, ids, rids) && Linked(Base(s).live)
    requires Ent(id) in Base(s).live && AllLapsed(s.refs, id, now)
    requires SweepOrders(ChangeEngine.Sweep(s, now, ids, rids, false).e, now', ids', rids')
    ensures var t := ChangeEngine.Sweep(s, now, ids, rids, false).e;
            var u := ChangeEngine.Sweep(t, now', ids', rids', lands).e;
            && Ent(id) in Base(t).live && id !in t.refs
            && Ent(id) in Base(u).live && id !in u.refs
  {
    hide Sound, SweepStaged, SweepOrders, Linked, Tally, FreshRefs, AllDistinct, Expired, KeysCounted, Dropped, Cur,
         Base;
    SweepExact(s, now, ids, rids, false);
    SweepStagedSound(s, now, ids, rids);
    OrdersVisit(s, now, ids, rids);
    var t := ChangeEngine.Sweep(s, now, ids, rids, false).e;
    UnstagedCur(t);
    assert id in Orphans(DropLapsed(s.refs, now));
    UnreferencedStays(t, now', ids', rids', lands, id);
  }

  /** Everything holding the edge had lapsed, or everything holding one of its ends. */
  predicate EdgeLapsed(s: Engine, r: RelationId, now: Time) {
    AllLapsed(s.relRefs, r, now) || AllLapsed(s.refs, r.src, now) || AllLapsed(s.refs, r.dst, now)
  }

  lemma UnlapsedTwice(refs: Refs, now: Time, later: Time)
    requires now <= later
    ensures Unlapsed(Unlapsed(refs, now), later) == Unlapsed(refs, later)
  {
  }

  lemma LapsedStays<K(!new)>(refs: map<K, Refs>, k: K, now: Time, later: Time)
    requires now <= later && AllLapsed(refs, k, now)
    ensures AllLapsed(refs, k, later)
  {
    UnlapsedTwice(refs[k], now, later);
  }

  /** What a failed pass does to the references it leaves behind. */
  ghost predicate HalfSwept(s: Engine, t: Engine, now: Time) {
    && (forall x :: x in t.refs <==> x in s.refs && !AllLapsed(s.refs, x, now))
    && (forall x :: x in t.refs ==> t.refs[x] == Unlapsed(s.refs[x], now))
    && (forall r :: Rel(r) in Base(s).live ==>
          (r in t.relRefs <==> r in s.relRefs && !EdgeLapsed(s, r, now)))
    && (forall r :: Rel(r) in Base(s).live && r in t.relRefs ==> t.relRefs[r] == Unlapsed(s.relRefs[r], now))
  }

  lemma RefsHalfSwept(s: Engine, now: Time, ids: seq<EntityId>, refs: map<EntityId, Refs>)
    requires Visits(ids, Orphans(DropLapsed(s.refs, now))) && refs == DropLapsed(s.refs, now) - SetOf(ids)
    ensures forall x :: x in refs <==> x in s.refs && !AllLapsed(s.refs, x, now)
    ensures forall x :: x in refs ==> refs[x] == Unlapsed(s.refs[x], now)
  {
  }

  lemma EdgeRefsHalfSwept(s: Engine, now: Time, w: SweepState, ids: seq<EntityId>, dropped: set<RelationId>)
    requires Expired(s.(st := NO_STAGED), w, SetOf(ids), dropped) && Dropped(s, now, w.e, dropped)
    requires SweptLive(s, Base(s).live, Cur(w.e).live, now) && Linked(Base(s).live)
    ensures forall r :: Rel(r) in Base(s).live ==> (r in w.e.relRefs <==> r in s.relRefs && !EdgeLapsed(s, r, now))
    ensures forall r :: Rel(r) in Base(s).live && r in w.e.relRefs ==> w.e.relRefs[r] == Unlapsed(s.relRefs[r], now)
  {
    hide Sound, Cur, Tally, AllLapsed;
    assert Base(w.e) == Base(s);
    assert forall r :: Rel(r) in Base(s).live ==> (Rel(r) in Cur(w.e).live <==> !EdgeLapsed(s, r, now));
  }

  lemma FailedSweepBooks(s: Engine, now: Time, ids: seq<EntityId>, rids: seq<RelationId>)
    requires Sound(s) && s.st == NO_STAGED && SweepOrders(s, now, ids, rids) && Linked(Base(s).live)
    ensures var t := ChangeEngine.Sweep(s, now, ids, rids, false).e;
            Sound(t) && t.st == NO_STAGED && Base(t) == Base(s) && HalfSwept(s, t, now)
  {
    hide Sound, SweepStaged, SweepOrders, Linked, Tally, FreshRefs, AllDistinct, Expired, KeysCounted, Dropped, Cur,
         Base,
         AllLapsed, SweptLive, EdgeLapsed, DropLapsed, Orphans, SetOf;
    SweepExact(s, now, ids, rids, false);
    SweepStagedSound(s, now, ids, rids);
    OrdersVisit(s, now, ids, rids);
    var w, t := SweepStaged(s, now, ids, rids), ChangeEngine.Sweep(s, now, ids, rids, false).e;
    UnstagedCur(t);
    RefsHalfSwept(s, now, ids, w.e.refs);
    SweptLiveIs(s, now, w, ids, SetOf(rids));
    EdgeRefsHalfSwept(s, now, w, ids, SetOf(rids));
  }

  /** What a landed sweep leaves after a failed one: of what should have lapsed by then, it
      keeps exactly what had lapsed at the failed one already. */
  ghost predicate SweptLate(s: Engine, after: View, failedAt: Time, now: Time) {
    && (forall x: EntityId :: Ent(x) in after <==>
          Ent(x) in Base(s).live && (AllLapsed(s.refs, x, failedAt) || !AllLapsed(s.refs, x, now)))
    && (forall r :: Rel(r) in after <==>
          && Rel(r) in Base(s).live && Ent(r.src) in after && Ent(r.dst) in after
          && (EdgeLapsed(s, r, failedAt) || !AllLapsed(s.relRefs, r, now)))
  }

  lemma HalfSweptLapses(s: Engine, t: Engine, failedAt: Time, now: Time)
    requires HalfSwept(s, t, failedAt) && failedAt <= now
    ensures forall x :: AllLapsed(t.refs, x, now) <==> AllLapsed(s.refs, x, now) && !AllLapsed(s.refs, x, failedAt)
    ensures forall r :: Rel(r) in Base(s).live ==>
              (AllLapsed(t.relRefs, r, now) <==> AllLapsed(s.relRefs, r, now) && !EdgeLapsed(s, r, failedAt))
  {
    hide Base, EdgeLapsed;
    forall x | x in s.refs
      ensures Unlapsed(Unlapsed(s.refs[x], failedAt), now) == Unlapsed(s.refs[x], now)
    {
      UnlapsedTwice(s.refs[x], failedAt, now);
    }
    forall r | r in s.relRefs
      ensures Unlapsed(Unlapsed(s.relRefs[r], failedAt), now) == Unlapsed(s.relRefs[r], now)
    {
      UnlapsedTwice(s.relRefs[r], failedAt, now);
    }
  }

  lemma LateSweep(s: Engine, t: Engine, after: View, failedAt: Time, now: Time)
    requires HalfSwept(s, t, failedAt) && failedAt <= now && SweptLive(t, Base(s).live, after, now)
    ensures SweptLate(s, after, failedAt, now)
  {
    hide Base, EdgeLapsed, AllLapsed, HalfSwept;
    HalfSweptLapses(s, t, failedAt, now);
  }

  /** After a sweep whose append failed, the next one that lands leaves exactly this. */
  lemma SweepAfterFailed(s: Engine, failedAt: Time, ids: seq<EntityId>, rids: seq<RelationId>,
                         now: Time, ids': seq<EntityId>, rids': seq<RelationId>)
    requires Sound(s) && s.st == NO_STAGED && SweepOrders(s, failedAt, ids, rids) && Linked(Base(s).live) &&
      failedAt <= now
    requires SweepOrders(ChangeEngine.Sweep(s, failedAt, ids, rids, false).e, now, ids', rids')
    ensures var t := ChangeEngine.Sweep(s, failedAt, ids, rids, false).e;
            SweptLate(s, Base(ChangeEngine.Sweep(t, now, ids', rids', true).e).live, failedAt, now)
  {
    hide Sound, SweepStaged, SweepOrders, Linked, Tally, FreshRefs, AllDistinct, Cur, Base, HalfSwept, SweptLate,
         SweptLive,
         ChangeEngine.Sweep;
    FailedSweepBooks(s, failedAt, ids, rids);
    var t := ChangeEngine.Sweep(s, failedAt, ids, rids, false).e;
    SweepExact(t, now, ids', rids', true);
    UnstagedCur(ChangeEngine.Sweep(t, now, ids', rids', true).e);
    LateSweep(s, t, Base(ChangeEngine.Sweep(t, now, ids', rids', true).e).live, failedAt, now);
  }

  /** Something live had lapsed when the sweep failed, and is not taken by anything else. */
  ghost predicate Leaks(s: Engine, failedAt: Time, now: Time) {
    || (exists x: EntityId :: Ent(x) in Base(s).live && AllLapsed(s.refs, x, failedAt))
    || (exists r :: Rel(r) in Base(s).live && AllLapsed(s.relRefs, r, failedAt)
          && !AllLapsed(s.refs, r.src, now) && !AllLapsed(s.refs, r.dst, now))
  }

  /** The next sweep makes up for a failed one exactly when nothing live had lapsed at the
      failed one. */
  lemma SelfHealsIff(s: Engine, after: View, failedAt: Time, now: Time)
    requires SweptLate(s, after, failedAt, now) && failedAt <= now && Linked(Base(s).live)
    ensures (forall x: EntityId :: Ent(x) in after <==> Ent(x) in Base(s).live && !AllLapsed(s.refs, x, now)) &&
            (forall r :: Rel(r) in after <==>
               Rel(r) in Base(s).live && Ent(r.src) in after && Ent(r.dst) in after && !AllLapsed(s.relRefs, r, now))
            <==> !Leaks(s, failedAt, now)
  {
    hide Base, AllLapsed;
    forall x: EntityId | AllLapsed(s.refs, x, failedAt)
      ensures AllLapsed(s.refs, x, now)
    {
      LapsedStays(s.refs, x, failedAt, now);
    }
    forall r | AllLapsed(s.relRefs, r, failedAt)
      ensures AllLapsed(s.relRefs, r, now)
    {
      LapsedStays(s.relRefs, r, failedAt, now);
    }
  }

  // ------------------------------------------------------------ batches

  lemma NoSubstitute(i: Identity)
    ensures Substitute(NO_ALIASES, i) == None
  {
    forall k | k in i.keys
      ensures Aliases.Canonical(NO_ALIASES, k, i.keys[k]).None?
    {
      if i.keys[k].Plain? {
        assert Candidates(NO_ALIASES, AliasKey(k, i.keys[k].text)) == {};
      }
    }
  }

  /** Deleting the last reference to a live entity leaves its identity without an owner. */
  lemma LastReleaseKills(s: Engine, obs: EntityObs, now: Time, id: EntityId)
    requires Sound(s) && Owns(Cur(s).live, id, obs.ident) && Held(s.refs, id) - {Key(s, obs.producer)} == map[]
    ensures var t := DeleteEntityOp(s, obs, now);
            && Sound(t) && Ent(id) !in Cur(t).live && t.aliases == s.aliases && t.bufferTTL == s.bufferTTL
            && t.st.scope == s.st.scope && t.log == s.log
            && !exists x: EntityId :: Owns(Cur(t).live, x, obs.ident)
  {
    hide Sound, Cascade, Commit;
    MatchIsOwner(s, obs.ident);
    assert MatchIdentity(s, obs.ident) == Some(id) by {
      MatchedEmits(s, obs, now, id);
    }
    var s0 := s.(refs := s.refs - {id});
    SameCoreSound(s, s0);
    KillSound(s0, id, Entity(id, obs.ident, obs.attrs, obs.schema), obs.eventTime, now);
    var t := DeleteEntityOp(s, obs, now);
    forall x: EntityId
      ensures !Owns(Cur(t).live, x, obs.ident)
    {
      if Owns(Cur(t).live, x, obs.ident) {
        assert Owns(Cur(s).live, x, obs.ident);
        MatchedEmits(s, obs, now, id);
      }
    }
  }

  lemma TwoSteps(s: Engine, a: Timed, b: Timed)
    ensures Steps(s, [a, b]) == Step(Step(s, a.op, a.now), b.op, b.now)
  {
    hide Step;
    assert [a, b][..1] == [a] && [a][..0] == [];
    assert Steps(s, [a]) == Step(s, a.op, a.now);
  }

  lemma ParkedLast(s: Engine, obs: RelationObs, now: Time)
    requires s.bufferTTL > 0
    ensures var t := Park(s, obs, now);
            exists p :: p in t.pending && now <= p.deadline && p.obs == obs
    ensures Park(s, obs, now).aliases == s.aliases && Park(s, obs, now).log == s.log
  {
    var t := Park(s, obs, now);
    assert t.pending[|t.pending| - 1] == Pending(obs, now + Hold(s, obs), s.st.scope);
  }

  /** A failed batch that released an entity and then asserted an edge to it leaves that edge
      parked although both its endpoints are live. */
  lemma FailedDeleteLosesWakeUp(s: Engine, del: EntityObs, rel: RelationObs, now: Time, a: EntityId, b: EntityId)
    requires Sound(s) && s.st == NO_STAGED && s.aliases == NO_ALIASES && s.bufferTTL > 0
    requires Owns(Base(s).live, a, rel.src) && Owns(Base(s).live, b, rel.dst)
    requires del.ident == rel.dst && Held(s.refs, b) - {Key(s, del.producer)} == map[] && rel.typ != SAME_AS
    ensures var t := Batch(s, [Timed(DeleteEntity(del), now), Timed(ObserveRelation(rel), now)], false);
            exists p :: p in t.pending && now <= p.deadline && p.obs == rel && !Waiting(Base(t).live, t.aliases, p)
  {
    hide Sound, DeleteEntityOp, ResolveEnds, Steps, Park, Cur, Base;
    var ops := [Timed(DeleteEntity(del), now), Timed(ObserveRelation(rel), now)];
    assert s.(st := NO_STAGED) == s;
    UnstagedCur(s);
    LastReleaseKills(s, del, now, b);
    var s1 := DeleteEntityOp(s, del, now);
    TwoSteps(s, ops[0], ops[1]);
    NoSubstitute(rel.dst);
    EndsAreLive(s1, rel);
    var u := Park(s1, rel, now);
    assert Steps(s, ops) == u;
    ParkedLast(s1, rel, now);
    SameLogBase(s, Flush(u, false));
  }

  // ------------------------------------------------------------ alias lapses

  /** Two speakers dispute what an alias stands for; when one claim lapses the other becomes
      unambiguous, though no observation arrived. */
  lemma LapseDisambiguates(k: AliasKey, kept: Str, lapsed: Str, sp: Str, t: Time, now: Time, typ: Str)
    requires kept != lapsed && t < now
    ensures var idx := AliasIndex(map[Claim(k, kept) := map[sp := Ref(Never, 0)],
      Claim(k, lapsed) := map[sp := Ref(By(t), 0)]],
                                  map[k := {kept, lapsed}]);
            var ident := Identity(typ, map[k.attr := Plain(k.value)]);
            && Substitute(idx, ident) == None
            && Substitute(Aliases.Sweep(idx, now), ident) == Some(Identity(typ, map[k.attr := Plain(kept)]))
            && !HoldsFor(idx, now, ident)
  {
    var idx := AliasIndex(map[Claim(k, kept) := map[sp := Ref(Never, 0)], Claim(k, lapsed) := map[sp := Ref(By(t), 0)]],
                          map[k := {kept, lapsed}]);
    var ident := Identity(typ, map[k.attr := Plain(k.value)]);
    assert |Candidates(idx, k)| == 2;
    assert AliasKey(k.attr, k.value) == k;
    assert Aliases.Canonical(idx, k.attr, ident.keys[k.attr]) == None;
    assert Substitute(idx, ident) == None;
    var gone := Vanished(idx, now);
    assert gone == {Claim(k, lapsed)} by {
      assert Unlapsed(map[sp := Ref(By(t), 0)], now) == map[];
      assert sp in Unlapsed(map[sp := Ref(Never, 0)], now);
    }
    assert Left({kept, lapsed}, k, gone) == {kept};
    var swept := Aliases.Sweep(idx, now);
    assert Candidates(swept, k) == {kept};
    assert Aliases.Canonical(swept, k.attr, ident.keys[k.attr]) == Some(kept);
    assert Substitute(swept, ident).value.keys == map[k.attr := Plain(kept)];
  }

  /** A sweep that lapses such a claim can leave an edge parked although both its endpoints
      have become resolvable. */
  lemma LapseLosesWakeUp(s: Engine, now: Time, ids: seq<EntityId>, rids: seq<RelationId>, lands: bool,
                         p: Pending, a: EntityId, b: EntityId)
    requires Sound(s) && s.st == NO_STAGED && SweepOrders(s, now, ids, rids) && Linked(Base(s).live)
    requires p in s.pending && now <= p.deadline && Owns(Base(s).live, a, p.obs.src)
    requires Substitute(Aliases.Sweep(s.aliases, now), p.obs.dst).Some?
    requires Owns(Base(s).live, b, Substitute(Aliases.Sweep(s.aliases, now), p.obs.dst).value)
    requires !AllLapsed(s.refs, a, now) && !AllLapsed(s.refs, b, now)
    ensures var t := ChangeEngine.Sweep(s, now, ids, rids, lands).e;
            p in t.pending && !Waiting(Base(t).live, t.aliases, p)
  {
    hide Sound, SweepStaged, SweepOrders, Linked, Tally, FreshRefs, AllDistinct, AllLapsed, Cur, Base, Substitute,
         Aliases.Sweep, UnexpiredPending;
    SweepExact(s, now, ids, rids, lands);
    UnstagedCur(ChangeEngine.Sweep(s, now, ids, rids, lands).e);
    SweepBooks(s, now, ids, rids, lands);
    UnexpiredSubset(s.pending, now);
    var t := ChangeEngine.Sweep(s, now, ids, rids, lands).e;
    assert Owns(Base(t).live, a, p.obs.src);
    assert Owns(Base(t).live, b, Substitute(t.aliases, p.obs.dst).value);
  }
}
