/** What single decisions of the engine mean: which change is a state change, when a
    reference lapses, what an alias stands for, and whom a parked edge is credited to. */
module EngineMeaning {
  import opened Text
  import opened Model
  import opened EventLog
  import opened Aliases
  import opened SpeakerKeys
  import opened ChangeEngine
  import opened Overlay
  import opened EngineSteps
  import opened Survival
  import opened EdgeSurvival
  import CanonicalValue

  // ------------------------------------------------------------ classification

  /** The value of k moved, came or went. */
  predicate Moved(before: Attrs, after: Attrs, k: Str) {
    (k in before) != (k in after) || (k in before && k in after && before[k] != after[k])
  }

  /** A re-observation is a heartbeat exactly when nothing moved, and a state change exactly
      when a state key did. */
  lemma ClassificationExact(before: Attrs, after: Attrs)
    ensures Classify(before, after) == Unchanged <==> forall k :: !Moved(before, after, k)
    ensures Classify(before, after) == StateChanged <==> exists k :: k in STATE_KEYS && Moved(before, after, k)
  {
    var changed := CanonicalValue.ChangedKeys(before, after);
    assert forall k :: k in changed <==> Moved(before, after, k);
    if Classify(before, after) == StateChanged {
      var k :| k in changed * STATE_KEYS;
      assert k in STATE_KEYS && Moved(before, after, k);
    }
    if k :| k in STATE_KEYS && Moved(before, after, k) {
      assert k in changed * STATE_KEYS;
    }
  }

  // ------------------------------------------------------------ aliases

  lemma OneDifference(obs: RelationObs)
    requires ClaimOf(obs).Some?
    ensures var k := ClaimOf(obs).value.alias.attr;
            && obs.src.typ == obs.dst.typ && obs.src.keys.Keys == obs.dst.keys.Keys && k in obs.src.keys
            && obs.src.keys[k] == Plain(ClaimOf(obs).value.canonical) &&
              obs.dst.keys[k] == Plain(ClaimOf(obs).value.alias.value)
            && obs.src.keys[k] != obs.dst.keys[k]
            && (forall x :: x in obs.src.keys && x != k ==> obs.src.keys[x] == obs.dst.keys[x])
  {
    var d := DifferingKeys(obs.src, obs.dst);
    var k := TheOne(d);
    forall x | x in obs.src.keys && x != k
      ensures obs.src.keys[x] == obs.dst.keys[x]
    {
      if obs.src.keys[x] != obs.dst.keys[x] {
        SingletonUnique(d, x, k);
      }
    }
  }

  /** A believed equivalence, as long as nothing disputes it and no other value of the
      identity is aliased, makes its target resolve as its source -- and not the reverse. */
  lemma AliasPointsToSource(obs: RelationObs, speaker: Str, ref: Ref)
    requires ClaimOf(obs).Some?
    ensures Substitute(Record(NO_ALIASES, ClaimOf(obs).value, speaker, ref), obs.dst) == Some(obs.src)
    ensures Substitute(Record(NO_ALIASES, ClaimOf(obs).value, speaker, ref), obs.src) == None
  {
    OneDifference(obs);
    var claim := ClaimOf(obs).value;
    var idx := Record(NO_ALIASES, claim, speaker, ref);
    var k := claim.alias.attr;
    forall x, v: IdValue
      ensures Aliases.Canonical(idx, x, v) ==
        if v.Plain? && AliasKey(x, v.text) == claim.alias then Some(claim.canonical) else None
    {
      OneCandidate(claim, speaker, ref, x, v);
    }
    assert Aliases.Canonical(idx, k, obs.dst.keys[k]).Some?;
    assert Substitute(idx, obs.dst).value.keys == obs.src.keys;
  }

  lemma OneCandidate(claim: Claim, speaker: Str, ref: Ref, x: Str, v: IdValue)
    ensures Aliases.Canonical(Record(NO_ALIASES, claim, speaker, ref), x, v) ==
            if v.Plain? && AliasKey(x, v.text) == claim.alias then Some(claim.canonical) else None
  {
    var idx := Record(NO_ALIASES, claim, speaker, ref);
    if v.Plain? {
      var key := AliasKey(x, v.text);
      if key == claim.alias {
        assert Candidates(idx, key) == {claim.canonical};
      } else {
        assert Candidates(idx, key) == {};
      }
    }
  }

  /** Two canonical values for one alias resolve nothing. */
  lemma DisputedAliasResolvesNothing(idx: AliasIndex, k: AliasKey, a: Str, b: Str, sp: Str, ref: Ref)
    requires a != b && a in Candidates(idx, k)
    ensures Resolve(Record(idx, Claim(k, b), sp, ref), k) == None
  {
    var n := Record(idx, Claim(k, b), sp, ref);
    var r := Resolve(n, k);
    if r.Some? {
      SingletonUnique(Candidates(n, k), a, b);
    }
  }

  /** An endpoint whose exact identity is live resolves to its owner, aliases or not. */
  lemma ExactIdentityWins(s: Engine, ident: Identity, id: EntityId)
    requires Sound(s) && Owns(Cur(s).live, id, ident)
    ensures ResolveEndpoint(s, ident) == Found(id, false)
  {
    MatchIsOwner(s, ident);
    OneOwner(s, ident);
  }

  // ------------------------------------------------------------ releases and credits

  /** The last speaker to release an edge removes it. */
  lemma LastReleaseRemoves(s: Engine, obs: RelationObs, now: Time)
    requires Sound(s) && ResolveEnds(s, obs).Ends?
    requires var rid := RelationId(obs.typ, ResolveEnds(s, obs).src, ResolveEnds(s, obs).dst);
             Held(s.relRefs, rid) - {Key(s, obs.producer)} == map[]
    ensures var rid := RelationId(obs.typ, ResolveEnds(s, obs).src, ResolveEnds(s, obs).dst);
            var t := RemoveRelationOp(s, obs, now);
            Rel(rid) !in Cur(t).live && rid !in t.relRefs && SameEntities(Cur(s).live, Cur(t).live)
  {
    hide Sound, ResolveEnds, RemovedEvent;
    var e := ResolveEnds(s, obs);
    var rid := RelationId(obs.typ, e.src, e.dst);
    var s1 := s.(relRefs := s.relRefs - {rid});
    SameCoreSound(s, s1);
    GetRelationIsLive(s, rid);
    if GetRelation(s, rid).Some? {
      SameRemovedEvent(s, s1, rid, obs.eventTime, now);
      RemoveEdgeSound(s1, rid, obs.eventTime, now);
    }
  }

  /** A parked edge that wakes is credited to the speaker that asserted it, not to the one
      whose observation completed it. */
  lemma ParkedEdgeCredited(s: Engine, p: Pending, now: Time)
    requires Sound(s) && now <= p.deadline && ResolveEnds(s, p.obs).Ends?
    ensures var e := ResolveEnds(s, p.obs);
            var s0 := s.(st := s.st.(scope := p.scope));
            var t := Retry(s, p, now).0;
            && HoldsEdge(t, RelationId(p.obs.typ, e.src, e.dst), Speaker(p.obs.producer, p.scope),
                         Exactly(EdgePromised(s0, p.obs, e.src, now)))
            && t.st.scope == s.st.scope
  {
    hide Sound, ResolveEnds, AssertRelation, Cur;
    EndsAreLive(s, p.obs);
    var e := ResolveEnds(s, p.obs);
    var s0 := s.(st := s.st.(scope := p.scope));
    SameCoreSound(s, s0);
    AssertRelationSound(s0, p.obs, e.src, e.dst, now);
    EdgeAssertionHolds(s0, p.obs, e.src, e.dst, now);
    var s1 := AssertRelation(s0, p.obs, e.src, e.dst, now);
    SameCoreSound(s1, s1.(st := s1.st.(scope := s.st.scope)));
  }

  /** ... and is then what was observed when it was parked, as its report says. */
  lemma ParkedEdgeReported(s: Engine, p: Pending, now: Time)
    requires Sound(s) && now <= p.deadline && ResolveEnds(s, p.obs).Ends?
    ensures var e, t := ResolveEnds(s, p.obs), Retry(s, p, now).0;
            var r := RelationId(p.obs.typ, e.src, e.dst);
            && Cur(t).live == Cur(s).live[Rel(r) := RelCore(p.obs.attrs)]
            && t.st.events == s.st.events + EdgeReport(Cur(s).live, r, p.obs, now)
  {
    hide Sound, ResolveEnds, AssertRelation, Cur, EdgeReport;
    EndsAreLive(s, p.obs);
    var e := ResolveEnds(s, p.obs);
    var s0 := s.(st := s.st.(scope := p.scope));
    SameCoreSound(s, s0);
    AssertRelationSound(s0, p.obs, e.src, e.dst, now);
    AssertRelationReports(s0, p.obs, e.src, e.dst, now);
    var s1 := AssertRelation(s0, p.obs, e.src, e.dst, now);
    SameCoreSound(s1, s1.(st := s1.st.(scope := s.st.scope)));
  }
}
