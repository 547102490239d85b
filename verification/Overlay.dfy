/** The overlay refines the projection: at every point of a batch, reading the staged
    effects over the untouched projection gives the live answers of the log with the
    staged events appended. */
module Overlay {
  import opened Model
  import opened EventLog
  import opened ChangeEngine
  import P = Projection

  // ------------------------------------------------------------ what the overlay means

  ghost predicate EntitiesOverlaid(st: Staged, base: View, cur: View) {
    && (forall id :: id in st.entities ==> st.entities[id].id == id)
    && (forall id :: Ent(id) in cur <==> (id in st.entities || Ent(id) in base) && id !in st.deleted)
    && (forall id :: Ent(id) in cur ==>
          cur[Ent(id)] == if id in st.entities then CoreOf(st.entities[id]) else base[Ent(id)])
  }

  /** A staged hash entry answers for its identity, alone; an identity without one has the
      owner the projection knows. */
  ghost predicate HashesOverlaid(st: Staged, base: View, cur: View) {
    && (forall i :: i in st.byHash ==> st.byHash[i] in st.entities && st.entities[st.byHash[i]].ident == i)
    && (forall i, id :: i in st.byHash && Owns(cur, id, i) ==> id == st.byHash[i])
    && (forall i, id :: Owns(cur, id, i) ==> i in st.byHash || Owns(base, id, i))
  }

  ghost predicate RelationsOverlaid(st: Staged, base: View, cur: View) {
    && (forall r :: r in st.relations ==> st.relations[r].id == r && r !in st.removed)
    && (forall r :: Rel(r) in cur <==> r in st.relations || (Rel(r) in base && r !in st.removed))
    && (forall r :: Rel(r) in cur ==>
          cur[Rel(r)] == if r in st.relations then RelCore(st.relations[r].attrs) else base[Rel(r)])
  }

  ghost predicate StagedNames(st: Staged, ident: map<EntityId, Identity>) {
    forall id :: id in st.entities ==> id in ident && ident[id] == st.entities[id].ident
  }

  ghost predicate Overlaid(st: Staged, base: View, cur: History) {
    && EntitiesOverlaid(st, base, cur.live)
    && HashesOverlaid(st, base, cur.live)
    && RelationsOverlaid(st, base, cur.live)
    && StagedNames(st, cur.ident)
  }

  // ------------------------------------------------------------ staging one event

  lemma StageEntityEvent(st: Staged, base: View, h: History, ev: Event)
    requires EntitiesOverlaid(st, base, h.live) && Emitted(h, ev) && ev.EntityEvent?
    ensures EntitiesOverlaid(Stage(st, ev), base, NextLive(h.live, ev))
  {
    var n := NextLive(h.live, ev);
    assert forall id :: id != ev.entity.id ==> (Ent(id) in n <==> Ent(id) in h.live);
  }

  lemma StageEntities(st: Staged, base: View, h: History, ev: Event)
    requires EntitiesOverlaid(st, base, h.live) && Emitted(h, ev)
    ensures EntitiesOverlaid(Stage(st, ev), base, NextLive(h.live, ev))
  {
    if ev.RelationEvent? {
      assert forall id :: Ent(id) in NextLive(h.live, ev) <==> Ent(id) in h.live;
    } else {
      StageEntityEvent(st, base, h, ev);
    }
  }

  lemma CreatedHashes(st: Staged, base: View, cur: View, e: Entity)
    requires HashesOverlaid(st, base, cur) && SoleOwner(cur, e.id, e.ident) && Ent(e.id) !in cur
    requires e.id in st.entities ==> st.entities[e.id].ident == e.ident
    ensures HashesOverlaid(st.(entities := st.entities[e.id := e], byHash := st.byHash[e.ident := e.id]),
                           base, cur[Ent(e.id) := CoreOf(e)])
  {
    var n := cur[Ent(e.id) := CoreOf(e)];
    assert forall id: EntityId, i :: Owns(n, id, i) && id != e.id ==> Owns(cur, id, i);
    assert forall i :: Owns(n, e.id, i) ==> i == e.ident;
  }

  lemma FewerOwnersHashes(st: Staged, st': Staged, base: View, cur: View, n: View)
    requires HashesOverlaid(st, base, cur) && st'.byHash == st.byHash
    requires forall id :: id in st.entities ==> id in st'.entities && st'.entities[id].ident == st.entities[id].ident
    requires forall id: EntityId, i :: Owns(n, id, i) ==> Owns(cur, id, i)
    ensures HashesOverlaid(st', base, n)
  {
  }

  lemma SameHashes(st: Staged, st': Staged, base: View, cur: View)
    requires HashesOverlaid(st, base, cur) && st'.byHash == st.byHash && st'.entities == st.entities
    ensures HashesOverlaid(st', base, cur)
  {
  }

  lemma StageHashes(st: Staged, base: View, h: History, ev: Event)
    requires HashesOverlaid(st, base, h.live) && StagedNames(st, h.ident)
    requires Coherent(h) && Emitted(h, ev)
    ensures HashesOverlaid(Stage(st, ev), base, NextLive(h.live, ev))
  {
    hide HashesOverlaid;
    var n, st' := NextLive(h.live, ev), Stage(st, ev);
    if ev.EntityEvent? && ev.change == Created {
      CreatedHashes(st, base, h.live, ev.entity);
      var st1 := st.(entities := st.entities[ev.entity.id := ev.entity],
        byHash := st.byHash[ev.entity.ident := ev.entity.id]);
      SameHashes(st1, st', base, n);
    } else {
      EmittedOwnersShrink(h, ev);
      FewerOwnersHashes(st, st', base, h.live, n);
    }
  }

  /** Only a create gives an identity a new live owner. */
  lemma EmittedOwnersShrink(h: History, ev: Event)
    requires Coherent(h) && Emitted(h, ev) && !(ev.EntityEvent? && ev.change == Created)
    ensures forall id: EntityId, i :: Owns(NextLive(h.live, ev), id, i) ==> Owns(h.live, id, i)
  {
  }

  lemma StageRelations(st: Staged, base: View, h: History, ev: Event)
    requires RelationsOverlaid(st, base, h.live) && Emitted(h, ev)
    ensures RelationsOverlaid(Stage(st, ev), base, NextLive(h.live, ev))
  {
    if ev.EntityEvent? {
      EntityEventKeepsRelations(h.live, ev);
      StageKeepsRelations(st, ev);
    } else {
      StageOneRelation(st, base, h, ev);
    }
  }

  lemma EntityEventKeepsRelations(live: View, ev: Event)
    requires ev.EntityEvent?
    ensures forall r :: Rel(r) in NextLive(live, ev) <==> Rel(r) in live
    ensures forall r :: Rel(r) in live ==> NextLive(live, ev)[Rel(r)] == live[Rel(r)]
  {
  }

  lemma StageKeepsRelations(st: Staged, ev: Event)
    requires ev.EntityEvent?
    ensures Stage(st, ev).relations == st.relations && Stage(st, ev).removed == st.removed
  {
  }

  lemma StageOneRelation(st: Staged, base: View, h: History, ev: Event)
    requires RelationsOverlaid(st, base, h.live) && ev.RelationEvent?
    ensures RelationsOverlaid(Stage(st, ev), base, NextLive(h.live, ev))
  {
  }

  lemma StageOverlaid(st: Staged, base: View, h: History, ev: Event)
    requires Overlaid(st, base, h) && Coherent(h) && Emitted(h, ev)
    ensures Overlaid(Stage(st, ev), base, Next(h, ev))
  {
    StageEntities(st, base, h, ev);
    StageHashes(st, base, h, ev);
    StageRelations(st, base, h, ev);
    StageNames(st, h, ev);
  }

  lemma StageNames(st: Staged, h: History, ev: Event)
    requires StagedNames(st, h.ident) && Emitted(h, ev)
    ensures StagedNames(Stage(st, ev), NextIdent(h.ident, ev))
  {
  }

  // ------------------------------------------------------------ the engine's core invariant

  /** The history of the durable log, and of the log with the staged events appended. */
  ghost function Base(s: Engine): History {
    Replay(s.log)
  }

  ghost function Cur(s: Engine): History {
    ReplayFrom(Replay(s.log), s.st.events)
  }

  /** Every id in sight was minted, and staged events keep the names the projection knows. */
  ghost predicate Minted(s: Engine) {
    && (forall id :: id in Cur(s).ident ==> id < s.nextId)
    && (forall id :: id in s.g.entities ==> id < s.nextId)
    && P.SameNames(s.g.entities, Cur(s).ident)
    && (forall k :: 0 <= k < |s.st.events| ==> P.KeepsName(s.g, s.st.events[k]))
  }

  /** The projection shows the durable log, the staged events are what the engine may emit
      after it, and the overlay means them. */
  ghost predicate Sound(s: Engine) {
    && AllowedLog(s.log)
    && P.Tracks(s.g, Base(s))
    && EmittedFrom(Base(s), s.st.events)
    && Coherent(Cur(s))
    && Overlaid(s.st, Base(s).live, Cur(s))
    && Minted(s)
  }

  /** Soundness does not depend on the liveness bookkeeping. */
  ghost predicate SameCore(s: Engine, t: Engine) {
    s.g == t.g && s.log == t.log && s.nextId == t.nextId && s.st.(scope := t.st.scope) == t.st
  }

  lemma SameCoreSound(s: Engine, t: Engine)
    requires Sound(s) && SameCore(s, t)
    ensures Sound(t) && Cur(t) == Cur(s) && Base(t) == Base(s)
  {
    assert s.st.events == t.st.events;
    assert Overlaid(t.st, Base(s).live, Cur(s));
  }

  // ------------------------------------------------------------ overlay reads

  /** matchIdentity answers with the live owner of the identity. */
  lemma MatchIsOwner(s: Engine, i: Identity)
    requires Sound(s)
    ensures MatchIdentity(s, i).Some? ==> Owns(Cur(s).live, MatchIdentity(s, i).value, i)
    ensures MatchIdentity(s, i).None? ==> forall id :: !Owns(Cur(s).live, id, i)
  {
    if i in s.st.byHash {
      StagedMatch(s, i);
    } else {
      ProjectedMatch(s, i);
    }
  }

  lemma StagedMatch(s: Engine, i: Identity)
    requires Sound(s) && i in s.st.byHash
    ensures MatchIdentity(s, i).Some? ==> Owns(Cur(s).live, MatchIdentity(s, i).value, i)
    ensures MatchIdentity(s, i).None? ==> forall id :: !Owns(Cur(s).live, id, i)
  {
    hide Minted, P.Tracks, AllowedLog, EmittedFrom, Coherent, RelationsOverlaid;
    var id := s.st.byHash[i];
    assert id !in s.st.deleted ==> Owns(Cur(s).live, id, i);
  }

  lemma ProjectedMatch(s: Engine, i: Identity)
    requires Sound(s) && i !in s.st.byHash
    ensures MatchIdentity(s, i).Some? ==> Owns(Cur(s).live, MatchIdentity(s, i).value, i)
    ensures MatchIdentity(s, i).None? ==> forall id :: !Owns(Cur(s).live, id, i)
  {
    hide Minted, P.Indexed, P.Shows, AllowedLog, RelationsOverlaid, P.MatchIdentity;
    var cur, base := Cur(s).live, Base(s).live;
    assert forall id :: Owns(cur, id, i) ==> Owns(base, id, i);
    MatchInGraph(s.g, Base(s), i);
    match P.MatchIdentity(s.g, i)
    case Some(id) =>
      if id !in s.st.deleted {
        assert Ent(id) in cur;
        NamesOnlyGrow(Base(s), s.st.events);
        OwnedKeepsIdentity(s.st, Base(s), Cur(s), id, i);
      }
    case None =>
  }

  lemma OneOwner(s: Engine, i: Identity)
    requires Sound(s)
    ensures forall a, b :: Owns(Cur(s).live, a, i) && Owns(Cur(s).live, b, i) ==> a == b
  {
  }

  lemma MatchInGraph(g: P.Graph, h: History, i: Identity)
    requires P.Tracks(g, h)
    ensures P.MatchIdentity(g, i).Some? ==> Owns(h.live, P.MatchIdentity(g, i).value, i)
    ensures forall id: EntityId :: Owns(h.live, id, i) ==> P.MatchIdentity(g, i) == Some(id)
  {
    if i in g.byHash {
      assert g.byHash[i] in P.Live(g);
    }
    forall id: EntityId | Owns(h.live, id, i)
      ensures P.MatchIdentity(g, i) == Some(id)
    {
      assert id in P.Live(g);
    }
  }

  lemma OwnedKeepsIdentity(st: Staged, base: History, cur: History, id: EntityId, i: Identity)
    requires EntitiesOverlaid(st, base.live, cur.live) && StagedNames(st, cur.ident)
    requires Coherent(base) && KnowsLess(base.ident, cur.ident)
    requires Owns(base.live, id, i) && Ent(id) in cur.live
    ensures Owns(cur.live, id, i)
  {
  }

  lemma {:induction false} NamesOnlyGrow(h: History, evs: seq<Event>)
    requires EmittedFrom(h, evs)
    ensures KnowsLess(h.ident, ReplayFrom(h, evs).ident)
  {
    if evs != [] {
      NamesOnlyGrow(h, evs[..|evs| - 1]);
    }
  }

  /** getEntity answers with the live state, and never presents a dead entity as live. */
  lemma GetEntityIsLive(s: Engine, id: EntityId)
    requires Sound(s)
    ensures var (e, deleted) := GetEntity(s, id);
            && (Ent(id) in Cur(s).live <==> e.Some? && !deleted)
            && (Ent(id) in Cur(s).live ==> Cur(s).live[Ent(id)] == CoreOf(e.value) && e.value.id == id)
  {
    assert Ent(id) in Base(s).live <==> id in P.Live(s.g);
  }

  /** getRelation answers with the live edge. */
  lemma GetRelationIsLive(s: Engine, r: RelationId)
    requires Sound(s)
    ensures Rel(r) in Cur(s).live <==> GetRelation(s, r).Some?
    ensures Rel(r) in Cur(s).live ==>
              Cur(s).live[Rel(r)] == RelCore(GetRelation(s, r).value.attrs) && GetRelation(s, r).value.id == r
  {
    assert Rel(r) in Base(s).live <==> r in s.g.relations;
  }

  /** listRelationsTouching lists exactly the live edges of an entity, each once. */
  lemma TouchingIsLive(s: Engine, id: EntityId)
    requires Sound(s)
    ensures forall r :: r in ListRelationsTouching(s, id) <==> Rel(r) in Cur(s).live && Touches(r, id)
    ensures forall i, j :: 0 <= i < j < |ListRelationsTouching(s, id)| ==>
              ListRelationsTouching(s, id)[i] != ListRelationsTouching(s, id)[j]
  {
    forall r
      ensures r in TouchingSet(s, id) <==> Rel(r) in Cur(s).live && Touches(r, id)
    {
      assert Rel(r) in Base(s).live <==> r in s.g.relations;
    }
  }

  /** A tombstone offered for resurrection belongs to the identity and is not live. */
  lemma TombstoneIsDead(s: Engine, i: Identity, now: Time)
    requires Sound(s) && MatchIdentity(s, i).None? && MatchTombstone(s, i, now).Some?
    ensures var id := MatchTombstone(s, i, now).value;
            && id in s.g.entities && s.g.entities[id].ident == i && Ent(id) !in Cur(s).live
            && (id in Cur(s).ident ==> Cur(s).ident[id] == i)
  {
    var id := MatchTombstone(s, i, now).value;
    assert P.TombExact(s.g.entities, s.g.deleted, s.g.tombByHash, s.g.byHash);
    assert id == s.g.tombByHash[i];
    MatchIsOwner(s, i);
    if Ent(id) in Cur(s).live {
      assert Owns(Cur(s).live, id, i);
    }
  }

  // ------------------------------------------------------------ committing

  lemma CommitSound(s: Engine, ev: Event)
    requires Sound(s) && Emitted(Cur(s), ev) && P.KeepsName(s.g, ev)
    requires ev.EntityEvent? ==> ev.entity.id < s.nextId
    ensures Sound(Commit(s, ev)) && Cur(Commit(s, ev)) == Next(Cur(s), ev)
    ensures Base(Commit(s, ev)) == Base(s)
  {
    Snoc(Base(s), s.st.events, ev);
    StageOverlaid(s.st, Base(s).live, Cur(s), ev);
    CoherentStep(Cur(s), ev);
    StageAppends(s.st, ev);
    MintedStep(s, ev);
  }

  lemma StageAppends(st: Staged, ev: Event)
    ensures Stage(st, ev).events == st.events + [ev] && Stage(st, ev).scope == st.scope
  {
  }

  lemma MintedStep(s: Engine, ev: Event)
    requires Minted(s) && P.KeepsName(s.g, ev) && (ev.EntityEvent? ==> ev.entity.id < s.nextId)
    ensures Minted(Commit(s, ev))
  {
    Snoc(Base(s), s.st.events, ev);
    StageAppends(s.st, ev);
  }

  // ------------------------------------------------------------ flushing

  /** The projection keeps tracking the log while a batch of emitted events is applied. */
  lemma {:induction false} FlushTracks(g: P.Graph, h: History, evs: seq<Event>)
    requires P.Tracks(g, h) && EmittedFrom(h, evs)
    requires forall k :: 0 <= k < |evs| ==> P.KeepsName(g, evs[k])
    ensures P.Tracks(P.ApplyAll(g, evs), ReplayFrom(h, evs))
    ensures forall id :: id in P.ApplyAll(g, evs).entities ==>
              || id in ReplayFrom(h, evs).ident
              || (id in g.entities && P.ApplyAll(g, evs).entities[id].ident == g.entities[id].ident)
  {
    if evs != [] {
      var n := |evs| - 1;
      FlushTracks(g, h, evs[..n]);
      var g1, h1 := P.ApplyAll(g, evs[..n]), ReplayFrom(h, evs[..n]);
      assert P.KeepsName(g, evs[n]);
      assert P.KeepsName(g1, evs[n]);
      P.TrackStep(g1, h1, evs[n]);
      P.ApplyEntities(g1, evs[n]);
      OldNames(g, g1, h1, evs[n]);
    }
  }

  lemma OldNames(g: P.Graph, g1: P.Graph, h1: History, ev: Event)
    requires forall id :: id in g1.entities ==>
      id in h1.ident || (id in g.entities && g1.entities[id].ident == g.entities[id].ident)
    ensures forall id :: id in P.Apply(g1, ev).entities ==>
              || id in NextIdent(h1.ident, ev)
              || (id in g.entities && P.Apply(g1, ev).entities[id].ident == g.entities[id].ident)
  {
    P.ApplyEntities(g1, ev);
    var n := P.Apply(g1, ev);
    forall id | id in n.entities
      ensures id in NextIdent(h1.ident, ev) || (id in g.entities && n.entities[id].ident == g.entities[id].ident)
    {
      assert (id, n.entities[id]) in n.entities.Items;
    }
  }

  lemma EmptyOverlay(h: History)
    ensures Overlaid(NO_STAGED, h.live, h)
  {
  }

  /** Starting or abandoning a batch leaves the durable state sound. */
  lemma UnstagedSound(s: Engine)
    requires Sound(s)
    ensures Sound(s.(st := NO_STAGED)) && Cur(s.(st := NO_STAGED)) == Base(s)
  {
    hide Overlaid, Coherent, AllowedLog, Minted, P.Indexed, P.Shows, P.SameNames;
    EmptyOverlay(Base(s));
    UnstagedMinted(s);
  }

  lemma UnstagedMinted(s: Engine)
    requires Sound(s)
    ensures Minted(s.(st := NO_STAGED))
  {
    hide Overlaid, Coherent, AllowedLog;
    NamesOnlyGrow(Base(s), s.st.events);
    assert forall id :: id in Base(s).ident ==> id in Cur(s).ident;
  }

  /** A flush that lands makes the staged history durable; one that does not leaves the log
      and the projection exactly as they were. Either way the projection shows the log. */
  lemma FlushSound(s: Engine, lands: bool)
    requires Sound(s)
    ensures Sound(Flush(s, lands))
    ensures Cur(Flush(s, lands)) == if lands then Cur(s) else Base(s)
    ensures !lands ==>
              Flush(s, lands).log == s.log && Flush(s, lands).g == s.g && Flush(s, lands).notified == s.notified
  {
    var evs := s.st.events;
    if evs == [] || !lands {
      UnstagedSound(s);
    } else {
      ReplayConcat(EMPTY, s.log, evs);
      EmittedIsAllowed(Base(s), evs);
      AllowedConcat(EMPTY, s.log, evs);
      FlushTracks(s.g, Base(s), evs);
      EmptyOverlay(Cur(s));
      var t := Flush(s, lands);
      assert Cur(t) == Base(t) == Cur(s);
      assert forall id :: id in t.g.entities ==> id < t.nextId;
    }
  }

  /** What a flush would produce answers every identity as the overlay does now ... */
  lemma MatchEqualsApplied(s: Engine, i: Identity)
    requires Sound(s)
    ensures MatchIdentity(s, i) == P.MatchIdentity(P.ApplyAll(s.g, s.st.events), i)
  {
    FlushTracks(s.g, Base(s), s.st.events);
    MatchIsOwner(s, i);
    MatchInGraph(P.ApplyAll(s.g, s.st.events), Cur(s), i);
  }

  /** ... shows every entity with the same state ... */
  lemma EntityEqualsApplied(s: Engine, id: EntityId)
    requires Sound(s)
    ensures var live := P.Live(P.ApplyAll(s.g, s.st.events));
            var (e, deleted) := GetEntity(s, id);
            && (id in live <==> e.Some? && !deleted)
            && (id in live ==> CoreOf(e.value) == CoreOf(live[id]))
  {
    FlushTracks(s.g, Base(s), s.st.events);
    GetEntityIsLive(s, id);
    ShowsEntity(P.ApplyAll(s.g, s.st.events), Cur(s).live, id);
  }

  lemma ShowsEntity(g: P.Graph, view: View, id: EntityId)
    requires P.Shows(g, view)
    ensures id in P.Live(g) <==> Ent(id) in view
    ensures id in P.Live(g) ==> view[Ent(id)] == CoreOf(P.Live(g)[id])
  {
  }

  lemma ShowsRelationAt(g: P.Graph, view: View, r: RelationId)
    requires P.Shows(g, view) && P.Indexed(g)
    ensures r in g.relations <==> Rel(r) in view
    ensures r in g.relations ==> view[Rel(r)] == RelCore(g.relations[r].attrs) && g.relations[r].id == r
    ensures r in P.Member(g.outs, r.src) <==> r in g.relations
    ensures r in P.Member(g.ins, r.dst) <==> r in g.relations
    ensures forall a :: r in P.Member(g.outs, a) ==> a == r.src
    ensures forall a :: r in P.Member(g.ins, a) ==> a == r.dst
  {
  }

  /** The projection a flush would produce shows the overlay's history. */
  lemma AppliedTracks(s: Engine)
    requires Sound(s)
    ensures P.Tracks(P.ApplyAll(s.g, s.st.events), Cur(s))
  {
    FlushTracks(s.g, Base(s), s.st.events);
  }

  /** ... and every relation, also when listed by the entity it touches. */
  lemma RelationEqualsApplied(s: Engine, r: RelationId, id: EntityId)
    requires Sound(s)
    ensures var g := P.ApplyAll(s.g, s.st.events);
            && GetRelation(s, r) == (if r in g.relations then Some(g.relations[r]) else None)
            && (r in ListRelationsTouching(s, id) <==> r in P.Member(g.outs, id) + P.Member(g.ins, id))
  {
    hide Sound, Cur, P.ApplyAll, GetRelation, ListRelationsTouching, P.Indexed, P.Shows;
    AppliedTracks(s);
    GetRelationIsLive(s, r);
    TouchingIsLive(s, id);
    ShowsRelationAt(P.ApplyAll(s.g, s.st.events), Cur(s).live, r);
  }
}
