/** Taking a projection snapshot -- one synthetic event per live thing -- and the graph its
    events alone rebuild. */
module Snapshot {
  import opened Model
  import opened EventLog
  import opened Projection

  /** One create or add event per live thing, carrying its state, in any order. */
  ghost predicate Samples(view: View, snap: seq<Event>) {
    && Listed(view, snap)
    && (forall t :: t in view ==> exists k :: 0 <= k < |snap| && ThingOf(snap[k]) == t)
  }

  ghost predicate Listed(view: View, snap: seq<Event>) {
    forall k :: 0 <= k < |snap| ==>
      && EffectOf(snap[k]).Put? && ThingOf(snap[k]) in view && view[ThingOf(snap[k])] == EffectOf(snap[k]).core
  }

  /** The things of a snapshot are exactly these, each listed once, stamped when. */
  ghost predicate Sampled(snap: seq<Event>, things: set<Thing>, when: Time) {
    && (forall k :: 0 <= k < |snap| ==>
          ThingOf(snap[k]) in things && snap[k].eventTime == when && snap[k].recordedAt == when)
    && (forall i, j :: 0 <= i < j < |snap| ==> ThingOf(snap[i]) != ThingOf(snap[j]))
    && (forall t :: t in things ==> exists k :: 0 <= k < |snap| && ThingOf(snap[k]) == t)
  }

  lemma SampledOne(snap: seq<Event>, things: set<Thing>, when: Time, ev: Event)
    requires Sampled(snap, things, when) && ThingOf(ev) !in things && ev.eventTime == when && ev.recordedAt == when
    ensures Sampled(snap + [ev], things + {ThingOf(ev)}, when)
  {
    var n := snap + [ev];
    forall t | t in things + {ThingOf(ev)}
      ensures exists k :: 0 <= k < |n| && ThingOf(n[k]) == t
    {
      if t == ThingOf(ev) {
        assert ThingOf(n[|snap|]) == t;
      } else {
        var k :| 0 <= k < |snap| && ThingOf(snap[k]) == t;
        assert ThingOf(n[k]) == t;
      }
    }
  }

  function EntThings(ids: set<EntityId>): set<Thing> {
    set id | id in ids :: Ent(id)
  }

  function RelThings(rids: set<RelationId>): set<Thing> {
    set r | r in rids :: Rel(r)
  }

  lemma ListedOne(view: View, snap: seq<Event>, ev: Event)
    requires Listed(view, snap) && EffectOf(ev).Put? && ThingOf(ev) in view && view[ThingOf(ev)] == EffectOf(ev).core
    ensures Listed(view, snap + [ev])
  {
  }

  /** A create for every live entity, skipping tombstones. */
  method SnapshotEntities(g: Graph, when: Time, ghost view: View) returns (snap: seq<Event>)
    requires Keyed(g.entities, g.relations) && Shows(g, view)
    ensures Listed(view, snap) && Sampled(snap, EntThings(Live(g).Keys), when)
  {
    snap := [];
    var ids := g.entities.Keys;
    ghost var done: set<EntityId> := {};
    assert EntThings({}) == {};
    while ids != {}
      invariant ids <= g.entities.Keys
      invariant forall id :: id in done <==> id in g.entities && id !in ids && id !in g.deleted
      invariant Listed(view, snap) && Sampled(snap, EntThings(done), when)
      decreases ids
    {
      hide Sampled, Listed;
      var id :| id in ids;
      ids := ids - {id};
      if id !in g.deleted {
        var ev := EntityEvent(Created, g.entities[id], when, when);
        assert id in Live(g) && Live(g)[id] == g.entities[id];
        ListedOne(view, snap, ev);
        SampledOne(snap, EntThings(done), when, ev);
        assert EntThings(done + {id}) == EntThings(done) + {Ent(id)};
        snap := snap + [ev];
        done := done + {id};
      }
    }
    assert done == Live(g).Keys;
  }

  /** One event per live thing: creates first, then adds. */
  method SnapshotEvents(g: Graph, when: Time, ghost view: View) returns (snap: seq<Event>)
    requires Keyed(g.entities, g.relations) && Shows(g, view)
    ensures Samples(view, snap) && Sampled(snap, view.Keys, when)
  {
    snap := SnapshotEntities(g, when, view);
    var rids := g.relations.Keys;
    ghost var things, done: set<RelationId> := EntThings(Live(g).Keys), {};
    assert things + RelThings({}) == things;
    while rids != {}
      invariant rids <= g.relations.Keys && done == g.relations.Keys - rids
      invariant Listed(view, snap) && Sampled(snap, things + RelThings(done), when)
      decreases rids
    {
      hide Sampled, Listed;
      var r :| r in rids;
      rids := rids - {r};
      var ev := RelationEvent(Added, g.relations[r], when, when);
      ListedOne(view, snap, ev);
      SampledOne(snap, things + RelThings(done), when, ev);
      assert things + RelThings(done + {r}) == things + RelThings(done) + {Rel(r)};
      snap := snap + [ev];
      done := done + {r};
    }
    assert done == g.relations.Keys;
    ViewThings(g, view);
  }

  lemma ViewThings(g: Graph, view: View)
    requires Shows(g, view)
    ensures EntThings(Live(g).Keys) + RelThings(g.relations.Keys) == view.Keys
  {
    forall t
      ensures t in EntThings(Live(g).Keys) + RelThings(g.relations.Keys) <==> t in view
    {
      match t
      case Ent(id) =>
      case Rel(r) =>
    }
  }

  // ------------------------------------------------------------ applying the snapshot

  /** small is a part of big. */
  ghost predicate PartOf(small: View, big: View) {
    forall t :: t in small ==> t in big && small[t] == big[t]
  }

  lemma {:induction false} SnapshotReplays(h: History, snap: seq<Event>)
    requires Coherent(h) && Listed(h.live, snap)
    ensures AllowedLog(snap)
    ensures PartOf(Replay(snap).live, h.live) && KnowsLess(Replay(snap).ident, h.ident)
    ensures forall k :: 0 <= k < |snap| ==> ThingOf(snap[k]) in Replay(snap).live
    ensures forall id :: id in Replay(snap).ident ==> Ent(id) in Replay(snap).live
  {
    if snap != [] {
      var n := |snap| - 1;
      SnapshotReplays(h, snap[..n]);
      assert forall k :: 0 <= k < n ==> snap[..n][k] == snap[k];
      var r := Replay(snap[..n]);
      assert forall x, i :: Owns(r.live, x, i) ==> Owns(h.live, x, i);
      if snap[n].EntityEvent? {
        assert Owns(h.live, snap[n].entity.id, snap[n].entity.ident);
      }
      assert Allowed(r, snap[n]);
    }
  }

  lemma {:induction false} NothingBuried(g: Graph, snap: seq<Event>)
    requires g.deleted == {} && forall k :: 0 <= k < |snap| ==> EffectOf(snap[k]).Put?
    ensures ApplyAll(g, snap).deleted == {}
  {
    if snap != [] {
      var n := |snap| - 1;
      NothingBuried(g, snap[..n]);
      assert EffectOf(snap[n]).Put?;
    }
  }

  /** The graph restored from a snapshot alone. */
  lemma RestoredSnapshot(h: History, snap: seq<Event>, limit: int, ttl: int)
    requires Coherent(h) && Samples(h.live, snap)
    ensures var r := ApplyAll(NewGraph(limit, ttl), snap);
            && Indexed(r) && Shows(r, h.live) && SameNames(r.entities, h.ident)
            && r.deleted == {} && (forall id :: id in r.entities ==> id in h.ident)
  {
    SnapshotDenotes(h, snap);
    hide Samples, Coherent, Indexed, Shows, AllowedFrom, ApplyAll;
    NewGraphProjects(limit, ttl);
    ReplayProjects(NewGraph(limit, ttl), EMPTY, snap);
    OnlyPuts(h.live, snap);
    NothingBuried(NewGraph(limit, ttl), snap);
    NamesWithin(ApplyAll(NewGraph(limit, ttl), snap).entities, Replay(snap).ident, h.ident);
  }

  lemma OnlyPuts(view: View, snap: seq<Event>)
    requires Samples(view, snap)
    ensures forall k :: 0 <= k < |snap| ==> EffectOf(snap[k]).Put?
  {
  }

  /** As a log, a snapshot denotes exactly what it samples. */
  lemma SnapshotDenotes(h: History, snap: seq<Event>)
    requires Coherent(h) && Samples(h.live, snap)
    ensures AllowedLog(snap) && Replay(snap).live == h.live && KnowsLess(Replay(snap).ident, h.ident)
  {
    SnapshotReplays(h, snap);
    hide Coherent, Allowed, Listed;
    forall t | t in h.live
      ensures t in Replay(snap).live
    {
      var k :| 0 <= k < |snap| && ThingOf(snap[k]) == t;
    }
  }

  lemma NamesWithin(entities: map<EntityId, Entity>, a: map<EntityId, Identity>, b: map<EntityId, Identity>)
    requires SameNames(entities, a) && KnowsLess(a, b) && forall id :: id in entities ==> id in a
    ensures SameNames(entities, b) && forall id :: id in entities ==> id in b
  {
  }
}
