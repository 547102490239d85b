/** Restart from a projection snapshot: its events, then the log's tail after the recorded
    sequence. The snapshot may reflect more than that sequence (the tail then overlaps it),
    less (an append is durable before it is applied, and the snapshot is sampled without the
    engine's lock), and the tail may have been compacted since. The restored graph answers
    as the log does exactly when the tail decides everything the two disagree on. */
module SnapshotRestore {
  import opened Model
  import opened EventLog
  import opened Projection
  import opened Snapshot

  // ------------------------------------------------------------ folding from another start

  function At<K, V>(m: map<K, V>, k: K): Option<V> {
    if k in m then Some(m[k]) else None
  }

  function FoldLive(live: View, evs: seq<Event>): View {
    if evs == [] then live else NextLive(FoldLive(live, evs[..|evs| - 1]), evs[|evs| - 1])
  }

  lemma {:induction false} FoldIsReplay(h: History, evs: seq<Event>)
    ensures FoldLive(h.live, evs) == ReplayFrom(h, evs).live
  {
    if evs != [] {
      FoldIsReplay(h, evs[..|evs| - 1]);
    }
  }

  lemma {:induction false} FoldConcat(live: View, a: seq<Event>, b: seq<Event>)
    ensures FoldLive(live, a + b) == FoldLive(FoldLive(live, a), b)
  {
    if b == [] {
      assert a + b == a;
    } else {
      var n := |b| - 1;
      assert (a + b)[..|a| + n] == a + b[..n];
      FoldConcat(live, a, b[..n]);
    }
  }

  ghost predicate Named(evs: seq<Event>, t: Thing) {
    exists k :: 0 <= k < |evs| && ThingOf(evs[k]) == t
  }

  /** An event overwrites or drops the thing: what it was before no longer matters. */
  predicate Decides(ev: Event, t: Thing) {
    ThingOf(ev) == t && !EffectOf(ev).Touch?
  }

  ghost predicate Decided(evs: seq<Event>, t: Thing) {
    exists k :: 0 <= k < |evs| && Decides(evs[k], t)
  }

  lemma NamedSnoc(evs: seq<Event>, t: Thing)
    requires evs != []
    ensures Named(evs, t) <==> Named(evs[..|evs| - 1], t) || ThingOf(evs[|evs| - 1]) == t
    ensures Decided(evs, t) <==> Decided(evs[..|evs| - 1], t) || Decides(evs[|evs| - 1], t)
  {
    var n := |evs| - 1;
    if k :| 0 <= k < n && ThingOf(evs[..n][k]) == t {
      assert ThingOf(evs[k]) == t;
    }
    if k :| 0 <= k < n && Decides(evs[..n][k], t) {
      assert Decides(evs[k], t);
    }
    if k :| 0 <= k < |evs| && ThingOf(evs[k]) == t {
      assert k < n ==> ThingOf(evs[..n][k]) == t;
    }
    if k :| 0 <= k < |evs| && Decides(evs[k], t) {
      assert k < n ==> Decides(evs[..n][k], t);
    }
  }

  /** What a decided thing ends as does not depend on the start. */
  lemma {:induction false} DecidedAgrees(x: View, y: View, evs: seq<Event>, t: Thing)
    requires Decided(evs, t)
    ensures At(FoldLive(x, evs), t) == At(FoldLive(y, evs), t)
  {
    NamedSnoc(evs, t);
    var n := |evs| - 1;
    if Decided(evs[..n], t) {
      DecidedAgrees(x, y, evs[..n], t);
    }
  }

  /** An undecided thing that is present stays as it is, and an unnamed one too. */
  lemma {:induction false} UndecidedStays(x: View, evs: seq<Event>, t: Thing)
    requires !Decided(evs, t)
    ensures t in x || !Named(evs, t) ==> At(FoldLive(x, evs), t) == At(x, t)
    ensures Named(evs, t) ==> t in FoldLive(x, evs)
  {
    if evs != [] {
      NamedSnoc(evs, t);
      UndecidedStays(x, evs[..|evs| - 1], t);
    }
  }

  /** A heartbeat brings a thing the start lacks to the state the log gives it. */
  lemma {:induction false} TouchedAgrees(x: View, h: History, evs: seq<Event>, t: Thing)
    requires Coherent(h) && AllowedFrom(h, evs) && !Decided(evs, t) && Named(evs, t) && t !in x
    ensures At(FoldLive(x, evs), t) == At(FoldLive(h.live, evs), t)
  {
    assert evs != [];
    hide Allowed, Coherent, Decided, Named;
    var n := |evs| - 1;
    NamedSnoc(evs, t);
    FoldIsReplay(h, evs[..n]);
    if Named(evs[..n], t) {
      TouchedAgrees(x, h, evs[..n], t);
      UndecidedStays(x, evs[..n], t);
      UndecidedStays(h.live, evs[..n], t);
    } else {
      UndecidedStays(x, evs[..n], t);
      CoherentReplay(h, evs[..n]);
      TouchAllowed(ReplayFrom(h, evs[..n]), evs[n]);
    }
  }

  lemma TouchAllowed(h: History, ev: Event)
    requires Coherent(h) && Allowed(h, ev) && EffectOf(ev).Touch?
    ensures ThingOf(ev) in h.live ==> h.live[ThingOf(ev)] == EffectOf(ev).core
  {
  }

  /** On every thing where the sample and the log disagree at the end, the tail has spoken:
      decisively if the sample holds the thing, at all if it does not. h is the history of
      the log up to the recorded sequence. */
  ghost predicate Recovers(sample: View, h: History, tail: seq<Event>) {
    RecoversTo(sample, FoldLive(h.live, tail), tail)
  }

  ghost predicate RecoversTo(sample: View, live: View, tail: seq<Event>) {
    && (forall t :: Outdated(sample, live, t) ==> Decided(tail, t))
    && (forall t :: t !in sample && t in live ==> Named(tail, t))
  }

  /** The sample holds a thing the log has since changed or dropped. */
  ghost predicate Outdated(sample: View, live: View, t: Thing) {
    t in sample && At(sample, t) != At(live, t)
  }

  lemma RecoversAt(sample: View, h: History, tail: seq<Event>, t: Thing)
    requires Coherent(h) && AllowedFrom(h, tail)
    ensures At(FoldLive(sample, tail), t) == At(FoldLive(h.live, tail), t) <==>
            && (t in sample && At(sample, t) != At(FoldLive(h.live, tail), t) ==> Decided(tail, t))
            && (t !in sample && t in FoldLive(h.live, tail) ==> Named(tail, t))
  {
    if Decided(tail, t) {
      DecidedAgrees(sample, h.live, tail, t);
      var k :| 0 <= k < |tail| && Decides(tail[k], t);
      assert ThingOf(tail[k]) == t;
    } else {
      UndecidedStays(sample, tail, t);
      UndecidedStays(h.live, tail, t);
      if t !in sample && Named(tail, t) {
        TouchedAgrees(sample, h, tail, t);
      }
    }
  }

  /** The tail leads from the sample to what the log denotes exactly when it recovers. */
  lemma RecoversIff(sample: View, h: History, tail: seq<Event>)
    requires Coherent(h) && AllowedFrom(h, tail)
    ensures FoldLive(sample, tail) == FoldLive(h.live, tail) <==> Recovers(sample, h, tail)
  {
    var r, l := FoldLive(sample, tail), FoldLive(h.live, tail);
    forall t
      ensures At(r, t) == At(l, t) <==>
              && (t in sample && At(sample, t) != At(l, t) ==> Decided(tail, t))
              && (t !in sample && t in l ==> Named(tail, t))
    {
      RecoversAt(sample, h, tail, t);
    }
    SameEverywhere(r, l);
  }

  lemma SameEverywhere(a: View, b: View)
    ensures a == b <==> forall t :: At(a, t) == At(b, t)
  {
    if forall t :: At(a, t) == At(b, t) {
      forall t
        ensures t in a <==> t in b
        ensures t in a && t in b ==> a[t] == b[t]
      {
        assert At(a, t) == At(b, t);
      }
    }
  }

  // ------------------------------------------------------------ what the tail must keep

  predicate PutOf(ev: Event, id: EntityId) {
    ev.EntityEvent? && ev.entity.id == id && EffectOf(ev).Put?
  }

  /** Whatever the tail says of another entity under an identity somebody owns in the end,
      the owner is put after it. */
  ghost predicate Anchored(tail: seq<Event>, live: View) {
    forall p, o :: 0 <= p < |tail| && Foreign(tail[p], live, o) ==> PutAfter(tail, p, o)
  }

  ghost predicate Foreign(ev: Event, live: View, owner: EntityId) {
    ev.EntityEvent? && ev.entity.id != owner && Owns(live, owner, ev.entity.ident)
  }

  ghost predicate PutAfter(tail: seq<Event>, p: int, o: EntityId) {
    exists q :: 0 <= p < q < |tail| && PutOf(tail[q], o)
  }

  /** Every entity event names its entity as names does. */
  ghost predicate Conforms(evs: seq<Event>, names: map<EntityId, Identity>) {
    forall k :: 0 <= k < |evs| && evs[k].EntityEvent? ==>
      evs[k].entity.id in names && names[evs[k].entity.id] == evs[k].entity.ident
  }

  ghost predicate NamedBy(r: Graph, names: map<EntityId, Identity>) {
    forall id :: id in r.entities ==> id in names && r.entities[id].ident == names[id]
  }

  // ------------------------------------------------------------ the restored graph

  function RestoredGraph(snap: seq<Event>, tail: seq<Event>, limit: int, ttl: int): Graph {
    ApplyAll(ApplyAll(NewGraph(limit, ttl), snap), tail)
  }

  /** What the restored graph buries, the log has named and dropped. */
  ghost predicate BuriedDead(deleted: set<EntityId>, h: History) {
    forall id :: id in deleted ==> id in h.ident && Ent(id) !in h.live
  }

  lemma DeletedStep(g: Graph, ev: Event)
    ensures Apply(g, ev).deleted <= g.deleted + (if ev.EntityEvent? then {ev.entity.id} else {})
    ensures ev.EntityEvent? && ev.change != Deleted && (ev.change == Unchanged ==> ev.entity.id !in g.entities) ==>
              ev.entity.id !in Apply(g, ev).deleted
  {
    if ev.EntityEvent? && ev.change == Deleted && ev.entity.id !in Unindex(g, ev.entity.id).deleted {
      EvictShrinks(Bury(Unindex(g, ev.entity.id), ev.entity.id, ev.recordedAt));
    }
  }

  lemma AllowedNotBuried(g: Graph, h: History, ev: Event)
    requires BuriedDead(g.deleted, h) && Allowed(h, ev)
    ensures NotBuried(g, ev)
  {
  }

  lemma BuriedStep(g: Graph, h: History, ev: Event)
    requires BuriedDead(g.deleted, h) && Allowed(h, ev)
    ensures BuriedDead(Apply(g, ev).deleted, Next(h, ev))
  {
    DeletedStep(g, ev);
    if ev.EntityEvent? && ev.change == Unchanged && ev.entity.id in g.entities {
      assert Apply(g, ev) == g;
    }
    hide Apply;
    if ev.EntityEvent? {
      OneMoreBuried(g.deleted, Apply(g, ev).deleted, h, ev);
    }
  }

  lemma OneMoreBuried(was: set<EntityId>, now: set<EntityId>, h: History, ev: Event)
    requires BuriedDead(was, h) && Allowed(h, ev) && ev.EntityEvent? && now <= was + {ev.entity.id}
    requires ev.change != Deleted ==> ev.entity.id !in now || (ev.change == Unchanged && now == was)
    ensures BuriedDead(now, Next(h, ev))
  {
  }

  /** What replaying a tail keeps of a graph restored from a sample. */
  ghost predicate Restoring(r: Graph, view: View, h: History, names: map<EntityId, Identity>) {
    Loose(r) && Shows(r, view) && NamedBy(r, names) && BuriedDead(r.deleted, h)
  }

  lemma NamesKept(r: Graph, names: map<EntityId, Identity>, ev: Event)
    requires NamedBy(r, names)
    requires ev.EntityEvent? ==> ev.entity.id in names && names[ev.entity.id] == ev.entity.ident
    ensures NamedBy(Apply(r, ev), names) && KeepsName(r, ev)
  {
    ApplyEntities(r, ev);
    var n := Apply(r, ev);
    forall id | id in n.entities
      ensures id in names && n.entities[id].ident == names[id]
    {
      assert (id, n.entities[id]) in n.entities.Items;
    }
  }

  lemma RestoringStep(r: Graph, view: View, h: History, names: map<EntityId, Identity>, ev: Event)
    requires Restoring(r, view, h, names) && Allowed(h, ev)
    requires ev.EntityEvent? ==> ev.entity.id in names && names[ev.entity.id] == ev.entity.ident
    ensures Restoring(Apply(r, ev), NextLive(view, ev), Next(h, ev), names)
    ensures KeepsName(r, ev) && NotBuried(r, ev)
  {
    hide Loose, Shows, Allowed;
    AllowedNotBuried(r, h, ev);
    NamesKept(r, names, ev);
    ApplyKeepsLoose(r, ev);
    ApplyShows(r, view, ev);
    BuriedStep(r, h, ev);
  }

  lemma {:induction false} TailRestores(r: Graph, view: View, h: History, names: map<EntityId, Identity>,
                                        tail: seq<Event>)
    requires Restoring(r, view, h, names) && AllowedFrom(h, tail) && Conforms(tail, names)
    ensures Restoring(ApplyAll(r, tail), FoldLive(view, tail), ReplayFrom(h, tail), names)
  {
    hide Restoring, Allowed;
    if tail != [] {
      var n := |tail| - 1;
      assert forall k :: 0 <= k < n ==> tail[..n][k] == tail[k];
      TailRestores(r, view, h, names, tail[..n]);
      RestoringStep(ApplyAll(r, tail[..n]), FoldLive(view, tail[..n]), ReplayFrom(h, tail[..n]), names, tail[n]);
    }
  }

  // ------------------------------------------------------------ the hash index

  /** If the entity is live, the index answers with it. */
  ghost predicate Answers(r: Graph, i: Identity, o: EntityId) {
    o in Live(r) && Live(r)[o].ident == i ==> i in r.byHash && r.byHash[i] == o
  }

  /** No event of the sequence concerns another entity of the identity. */
  ghost predicate NoForeign(evs: seq<Event>, i: Identity, o: EntityId) {
    forall k :: 0 <= k < |evs| ==> !Other(evs[k], i, o)
  }

  lemma AnswersStep(r: Graph, i: Identity, o: EntityId, ev: Event)
    requires Loose(r) && KeepsName(r, ev) && NotBuried(r, ev) && Answers(r, i, o)
    requires !Other(ev, i, o)
    ensures Answers(Apply(r, ev), i, o)
  {
    hide Loose;
    ApplyKeepsLoose(r, ev);
    ApplyMovesLive(r, ev);
  }

  lemma {:induction false} AnswersKept(r: Graph, view: View, h: History, names: map<EntityId, Identity>,
                                       tail: seq<Event>, i: Identity, o: EntityId)
    requires Restoring(r, view, h, names) && AllowedFrom(h, tail) && Conforms(tail, names)
    requires Answers(r, i, o) && NoForeign(tail, i, o)
    ensures Answers(ApplyAll(r, tail), i, o)
  {
    hide Allowed, Answers, Loose, Shows;
    if tail != [] {
      var n := |tail| - 1;
      assert forall k :: 0 <= k < n ==> tail[..n][k] == tail[k];
      AnswersKept(r, view, h, names, tail[..n], i, o);
      TailRestores(r, view, h, names, tail[..n]);
      var g, h1 := ApplyAll(r, tail[..n]), ReplayFrom(h, tail[..n]);
      RestoringStep(g, FoldLive(view, tail[..n]), h1, names, tail[n]);
      AnswersStep(g, i, o, tail[n]);
    }
  }

  /** The event concerns another entity of the identity. */
  predicate Other(ev: Event, i: Identity, o: EntityId) {
    ev.EntityEvent? && ev.entity.ident == i && ev.entity.id != o
  }

  /** The last event under the identity that concerns another entity, if any. */
  lemma {:induction false} LastOther(tail: seq<Event>, n: nat, i: Identity, o: EntityId) returns (p: int)
    requires n <= |tail|
    ensures -1 <= p < n && (p >= 0 ==> Other(tail[p], i, o))
    ensures forall k :: p < k < n ==> !Other(tail[k], i, o)
  {
    if n == 0 {
      p := -1;
    } else if Other(tail[n - 1], i, o) {
      p := n - 1;
    } else {
      p := LastOther(tail, n - 1, i, o);
    }
  }

  lemma NoneAfter(tail: seq<Event>, q: int, i: Identity, o: EntityId)
    requires -1 <= q < |tail| && forall k :: q < k < |tail| ==> !Other(tail[k], i, o)
    ensures NoForeign(tail[q + 1..], i, o)
  {
    var z := tail[q + 1..];
    forall k | 0 <= k < |z|
      ensures !Other(z[k], i, o)
    {
      assert z[k] == tail[q + 1 + k];
    }
  }

  /** After the last word on another entity of its identity the owner is put, so in the end
      the index answers with it. */
  lemma OwnerAnswers(r: Graph, view: View, h: History, names: map<EntityId, Identity>, tail: seq<Event>,
                     i: Identity, o: EntityId)
    requires Restoring(r, view, h, names) && AllowedFrom(h, tail) && Conforms(tail, names) && Indexed(r)
    requires Anchored(tail, ReplayFrom(h, tail).live) && Owns(ReplayFrom(h, tail).live, o, i)
    ensures Answers(ApplyAll(r, tail), i, o)
  {
    hide Restoring, AllowedFrom, Conforms, NoForeign, ApplyAll;
    var p := LastOther(tail, |tail|, i, o);
    if p < 0 {
      NoneAfter(tail, -1, i, o);
      assert tail[0..] == tail;
      IndexedAnswers(r, i, o);
      AnswersKept(r, view, h, names, tail, i, o);
    } else {
      assert Foreign(tail[p], ReplayFrom(h, tail).live, o);
      assert PutAfter(tail, p, o);
      var q :| 0 <= p < q < |tail| && PutOf(tail[q], o);
      NoneAfter(tail, q, i, o);
      PutThenAnswers(r, view, h, names, tail, q, i, o);
    }
  }

  lemma PutThenAnswers(r: Graph, view: View, h: History, names: map<EntityId, Identity>, tail: seq<Event>,
                       q: nat, i: Identity, o: EntityId)
    requires Restoring(r, view, h, names) && AllowedFrom(h, tail) && Conforms(tail, names)
    requires q < |tail| && PutOf(tail[q], o) && NoForeign(tail[q + 1..], i, o)
    ensures Answers(ApplyAll(r, tail), i, o)
  {
    hide Restoring, AllowedFrom, Conforms, Answers, NoForeign, ApplyAll;
    SplitAtPut(r, view, h, names, tail, q);
    var a, z := tail[..q + 1], tail[q + 1..];
    assert tail[..q] + [tail[q]] == a && a + z == tail;
    PutAnswers(r, view, h, names, tail[..q], tail[q], i);
    AnswersKept(ApplyAll(r, a), FoldLive(view, a), ReplayFrom(h, a), names, z, i, o);
    ApplyAllConcat(r, a, z);
  }

  lemma IndexedAnswers(r: Graph, i: Identity, o: EntityId)
    requires Indexed(r)
    ensures Answers(r, i, o)
  {
  }

  lemma SplitAtPut(r: Graph, view: View, h: History, names: map<EntityId, Identity>, tail: seq<Event>, q: nat)
    requires Restoring(r, view, h, names) && AllowedFrom(h, tail) && Conforms(tail, names) && q < |tail|
    ensures AllowedFrom(h, tail[..q]) && AllowedFrom(h, tail[..q + 1])
    ensures AllowedFrom(ReplayFrom(h, tail[..q + 1]), tail[q + 1..])
    ensures Conforms(tail[..q], names) && Conforms(tail[..q + 1], names) && Conforms(tail[q + 1..], names)
    ensures Restoring(ApplyAll(r, tail[..q + 1]), FoldLive(view, tail[..q + 1]), ReplayFrom(h, tail[..q + 1]), names)
  {
    hide Restoring, AllowedFrom, Conforms, ApplyAll, FoldLive;
    assert tail == tail[..q + 1] + tail[q + 1..];
    AllowedConcat(h, tail[..q + 1], tail[q + 1..]);
    assert tail[..q + 1] == tail[..q] + tail[q..q + 1];
    AllowedConcat(h, tail[..q], tail[q..q + 1]);
    ConformsSlice(tail, names, 0, q);
    ConformsSlice(tail, names, 0, q + 1);
    ConformsSlice(tail, names, q + 1, |tail|);
    assert tail[0..q] == tail[..q] && tail[0..q + 1] == tail[..q + 1] && tail[q + 1..|tail|] == tail[q + 1..];
    TailRestores(r, view, h, names, tail[..q + 1]);
  }

  lemma ConformsSlice(evs: seq<Event>, names: map<EntityId, Identity>, a: nat, b: nat)
    requires Conforms(evs, names) && a <= b <= |evs|
    ensures Conforms(evs[a..b], names)
  {
    forall k | 0 <= k < b - a
      ensures evs[a..b][k] == evs[a + k]
    {
    }
  }

  lemma PutAnswers(r: Graph, view: View, h: History, names: map<EntityId, Identity>, a: seq<Event>, ev: Event,
                   i: Identity)
    requires Restoring(r, view, h, names) && AllowedFrom(h, a + [ev]) && Conforms(a + [ev], names)
    requires ev.EntityEvent? && EffectOf(ev).Put?
    ensures Answers(ApplyAll(r, a + [ev]), i, ev.entity.id)
  {
    var all := a + [ev];
    assert all[..|a|] == a;
    TailRestores(r, view, h, names, a);
    var g := ApplyAll(r, a);
    RestoringStep(g, FoldLive(view, a), ReplayFrom(h, a), names, ev);
    hide Loose, Shows;
    ApplyMovesLive(g, ev);
    PutHash(g, ev.entity);
  }

  // ------------------------------------------------------------ the restore theorem

  lemma RestoringSnapshot(sample: History, snap: seq<Event>, names: map<EntityId, Identity>, h: History, limit: int,
                          ttl: int)
    requires Coherent(sample) && Samples(sample.live, snap) && KnowsLess(sample.ident, names)
    ensures var r := ApplyAll(NewGraph(limit, ttl), snap);
            Restoring(r, sample.live, h, names) && Indexed(r)
  {
    hide Samples, Indexed, Shows, ApplyAll;
    RestoredSnapshot(sample, snap, limit, ttl);
    IndexedIsLoose(ApplyAll(NewGraph(limit, ttl), snap));
  }

  lemma IndexedIsLoose(g: Graph)
    requires Indexed(g)
    ensures Loose(g)
  {
  }

  /** A restored graph that shows what the log denotes has every index exact. */
  lemma RestoredIndexed(r: Graph, view: View, h: History, names: map<EntityId, Identity>, tail: seq<Event>)
    requires Restoring(r, view, h, names) && AllowedFrom(h, tail) && Conforms(tail, names) && Indexed(r)
    requires Anchored(tail, ReplayFrom(h, tail).live) && FoldLive(view, tail) == ReplayFrom(h, tail).live
    ensures Indexed(ApplyAll(r, tail))
  {
    hide Anchored, Allowed;
    TailRestores(r, view, h, names, tail);
    var g, live := ApplyAll(r, tail), ReplayFrom(h, tail).live;
    forall id | id in Live(g)
      ensures Live(g)[id].ident in g.byHash && g.byHash[Live(g)[id].ident] == id
    {
      var i := Live(g)[id].ident;
      assert Owns(live, id, i);
      OwnerAnswers(r, view, h, names, tail, i, id);
    }
  }

  /** Graphs that answer alike show the same things. */
  lemma SameAnswersSameView(g: Graph, k: Graph, a: View, b: View)
    requires Shows(g, a) && Shows(k, b) && SameAnswers(g, k)
    ensures a == b
  {
    forall t
      ensures t in a <==> t in b
      ensures t in a && t in b ==> a[t] == b[t]
    {
      match t
      case Ent(id) =>
        assert id in Live(g).Keys <==> id in Live(k).Keys;
      case Rel(r) =>
    }
  }

  lemma FullReplay(log: seq<Event>, limit: int, ttl: int)
    requires AllowedLog(log)
    ensures Projects(ApplyAll(NewGraph(limit, ttl), log), Replay(log))
  {
    NewGraphProjects(limit, ttl);
    ReplayProjects(NewGraph(limit, ttl), EMPTY, log);
  }

  /** The snapshot and the log agree on names, and the log anchors its owners. */
  ghost predicate Restorable(sample: History, snap: seq<Event>, base: seq<Event>, tail: seq<Event>,
                             names: map<EntityId, Identity>)
  {
    && Coherent(sample) && Samples(sample.live, snap) && KnowsLess(sample.ident, names)
    && AllowedLog(base + tail) && Conforms(tail, names) && Anchored(tail, Replay(base + tail).live)
  }

  lemma TailOf(base: seq<Event>, tail: seq<Event>)
    requires AllowedLog(base + tail)
    ensures AllowedLog(base) && AllowedFrom(Replay(base), tail) && Coherent(Replay(base))
    ensures ReplayFrom(Replay(base), tail) == Replay(base + tail)
    ensures FoldLive(Replay(base).live, tail) == Replay(base + tail).live
  {
    AllowedConcat(EMPTY, base, tail);
    ReplayConcat(EMPTY, base, tail);
    CoherentReplay(EMPTY, base);
    FoldIsReplay(Replay(base), tail);
  }

  /** What a restored graph shows, whether or not that is right. */
  lemma RestoredShows(sample: History, snap: seq<Event>, base: seq<Event>, tail: seq<Event>,
                      names: map<EntityId, Identity>, limit: int, ttl: int)
    requires Restorable(sample, snap, base, tail, names)
    ensures var r := RestoredGraph(snap, tail, limit, ttl);
            && Shows(r, FoldLive(sample.live, tail)) && NamedBy(r, names)
            && (FoldLive(sample.live, tail) == Replay(base + tail).live ==> Indexed(r))
  {
    hide Samples, Indexed, Shows, ApplyAll, Anchored, AllowedFrom;
    TailOf(base, tail);
    RestoringSnapshot(sample, snap, names, Replay(base), limit, ttl);
    var r0 := ApplyAll(NewGraph(limit, ttl), snap);
    TailRestores(r0, sample.live, Replay(base), names, tail);
    if FoldLive(sample.live, tail) == Replay(base + tail).live {
      RestoredIndexed(r0, sample.live, Replay(base), names, tail);
    }
  }

  /** A restart from a snapshot answers every live read as a replay of the whole log does,
      exactly when the tail decides everything on which the sample and the log disagree. */
  lemma RestoreExact(sample: History, snap: seq<Event>, base: seq<Event>, tail: seq<Event>,
                     names: map<EntityId, Identity>, limit: int, ttl: int)
    requires Restorable(sample, snap, base, tail, names)
    ensures SameAnswers(RestoredGraph(snap, tail, limit, ttl), ApplyAll(NewGraph(limit, ttl), base + tail)) <==>
            Recovers(sample.live, Replay(base), tail)
  {
    hide Samples, Indexed, Shows, ApplyAll, Anchored, SameAnswers, Recovers, AllowedFrom;
    TailOf(base, tail);
    RestoredShows(sample, snap, base, tail, names, limit, ttl);
    FullReplay(base + tail, limit, ttl);
    RecoversIff(sample.live, Replay(base), tail);
    var r, k := RestoredGraph(snap, tail, limit, ttl), ApplyAll(NewGraph(limit, ttl), base + tail);
    var view, live := FoldLive(sample.live, tail), Replay(base + tail).live;
    if view == live {
      SameViewSameAnswers(r, k, live);
    }
    if SameAnswers(r, k) {
      SameAnswersSameView(r, k, view, live);
    }
  }

  // ------------------------------------------------------------ tails the engine wrote

  lemma EmittedNotForeign(h: History, ev: Event, o: EntityId)
    requires Coherent(h) && Emitted(h, ev)
    ensures !Foreign(ev, NextLive(h.live, ev), o)
  {
    if ev.EntityEvent? && ev.entity.id != o && Owns(NextLive(h.live, ev), o, ev.entity.ident) {
      assert Owns(h.live, o, ev.entity.ident);
      assert ev.change == Deleted ==> Owns(h.live, ev.entity.id, ev.entity.ident);
    }
  }

  /** A tail as the engine appends it anchors its owners. */
  lemma {:induction false} EmittedAnchored(h: History, evs: seq<Event>)
    requires Coherent(h) && EmittedFrom(h, evs)
    ensures Anchored(evs, ReplayFrom(h, evs).live)
  {
    if evs != [] {
      var n := |evs| - 1;
      EmittedAnchored(h, evs[..n]);
      EmittedIsAllowed(h, evs[..n]);
      CoherentReplay(h, evs[..n]);
      var h1, live := ReplayFrom(h, evs[..n]), ReplayFrom(h, evs).live;
      forall p, o | 0 <= p < |evs| && Foreign(evs[p], live, o)
        ensures PutAfter(evs, p, o)
      {
        if p == n {
          EmittedNotForeign(h1, evs[n], o);
        } else {
          AnchorStep(evs, h1, p, o);
        }
      }
    }
  }

  /** Adding an event keeps an anchor, or is one. */
  lemma AnchorStep(evs: seq<Event>, h: History, p: nat, o: EntityId)
    requires evs != [] && p < |evs| - 1 && Coherent(h) && Emitted(h, evs[|evs| - 1])
    requires Anchored(evs[..|evs| - 1], h.live) && Foreign(evs[p], NextLive(h.live, evs[|evs| - 1]), o)
    ensures PutAfter(evs, p, o)
  {
    var n := |evs| - 1;
    assert evs[..n][p] == evs[p];
    if Foreign(evs[p], h.live, o) {
      assert PutAfter(evs[..n], p, o);
      var q :| p < q < n && PutOf(evs[..n][q], o);
      assert PutOf(evs[q], o);
    } else {
      assert PutOf(evs[n], o);
    }
  }

  lemma {:induction false} NamesGrow(h: History, evs: seq<Event>)
    requires AllowedFrom(h, evs)
    ensures KnowsLess(h.ident, ReplayFrom(h, evs).ident) && Conforms(evs, ReplayFrom(h, evs).ident)
  {
    if evs != [] {
      var n := |evs| - 1;
      NamesGrow(h, evs[..n]);
      assert forall k :: 0 <= k < n ==> evs[..n][k] == evs[k];
      hide EffectOf, SoleOwner;
      assert KnowsLess(ReplayFrom(h, evs[..n]).ident, ReplayFrom(h, evs).ident);
    }
  }

  /** Re-applying events a view already reflects changes nothing. */
  lemma Reapplied(h: History, evs: seq<Event>)
    requires Coherent(h) && AllowedFrom(h, evs)
    ensures Recovers(FoldLive(h.live, evs), h, evs)
    ensures FoldLive(FoldLive(h.live, evs), evs) == FoldLive(h.live, evs)
  {
    RecoversIff(FoldLive(h.live, evs), h, evs);
  }

  lemma EngineTail(base: seq<Event>, evs: seq<Event>)
    requires AllowedLog(base) && EmittedFrom(Replay(base), evs)
    ensures AllowedLog(base + evs) && ReplayFrom(Replay(base), evs) == Replay(base + evs)
    ensures Anchored(evs, Replay(base + evs).live) && Conforms(evs, Replay(base + evs).ident)
    ensures KnowsLess(Replay(base).ident, Replay(base + evs).ident) && Coherent(Replay(base + evs))
  {
    EmittedIsAllowed(Replay(base), evs);
    AllowedConcat(EMPTY, base, evs);
    ReplayConcat(EMPTY, base, evs);
    CoherentReplay(EMPTY, base);
    CoherentReplay(EMPTY, base + evs);
    EmittedAnchored(Replay(base), evs);
    NamesGrow(Replay(base), evs);
  }

  /** Snapshot plus overlapping tail answers every live read as full replay, for every
      recorded sequence not beyond the sampled prefix. */
  lemma RestoreEqualsReplay(base: seq<Event>, overlap: seq<Event>, rest: seq<Event>, snap: seq<Event>,
                            limit: int, ttl: int)
    requires AllowedLog(base) && EmittedFrom(Replay(base), overlap + rest)
    requires Samples(Replay(base + overlap).live, snap)
    ensures SameAnswers(RestoredGraph(snap, overlap + rest, limit, ttl),
                        ApplyAll(NewGraph(limit, ttl), base + (overlap + rest)))
  {
    hide Samples, SameAnswers, Recovers, Anchored, Conforms, AllowedFrom;
    var tail, sample := overlap + rest, Replay(base + overlap);
    EngineTail(base, tail);
    EmittedConcat(Replay(base), overlap, rest);
    EngineTail(base, overlap);
    SampleNames(base, overlap, rest);
    RestoreExact(sample, snap, base, tail, Replay(base + tail).ident, limit, ttl);
    OverlapRecovers(base, overlap, rest);
  }

  lemma SampleNames(base: seq<Event>, overlap: seq<Event>, rest: seq<Event>)
    requires AllowedLog(base + (overlap + rest))
    ensures KnowsLess(Replay(base + overlap).ident, Replay(base + (overlap + rest)).ident)
  {
    assert base + (overlap + rest) == base + overlap + rest;
    TailOf(base + overlap, rest);
    NamesGrow(Replay(base + overlap), rest);
  }

  lemma OverlapRecovers(base: seq<Event>, overlap: seq<Event>, rest: seq<Event>)
    requires AllowedLog(base + (overlap + rest))
    ensures Recovers(Replay(base + overlap).live, Replay(base), overlap + rest)
  {
    hide Recovers;
    assert base + (overlap + rest) == base + overlap + rest;
    AllowedConcat(EMPTY, base + overlap, rest);
    TailOf(base, overlap + rest);
    TailOf(base, overlap);
    Reapplied(Replay(base), overlap);
    FoldConcat(Replay(base).live, overlap, rest);
    FoldConcat(Replay(base + overlap).live, overlap, rest);
    RecoversIff(Replay(base + overlap).live, Replay(base), overlap + rest);
  }

  /** When the recorded sequence is ahead of the sample -- an append was durable but not yet
      applied when the graph was sampled -- a restart is right exactly when the rest of the
      log decides everything the missed events changed. */
  lemma SequenceAheadOfSample(base: seq<Event>, missed: seq<Event>, rest: seq<Event>, snap: seq<Event>,
                              limit: int, ttl: int)
    requires AllowedLog(base) && EmittedFrom(Replay(base), missed + rest) && Samples(Replay(base).live, snap)
    ensures SameAnswers(RestoredGraph(snap, rest, limit, ttl),
      ApplyAll(NewGraph(limit, ttl), base + missed + rest)) <==>
            Recovers(Replay(base).live, Replay(base + missed), rest)
  {
    hide Samples, SameAnswers, Recovers, Anchored, Conforms, AllowedFrom;
    EngineTail(base, missed + rest);
    assert base + (missed + rest) == base + missed + rest;
    EmittedConcat(Replay(base), missed, rest);
    EngineTail(base, missed);
    EngineTail(base + missed, rest);
    CoherentReplay(EMPTY, base);
    RestoreExact(Replay(base), snap, base + missed, rest, Replay(base + missed + rest).ident, limit, ttl);
  }

  /** In particular, restarting at once loses exactly what was missed. */
  lemma MissedIsLost(sample: View, h: History)
    ensures Recovers(sample, h, []) <==> sample == h.live
  {
    SameEverywhere(sample, h.live);
    assert forall t :: !Named([], t) && !Decided([], t);
    assert FoldLive(h.live, []) == h.live;
    if Recovers(sample, h, []) {
      forall t
        ensures At(sample, t) == At(h.live, t)
      {
        assert Outdated(sample, h.live, t) ==> Decided([], t);
      }
    }
  }
}
