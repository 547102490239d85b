/** The meaning of an event log: the live things a replay ends with. */
module EventLog {
  import opened Model

  /** What an event is about. */
  datatype Thing = Ent(id: EntityId) | Rel(rid: RelationId)

  /** The state of a thing that replay must preserve. The schema URL is not part of it:
      a heartbeat may carry another one (see RetentionPass.SchemaCanDrift). */
  datatype Core = EntCore(ident: Identity, attrs: Attrs) | RelCore(rattrs: Attrs)

  /** Put overwrites, Touch is a heartbeat that only ensures presence, Drop removes. */
  datatype Effect = Put(core: Core) | Touch(core: Core) | Drop

  function ThingOf(ev: Event): Thing {
    match ev
    case EntityEvent(_, e, _, _) => Ent(e.id)
    case RelationEvent(_, r, _, _) => Rel(r.id)
  }

  function CoreOf(e: Entity): Core {
    EntCore(e.ident, e.attrs)
  }

  function EffectOf(ev: Event): Effect {
    match ev
    case EntityEvent(Deleted, _, _, _) => Drop
    case EntityEvent(Unchanged, e, _, _) => Touch(CoreOf(e))
    case EntityEvent(_, e, _, _) => Put(CoreOf(e))
    case RelationEvent(Removed, _, _, _) => Drop
    case RelationEvent(_, r, _, _) => Put(RelCore(r.attrs))
  }

  type View = map<Thing, Core>

  /** The live things, and the identity of every entity id the log has named. */
  datatype History = History(live: View, ident: map<EntityId, Identity>)

  const EMPTY := History(map[], map[])

  function NextLive(live: View, ev: Event): View {
    var t := ThingOf(ev);
    match EffectOf(ev)
    case Put(c) => live[t := c]
    case Touch(c) => if t in live then live else live[t := c]
    case Drop => live - {t}
  }

  function NextIdent(ident: map<EntityId, Identity>, ev: Event): map<EntityId, Identity> {
    match ev
    case EntityEvent(_, e, _, _) => ident[e.id := e.ident]
    case RelationEvent(_, _, _, _) => ident
  }

  function Next(h: History, ev: Event): History {
    History(NextLive(h.live, ev), NextIdent(h.ident, ev))
  }

  function ReplayFrom(h: History, evs: seq<Event>): History {
    if evs == [] then h
    else Next(ReplayFrom(h, evs[..|evs| - 1]), evs[|evs| - 1])
  }

  function Replay(log: seq<Event>): History {
    ReplayFrom(EMPTY, log)
  }

  // ------------------------------------------------------------ well-formed logs

  /** The live entity id has this identity. */
  ghost predicate Owns(live: View, id: EntityId, ident: Identity) {
    Ent(id) in live && live[Ent(id)].EntCore? && live[Ent(id)].ident == ident
  }

  /** No live entity other than id has this identity. */
  ghost predicate SoleOwner(live: View, id: EntityId, ident: Identity) {
    forall x :: Owns(live, x, ident) ==> x == id
  }

  /** An event replay tolerates: an id keeps its identity, identities have one live
      owner, a heartbeat on a known entity repeats its live state, and a delete of a known
      entity finds it live. This is what
      survives compaction, where an entity's first event may be any of them. */
  ghost predicate Allowed(h: History, ev: Event) {
    match ev
    case EntityEvent(ct, e, _, _) =>
      && (e.id in h.ident ==> h.ident[e.id] == e.ident)
      && (ct != Deleted ==> SoleOwner(h.live, e.id, e.ident))
      && (ct == Unchanged && e.id in h.ident ==> Ent(e.id) in h.live && h.live[Ent(e.id)] == CoreOf(e))
      && (ct == Deleted && e.id in h.ident ==> Ent(e.id) in h.live)
    case RelationEvent(_, _, _, _) => true
  }

  ghost predicate AllowedFrom(h: History, evs: seq<Event>) {
    evs != [] ==>
      && AllowedFrom(h, evs[..|evs| - 1])
      && Allowed(ReplayFrom(h, evs[..|evs| - 1]), evs[|evs| - 1])
  }

  ghost predicate AllowedLog(log: seq<Event>) {
    AllowedFrom(EMPTY, log)
  }

  /** An event as the change engine emits it: a create names an id that is not live, an
      update, heartbeat or delete names a live id with its identity, a heartbeat repeats
      the state it matched and an update does not, and a relation is added when absent,
      changed or removed when present, and asserted between live entities. */
  ghost predicate Emitted(h: History, ev: Event) {
    && Allowed(h, ev)
    && match ev
       case EntityEvent(Created, e, _, _) => Ent(e.id) !in h.live
       case EntityEvent(Unchanged, e, _, _) => Ent(e.id) in h.live && h.live[Ent(e.id)] == CoreOf(e)
       case EntityEvent(Deleted, e, _, _) => Ent(e.id) in h.live && e.id in h.ident
       case EntityEvent(_, e, _, _) => Ent(e.id) in h.live && e.id in h.ident && h.live[Ent(e.id)] != CoreOf(e)
       case RelationEvent(Added, r, _, _) => Rel(r.id) !in h.live && Ent(r.id.src) in h.live && Ent(r.id.dst) in h.live
       case RelationEvent(AttributeChanged, r, _, _) =>
         Rel(r.id) in h.live && h.live[Rel(r.id)] != RelCore(r.attrs) && Ent(r.id.src) in h.live &&
           Ent(r.id.dst) in h.live
       case RelationEvent(Removed, r, _, _) => Rel(r.id) in h.live
  }

  ghost predicate EmittedFrom(h: History, evs: seq<Event>) {
    evs != [] ==>
      && EmittedFrom(h, evs[..|evs| - 1])
      && Emitted(ReplayFrom(h, evs[..|evs| - 1]), evs[|evs| - 1])
  }

  lemma {:induction false} EmittedIsAllowed(h: History, evs: seq<Event>)
    requires EmittedFrom(h, evs)
    ensures AllowedFrom(h, evs)
  {
    if evs != [] {
      EmittedIsAllowed(h, evs[..|evs| - 1]);
    }
  }

  lemma Snoc(h: History, evs: seq<Event>, ev: Event)
    ensures ReplayFrom(h, evs + [ev]) == Next(ReplayFrom(h, evs), ev)
    ensures AllowedFrom(h, evs + [ev]) <==> AllowedFrom(h, evs) && Allowed(ReplayFrom(h, evs), ev)
    ensures EmittedFrom(h, evs + [ev]) <==> EmittedFrom(h, evs) && Emitted(ReplayFrom(h, evs), ev)
  {
    assert (evs + [ev])[..|evs|] == evs;
  }

  lemma {:induction false} ReplayConcat(h: History, a: seq<Event>, b: seq<Event>)
    ensures ReplayFrom(h, a + b) == ReplayFrom(ReplayFrom(h, a), b)
  {
    if b == [] {
      assert a + b == a;
    } else {
      var n := |b| - 1;
      assert (a + b)[..|a| + n] == a + b[..n];
      ReplayConcat(h, a, b[..n]);
    }
  }

  lemma {:induction false} AllowedConcat(h: History, a: seq<Event>, b: seq<Event>)
    ensures AllowedFrom(h, a + b) <==> AllowedFrom(h, a) && AllowedFrom(ReplayFrom(h, a), b)
  {
    if b == [] {
      assert a + b == a;
    } else {
      var n := |b| - 1;
      assert (a + b)[..|a| + n] == a + b[..n];
      AllowedConcat(h, a, b[..n]);
      ReplayConcat(h, a, b[..n]);
    }
  }

  lemma {:induction false} EmittedConcat(h: History, a: seq<Event>, b: seq<Event>)
    ensures EmittedFrom(h, a + b) <==> EmittedFrom(h, a) && EmittedFrom(ReplayFrom(h, a), b)
  {
    hide Emitted, Next;
    if b == [] {
      assert a + b == a;
    } else {
      var n := |b| - 1;
      assert (a + b)[..|a| + n] == a + b[..n];
      EmittedConcat(h, a, b[..n]);
      ReplayConcat(h, a, b[..n]);
    }
  }

  lemma AllowedPrefix(log: seq<Event>, n: nat)
    requires AllowedLog(log) && n <= |log|
    ensures AllowedLog(log[..n])
  {
    assert log == log[..n] + log[n..];
    AllowedConcat(EMPTY, log[..n], log[n..]);
  }

  lemma AllowedAt(log: seq<Event>, i: nat)
    requires AllowedLog(log) && i < |log|
    ensures Allowed(Replay(log[..i]), log[i])
  {
    AllowedPrefix(log, i + 1);
    assert log[..i + 1][..i] == log[..i];
  }

  // ------------------------------------------------------------ what every history keeps

  /** Entities carry entity state, relations relation state, live entities are known under
      their identity, and an identity has at most one live owner. */
  ghost predicate Coherent(h: History) {
    && (forall t :: t in h.live ==> (t.Ent? <==> h.live[t].EntCore?))
    && (forall t :: t in h.live && t.Ent? && h.live[t].EntCore? ==>
          t.id in h.ident && h.ident[t.id] == h.live[t].ident)
    && (forall a, b, i :: Owns(h.live, a, i) && Owns(h.live, b, i) ==> a == b)
  }

  lemma CoherentStep(h: History, ev: Event)
    requires Coherent(h) && Allowed(h, ev)
    ensures Coherent(Next(h, ev))
  {
    var n := Next(h, ev);
    var t := ThingOf(ev);
    assert forall u :: u in n.live && u != t ==> u in h.live && n.live[u] == h.live[u];
    OneOwnerStep(h, ev);
  }

  lemma OneOwnerStep(h: History, ev: Event)
    requires Coherent(h) && Allowed(h, ev)
    ensures forall a, b, i :: Owns(Next(h, ev).live, a, i) && Owns(Next(h, ev).live, b, i) ==> a == b
  {
    assert forall x, i :: Owns(Next(h, ev).live, x, i) && Ent(x) != ThingOf(ev) ==> Owns(h.live, x, i);
  }

  lemma {:induction false} CoherentReplay(h: History, evs: seq<Event>)
    requires Coherent(h) && AllowedFrom(h, evs)
    ensures Coherent(ReplayFrom(h, evs))
  {
    if evs != [] {
      var n := |evs| - 1;
      CoherentReplay(h, evs[..n]);
      CoherentStep(ReplayFrom(h, evs[..n]), evs[n]);
    }
  }

  /** A thing live after a replay has been named by it. */
  lemma {:induction false} LiveWasNamed(log: seq<Event>, t: Thing)
    requires t in Replay(log).live
    ensures exists i :: 0 <= i < |log| && ThingOf(log[i]) == t
  {
    if log != [] {
      var n := |log| - 1;
      if ThingOf(log[n]) != t {
        LiveWasNamed(log[..n], t);
        var i :| 0 <= i < n && ThingOf(log[..n][i]) == t;
        assert ThingOf(log[i]) == t;
      }
    }
  }

  /** A thing's state is decided by its last event: it is live unless that event drops it. */
  lemma {:induction false} LastEventDecides(log: seq<Event>, i: nat)
    requires i < |log|
    requires forall j :: i < j < |log| ==> ThingOf(log[j]) != ThingOf(log[i])
    ensures ThingOf(log[i]) in Replay(log).live <==> !EffectOf(log[i]).Drop?
  {
    var n := |log| - 1;
    if i < n {
      assert forall j :: i < j < n ==> log[..n][j] == log[j];
      LastEventDecides(log[..n], i);
    }
  }

  // ------------------------------------------------------------ dropping events

  /** The events whose flag is set, in order. */
  function Select(log: seq<Event>, keep: seq<bool>): seq<Event>
    requires |keep| == |log|
  {
    if log == [] then []
    else
      var n := |log| - 1;
      Select(log[..n], keep[..n]) + if keep[n] then [log[n]] else []
  }

  function KeptThings(log: seq<Event>, keep: seq<bool>): (ts: set<Thing>)
    requires |keep| == |log|
    ensures forall t :: t in ts <==> exists i :: 0 <= i < |log| && keep[i] && ThingOf(log[i]) == t
  {
    if log == [] then {}
    else
      var n := |log| - 1;
      var rest := KeptThings(log[..n], keep[..n]);
      assert forall i :: 0 <= i < n ==> log[..n][i] == log[i] && keep[..n][i] == keep[i];
      rest + if keep[n] then {ThingOf(log[n])} else {}
  }

  ghost predicate Noop(h: History, ev: Event) {
    NextLive(h.live, ev) == h.live
  }

  /** Dropping event i is harmless when nothing kept before it concerns the same thing, or
      when it changed nothing. */
  ghost predicate HarmlessAt(log: seq<Event>, keep: seq<bool>, i: nat)
    requires |keep| == |log| && i < |log|
  {
    || (forall j :: 0 <= j < i && keep[j] ==> ThingOf(log[j]) != ThingOf(log[i]))
    || Noop(Replay(log[..i]), log[i])
  }

  ghost predicate Harmless(log: seq<Event>, keep: seq<bool>)
    requires |keep| == |log|
  {
    forall i :: 0 <= i < |log| && !keep[i] ==> HarmlessAt(log, keep, i)
  }

  /** a knows no more entities than b, and by the same identities. */
  ghost predicate KnowsLess(a: map<EntityId, Identity>, b: map<EntityId, Identity>) {
    forall id :: id in a ==> id in b && a[id] == b[id]
  }

  /** small's live things are exactly big's among ts, its known entities are among ts, and it
      agrees with big on their identities. */
  ghost predicate Restricts(small: History, big: History, ts: set<Thing>) {
    && (forall t :: t in small.live <==> t in big.live && t in ts)
    && (forall t :: t in small.live ==> small.live[t] == big.live[t])
    && (forall id :: id in small.ident ==> Ent(id) in ts)
    && KnowsLess(small.ident, big.ident)
  }

  lemma RestrictsDropped(small: History, big: History, ts: set<Thing>, ev: Event)
    requires Restricts(small, big, ts) && Allowed(big, ev)
    requires ThingOf(ev) !in ts || Noop(big, ev)
    ensures Restricts(small, Next(big, ev), ts)
  {
  }

  lemma RestrictsKept(small: History, big: History, ts: set<Thing>, ev: Event)
    requires Restricts(small, big, ts) && Coherent(big) && Allowed(big, ev)
    ensures Allowed(small, ev)
    ensures Restricts(Next(small, ev), Next(big, ev), ts + {ThingOf(ev)})
  {
    assert forall x, i :: Owns(small.live, x, i) ==> Owns(big.live, x, i);
  }

  /** The sublog theorem: replaying a log without some harmless events is allowed, and gives
      every thing that kept an event exactly the state the full log gives it. */
  lemma {:induction false} SublogReplays(log: seq<Event>, keep: seq<bool>)
    requires |keep| == |log| && AllowedLog(log) && Harmless(log, keep)
    ensures AllowedLog(Select(log, keep))
    ensures Restricts(Replay(Select(log, keep)), Replay(log), KeptThings(log, keep))
  {
    if log != [] {
      var n := |log| - 1;
      HarmlessPrefix(log, keep, n);
      SublogReplays(log[..n], keep[..n]);
      CoherentReplay(EMPTY, log[..n]);
      var small, big := Replay(Select(log[..n], keep[..n])), Replay(log[..n]);
      var ts := KeptThings(log[..n], keep[..n]);
      if keep[n] {
        RestrictsKept(small, big, ts, log[n]);
        assert Select(log, keep)[..|Select(log, keep)| - 1] == Select(log[..n], keep[..n]);
      } else {
        assert HarmlessAt(log, keep, n);
        if ThingOf(log[n]) in ts {
          var j :| 0 <= j < n && keep[..n][j] && ThingOf(log[..n][j]) == ThingOf(log[n]);
          assert keep[j] && ThingOf(log[j]) == ThingOf(log[n]);
        }
        RestrictsDropped(small, big, ts, log[n]);
        assert Select(log, keep) == Select(log[..n], keep[..n]);
      }
    }
  }

  lemma HarmlessPrefix(log: seq<Event>, keep: seq<bool>, n: nat)
    requires |keep| == |log| && n <= |log| && Harmless(log, keep)
    ensures Harmless(log[..n], keep[..n])
  {
    forall i | 0 <= i < n && !keep[..n][i]
      ensures HarmlessAt(log[..n], keep[..n], i)
    {
      assert HarmlessAt(log, keep, i);
      assert log[..n][..i] == log[..i];
      assert forall j :: 0 <= j < i ==> log[..n][j] == log[j] && keep[..n][j] == keep[j];
    }
  }
}
