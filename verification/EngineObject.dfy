/** The change engine as the object the server keeps, over the projection object: bookkeeping
    and staged events are updated in place by loops as the state machine says, and every
    operation keeps the engine valid and does for its caller what it promised. */
module EngineObject {
  import opened Text
  import opened Model
  import opened EventLog
  import A = Aliases
  import C = ChangeEngine
  import P = Projection
  import PO = ProjectionObject
  import O = Overlay
  import EC = EngineContracts
  import CanonicalValue

  // ------------------------------------------------------------ reference sets

  /** Drop the lapsed references of one holder. */
  method DropLapsedRefs(speakers: A.Refs, now: Time) returns (left: A.Refs)
    ensures left == A.Unlapsed(speakers, now)
  {
    left := speakers;
    var todo := speakers.Keys;
    while todo != {}
      invariant todo <= speakers.Keys && left.Keys <= speakers.Keys
      invariant forall k :: k in speakers ==> (k in left <==> k in todo || !A.Lapsed(speakers[k], now))
      invariant forall k :: k in left ==> left[k] == speakers[k]
      decreases |todo|
    {
      var key :| key in todo;
      todo := todo - {key};
      if speakers[key].deadline.By? && now > speakers[key].deadline.t {
        left := left - {key};
      }
    }
    assert left == A.Unlapsed(speakers, now);
  }

  /** What a pass over the holders has done: those to do are as they were. */
  ghost predicate Dropping<K(!new)>(refs: map<K, A.Refs>, now: Time, todo: set<K>, out: map<K, A.Refs>,
                                    orphans: seq<K>) {
    && out.Keys == refs.Keys && todo <= refs.Keys
    && (forall k :: k in refs ==> out[k] == if k in todo then refs[k] else A.Unlapsed(refs[k], now))
    && C.Visits(orphans, set k | k in refs && k !in todo && A.Unlapsed(refs[k], now) == map[])
  }

  lemma DropOne<K(!new)>(refs: map<K, A.Refs>, now: Time, todo: set<K>, out: map<K, A.Refs>, orphans: seq<K>, k: K)
    requires Dropping(refs, now, todo, out, orphans) && k in todo
    ensures var left := A.Unlapsed(refs[k], now);
            Dropping(refs, now, todo - {k}, out[k := left], if left == map[] then orphans + [k] else orphans)
  {
    var was := set x | x in refs && x !in todo && A.Unlapsed(refs[x], now) == map[];
    var next := set x | x in refs && x !in todo - {k} && A.Unlapsed(refs[x], now) == map[];
    assert k !in was && k !in orphans;
    if A.Unlapsed(refs[k], now) == map[] {
      assert next == was + {k};
    } else {
      assert next == was;
    }
  }

  lemma DroppedAll<K(!new)>(refs: map<K, A.Refs>, now: Time, out: map<K, A.Refs>, orphans: seq<K>)
    requires Dropping(refs, now, {}, out, orphans)
    ensures out == C.DropLapsed(refs, now) && C.Visits(orphans, C.Orphans(out))
  {
    assert C.Orphans(out) == set k | k in refs && k !in {} && A.Unlapsed(refs[k], now) == map[];
  }

  /** Drop lapsed references everywhere; the holders left without any are listed in whatever
      order the map yields them. */
  method DropAllLapsed<K(!new, ==)>(refs: map<K, A.Refs>, now: Time) returns (out: map<K, A.Refs>, orphans: seq<K>)
    ensures out == C.DropLapsed(refs, now) && C.Visits(orphans, C.Orphans(out))
  {
    out, orphans := refs, [];
    var todo := refs.Keys;
    while todo != {}
      invariant Dropping(refs, now, todo, out, orphans)
      decreases |todo|
    {
      var k :| k in todo;
      assert out[k] == refs[k];
      var left := DropLapsedRefs(out[k], now);
      DropOne(refs, now, todo, out, orphans, k);
      todo := todo - {k};
      out := out[k := left];
      if left == map[] {
        orphans := orphans + [k];
      }
    }
    DroppedAll(refs, now, out, orphans);
  }

  // ------------------------------------------------------------ the engine

  class Engine {
    const graph: PO.Graph
    var log: seq<Event>
    var notified: seq<Event>
    var nextId: EntityId
    var refs: map<EntityId, A.Refs>
    var relRefs: map<RelationId, A.Refs>
    var pending: seq<C.Pending>
    var pendingHashes: set<Identity>
    var aliases: A.AliasIndex
    const bufferTTL: int
    var staged: C.Staged

    /** The state this object is in. */
    function State(): C.Engine
      reads this, graph
    {
      C.Engine(graph.State(), log, notified, nextId, refs, relRefs, pending, pendingHashes, aliases, bufferTTL, staged)
    }

    /** The projection shows the log and the overlay the staged events, edges join live
        entities, the tombstone cache is accounted for, and the alias maps agree. */
    ghost predicate Valid()
      reads this, graph
    {
      EC.Whole(State()) && A.Exact(aliases)
    }

    constructor (limit: int, ttl: int, buffer: int)
      ensures Valid() && fresh(graph) && State() == C.NewEngine(limit, ttl, buffer)
    {
      EC.NewEngineWhole(limit, ttl, buffer);
      graph := new PO.Graph(limit, ttl);
      log, notified, nextId := [], [], 0;
      refs, relRefs, pending, pendingHashes := map[], map[], [], {};
      aliases, bufferTTL, staged := A.NO_ALIASES, buffer, C.NO_STAGED;
    }

    method Commit(ev: Event)
      modifies this`staged
      ensures State() == C.Commit(old(State()), ev)
    {
      staged := C.Stage(staged, ev);
    }

    /** Edges die with their node. */
    method RemoveIncidentRelations(id: EntityId, when: Time, now: Time) returns (n: nat)
      modifies this`staged, this`relRefs
      ensures State() == C.Cascade(old(State()), id, when, now)
      ensures n == |C.ListRelationsTouching(old(State()), id)|
    {
      hide C.Stage, C.RemovedEvent, C.ListRelationsTouching;
      var rids := C.ListRelationsTouching(State(), id);
      n := 0;
      for i := 0 to |rids|
        invariant State() == C.RemoveEdges(old(State()), rids[..i], when, now) && n == i
      {
        assert rids[..i + 1][..i] == rids[..i];
        Commit(C.RemovedEvent(State(), rids[i], when, now));
        relRefs := relRefs - {rids[i]};
        n := n + 1;
      }
      assert rids[..|rids|] == rids;
    }

    /** Recompute the waited-on identities from the parked edges. */
    method RebuildPendingHashes()
      modifies this`pendingHashes
      ensures State() == C.SetPending(old(State()), old(pending))
    {
      var hashes: set<Identity> := {};
      for i := 0 to |pending|
        invariant hashes == C.WaitedHashes(aliases, pending[..i])
      {
        assert pending[..i + 1][..i] == pending[..i];
        var obs := pending[i].obs;
        hashes := hashes + {obs.src};
        var sub := A.Substitute(aliases, obs.src);
        if sub.Some? {
          hashes := hashes + {sub.value};
        }
        hashes := hashes + {obs.dst};
        sub := A.Substitute(aliases, obs.dst);
        if sub.Some? {
          hashes := hashes + {sub.value};
        }
      }
      assert pending[..|pending|] == pending;
      pendingHashes := hashes;
    }

    /** Record the speaker's reference on a resolved edge and emit what changed. */
    method AssertRelation(obs: C.RelationObs, src: EntityId, dst: EntityId, now: Time)
      modifies this`staged, this`relRefs
      ensures State() == C.AssertRelation(old(State()), obs, src, dst, now)
      ensures old(EC.Whole(State()) && Ent(src) in O.Cur(State()).live && Ent(dst) in O.Cur(State()).live) ==>
                EC.Whole(State()) && Rel(RelationId(obs.typ, src, dst)) in O.Cur(State()).live
    {
      hide C.Stage, C.GetRelation, C.EdgeRef, EC.Whole, O.Cur;
      EC.AssertRelationWhole(State(), obs, src, dst, now);
      var rid := RelationId(obs.typ, src, dst);
      var key := C.Key(State(), obs.producer);
      var existing := C.GetRelation(State(), rid);
      var ref := C.EdgeRef(State(), obs, src, now);
      relRefs := relRefs[rid := C.Held(relRefs, rid)[key := ref]];
      match existing {
        case None => Commit(RelationEvent(Added, Relation(rid, obs.attrs), obs.eventTime, now));
        case Some(prior) =>
          if CanonicalValue.ChangedKeys(prior.attrs, obs.attrs) != {} {
            Commit(RelationEvent(AttributeChanged, Relation(rid, obs.attrs), obs.eventTime, now));
          }
      }
    }

    /** Retry one parked edge under the scope that asserted it. */
    method RetryOne(p: C.Pending, now: Time) returns (stays: bool)
      modifies this`staged, this`relRefs
      ensures (State(), stays) == C.Retry(old(State()), p, now)
    {
      hide C.AssertRelation, C.ResolveEnds;
      if now > p.deadline {
        return false;
      }
      match C.ResolveEnds(State(), p.obs) {
        case EndpointMissing => return true;
        case EndpointsCollapsed => return false;
        case Ends(src, dst) =>
          var flushing := staged.scope;
          staged := staged.(scope := p.scope);
          AssertRelation(p.obs, src, dst, now);
          staged := staged.(scope := flushing);
          return false;
      }
    }

    method FlushPending(now: Time)
      modifies this`staged, this`relRefs, this`pending, this`pendingHashes
      ensures State() == C.FlushPending(old(State()), now)
      ensures old(EC.Whole(State())) ==> EC.Whole(State())
    {
      hide EC.Whole;
      EC.FlushPendingWhole(State(), now);
      var kept: seq<C.Pending> := [];
      ghost var start := State();
      for i := 0 to |pending|
        invariant pending == old(pending) && pendingHashes == old(pendingHashes)
        invariant (State(), kept) == C.RetryAll(start, pending[..i], now)
      {
        hide C.Retry;
        assert pending[..i + 1][..i] == pending[..i];
        var stays := RetryOne(pending[i], now);
        if stays {
          kept := kept + [pending[i]];
        }
      }
      assert pending[..|pending|] == pending;
      pending := kept;
      RebuildPendingHashes();
    }

    /** Classify an entity observation, commit it and record the speaker's reference. */
    method AssertEntity(obs: C.EntityObs, now: Time)
      modifies this`staged, this`nextId, this`refs
      ensures State() == C.AssertEntity(old(State()), obs, now)
      ensures old(EC.Whole(State())) ==> EC.Whole(State())
    {
      hide C.Stage, C.Target, EC.Whole;
      EC.AssertEntityWhole(State(), obs, now);
      var key := C.Key(State(), obs.producer);
      var (id, ct, next) := C.Target(State(), obs, now);
      nextId := next;
      Commit(C.EntityEventOf(ct, id, obs, now));
      refs := refs[id := C.Held(refs, id)[key := C.RefFor(obs.interval, now)]];
    }

    /** Afterwards the identity is live and held by the speaker as long as it promised. */
    method ObserveEntity(obs: C.EntityObs, now: Time)
      requires Valid()
      modifies this
      ensures Valid() && EC.Observed(old(State()), State(), obs, now)
      ensures State() == C.ObserveEntityOp(old(State()), obs, now)
    {
      hide C.AssertEntity, C.FlushPending, EC.Whole, EC.Observed, A.Exact;
      EC.ObserveMeans(State(), obs, now);
      AssertEntity(obs, now);
      if pending != [] && obs.ident in pendingHashes {
        FlushPending(now);
      }
    }

    /** Release one speaker; the entity dies with its last reference, and its edges with it. */
    method DeleteEntity(obs: C.EntityObs, now: Time)
      requires Valid()
      modifies this
      ensures Valid() && EC.Released(old(State()), State(), obs, now)
      ensures State() == C.DeleteEntityOp(old(State()), obs, now)
    {
      hide C.MatchIdentity, C.Cascade, C.Commit, EC.Whole, EC.Released, A.Exact;
      EC.ReleaseMeans(State(), obs, now);
      match C.MatchIdentity(State(), obs.ident) {
        case None =>
        case Some(id) =>
          var left := C.Held(refs, id) - {C.Key(State(), obs.producer)};
          if id in refs && left != map[] {
            refs := refs[id := left];
          } else {
            refs := refs - {id};
            Commit(C.EntityEventOf(Deleted, id, obs, now));
            var n := RemoveIncidentRelations(id, obs.eventTime, now);
          }
      }
    }

    /** A believed equivalence is spoken for until its deadline, a refused one is ignored. */
    method RecordAlias(obs: C.RelationObs, now: Time)
      requires Valid()
      modifies this
      ensures Valid() && EC.AliasRecorded(old(State()), State(), obs, now)
      ensures State() == C.RecordAlias(old(State()), obs, now)
    {
      hide C.FlushPending, C.SetPending, EC.Whole, EC.AliasRecorded, A.Exact;
      EC.AliasMeans(State(), obs, now);
      match (C.ClaimOf(obs), C.AliasDeadline(obs, now)) {
        case (Some(claim), Some(d)) =>
          A.RecordKeepsExact(aliases, claim, C.Key(State(), obs.producer), A.Ref(d, 0));
          aliases := A.Record(aliases, claim, C.Key(State(), obs.producer), A.Ref(d, 0));
          if pending != [] {
            RebuildPendingHashes();
            FlushPending(now);
          }
        case _ =>
      }
    }

    /** Park an out-of-order edge, giving up on the oldest when the buffer is full. */
    method ParkRelation(obs: C.RelationObs, now: Time)
      modifies this`pending, this`pendingHashes
      ensures State() == C.Park(old(State()), obs, now)
      ensures |old(pending)| <= C.MAX_PENDING ==> |pending| <= C.MAX_PENDING
      ensures old(EC.Whole(State())) ==> EC.Whole(State())
    {
      hide EC.Whole, C.WaitedHashes, C.Key;
      EC.ParkWhole(State(), obs, now);
      if |pending| >= C.MAX_PENDING {
        pending := pending[1..];
      }
      var hold := bufferTTL;
      if obs.sourceInterval > hold {
        hold := obs.sourceInterval;
      }
      pending := pending + [C.Pending(obs, now + hold, staged.scope)];
      RebuildPendingHashes();
    }

    /** Afterwards a resolving edge is live and held by the speaker, an out-of-order one is
        parked. */
    method ObserveRelation(obs: C.RelationObs, now: Time)
      requires Valid()
      modifies this
      ensures Valid() && EC.EdgeObserved(old(State()), State(), obs, now)
      ensures State() == C.ObserveRelationOp(old(State()), obs, now)
    {
      hide C.RecordAlias, C.ResolveEnds, C.AssertRelation, C.Park, EC.Whole, EC.EdgeObserved, EC.AliasRecorded, A.Exact;
      EC.EdgeObserveMeans(State(), obs, now);
      if obs.typ == C.SAME_AS {
        RecordAlias(obs, now);
      }
      match C.ResolveEnds(State(), obs) {
        case Ends(src, dst) => AssertRelation(obs, src, dst, now);
        case EndpointsCollapsed =>
        case EndpointMissing =>
          if bufferTTL > 0 {
            ParkRelation(obs, now);
          }
      }
    }

    /** Release one speaker of an edge; it goes with its last reference. */
    method RemoveRelation(obs: C.RelationObs, now: Time)
      requires Valid()
      modifies this
      ensures Valid() && EC.EdgeReleased(old(State()), State(), obs, now)
      ensures State() == C.RemoveRelationOp(old(State()), obs, now)
    {
      hide C.ResolveEnds, C.GetRelation, C.Commit, C.RemovedEvent, EC.Whole, EC.EdgeReleased, A.Exact;
      EC.EdgeReleaseMeans(State(), obs, now);
      match C.ResolveEnds(State(), obs) {
        case EndpointMissing =>
        case EndpointsCollapsed =>
        case Ends(src, dst) =>
          var rid := RelationId(obs.typ, src, dst);
          var left := C.Held(relRefs, rid) - {C.Key(State(), obs.producer)};
          if rid in relRefs && left != map[] {
            relRefs := relRefs[rid := left];
          } else {
            var existing := C.GetRelation(State(), rid);
            var ev := C.RemovedEvent(State(), rid, obs.eventTime, now);
            relRefs := relRefs - {rid};
            if existing.Some? {
              Commit(ev);
            }
          }
      }
    }

    method Perform(op: C.Op, now: Time)
      requires Valid()
      modifies this
      ensures Valid() && State() == C.Step(old(State()), op, now)
    {
      hide C.ObserveEntityOp, C.DeleteEntityOp, C.ObserveRelationOp, C.RemoveRelationOp, EC.Whole, A.Exact, EC.Observed,
           EC.Released, EC.EdgeObserved, EC.EdgeReleased;
      EC.RescopeWhole(State(), if op.SetScope? then op.scope else []);
      match op {
        case SetScope(scope) => staged := staged.(scope := scope);
        case ObserveEntity(obs) => ObserveEntity(obs, now);
        case DeleteEntity(obs) => DeleteEntity(obs, now);
        case ObserveRelation(obs) => ObserveRelation(obs, now);
        case RemoveRelation(obs) => RemoveRelation(obs, now);
      }
    }

    /** Append the staged events in one write, then apply and notify them one by one; when
        the append does not land nothing is applied. */
    method FlushStaged(lands: bool) returns (ok: bool)
      requires Valid()
      modifies this, graph
      ensures Valid() && State() == C.Flush(old(State()), lands) && aliases == old(aliases)
      ensures ok <==> lands || old(staged).events == []
    {
      hide EC.Whole, A.Exact, P.Accounted, P.ApplyAll;
      EC.FlushWhole(State(), lands);
      EC.WholeAccounts(State());
      var evs := staged.events;
      staged := C.NO_STAGED;
      if evs == [] {
        return true;
      }
      if !lands {
        return false;
      }
      log := log + evs;
      ApplyAndNotify(evs);
      ok := true;
    }

    /** Apply durable events to the projection and hand each to the observers, in order. */
    method ApplyAndNotify(evs: seq<Event>)
      requires graph.Valid()
      modifies this`notified, graph
      ensures graph.Valid() && graph.State() == P.ApplyAll(old(graph.State()), evs) && notified == old(notified) + evs
    {
      hide P.ApplyAll, P.Apply, P.Accounted, P.Indexed, P.Fits;
      ghost var start, told := graph.State(), notified;
      EC.NothingApplied(start);
      for i := 0 to |evs|
        invariant graph.Valid() && graph.State() == P.ApplyAll(start, evs[..i]) && notified == told + evs[..i]
      {
        EC.OneMoreApplied(start, evs, i);
        graph.Apply(evs[i]);
        notified := notified + [evs[i]];
      }
      assert evs[..|evs|] == evs;
    }

    /** Run the operations over the overlay and flush once: what lands is appended, applied
        and notified as a whole, and what does not leaves all three as they were. */
    method Batch(ops: seq<C.Timed>, lands: bool) returns (ok: bool)
      requires Valid()
      modifies this, graph
      ensures Valid() && staged == C.NO_STAGED && State() == C.Batch(old(State()), ops, lands)
      ensures old(log) <= log && notified == old(notified) + log[|old(log)|..]
      ensures graph.State() == P.ApplyAll(old(graph.State()), log[|old(log)|..])
      ensures !lands ==> log == old(log)
    {
      hide EC.Whole, A.Exact, P.ApplyAll, C.Flush;
      EC.UnstagedWhole(State());
      EC.BatchAppends(State(), ops, lands);
      staged := C.NO_STAGED;
      ghost var start := State();
      for i := 0 to |ops|
        invariant State() == C.Steps(start, ops[..i]) && Valid()
      {
        hide C.Step;
        assert ops[..i + 1][..i] == ops[..i];
        Perform(ops[i].op, ops[i].now);
      }
      assert ops[..|ops|] == ops;
      ok := FlushStaged(lands);
    }

    // ---------------------------------------------------------- sweeping

    /** Expire one unreferenced entity, with its edges. */
    method ExpireEntity(id: EntityId, now: Time, ghost w: C.SweepState) returns (entities: nat, relations: nat)
      requires w.e == State()
      modifies this`staged, this`refs, this`relRefs
      ensures C.SweepState(State(), w.entities + entities, w.relations + relations) == C.ExpireEntity(w, id, now)
    {
      hide C.Commit, C.Cascade, C.ListRelationsTouching;
      entities, relations := 0, 0;
      refs := refs - {id};
      if id in graph.entities && id !in graph.deleted {
        Commit(EntityEvent(Deleted, graph.entities[id], now, now));
        entities := 1;
        relations := RemoveIncidentRelations(id, now, now);
      }
    }

    /** Expire one unreferenced edge. */
    method ExpireRelation(rid: RelationId, now: Time, ghost w: C.SweepState) returns (relations: nat)
      requires w.e == State()
      modifies this`staged, this`relRefs
      ensures C.SweepState(State(), w.entities, w.relations + relations) == C.ExpireRelation(w, rid, now)
    {
      hide C.Commit;
      relations := 0;
      relRefs := relRefs - {rid};
      if rid in graph.relations {
        Commit(RelationEvent(Removed, graph.relations[rid], now, now));
        relations := 1;
      }
    }

    /** Give up on the parked edges past their time. */
    method ExpirePending(now: Time)
      modifies this`pending, this`pendingHashes
      ensures State() == if old(pending) == [] then old(State())
                         else C.SetPending(old(State()), C.UnexpiredPending(old(pending), now))
    {
      if pending == [] {
        return;
      }
      var kept: seq<C.Pending> := [];
      for i := 0 to |pending|
        invariant kept == C.UnexpiredPending(pending[..i], now)
      {
        assert pending[..i + 1][..i] == pending[..i];
        if now <= pending[i].deadline {
          kept := kept + [pending[i]];
        }
      }
      assert pending[..|pending|] == pending;
      pending := kept;
      RebuildPendingHashes();
    }

    method ExpireEntities(ids: seq<EntityId>, now: Time, ghost w: C.SweepState) returns (entities: nat, relations: nat)
      requires w == C.SweepState(State(), 0, 0)
      modifies this`staged, this`refs, this`relRefs
      ensures C.SweepState(State(), entities, relations) == C.ExpireEntities(w, ids, now)
    {
      entities, relations := 0, 0;
      for i := 0 to |ids|
        invariant C.SweepState(State(), entities, relations) == C.ExpireEntities(w, ids[..i], now)
      {
        hide C.ExpireEntity;
        assert ids[..i + 1][..i] == ids[..i];
        var de, dr := ExpireEntity(ids[i], now, C.SweepState(State(), entities, relations));
        entities, relations := entities + de, relations + dr;
      }
      assert ids[..|ids|] == ids;
    }

    method ExpireRelations(rids: seq<RelationId>, now: Time, entities: nat, relations0: nat, ghost w: C.SweepState)
      returns (relations: nat)
      requires w == C.SweepState(State(), entities, relations0)
      modifies this`staged, this`relRefs
      ensures C.SweepState(State(), entities, relations) == C.ExpireRelations(w, rids, now)
    {
      relations := relations0;
      for i := 0 to |rids|
        invariant C.SweepState(State(), entities, relations) == C.ExpireRelations(w, rids[..i], now)
      {
        hide C.ExpireRelation;
        assert rids[..i + 1][..i] == rids[..i];
        var dr := ExpireRelation(rids[i], now, C.SweepState(State(), entities, relations));
        relations := relations + dr;
      }
      assert rids[..|rids|] == rids;
    }

    /** Drop lapsed references and stage what that expires. */
    method StageExpiries(now: Time) returns (entities: nat, relations: nat, ids: seq<EntityId>, rids: seq<RelationId>)
      modifies this`staged, this`refs, this`relRefs, this`pending, this`pendingHashes
      ensures C.SweepOrders(old(State()), now, ids, rids)
      ensures C.SweepState(State(), entities, relations) == C.SweepStaged(old(State()), now, ids, rids)
    {
      hide C.ExpireEntities, C.ExpireRelations, C.DropLapsed, C.Orphans, C.Visits, C.UnexpiredPending;
      staged := C.NO_STAGED;
      refs, ids := DropAllLapsed(refs, now);
      ghost var w := C.SweepState(State(), 0, 0);
      assert w == C.SweepStart(old(State()), now);
      entities, relations := ExpireEntities(ids, now, w);
      w := C.SweepState(State(), entities, relations);
      ghost var m := C.SweepMiddle(w, now);
      ExpirePending(now);
      relRefs, rids := DropAllLapsed(relRefs, now);
      assert m == C.SweepState(State(), entities, relations);
      relations := ExpireRelations(rids, now, entities, relations, m);
    }

    /** One liveness pass, staged into one batch. The orders in which the orphans were
        visited are whatever the maps yielded. */
    method Sweep(now: Time, lands: bool)
      returns (entities: nat, relations: nat, ghost ids: seq<EntityId>, ghost rids: seq<RelationId>)
      requires Valid()
      modifies this, graph
      ensures Valid() && staged == C.NO_STAGED && C.SweepOrders(old(State()), now, ids, rids)
      ensures C.SweepState(State(), entities, relations) == C.Sweep(old(State()), now, ids, rids, lands)
    {
      hide C.SweepStaged, C.SweepOrders, A.Exact, A.Sweep, P.PruneTombstones, P.ApplyAll, EC.Whole;
      entities, relations, ids, rids := StageExpiries(now);
      EC.SweepStagedWhole(old(State()), now, ids, rids);
      EC.SweepWhole(old(State()), now, ids, rids, lands);
      var ok := FlushStaged(lands);
      if !ok {
        entities, relations := 0, 0;
      }
      aliases := SweepAliases(aliases, now);
      assert graph.Valid() by {
        EC.WholeAccounts(C.Flush(C.SweepStaged(old(State()), now, ids, rids).e, lands));
      }
      var pruned := graph.PruneTombstones(now);
    }
  }

  // ------------------------------------------------------------ sweeping aliases

  /** The alias index with the done claims swept. */
  function PartlySwept(idx: A.AliasIndex, now: Time, done: set<A.Claim>): A.AliasIndex {
    var gone := A.Vanished(idx, now) * done;
    A.AliasIndex(
      map c | c in idx.speakers && c !in gone :: if c in done then A.Unlapsed(idx.speakers[c], now)
        else idx.speakers[c],
      map k | k in idx.byAlias && A.Left(idx.byAlias[k], k, gone) != {} :: A.Left(idx.byAlias[k], k, gone))
  }

  lemma SweptNone(idx: A.AliasIndex, now: Time)
    requires A.Exact(idx)
    ensures PartlySwept(idx, now, {}) == idx
  {
    var p := PartlySwept(idx, now, {});
    assert A.Vanished(idx, now) * {} == {};
    forall k | k in idx.byAlias
      ensures A.Left(idx.byAlias[k], k, {}) == idx.byAlias[k]
    {
    }
    assert p.speakers == idx.speakers && p.byAlias == idx.byAlias;
  }

  lemma SweptAll(idx: A.AliasIndex, now: Time)
    ensures PartlySwept(idx, now, idx.speakers.Keys) == A.Sweep(idx, now)
  {
    assert A.Vanished(idx, now) * idx.speakers.Keys == A.Vanished(idx, now);
    assert PartlySwept(idx, now, idx.speakers.Keys).speakers == A.Sweep(idx, now).speakers;
  }

  lemma SweptKept(idx: A.AliasIndex, now: Time, done: set<A.Claim>, c: A.Claim)
    requires c in idx.speakers && c !in done && A.Unlapsed(idx.speakers[c], now) != map[]
    ensures var p := PartlySwept(idx, now, done);
            PartlySwept(idx, now, done + {c}) == p.(speakers := p.speakers[c := A.Unlapsed(idx.speakers[c], now)])
  {
    assert A.Vanished(idx, now) * (done + {c}) == A.Vanished(idx, now) * done;
    var p, q := PartlySwept(idx, now, done), PartlySwept(idx, now, done + {c});
    assert q.speakers == p.speakers[c := A.Unlapsed(idx.speakers[c], now)];
  }

  lemma LeftWithout(vals: set<Str>, k: A.AliasKey, gone: set<A.Claim>, c: A.Claim)
    ensures A.Left(vals, k, gone + {c}) ==
      if k == c.alias then A.Left(vals, k, gone) - {c.canonical} else A.Left(vals, k, gone)
  {
    forall v
      ensures A.Claim(k, v) == c <==> k == c.alias && v == c.canonical
    {
    }
  }

  lemma VanishedCandidate(idx: A.AliasIndex, now: Time, gone: set<A.Claim>, c: A.Claim)
    requires A.Exact(idx) && c in A.Vanished(idx, now) && c !in gone
    ensures c.alias in idx.byAlias && c.canonical in A.Left(idx.byAlias[c.alias], c.alias, gone)
  {
    assert c.canonical in idx.byAlias[c.alias] && A.Claim(c.alias, c.canonical) == c;
  }

  lemma SweptCandidates(idx: A.AliasIndex, now: Time, done: set<A.Claim>, c: A.Claim)
    requires A.Exact(idx) && c in A.Vanished(idx, now) && c !in done
    ensures var p := PartlySwept(idx, now, done).byAlias;
            && c.alias in p
            && var left := p[c.alias] - {c.canonical};
               PartlySwept(idx, now, done + {c}).byAlias == if left == {} then p - {c.alias} else p[c.alias := left]
  {
    var gone := A.Vanished(idx, now) * done;
    assert A.Vanished(idx, now) * (done + {c}) == gone + {c};
    VanishedCandidate(idx, now, gone, c);
    hide A.Left, A.Exact, A.Vanished;
    var p, n := PartlySwept(idx, now, done).byAlias, PartlySwept(idx, now, done + {c}).byAlias;
    var left := p[c.alias] - {c.canonical};
    var want := if left == {} then p - {c.alias} else p[c.alias := left];
    forall k
      ensures k in n <==> k in want
      ensures k in n && k in want ==> n[k] == want[k]
    {
      if k in idx.byAlias {
        LeftWithout(idx.byAlias[k], k, gone, c);
      }
    }
    assert n == want;
  }

  lemma SweptVanished(idx: A.AliasIndex, now: Time, done: set<A.Claim>, c: A.Claim)
    requires A.Exact(idx) && c in idx.speakers && c !in done && A.Unlapsed(idx.speakers[c], now) == map[]
    ensures var p := PartlySwept(idx, now, done);
            && c.alias in p.byAlias
            && var left := p.byAlias[c.alias] - {c.canonical};
               PartlySwept(idx, now, done + {c}) ==
               A.AliasIndex(p.speakers - {c}, if left == {} then p.byAlias - {c.alias} else p.byAlias[c.alias := left])
  {
    SweptCandidates(idx, now, done, c);
    assert A.Vanished(idx, now) * (done + {c}) == A.Vanished(idx, now) * done + {c};
    assert PartlySwept(idx, now, done + {c}).speakers == PartlySwept(idx, now, done).speakers - {c};
  }

  /** Drop lapsed speakers; a claim whose last speaker lapsed disappears from both maps. */
  method SweepAliases(idx: A.AliasIndex, now: Time) returns (out: A.AliasIndex)
    requires A.Exact(idx)
    ensures out == A.Sweep(idx, now) && A.Exact(out)
  {
    out := idx;
    var todo := idx.speakers.Keys;
    ghost var done: set<A.Claim> := {};
    SweptNone(idx, now);
    while todo != {}
      invariant todo <= idx.speakers.Keys && done == idx.speakers.Keys - todo
      invariant out == PartlySwept(idx, now, done)
      decreases |todo|
    {
      hide A.Exact, PartlySwept;
      var c :| c in todo;
      StillThere(idx, now, done, c);
      var left := DropLapsedRefs(out.speakers[c], now);
      todo := todo - {c};
      if left == map[] {
        SweptVanished(idx, now, done, c);
        var candidates := out.byAlias[c.alias] - {c.canonical};
        out := A.AliasIndex(out.speakers - {c},
                            if candidates == {} then out.byAlias - {c.alias} else out.byAlias[c.alias := candidates]);
      } else {
        SweptKept(idx, now, done, c);
        out := out.(speakers := out.speakers[c := left]);
      }
      done := done + {c};
    }
    assert done == idx.speakers.Keys;
    SweptAll(idx, now);
    A.SweepKeepsExact(idx, now);
  }

  lemma StillThere(idx: A.AliasIndex, now: Time, done: set<A.Claim>, c: A.Claim)
    requires c in idx.speakers && c !in done
    ensures c in PartlySwept(idx, now, done).speakers && PartlySwept(idx, now, done).speakers[c] == idx.speakers[c]
  {
  }
}
