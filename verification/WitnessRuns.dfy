/** Runs, step by step, that reach what the guarantees exclude. */
module WitnessRuns {
  import opened Text
  import opened Model
  import opened EventLog
  import opened Aliases
  import opened ChangeEngine
  import opened Overlay
  import opened EngineSteps
  import opened EngineSweep
  import opened EngineAppends
  import opened EngineRuns
  import opened WakeUps
  import opened LostWakeUps
  import opened FailedAppends
  import P = Projection
  import R = Retention
  import RP = RetentionPass
  import CanonicalValue
  import SN = Snapshot
  import SR = SnapshotRestore
  import SC = SnapshotCompaction

  // ------------------------------------------------------------ small batches

  lemma OneOp(s: Engine, op: Op, now: Time)
    requires s.st == NO_STAGED
    ensures Batch(s, [Timed(op, now)], true) == Flush(Step(s, op, now), true)
  {
    hide Step, Flush;
    assert s.(st := NO_STAGED) == s;
    assert [Timed(op, now)][..0] == [];
    assert Steps(s, []) == s;
  }

  /** A batch that observes one unknown entity. */
  lemma CreateBatch(s: Engine, obs: EntityObs, now: Time)
    requires s.st == NO_STAGED && s.pending == []
    requires P.MatchIdentity(s.g, obs.ident) == None && P.MatchTombstone(s.g, obs.ident, now) == None
    ensures var t := Batch(s, [Timed(ObserveEntity(obs), now)], true);
            var ev := EntityEventOf(Created, s.nextId, obs, now);
            var held := Held(s.refs, s.nextId)[Key(s, obs.producer) := RefFor(obs.interval, now)];
            t == s.(log := s.log + [ev], g := P.PutEntity(s.g, ev.entity), notified := s.notified + [ev],
                    nextId := s.nextId + 1, refs := s.refs[s.nextId := held])
  {
    hide P.PutEntity, P.DeleteEntity, Flush, RefFor;
    OneOp(s, ObserveEntity(obs), now);
    var ev := EntityEventOf(Created, s.nextId, obs, now);
    assert Target(s, obs, now) == (s.nextId, Created, s.nextId + 1);
    FlushOne(Step(s, ObserveEntity(obs), now), ev);
  }

  /** Flushing one staged event. */
  lemma FlushOne(u: Engine, ev: Event)
    requires u.st.events == [ev]
    ensures Flush(u, true) == u.(st := NO_STAGED, log := u.log + [ev], g := P.Apply(u.g, ev),
      notified := u.notified + [ev])
  {
    hide P.Apply;
    assert [ev][..0] == [];
    assert P.ApplyAll(u.g, []) == u.g;
  }

  lemma LoneDelete(s: Engine, obs: EntityObs, now: Time, id: EntityId)
    requires s.st == NO_STAGED && P.MatchIdentity(s.g, obs.ident) == Some(id) && s.g.relations == map[]
    requires Held(s.refs, id) - {Key(s, obs.producer)} == map[]
    ensures DeleteEntityOp(s, obs, now) == Commit(s.(refs := s.refs - {id}), EntityEventOf(Deleted, id, obs, now))
  {
    var s1 := Commit(s.(refs := s.refs - {id}), EntityEventOf(Deleted, id, obs, now));
    assert TouchingSet(s1, id) == {};
    assert ListRelationsTouching(s1, id) == [];
  }

  /** A batch in which its only speaker releases an entity without edges. */
  lemma DeleteBatch(s: Engine, obs: EntityObs, now: Time, id: EntityId)
    requires s.st == NO_STAGED && P.MatchIdentity(s.g, obs.ident) == Some(id) && s.g.relations == map[]
    requires Held(s.refs, id) - {Key(s, obs.producer)} == map[]
    ensures var t := Batch(s, [Timed(DeleteEntity(obs), now)], true);
            var ev := EntityEventOf(Deleted, id, obs, now);
            t == s.(log := s.log + [ev], g := P.DeleteEntity(s.g, id, now), notified := s.notified + [ev],
              refs := s.refs - {id})
  {
    hide P.PutEntity, P.DeleteEntity, Flush, DeleteEntityOp;
    OneOp(s, DeleteEntity(obs), now);
    var ev := EntityEventOf(Deleted, id, obs, now);
    LoneDelete(s, obs, now, id);
    FlushOne(Step(s, DeleteEntity(obs), now), ev);
  }

  // ------------------------------------------------------------ a misled restart

  const PLAIN: Identity := Identity([], map[])

  function Seen(at: Time): EntityObs {
    EntityObs(PLAIN, map[], [], at, 0, [])
  }

  function MadeAt(id: EntityId, at: Time): Event {
    EntityEventOf(Created, id, Seen(at), at)
  }

  function GoneAt(id: EntityId, at: Time): Event {
    EntityEventOf(Deleted, id, Seen(at), at)
  }

  const BORN: World := World(NewEngine(1, 1, 1), 0, map[], None)

  /** Observe, snapshot, delete, observe again after the grace window, prune past the delete,
      restart. */
  const MISLED: seq<Act> := [
    DoBatch([Timed(ObserveEntity(Seen(0)), 0)], true),
    DoSnapshot(1, 1, [MadeAt(0, 0)]),
    DoBatch([Timed(DeleteEntity(Seen(0)), 0)], true),
    DoBatch([Timed(ObserveEntity(Seen(5)), 5)], true),
    DoPrune(3, [false, false, true], []),
    DoRestart(1, 1, 5, true)]

  /** The engine after each of the three batches. */
  ghost predicate FirstSeen(s: Engine) {
    && s.log == [MadeAt(0, 0)] && s.g == P.PutEntity(P.NewGraph(1, 1), MadeAt(0, 0).entity)
    && s.nextId == 1 && s.st == NO_STAGED && s.pending == []
    && s.refs == map[0 := map[Key(s, []) := Ref(Never, 0)]] && s.aliases == NO_ALIASES && s.bufferTTL == 1
  }

  ghost predicate ThenGone(s: Engine) {
    && s.log == [MadeAt(0, 0), GoneAt(0, 0)] && s.nextId == 1 && s.st == NO_STAGED && s.pending == []
    && P.MatchIdentity(s.g, PLAIN) == None && P.MatchTombstone(s.g, PLAIN, 5) == None
  }

  ghost predicate SeenAgain(s: Engine) {
    s.log == [MadeAt(0, 0), GoneAt(0, 0), MadeAt(1, 5)]
  }

  lemma SeeFirst()
    ensures FirstSeen(Batch(BORN.e, [Timed(ObserveEntity(Seen(0)), 0)], true))
  {
    CreateBatch(BORN.e, Seen(0), 0);
  }

  lemma SeeGone(s: Engine)
    requires FirstSeen(s)
    ensures ThenGone(Batch(s, [Timed(DeleteEntity(Seen(0)), 0)], true))
  {
    DeleteBatch(s, Seen(0), 0, 0);
    var g := P.DeleteEntity(s.g, 0, 0);
    assert s.g.deleted == {} && s.g.tombs == 0 && s.g.cap == 1;
    assert g == P.Bury(P.Unindex(s.g, 0), 0, 0);
    assert g.tombDeadline == map[0 := 1];
    assert [MadeAt(0, 0)] + [GoneAt(0, 0)] == [MadeAt(0, 0), GoneAt(0, 0)];
  }

  lemma SeeAgain(s: Engine)
    requires ThenGone(s)
    ensures SeenAgain(Batch(s, [Timed(ObserveEntity(Seen(5)), 5)], true))
  {
    CreateBatch(s, Seen(5), 5);
    assert s.log + [MadeAt(1, 5)] == [MadeAt(0, 0), GoneAt(0, 0), MadeAt(1, 5)];
  }

  lemma FirstSampled()
    ensures SN.Samples(Replay([MadeAt(0, 0)][..1]).live, [MadeAt(0, 0)])
  {
    var snap := [MadeAt(0, 0)];
    assert snap[..1] == snap && snap[..0] == [];
    assert Replay(snap).live == map[Ent(0) := CoreOf(MadeAt(0, 0).entity)];
    assert ThingOf(snap[0]) == Ent(0);
  }

  lemma PrunesPast(log: seq<Event>)
    requires log == [MadeAt(0, 0), GoneAt(0, 0), MadeAt(1, 5)]
    ensures R.Prunes(log, 3, [false, false, true])
    ensures SC.Compacted(log, [false, false, true], []) == [MadeAt(1, 5)]
    ensures CutAfter(log, [false, false, true], 1) == 0
  {
    assert ThingOf(log[1]) == ThingOf(log[0]);
    assert EffectOf(log[1]).Drop?;
    assert log[..2][..1] == log[..1] && log[..1][..0] == [];
    var keep := [false, false, true];
    assert keep[..2][..1] == keep[..1];
    assert Select(log[..1], keep[..1]) == [];
    assert Select(log[..2], keep[..2]) == [];
  }

  /** Two live entities share one identity in what a restart makes of the snapshot of the
      first and the tail with the second. */
  ghost predicate TwoLive(g: P.Graph) {
    && 0 in P.Live(g) && P.Live(g)[0].ident == PLAIN
    && 1 in P.Live(g) && P.Live(g)[1].ident == PLAIN
  }

  lemma RestoredTwo()
    ensures TwoLive(SR.RestoredGraph([MadeAt(0, 0)], [MadeAt(1, 5)], 1, 1))
  {
    var a, b := [MadeAt(0, 0)], [MadeAt(1, 5)];
    assert a[..0] == [] && b[..0] == [];
    var g := P.PutEntity(P.NewGraph(1, 1), MadeAt(0, 0).entity);
    assert P.ApplyAll(P.NewGraph(1, 1), a) == g;
    assert P.ApplyAll(g, b) == P.PutEntity(g, MadeAt(1, 5).entity);
  }

  ghost predicate Follows(w: World, a: Act, n: World) {
    Legal(w, a) && n == Acted(w, a)
  }

  lemma BatchFollows(w: World, ops: seq<Timed>)
    requires Forward(w.clock, ops)
    ensures Follows(w, DoBatch(ops, true), Moved(w, Batch(w.e, ops, true), Clock(w.clock, ops)))
  {
  }

  lemma OneForward(was: Time, t: Timed)
    requires was <= t.now
    ensures Forward(was, [t]) && Clock(was, [t]) == t.now
  {
    assert [t][..0] == [];
  }

  /** The worlds of the run, one per act. */
  ghost function W1(): World { Moved(BORN, Batch(BORN.e, [Timed(ObserveEntity(Seen(0)), 0)], true), 0) }
  ghost function W2(): World { W1().(saved := Some(Saved([MadeAt(0, 0)], 1, W1().e.refs, W1().e.relRefs))) }
  ghost function W3(): World { Moved(W2(), Batch(W2().e, [Timed(DeleteEntity(Seen(0)), 0)], true), 0) }
  ghost function W4(): World { Moved(W3(), Batch(W3().e, [Timed(ObserveEntity(Seen(5)), 5)], true), 5) }
  ghost function W5(): World {
    W4().(e := W4().e.(log := [MadeAt(1, 5)]), saved := Some(Saved([MadeAt(0, 0)], 0, W1().e.refs, W1().e.relRefs)))
  }
  ghost function W6(): World { Moved(W5(), Restarted(W5().e, W5().saved, 1, 1, 5, true), 5) }

  ghost function MisledWorlds(): seq<World> {
    [BORN, W1(), W2(), W3(), W4(), W5(), W6()]
  }

  lemma MisledBatches()
    ensures Follows(BORN, MISLED[0], W1()) && Follows(W2(), MISLED[2], W3()) && Follows(W3(), MISLED[3], W4())
    ensures FirstSeen(W2().e) && SeenAgain(W4().e)
  {
    hide Batch, FirstSeen, ThenGone, SeenAgain, Follows;
    OneForward(0, Timed(ObserveEntity(Seen(0)), 0));
    OneForward(0, Timed(DeleteEntity(Seen(0)), 0));
    OneForward(0, Timed(ObserveEntity(Seen(5)), 5));
    BatchFollows(BORN, [Timed(ObserveEntity(Seen(0)), 0)]);
    BatchFollows(W2(), [Timed(DeleteEntity(Seen(0)), 0)]);
    BatchFollows(W3(), [Timed(ObserveEntity(Seen(5)), 5)]);
    SeeFirst();
    SeeGone(W2().e);
    SeeAgain(W3().e);
  }

  lemma MisledSnapshot()
    requires FirstSeen(W2().e)
    ensures Follows(W1(), MISLED[1], W2())
  {
    hide W1, SN.Samples, Replay;
    FirstSampled();
  }

  lemma MisledPrune()
    requires SeenAgain(W4().e)
    ensures Follows(W4(), MISLED[4], W5()) && Follows(W5(), MISLED[5], W6()) && TwoLive(W6().e.g)
  {
    hide Batch, R.Prunes, SC.Compacted, Select, TwoLive, SR.RestoredGraph, Moved;
    PrunesPast(W4().e.log);
    RestoredTwo();
    MovedSaves(W3(), Batch(W3().e, [Timed(ObserveEntity(Seen(5)), 5)], true), 5);
    MovedSaves(W2(), Batch(W2().e, [Timed(DeleteEntity(Seen(0)), 0)], true), 0);
    MovedSaves(W5(), Restarted(W5().e, W5().saved, 1, 1, 5, true), 5);
  }

  lemma MovedSaves(w: World, e: Engine, clock: Time)
    ensures Moved(w, e, clock).saved == w.saved && Moved(w, e, clock).clock == clock && Moved(w, e, clock).e == e
  {
  }

  /** The run is one, and ends with two live entities of one identity. */
  lemma MisledRun()
    ensures Run(MisledWorlds(), MISLED) && TwoLive(MisledWorlds()[6].e.g)
  {
    hide W1, W2, W3, W4, W5, W6, TwoLive, Legal, Acted, FirstSeen, SeenAgain;
    MisledBatches();
    MisledSnapshot();
    MisledPrune();
    var ws := MisledWorlds();
    assert Newborn(ws[0], 1, 1, 1);
    assert forall k :: 0 <= k < 6 ==> Follows(ws[k], MISLED[k], ws[k + 1]);
  }

  /** So no guarantee of the safe runs extends to every run. */
  lemma MisledRunIsUnsafe()
    ensures !SafeRun(MisledWorlds(), MISLED)
  {
    hide Batch, W1, W2, W3, W4, W5, W6;
    MisledRun();
    var ws := MisledWorlds();
    if SafeRun(ws, MISLED) {
      OneEntityPerIdentity(ws, MISLED, 6, 0);
      OneEntityPerIdentity(ws, MISLED, 6, 1);
    }
  }

  // ------------------------------------------------------------ a sequence ahead of its sample

  /** Observe; sample before the event is applied, but record the sequence after its append;
      restart. */
  const AHEAD: seq<Act> := [
    DoBatch([Timed(ObserveEntity(Seen(0)), 0)], true), DoSnapshot(0, 1, []), DoRestart(1, 1, 0, true)]

  ghost function B2(): World { W1().(saved := Some(Saved([], 1, W1().e.refs, W1().e.relRefs))) }
  ghost function B3(): World { Moved(B2(), Restarted(B2().e, B2().saved, 1, 1, 0, true), 0) }

  lemma AheadSteps()
    ensures Follows(BORN, AHEAD[0], W1()) && Follows(W1(), AHEAD[1], B2()) && Follows(B2(), AHEAD[2], B3())
    ensures FirstSeen(W1().e)
  {
    hide Batch;
    SeeFirst();
    OneForward(0, Timed(ObserveEntity(Seen(0)), 0));
    BatchFollows(BORN, [Timed(ObserveEntity(Seen(0)), 0)]);
    assert W1().e.log[..0] == [];
    assert SN.Samples(Replay([]).live, []);
  }

  /** The run is one, and ends with an entity the log holds and the projection does not. */
  lemma AheadRun()
    ensures Run([BORN, W1(), B2(), B3()], AHEAD)
    ensures Ent(0) in Base(B3().e).live && 0 !in P.Live(B3().e.g)
  {
    hide Legal, Acted, Batch;
    var ws := [BORN, W1(), B2(), B3()];
    AheadSteps();
    assert Newborn(ws[0], 1, 1, 1);
    assert forall k :: 0 <= k < 3 ==> Follows(ws[k], AHEAD[k], ws[k + 1]);
    FirstStays(W1().e);
    assert After(B2().e.log, 1) == [];
  }

  // ------------------------------------------------------------ a sweep whose append fails

  /** An entity promised for one time unit only. */
  const BRIEF: EntityObs := EntityObs(PLAIN, map[], [], 0, 1, [])

  /** Observe, sweep after the promise lapsed with a failing append, sweep again. */
  const LEAKING: seq<Act> := [
    DoBatch([Timed(ObserveEntity(BRIEF), 0)], true), DoSweep(2, [0], [], false), DoSweep(3, [], [], true)]

  ghost function L1(): World { Moved(BORN, Batch(BORN.e, [Timed(ObserveEntity(BRIEF), 0)], true), 0) }
  ghost function L2(): World { Moved(L1(), ChangeEngine.Sweep(L1().e, 2, [0], [], false).e, 2) }
  ghost function L3(): World { Moved(L2(), ChangeEngine.Sweep(L2().e, 3, [], [], true).e, 3) }

  ghost predicate BrieflySeen(s: Engine) {
    && s.st == NO_STAGED && s.relRefs == map[] && s.g.relations == map[]
    && s.log == [EntityEventOf(Created, 0, BRIEF, 0)]
    && s.refs.Keys == {0} && AllLapsed(s.refs, 0, 2)
  }

  lemma SeeBriefly()
    ensures BrieflySeen(L1().e) && Follows(BORN, LEAKING[0], L1())
  {
    CreateBatch(BORN.e, BRIEF, 0);
    OneForward(0, Timed(ObserveEntity(BRIEF), 0));
    BatchFollows(BORN, [Timed(ObserveEntity(BRIEF), 0)]);
    var refs := L1().e.refs;
    assert Unlapsed(refs[0], 2) == map[];
  }

  /** With nothing to visit, the empty orders are the only ones. */
  lemma NothingToVisit(s: Engine, now: Time)
    requires forall k :: k in s.refs ==> !AllLapsed(s.refs, k, now)
    requires s.relRefs == map[]
    ensures SweepOrders(s, now, [], [])
  {
    var w := SweepStart(s, now);
    assert ExpireEntities(w, [], now) == w;
    assert Orphans(w.e.refs) == {};
    NoEdgesToVisit(w, now);
  }

  lemma NoEdgesToVisit(w: SweepState, now: Time)
    requires w.e.relRefs == map[]
    ensures Orphans(SweepMiddle(w, now).e.relRefs) == {}
  {
    assert DropLapsed(w.e.relRefs, now) == map[];
  }

  lemma {:induction false} NoEdgeRefs(s: Engine, rids: seq<RelationId>, when: Time, now: Time)
    requires s.relRefs == map[]
    ensures RemoveEdges(s, rids, when, now).relRefs == map[]
  {
    if rids != [] {
      NoEdgeRefs(s, rids[..|rids| - 1], when, now);
    }
  }

  lemma ExpireFirst(w: SweepState, now: Time)
    requires w.e.relRefs == map[]
    ensures ExpireEntities(w, [0], now).e.relRefs == map[]
  {
    assert [0][..0] == [];
    assert ExpireEntities(w, [], now) == w;
    var s := w.e.(refs := w.e.refs - {0});
    if 0 in s.g.entities && 0 !in s.g.deleted {
      var s1 := Commit(s, EntityEvent(Deleted, s.g.entities[0], now, now));
      NoEdgeRefs(s1, ListRelationsTouching(s1, 0), now, now);
    }
  }

  lemma FirstSweepOrders(s: Engine)
    requires BrieflySeen(s)
    ensures SweepOrders(s, 2, [0], [])
  {
    hide ExpireEntities, SweepMiddle;
    var w := SweepStart(s, 2);
    assert Orphans(w.e.refs) == {0};
    ExpireFirst(w, 2);
    NoEdgesToVisit(ExpireEntities(w, [0], 2), 2);
  }

  lemma SweptEdgeKeys(s: Engine, now: Time, ids: seq<EntityId>, rids: seq<RelationId>, lands: bool)
    requires Sound(s) && SweepOrders(s, now, ids, rids) && s.relRefs == map[]
    ensures ChangeEngine.Sweep(s, now, ids, rids, lands).e.relRefs == map[]
  {
    hide Sound, SweepStaged, SweepOrders, Expired, FreshRefs, KeysCounted;
    SweepStagedSound(s, now, ids, rids);
    assert SweepStaged(s, now, ids, rids).e.relRefs == map[];
  }

  lemma FirstSweep()
    requires Good(L1()) && BrieflySeen(L1().e)
    ensures Follows(L1(), LEAKING[1], L2()) && L2().e.refs == map[] && L2().e.relRefs == map[] && L2().e.st == NO_STAGED
  {
    hide Sound, Linked, P.Accounted, Timely, Named, Stored, Batch, ChangeEngine.Sweep, SweepOrders;
    FirstSweepOrders(L1().e);
    FailedSweepBooks(L1().e, 2, [0], []);
    SweptEdgeKeys(L1().e, 2, [0], [], false);
    assert L1().e.refs.Keys == {0};
  }

  /** The run is one, and ends with a live entity nobody holds, which no later sweep
      removes. */
  lemma LeakingRun()
    ensures SafeRun([BORN, L1(), L2(), L3()], LEAKING)
    ensures 0 in P.Live(L3().e.g) && L3().e.refs == map[]
  {
    hide Good, SweepOrders, Legal, Acted, L1, L2, L3, BrieflySeen;
    var ws := [BORN, L1(), L2(), L3()];
    SeeBriefly();
    NewbornGood(BORN, 1, 1, 1);
    ActGood(BORN, LEAKING[0]);
    FirstSweep();
    NothingToVisit(L2().e, 3);
    SecondSweep();
    assert Newborn(ws[0], 1, 1, 1);
    assert forall k :: 0 <= k < 3 ==> Follows(ws[k], LEAKING[k], ws[k + 1]);
    RunGood(ws, LEAKING, 2);
    RunGood(ws, LEAKING, 3);
    LeakLasts();
  }

  lemma LeakLasts()
    requires Good(L1()) && Good(L2()) && Good(L3()) && BrieflySeen(L1().e) && L2().e.refs == map[] &&
      L2().e.relRefs == map[]
    ensures 0 in P.Live(L3().e.g) && L3().e.refs == map[]
  {
    hide Sound, Linked, P.Accounted, Timely, Named, Stored, Batch, ChangeEngine.Sweep, SweepOrders;
    FirstSweepOrders(L1().e);
    NothingToVisit(L2().e, 3);
    SeenIsLive(L1().e);
    FailedSweepLeaks(L1().e, 2, [0], [], 3, [], [], true, 0);
    SoundShows(L3().e);
    ShowsEntity(L3().e.g, Base(L3().e).live, 0);
    NoRefsLeft(L2().e, 3);
  }

  lemma SecondSweep()
    requires SweepOrders(L2().e, 3, [], [])
    ensures Follows(L2(), LEAKING[2], L3())
  {
    hide Batch, ChangeEngine.Sweep, SweepOrders;
  }

  lemma SeenIsLive(s: Engine)
    requires BrieflySeen(s)
    ensures Ent(0) in Base(s).live
  {
    assert s.log[..0] == [];
  }

  lemma SoundShows(s: Engine)
    requires Sound(s)
    ensures P.Shows(s.g, Base(s).live)
  {
  }

  lemma NoRefsLeft(s: Engine, now: Time)
    requires s.refs == map[] && Sound(s) && SweepOrders(s, now, [], [])
    ensures ChangeEngine.Sweep(s, now, [], [], true).e.refs == map[]
  {
    hide Sound, SweepStaged, SweepOrders;
    SweepStagedSound(s, now, [], []);
    assert DropLapsed(s.refs, now) == map[];
  }

  // ------------------------------------------------------------ a batch whose append fails

  /** A relation from the entity to itself. */
  const LOOP: RelationObs := RelationObs([], PLAIN, PLAIN, map[], None, 0, [], 0, 0)

  /** Observe, then release and relate in a batch that does not land. */
  const STRANDING: seq<Act> := [
    DoBatch([Timed(ObserveEntity(Seen(0)), 0)], true),
    DoBatch([Timed(DeleteEntity(Seen(0)), 0), Timed(ObserveRelation(LOOP), 0)], false)]

  ghost function S2(): World {
    Moved(W1(), Batch(W1().e, [Timed(DeleteEntity(Seen(0)), 0), Timed(ObserveRelation(LOOP), 0)], false), 0)
  }

  lemma TwoForward(was: Time, a: Timed, b: Timed)
    requires was <= a.now <= b.now
    ensures Forward(was, [a, b]) && Clock(was, [a, b]) == b.now
  {
    assert [a, b][..1] == [a] && [a][..0] == [];
  }

  /** The edge is parked and unexpired in that world though both its endpoints resolve. */
  ghost predicate LostIn(w: World, p: Pending) {
    Lost(w.e, Base(w.e).live, w.clock, p)
  }

  /** The run is one, and ends with a parked edge both of whose endpoints are live. */
  lemma StrandingRun()
    ensures SafeRun([BORN, W1(), S2()], STRANDING)
    ensures exists p :: LostIn(S2(), p)
  {
    hide Good, Legal, Acted, W1, S2, LostIn, FirstSeen;
    var ws := [BORN, W1(), S2()];
    StrandingSteps();
    assert Newborn(ws[0], 1, 1, 1);
    assert forall k :: 0 <= k < 2 ==> Follows(ws[k], STRANDING[k], ws[k + 1]);
    RunGood(ws, STRANDING, 1);
    Stranded();
  }

  lemma StrandingSteps()
    ensures Follows(BORN, STRANDING[0], W1()) && Follows(W1(), STRANDING[1], S2()) && FirstSeen(W1().e)
  {
    hide Batch, FirstSeen;
    SeeFirst();
    OneForward(0, Timed(ObserveEntity(Seen(0)), 0));
    TwoForward(0, Timed(DeleteEntity(Seen(0)), 0), Timed(ObserveRelation(LOOP), 0));
    BatchFollows(BORN, [Timed(ObserveEntity(Seen(0)), 0)]);
  }

  lemma Stranded()
    requires Good(W1()) && FirstSeen(W1().e)
    ensures exists p :: LostIn(S2(), p)
  {
    hide Sound, Linked, P.Accounted, Timely, Named, Stored, Batch, Waiting;
    FirstStays(W1().e);
    FailedDeleteLosesWakeUp(W1().e, Seen(0), LOOP, 0, 0, 0);
    var t := S2().e;
    var p :| p in t.pending && 0 <= p.deadline && p.obs == LOOP && !Waiting(Base(t).live, t.aliases, p);
    assert LostIn(S2(), p);
  }

  lemma FirstStays(s: Engine)
    requires FirstSeen(s)
    ensures Owns(Base(s).live, 0, PLAIN) && Held(s.refs, 0) - {Key(s, [])} == map[]
    ensures [] != SAME_AS
  {
    assert s.log[..0] == [];
    assert |SAME_AS| == |"same_as"|;
  }

  // ------------------------------------------------------------ an alias claim that lapses

  function Valued(v: Str): Identity {
    Identity([], map[[] := Plain(v)])
  }

  const ALIAS: AliasKey := AliasKey([], [])

  /** This value of the identifying attribute is canonical for the alias value. */
  function SameAs(canonical: Str, interval: int): RelationObs {
    RelationObs(SAME_AS, Valued(canonical), Valued([]), map[], Some(1.0), 0, [], interval, 0)
  }

  const PARKED: RelationObs := RelationObs([], PLAIN, Valued([]), map[], None, 0, [], 0, 0)

  const NAMED: EntityObs := EntityObs(Valued([1]), map[], [], 0, 0, [])

  function One(op: Op): Act {
    DoBatch([Timed(op, 0)], true)
  }

  /** Two entities, two disputing claims of which the second lapses, an edge to the alias,
      and a sweep after the lapse. */
  const LAPSING: seq<Act> := [
    One(ObserveEntity(NAMED)), One(ObserveEntity(Seen(0))),
    One(ObserveRelation(SameAs([1], 0))), One(ObserveRelation(SameAs([2], 1))),
    One(ObserveRelation(PARKED)), DoSweep(3, [], [], true)]

  const PATIENT: World := World(NewEngine(1, 1, 100), 0, map[], None)

  ghost function Next1(w: World, op: Op): World {
    Moved(w, Batch(w.e, [Timed(op, 0)], true), 0)
  }

  ghost function A1(): World { Next1(PATIENT, ObserveEntity(NAMED)) }
  ghost function A2(): World { Next1(A1(), ObserveEntity(Seen(0))) }
  ghost function A3(): World { Next1(A2(), ObserveRelation(SameAs([1], 0))) }
  ghost function A4(): World { Next1(A3(), ObserveRelation(SameAs([2], 1))) }
  ghost function A5(): World { Next1(A4(), ObserveRelation(PARKED)) }
  ghost function A6(): World { Moved(A5(), ChangeEngine.Sweep(A5().e, 3, [], [], true).e, 3) }

  /** Both entities are known, and nothing lapses. */
  ghost predicate BothKnown(s: Engine) {
    && s.st == NO_STAGED && s.relRefs == map[] && s.bufferTTL == 100
    && s.log == [EntityEventOf(Created, 0, NAMED, 0), EntityEventOf(Created, 1, Seen(0), 0)]
    && s.g.byHash == map[Valued([1]) := 0, PLAIN := 1] && s.g.deleted == {} && s.g.relations == map[]
    && s.refs == map[0 := map[Key(s, []) := Ref(Never, 0)], 1 := map[Key(s, []) := Ref(Never, 0)]]
  }

  function Speaks(s: Engine): Str {
    Key(s, [])
  }

  /** The alias index with the first claim, and with both. */
  function OneClaim(sp: Str): AliasIndex {
    AliasIndex(map[Claim(ALIAS, [1]) := map[sp := Ref(Never, 0)]], map[ALIAS := {[1]}])
  }

  function TwoClaims(sp: Str): AliasIndex {
    AliasIndex(map[Claim(ALIAS, [1]) := map[sp := Ref(Never, 0)], Claim(ALIAS, [2]) := map[sp := Ref(By(2), 0)]],
               map[ALIAS := {[1], [2]}])
  }

  ghost predicate OneKnown(s: Engine) {
    && s.st == NO_STAGED && s.relRefs == map[] && s.bufferTTL == 100 && s.pending == [] && s.aliases == NO_ALIASES
    && s.log == [EntityEventOf(Created, 0, NAMED, 0)] && s.nextId == 1
    && s.g.byHash == map[Valued([1]) := 0] && s.g.deleted == {} && s.g.tombByHash == map[] && s.g.relations == map[]
    && s.refs == map[0 := map[Key(s, []) := Ref(Never, 0)]]
  }

  lemma KnowOne()
    ensures OneKnown(A1().e)
  {
    hide Batch;
    CreateBatch(PATIENT.e, NAMED, 0);
  }

  lemma KnowBoth()
    ensures BothKnown(A2().e) && A2().e.pending == [] && A2().e.aliases == NO_ALIASES
  {
    hide Batch, A1;
    KnowOne();
    var s := A1().e;
    assert [] in Valued([1]).keys && [] !in PLAIN.keys;
    CreateBatch(s, Seen(0), 0);
    assert s.log + [EntityEventOf(Created, 1, Seen(0), 0)] ==
           [EntityEventOf(Created, 0, NAMED, 0), EntityEventOf(Created, 1, Seen(0), 0)];
  }

  lemma ClaimIs(canonical: Str, interval: int)
    requires canonical != []
    ensures ClaimOf(SameAs(canonical, interval)) == Some(Claim(ALIAS, canonical))
  {
    var o := SameAs(canonical, interval);
    assert o.src.keys[[]] != o.dst.keys[[]];
    assert DifferingKeys(o.src, o.dst) == {[]};
  }

  lemma OneClaimSubstitutes(sp: Str)
    ensures Substitute(OneClaim(sp), Valued([])) == Some(Valued([1]))
  {
    var idx := OneClaim(sp);
    assert Candidates(idx, ALIAS) == {[1]};
    assert Aliases.Canonical(idx, [], Valued([]).keys[[]]) == Some([1]);
    assert Substitute(idx, Valued([])).value.keys == map[[] := Plain([1])];
  }

  lemma OtherValueUnclaimed(sp: Str)
    ensures Substitute(TwoClaims(sp), Valued([2])) == None
  {
    var idx := TwoClaims(sp);
    assert Candidates(idx, AliasKey([], [2])) == {};
    assert Aliases.Canonical(idx, [], Plain([2])) == None;
  }

  /** A batch of one relation that emits nothing. */
  lemma SilentBatch(s: Engine, obs: RelationObs, t: Engine)
    requires s.st == NO_STAGED && ObserveRelationOp(s, obs, 0) == t && t.st == NO_STAGED
    ensures Batch(s, [Timed(ObserveRelation(obs), 0)], true) == t
  {
    hide ObserveRelationOp;
    OneOp(s, ObserveRelation(obs), 0);
  }

  lemma RecordFirst(sp: Str)
    ensures Record(NO_ALIASES, Claim(ALIAS, [1]), sp, Ref(Never, 0)) == OneClaim(sp)
  {
    assert Candidates(NO_ALIASES, ALIAS) + {[1]} == {[1]};
  }

  lemma RecordSecond(sp: Str)
    ensures Record(OneClaim(sp), Claim(ALIAS, [2]), sp, Ref(By(2), 0)) == TwoClaims(sp)
  {
    var idx, c := OneClaim(sp), Claim(ALIAS, [2]);
    assert [1][0] != [2][0];
    assert c !in idx.speakers;
    assert Candidates(idx, ALIAS) + {[2]} == {[1], [2]};
    assert Record(idx, c, sp, Ref(By(2), 0)).speakers == TwoClaims(sp).speakers;
    assert Record(idx, c, sp, Ref(By(2), 0)).byAlias == TwoClaims(sp).byAlias;
  }

  /** What the two entities answer to. */
  lemma Answering(s: Engine)
    requires BothKnown(s)
    ensures MatchIdentity(s, Valued([1])) == Some(0) && MatchIdentity(s, PLAIN) == Some(1)
    ensures MatchIdentity(s, Valued([])) == None && MatchIdentity(s, Valued([2])) == None
  {
    assert Valued([]).keys[[]] != Valued([1]).keys[[]] && [] !in PLAIN.keys;
    assert [1][0] != [2][0];
    assert Valued([2]).keys[[]] != Valued([1]).keys[[]];
  }

  lemma FirstClaim(s: Engine)
    requires BothKnown(s) && s.pending == [] && s.aliases == NO_ALIASES
    ensures Batch(s, [Timed(ObserveRelation(SameAs([1], 0)), 0)], true) == s.(aliases := OneClaim(Speaks(s)))
  {
    var obs, t := SameAs([1], 0), s.(aliases := OneClaim(Speaks(s)));
    ClaimIs([1], 0);
    RecordFirst(Speaks(s));
    OneClaimSubstitutes(Speaks(s));
    Answering(t);
    hide MatchIdentity, ClaimOf, Record, Substitute, OneClaim, BothKnown, Batch, Valued;
    assert s.st == NO_STAGED && t.st == NO_STAGED by {
      KnownUnstaged(s);
    }
    assert RecordAlias(s, obs, 0) == t;
    assert ResolveEnds(t, obs) == EndpointsCollapsed;
    SilentBatch(s, obs, t);
  }

  lemma SecondClaim(s: Engine)
    requires BothKnown(s) && s.pending == [] && s.aliases == OneClaim(Speaks(s))
    ensures var p := Pending(SameAs([2], 1), 100, []);
            Batch(s, [Timed(ObserveRelation(SameAs([2], 1)), 0)], true) ==
            SetPending(s.(aliases := TwoClaims(Speaks(s))), [p])
  {
    var obs, t := SameAs([2], 1), s.(aliases := TwoClaims(Speaks(s)));
    ClaimIs([2], 1);
    RecordSecond(Speaks(s));
    OtherValueUnclaimed(Speaks(s));
    Answering(t);
    hide MatchIdentity, ClaimOf, Record, Substitute, OneClaim, TwoClaims, BothKnown, Batch, Valued;
    KnownUnstaged(s);
    assert RecordAlias(s, obs, 0) == t;
    assert ResolveEnds(t, obs) == EndpointMissing;
    ParkAt(t, obs, []);
    SilentBatch(s, obs, Park(t, obs, 0));
  }

  lemma ParkEdge(s: Engine)
    requires BothKnown(s) && |s.pending| == 1 && s.aliases == TwoClaims(Speaks(s))
    ensures var p := Pending(PARKED, 100, []);
            Batch(s, [Timed(ObserveRelation(PARKED), 0)], true) == SetPending(s, s.pending + [p])
  {
    assert |SAME_AS| == |"same_as"|;
    LapseDisambiguates(ALIAS, [1], [2], Speaks(s), 2, 3, []);
    Answering(s);
    hide MatchIdentity, Substitute, BothKnown, Batch, SAME_AS;
    KnownUnstaged(s);
    assert ResolveEnds(s, PARKED) == EndpointMissing;
    ParkAt(s, PARKED, s.pending);
    SilentBatch(s, PARKED, Park(s, PARKED, 0));
  }

  lemma KnownUnstaged(s: Engine)
    requires BothKnown(s)
    ensures s.st == NO_STAGED && s.bufferTTL == 100
  {
  }

  lemma ParkAt(s: Engine, obs: RelationObs, ps: seq<Pending>)
    requires s.pending == ps && |ps| < 2 && s.st == NO_STAGED && s.bufferTTL == 100 && obs.sourceInterval == 0
    ensures Park(s, obs, 0) == SetPending(s, ps + [Pending(obs, 100, [])])
  {
  }

  lemma AliasSteps()
    ensures BothKnown(A5().e) && A5().e.aliases == TwoClaims(Speaks(A5().e))
    ensures A5().e.pending == [Pending(SameAs([2], 1), 100, []), Pending(PARKED, 100, [])]
    ensures A5().e.waited == WaitedHashes(A5().e.aliases, A5().e.pending)
    ensures Pending(PARKED, 100, []) in A5().e.pending
  {
    hide Batch;
    KnowBoth();
    FirstClaim(A2().e);
    SecondClaim(A3().e);
    ParkEdge(A4().e);
    assert A5().e.pending[1] == Pending(PARKED, 100, []);
  }

  lemma OneFollows(w: World, op: Op)
    requires w.clock == 0
    ensures Follows(w, One(op), Next1(w, op)) && Next1(w, op).clock == 0
  {
    hide Batch;
    OneForward(0, Timed(op, 0));
  }

  lemma AliasFollows()
    ensures Follows(PATIENT, LAPSING[0], A1()) && Follows(A1(), LAPSING[1], A2()) && Follows(A2(), LAPSING[2], A3())
    ensures Follows(A3(), LAPSING[3], A4()) && Follows(A4(), LAPSING[4], A5()) && A5().clock == 0
  {
    hide Follows, Next1;
    OneFollows(PATIENT, ObserveEntity(NAMED));
    OneFollows(A1(), ObserveEntity(Seen(0)));
    OneFollows(A2(), ObserveRelation(SameAs([1], 0)));
    OneFollows(A3(), ObserveRelation(SameAs([2], 1)));
    OneFollows(A4(), ObserveRelation(PARKED));
  }

  lemma NothingLapses(s: Engine, now: Time)
    requires BothKnown(s)
    ensures SweepOrders(s, now, [], []) && !AllLapsed(s.refs, 0, now) && !AllLapsed(s.refs, 1, now)
    ensures Owns(Base(s).live, 0, Valued([1])) && Owns(Base(s).live, 1, PLAIN)
  {
    forall k | k in s.refs
      ensures !AllLapsed(s.refs, k, now)
    {
      assert Key(s, []) in Unlapsed(s.refs[k], now);
    }
    NothingToVisit(s, now);
    BothLive(s.log);
  }

  lemma BothLive(log: seq<Event>)
    requires log == [EntityEventOf(Created, 0, NAMED, 0), EntityEventOf(Created, 1, Seen(0), 0)]
    ensures Owns(Replay(log).live, 0, Valued([1])) && Owns(Replay(log).live, 1, PLAIN)
  {
    Snoc(EMPTY, [], log[0]);
    Snoc(EMPTY, [log[0]], log[1]);
    assert [] + [log[0]] == [log[0]] && [log[0]] + [log[1]] == log;
    assert Replay([log[0]]).live == map[Ent(0) := CoreOf(log[0].entity)];
  }

  lemma LapseWakesNobody()
    requires Good(A5()) && BothKnown(A5().e)
    requires A5().e.aliases == TwoClaims(Speaks(A5().e)) && Pending(PARKED, 100, []) in A5().e.pending
    ensures LostIn(A6(), Pending(PARKED, 100, []))
  {
    hide Sound, Linked, P.Accounted, Timely, Named, Stored, A5, ChangeEngine.Sweep, SweepOrders, Waiting, BothKnown,
         AllLapsed;
    var s, p := A5().e, Pending(PARKED, 100, []);
    NothingLapses(s, 3);
    LapseDisambiguates(ALIAS, [1], [2], Speaks(s), 2, 3, []);
    LapseLosesWakeUp(s, 3, [], [], true, p, 1, 0);
  }

  /** The run is one, and ends with a parked edge both of whose endpoints have become
      resolvable. */
  lemma LapsingRun()
    ensures SafeRun([PATIENT, A1(), A2(), A3(), A4(), A5(), A6()], LAPSING)
    ensures LostIn(A6(), Pending(PARKED, 100, []))
  {
    hide Good, Legal, Acted, A1, A2, A3, A4, A5, A6, LostIn, BothKnown, TwoClaims, SweepOrders;
    var ws := [PATIENT, A1(), A2(), A3(), A4(), A5(), A6()];
    AliasSteps();
    AliasFollows();
    NothingLapses(A5().e, 3);
    SweepFollows();
    assert Newborn(ws[0], 1, 1, 100);
    assert forall k :: 0 <= k < 6 ==> Follows(ws[k], LAPSING[k], ws[k + 1]);
    RunGood(ws, LAPSING, 5);
    LapseWakesNobody();
  }

  lemma SweepFollows()
    requires SweepOrders(A5().e, 3, [], []) && A5().clock == 0
    ensures Follows(A5(), LAPSING[5], A6())
  {
    hide A5, ChangeEngine.Sweep, SweepOrders;
  }

  // ------------------------------------------------------------ an exposed edge

  /** As before, but the entity the alias comes to stand for is gone when the claim lapses, and
      seen again afterwards. */
  const EXPOSING: seq<Act> := [
    One(ObserveEntity(NAMED)), One(ObserveEntity(Seen(0))),
    One(ObserveRelation(SameAs([1], 0))), One(ObserveRelation(SameAs([2], 1))),
    One(ObserveRelation(PARKED)), One(DeleteEntity(NAMED)), DoSweep(3, [], [], true),
    DoBatch([Sighting(Valued([1]), 3)], true)]

  ghost function E6(): World { Next1(A5(), DeleteEntity(NAMED)) }
  ghost function E7(): World { Moved(E6(), ChangeEngine.Sweep(E6().e, 3, [], [], true).e, 3) }
  ghost function E8(): World { Moved(E7(), Batch(E7().e, [Sighting(Valued([1]), 3)], true), 3) }

  ghost function ExposingWorlds(): seq<World> {
    [PATIENT, A1(), A2(), A3(), A4(), A5(), E6(), E7(), E8()]
  }

  /** What is known once the named entity is gone. */
  ghost predicate NamedGone(s: Engine) {
    && s.st == NO_STAGED && s.relRefs == map[] && s.aliases == TwoClaims(Speaks(s))
    && s.log == [EntityEventOf(Created, 0, NAMED, 0), EntityEventOf(Created, 1, Seen(0), 0),
                 EntityEventOf(Deleted, 0, NAMED, 0)]
    && s.refs == map[1 := map[Key(s, []) := Ref(Never, 0)]]
    && s.pending == [Pending(SameAs([2], 1), 100, []), Pending(PARKED, 100, [])]
    && s.waited == WaitedHashes(s.aliases, s.pending)
  }

  lemma LoseNamed()
    ensures NamedGone(E6().e)
  {
    hide Batch, A5, WaitedHashes;
    AliasSteps();
    var s := A5().e;
    assert [] in Valued([1]).keys && [] !in PLAIN.keys;
    assert P.MatchIdentity(s.g, NAMED.ident) == Some(0);
    assert Held(s.refs, 0) - {Key(s, [])} == map[];
    DeleteBatch(s, NAMED, 0, 0);
    assert s.refs - {0} == map[1 := map[Key(s, []) := Ref(Never, 0)]];
    assert s.log + [EntityEventOf(Deleted, 0, NAMED, 0)] ==
           [EntityEventOf(Created, 0, NAMED, 0), EntityEventOf(Created, 1, Seen(0), 0),
            EntityEventOf(Deleted, 0, NAMED, 0)];
  }

  lemma OnlyPlainLives(log: seq<Event>)
    requires log == [EntityEventOf(Created, 0, NAMED, 0), EntityEventOf(Created, 1, Seen(0), 0),
                     EntityEventOf(Deleted, 0, NAMED, 0)]
    ensures Replay(log).live == map[Ent(1) := CoreOf(log[1].entity)]
  {
    Snoc(EMPTY, [], log[0]);
    Snoc(EMPTY, [log[0]], log[1]);
    Snoc(EMPTY, [log[0], log[1]], log[2]);
    assert [] + [log[0]] == [log[0]] && [log[0]] + [log[1]] == [log[0], log[1]] && [log[0], log[1]] + [log[2]] == log;
    var a := map[Ent(0) := CoreOf(log[0].entity)];
    assert Replay([log[0]]).live == a;
    assert Replay([log[0], log[1]]).live == a[Ent(1) := CoreOf(log[1].entity)];
  }

  lemma TwoWaited(idx: AliasIndex, p: Pending, q: Pending)
    ensures WaitedHashes(idx, [p, q]) == EndpointHashes(idx, p.obs.src) + EndpointHashes(idx, p.obs.dst) +
                                         EndpointHashes(idx, q.obs.src) + EndpointHashes(idx, q.obs.dst)
  {
    hide EndpointHashes;
    assert [p, q][..1] == [p] && [p][..0] == [];
    assert WaitedHashes(idx, [p]) == EndpointHashes(idx, p.obs.src) + EndpointHashes(idx, p.obs.dst);
  }

  /** The identities waited on under the dispute leave out the one the alias comes to mean. */
  lemma WaitsOnOthers(sp: Str)
    ensures Valued([1]) !in WaitedHashes(TwoClaims(sp), [Pending(SameAs([2], 1), 100, []), Pending(PARKED, 100, [])])
  {
    hide Substitute, WaitedHashes, TwoClaims, Valued;
    TwoWaited(TwoClaims(sp), Pending(SameAs([2], 1), 100, []), Pending(PARKED, 100, []));
    Disputed(sp);
    OtherValueUnclaimed(sp);
    PlainUnclaimed(sp);
    OtherIdentities();
  }

  /** While both claims stand the alias means nothing, and when one has lapsed the other. */
  lemma Disputed(sp: Str)
    ensures Substitute(TwoClaims(sp), Valued([])) == None
    ensures Substitute(Aliases.Sweep(TwoClaims(sp), 3), Valued([])) == Some(Valued([1]))
  {
    hide Substitute, Aliases.Sweep;
    LapseDisambiguates(ALIAS, [1], [2], sp, 2, 3, []);
  }

  lemma OtherIdentities()
    ensures Valued([2]) != Valued([1]) && Valued([]) != Valued([1]) && PLAIN != Valued([1])
  {
    assert [1][0] != [2][0];
    assert Valued([2]).keys[[]] != Valued([1]).keys[[]] && Valued([]).keys[[]] != Valued([1]).keys[[]];
    assert [] in Valued([1]).keys && [] !in PLAIN.keys;
  }

  lemma PlainUnclaimed(sp: Str)
    ensures Substitute(TwoClaims(sp), PLAIN) == None
  {
  }

  lemma SweepGone(s: Engine)
    requires NamedGone(s)
    ensures SweepOrders(s, 3, [], []) && !AllLapsed(s.refs, 1, 3) && !AllLapsed(s.refs, 0, 3)
  {
    assert Key(s, []) in Unlapsed(s.refs[1], 3);
    NothingToVisit(s, 3);
  }

  /** After the sweep every edge still waits, but the one to the alias is exposed: a sighting of
      what the alias has come to mean is looked at by nobody. */
  ghost predicate ExposedNow(s: Engine) {
    && s.st == NO_STAGED && Valued([1]) !in s.waited && Pending(PARKED, 100, []) in s.pending
    && Substitute(s.aliases, Valued([])) == Some(Valued([1])) && Owns(Base(s).live, 1, PLAIN)
    && AllWaiting(Base(s).live, s.aliases, s.pending, 3)
  }

  lemma GoneUnresolved(s: Engine, p: Pending)
    requires NamedGone(s) && p in s.pending
    ensures !ResolvesAfter(s, 3, true, p.obs.src) || !ResolvesAfter(s, 3, true, p.obs.dst)
  {
    OtherIdentities();
    Disputed(Speaks(s));
    assert p == s.pending[0] || p == s.pending[1];
    NobodyOwns(s, Valued([]));
    NobodyOwns(s, Valued([1]));
    hide Substitute, Aliases.Sweep, OwnedAfter;
    assert p.obs.dst == Valued([]);
  }

  lemma NobodyOwns(s: Engine, i: Identity)
    requires NamedGone(s) && i != PLAIN
    ensures !OwnedAfter(s, 3, true, i)
  {
    OnlyPlainLives(s.log);
  }

  lemma SweptExposed()
    requires Good(E6()) && NamedGone(E6().e)
    ensures ExposedNow(E7().e)
  {
    hide Sound, Linked, P.Accounted, Timely, Named, Stored, E6, ChangeEngine.Sweep, SweepOrders, Waiting, AllLapsed,
         Aliases.Sweep, Substitute, UnexpiredPending, ResolvesAfter, TwoClaims, WaitedHashes, Valued;
    var s := E6().e;
    SweepGone(s);
    SweepWaitingIff(s, 3, [], [], true);
    SweepBooks(s, 3, [], [], true);
    BothUnexpired(s.pending);
    WaitsOnOthers(Speaks(s));
    Disputed(Speaks(s));
    forall p | p in s.pending
      ensures !ResolvesAfter(s, 3, true, p.obs.src) || !ResolvesAfter(s, 3, true, p.obs.dst)
    {
      GoneUnresolved(s, p);
    }
    SweptPlain(s);
  }

  lemma SweepGoneFollows()
    requires NamedGone(E6().e) && E6().clock == 0
    ensures Follows(E6(), EXPOSING[6], E7())
  {
    hide E6, ChangeEngine.Sweep, SweepOrders, NamedGone;
    SweepGone(E6().e);
  }

  lemma BothUnexpired(ps: seq<Pending>)
    requires |ps| == 2 && ps[0].deadline == 100 && ps[1].deadline == 100
    ensures UnexpiredPending(ps, 3) == ps
  {
    assert ps[..1][..0] == [];
    assert UnexpiredPending(ps[..1], 3) == [ps[0]];
  }

  lemma SweptPlain(s: Engine)
    requires Sound(s) && Linked(Base(s).live) && NamedGone(s) && SweepOrders(s, 3, [], []) && !AllLapsed(s.refs, 1, 3)
    ensures var t := ChangeEngine.Sweep(s, 3, [], [], true).e; Owns(Base(t).live, 1, PLAIN) && t.st == NO_STAGED
  {
    hide Sound, Linked, SweepStaged, SweepOrders, Tally, FreshRefs, AllDistinct, ChangeEngine.Sweep, AllLapsed;
    SweepExact(s, 3, [], [], true);
    UnstagedCur(ChangeEngine.Sweep(s, 3, [], [], true).e);
    OnlyPlainLives(s.log);
  }

  lemma SightingLoses()
    requires Good(E7()) && ExposedNow(E7().e)
    ensures LostIn(E8(), Pending(PARKED, 100, []))
  {
    hide Linked, P.Accounted, Timely, Named, Stored, E7, AllWaiting, Sound, Cur, Base, Steps;
    var s, i := E7().e, Valued([1]);
    assert s.(st := NO_STAGED) == s;
    UnstagedCur(s);
    OneStep(s, Sighting(i, 3));
    UnseenSighting(s, i, 3);
    var u := Steps(s, [Sighting(i, 3)]);
    FlushSound(u, true);
    var t := Flush(u, true);
    UnstagedCur(t);
    assert Owns(Base(t).live, 1, PLAIN);
    assert !Waiting(Base(t).live, t.aliases, Pending(PARKED, 100, []));
  }

  lemma SightingFollows()
    ensures Follows(E7(), EXPOSING[7], E8()) && E7().clock == 3
  {
    hide E6, ChangeEngine.Sweep, Batch;
    OneForward(3, Sighting(Valued([1]), 3));
    BatchFollows(E7(), [Sighting(Valued([1]), 3)]);
  }

  lemma ExposingFollows()
    ensures Follows(A5(), EXPOSING[5], E6()) && E6().clock == 0 && NamedGone(E6().e)
  {
    hide A5, Next1, NamedGone, Follows;
    AliasFollows();
    OneFollows(A5(), DeleteEntity(NAMED));
    LoseNamed();
  }

  /** The run is one: no edge is lost up to the sweep, which leaves one exposed, and the
      sighting after it loses that one. */
  lemma ExposingRun()
    ensures SafeRun(ExposingWorlds(), EXPOSING)
    ensures AllWaiting(Base(E7().e).live, E7().e.aliases, E7().e.pending, E7().clock)
    ensures LostIn(E8(), Pending(PARKED, 100, []))
  {
    hide Good, Legal, Acted, A1, A2, A3, A4, A5, E6, E7, E8, LostIn, NamedGone, AllWaiting;
    var ws := ExposingWorlds();
    AliasFollows();
    ExposingFollows();
    ExposingGood();
    SweptExposed();
    SweepGoneFollows();
    ActGood(E6(), EXPOSING[6]);
    SightingLoses();
    SightingFollows();
    assert Newborn(ws[0], 1, 1, 100);
    assert forall k :: 0 <= k < 8 ==> Follows(ws[k], EXPOSING[k], ws[k + 1]);
  }

  lemma ExposingGood()
    ensures Good(E6())
  {
    hide Good, Legal, Acted, A1, A2, A3, A4, A5, E6, NamedGone;
    var ws, acts := [PATIENT, A1(), A2(), A3(), A4(), A5(), E6()], EXPOSING[..6];
    AliasFollows();
    ExposingFollows();
    assert Newborn(ws[0], 1, 1, 100);
    assert forall k :: 0 <= k < 6 ==> acts[k] == EXPOSING[k];
    assert forall k :: 0 <= k < 6 ==> Follows(ws[k], acts[k], ws[k + 1]);
    RunGood(ws, acts, 6);
  }

  // ------------------------------------------------------------ woken for nothing

  const EARLY: RelationObs := RelationObs([], PLAIN, Valued([1]), map[], None, 0, [], 0, 0)

  /** An edge parked for want of its target, and a batch with the target that does not land. */
  const VANISHING: seq<Act> := [
    One(ObserveEntity(Seen(0))), One(ObserveRelation(EARLY)), DoBatch([Timed(ObserveEntity(NAMED), 0)], false)]

  ghost function V1(): World { Next1(PATIENT, ObserveEntity(Seen(0))) }
  ghost function V2(): World { Next1(V1(), ObserveRelation(EARLY)) }
  ghost function V3(): World { Moved(V2(), Batch(V2().e, [Timed(ObserveEntity(NAMED), 0)], false), 0) }

  ghost predicate OneSeen(s: Engine) {
    && s.st == NO_STAGED && s.log == [MadeAt(0, 0)] && s.g.byHash == map[PLAIN := 0] && s.g.deleted == {}
    && s.aliases == NO_ALIASES && s.bufferTTL == 100
  }

  lemma SeeOne()
    ensures OneSeen(V1().e) && V1().e.pending == []
  {
    hide Batch;
    CreateBatch(PATIENT.e, Seen(0), 0);
  }

  lemma ParkEarly(s: Engine)
    requires OneSeen(s) && s.pending == []
    ensures Batch(s, [Timed(ObserveRelation(EARLY), 0)], true) == SetPending(s, [Pending(EARLY, 100, [])])
  {
    hide Batch;
    assert |SAME_AS| == |"same_as"|;
    OtherIdentities();
    NoSubstitute(Valued([1]));
    hide Substitute, SAME_AS, Valued;
    assert ResolveEnds(s, EARLY) == EndpointMissing;
    ParkAt(s, EARLY, []);
    assert [] + [Pending(EARLY, 100, [])] == [Pending(EARLY, 100, [])];
    SilentBatch(s, EARLY, Park(s, EARLY, 0));
  }

  /** The target arrives: the edge resolves and leaves the buffer. */
  lemma Awoken(s: Engine)
    requires Sound(s) && OneSeen(s) && s.pending == [Pending(EARLY, 100, [])] && Valued([1]) in s.waited
    ensures Batch(s, [Timed(ObserveEntity(NAMED), 0)], false).pending == []
  {
    hide Sound, Cur, FlushPending, Target, Linked, Counted, OneSeen;
    assert s.(st := NO_STAGED) == s by {
      SeenUnstaged(s);
    }
    OneStep(s, Timed(ObserveEntity(NAMED), 0));
    AssertEntitySound(s, NAMED, 0);
    ObserveKeepsOwners(s, NAMED, 0);
    PlainSeen(s);
    var s1 := AssertEntity(s, NAMED, 0);
    var t := FlushPending(s1, 0);
    FlushPendingKeeps(s1, 0);
    assert Owns(Cur(t).live, Target(s, NAMED, 0).0, Valued([1]));
    assert Owns(Cur(t).live, 0, PLAIN);
    assert !Waiting(Cur(t).live, t.aliases, Pending(EARLY, 100, []));
    assert forall q :: q in s1.pending ==> q == Pending(EARLY, 100, []);
    if t.pending != [] {
      HasMember(t.pending);
    }
  }

  lemma HasMember(ps: seq<Pending>)
    requires ps != []
    ensures exists q :: q in ps
  {
    assert ps[0] in ps;
  }

  lemma SeenUnstaged(s: Engine)
    requires OneSeen(s)
    ensures s.st == NO_STAGED
  {
  }

  lemma PlainSeen(s: Engine)
    requires OneSeen(s)
    ensures Owns(Cur(s).live, 0, PLAIN) && Base(s).live == map[Ent(0) := CoreOf(MadeAt(0, 0).entity)]
  {
    UnstagedCur(s);
    Snoc(EMPTY, [], MadeAt(0, 0));
    assert [] + [MadeAt(0, 0)] == [MadeAt(0, 0)];
    assert Replay([MadeAt(0, 0)]).live == map[Ent(0) := CoreOf(MadeAt(0, 0).entity)];
  }

  lemma VanishingSteps()
    ensures Follows(PATIENT, VANISHING[0], V1()) && Follows(V1(), VANISHING[1], V2()) &&
      Follows(V2(), VANISHING[2], V3())
    ensures OneSeen(V2().e) && V2().e.pending == [Pending(EARLY, 100, [])] && Valued([1]) in V2().e.waited
  {
    hide Batch;
    SeeOne();
    ParkEarly(V1().e);
    OneFollows(PATIENT, ObserveEntity(Seen(0)));
    OneFollows(V1(), ObserveRelation(EARLY));
    OneForward(0, Timed(ObserveEntity(NAMED), 0));
    OneWaited(NO_ALIASES, Pending(EARLY, 100, []));
  }

  lemma OneWaited(idx: AliasIndex, p: Pending)
    ensures p.obs.dst in WaitedHashes(idx, [p])
  {
    assert [p][..0] == [];
  }

  /** The run is one; the edge is neither parked nor in the log at the end, unexpired. */
  lemma VanishingRun()
    ensures SafeRun([PATIENT, V1(), V2(), V3()], VANISHING)
    ensures Pending(EARLY, 100, []) in V2().e.pending && V3().clock <= 100
    ensures V3().e.pending == [] && forall r :: Rel(r) !in Base(V3().e).live
  {
    hide Good, Legal, Acted, V1, V2, V3, OneSeen;
    var ws := [PATIENT, V1(), V2(), V3()];
    VanishingSteps();
    assert Newborn(ws[0], 1, 1, 100);
    assert forall k :: 0 <= k < 3 ==> Follows(ws[k], VANISHING[k], ws[k + 1]);
    RunGood(ws, VANISHING, 2);
    Vanished();
  }

  lemma Vanished()
    requires Good(V2()) && OneSeen(V2().e) && V2().e.pending == [Pending(EARLY, 100, [])] &&
      Valued([1]) in V2().e.waited
    ensures V3().e.pending == [] && V3().clock == 0 && forall r :: Rel(r) !in Base(V3().e).live
  {
    hide Linked, P.Accounted, Timely, Named, Stored, V2, Batch, Sound, OneSeen, Steps, Counted;
    var s := V2().e;
    SeenUnstaged(s);
    Awoken(s);
    BatchKeeps(s, [Timed(ObserveEntity(NAMED), 0)], false);
    PlainSeen(s);
    SameLogBase(s, V3().e);
  }

  // ------------------------------------------------------------ a prune overtaken by a delete

  const CHANGED: EntityObs := EntityObs(PLAIN, map[[] := []], [], 10, 0, [])

  function ChangedEvent(): Event {
    EntityEventOf(AttributeUpdated, 0, CHANGED, 10)
  }

  /** Observe, observe changed, delete. */
  const RACING: seq<Act> := [
    DoBatch([Timed(ObserveEntity(Seen(1)), 1)], true), DoBatch([Timed(ObserveEntity(CHANGED), 10)], true),
    DoBatch([Timed(DeleteEntity(Seen(11)), 11)], true)]

  ghost function R1(): World { Moved(PATIENT, Batch(PATIENT.e, [Timed(ObserveEntity(Seen(1)), 1)], true), 1) }
  ghost function R2(): World { Moved(R1(), Batch(R1().e, [Timed(ObserveEntity(CHANGED), 10)], true), 10) }
  ghost function R3(): World { Moved(R2(), Batch(R2().e, [Timed(DeleteEntity(Seen(11)), 11)], true), 11) }

  ghost predicate Raced(s: Engine, log: seq<Event>) {
    && s.st == NO_STAGED && s.pending == [] && s.log == log && s.g.relations == map[] && s.g.deleted == {}
    && s.g.byHash == map[PLAIN := 0] && s.refs == map[0 := map[Key(s, []) := Ref(Never, 0)]]
  }

  lemma NotAStateKey()
    ensures Classify(map[], map[[] := []]) == AttributeUpdated
  {
    assert forall k :: k in STATE_KEYS ==> |k| > 0 by {
      assert |Ascii("oper_state")| > 0 && |Ascii("admin_state")| > 0 && |Ascii("status")| > 0 &&
             |Ascii("replication.role")| > 0 && |Ascii("read_only")| > 0 && |Ascii("hw.state")| > 0 &&
               |Ascii("ha.role")| > 0;
    }
    assert ChangedOnly() == {[]};
  }

  function ChangedOnly(): set<Str> {
    CanonicalValue.ChangedKeys(map[], map[[] := []])
  }

  /** A batch that observes a known entity with other attributes. */
  lemma UpdateBatch(s: Engine, obs: EntityObs, now: Time, id: EntityId)
    requires s.st == NO_STAGED && s.pending == [] && P.MatchIdentity(s.g, obs.ident) == Some(id)
    requires id in s.g.entities && Classify(s.g.entities[id].attrs, obs.attrs) == AttributeUpdated
    ensures var t := Batch(s, [Timed(ObserveEntity(obs), now)], true);
            var ev := EntityEventOf(AttributeUpdated, id, obs, now);
            var held := Held(s.refs, id)[Key(s, obs.producer) := RefFor(obs.interval, now)];
            t == s.(log := s.log + [ev], g := P.PutEntity(s.g, ev.entity), notified := s.notified + [ev],
                    refs := s.refs[id := held])
  {
    hide P.PutEntity, P.DeleteEntity, Flush, RefFor, Classify;
    OneOp(s, ObserveEntity(obs), now);
    var ev := EntityEventOf(AttributeUpdated, id, obs, now);
    assert Target(s, obs, now) == (id, AttributeUpdated, s.nextId);
    FlushOne(Step(s, ObserveEntity(obs), now), ev);
  }

  lemma RaceFirst()
    ensures Raced(R1().e, [MadeAt(0, 1)]) && 0 in R1().e.g.entities && R1().e.g.entities[0].attrs == map[]
  {
    hide Batch;
    CreateBatch(PATIENT.e, Seen(1), 1);
  }

  lemma RaceSecond()
    ensures Raced(R2().e, [MadeAt(0, 1), ChangedEvent()])
  {
    hide Batch, R1;
    RaceFirst();
    NotAStateKey();
    var s := R1().e;
    UpdateBatch(s, CHANGED, 10, 0);
    assert RefFor(0, 10) == Ref(Never, 0);
    assert Held(s.refs, 0)[Key(s, []) := Ref(Never, 0)] == map[Key(s, []) := Ref(Never, 0)];
    assert s.refs[0 := Held(s.refs, 0)[Key(s, []) := RefFor(0, 10)]] == s.refs;
    assert s.g.byHash[PLAIN := 0] == s.g.byHash;
    assert [MadeAt(0, 1)] + [ChangedEvent()] == [MadeAt(0, 1), ChangedEvent()];
  }

  lemma RaceThird()
    ensures R3().e.log == [MadeAt(0, 1), ChangedEvent(), GoneAt(0, 11)]
  {
    hide Batch, R2, P.DeleteEntity;
    RaceSecond();
    assert Held(R2().e.refs, 0) - {Key(R2().e, [])} == map[];
    DeleteBatch(R2().e, Seen(11), 11, 0);
    assert [MadeAt(0, 1), ChangedEvent()] + [GoneAt(0, 11)] == [MadeAt(0, 1), ChangedEvent(), GoneAt(0, 11)];
  }

  lemma RaceSteps()
    ensures Follows(PATIENT, RACING[0], R1()) && Follows(R1(), RACING[1], R2()) && Follows(R2(), RACING[2], R3())
  {
    hide Batch;
    OneForward(0, Timed(ObserveEntity(Seen(1)), 1));
    OneForward(1, Timed(ObserveEntity(CHANGED), 10));
    OneForward(10, Timed(DeleteEntity(Seen(11)), 11));
    BatchFollows(PATIENT, [Timed(ObserveEntity(Seen(1)), 1)]);
    BatchFollows(R1(), [Timed(ObserveEntity(CHANGED), 10)]);
    BatchFollows(R2(), [Timed(DeleteEntity(Seen(11)), 11)]);
  }

  /** The run is one. A prune that scanned the log before the delete and writes its deletes and
      baselines after it -- those it mints at cutoff 5 -- brings the deleted entity back. */
  lemma RacingRun()
    ensures SafeRun([PATIENT, R1(), R2(), R3()], RACING)
    ensures var c, u, d := MadeAt(0, 1), ChangedEvent(), GoneAt(0, 11);
            && R2().e.log == [c, u] && R3().e.log == [c, u, d] && Ent(0) !in Base(R3().e).live
            && R.Prunes([c, u], 5, [false, true]) && RP.BaselinesExactly([c, u], 5, [R.Baseline(u, 5)])
            && Ent(0) in ReplayFrom(ReplayFrom(Replay(Select([c, u], [false, true])), [d]), [R.Baseline(u, 5)]).live
  {
    hide Good, Legal, Acted, R1, R2, R3, Raced, R.Prunes, RP.BaselinesExactly, Select, ReplayFrom;
    var ws := [PATIENT, R1(), R2(), R3()];
    RaceSteps();
    assert Newborn(ws[0], 1, 1, 100);
    assert forall k :: 0 <= k < 3 ==> Follows(ws[k], RACING[k], ws[k + 1]);
    RaceLogs();
    var c, u, d := MadeAt(0, 1), ChangedEvent(), GoneAt(0, 11);
    RP.RaceResurrects(c, u, d, 5);
    assert [c, u, d] == [c, u] + [d];
    ReplayConcat(EMPTY, [c, u], [d]);
  }

  lemma RaceLogs()
    ensures R2().e.log == [MadeAt(0, 1), ChangedEvent()] && R3().e.log == [MadeAt(0, 1), ChangedEvent(), GoneAt(0, 11)]
  {
    hide R2, R3;
    RaceSecond();
    RaceThird();
  }
}
