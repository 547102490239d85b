/** Whole runs: batches, sweeps, compactions, snapshots and restarts in any order, appends
    failing or not. The projection answers as a fresh replay of the log exactly as long as
    no restart trusts a snapshot the log's tail does not put right; then every projected edge
    joins two live entities and the tombstone cache stays accounted for. */
module EngineRuns {
  import opened Model
  import opened EventLog
  import opened Aliases
  import opened ChangeEngine
  import opened Overlay
  import opened EngineSteps
  import opened EngineSweep
  import opened EngineAppends
  import P = Projection
  import R = Retention
  import L = LivenessRestore
  import SN = Snapshot
  import SR = SnapshotRestore
  import SC = SnapshotCompaction

  // ------------------------------------------------------------ worlds

  /** A stored snapshot: its events, how much of the log its recorded sequence covers, and
      the liveness saved with it. */
  datatype Saved = Saved(snap: seq<Event>, cut: nat, refs: map<EntityId, Refs>, relRefs: map<RelationId, Refs>)

  /** An engine between batches, the time it has reached, the identity of every entity id
      ever used, and the stored snapshot. */
  datatype World = World(e: Engine, clock: Time, names: map<EntityId, Identity>, saved: Option<Saved>)

  /** A snapshot samples the projection when the first upTo events of the log were applied,
      and records the sequence of the first cut: the two are read one after the other, and
      an append is durable before it is applied. */
  datatype Act =
    | DoBatch(ops: seq<Timed>, lands: bool)
    | DoSweep(now: Time, ids: seq<EntityId>, rids: seq<RelationId>, lands: bool)
    | DoCoalesce(keep: seq<bool>)
    | DoPrune(cutoff: Time, keep: seq<bool>, bs: seq<Event>)
    | DoSnapshot(upTo: nat, cut: nat, snap: seq<Event>)
    | DoRestart(limit: int, ttl: int, now: Time, readable: bool)

  /** What the environment may do: run a forward clock, visit a sweep's orphans in any
      order, compact the log when no append is under way, and take a snapshot or restart at
      any time. Whether an append lands or a snapshot can be read is not constrained. */
  ghost predicate Legal(w: World, a: Act) {
    match a
    case DoBatch(ops, _) => Forward(w.clock, ops)
    case DoSweep(now, ids, rids, _) => w.clock <= now && SweepOrders(w.e, now, ids, rids)
    case DoCoalesce(keep) => R.Coalesces(w.e.log, keep)
    case DoPrune(cutoff, keep, bs) =>
      cutoff <= w.clock && R.Prunes(w.e.log, cutoff, keep) && R.Baselines(w.e.log, cutoff, bs)
    case DoSnapshot(upTo, cut, snap) =>
      upTo <= |w.e.log| && cut <= |w.e.log| && SN.Samples(Replay(w.e.log[..upTo]).live, snap)
    case DoRestart(_, _, now, _) => w.clock <= now
  }

  ghost function Acted(w: World, a: Act): World
    requires Legal(w, a)
  {
    match a
    case DoBatch(ops, lands) => Moved(w, Batch(w.e, ops, lands), Clock(w.clock, ops))
    case DoSweep(now, ids, rids, lands) => Moved(w, ChangeEngine.Sweep(w.e, now, ids, rids, lands).e, now)
    case DoCoalesce(keep) => Shortened(w, keep, [])
    case DoPrune(cutoff, keep, bs) => Shortened(w, keep, bs)
    case DoSnapshot(_, cut, snap) => w.(saved := Some(Saved(snap, cut, w.e.refs, w.e.relRefs)))
    case DoRestart(limit, ttl, now, readable) => Moved(w, Restarted(w.e, w.saved, limit, ttl, now, readable), now)
  }

  ghost function Moved(w: World, e: Engine, clock: Time): World {
    w.(e := e, clock := clock, names := w.names + Base(e).ident)
  }

  /** A compaction moves the recorded sequence's place in the log along. */
  ghost function Shortened(w: World, keep: seq<bool>, bs: seq<Event>): World
    requires |keep| == |w.e.log|
  {
    w.(e := w.e.(log := SC.Compacted(w.e.log, keep, bs)),
       saved := match w.saved
         case Some(v) => Some(v.(cut := CutAfter(w.e.log, keep, v.cut)))
         case None => None)
  }

  function CutAfter(log: seq<Event>, keep: seq<bool>, cut: nat): nat
    requires |keep| == |log|
  {
    if cut <= |log| then |Select(log[..cut], keep[..cut])| else cut
  }

  /** The events after a recorded sequence. */
  function After(log: seq<Event>, cut: nat): seq<Event> {
    if cut <= |log| then log[cut..] else []
  }

  /** The projection rebuilt from the snapshot and the log's tail, with the saved liveness
      raised to the present; without a readable snapshot, from the whole log and with no
      liveness. Parked edges and aliases do not survive. */
  function Restarted(s: Engine, saved: Option<Saved>, limit: int, ttl: int, now: Time, readable: bool): Engine {
    var t := s.(pending := [], waited := {}, aliases := NO_ALIASES, st := NO_STAGED);
    match saved
    case Some(v) =>
      if readable then
        t.(g := SR.RestoredGraph(v.snap, After(s.log, v.cut), limit, ttl),
           refs := L.Restored(v.refs, now, true), relRefs := L.Restored(v.relRefs, now, false))
      else Refolded(t, limit, ttl)
    case None => Refolded(t, limit, ttl)
  }

  function Refolded(s: Engine, limit: int, ttl: int): Engine {
    s.(g := P.ApplyAll(P.NewGraph(limit, ttl), s.log), refs := map[], relRefs := map[])
  }

  // ------------------------------------------------------------ what worlds keep

  /** Every id in sight has the identity it always had. */
  ghost predicate Named(s: Engine, names: map<EntityId, Identity>) {
    KnowsLess(Base(s).ident, names) && NamesOf(s.g, names, s.nextId)
  }

  /** The stored snapshot denotes things of identities ever used. */
  ghost predicate SavedOk(v: Saved, log: seq<Event>, names: map<EntityId, Identity>) {
    && v.cut <= |log| && AllowedLog(v.snap)
    && SN.Samples(Replay(v.snap).live, v.snap) && KnowsLess(Replay(v.snap).ident, names)
  }

  ghost predicate Stored(w: World) {
    w.saved.Some? ==> SavedOk(w.saved.value, w.e.log, w.names)
  }

  /** What every world of every run satisfies. */
  ghost predicate Good(w: World) {
    && Sound(w.e) && w.e.st == NO_STAGED
    && Linked(Base(w.e).live)
    && P.Accounted(w.e.g)
    && Timely(w.e.log, w.clock)
    && Named(w.e, w.names) && Stored(w)
  }

  /** The log's tail puts right everything the stored snapshot has otherwise than the log. */
  ghost predicate Recoverable(w: World) {
    w.saved.Some? ==>
      && w.saved.value.cut <= |w.e.log|
      && SR.Recovers(Replay(w.saved.value.snap).live, Replay(w.e.log[..w.saved.value.cut]),
        w.e.log[w.saved.value.cut..])
  }

  /** If the act is a restart that reads the snapshot, the tail puts it right. */
  ghost predicate Safe(w: World, a: Act) {
    a.DoRestart? && a.readable ==> Recoverable(w)
  }

  // ------------------------------------------------------------ names

  lemma NamesJoin(names: map<EntityId, Identity>, more: map<EntityId, Identity>)
    requires Agree(names, more)
    ensures KnowsLess(names, names + more) && KnowsLess(more, names + more)
  {
  }

  lemma KnowsLessThrough(a: map<EntityId, Identity>, b: map<EntityId, Identity>, c: map<EntityId, Identity>)
    requires KnowsLess(a, b) && KnowsLess(b, c)
    ensures KnowsLess(a, c)
  {
  }

  lemma LessAgrees(a: map<EntityId, Identity>, b: map<EntityId, Identity>)
    requires KnowsLess(a, b)
    ensures Agree(b, a) && b + a == b
  {
  }

  /** Identities stay what they were when events the engine emitted are flushed. */
  lemma FlushNamed(s: Engine, u: Engine, lands: bool, names: map<EntityId, Identity>)
    requires Sound(s) && Named(s, names) && Sound(u) && u.log == s.log && u.g == s.g && s.nextId <= u.nextId
    requires CreatesOnly(u.st.events, Mintable(s))
    ensures var t := Flush(u, lands);
            KnowsLess(names, names + Base(t).ident) && Named(t, names + Base(t).ident)
  {
    hide Sound, Mintable, CreatesOnly, Emitted, Coherent, P.KeepsName;
    SoundEmits(s);
    SoundEmits(u);
    var t := Flush(u, lands);
    LessAgrees(Base(s).ident, names);
    if lands && u.st.events != [] {
      NamesAgree(Base(s), u.st.events, s, names);
      ReplayConcat(EMPTY, s.log, u.st.events);
      FlushedNames(u, names);
    }
    FlushSound(u, lands);
    SoundMinted(t);
    NamesJoin(names, Base(t).ident);
  }

  lemma SoundMinted(s: Engine)
    requires Sound(s) && s.st == NO_STAGED
    ensures forall id :: id in Base(s).ident ==> id < s.nextId
    ensures forall id :: id in s.g.entities ==> id < s.nextId
  {
  }

  lemma FlushedNames(u: Engine, names: map<EntityId, Identity>)
    requires Sound(u) && SR.NamedBy(u.g, names) && Agree(names, Cur(u).ident)
    ensures SR.NamedBy(P.ApplyAll(u.g, u.st.events), names + Cur(u).ident)
  {
    FlushTracks(u.g, Base(u), u.st.events);
  }

  lemma FewerNamed(s: Engine, t: Engine, names: map<EntityId, Identity>)
    requires Named(s, names) && t.log == s.log && t.nextId == s.nextId && t.g.entities.Items <= s.g.entities.Items
    ensures Named(t, names)
  {
    forall id | id in t.g.entities
      ensures id in s.g.entities && t.g.entities[id] == s.g.entities[id]
    {
      assert (id, t.g.entities[id]) in t.g.entities.Items;
    }
  }

  // ------------------------------------------------------------ each act

  lemma {:induction false} ApplyAllAccounts(g: P.Graph, evs: seq<Event>)
    requires P.Accounted(g)
    ensures P.Accounted(P.ApplyAll(g, evs))
  {
    if evs != [] {
      ApplyAllAccounts(g, evs[..|evs| - 1]);
      P.ApplyAccounts(P.ApplyAll(g, evs[..|evs| - 1]), evs[|evs| - 1]);
    }
  }

  lemma FlushAccounts(s: Engine, lands: bool)
    requires P.Accounted(s.g)
    ensures P.Accounted(Flush(s, lands).g)
  {
    ApplyAllAccounts(s.g, s.st.events);
  }

  lemma UnstagedCur(s: Engine)
    requires s.st == NO_STAGED
    ensures Cur(s) == Base(s)
  {
  }

  /** A batch from a sound engine: what it appends is what an engine may emit, and if the
      append fails the log, the projection and the notifications are as before. */
  lemma BatchKeeps(s: Engine, ops: seq<Timed>, lands: bool)
    requires Sound(s) && s.st == NO_STAGED
    ensures var t := Batch(s, ops, lands);
            var evs := Steps(s, ops).st.events;
            && Sound(t) && t.st == NO_STAGED
            && (Linked(Base(s).live) ==> Linked(Base(t).live))
            && (lands && Counted(s) ==> Counted(t))
            && EmittedFrom(Base(s), evs)
            && (lands ==> t.log == s.log + evs && t.notified == s.notified + evs && t.g == P.ApplyAll(s.g, evs))
            && (!lands ==> t.log == s.log && t.g == s.g && t.notified == s.notified)
  {
    hide Sound, Linked, Counted, Steps;
    assert s.(st := NO_STAGED) == s;
    StepsKeep(s, ops);
    var u := Steps(s, ops);
    FlushSound(u, lands);
    UnstagedCur(s);
    UnstagedCur(Flush(u, lands));
    SoundEmits(u);
    assert s.log + [] == s.log && s.notified + [] == s.notified;
    if lands && Counted(s) {
      FlushCounted(u);
    }
  }

  lemma FlushCounted(s: Engine)
    requires Counted(s) && Cur(Flush(s, true)) == Cur(s)
    ensures Counted(Flush(s, true))
  {
    hide Cur;
  }

  lemma FlushGood(w: World, u: Engine, lands: bool, now: Time)
    requires Good(w) && Sound(u) && u.log == w.e.log && u.g == w.e.g && w.e.nextId <= u.nextId
    requires CreatesOnly(u.st.events, Mintable(w.e)) && Linked(Base(Flush(u, lands)).live)
    requires w.clock <= now && Timely(w.e.log + u.st.events, now)
    ensures Good(Moved(w, Flush(u, lands), now))
  {
    hide Sound, Linked, Timely, P.Accounted, Named, Mintable, CreatesOnly, SavedOk;
    FlushSound(u, lands);
    FlushNamed(w.e, u, lands, w.names);
    FlushAccounts(u, lands);
    TimelyLater(w.e.log, w.clock, now);
    SavedLater(w, Moved(w, Flush(u, lands), now));
  }

  /** A stored snapshot stays good while the log and the names grow. */
  lemma SavedLater(w: World, n: World)
    requires Stored(w) && n.saved == w.saved && |w.e.log| <= |n.e.log| && KnowsLess(w.names, n.names)
    ensures Stored(n)
  {
    hide SN.Samples, AllowedLog, Replay;
  }

  lemma BatchGood(w: World, ops: seq<Timed>, lands: bool)
    requires Good(w) && Forward(w.clock, ops)
    ensures Good(Moved(w, Batch(w.e, ops, lands), Clock(w.clock, ops)))
  {
    hide Sound, Linked, Timely, P.Accounted, Counted, Named, Stored, Mintable, CreatesOnly;
    var s := w.e;
    assert s.(st := NO_STAGED) == s;
    BatchKeeps(s, ops, lands);
    StepsTimely(s, ops, w.clock);
    StepsKeep(s, ops);
    FlushGood(w, Steps(s, ops), lands, Clock(w.clock, ops));
  }

  lemma SweepGood(w: World, now: Time, ids: seq<EntityId>, rids: seq<RelationId>, lands: bool)
    requires Good(w) && w.clock <= now && SweepOrders(w.e, now, ids, rids)
    ensures Good(Moved(w, ChangeEngine.Sweep(w.e, now, ids, rids, lands).e, now))
  {
    hide Sound, Linked, Timely, P.Accounted, Named, SavedOk, Mintable, CreatesOnly,
         SweepStaged, SweepOrders, Tally, FreshRefs, SweptLive, AllDistinct, AllowedFrom, EmittedFrom;
    var s := w.e;
    SweepExact(s, now, ids, rids, lands);
    var u := SweepStaged(s, now, ids, rids).e;
    var t := ChangeEngine.Sweep(s, now, ids, rids, lands).e;
    UnstagedCur(t);
    StagedStatics(s, now, ids, rids);
    SweepAppends(s, now, ids, rids, Mintable(s));
    SoundEmits(u);
    assert s.log + [] == s.log;
    AppendedTimely(s.log, [], u.st.events, w.clock, now, Mintable(s));
    CreatesMore([], u.st.events, now, Mintable(s));
    var m := Moved(w, Flush(u, lands), now);
    FlushGood(w, u, lands, now);
    P.PruneAccounts(m.e.g, now);
    SoundIndexed(m.e);
    P.PruneKeepsIndexes(m.e.g, now);
    FewerNamed(m.e, t, m.names);
  }

  lemma StagedStatics(s: Engine, now: Time, ids: seq<EntityId>, rids: seq<RelationId>)
    requires Sound(s) && SweepOrders(s, now, ids, rids)
    ensures var u := SweepStaged(s, now, ids, rids).e;
            Sound(u) && u.log == s.log && u.g == s.g && u.nextId == s.nextId
  {
    hide Sound, SweepStaged, SweepOrders;
    SweepStagedSound(s, now, ids, rids);
  }

  lemma SoundIndexed(s: Engine)
    requires Sound(s)
    ensures P.Indexed(s.g)
  {
  }

  /** An engine over a compacted log with the same live things is as sound as before. */
  lemma CompactSound(s: Engine, log: seq<Event>)
    requires Sound(s) && s.st == NO_STAGED
    requires AllowedLog(log) && Replay(log).live == Base(s).live && KnowsLess(Replay(log).ident, Base(s).ident)
    ensures Sound(s.(log := log))
  {
    var t := s.(log := log);
    CoherentReplay(EMPTY, log);
    EmptyOverlay(Base(t));
    assert P.SameNames(t.g.entities, Cur(t).ident);
  }

  lemma CoalescesLength(log: seq<Event>, keep: seq<bool>)
    requires R.Coalesces(log, keep)
    ensures |keep| == |log|
  {
  }

  lemma SoundAllowed(s: Engine)
    requires Sound(s)
    ensures AllowedLog(s.log)
  {
  }

  /** A compaction that keeps the log's meaning keeps a world good. */
  lemma CompactGood(w: World, keep: seq<bool>, bs: seq<Event>)
    requires Good(w) && |keep| == |w.e.log| && SC.KeepsMeaning(w.e.log, keep, bs)
    requires KnowsLess(Replay(SC.Compacted(w.e.log, keep, bs)).ident, Base(w.e).ident)
    requires Timely(SC.Compacted(w.e.log, keep, bs), w.clock)
    ensures Good(Shortened(w, keep, bs))
  {
    hide Sound, Linked, P.Accounted, Timely, SC.Compacted, SN.Samples, Select, R.LastAlive, SC.Copies;
    var n := Shortened(w, keep, bs);
    CompactSound(w.e, n.e.log);
    KnowsLessThrough(Base(n.e).ident, Base(w.e).ident, w.names);
    if w.saved.Some? {
      CutWithin(w.e.log, keep, bs, w.saved.value.cut);
    }
  }

  lemma CutWithin(log: seq<Event>, keep: seq<bool>, bs: seq<Event>, cut: nat)
    requires |keep| == |log| && cut <= |log|
    ensures var n, base := SC.Compacted(log, keep, bs), Select(log[..cut], keep[..cut]);
            var c := CutAfter(log, keep, cut);
            c <= |n| && n[..c] == base && n[c..] == SC.NewTail(log, keep, bs, cut)
  {
    hide Select;
    SC.SelectCut(log, keep, cut);
    var n := SC.Compacted(log, keep, bs);
    assert n == Select(log[..cut], keep[..cut]) + SC.NewTail(log, keep, bs, cut);
  }

  lemma CoalesceGood(w: World, keep: seq<bool>)
    requires Good(w) && R.Coalesces(w.e.log, keep)
    ensures |keep| == |w.e.log| && Good(Shortened(w, keep, []))
  {
    hide Sound, Linked, P.Accounted, R.Coalesces, SC.KeepsMeaning, Named, Stored, Select, R.Settled;
    CoalescesLength(w.e.log, keep);
    SoundAllowed(w.e);
    SC.CoalesceKeepsMeaning(w.e.log, keep);
    R.CoalescePreserves(w.e.log, keep);
    R.CoalesceHarmless(w.e.log, keep);
    R.SelectSettled(w.e.log, keep);
    R.SelectMembers(w.e.log, keep);
    SC.CoalesceSecured(w.e.log, keep);
    assert SC.Compacted(w.e.log, keep, []) == Select(w.e.log, keep);
    MembersTimely(w.e.log, Select(w.e.log, keep), w.clock);
    CompactGood(w, keep, []);
  }

  lemma MembersTimely(log: seq<Event>, sub: seq<Event>, clock: Time)
    requires Timely(log, clock) && R.Settled(sub) && SC.Secured(sub)
    requires forall ev :: ev in sub ==> ev in log || ev.recordedAt <= clock
    ensures Timely(sub, clock)
  {
    hide SC.Secured, R.Settled;
    assert forall k :: 0 <= k < |sub| ==> sub[k] in sub;
  }

  lemma PruneGood(w: World, cutoff: Time, keep: seq<bool>, bs: seq<Event>)
    requires Good(w) && cutoff <= w.clock && R.Prunes(w.e.log, cutoff, keep) && R.Baselines(w.e.log, cutoff, bs)
    ensures Good(Shortened(w, keep, bs))
  {
    hide Sound, Linked, P.Accounted, SC.KeepsMeaning, Named, Stored, Select, R.Settled, SC.Secured, R.Protected;
    var log := SC.Compacted(w.e.log, keep, bs);
    SoundAllowed(w.e);
    R.PrunePreserves(w.e.log, cutoff, keep, bs);
    SC.PruneKeepsMeaning(w.e.log, cutoff, keep, bs);
    SC.PruneSecured(w.e.log, cutoff, keep, bs);
    R.SelectMembers(w.e.log, keep);
    forall ev | ev in log
      ensures ev in w.e.log || ev.recordedAt <= w.clock
    {
      if ev in bs {
        BaselineAt(w.e.log, cutoff, bs, ev);
      }
    }
    MembersTimely(w.e.log, log, w.clock);
    CompactGood(w, keep, bs);
  }

  lemma BaselineAt(log: seq<Event>, cutoff: Time, bs: seq<Event>, b: Event)
    requires R.Baselines(log, cutoff, bs) && b in bs
    ensures b.recordedAt == cutoff
  {
    var k :| 0 <= k < |bs| && bs[k] == b;
    assert R.BaselineOf(log, cutoff, bs[k]);
  }

  /** A snapshot of any prefix the log has had is one a restart can read. */
  lemma SnapshotGood(w: World, upTo: nat, cut: nat, snap: seq<Event>)
    requires upTo <= |w.e.log| && cut <= |w.e.log| && SN.Samples(Replay(w.e.log[..upTo]).live, snap)
    requires Good(w)
    ensures Good(w.(saved := Some(Saved(snap, cut, w.e.refs, w.e.relRefs))))
    ensures Replay(snap).live == Replay(w.e.log[..upTo]).live
  {
    hide Sound, Linked, P.Accounted, Timely, SN.Samples, AllowedFrom;
    SoundAllowed(w.e);
    var log := w.e.log;
    assert log == log[..upTo] + log[upTo..];
    SR.TailOf(log[..upTo], log[upTo..]);
    SR.NamesGrow(Replay(log[..upTo]), log[upTo..]);
    SN.SnapshotDenotes(Replay(log[..upTo]), snap);
    KnowsLessThrough(Replay(snap).ident, Replay(log[..upTo]).ident, Base(w.e).ident);
    KnowsLessThrough(Replay(snap).ident, Base(w.e).ident, w.names);
  }

  // ------------------------------------------------------------ restarts

  /** The stored snapshot and the log meet the conditions of the restore theorem. */
  lemma StoredRestorable(w: World)
    requires Good(w) && w.saved.Some?
    ensures var v := w.saved.value;
            && v.cut <= |w.e.log| && w.e.log == w.e.log[..v.cut] + w.e.log[v.cut..]
            && SR.Restorable(Replay(v.snap), v.snap, w.e.log[..v.cut], w.e.log[v.cut..], w.names)
  {
    hide Sound, Linked, P.Accounted, SN.Samples, AllowedFrom, SR.Anchored, SC.Secured, R.Settled, Coherent;
    var v, log := w.saved.value, w.e.log;
    SoundAllowed(w.e);
    CoherentEmpty();
    CoherentReplay(EMPTY, v.snap);
    SC.SecuredAnchors(log, v.cut);
    SR.NamesGrow(EMPTY, log);
    ConformsTo(log, Base(w.e).ident, w.names);
    SR.ConformsSlice(log, w.names, v.cut, |log|);
    assert log[v.cut..|log|] == log[v.cut..];
    assert log == log[..v.cut] + log[v.cut..];
  }

  lemma CoherentEmpty()
    ensures Coherent(EMPTY)
  {
  }

  lemma ConformsTo(evs: seq<Event>, a: map<EntityId, Identity>, b: map<EntityId, Identity>)
    requires SR.Conforms(evs, a) && KnowsLess(a, b)
    ensures SR.Conforms(evs, b)
  {
  }

  /** A graph that shows the log under identities ever used makes a sound engine. */
  lemma RebuiltSound(s: Engine, t: Engine, names: map<EntityId, Identity>)
    requires Sound(s) && Named(s, names) && t.log == s.log && t.nextId == s.nextId && t.st == NO_STAGED
    requires P.Indexed(t.g) && P.Shows(t.g, Base(s).live) && SR.NamedBy(t.g, names)
    ensures Sound(t) && Named(t, names)
  {
    UnstagedSound(s);
    EmptyOverlay(Base(t));
    assert P.SameNames(t.g.entities, Base(t).ident);
    assert Minted(t);
  }

  lemma RestoredAccounts(snap: seq<Event>, tail: seq<Event>, limit: int, ttl: int)
    ensures P.Accounted(SR.RestoredGraph(snap, tail, limit, ttl))
  {
    P.ApplyAllConcat(P.NewGraph(limit, ttl), snap, tail);
    P.TombstonesAccounted(limit, ttl, snap + tail);
  }

  /** A restarted projection: what it shows, how it is named, and when its indexes are exact. */
  lemma RestartedGraph(w: World, limit: int, ttl: int, now: Time, readable: bool)
    requires Good(w)
    ensures var t := Restarted(w.e, w.saved, limit, ttl, now, readable);
            && P.Accounted(t.g) && SR.NamedBy(t.g, w.names)
            && (!readable || Recoverable(w) ==> P.Indexed(t.g) && P.Shows(t.g, Base(w.e).live))
  {
    hide Sound, Linked, Timely, SN.Samples, AllowedFrom, SR.Anchored, SR.Recovers, P.Indexed, P.Shows, P.ApplyAll,
         Coherent;
    SoundAllowed(w.e);
    if readable && w.saved.Some? {
      var v, log := w.saved.value, w.e.log;
      StoredRestorable(w);
      RestoredAccounts(v.snap, log[v.cut..], limit, ttl);
      SR.RestoredShows(Replay(v.snap), v.snap, log[..v.cut], log[v.cut..], w.names, limit, ttl);
      SR.TailOf(log[..v.cut], log[v.cut..]);
      SR.RecoversIff(Replay(v.snap).live, Replay(log[..v.cut]), log[v.cut..]);
    } else {
      SR.FullReplay(w.e.log, limit, ttl);
      P.TombstonesAccounted(limit, ttl, w.e.log);
      ProjectsNamed(P.ApplyAll(P.NewGraph(limit, ttl), w.e.log), Base(w.e), w.names);
    }
  }

  lemma ProjectsNamed(g: P.Graph, h: History, names: map<EntityId, Identity>)
    requires P.Projects(g, h) && KnowsLess(h.ident, names)
    ensures SR.NamedBy(g, names)
  {
  }

  lemma RestartGood(w: World, limit: int, ttl: int, now: Time, readable: bool)
    requires Good(w) && w.clock <= now && (readable ==> Recoverable(w))
    ensures Good(Moved(w, Restarted(w.e, w.saved, limit, ttl, now, readable), now))
  {
    hide Sound, Linked, Timely, P.Accounted, Recoverable, P.Indexed, P.Shows, SavedOk;
    var t := Restarted(w.e, w.saved, limit, ttl, now, readable);
    RestartedGraph(w, limit, ttl, now, readable);
    RebuiltSound(w.e, t, w.names);
    TimelyLater(w.e.log, w.clock, now);
    LessAgrees(Base(t).ident, w.names);
  }

  lemma ActGood(w: World, a: Act)
    requires Good(w) && Legal(w, a) && Safe(w, a)
    ensures Good(Acted(w, a))
  {
    hide Good, Recoverable;
    match a
    case DoBatch(ops, lands) => BatchGood(w, ops, lands);
    case DoSweep(now, ids, rids, lands) => SweepGood(w, now, ids, rids, lands);
    case DoCoalesce(keep) => CoalesceGood(w, keep);
    case DoPrune(cutoff, keep, bs) => PruneGood(w, cutoff, keep, bs);
    case DoSnapshot(upTo, cut, snap) => SnapshotGood(w, upTo, cut, snap);
    case DoRestart(limit, ttl, now, readable) => RestartGood(w, limit, ttl, now, readable);
  }

  /** Compaction, snapshot and restart change no live thing of the log, and the first two
      nothing else either. */
  lemma QuietAct(w: World, a: Act)
    requires Good(w) && Legal(w, a) && !a.DoBatch? && !a.DoSweep?
    ensures var n := Acted(w, a).e;
            Base(n).live == Base(w.e).live && n.st == NO_STAGED && (!a.DoRestart? ==> n == w.e.(log := n.log))
  {
    hide Linked, P.Accounted, Named, Stored, SC.Compacted, Sound, R.Settled, SC.Secured;
    SoundAllowed(w.e);
    match a
    case DoCoalesce(keep) => SC.CoalesceKeepsMeaning(w.e.log, keep);
    case DoPrune(cutoff, keep, bs) => SC.PruneKeepsMeaning(w.e.log, cutoff, keep, bs);
    case DoSnapshot(_, _, _) =>
    case DoRestart(_, _, _, _) =>
  }

  // ------------------------------------------------------------ every run

  /** ws is a run: it starts with a new engine, and each world follows from the one before
      by a legal act. */
  ghost predicate Run(ws: seq<World>, acts: seq<Act>) {
    && |ws| == |acts| + 1
    && (exists limit, ttl, bufferTTL :: Newborn(ws[0], limit, ttl, bufferTTL))
    && forall k :: 0 <= k < |acts| ==> Legal(ws[k], acts[k]) && ws[k + 1] == Acted(ws[k], acts[k])
  }

  predicate Newborn(w: World, limit: int, ttl: int, bufferTTL: int) {
    w == World(NewEngine(limit, ttl, bufferTTL), w.clock, map[], None)
  }

  /** No restart among the first n acts reads a snapshot the tail does not put right. */
  ghost predicate SafeUpTo(ws: seq<World>, acts: seq<Act>, n: nat)
    requires |ws| == |acts| + 1
  {
    forall j :: 0 <= j < n && j < |acts| ==> Safe(ws[j], acts[j])
  }

  ghost predicate SafeRun(ws: seq<World>, acts: seq<Act>) {
    Run(ws, acts) && SafeUpTo(ws, acts, |acts|)
  }

  lemma NewbornGood(w: World, limit: int, ttl: int, bufferTTL: int)
    requires Newborn(w, limit, ttl, bufferTTL)
    ensures Good(w)
  {
    P.NewGraphProjects(limit, ttl);
    EmptyOverlay(EMPTY);
    assert Sound(w.e);
  }

  lemma {:induction false} GoodUpTo(ws: seq<World>, acts: seq<Act>, k: nat)
    requires Run(ws, acts) && SafeUpTo(ws, acts, k) && k < |ws|
    ensures Good(ws[k])
  {
    hide Good, Legal, Acted, Safe;
    if k == 0 {
      var limit, ttl, bufferTTL :| Newborn(ws[0], limit, ttl, bufferTTL);
      NewbornGood(ws[0], limit, ttl, bufferTTL);
    } else {
      GoodUpTo(ws, acts, k - 1);
      ActGood(ws[k - 1], acts[k - 1]);
    }
  }

  /** Every world of a run without a misled restart is good. */
  lemma RunGood(ws: seq<World>, acts: seq<Act>, k: nat)
    requires SafeRun(ws, acts) && k < |ws|
    ensures Good(ws[k])
  {
    hide Good, Legal, Acted, Safe;
    GoodUpTo(ws, acts, k);
  }

  // ------------------------------------------------------------ the projection is the fold

  /** The projection answers every live read as a fresh replay of the log does. */
  ghost predicate AnswersAsLog(w: World, limit: int, ttl: int) {
    P.SameAnswers(w.e.g, P.ApplyAll(P.NewGraph(limit, ttl), w.e.log))
  }

  lemma GoodAnswers(w: World, limit: int, ttl: int)
    requires Good(w)
    ensures AnswersAsLog(w, limit, ttl)
  {
    hide Linked, P.Accounted, Timely, Named, Stored, P.SameAnswers;
    SR.FullReplay(w.e.log, limit, ttl);
    P.SameViewSameAnswers(w.e.g, P.ApplyAll(P.NewGraph(limit, ttl), w.e.log), Base(w.e).live);
  }

  /** A restart of a good world answers as the log exactly when it is safe. */
  lemma RestartExact(w: World, a: Act, limit: int, ttl: int)
    requires Good(w) && Legal(w, a) && a.DoRestart?
    ensures AnswersAsLog(Acted(w, a), limit, ttl) <==> Safe(w, a)
  {
    hide Good, Recoverable, P.SameAnswers, P.ApplyAll, SR.Recovers;
    if Safe(w, a) {
      ActGood(w, a);
      GoodAnswers(Acted(w, a), limit, ttl);
    } else {
      MisledRestart(w, a, limit, ttl);
    }
  }

  lemma MisledRestart(w: World, a: Act, limit: int, ttl: int)
    requires Good(w) && Legal(w, a) && !Safe(w, a)
    ensures !AnswersAsLog(Acted(w, a), limit, ttl)
  {
    hide Sound, Linked, P.Accounted, Timely, P.SameAnswers, P.ApplyAll, SR.Recovers, SN.Samples, AllowedFrom,
         SR.Anchored, P.Indexed, P.Shows, SR.Conforms, Coherent, Named, SavedOk, SR.RestoredGraph;
    StoredRestorable(w);
    var v, log := w.saved.value, w.e.log;
    SR.RestoredShows(Replay(v.snap), v.snap, log[..v.cut], log[v.cut..], w.names, a.limit, a.ttl);
    SR.TailOf(log[..v.cut], log[v.cut..]);
    SR.RecoversIff(Replay(v.snap).live, Replay(log[..v.cut]), log[v.cut..]);
    SR.FullReplay(log, limit, ttl);
    var r, k := Acted(w, a).e.g, P.ApplyAll(P.NewGraph(limit, ttl), log);
    var view, live := SR.FoldLive(Replay(v.snap).live, log[v.cut..]), Replay(log).live;
    if P.SameAnswers(r, k) {
      SR.SameAnswersSameView(r, k, view, live);
    }
  }

  /** At every point of a run, until the first restart misled by its snapshot, the
      projection answers every live read as a fresh replay of the log would, whatever was
      staged, lost, compacted, sampled or restarted before. */
  lemma ProjectionIsFold(ws: seq<World>, acts: seq<Act>, k: nat, limit: int, ttl: int)
    requires Run(ws, acts) && SafeUpTo(ws, acts, k) && k < |ws|
    ensures AnswersAsLog(ws[k], limit, ttl)
  {
    hide Good, Legal, Acted, Safe;
    GoodUpTo(ws, acts, k);
    GoodAnswers(ws[k], limit, ttl);
  }

  /** A run's projection answers as its log throughout exactly when every restart that read
      a snapshot found a tail that puts it right. */
  lemma RunExact(ws: seq<World>, acts: seq<Act>, limit: int, ttl: int)
    requires Run(ws, acts)
    ensures (forall k :: 0 <= k < |ws| ==> AnswersAsLog(ws[k], limit, ttl)) <==> SafeRun(ws, acts)
  {
    hide Good, Legal, Acted, Safe, AnswersAsLog;
    if SafeRun(ws, acts) {
      forall k | 0 <= k < |ws|
        ensures AnswersAsLog(ws[k], limit, ttl)
      {
        ProjectionIsFold(ws, acts, k, limit, ttl);
      }
    }
    if forall k :: 0 <= k < |ws| ==> AnswersAsLog(ws[k], limit, ttl) {
      AnsweringIsSafe(ws, acts, |acts|, limit, ttl);
    }
  }

  lemma {:induction false} AnsweringIsSafe(ws: seq<World>, acts: seq<Act>, n: nat, limit: int, ttl: int)
    requires Run(ws, acts) && n <= |acts| && forall k :: 0 <= k < |ws| ==> AnswersAsLog(ws[k], limit, ttl)
    ensures SafeUpTo(ws, acts, n)
  {
    hide Good, Legal, Acted, AnswersAsLog, Recoverable;
    if n > 0 {
      AnsweringIsSafe(ws, acts, n - 1, limit, ttl);
      GoodUpTo(ws, acts, n - 1);
      if acts[n - 1].DoRestart? {
        RestartExact(ws[n - 1], acts[n - 1], limit, ttl);
        assert AnswersAsLog(ws[n], limit, ttl);
      }
      assert Safe(ws[n - 1], acts[n - 1]);
    }
  }

  /** At every point of a safe run each projected relation joins two live entities, and is
      found from both of them. */
  lemma NoDanglingEdges(ws: seq<World>, acts: seq<Act>, k: nat, r: RelationId)
    requires SafeRun(ws, acts) && k < |ws| && r in ws[k].e.g.relations
    ensures r.src in P.Live(ws[k].e.g) && r.dst in P.Live(ws[k].e.g)
    ensures r in P.Member(ws[k].e.g.outs, r.src) && r in P.Member(ws[k].e.g.ins, r.dst)
  {
    hide Legal, Acted, Safe;
    RunGood(ws, acts, k);
    LinkedInGraph(ws[k].e, r);
  }

  lemma LinkedInGraph(s: Engine, r: RelationId)
    requires Sound(s) && Linked(Base(s).live) && r in s.g.relations
    ensures r.src in P.Live(s.g) && r.dst in P.Live(s.g)
    ensures r in P.Member(s.g.outs, r.src) && r in P.Member(s.g.ins, r.dst)
  {
    assert Rel(r) in Base(s).live;
    assert Ent(r.src) in Base(s).live && Ent(r.dst) in Base(s).live;
  }

  /** At every point of a safe run an identity has at most one live entity, and matching it
      finds that one. */
  lemma OneEntityPerIdentity(ws: seq<World>, acts: seq<Act>, k: nat, id: EntityId)
    requires SafeRun(ws, acts) && k < |ws| && id in P.Live(ws[k].e.g)
    ensures MatchIdentity(ws[k].e, P.Live(ws[k].e.g)[id].ident) == Some(id)
  {
    hide Legal, Acted, Safe;
    RunGood(ws, acts, k);
    MatchEqualsApplied(ws[k].e, P.Live(ws[k].e.g)[id].ident);
    MatchInGraph(ws[k].e.g, Base(ws[k].e), P.Live(ws[k].e.g)[id].ident);
    assert Owns(Base(ws[k].e).live, id, P.Live(ws[k].e.g)[id].ident);
  }
}
