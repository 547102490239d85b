/** Which runs restart safely: a snapshot stays trustworthy through everything but a prune
    that removes the tail's last word on something the snapshot holds, or a sequence recorded
    ahead of the sample. A run that goes wrong, with two live entities of one identity. */
module SnapshotRuns {
  import opened Model
  import opened EventLog
  import opened ChangeEngine
  import opened Overlay
  import opened EngineSteps
  import opened EngineSweep
  import opened EngineAppends
  import opened EngineRuns
  import P = Projection
  import R = Retention
  import SN = Snapshot
  import SR = SnapshotRestore
  import SC = SnapshotCompaction

  // ------------------------------------------------------------ what keeps a snapshot good

  /** A tail that puts a sample right still does with more events behind it. */
  lemma RecoversAppend(sample: View, h: History, tail: seq<Event>, evs: seq<Event>)
    requires Coherent(h) && AllowedFrom(h, tail + evs) && SR.Recovers(sample, h, tail)
    ensures SR.Recovers(sample, h, tail + evs)
  {
    hide SR.Recovers, AllowedFrom;
    AllowedConcat(h, tail, evs);
    SR.RecoversIff(sample, h, tail);
    SR.FoldConcat(sample, tail, evs);
    SR.FoldConcat(h.live, tail, evs);
    SR.RecoversIff(sample, h, tail + evs);
  }

  lemma AppendRecoverable(w: World, n: World, evs: seq<Event>)
    requires Recoverable(w) && n.saved == w.saved && n.e.log == w.e.log + evs && AllowedLog(n.e.log)
    ensures Recoverable(n)
  {
    if w.saved.Some? {
      hide SR.Recovers, AllowedFrom;
      var v, log := w.saved.value, w.e.log;
      assert n.e.log[..v.cut] == log[..v.cut] && n.e.log[v.cut..] == log[v.cut..] + evs;
      assert n.e.log == log[..v.cut] + (log[v.cut..] + evs);
      SR.TailOf(log[..v.cut], log[v.cut..] + evs);
      RecoversAppend(Replay(v.snap).live, Replay(log[..v.cut]), log[v.cut..], evs);
    }
  }

  lemma LogGrows(w: World, a: Act)
    requires Good(w) && Legal(w, a) && (a.DoBatch? || a.DoSweep?)
    ensures var n := Acted(w, a);
            |w.e.log| <= |n.e.log| && n.e.log == w.e.log + n.e.log[|w.e.log|..] && n.saved == w.saved
  {
    hide Sound, Linked, Timely, P.Accounted, Named, Stored, SweepStaged, SweepOrders, Steps, Forward, Tally, FreshRefs,
         SweptLive, AllDistinct, EmittedFrom, Counted;
    match a
    case DoBatch(ops, lands) =>
      BatchKeeps(w.e, ops, lands);
    case DoSweep(now, ids, rids, lands) =>
      SweepExact(w.e, now, ids, rids, lands);
  }

  /** Between the recorded sequence and the sample the log did not run ahead. */
  lemma SnapshotRecoverable(w: World, upTo: nat, cut: nat, snap: seq<Event>)
    requires upTo <= |w.e.log| && cut <= upTo && SN.Samples(Replay(w.e.log[..upTo]).live, snap)
    requires Good(w)
    ensures Recoverable(w.(saved := Some(Saved(snap, cut, w.e.refs, w.e.relRefs))))
  {
    hide Good, SR.Recovers, SN.Samples;
    SnapshotGood(w, upTo, cut, snap);
    GoodAllowed(w);
    var log := w.e.log;
    var base, overlap, rest := log[..cut], log[cut..upTo], log[upTo..];
    assert log == base + (overlap + rest) && base + overlap == log[..upTo] && overlap + rest == log[cut..];
    SR.OverlapRecovers(base, overlap, rest);
  }

  lemma GoodAllowed(w: World)
    requires Good(w)
    ensures AllowedLog(w.e.log) && R.Settled(w.e.log)
  {
  }

  /** The prune leaves, of everything the stored snapshot has otherwise than the log, a
      deciding event after the recorded sequence. */
  ghost predicate SparesSaved(w: World, cutoff: Time) {
    w.saved.Some? ==> SC.SparesDeciders(Replay(w.saved.value.snap).live, w.e.log, cutoff, w.saved.value.cut)
  }

  lemma ShortenedRecovers(w: World, keep: seq<bool>, bs: seq<Event>)
    requires |keep| == |w.e.log| && w.saved.Some? && w.saved.value.cut <= |w.e.log|
    ensures var v := w.saved.value;
            Recoverable(Shortened(w, keep, bs)) <==>
            SR.Recovers(Replay(v.snap).live, Replay(Select(w.e.log[..v.cut], keep[..v.cut])),
                        SC.NewTail(w.e.log, keep, bs, v.cut))
  {
    hide SR.Recovers, SC.NewTail, SC.Compacted, Select;
    CutWithin(w.e.log, keep, bs, w.saved.value.cut);
  }

  lemma CoalesceRecoverable(w: World, keep: seq<bool>)
    requires Good(w) && Recoverable(w) && R.Coalesces(w.e.log, keep)
    ensures |keep| == |w.e.log| && Recoverable(Shortened(w, keep, []))
  {
    hide Good, SR.Recovers, R.MiddleOfRun, SC.NewTail, Select;
    GoodAllowed(w);
    CoalescesLength(w.e.log, keep);
    if w.saved.Some? {
      var v := w.saved.value;
      SC.CoalesceRecovers(Replay(v.snap).live, w.e.log, keep, v.cut);
      ShortenedRecovers(w, keep, []);
    }
  }

  /** After a prune a restart from the stored snapshot is right exactly when the cutoff
      spared what puts the snapshot right. */
  lemma PruneExact(w: World, cutoff: Time, keep: seq<bool>, bs: seq<Event>)
    requires Good(w) && Recoverable(w) && Legal(w, DoPrune(cutoff, keep, bs))
    ensures Recoverable(Acted(w, DoPrune(cutoff, keep, bs))) <==> SparesSaved(w, cutoff)
  {
    hide Good, SR.Recovers, R.Protected, SC.NewTail, Select, SC.SparesDeciders, R.BaselineOf;
    GoodAllowed(w);
    if w.saved.Some? {
      var v := w.saved.value;
      SC.PruneRecovers(Replay(v.snap).live, w.e.log, cutoff, keep, bs, v.cut);
      ShortenedRecovers(w, keep, bs);
    }
  }

  // ------------------------------------------------------------ careful runs

  /** A prune whose cutoff spares what the stored snapshot needs, a snapshot whose sequence
      is not ahead of its sample, or any other act. */
  ghost predicate Careful(w: World, a: Act) {
    match a
    case DoPrune(cutoff, _, _) => SparesSaved(w, cutoff)
    case DoSnapshot(upTo, cut, _) => cut <= upTo
    case _ => true
  }

  lemma ActRecoverable(w: World, a: Act)
    requires Good(w) && Recoverable(w) && Legal(w, a) && Careful(w, a)
    ensures Recoverable(Acted(w, a))
  {
    hide Good, SR.Recovers, SparesSaved, R.Prunes, R.Coalesces, SweepOrders;
    match a
    case DoBatch(_, _) => GrownRecoverable(w, a);
    case DoSweep(_, _, _, _) => GrownRecoverable(w, a);
    case DoCoalesce(keep) => CoalesceRecoverable(w, keep);
    case DoPrune(cutoff, keep, bs) => PruneExact(w, cutoff, keep, bs);
    case DoSnapshot(upTo, cut, snap) => SnapshotRecoverable(w, upTo, cut, snap);
    case DoRestart(_, _, _, _) =>
  }

  lemma GrownRecoverable(w: World, a: Act)
    requires Good(w) && Recoverable(w) && Legal(w, a) && (a.DoBatch? || a.DoSweep?)
    ensures Recoverable(Acted(w, a))
  {
    hide Good, Recoverable, Acted, Legal;
    LogGrows(w, a);
    ActGood(w, a) by {
      assert Safe(w, a);
    }
    GoodAllowed(Acted(w, a));
    AppendRecoverable(w, Acted(w, a), Acted(w, a).e.log[|w.e.log|..]);
  }

  /** A run of careful acts never restarts from a snapshot the tail does not put right. */
  lemma {:induction false} CarefulIsSafe(ws: seq<World>, acts: seq<Act>, k: nat)
    requires Run(ws, acts) && k < |ws| && forall j :: 0 <= j < k ==> Careful(ws[j], acts[j])
    ensures SafeUpTo(ws, acts, k) && Recoverable(ws[k])
  {
    hide Good, Legal, Acted, Careful;
    if k == 0 {
      var limit, ttl, bufferTTL :| Newborn(ws[0], limit, ttl, bufferTTL);
    } else {
      CarefulIsSafe(ws, acts, k - 1);
      GoodUpTo(ws, acts, k - 1);
      ActRecoverable(ws[k - 1], acts[k - 1]);
    }
  }

  // ------------------------------------------------------------ what goes wrong otherwise

  /** A thing the snapshot holds and the tail never names comes back as the snapshot had it,
      whatever the log says. */
  lemma UnnamedComesBack(w: World, limit: int, ttl: int, now: Time, x: EntityId)
    requires Good(w) && w.saved.Some? && Ent(x) in Replay(w.saved.value.snap).live
    requires w.saved.value.cut <= |w.e.log| && !SR.Named(w.e.log[w.saved.value.cut..], Ent(x))
    ensures var g := Restarted(w.e, w.saved, limit, ttl, now, true).g;
            x in P.Live(g) && CoreOf(P.Live(g)[x]) == Replay(w.saved.value.snap).live[Ent(x)]
  {
    hide Sound, Linked, Timely, P.Accounted, Stored, SN.Samples, SR.Anchored, SR.Conforms, SR.Named, AllowedFrom,
         Coherent,
         SR.RestoredGraph, Replay;
    StoredRestorable(w);
    var v, log := w.saved.value, w.e.log;
    var sample, tail := Replay(v.snap).live, log[v.cut..];
    SR.RestoredShows(Replay(v.snap), v.snap, log[..v.cut], tail, w.names, limit, ttl);
    NotNamedNotDecided(tail, Ent(x));
    SR.UndecidedStays(sample, tail, Ent(x));
    ShowsEntity(Restarted(w.e, w.saved, limit, ttl, now, true).g, SR.FoldLive(sample, tail), x);
  }

  lemma NotNamedNotDecided(evs: seq<Event>, t: Thing)
    requires !SR.Named(evs, t)
    ensures !SR.Decided(evs, t)
  {
    if SR.Decided(evs, t) {
      SC.DecidedIsNamed(evs, t);
    }
  }

  /** If that thing is an entity whose identity another has taken since, both are live. */
  lemma TwoOwners(w: World, limit: int, ttl: int, now: Time, x: EntityId, y: EntityId, i: Identity)
    requires Good(w) && w.saved.Some? && Owns(Replay(w.saved.value.snap).live, x, i) && Owns(Base(w.e).live, y, i) &&
      x != y
    requires w.saved.value.cut <= |w.e.log| && !SR.Named(w.e.log[w.saved.value.cut..], Ent(x))
    requires SR.Named(w.e.log[w.saved.value.cut..], Ent(y))
    ensures var g := Restarted(w.e, w.saved, limit, ttl, now, true).g;
            && x in P.Live(g) && P.Live(g)[x].ident == i
            && y in P.Live(g) && P.Live(g)[y].ident == i
  {
    UnnamedComesBack(w, limit, ttl, now, x);
    hide Sound, Linked, Timely, P.Accounted, SN.Samples, SR.Anchored, SR.Conforms, SR.Named, AllowedFrom,
         SR.RestoredGraph, Replay;
    StoredRestorable(w);
    var v, log := w.saved.value, w.e.log;
    var sample, tail := Replay(v.snap).live, log[v.cut..];
    assert !Owns(sample, y, i);
    NewcomerUnsampled(w, x, y, i);
    SR.TailOf(log[..v.cut], tail);
    SR.RecoversAt(sample, Replay(log[..v.cut]), tail, Ent(y));
    SR.RestoredShows(Replay(v.snap), v.snap, log[..v.cut], tail, w.names, limit, ttl);
    ShowsEntity(Restarted(w.e, w.saved, limit, ttl, now, true).g, SR.FoldLive(sample, tail), y);
  }

  lemma NewcomerUnsampled(w: World, x: EntityId, y: EntityId, i: Identity)
    requires Good(w) && w.saved.Some? && Owns(Replay(w.saved.value.snap).live, x, i) && Owns(Base(w.e).live, y, i) &&
      x != y
    ensures Ent(y) !in Replay(w.saved.value.snap).live
  {
    hide Linked, Timely, P.Accounted, SN.Samples, AllowedFrom, Overlaid, P.Indexed, P.Shows, ReplayFrom;
    var h := Replay(w.saved.value.snap);
    CoherentEmpty();
    CoherentReplay(EMPTY, w.saved.value.snap);
    assert Base(w.e).ident[y] == i;
    assert Ent(y) in h.live ==> Owns(h.live, y, i);
  }
}
