/** Log compaction: collapsing heartbeat runs, and pruning by storage age with horizon
    baselines. Both must leave the meaning of a replay unchanged. */
module Retention {
  import opened Model
  import opened EventLog
  import opened Projection

  // ------------------------------------------------------------ coalescing heartbeats

  predicate Heartbeat(ev: Event) {
    ev.EntityEvent? && ev.change == Unchanged
  }

  predicate About(ev: Event, id: EntityId) {
    ev.EntityEvent? && ev.entity.id == id
  }

  /** a and b are consecutive among the events of their common entity. */
  ghost predicate Adjacent(log: seq<Event>, a: nat, b: nat, id: EntityId) {
    && a < b < |log| && About(log[a], id) && About(log[b], id)
    && forall k :: a < k < b ==> !About(log[k], id)
  }

  /** A heartbeat whose neighbours among its entity's events are heartbeats too. */
  ghost predicate MiddleOfRun(log: seq<Event>, i: nat)
    requires i < |log|
  {
    && Heartbeat(log[i])
    && (exists a: nat :: Adjacent(log, a, i, log[i].entity.id) && Heartbeat(log[a]))
    && (exists b: nat :: Adjacent(log, i, b, log[i].entity.id) && Heartbeat(log[b]))
  }

  ghost predicate Coalesces(log: seq<Event>, keep: seq<bool>) {
    |keep| == |log| && forall i :: 0 <= i < |log| ==> (keep[i] <==> !MiddleOfRun(log, i))
  }

  /** The first event of a thing is never the middle of a run, so every thing keeps one. */
  lemma {:induction false} CoalesceKeepsEachThing(log: seq<Event>, keep: seq<bool>, i: nat)
    requires Coalesces(log, keep) && i < |log|
    ensures ThingOf(log[i]) in KeptThings(log, keep)
  {
    if !keep[i] {
      var a: nat :| Adjacent(log, a, i, log[i].entity.id) && Heartbeat(log[a]);
      CoalesceKeepsEachThing(log, keep, a);
    }
  }

  lemma {:induction false} NamedIsKnown(log: seq<Event>, i: nat)
    requires i < |log| && log[i].EntityEvent?
    ensures log[i].entity.id in Replay(log).ident
  {
    var n := |log| - 1;
    if i < n {
      NamedIsKnown(log[..n], i);
    }
  }

  lemma CoalesceHarmless(log: seq<Event>, keep: seq<bool>)
    requires Coalesces(log, keep) && AllowedLog(log)
    ensures Harmless(log, keep)
  {
    forall i | 0 <= i < |log| && !keep[i]
      ensures HarmlessAt(log, keep, i)
    {
      var a: nat :| Adjacent(log, a, i, log[i].entity.id) && Heartbeat(log[a]);
      NamedIsKnown(log[..i], a);
      AllowedAt(log, i);
      assert Noop(Replay(log[..i]), log[i]);
    }
  }

  /** Collapsing heartbeat runs leaves the log replayable and its live things unchanged. */
  lemma CoalescePreserves(log: seq<Event>, keep: seq<bool>)
    requires AllowedLog(log) && Coalesces(log, keep)
    ensures AllowedLog(Select(log, keep))
    ensures Replay(Select(log, keep)).live == Replay(log).live
    ensures KnowsLess(Replay(Select(log, keep)).ident, Replay(log).ident)
  {
    CoalesceHarmless(log, keep);
    SublogReplays(log, keep);
    var small, big := Replay(Select(log, keep)), Replay(log);
    forall t | t in big.live
      ensures t in small.live
    {
      LiveWasNamed(log, t);
      var i :| 0 <= i < |log| && ThingOf(log[i]) == t;
      CoalesceKeepsEachThing(log, keep, i);
    }
  }

  // ------------------------------------------------------------ pruning by storage age

  /** No later event concerns the same thing. */
  ghost predicate IsLast(log: seq<Event>, i: nat)
    requires i < |log|
  {
    forall j :: i < j < |log| ==> ThingOf(log[j]) != ThingOf(log[i])
  }

  /** The latest event of a thing that is still live. */
  ghost predicate LastAlive(log: seq<Event>, i: nat)
    requires i < |log|
  {
    IsLast(log, i) && !EffectOf(log[i]).Drop?
  }

  /** An event pruning keeps. */
  ghost predicate Protected(log: seq<Event>, cutoff: Time, i: nat)
    requires i < |log|
  {
    LastAlive(log, i) || log[i].recordedAt >= cutoff
  }

  ghost predicate Prunes(log: seq<Event>, cutoff: Time, keep: seq<bool>) {
    |keep| == |log| && forall i :: 0 <= i < |log| ==> (keep[i] <==> Protected(log, cutoff, i))
  }

  /** An event recorded before an earlier event of the same thing changes nothing. Events
      appended under a clock that does not run backwards satisfy it, and so do the
      back-dated baselines of earlier prunes. */
  ghost predicate SettledEvent(before: seq<Event>, ev: Event) {
    || Noop(Replay(before), ev)
    || forall i :: 0 <= i < |before| && ThingOf(before[i]) == ThingOf(ev) ==> before[i].recordedAt <= ev.recordedAt
  }

  ghost predicate Settled(log: seq<Event>) {
    log != [] ==> Settled(log[..|log| - 1]) && SettledEvent(log[..|log| - 1], log[|log| - 1])
  }

  lemma {:induction false} SettledAt(log: seq<Event>, i: nat)
    requires Settled(log) && i < |log|
    ensures SettledEvent(log[..i], log[i])
  {
    var n := |log| - 1;
    if i < n {
      SettledAt(log[..n], i);
      assert log[..n][..i] == log[..i];
    }
  }

  lemma PruneHarmless(log: seq<Event>, cutoff: Time, keep: seq<bool>)
    requires Prunes(log, cutoff, keep) && Settled(log)
    ensures Harmless(log, keep)
  {
    forall i | 0 <= i < |log| && !keep[i]
      ensures HarmlessAt(log, keep, i)
    {
      SettledAt(log, i);
      if !Noop(Replay(log[..i]), log[i]) {
        forall j | 0 <= j < i && keep[j]
          ensures ThingOf(log[j]) != ThingOf(log[i])
        {
          assert log[..i][j] == log[j];
        }
      }
    }
  }

  /** A live thing keeps its latest event whatever its age. */
  lemma PruneKeepsLive(log: seq<Event>, cutoff: Time, keep: seq<bool>, t: Thing)
    requires Prunes(log, cutoff, keep) && t in Replay(log).live
    ensures t in KeptThings(log, keep)
  {
    LiveWasNamed(log, t);
    var i := LastIndex(log, t);
    LastEventDecides(log, i);
    assert keep[i];
  }

  lemma {:induction false} LastIndex(log: seq<Event>, t: Thing) returns (i: nat)
    requires exists k :: 0 <= k < |log| && ThingOf(log[k]) == t
    ensures i < |log| && ThingOf(log[i]) == t && IsLast(log, i)
  {
    var n := |log| - 1;
    if ThingOf(log[n]) == t {
      i := n;
    } else {
      var k :| 0 <= k < |log| && ThingOf(log[k]) == t;
      assert log[..n][k] == log[k];
      i := LastIndex(log[..n], t);
      assert forall j :: i < j < n ==> log[..n][j] == log[j];
    }
  }

  lemma PruneSelects(log: seq<Event>, cutoff: Time, keep: seq<bool>)
    requires AllowedLog(log) && Settled(log) && Prunes(log, cutoff, keep)
    ensures AllowedLog(Select(log, keep))
    ensures Replay(Select(log, keep)).live == Replay(log).live
    ensures KnowsLess(Replay(Select(log, keep)).ident, Replay(log).ident)
  {
    PruneHarmless(log, cutoff, keep);
    SublogReplays(log, keep);
    var small, big := Replay(Select(log, keep)), Replay(log);
    forall t | t in big.live
      ensures t in small.live
    {
      PruneKeepsLive(log, cutoff, keep, t);
    }
  }

  // ------------------------------------------------------------ horizon baselines

  /** The latest event of a live thing, pinned at the retention horizon. */
  function Baseline(ev: Event, cutoff: Time): Event {
    ev.(eventTime := cutoff, recordedAt := cutoff)
  }

  ghost predicate BornBefore(log: seq<Event>, t: Thing, cutoff: Time) {
    exists i :: 0 <= i < |log| && ThingOf(log[i]) == t && log[i].eventTime <= cutoff
  }

  /** A live thing that existed at the horizon but whose only protected event is newer. */
  ghost predicate NeedsBaseline(log: seq<Event>, cutoff: Time, i: nat)
    requires i < |log|
  {
    LastAlive(log, i) && BornBefore(log, ThingOf(log[i]), cutoff) && log[i].eventTime > cutoff
  }

  ghost predicate BaselineOf(log: seq<Event>, cutoff: Time, b: Event) {
    exists i :: 0 <= i < |log| && LastAlive(log, i) && b == Baseline(log[i], cutoff)
  }

  ghost predicate Baselines(log: seq<Event>, cutoff: Time, bs: seq<Event>) {
    forall k :: 0 <= k < |bs| ==> BaselineOf(log, cutoff, bs[k])
  }

  /** What a baseline asserts is still true: its thing is live, and if it overwrites, it
      overwrites with the state already there. */
  ghost predicate Restates(live: View, b: Event) {
    && ThingOf(b) in live
    && (EffectOf(b).Put? ==> live[ThingOf(b)] == EffectOf(b).core)
  }

  /** The latest event of a live thing carries its whole state. */
  lemma LastAliveState(log: seq<Event>, i: nat)
    requires AllowedLog(log) && i < |log| && LastAlive(log, i)
    ensures ThingOf(log[i]) in Replay(log).live
    ensures EffectOf(log[i]).core == Replay(log).live[ThingOf(log[i])]
  {
    LastEventState(log, |log|, i);
    assert log[..|log|] == log;
  }

  lemma {:induction false} LastEventState(log: seq<Event>, n: nat, i: nat)
    requires AllowedLog(log) && i < n <= |log| && !EffectOf(log[i]).Drop?
    requires forall j :: i < j < n ==> ThingOf(log[j]) != ThingOf(log[i])
    ensures ThingOf(log[i]) in Replay(log[..n]).live
    ensures EffectOf(log[i]).core == Replay(log[..n]).live[ThingOf(log[i])]
  {
    assert log[..n][..n - 1] == log[..n - 1];
    if i < n - 1 {
      LastEventState(log, n - 1, i);
    } else {
      AllowedAt(log, i);
      AllowedPrefix(log, i);
      CoherentReplay(EMPTY, log[..i]);
    }
  }

  lemma BaselineRestates(log: seq<Event>, cutoff: Time, b: Event)
    requires AllowedLog(log) && BaselineOf(log, cutoff, b)
    ensures !EffectOf(b).Drop? && Restates(Replay(log).live, b)
    ensures EffectOf(b).core == Replay(log).live[ThingOf(b)]
  {
    var i :| 0 <= i < |log| && LastAlive(log, i) && b == Baseline(log[i], cutoff);
    LastAliveState(log, i);
  }

  /** Restating an entity or a relation is a no-op any log tolerates. */
  lemma RestateIsNoop(h: History, b: Event)
    requires Coherent(h) && !EffectOf(b).Drop? && ThingOf(b) in h.live
    requires h.live[ThingOf(b)] == EffectOf(b).core
    ensures Allowed(h, b) && Next(h, b) == h
  {
    if b.EntityEvent? {
      assert Owns(h.live, b.entity.id, b.entity.ident);
    }
  }

  lemma {:induction false} BaselinesAreNoops(h: History, bs: seq<Event>)
    requires Coherent(h)
    requires forall k :: 0 <= k < |bs| ==>
      !EffectOf(bs[k]).Drop? && ThingOf(bs[k]) in h.live && h.live[ThingOf(bs[k])] == EffectOf(bs[k]).core
    ensures AllowedFrom(h, bs) && ReplayFrom(h, bs) == h
  {
    if bs != [] {
      BaselinesAreNoops(h, bs[..|bs| - 1]);
      RestateIsNoop(h, bs[|bs| - 1]);
    }
  }

  // ------------------------------------------------------------ the prune pass as a whole

  /** Pruning, with its baselines in any order, leaves a log that any engine can go on
      appending to and any later prune can prune again: it is replayable, settled, and has
      the same live things. */
  lemma PrunePreserves(log: seq<Event>, cutoff: Time, keep: seq<bool>, bs: seq<Event>)
    requires AllowedLog(log) && Settled(log)
    requires Prunes(log, cutoff, keep) && Baselines(log, cutoff, bs)
    ensures AllowedLog(Select(log, keep) + bs)
    ensures Replay(Select(log, keep) + bs).live == Replay(log).live
    ensures KnowsLess(Replay(Select(log, keep) + bs).ident, Replay(log).ident)
    ensures Settled(Select(log, keep) + bs)
  {
    PruneSelects(log, cutoff, keep);
    var small := Select(log, keep);
    CoherentReplay(EMPTY, small);
    forall k | 0 <= k < |bs|
      ensures !EffectOf(bs[k]).Drop? && ThingOf(bs[k]) in Replay(log).live
      ensures Replay(log).live[ThingOf(bs[k])] == EffectOf(bs[k]).core
    {
      BaselineRestates(log, cutoff, bs[k]);
    }
    BaselinesAreNoops(Replay(small), bs);
    AllowedConcat(EMPTY, small, bs);
    ReplayConcat(EMPTY, small, bs);
    PruneHarmless(log, cutoff, keep);
    SelectSettled(log, keep);
    NoopsSettled(small, bs);
  }

  lemma {:induction false} SelectMembers(log: seq<Event>, keep: seq<bool>)
    requires |keep| == |log|
    ensures forall ev :: ev in Select(log, keep) ==> ev in log && ThingOf(ev) in KeptThings(log, keep)
  {
    if log != [] {
      var n := |log| - 1;
      SelectMembers(log[..n], keep[..n]);
      assert log == log[..n] + [log[n]];
    }
  }

  lemma {:induction false} SelectSettled(log: seq<Event>, keep: seq<bool>)
    requires |keep| == |log| && AllowedLog(log) && Settled(log) && Harmless(log, keep)
    ensures Settled(Select(log, keep))
  {
    if log != [] {
      var n := |log| - 1;
      HarmlessPrefix(log, keep, n);
      SelectSettled(log[..n], keep[..n]);
      if keep[n] {
        var small := Select(log[..n], keep[..n]);
        assert Select(log, keep)[..|small|] == small;
        SublogReplays(log[..n], keep[..n]);
        SelectMembers(log[..n], keep[..n]);
        SettledInSublog(log[..n], small, KeptThings(log[..n], keep[..n]), log[n]);
      } else {
        assert Select(log, keep) == Select(log[..n], keep[..n]);
      }
    }
  }

  lemma SettledInSublog(log: seq<Event>, small: seq<Event>, ts: set<Thing>, ev: Event)
    requires Restricts(Replay(small), Replay(log), ts)
    requires forall x :: x in small ==> x in log && ThingOf(x) in ts
    requires SettledEvent(log, ev)
    ensures SettledEvent(small, ev)
  {
    if Noop(Replay(log), ev) && ThingOf(ev) in ts {
      NoopInSublog(Replay(small), Replay(log), ts, ev);
    } else if !Noop(Replay(log), ev) {
      forall i | 0 <= i < |small| && ThingOf(small[i]) == ThingOf(ev)
        ensures small[i].recordedAt <= ev.recordedAt
      {
        assert small[i] in log;
      }
    } else {
      assert forall i :: 0 <= i < |small| ==> small[i] in small;
    }
  }

  lemma NoopInSublog(small: History, big: History, ts: set<Thing>, ev: Event)
    requires Restricts(small, big, ts) && ThingOf(ev) in ts && Noop(big, ev)
    ensures Noop(small, ev)
  {
    var t := ThingOf(ev);
    assert NextLive(big.live, ev) == big.live;
    match EffectOf(ev)
    case Put(c) =>
      assert t in NextLive(big.live, ev) && big.live[t] == c;
      assert NextLive(small.live, ev) == small.live;
    case Touch(c) =>
      assert t in NextLive(big.live, ev);
    case Drop =>
      assert t !in NextLive(big.live, ev);
      assert NextLive(small.live, ev) == small.live;
  }

  lemma {:induction false} NoopsSettled(log: seq<Event>, bs: seq<Event>)
    requires AllowedLog(log) && Settled(log)
    requires forall k :: 0 <= k < |bs| ==>
      !EffectOf(bs[k]).Drop? && ThingOf(bs[k]) in Replay(log).live
      && Replay(log).live[ThingOf(bs[k])] == EffectOf(bs[k]).core
    ensures Settled(log + bs)
  {
    if bs == [] {
      assert log + bs == log;
    } else {
      var n := |bs| - 1;
      NoopsSettled(log, bs[..n]);
      assert (log + bs)[..|log| + n] == log + bs[..n];
      CoherentReplay(EMPTY, log);
      BaselinesAreNoops(Replay(log), bs[..n]);
      ReplayConcat(EMPTY, log, bs[..n]);
      RestateIsNoop(Replay(log), bs[n]);
    }
  }

  /** An event recorded no earlier than everything before it keeps a log settled. */
  lemma LaterAppendSettled(log: seq<Event>, ev: Event)
    requires Settled(log)
    requires forall i :: 0 <= i < |log| ==> log[i].recordedAt <= ev.recordedAt
    ensures Settled(log + [ev])
  {
    assert (log + [ev])[..|log|] == log;
  }

  // ------------------------------------------------------------ appends during the pass

  lemma {:induction false} SameLiveReplays(h: History, k: History, evs: seq<Event>)
    requires h.live == k.live && KnowsLess(k.ident, h.ident) && AllowedFrom(h, evs)
    ensures AllowedFrom(k, evs) && ReplayFrom(k, evs).live == ReplayFrom(h, evs).live
    ensures KnowsLess(ReplayFrom(k, evs).ident, ReplayFrom(h, evs).ident)
  {
    if evs != [] {
      var n := |evs| - 1;
      SameLiveReplays(h, k, evs[..n]);
      SameLiveStep(ReplayFrom(h, evs[..n]), ReplayFrom(k, evs[..n]), evs[n]);
    }
  }

  lemma SameLiveStep(h: History, k: History, ev: Event)
    requires h.live == k.live && KnowsLess(k.ident, h.ident) && Allowed(h, ev)
    ensures Allowed(k, ev) && Next(k, ev).live == Next(h, ev).live
    ensures KnowsLess(Next(k, ev).ident, Next(h, ev).ident)
  {
  }

  lemma {:induction false} OverwritesWin(live: View, log: seq<Event>, cutoff: Time, bs: seq<Event>, h: History)
    requires h.live == live && Baselines(log, cutoff, bs)
    ensures forall k :: 0 <= k < |bs| && EffectOf(bs[k]).Put? ==>
              ThingOf(bs[k]) in ReplayFrom(h, bs).live
              && ReplayFrom(h, bs).live[ThingOf(bs[k])] == EffectOf(bs[k]).core
    ensures forall k :: 0 <= k < |bs| ==> ThingOf(bs[k]) in ReplayFrom(h, bs).live
    ensures (forall k :: 0 <= k < |bs| ==> Restates(live, bs[k])) ==> ReplayFrom(h, bs).live == live
  {
    hide BaselineOf, LastAlive, Baseline;
    if bs != [] {
      var n := |bs| - 1;
      OverwritesWin(live, log, cutoff, bs[..n], h);
      assert forall k :: 0 <= k < n ==> bs[..n][k] == bs[k];
      forall k | 0 <= k < n && ThingOf(bs[k]) == ThingOf(bs[n])
        ensures EffectOf(bs[k]) == EffectOf(bs[n])
      {
        SameThingSameBaseline(log, cutoff, bs[k], bs[n]);
      }
      BaselineDropsNothing(log, cutoff, bs[n]);
    }
  }

  lemma BaselineDropsNothing(log: seq<Event>, cutoff: Time, b: Event)
    requires BaselineOf(log, cutoff, b)
    ensures !EffectOf(b).Drop?
  {
    var i :| 0 <= i < |log| && LastAlive(log, i) && b == Baseline(log[i], cutoff);
  }

  lemma SameThingSameBaseline(log: seq<Event>, cutoff: Time, a: Event, b: Event)
    requires BaselineOf(log, cutoff, a) && BaselineOf(log, cutoff, b) && ThingOf(a) == ThingOf(b)
    ensures a == b
  {
    var i :| 0 <= i < |log| && LastAlive(log, i) && a == Baseline(log[i], cutoff);
    var j :| 0 <= j < |log| && LastAlive(log, j) && b == Baseline(log[j], cutoff);
    assert ThingOf(log[i]) == ThingOf(log[j]);
    assert i == j;
  }

  /** The prune scans a snapshot of the log; events appended before its baselines are
      written land between them. The pass still preserves the replay exactly when each
      baseline restates what is true after those appends. */
  lemma PruneWithAppends(log: seq<Event>, during: seq<Event>, cutoff: Time, keep: seq<bool>, bs: seq<Event>)
    requires AllowedLog(log + during) && Settled(log)
    requires Prunes(log, cutoff, keep) && Baselines(log, cutoff, bs)
    ensures Replay(Select(log, keep) + during + bs).live == Replay(log + during).live
            <==> forall k :: 0 <= k < |bs| ==> Restates(Replay(log + during).live, bs[k])
  {
    AllowedConcat(EMPTY, log, during);
    PruneSelects(log, cutoff, keep);
    var small := Select(log, keep);
    SameLiveReplays(Replay(log), Replay(small), during);
    ReplayConcat(EMPTY, log, during);
    ReplayConcat(EMPTY, small, during);
    ReplayConcat(EMPTY, small + during, bs);
    var live := Replay(log + during).live;
    OverwritesWin(live, log, cutoff, bs, Replay(small + during));
  }

  /** With nothing appended in between the condition holds by itself. */
  lemma NoAppendsNoRace(log: seq<Event>, cutoff: Time, bs: seq<Event>)
    requires AllowedLog(log) && Baselines(log, cutoff, bs)
    ensures forall k :: 0 <= k < |bs| ==> Restates(Replay(log).live, bs[k])
  {
    forall k | 0 <= k < |bs|
      ensures Restates(Replay(log).live, bs[k])
    {
      BaselineRestates(log, cutoff, bs[k]);
    }
  }
}
