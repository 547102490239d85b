/** Compaction between a snapshot and the restart from it: coalescing is harmless, and a prune
    exactly as long as it leaves, of every thing the snapshot holds otherwise than the log, a
    deciding event in the tail. */
module SnapshotCompaction {
  import opened Model
  import opened EventLog
  import opened Retention
  import opened SnapshotRestore

  // ------------------------------------------------------------ selecting around a cut

  lemma {:induction false} SelectConcat(a: seq<Event>, ka: seq<bool>, b: seq<Event>, kb: seq<bool>)
    requires |ka| == |a| && |kb| == |b|
    ensures Select(a + b, ka + kb) == Select(a, ka) + Select(b, kb)
  {
    if b == [] {
      assert a + b == a && ka + kb == ka;
    } else {
      var n := |b| - 1;
      assert (a + b)[..|a| + n] == a + b[..n] && (ka + kb)[..|a| + n] == ka + kb[..n];
      SelectConcat(a, ka, b[..n], kb[..n]);
    }
  }

  lemma SelectCut(log: seq<Event>, keep: seq<bool>, cut: nat)
    requires |keep| == |log| && cut <= |log|
    ensures Select(log, keep) == Select(log[..cut], keep[..cut]) + Select(log[cut..], keep[cut..])
  {
    assert log == log[..cut] + log[cut..] && keep == keep[..cut] + keep[cut..];
    SelectConcat(log[..cut], keep[..cut], log[cut..], keep[cut..]);
  }

  /** A kept event is selected, and everything kept after it comes after it. */
  lemma {:induction false} SelectedFrom(log: seq<Event>, keep: seq<bool>, k: nat) returns (i: nat)
    requires |keep| == |log| && k < |Select(log, keep)|
    ensures i < |log| && keep[i] && log[i] == Select(log, keep)[k]
    ensures forall j :: i < j < |log| && keep[j] ==>
      exists m :: k < m < |Select(log, keep)| && Select(log, keep)[m] == log[j]
  {
    var n := |log| - 1;
    var rest := Select(log[..n], keep[..n]);
    if k < |rest| {
      i := SelectedFrom(log[..n], keep[..n], k);
      forall j | i < j < |log| && keep[j]
        ensures exists m :: k < m < |Select(log, keep)| && Select(log, keep)[m] == log[j]
      {
        if j < n {
          assert log[..n][j] == log[j] && keep[..n][j] == keep[j];
          var m :| k < m < |rest| && rest[m] == log[j];
          assert Select(log, keep)[m] == log[j];
        } else {
          assert Select(log, keep)[|rest|] == log[n];
        }
      }
    } else {
      i := n;
    }
  }

  lemma {:induction false} KeptIsSelected(log: seq<Event>, keep: seq<bool>, i: nat)
    requires |keep| == |log| && i < |log| && keep[i]
    ensures log[i] in Select(log, keep)
  {
    var n := |log| - 1;
    if i < n {
      KeptIsSelected(log[..n], keep[..n], i);
    }
  }

  // ------------------------------------------------------------ what a tail still decides

  /** A kept event from position cut on decides the thing. */
  ghost predicate KeptDecides(log: seq<Event>, keep: seq<bool>, cut: nat, t: Thing)
    requires |keep| == |log|
  {
    exists i :: cut <= i < |log| && keep[i] && Decides(log[i], t)
  }

  lemma SelectDecides(log: seq<Event>, keep: seq<bool>, cut: nat, t: Thing)
    requires |keep| == |log| && cut <= |log|
    ensures Decided(Select(log[cut..], keep[cut..]), t) <==> KeptDecides(log, keep, cut, t)
  {
    var tail, kt := log[cut..], keep[cut..];
    if k :| 0 <= k < |Select(tail, kt)| && Decides(Select(tail, kt)[k], t) {
      var i := SelectedFrom(tail, kt, k);
      assert Decides(log[cut + i], t) && keep[cut + i];
    }
    if i :| cut <= i < |log| && keep[i] && Decides(log[i], t) {
      assert tail[i - cut] == log[i] && kt[i - cut] == keep[i];
      KeptIsSelected(tail, kt, i - cut);
      var k :| 0 <= k < |Select(tail, kt)| && Select(tail, kt)[k] == log[i];
      assert Decides(Select(tail, kt)[k], t);
    }
  }

  /** A thing named from cut on has its last event there. */
  lemma LastInTail(log: seq<Event>, cut: nat, t: Thing) returns (i: nat)
    requires cut <= |log| && Named(log[cut..], t)
    ensures cut <= i < |log| && ThingOf(log[i]) == t && IsLast(log, i)
  {
    var k :| 0 <= k < |log[cut..]| && ThingOf(log[cut..][k]) == t;
    assert ThingOf(log[cut + k]) == t;
    i := LastIndex(log, t);
  }

  /** The log after a compaction that kept these events and appended these baselines. */
  function Compacted(log: seq<Event>, keep: seq<bool>, bs: seq<Event>): seq<Event>
    requires |keep| == |log|
  {
    Select(log, keep) + bs
  }

  /** What a restart would see before and after: the tail from the recorded sequence. */
  function NewTail(log: seq<Event>, keep: seq<bool>, bs: seq<Event>, cut: nat): seq<Event>
    requires |keep| == |log| && cut <= |log|
  {
    Select(log[cut..], keep[cut..]) + bs
  }

  /** A compaction that keeps the meaning, the last event of every live thing, and appends
      only baselines. */
  ghost predicate KeepsMeaning(log: seq<Event>, keep: seq<bool>, bs: seq<Event>) {
    && |keep| == |log| && AllowedLog(log) && AllowedLog(Compacted(log, keep, bs))
    && Replay(Compacted(log, keep, bs)).live == Replay(log).live
    && (forall i :: 0 <= i < |log| && LastAlive(log, i) ==> keep[i])
    && (forall k :: 0 <= k < |bs| ==> Copies(log, bs[k]))
  }

  /** The event repeats the latest event of a live thing. */
  ghost predicate Copies(log: seq<Event>, b: Event) {
    exists i :: 0 <= i < |log| && LastAlive(log, i) && ThingOf(b) == ThingOf(log[i]) && EffectOf(b) == EffectOf(log[i])
  }

  lemma LiveLast(log: seq<Event>, i: nat)
    requires i < |log| && IsLast(log, i) && ThingOf(log[i]) in Replay(log).live
    ensures LastAlive(log, i)
  {
    LastEventDecides(log, i);
  }

  /** What a baseline decides of a thing the tail names, its kept latest event decides. */
  lemma BaselineDecided(log: seq<Event>, keep: seq<bool>, cut: nat, t: Thing, b: Event)
    requires |keep| == |log| && cut <= |log| && Named(log[cut..], t) && Copies(log, b) && Decides(b, t)
    requires forall i :: 0 <= i < |log| && LastAlive(log, i) ==> keep[i]
    ensures KeptDecides(log, keep, cut, t)
  {
    var i :| 0 <= i < |log| && LastAlive(log, i) && ThingOf(b) == ThingOf(log[i]) && EffectOf(b) == EffectOf(log[i]);
    var j := LastInTail(log, cut, t);
    assert i == j;
    assert keep[j] && Decides(log[j], t);
  }

  /** On a thing the snapshot already misses or misrepresents, a baseline adds no decision
      the tail had not kept. */
  lemma BaselineAddsNothing(log: seq<Event>, keep: seq<bool>, bs: seq<Event>, cut: nat, t: Thing)
    requires KeepsMeaning(log, keep, bs) && cut <= |log| && Named(log[cut..], t)
    ensures Decided(NewTail(log, keep, bs, cut), t) <==> KeptDecides(log, keep, cut, t)
  {
    hide Select, Decides, KeptDecides, Replay, AllowedFrom;
    var a := Select(log[cut..], keep[cut..]);
    var z := NewTail(log, keep, bs, cut);
    SelectDecides(log, keep, cut, t);
    if k :| 0 <= k < |a| && Decides(a[k], t) {
      assert Decides(z[k], t);
    }
    if k :| 0 <= k < |z| && Decides(z[k], t) {
      if k < |a| {
        assert Decides(a[k], t);
      } else {
        BaselineDecided(log, keep, cut, t, bs[k - |a|]);
      }
    }
  }

  lemma NamedSurvives(log: seq<Event>, keep: seq<bool>, bs: seq<Event>, cut: nat, t: Thing)
    requires KeepsMeaning(log, keep, bs) && cut <= |log| && Named(log[cut..], t) && t in Replay(log).live
    ensures Named(NewTail(log, keep, bs, cut), t)
  {
    var i := LastInTail(log, cut, t);
    LiveLast(log, i);
    assert log[cut..][i - cut] == log[i] && keep[cut..][i - cut] == keep[i];
    KeptIsSelected(log[cut..], keep[cut..], i - cut);
    var a := Select(log[cut..], keep[cut..]);
    var k :| 0 <= k < |a| && a[k] == log[i];
    assert ThingOf(NewTail(log, keep, bs, cut)[k]) == t;
  }

  lemma DecidedIsNamed(evs: seq<Event>, t: Thing)
    requires Decided(evs, t)
    ensures Named(evs, t)
  {
    var k :| 0 <= k < |evs| && Decides(evs[k], t);
  }

  /** Every thing the snapshot holds and the log has otherwise keeps a deciding event from
      the recorded sequence on. */
  ghost predicate DecidersKept(sample: View, log: seq<Event>, keep: seq<bool>, cut: nat)
    requires |keep| == |log|
  {
    forall t :: Outdated(sample, Replay(log).live, t) ==> KeptDecides(log, keep, cut, t)
  }

  lemma CompactionRecoversTo(sample: View, log: seq<Event>, keep: seq<bool>, bs: seq<Event>, cut: nat)
    requires |keep| == |log| && cut <= |log|
    requires KeepsMeaning(log, keep, bs) && RecoversTo(sample, Replay(log).live, log[cut..])
    ensures RecoversTo(sample, Replay(log).live, NewTail(log, keep, bs, cut)) <==> DecidersKept(sample, log, keep, cut)
  {
    hide KeepsMeaning, NewTail, Decided, Named, KeptDecides, Outdated, Replay;
    var live, tail' := Replay(log).live, NewTail(log, keep, bs, cut);
    forall t
      ensures t !in sample && t in live ==> Named(tail', t)
      ensures Outdated(sample, live, t) ==> (Decided(tail', t) <==> KeptDecides(log, keep, cut, t))
    {
      if t !in sample && t in live {
        NamedSurvives(log, keep, bs, cut, t);
      }
      if Outdated(sample, live, t) {
        DecidedIsNamed(log[cut..], t);
        BaselineAddsNothing(log, keep, bs, cut, t);
      }
    }
  }

  /** A log and the position of the recorded sequence in it, before and after. */
  lemma RecoversAtCut(sample: View, log: seq<Event>, cut: nat)
    requires AllowedLog(log) && cut <= |log|
    ensures Recovers(sample, Replay(log[..cut]), log[cut..]) <==> RecoversTo(sample, Replay(log).live, log[cut..])
  {
    hide RecoversTo, AllowedFrom;
    assert log == log[..cut] + log[cut..];
    TailOf(log[..cut], log[cut..]);
  }

  lemma RecoversAtNewCut(sample: View, log: seq<Event>, keep: seq<bool>, bs: seq<Event>, cut: nat)
    requires KeepsMeaning(log, keep, bs) && cut <= |log|
    ensures var base := Select(log[..cut], keep[..cut]);
            && Compacted(log, keep, bs) == base + NewTail(log, keep, bs, cut)
            && (Recovers(sample, Replay(base), NewTail(log, keep, bs, cut)) <==>
                RecoversTo(sample, Replay(log).live, NewTail(log, keep, bs, cut)))
  {
    hide RecoversTo, AllowedFrom, Select, Replay;
    SelectCut(log, keep, cut);
    var base, a := Select(log[..cut], keep[..cut]), Select(log[cut..], keep[cut..]);
    assert base + a + bs == base + (a + bs);
    TailOf(base, NewTail(log, keep, bs, cut));
  }

  /** After a compaction a restart is right exactly when the deciding events were kept. */
  lemma CompactionRecovers(sample: View, log: seq<Event>, keep: seq<bool>, bs: seq<Event>, cut: nat)
    requires |keep| == |log| && cut <= |log| && KeepsMeaning(log, keep, bs)
    requires Recovers(sample, Replay(log[..cut]), log[cut..])
    ensures Recovers(sample, Replay(Select(log[..cut], keep[..cut])), NewTail(log, keep, bs, cut)) <==>
            DecidersKept(sample, log, keep, cut)
  {
    hide Recovers, RecoversTo, Select, NewTail, DecidersKept, Compacted, AllowedFrom;
    RecoversAtCut(sample, log, cut);
    RecoversAtNewCut(sample, log, keep, bs, cut);
    CompactionRecoversTo(sample, log, keep, bs, cut);
  }

  // ------------------------------------------------------------ the two passes

  lemma RunMiddleNotLast(log: seq<Event>, i: nat)
    requires i < |log| && MiddleOfRun(log, i)
    ensures !IsLast(log, i)
  {
    var b: nat :| Adjacent(log, i, b, log[i].entity.id) && Heartbeat(log[b]);
    assert ThingOf(log[b]) == ThingOf(log[i]);
  }

  lemma CoalesceKeepsMeaning(log: seq<Event>, keep: seq<bool>)
    requires AllowedLog(log) && Coalesces(log, keep)
    ensures KeepsMeaning(log, keep, [])
  {
    CoalescePreserves(log, keep);
    hide MiddleOfRun, Replay, IsLast, AllowedFrom;
    assert Compacted(log, keep, []) == Select(log, keep);
    forall i | 0 <= i < |log| && LastAlive(log, i)
      ensures keep[i]
    {
      if MiddleOfRun(log, i) {
        RunMiddleNotLast(log, i);
      }
    }
  }

  lemma PruneKeepsMeaning(log: seq<Event>, cutoff: Time, keep: seq<bool>, bs: seq<Event>)
    requires AllowedLog(log) && Settled(log) && Prunes(log, cutoff, keep) && Baselines(log, cutoff, bs)
    ensures KeepsMeaning(log, keep, bs)
  {
    PrunePreserves(log, cutoff, keep, bs);
    hide Replay, AllowedFrom, LastAlive, Settled, Select;
    forall i | 0 <= i < |log| && LastAlive(log, i)
      ensures keep[i]
    {
      assert Protected(log, cutoff, i);
    }
    forall k | 0 <= k < |bs|
      ensures Copies(log, bs[k])
    {
      BaselineCopies(log, cutoff, bs[k]);
    }
  }

  lemma BaselineCopies(log: seq<Event>, cutoff: Time, b: Event)
    requires BaselineOf(log, cutoff, b)
    ensures Copies(log, b)
  {
  }

  lemma TailDecider(log: seq<Event>, cut: nat, t: Thing) returns (i: nat)
    requires cut <= |log| && Decided(log[cut..], t)
    ensures cut <= i < |log| && Decides(log[i], t)
  {
    var k :| 0 <= k < |log[cut..]| && Decides(log[cut..][k], t);
    i := cut + k;
  }

  /** Coalescing never touches a deciding event, so it keeps a restart right. */
  lemma CoalesceRecovers(sample: View, log: seq<Event>, keep: seq<bool>, cut: nat)
    requires AllowedLog(log) && Coalesces(log, keep) && cut <= |log|
    requires Recovers(sample, Replay(log[..cut]), log[cut..])
    ensures Recovers(sample, Replay(Select(log[..cut], keep[..cut])), NewTail(log, keep, [], cut))
  {
    hide Recovers, KeepsMeaning, AllowedFrom, Replay, Select, NewTail;
    CoalesceKeepsMeaning(log, keep);
    CompactionRecovers(sample, log, keep, [], cut);
    RecoversAtCut(sample, log, cut);
    forall t | Outdated(sample, Replay(log).live, t)
      ensures KeptDecides(log, keep, cut, t)
    {
      var i := TailDecider(log, cut, t);
      assert !Heartbeat(log[i]) && !MiddleOfRun(log, i);
    }
  }

  /** The prune spares an event from the recorded sequence on that decides the thing: one
      recorded at or after the cutoff, or the latest of a live thing. */
  ghost predicate Spared(log: seq<Event>, cutoff: Time, cut: nat, t: Thing) {
    exists i :: cut <= i < |log| && Decides(log[i], t) && Protected(log, cutoff, i)
  }

  ghost predicate SparesDeciders(sample: View, log: seq<Event>, cutoff: Time, cut: nat) {
    forall t :: Outdated(sample, Replay(log).live, t) ==> Spared(log, cutoff, cut, t)
  }

  lemma SparedIsKept(log: seq<Event>, cutoff: Time, keep: seq<bool>, cut: nat, t: Thing)
    requires Prunes(log, cutoff, keep)
    ensures KeptDecides(log, keep, cut, t) <==> Spared(log, cutoff, cut, t)
  {
    hide Protected;
    if i :| cut <= i < |log| && keep[i] && Decides(log[i], t) {
      assert Protected(log, cutoff, i);
    }
    if i :| cut <= i < |log| && Decides(log[i], t) && Protected(log, cutoff, i) {
      assert keep[i];
    }
  }

  /** A prune keeps a restart right exactly when its cutoff spares a deciding event for every
      thing the snapshot holds and the log has since changed or dropped. */
  lemma PruneRecovers(sample: View, log: seq<Event>, cutoff: Time, keep: seq<bool>, bs: seq<Event>, cut: nat)
    requires AllowedLog(log) && Settled(log) && Prunes(log, cutoff, keep) && Baselines(log, cutoff, bs)
    requires cut <= |log| && Recovers(sample, Replay(log[..cut]), log[cut..])
    ensures Recovers(sample, Replay(Select(log[..cut], keep[..cut])), NewTail(log, keep, bs, cut)) <==>
            SparesDeciders(sample, log, cutoff, cut)
  {
    PruneKeepsMeaning(log, cutoff, keep, bs);
    hide Recovers, KeepsMeaning, AllowedFrom, Settled, Baselines, Select, NewTail, KeptDecides, Spared, Outdated;
    CompactionRecovers(sample, log, keep, bs, cut);
    forall t
      ensures KeptDecides(log, keep, cut, t) <==> Spared(log, cutoff, cut, t)
    {
      SparedIsKept(log, cutoff, keep, cut, t);
    }
  }

  /** In particular when nothing from the recorded sequence on is older than the cutoff. */
  lemma EarlyCutoffSpares(sample: View, log: seq<Event>, cutoff: Time, cut: nat)
    requires AllowedLog(log) && cut <= |log| && Recovers(sample, Replay(log[..cut]), log[cut..])
    requires forall i :: cut <= i < |log| ==> cutoff <= log[i].recordedAt
    ensures SparesDeciders(sample, log, cutoff, cut)
  {
    hide Recovers, AllowedFrom, Replay, Decided;
    RecoversAtCut(sample, log, cut);
    forall t | Outdated(sample, Replay(log).live, t)
      ensures Spared(log, cutoff, cut, t)
    {
      var i := TailDecider(log, cut, t);
      assert Protected(log, cutoff, i);
    }
  }

  // ------------------------------------------------------------ owners stay anchored

  ghost predicate PutLater(log: seq<Event>, p: int, o: EntityId) {
    exists q :: 0 <= p < q < |log| && PutOf(log[q], o) && log[p].recordedAt <= log[q].recordedAt
  }

  /** Owners are put after every other entity of their identity, and recorded no earlier. */
  ghost predicate Secured(log: seq<Event>) {
    forall p, o :: 0 <= p < |log| && Foreign(log[p], Replay(log).live, o) ==> PutLater(log, p, o)
  }

  lemma SecuredAnchors(log: seq<Event>, cut: nat)
    requires Secured(log) && cut <= |log|
    ensures Anchored(log[cut..], Replay(log).live)
  {
    var tail, live := log[cut..], Replay(log).live;
    forall p, o | 0 <= p < |tail| && Foreign(tail[p], live, o)
      ensures PutAfter(tail, p, o)
    {
      assert tail[p] == log[cut + p];
      assert PutLater(log, cut + p, o);
      var q :| cut + p < q < |log| && PutOf(log[q], o) && log[cut + p].recordedAt <= log[q].recordedAt;
      assert PutOf(tail[q - cut], o);
    }
  }

  lemma SecuredAppend(log: seq<Event>, ev: Event)
    requires Secured(log) && Coherent(Replay(log)) && Emitted(Replay(log), ev)
    requires forall k :: 0 <= k < |log| ==> log[k].recordedAt <= ev.recordedAt
    ensures Secured(log + [ev])
  {
    var n, h := log + [ev], Replay(log);
    Snoc(EMPTY, log, ev);
    forall p, o | 0 <= p < |n| && Foreign(n[p], Replay(n).live, o)
      ensures PutLater(n, p, o)
    {
      if p == |log| {
        EmittedNotForeign(h, ev, o);
      } else if Foreign(log[p], h.live, o) {
        assert PutLater(log, p, o);
        var q :| p < q < |log| && PutOf(log[q], o) && log[p].recordedAt <= log[q].recordedAt;
        assert PutOf(n[q], o);
      } else {
        assert PutOf(n[|log|], o);
      }
    }
  }

  /** The put at q secures the owner of the identity the event at p is about. */
  ghost predicate Secures(log: seq<Event>, p: nat, q: nat, o: EntityId)
    requires p < |log| && q < |log|
  {
    Foreign(log[p], Replay(log).live, o) && PutOf(log[q], o) && log[p].recordedAt <= log[q].recordedAt
  }

  /** A compaction that keeps, with an event of a dead entity, every put recorded no earlier
      keeps the owners secured. */
  lemma SecuredCompacted(log: seq<Event>, keep: seq<bool>, bs: seq<Event>)
    requires KeepsMeaning(log, keep, bs) && Secured(log)
    requires forall p, q, o :: 0 <= p < q < |log| && keep[p] && Secures(log, p, q, o) ==> keep[q]
    ensures Secured(Compacted(log, keep, bs))
  {
    var n, live := Compacted(log, keep, bs), Replay(log).live;
    var a := Select(log, keep);
    forall p, o | 0 <= p < |n| && Foreign(n[p], live, o)
      ensures PutLater(n, p, o)
    {
      if p < |a| {
        var i := SelectedFrom(log, keep, p);
        assert PutLater(log, i, o);
        var q :| i < q < |log| && PutOf(log[q], o) && log[i].recordedAt <= log[q].recordedAt;
        assert Secures(log, i, q, o);
        var m :| p < m < |a| && a[m] == log[q];
        assert PutOf(n[m], o);
      } else {
        CopyNotForeign(log, bs[p - |a|], o);
      }
    }
  }

  lemma CopyNotForeign(log: seq<Event>, b: Event, o: EntityId)
    requires AllowedLog(log) && Copies(log, b)
    ensures !Foreign(b, Replay(log).live, o)
  {
    var i :| 0 <= i < |log| && LastAlive(log, i) && ThingOf(b) == ThingOf(log[i]) && EffectOf(b) == EffectOf(log[i]);
    LastAliveState(log, i);
    CoherentReplay(EMPTY, log);
    if b.EntityEvent? {
      assert Owns(Replay(log).live, b.entity.id, b.entity.ident);
    }
  }

  lemma LastAliveNotForeign(log: seq<Event>, p: nat, o: EntityId)
    requires AllowedLog(log) && p < |log| && LastAlive(log, p)
    ensures !Foreign(log[p], Replay(log).live, o)
  {
    CopyNotForeign(log, log[p], o);
  }

  lemma PruneSecured(log: seq<Event>, cutoff: Time, keep: seq<bool>, bs: seq<Event>)
    requires AllowedLog(log) && Settled(log) && Prunes(log, cutoff, keep) && Baselines(log, cutoff, bs) && Secured(log)
    ensures Secured(Compacted(log, keep, bs))
  {
    PruneKeepsMeaning(log, cutoff, keep, bs);
    forall p, q, o | 0 <= p < q < |log| && keep[p] && Secures(log, p, q, o)
      ensures keep[q]
    {
      if LastAlive(log, p) {
        LastAliveNotForeign(log, p, o);
      }
      assert Protected(log, cutoff, p);
      assert Protected(log, cutoff, q);
    }
    SecuredCompacted(log, keep, bs);
  }

  lemma CoalesceSecured(log: seq<Event>, keep: seq<bool>)
    requires AllowedLog(log) && Coalesces(log, keep) && Secured(log)
    ensures Secured(Select(log, keep))
  {
    CoalesceKeepsMeaning(log, keep);
    forall q, o | 0 <= q < |log| && PutOf(log[q], o)
      ensures keep[q]
    {
      assert !Heartbeat(log[q]);
    }
    SecuredCompacted(log, keep, []);
    assert Compacted(log, keep, []) == Select(log, keep);
  }
}
