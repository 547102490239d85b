/** The maintenance passes over the stored log, as the loops that carry them out. */
module RetentionPass {
  import opened Text
  import opened Model
  import opened EventLog
  import opened Projection
  import opened Retention

  // ------------------------------------------------------------ per-entity records

  /** recs lists, in order, the positions below n of the events of entity id. */
  ghost predicate RecordsOf(log: seq<Event>, n: nat, recs: seq<nat>, id: EntityId) {
    && n <= |log|
    && (forall a, b :: 0 <= a < b < |recs| ==> recs[a] < recs[b])
    && (forall k: nat :: k in recs <==> k < n && About(log[k], id))
  }

  ghost predicate Grouped(log: seq<Event>, n: nat, per: map<EntityId, seq<nat>>) {
    && (forall id :: id in per ==> RecordsOf(log, n, per[id], id))
    && (forall k :: 0 <= k < n <= |log| && log[k].EntityEvent? ==> log[k].entity.id in per)
  }

  lemma RecordsExtend(log: seq<Event>, n: nat, recs: seq<nat>, id: EntityId)
    requires RecordsOf(log, n, recs, id) && n < |log|
    ensures RecordsOf(log, n + 1, if About(log[n], id) then recs + [n] else recs, id)
  {
    assert forall a :: 0 <= a < |recs| ==> recs[a] in recs;
    assert forall k: nat :: k in recs + [n] <==> k in recs || k == n;
  }

  function GroupOne(per: map<EntityId, seq<nat>>, ev: Event, n: nat): map<EntityId, seq<nat>> {
    if !ev.EntityEvent? then per
    else per[ev.entity.id := (if ev.entity.id in per then per[ev.entity.id] else []) + [n]]
  }

  lemma GroupStep(log: seq<Event>, n: nat, per: map<EntityId, seq<nat>>)
    requires Grouped(log, n, per) && n < |log|
    ensures Grouped(log, n + 1, GroupOne(per, log[n], n))
  {
    var next := GroupOne(per, log[n], n);
    forall id | id in next
      ensures RecordsOf(log, n + 1, next[id], id)
    {
      if id in per {
        RecordsExtend(log, n, per[id], id);
      } else {
        assert RecordsOf(log, n, [], id);
        RecordsExtend(log, n, [], id);
      }
    }
  }

  method GroupByEntity(log: seq<Event>) returns (per: map<EntityId, seq<nat>>)
    ensures Grouped(log, |log|, per)
  {
    per := map[];
    for n := 0 to |log|
      invariant Grouped(log, n, per)
    {
      GroupStep(log, n, per);
      per := GroupOne(per, log[n], n);
    }
  }

  // ------------------------------------------------------------ run detection

  /** Position a of the record list is a heartbeat between two heartbeats. */
  predicate InsideRun(log: seq<Event>, recs: seq<nat>, a: int)
    requires forall k :: 0 <= k < |recs| ==> recs[k] < |log|
  {
    0 < a < |recs| - 1 && Heartbeat(log[recs[a - 1]]) && Heartbeat(log[recs[a]]) && Heartbeat(log[recs[a + 1]])
  }

  method RunMiddles(log: seq<Event>, recs: seq<nat>) returns (dels: set<nat>)
    requires forall k :: 0 <= k < |recs| ==> recs[k] < |log|
    ensures forall x :: x in dels <==> MiddleAt(log, recs, x)
  {
    dels := {};
    var i := 0;
    while i < |recs|
      invariant 0 <= i <= |recs|
      invariant 0 < i < |recs| ==> !Heartbeat(log[recs[i - 1]]) || !Heartbeat(log[recs[i]])
      invariant forall x :: x in dels <==> exists a :: a < i && InsideRun(log, recs, a) && recs[a] == x
    {
      if !Heartbeat(log[recs[i]]) {
        assert !InsideRun(log, recs, i);
        i := i + 1;
      } else {
        var j := i;
        while j + 1 < |recs| && Heartbeat(log[recs[j + 1]])
          invariant i <= j < |recs|
          invariant forall k :: i <= k <= j ==> Heartbeat(log[recs[k]])
        {
          j := j + 1;
        }
        // recs[i] and recs[j] stay; the middle goes
        assert !InsideRun(log, recs, i) && !InsideRun(log, recs, j);
        for k := i + 1 to if i < j then j else i + 1
          invariant i + 1 <= k
          invariant forall x :: x in dels <==> exists a :: a < k && InsideRun(log, recs, a) && recs[a] == x
        {
          assert InsideRun(log, recs, k);
          dels := dels + {recs[k]};
        }
        i := j + 1;
      }
    }
  }

  lemma InsideRunIsMiddle(log: seq<Event>, recs: seq<nat>, id: EntityId, a: nat)
    requires RecordsOf(log, |log|, recs, id) && a < |recs|
    requires forall k :: 0 <= k < |recs| ==> recs[k] < |log|
    ensures InsideRun(log, recs, a) <==> MiddleOfRun(log, recs[a])
  {
    var i := recs[a];
    assert i in recs && About(log[i], id);
    if InsideRun(log, recs, a) {
      NeighboursAdjacent(log, recs, id, a - 1);
      NeighboursAdjacent(log, recs, id, a);
    }
    if MiddleOfRun(log, i) {
      var x: nat :| Adjacent(log, x, i, id) && Heartbeat(log[x]);
      var y: nat :| Adjacent(log, i, y, id) && Heartbeat(log[y]);
      assert x in recs && y in recs;
      var p :| 0 <= p < |recs| && recs[p] == x;
      var q :| 0 <= q < |recs| && recs[q] == y;
      assert p < a < q;
      assert recs[a - 1] in recs && About(log[recs[a - 1]], id);
      assert recs[a + 1] in recs && About(log[recs[a + 1]], id);
      assert p == a - 1 && q == a + 1;
    }
  }

  lemma NeighboursAdjacent(log: seq<Event>, recs: seq<nat>, id: EntityId, a: nat)
    requires RecordsOf(log, |log|, recs, id) && a + 1 < |recs|
    ensures Adjacent(log, recs[a], recs[a + 1], id)
  {
    assert recs[a] in recs && recs[a + 1] in recs;
    assert forall p :: 0 <= p < |recs| ==> recs[p] <= recs[a] || recs[p] >= recs[a + 1];
  }

  lemma AllMiddles(log: seq<Event>, per: map<EntityId, seq<nat>>, dels: set<nat>, i: nat)
    requires Grouped(log, |log|, per) && i < |log|
    requires InRange(log, per) && MiddlesOf(log, per, per.Keys, dels)
    ensures i in dels <==> MiddleOfRun(log, i)
  {
    if i in dels {
      var id :| id in per.Keys && MiddleAt(log, per[id], i);
      var a :| InsideRun(log, per[id], a) && per[id][a] == i;
      InsideRunIsMiddle(log, per[id], id, a);
    }
    if MiddleOfRun(log, i) {
      var id := log[i].entity.id;
      assert i in per[id];
      var a: nat :| a < |per[id]| && per[id][a] == i;
      InsideRunIsMiddle(log, per[id], id, a);
      assert MiddleAt(log, per[id], i);
    }
  }

  ghost predicate InRange(log: seq<Event>, per: map<EntityId, seq<nat>>) {
    forall id, k :: id in per && 0 <= k < |per[id]| ==> per[id][k] < |log|
  }

  ghost predicate MiddleAt(log: seq<Event>, recs: seq<nat>, x: nat)
    requires forall k :: 0 <= k < |recs| ==> recs[k] < |log|
  {
    exists a :: InsideRun(log, recs, a) && recs[a] == x
  }

  /** dels holds the middles of the runs of the entities done. */
  ghost predicate MiddlesOf(log: seq<Event>, per: map<EntityId, seq<nat>>, done: set<EntityId>, dels: set<nat>)
    requires InRange(log, per)
  {
    done <= per.Keys && forall x :: x in dels <==> exists id :: id in done && MiddleAt(log, per[id], x)
  }

  lemma MoreMiddles(log: seq<Event>, per: map<EntityId, seq<nat>>, done: set<EntityId>, dels: set<nat>, id: EntityId,
                    more: set<nat>)
    requires InRange(log, per) && MiddlesOf(log, per, done, dels) && id in per
    requires forall x :: x in more <==> MiddleAt(log, per[id], x)
    ensures MiddlesOf(log, per, done + {id}, dels + more)
  {
    hide InsideRun, MiddleAt;
    forall x
      ensures x in dels + more <==> exists e :: e in done + {id} && MiddleAt(log, per[e], x)
    {
      if e :| e in done + {id} && MiddleAt(log, per[e], x) {
        assert e in done || e == id;
      }
      if x in dels {
        var e :| e in done && MiddleAt(log, per[e], x);
        assert e in done + {id};
      }
      if x in more {
        assert id in done + {id};
      }
    }
  }

  lemma GroupedInRange(log: seq<Event>, per: map<EntityId, seq<nat>>)
    requires Grouped(log, |log|, per)
    ensures InRange(log, per)
  {
    forall id, k | id in per && 0 <= k < |per[id]|
      ensures per[id][k] < |log|
    {
      assert per[id][k] in per[id];
    }
  }

  method MarkMiddles(log: seq<Event>) returns (keep: seq<bool>)
    ensures Coalesces(log, keep)
  {
    var per := GroupByEntity(log);
    GroupedInRange(log, per);
    var dels: set<nat> := {};
    var todo := per.Keys;
    ghost var done: set<EntityId> := {};
    while todo != {}
      invariant todo <= per.Keys && done == per.Keys - todo
      invariant MiddlesOf(log, per, done, dels)
      decreases todo
    {
      hide Grouped, MiddlesOf, MiddleAt, InsideRun;
      var id :| id in todo;
      var more := RunMiddles(log, per[id]);
      MoreMiddles(log, per, done, dels, id, more);
      dels := dels + more;
      todo := todo - {id};
      done := done + {id};
    }
    assert done == per.Keys;
    hide MiddlesOf, Grouped, MiddleOfRun;
    keep := seq(|log|, i => i !in dels);
    forall i | 0 <= i < |log|
      ensures keep[i] <==> !MiddleOfRun(log, i)
    {
      AllMiddles(log, per, dels, i);
    }
  }

  lemma {:induction false} SelectShorter(log: seq<Event>, keep: seq<bool>)
    requires |keep| == |log|
    ensures |Select(log, keep)| <= |log|
  {
    if log != [] {
      SelectShorter(log[..|log| - 1], keep[..|log| - 1]);
    }
  }

  // ------------------------------------------------------------ the latest event of each thing

  datatype LastSeen = LastSeen(idx: nat, alive: bool, ev: Event, bornBefore: bool)

  ghost predicate Latest(log: seq<Event>, n: nat, cutoff: Time, last: map<Thing, LastSeen>)
    requires n <= |log|
  {
    && (forall k :: 0 <= k < n ==> ThingOf(log[k]) in last)
    && (forall t :: t in last ==> SeenLast(log, n, cutoff, t, last[t]))
  }

  /** l describes the latest of the first n events that concern t. */
  ghost predicate SeenLast(log: seq<Event>, n: nat, cutoff: Time, t: Thing, l: LastSeen)
    requires n <= |log|
  {
    && l.idx < n && log[l.idx] == l.ev && ThingOf(l.ev) == t
    && (forall j :: l.idx < j < n ==> ThingOf(log[j]) != t)
    && (l.alive <==> !EffectOf(l.ev).Drop?)
    && (l.bornBefore <==> BornBefore(log[..n], t, cutoff))
  }

  lemma SeenLastStays(log: seq<Event>, n: nat, cutoff: Time, t: Thing, l: LastSeen)
    requires n < |log| && SeenLast(log, n, cutoff, t, l) && ThingOf(log[n]) != t
    ensures SeenLast(log, n + 1, cutoff, t, l)
  {
    hide BornBefore;
    BornExtends(log, n, t, cutoff);
  }

  lemma NotBornYet(log: seq<Event>, n: nat, cutoff: Time, t: Thing)
    requires n <= |log| && forall k :: 0 <= k < n ==> ThingOf(log[k]) != t
    ensures !BornBefore(log[..n], t, cutoff)
  {
    assert forall k :: 0 <= k < n ==> log[..n][k] == log[k];
  }

  /** One more event: it is now the latest of its thing. */
  lemma LatestStep(log: seq<Event>, n: nat, cutoff: Time, last: map<Thing, LastSeen>)
    requires n < |log| && Latest(log, n, cutoff, last)
    ensures var t := ThingOf(log[n]);
            var born := (t in last && last[t].bornBefore) || log[n].eventTime <= cutoff;
            Latest(log, n + 1, cutoff, last[t := LastSeen(n, !EffectOf(log[n]).Drop?, log[n], born)])
  {
    hide BornBefore, SeenLast;
    var t := ThingOf(log[n]);
    BornExtends(log, n, t, cutoff);
    if t in last {
      SeenBorn(log, n, cutoff, t, last[t]);
    } else {
      NotBornYet(log, n, cutoff, t);
    }
    var born := (t in last && last[t].bornBefore) || log[n].eventTime <= cutoff;
    SeenNow(log, n, cutoff, LastSeen(n, !EffectOf(log[n]).Drop?, log[n], born));
    forall u | u in last && u != t
      ensures SeenLast(log, n + 1, cutoff, u, last[u])
    {
      SeenLastStays(log, n, cutoff, u, last[u]);
    }
  }

  lemma SeenBorn(log: seq<Event>, n: nat, cutoff: Time, t: Thing, l: LastSeen)
    requires n <= |log| && SeenLast(log, n, cutoff, t, l)
    ensures l.bornBefore <==> BornBefore(log[..n], t, cutoff)
  {
  }

  lemma SeenNow(log: seq<Event>, n: nat, cutoff: Time, l: LastSeen)
    requires n < |log| && l.idx == n && l.ev == log[n] && (l.alive <==> !EffectOf(log[n]).Drop?)
    requires l.bornBefore <==> BornBefore(log[..n + 1], ThingOf(log[n]), cutoff)
    ensures SeenLast(log, n + 1, cutoff, ThingOf(log[n]), l)
  {
    hide BornBefore;
  }

  lemma BornExtends(log: seq<Event>, n: nat, t: Thing, cutoff: Time)
    requires n < |log|
    ensures BornBefore(log[..n + 1], t, cutoff) <==>
            BornBefore(log[..n], t, cutoff) || (ThingOf(log[n]) == t && log[n].eventTime <= cutoff)
  {
    if BornBefore(log[..n], t, cutoff) {
      var i :| 0 <= i < n && ThingOf(log[..n][i]) == t && log[..n][i].eventTime <= cutoff;
      assert log[..n + 1][i] == log[i];
    }
    if BornBefore(log[..n + 1], t, cutoff) {
      var i :| 0 <= i < n + 1 && ThingOf(log[..n + 1][i]) == t && log[..n + 1][i].eventTime <= cutoff;
      if i < n {
        assert log[..n][i] == log[i];
      }
    }
    if ThingOf(log[n]) == t && log[n].eventTime <= cutoff {
      assert log[..n + 1][n] == log[n];
    }
  }

  method FindLatest(log: seq<Event>, cutoff: Time) returns (last: map<Thing, LastSeen>)
    ensures Latest(log, |log|, cutoff, last)
  {
    last := map[];
    for n := 0 to |log|
      invariant Latest(log, n, cutoff, last)
    {
      hide Latest;
      var t := ThingOf(log[n]);
      LatestStep(log, n, cutoff, last);
      var born := (t in last && last[t].bornBefore) || log[n].eventTime <= cutoff;
      last := last[t := LastSeen(n, !EffectOf(log[n]).Drop?, log[n], born)];
    }
  }

  predicate WantsBaseline(l: LastSeen, cutoff: Time) {
    l.alive && l.bornBefore && l.ev.eventTime > cutoff
  }

  lemma LatestIsLast(log: seq<Event>, cutoff: Time, last: map<Thing, LastSeen>, i: nat)
    requires Latest(log, |log|, cutoff, last) && i < |log|
    ensures ThingOf(log[i]) in last
    ensures LastAlive(log, i) <==> last[ThingOf(log[i])].alive && last[ThingOf(log[i])].idx == i
  {
    var l := last[ThingOf(log[i])];
    assert ThingOf(log[l.idx]) == ThingOf(log[i]);
  }

  /** The positions protected whatever their age. */
  function KeepSet(last: map<Thing, LastSeen>): set<nat> {
    set t | t in last && last[t].alive :: last[t].idx
  }

  lemma KeepSetExact(log: seq<Event>, cutoff: Time, last: map<Thing, LastSeen>, i: nat)
    requires Latest(log, |log|, cutoff, last) && i < |log|
    ensures i in KeepSet(last) <==> LastAlive(log, i)
  {
    LatestIsLast(log, cutoff, last, i);
  }

  lemma LatestNeedsBaseline(log: seq<Event>, cutoff: Time, last: map<Thing, LastSeen>, i: nat)
    requires Latest(log, |log|, cutoff, last) && i < |log|
    ensures ThingOf(log[i]) in last
    ensures NeedsBaseline(log, cutoff, i) <==>
            last[ThingOf(log[i])].idx == i && WantsBaseline(last[ThingOf(log[i])], cutoff)
  {
    LatestIsLast(log, cutoff, last, i);
    assert log[..|log|] == log;
  }

  ghost predicate HorizonBaseline(log: seq<Event>, cutoff: Time, b: Event) {
    exists i :: 0 <= i < |log| && NeedsBaseline(log, cutoff, i) && b == Baseline(log[i], cutoff)
  }

  /** Every thing that needs a baseline has one, one only, and nothing else does. */
  ghost predicate BaselinesExactly(log: seq<Event>, cutoff: Time, bs: seq<Event>) {
    && (forall k, l :: 0 <= k < l < |bs| ==> ThingOf(bs[k]) != ThingOf(bs[l]))
    && (forall k {:trigger HorizonBaseline(log, cutoff, bs[k])} :: 0 <= k < |bs| ==>
          HorizonBaseline(log, cutoff, bs[k]))
    && (forall i {:trigger NeedsBaseline(log, cutoff, i)} :: 0 <= i < |log| && NeedsBaseline(log, cutoff, i) ==>
          Baseline(log[i], cutoff) in bs)
  }

  ghost predicate MintedFrom(last: map<Thing, LastSeen>, cutoff: Time, b: Event) {
    exists t :: t in last && WantsBaseline(last[t], cutoff) && b == Baseline(last[t].ev, cutoff)
  }

  method MintBaselines(log: seq<Event>, cutoff: Time, last: map<Thing, LastSeen>) returns (bs: seq<Event>)
    requires Latest(log, |log|, cutoff, last)
    ensures BaselinesExactly(log, cutoff, bs)
  {
    bs := [];
    var todo := last.Keys;
    while todo != {}
      invariant todo <= last.Keys && Minting(last, cutoff, todo, bs)
      decreases todo
    {
      hide Minting, Latest;
      var t :| t in todo;
      MintOne(log, last, cutoff, todo, bs, t);
      if WantsBaseline(last[t], cutoff) {
        bs := bs + [Baseline(last[t].ev, cutoff)];
      }
      todo := todo - {t};
    }
    MintedExactly(log, cutoff, last, bs);
  }

  /** The baselines of the things already dealt with, one each. */
  ghost predicate Minting(last: map<Thing, LastSeen>, cutoff: Time, todo: set<Thing>, bs: seq<Event>) {
    && (forall k :: 0 <= k < |bs| ==> MintedFrom(last, cutoff, bs[k]) && ThingOf(bs[k]) !in todo)
    && (forall k, l :: 0 <= k < l < |bs| ==> ThingOf(bs[k]) != ThingOf(bs[l]))
    && (forall t :: t in last && t !in todo && WantsBaseline(last[t], cutoff) ==> Baseline(last[t].ev, cutoff) in bs)
  }

  lemma MintOne(log: seq<Event>, last: map<Thing, LastSeen>, cutoff: Time, todo: set<Thing>, bs: seq<Event>, t: Thing)
    requires Latest(log, |log|, cutoff, last) && Minting(last, cutoff, todo, bs) && t in todo && t in last
    ensures Minting(last, cutoff, todo - {t}, if WantsBaseline(last[t], cutoff)
      then bs + [Baseline(last[t].ev, cutoff)] else bs)
  {
    var b := Baseline(last[t].ev, cutoff);
    assert ThingOf(b) == t by {
      assert SeenLast(log, |log|, cutoff, t, last[t]);
    }
    hide Latest, SeenLast, WantsBaseline, MintedFrom, Baseline;
    if WantsBaseline(last[t], cutoff) {
      MintedHere(last, cutoff, t);
      forall u | u in last && u !in todo - {t} && WantsBaseline(last[u], cutoff)
        ensures Baseline(last[u].ev, cutoff) in bs + [b]
      {
      }
    }
  }

  lemma MintedHere(last: map<Thing, LastSeen>, cutoff: Time, t: Thing)
    requires t in last && WantsBaseline(last[t], cutoff)
    ensures MintedFrom(last, cutoff, Baseline(last[t].ev, cutoff))
  {
  }

  lemma MintedExactly(log: seq<Event>, cutoff: Time, last: map<Thing, LastSeen>, bs: seq<Event>)
    requires Latest(log, |log|, cutoff, last)
    requires forall k :: 0 <= k < |bs| ==> MintedFrom(last, cutoff, bs[k])
    requires forall k, l :: 0 <= k < l < |bs| ==> ThingOf(bs[k]) != ThingOf(bs[l])
    requires forall t :: t in last && WantsBaseline(last[t], cutoff) ==> Baseline(last[t].ev, cutoff) in bs
    ensures BaselinesExactly(log, cutoff, bs)
  {
    forall k | 0 <= k < |bs|
      ensures HorizonBaseline(log, cutoff, bs[k])
    {
      assert MintedFrom(last, cutoff, bs[k]);
      var t :| t in last && WantsBaseline(last[t], cutoff) && bs[k] == Baseline(last[t].ev, cutoff);
      LatestNeedsBaseline(log, cutoff, last, last[t].idx);
    }
    forall i | 0 <= i < |log| && NeedsBaseline(log, cutoff, i)
      ensures Baseline(log[i], cutoff) in bs
    {
      LatestNeedsBaseline(log, cutoff, last, i);
    }
  }

  method MarkPrunable(log: seq<Event>, cutoff: Time, keepSet: set<nat>) returns (keep: seq<bool>)
    requires forall i :: 0 <= i < |log| ==> (i in keepSet <==> LastAlive(log, i))
    ensures Prunes(log, cutoff, keep)
  {
    keep := [];
    for i := 0 to |log|
      invariant |keep| == i
      invariant forall k :: 0 <= k < i ==> (keep[k] <==> k in keepSet || !(log[k].recordedAt < cutoff))
    {
      keep := keep + [i in keepSet || !(log[i].recordedAt < cutoff)];
    }
  }

  lemma {:induction false} SelectFull(log: seq<Event>, keep: seq<bool>)
    requires |keep| == |log| && |Select(log, keep)| == |log|
    ensures Select(log, keep) == log
  {
    if log != [] {
      var n := |log| - 1;
      SelectShorter(log[..n], keep[..n]);
      SelectFull(log[..n], keep[..n]);
      assert log == log[..n] + [log[n]];
    }
  }

  // ------------------------------------------------------------ the store

  class Store {
    var log: seq<Event>
    var horizon: Option<Time>
    var prunedEvents: nat
    var prunedBytes: nat

    constructor ()
      ensures log == [] && horizon == None && prunedEvents == 0 && prunedBytes == 0
    {
      log, horizon, prunedEvents, prunedBytes := [], None, 0, 0;
    }

    /** A durable append is atomic: it lands whole or not at all. */
    method Append(events: seq<Event>, lands: bool) returns (ok: bool)
      modifies this`log
      ensures ok == lands
      ensures log == if lands then old(log) + events else old(log)
    {
      ok := lands;
      if lands {
        log := log + events;
      }
    }

    method CoalesceHeartbeats() returns (removed: nat, ghost keep: seq<bool>)
      modifies this`log
      ensures Coalesces(old(log), keep) && log == Select(old(log), keep)
      ensures removed == |old(log)| - |log|
      ensures AllowedLog(old(log)) ==> AllowedLog(log) && Replay(log).live == Replay(old(log)).live
    {
      var mask := MarkMiddles(log);
      keep := mask;
      if AllowedLog(log) {
        CoalescePreserves(log, keep);
      }
      var kept := Select(log, mask);
      SelectShorter(log, mask);
      removed := |log| - |kept|;
      log := kept;
    }

    /** Appends the horizon baselines, deletes what nothing protects, and advances the
        horizon; a pass that finds nothing to delete changes nothing. The baseline append may
        fail, which changes nothing either, and so may the commit of the deletes, which
        leaves the baselines behind. Whatever fails, the log means what it meant. */
    method PruneOlderThan(cutoff: Time, size: Event -> nat, appends: bool, commits: bool)
      returns (events: nat, bytes: nat, ok: bool, ghost keep: seq<bool>, ghost bs: seq<Event>)
      modifies this
      ensures Prunes(old(log), cutoff, keep) && Baselines(old(log), cutoff, bs)
      ensures ok ==> log == Select(old(log), keep) + bs && events == |old(log)| - |Select(old(log), keep)|
                     && bytes == DroppedBytes(old(log), keep, size)
      ensures ok && events > 0 ==> BaselinesExactly(old(log), cutoff, bs)
      ensures !ok ==> events == 0 && bytes == 0 && log == if appends then old(log) + bs else old(log)
      ensures events == 0 ==> horizon == old(horizon)
      ensures prunedEvents == old(prunedEvents) + events && prunedBytes == old(prunedBytes) + bytes
      ensures AllowedLog(old(log)) && Settled(old(log)) ==>
                AllowedLog(log) && Settled(log) && Replay(log).live == Replay(old(log)).live
    {
      var last := FindLatest(log, cutoff);
      var mask;
      forall i | 0 <= i < |log|
        ensures i in KeepSet(last) <==> LastAlive(log, i)
      {
        KeepSetExact(log, cutoff, last, i);
      }
      mask := MarkPrunable(log, cutoff, KeepSet(last));
      keep := mask;
      var kept := Select(log, mask);
      SelectShorter(log, mask);
      events := |log| - |kept|;
      bytes := CountDropped(log, mask, size);
      if events == 0 {
        bs := [];
        SelectFull(log, mask);
        NoneDropped(log, mask, size);
        assert log + [] == log;
        return events, bytes, true, keep, bs;
      }
      var baselines := MintBaselines(log, cutoff, last);
      bs := baselines;
      BaselinesAre(log, cutoff, bs);
      if AllowedLog(log) && Settled(log) {
        PrunePreserves(log, cutoff, keep, bs);
        BaselinesOnly(log, cutoff, bs);
      }
      hide Settled, Baselines, Prunes, BaselinesExactly;
      if !appends && baselines != [] {
        return 0, 0, false, keep, bs;
      }
      if !commits {
        log := log + baselines;
        return 0, 0, false, keep, bs;
      }
      log := kept + baselines;
      prunedEvents, prunedBytes := prunedEvents + events, prunedBytes + bytes;
      if horizon == None || horizon.value < cutoff {
        horizon := Some(cutoff);
      }
      ok := true;
    }
  }

  lemma BaselinesAre(log: seq<Event>, cutoff: Time, bs: seq<Event>)
    requires BaselinesExactly(log, cutoff, bs)
    ensures Baselines(log, cutoff, bs)
  {
    forall k | 0 <= k < |bs|
      ensures BaselineOf(log, cutoff, bs[k])
    {
      assert HorizonBaseline(log, cutoff, bs[k]);
    }
  }

  /** Baselines without deletes add nothing to what the log means. */
  lemma BaselinesOnly(log: seq<Event>, cutoff: Time, bs: seq<Event>)
    requires AllowedLog(log) && Settled(log) && Baselines(log, cutoff, bs)
    ensures AllowedLog(log + bs) && Settled(log + bs) && Replay(log + bs).live == Replay(log).live
  {
    forall k | 0 <= k < |bs|
      ensures !EffectOf(bs[k]).Drop? && ThingOf(bs[k]) in Replay(log).live
      ensures Replay(log).live[ThingOf(bs[k])] == EffectOf(bs[k]).core
    {
      BaselineRestates(log, cutoff, bs[k]);
    }
    CoherentReplay(EMPTY, log);
    BaselinesAreNoops(Replay(log), bs);
    AllowedConcat(EMPTY, log, bs);
    ReplayConcat(EMPTY, log, bs);
    NoopsSettled(log, bs);
  }

  /** The payload bytes of what a pass drops. */
  function DroppedBytes(log: seq<Event>, keep: seq<bool>, size: Event -> nat): nat
    requires |keep| == |log|
  {
    if log == [] then 0
    else
      var n := |log| - 1;
      DroppedBytes(log[..n], keep[..n], size) + if keep[n] then 0 else size(log[n])
  }

  method CountDropped(log: seq<Event>, keep: seq<bool>, size: Event -> nat) returns (bytes: nat)
    requires |keep| == |log|
    ensures bytes == DroppedBytes(log, keep, size)
  {
    bytes := 0;
    for i := 0 to |log|
      invariant bytes == DroppedBytes(log[..i], keep[..i], size)
    {
      assert log[..i + 1][..i] == log[..i] && keep[..i + 1][..i] == keep[..i];
      if !keep[i] {
        bytes := bytes + size(log[i]);
      }
    }
    assert log[..|log|] == log && keep[..|log|] == keep;
  }

  lemma {:induction false} NoneDropped(log: seq<Event>, keep: seq<bool>, size: Event -> nat)
    requires |keep| == |log| && |Select(log, keep)| == |log|
    ensures DroppedBytes(log, keep, size) == 0
  {
    if log != [] {
      var n := |log| - 1;
      SelectShorter(log[..n], keep[..n]);
      NoneDropped(log[..n], keep[..n], size);
    }
  }

  // ------------------------------------------------------------ what a restart sees

  /** Replaying a compacted log into a fresh projection answers every live read as the
      original log does: same live entities and attributes, relations, identity index,
      type index and adjacency. */
  lemma CompactedLogAnswersAlike(log: seq<Event>, compact: seq<Event>, limit: int, ttl: int)
    requires AllowedLog(log) && AllowedLog(compact) && Replay(compact).live == Replay(log).live
    ensures SameAnswers(ApplyAll(NewGraph(limit, ttl), compact), ApplyAll(NewGraph(limit, ttl), log))
  {
    NewGraphProjects(limit, ttl);
    ReplayProjects(NewGraph(limit, ttl), EMPTY, log);
    ReplayProjects(NewGraph(limit, ttl), EMPTY, compact);
    SameViewSameAnswers(ApplyAll(NewGraph(limit, ttl), compact), ApplyAll(NewGraph(limit, ttl), log), Replay(log).live);
  }

  // ------------------------------------------------------------ two limits of the pass

  const HOST := Identity([104], map[])

  function Sample(ct: EntityChange, attrs: Attrs, schema: Str, at: Time): Event {
    EntityEvent(ct, Entity(0, HOST, attrs, schema), at, at)
  }

  lemma ReplayTwo(h: History, a: Event, b: Event)
    ensures ReplayFrom(h, [a, b]) == Next(Next(h, a), b)
    ensures AllowedFrom(h, [a, b]) <==> Allowed(h, a) && Allowed(Next(h, a), b)
  {
    Snoc(h, [], a);
    Snoc(h, [a], b);
    assert [] + [a] == [a] && [a] + [b] == [a, b];
  }

  lemma SelectSecond(a: Event, b: Event)
    ensures Select([a, b], [false, true]) == [b]
  {
    assert [a, b][..1] == [a] && [false, true][..1] == [false];
    assert Select([a], [false]) == [] + [];
  }

  lemma ReplayOne(h: History, a: Event)
    ensures ReplayFrom(h, [a]) == Next(h, a)
    ensures AllowedFrom(h, [a]) <==> Allowed(h, a)
  {
    Snoc(h, [], a);
    assert [] + [a] == [a];
  }

  lemma PrunesSecond(c: Event, u: Event, cutoff: Time)
    requires ThingOf(c) == ThingOf(u) && !EffectOf(u).Drop? && c.recordedAt < cutoff
    ensures Prunes([c, u], cutoff, [false, true]) && Baselines([c, u], cutoff, [Baseline(u, cutoff)])
  {
    assert LastAlive([c, u], 1);
    assert BaselineOf([c, u], cutoff, Baseline(u, cutoff));
  }

  lemma MintsSecond(c: Event, u: Event, cutoff: Time)
    requires ThingOf(c) == ThingOf(u) && !EffectOf(u).Drop? && c.eventTime <= cutoff < u.eventTime
    ensures BaselinesExactly([c, u], cutoff, [Baseline(u, cutoff)])
  {
    var log := [c, u];
    assert BornBefore(log, ThingOf(log[1]), cutoff) by {
      assert ThingOf(log[0]) == ThingOf(log[1]) && log[0].eventTime <= cutoff;
    }
    assert NeedsBaseline(log, cutoff, 1) && !NeedsBaseline(log, cutoff, 0);
    assert HorizonBaseline(log, cutoff, Baseline(u, cutoff));
  }

  /** A delete appended between the scan and the baselines is undone by the baseline the pass
      mints: the entity comes back on the next replay. */
  lemma RaceResurrects(c: Event, u: Event, d: Event, cutoff: Time)
    requires c.EntityEvent? && u.EntityEvent? && d.EntityEvent?
    requires c.change == Created && u.change == AttributeUpdated && d.change == Deleted
    requires c.entity.id == u.entity.id == d.entity.id && c.entity.ident == u.entity.ident == d.entity.ident
    requires c.recordedAt < cutoff && c.eventTime <= cutoff < u.eventTime
    ensures AllowedLog([c, u]) && AllowedFrom(Replay([c, u]), [d])
    ensures Prunes([c, u], cutoff, [false, true]) && BaselinesExactly([c, u], cutoff, [Baseline(u, cutoff)])
    ensures ThingOf(c) !in ReplayFrom(Replay([c, u]), [d]).live
    ensures ThingOf(c) in
              ReplayFrom(ReplayFrom(Replay(Select([c, u], [false, true])), [d]), [Baseline(u, cutoff)]).live
  {
    ReplayTwo(EMPTY, c, u);
    SelectSecond(c, u);
    PrunesSecond(c, u, cutoff);
    MintsSecond(c, u, cutoff);
    var h := Replay([u]);
    ReplayOne(Replay([c, u]), d);
    ReplayOne(h, d);
    ReplayOne(Next(h, d), Baseline(u, cutoff));
  }

  /** The schema URL is outside what replay preserves: when only a heartbeat of an entity
      survives, the entity takes the heartbeat's schema. */
  lemma SchemaCanDrift(limit: int, ttl: int)
    ensures var log := [Sample(Created, map[], [1], 1), Sample(Unchanged, map[], [2], 10)];
            var keep := [false, true];
            var g := NewGraph(limit, ttl);
            && AllowedLog(log) && Prunes(log, 5, keep)
            && ApplyAll(g, log) == PutEntity(g, Entity(0, HOST, map[], [1]))
            && ApplyAll(g, Select(log, keep)) == PutEntity(g, Entity(0, HOST, map[], [2]))
  {
    var c, u := Sample(Created, map[], [1], 1), Sample(Unchanged, map[], [2], 10);
    var log := [c, u];
    ReplayTwo(EMPTY, c, u);
    SelectSecond(c, u);
    PrunesSecond(c, u, 5);
    var g := NewGraph(limit, ttl);
    assert log[..1] == [c] && [c][..0] == [] && [u][..0] == [];
    assert ApplyAll(g, [c]) == Apply(g, c);
    assert ApplyAll(g, [u]) == Apply(g, u);
  }
}
