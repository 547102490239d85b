/** Reading the graph as it was at an instant: the events up to then, in event-time order,
    folded into a fresh projection -- and what prune passes, one after the other, leave of it. */
module AsOf {
  import opened Model
  import opened EventLog
  import opened Projection
  import opened Retention
  import opened RetentionPass

  // ------------------------------------------------------------ event-time order

  /** Insert after every event at or before the same time: ties keep append order. */
  function InsertByTime(s: seq<Event>, ev: Event): seq<Event> {
    if s == [] || s[|s| - 1].eventTime <= ev.eventTime then s + [ev]
    else InsertByTime(s[..|s| - 1], ev) + [s[|s| - 1]]
  }

  /** The events at or before t, ordered by event time and then by sequence. */
  function TimeOrder(log: seq<Event>, t: Time): seq<Event> {
    if log == [] then []
    else
      var rest := TimeOrder(log[..|log| - 1], t);
      var ev := log[|log| - 1];
      if ev.eventTime <= t then InsertByTime(rest, ev) else rest
  }

  function GraphAt(log: seq<Event>, t: Time, limit: int, ttl: int): Graph {
    ApplyAll(NewGraph(limit, ttl), TimeOrder(log, t))
  }

  /** The events of one thing, in order. */
  function Of(s: seq<Event>, t: Thing): seq<Event> {
    if s == [] then []
    else Of(s[..|s| - 1], t) + if ThingOf(s[|s| - 1]) == t then [s[|s| - 1]] else []
  }

  ghost predicate InTimeOrder(s: seq<Event>) {
    forall i, j :: 0 <= i < j < |s| ==> s[i].eventTime <= s[j].eventTime
  }

  lemma {:induction false} OfMembers(s: seq<Event>, t: Thing)
    ensures forall ev :: ev in Of(s, t) <==> ev in s && ThingOf(ev) == t
  {
    if s != [] {
      OfMembers(s[..|s| - 1], t);
      assert s == s[..|s| - 1] + [s[|s| - 1]];
    }
  }

  lemma {:induction false} OfConcat(a: seq<Event>, b: seq<Event>, t: Thing)
    ensures Of(a + b, t) == Of(a, t) + Of(b, t)
  {
    if b == [] {
      assert a + b == a;
    } else {
      var n := |b| - 1;
      assert (a + b)[..|a| + n] == a + b[..n];
      OfConcat(a, b[..n], t);
    }
  }

  lemma OfSnoc(s: seq<Event>, ev: Event, t: Thing)
    ensures Of(s + [ev], t) == if ThingOf(ev) == t then Of(s, t) + [ev] else Of(s, t)
  {
    assert (s + [ev])[..|s|] == s;
  }

  lemma OfLast(s: seq<Event>, t: Thing)
    requires s != []
    ensures Of(s, t) == if ThingOf(s[|s| - 1]) == t then Of(s[..|s| - 1], t) + [s[|s| - 1]] else Of(s[..|s| - 1], t)
  {
    assert s == s[..|s| - 1] + [s[|s| - 1]];
    OfSnoc(s[..|s| - 1], s[|s| - 1], t);
  }

  lemma OrderSnoc(s: seq<Event>, ev: Event)
    requires InTimeOrder(s) && (s == [] || s[|s| - 1].eventTime <= ev.eventTime)
    ensures InTimeOrder(s + [ev])
  {
  }

  lemma {:induction false} InsertKeepsOrder(s: seq<Event>, ev: Event)
    requires InTimeOrder(s)
    ensures InTimeOrder(InsertByTime(s, ev)) && InsertByTime(s, ev) != []
    ensures InsertByTime(s, ev)[|InsertByTime(s, ev)| - 1] ==
            if s == [] || s[|s| - 1].eventTime <= ev.eventTime then ev else s[|s| - 1]
  {
    if s == [] || s[|s| - 1].eventTime <= ev.eventTime {
      OrderSnoc(s, ev);
    } else {
      InsertKeepsOrder(s[..|s| - 1], ev);
      OrderSnoc(InsertByTime(s[..|s| - 1], ev), s[|s| - 1]);
    }
  }

  lemma {:induction false} TimeOrderSorted(log: seq<Event>, t: Time)
    ensures InTimeOrder(TimeOrder(log, t))
  {
    if log != [] {
      TimeOrderSorted(log[..|log| - 1], t);
      InsertKeepsOrder(TimeOrder(log[..|log| - 1], t), log[|log| - 1]);
    }
  }

  lemma {:induction false} OfEndsEarlier(s: seq<Event>, t: Thing)
    requires InTimeOrder(s) && Of(s, t) != []
    ensures Of(s, t)[|Of(s, t)| - 1].eventTime <= s[|s| - 1].eventTime
  {
    OfLast(s, t);
    if ThingOf(s[|s| - 1]) != t {
      OfEndsEarlier(s[..|s| - 1], t);
    }
  }

  lemma {:induction false} OfInsert(s: seq<Event>, ev: Event, t: Thing)
    requires InTimeOrder(s)
    ensures Of(InsertByTime(s, ev), t) == if ThingOf(ev) == t then InsertByTime(Of(s, t), ev) else Of(s, t)
  {
    var n := |s| - 1;
    if s == [] || s[n].eventTime <= ev.eventTime {
      OfSnoc(s, ev, t);
      if Of(s, t) != [] {
        OfEndsEarlier(s, t);
      }
    } else {
      OfInsert(s[..n], ev, t);
      OfSnoc(InsertByTime(s[..n], ev), s[n], t);
      OfLast(s, t);
      if ThingOf(s[n]) == t {
        InsertBefore(Of(s[..n], t), s[n], ev);
      }
    }
  }

  lemma InsertBefore(s: seq<Event>, last: Event, ev: Event)
    requires last.eventTime > ev.eventTime
    ensures InsertByTime(s + [last], ev) == InsertByTime(s, ev) + [last]
  {
    assert (s + [last])[..|s|] == s;
  }

  lemma TimeOrderSnoc(s: seq<Event>, ev: Event, at: Time)
    ensures TimeOrder(s + [ev], at) ==
      if ev.eventTime <= at then InsertByTime(TimeOrder(s, at), ev) else TimeOrder(s, at)
  {
    assert (s + [ev])[..|s|] == s;
  }

  /** One thing's share of the time-ordered log is the time-ordered share of the log. */
  lemma {:induction false} OfTimeOrder(log: seq<Event>, at: Time, t: Thing)
    ensures Of(TimeOrder(log, at), t) == TimeOrder(Of(log, t), at)
  {
    if log != [] {
      var n := |log| - 1;
      OfTimeOrder(log[..n], at, t);
      TimeOrderSorted(log[..n], at);
      OfInsert(TimeOrder(log[..n], at), log[n], t);
      OfLast(log, t);
      TimeOrderSnoc(Of(log[..n], t), log[n], at);
    }
  }

  // ------------------------------------------------------------ presence of one entity

  /** An entity with these events is live whatever the tombstone cache evicted meanwhile. */
  predicate Sure(s: seq<Event>) {
    if s == [] then false
    else
      match EffectOf(s[|s| - 1])
      case Put(_) => true
      case Drop => false
      case Touch(_) => |s| == 1 || Sure(s[..|s| - 1])
  }

  lemma OthersUntouched(g: Graph, ev: Event, id: EntityId)
    requires ThingOf(ev) != Ent(id)
    ensures id in Live(Apply(g, ev)) <==> id in Live(g)
    ensures id !in g.entities ==> id !in Apply(g, ev).entities
  {
    match ev
    case EntityEvent(Deleted, e, _, at) =>
      DeleteMoves(g, e.id, at);
      ShrinkingKeys(Apply(g, ev).entities, g.entities);
    case EntityEvent(_, e, _, _) => LivePut(g, e);
    case RelationEvent(_, r, _, _) => RelationMovesLive(g, ev);
  }

  lemma ShrinkingKeys(fewer: map<EntityId, Entity>, entities: map<EntityId, Entity>)
    requires fewer.Items <= entities.Items
    ensures fewer.Keys <= entities.Keys
  {
    forall id | id in fewer
      ensures id in entities
    {
      assert (id, fewer[id]) in fewer.Items;
    }
  }

  lemma OwnEvent(g: Graph, ev: Event, id: EntityId)
    requires ThingOf(ev) == Ent(id)
    ensures EffectOf(ev).Put? ==> id in Live(Apply(g, ev))
    ensures EffectOf(ev).Drop? ==> id !in Live(Apply(g, ev))
    ensures EffectOf(ev).Touch? && (id in Live(g) || id !in g.entities) ==> id in Live(Apply(g, ev))
    ensures EffectOf(ev).Touch? && id in Live(Apply(g, ev)) ==> id in Live(g) || id !in g.entities
  {
    match ev
    case EntityEvent(Deleted, e, _, at) => DeleteMoves(g, id, at);
    case EntityEvent(_, e, _, _) => LivePut(g, e);
  }

  lemma {:induction false} SureIsPresent(evs: seq<Event>, id: EntityId, limit: int, ttl: int)
    ensures Sure(Of(evs, Ent(id))) ==> id in Live(ApplyAll(NewGraph(limit, ttl), evs))
    ensures Of(evs, Ent(id)) == [] ==> id !in ApplyAll(NewGraph(limit, ttl), evs).entities
  {
    if evs != [] {
      var n := |evs| - 1;
      SureIsPresent(evs[..n], id, limit, ttl);
      var g := ApplyAll(NewGraph(limit, ttl), evs[..n]);
      OfLast(evs, Ent(id));
      if ThingOf(evs[n]) == Ent(id) {
        var s := Of(evs, Ent(id));
        assert s[..|s| - 1] == Of(evs[..n], Ent(id));
        OwnEvent(g, evs[n], id);
      } else {
        OthersUntouched(g, evs[n], id);
      }
    }
  }

  /** A present entity has events, and the last is not a delete. */
  lemma {:induction false} PresentIsUndeleted(evs: seq<Event>, id: EntityId, limit: int, ttl: int)
    requires id in Live(ApplyAll(NewGraph(limit, ttl), evs))
    ensures var s := Of(evs, Ent(id)); s != [] && !EffectOf(s[|s| - 1]).Drop?
  {
    if evs != [] {
      var n := |evs| - 1;
      var g := ApplyAll(NewGraph(limit, ttl), evs[..n]);
      OfLast(evs, Ent(id));
      if ThingOf(evs[n]) == Ent(id) {
        OwnEvent(g, evs[n], id);
      } else {
        OthersUntouched(g, evs[n], id);
        PresentIsUndeleted(evs[..n], id, limit, ttl);
      }
    }
  }

  // ------------------------------------------------------------ one entity's events

  /** A heartbeat never follows a delete. */
  ghost predicate Steady(e: seq<Event>) {
    forall i :: 0 < i < |e| && EffectOf(e[i]).Touch? ==> !EffectOf(e[i - 1]).Drop?
  }

  lemma {:induction false} LiveEndsUndeleted(log: seq<Event>, t: Thing)
    ensures t in Replay(log).live <==> Of(log, t) != [] && !EffectOf(Of(log, t)[|Of(log, t)| - 1]).Drop?
  {
    if log != [] {
      LiveEndsUndeleted(log[..|log| - 1], t);
    }
  }

  lemma {:induction false} AllowedIsSteady(log: seq<Event>, id: EntityId)
    requires AllowedLog(log)
    ensures Steady(Of(log, Ent(id)))
    ensures Of(log, Ent(id)) != [] ==> id in Replay(log).ident
  {
    if log != [] {
      var n := |log| - 1;
      AllowedIsSteady(log[..n], id);
      LiveEndsUndeleted(log[..n], Ent(id));
      if ThingOf(log[n]) == Ent(id) {
        var e := Of(log, Ent(id));
        assert e[..|e| - 1] == Of(log[..n], Ent(id));
        assert forall i :: 0 <= i < |e| - 1 ==> e[i] == Of(log[..n], Ent(id))[i];
      }
    }
  }

  /** b neither happened nor was recorded before a. */
  predicate Forward(a: Event, b: Event) {
    a.eventTime <= b.eventTime && a.recordedAt <= b.recordedAt
  }

  /** The event is dated back before an earlier one, as the baselines of a pass are. */
  ghost predicate Backdated(e: seq<Event>, j: nat)
    requires j < |e|
  {
    exists i :: 0 <= i < j && !Forward(e[i], e[j])
  }

  /** An entity's events through any number of passes: nothing is recorded before it happened;
      what is dated back is no delete, does not follow one, and comes sooner than every delete left. */
  ghost predicate Layered(e: seq<Event>) {
    && (forall i :: 0 <= i < |e| ==> e[i].eventTime <= e[i].recordedAt)
    && (forall j :: 0 <= j < |e| && Backdated(e, j) ==> OnlyRestates(e, j))
  }

  ghost predicate OnlyRestates(e: seq<Event>, j: nat)
    requires j < |e|
  {
    && !EffectOf(e[j]).Drop? && (j > 0 ==> !EffectOf(e[j - 1]).Drop?)
    && forall i :: 0 <= i < |e| && EffectOf(e[i]).Drop? ==> Sooner(e[j], j, e[i], i)
  }

  /** Times never run backwards along one entity's events, and a fact is recorded no
      earlier than it was observed. */
  ghost predicate Orderly(e: seq<Event>) {
    && (forall i, j :: 0 <= i < j < |e| ==> Forward(e[i], e[j]))
    && (forall i :: 0 <= i < |e| ==> e[i].eventTime <= e[i].recordedAt)
  }

  /** Before the first pass nothing is dated back. */
  lemma OrderlyIsLayered(e: seq<Event>)
    requires Orderly(e)
    ensures Layered(e)
  {
    forall j | 0 <= j < |e|
      ensures !Backdated(e, j)
    {
    }
  }

  // ------------------------------------------------------------ the arrangement in time

  /** s arranges the events of e up to t by time, ties in order; idx says where each is from. */
  ghost predicate Arranges(e: seq<Event>, t: Time, s: seq<Event>, idx: seq<nat>) {
    && |idx| == |s|
    && (forall p :: 0 <= p < |s| ==> idx[p] < |e| && s[p] == e[idx[p]] && s[p].eventTime <= t)
    && (forall i :: 0 <= i < |e| && e[i].eventTime <= t ==> i in idx)
    && (forall p, q :: 0 <= p < q < |s| ==> Sooner(s[p], idx[p], s[q], idx[q]))
  }

  predicate Sooner(a: Event, i: nat, b: Event, j: nat) {
    a.eventTime < b.eventTime || (a.eventTime == b.eventTime && i < j)
  }

  lemma {:induction false} InsertPlace(s: seq<Event>, ev: Event) returns (k: nat)
    requires InTimeOrder(s)
    ensures k <= |s| && InsertByTime(s, ev) == s[..k] + [ev] + s[k..]
    ensures forall p :: 0 <= p < k ==> s[p].eventTime <= ev.eventTime
    ensures forall p :: k <= p < |s| ==> s[p].eventTime > ev.eventTime
  {
    if s == [] || s[|s| - 1].eventTime <= ev.eventTime {
      k := |s|;
    } else {
      var n := |s| - 1;
      k := InsertPlace(s[..n], ev);
      assert s[..n][k..] + [s[n]] == s[k..];
    }
  }

  lemma {:induction false} Arrange(e: seq<Event>, t: Time) returns (idx: seq<nat>)
    ensures Arranges(e, t, TimeOrder(e, t), idx)
  {
    if e == [] {
      idx := [];
    } else {
      hide Arranges, InTimeOrder, PutIn;
      var n := |e| - 1;
      idx := Arrange(e[..n], t);
      var s := TimeOrder(e[..n], t);
      if e[n].eventTime <= t {
        TimeOrderSorted(e[..n], t);
        var k := InsertPlace(s, e[n]);
        SameLength(e[..n], t, s, idx);
        Spliced(s, e[n], k);
        Spliced(idx, n, k);
        ArrangeOne(e, t, s, idx, k, s[..k] + [e[n]] + s[k..], idx[..k] + [n] + idx[k..]);
        idx := idx[..k] + [n] + idx[k..];
      } else {
        ArrangeNone(e, t, s, idx);
      }
    }
  }

  lemma SameLength(e: seq<Event>, t: Time, s: seq<Event>, idx: seq<nat>)
    requires Arranges(e, t, s, idx)
    ensures |idx| == |s|
  {
  }

  lemma Spliced<T(!new)>(s: seq<T>, x: T, k: nat)
    requires k <= |s|
    ensures PutIn(s, x, k, s[..k] + [x] + s[k..])
  {
  }

  lemma ArrangeNone(e: seq<Event>, t: Time, s: seq<Event>, idx: seq<nat>)
    requires e != [] && Arranges(e[..|e| - 1], t, s, idx) && e[|e| - 1].eventTime > t
    ensures Arranges(e, t, s, idx)
  {
    assert forall i :: 0 <= i < |e| - 1 ==> e[..|e| - 1][i] == e[i];
  }

  /** s' is s with ev put in at k. */
  ghost predicate PutIn<T(!new)>(s: seq<T>, ev: T, k: nat, s': seq<T>) {
    && k <= |s| && |s'| == |s| + 1 && s'[k] == ev
    && (forall p :: 0 <= p < k ==> s'[p] == s[p])
    && (forall p :: k < p < |s'| ==> s'[p] == s[p - 1])
  }

  lemma ArrangeOne(e: seq<Event>, t: Time, s: seq<Event>, idx: seq<nat>, k: nat, s': seq<Event>, idx': seq<nat>)
    requires e != [] && Arranges(e[..|e| - 1], t, s, idx) && e[|e| - 1].eventTime <= t
    requires PutIn(s, e[|e| - 1], k, s') && PutIn(idx, |e| - 1, k, idx')
    requires forall p :: 0 <= p < k ==> s[p].eventTime <= e[|e| - 1].eventTime
    requires forall p :: k <= p < |s| ==> s[p].eventTime > e[|e| - 1].eventTime
    ensures Arranges(e, t, s', idx')
  {
    var n := |e| - 1;
    forall p | 0 <= p < |s'|
      ensures idx'[p] < |e| && s'[p] == e[idx'[p]] && s'[p].eventTime <= t
    {
    }
    forall i | 0 <= i < |e| && e[i].eventTime <= t
      ensures i in idx'
    {
      if i == n {
        assert idx'[k] == n;
      } else {
        assert e[..n][i] == e[i];
        var p :| 0 <= p < |idx| && idx[p] == i;
        assert idx'[if p < k then p else p + 1] == i;
      }
    }
    forall p, q | 0 <= p < q < |s'|
      ensures Sooner(s'[p], idx'[p], s'[q], idx'[q])
    {
      SoonerPutIn(e[..n], t, s, idx, k, e[n], s', idx', p, q);
    }
  }

  lemma SoonerPutIn(e: seq<Event>, t: Time, s: seq<Event>, idx: seq<nat>, k: nat, ev: Event, s': seq<Event>,
                    idx': seq<nat>, p: nat, q: nat)
    requires Arranges(e, t, s, idx) && PutIn(s, ev, k, s') && PutIn(idx, |e|, k, idx') && p < q < |s'|
    requires forall a :: 0 <= a < k ==> s[a].eventTime <= ev.eventTime
    requires forall a :: k <= a < |s| ==> s[a].eventTime > ev.eventTime
    ensures Sooner(s'[p], idx'[p], s'[q], idx'[q])
  {
    if p != k && q != k {
      var a, b := if p < k then p else p - 1, if q < k then q else q - 1;
      assert Sooner(s[a], idx[a], s[b], idx[b]);
    }
  }

  /** What comes later, in time and in order, stands later. */
  lemma StandsLater(e: seq<Event>, t: Time, s: seq<Event>, idx: seq<nat>, p: nat, j: nat) returns (q: nat)
    requires Arranges(e, t, s, idx) && p < |s| && idx[p] < j < |e| && s[p].eventTime <= e[j].eventTime <= t
    ensures p < q < |s| && s[q] == e[j]
  {
    assert j in idx;
    q :| 0 <= q < |idx| && idx[q] == j;
    EarlierIsSooner(e, t, s, idx, q, p);
  }

  lemma EarlierIsSooner(e: seq<Event>, t: Time, s: seq<Event>, idx: seq<nat>, p: nat, q: nat)
    requires Arranges(e, t, s, idx) && p < |s| && q < |s|
    ensures p < q ==> Sooner(s[p], idx[p], s[q], idx[q])
  {
  }

  /** The last of an arrangement is the latest, and the last in order of those. */
  lemma LastIsLatest(e: seq<Event>, t: Time, s: seq<Event>, idx: seq<nat>, i: nat)
    requires Arranges(e, t, s, idx) && s != [] && i < |e| && e[i].eventTime <= t && i != idx[|s| - 1]
    ensures Sooner(e[i], i, s[|s| - 1], idx[|s| - 1])
  {
    assert i in idx;
    var p :| 0 <= p < |idx| && idx[p] == i;
    assert Sooner(s[p], idx[p], s[|s| - 1], idx[|s| - 1]);
  }

  // ------------------------------------------------------------ sure presence

  /** Every delete is followed by an overwrite. */
  ghost predicate Mended(s: seq<Event>) {
    forall i :: 0 <= i < |s| && EffectOf(s[i]).Drop? ==> MendedAt(s, i)
  }

  ghost predicate MendedAt(s: seq<Event>, i: nat) {
    exists j :: i < j < |s| && EffectOf(s[j]).Put?
  }

  lemma LastUnmended(s: seq<Event>)
    requires s != []
    ensures !MendedAt(s, |s| - 1)
  {
  }

  lemma {:induction false} MendedIsSure(s: seq<Event>)
    requires s != [] && Mended(s)
    ensures Sure(s)
  {
    var n := |s| - 1;
    LastUnmended(s);
    if EffectOf(s[n]).Touch? && n > 0 {
      forall i | 0 <= i < n && EffectOf(s[..n][i]).Drop?
        ensures MendedAt(s[..n], i)
      {
        assert MendedAt(s, i);
        var j :| i < j < |s| && EffectOf(s[j]).Put?;
        assert EffectOf(s[..n][j]).Put?;
      }
      MendedIsSure(s[..n]);
    }
  }

  /** The delete before which nothing but non-deletes follow up to l. */
  lemma {:induction false} LastDropBefore(e: seq<Event>, i: nat, l: nat) returns (r: nat)
    requires i < l < |e| && EffectOf(e[i]).Drop? && !EffectOf(e[l]).Drop?
    ensures i <= r < l && EffectOf(e[r]).Drop? && !EffectOf(e[r + 1]).Drop?
  {
    if EffectOf(e[l - 1]).Drop? {
      r := l - 1;
    } else {
      r := LastDropBefore(e, i, l - 1);
    }
  }

  lemma ForwardFrom(e: seq<Event>, i: nat, j: nat)
    requires i < |e| && j < |e| && !Backdated(e, j)
    ensures i < j ==> Forward(e[i], e[j])
  {
  }

  /** If the latest event up to t is no delete, a delete up to t is followed by an overwrite
      that neither happened nor was recorded before it, nor happened after t. */
  lemma MendingPut(e: seq<Event>, t: Time, s: seq<Event>, idx: seq<nat>, i: nat) returns (j: nat)
    requires Layered(e) && Steady(e) && Arranges(e, t, s, idx) && s != [] && !EffectOf(s[|s| - 1]).Drop?
    requires i < |e| && EffectOf(e[i]).Drop? && e[i].eventTime <= t
    ensures i < j < |e| && EffectOf(e[j]).Put? && Forward(e[i], e[j]) && e[j].eventTime <= t
  {
    var l := idx[|s| - 1];
    LastIsLatest(e, t, s, idx, i);
    assert !Backdated(e, l) && !Backdated(e, i);
    ForwardFrom(e, l, i);
    assert i < l;
    var r := LastDropBefore(e, i, l);
    j := r + 1;
    assert !Backdated(e, j);
    assert Forward(e[i], e[j]);
    assert j < l ==> Forward(e[j], e[l]);
  }

  // ------------------------------------------------------------ what a prune keeps of it

  function Recent(e: seq<Event>, cutoff: Time): seq<Event> {
    if e == [] then []
    else
      var n := |e| - 1;
      Recent(e[..n], cutoff) + if e[n].recordedAt >= cutoff then [e[n]] else []
  }

  lemma RecentSnoc(e: seq<Event>, ev: Event, cutoff: Time)
    ensures Recent(e + [ev], cutoff) == Recent(e, cutoff) + if ev.recordedAt >= cutoff then [ev] else []
  {
    assert (e + [ev])[..|e|] == e;
  }

  /** Where a recent event is from; what is recent after it comes after it. */
  lemma {:induction false} RecentFrom(e: seq<Event>, cutoff: Time, k: nat) returns (i: nat)
    requires k < |Recent(e, cutoff)|
    ensures i < |e| && e[i] == Recent(e, cutoff)[k] && e[i].recordedAt >= cutoff
    ensures forall j :: i < j < |e| && e[j].recordedAt >= cutoff ==> LaterIn(Recent(e, cutoff), k, e[j])
  {
    var n := |e| - 1;
    var rest := Recent(e[..n], cutoff);
    if k < |rest| {
      i := RecentFrom(e[..n], cutoff, k);
      forall j | i < j < |e| && e[j].recordedAt >= cutoff
        ensures LaterIn(Recent(e, cutoff), k, e[j])
      {
        if j < n {
          assert LaterIn(rest, k, e[..n][j]);
          var m :| k < m < |rest| && rest[m] == e[j];
          assert Recent(e, cutoff)[m] == e[j];
        } else {
          assert Recent(e, cutoff)[|rest|] == e[n];
        }
      }
    } else {
      i := n;
    }
  }

  ghost predicate LaterIn(s: seq<Event>, k: nat, ev: Event) {
    exists m :: k < m < |s| && s[m] == ev
  }

  lemma {:induction false} AllRecent(e: seq<Event>, cutoff: Time)
    requires forall i :: 0 <= i < |e| ==> e[i].recordedAt >= cutoff
    ensures Recent(e, cutoff) == e
  {
    if e != [] {
      AllRecent(e[..|e| - 1], cutoff);
    }
  }

  lemma SelectSnoc(log: seq<Event>, keep: seq<bool>, p: nat)
    requires |keep| == |log| && p < |log|
    ensures log[..p + 1] == log[..p] + [log[p]]
    ensures Select(log[..p + 1], keep[..p + 1]) ==
            if keep[p] then Select(log[..p], keep[..p]) + [log[p]] else Select(log[..p], keep[..p])
  {
    assert log[..p + 1][..p] == log[..p] && keep[..p + 1][..p] == keep[..p];
  }

  /** Of a thing's events before its latest, a prune keeps the recent ones. */
  lemma {:induction false} KeptBeforeLast(log: seq<Event>, cutoff: Time, keep: seq<bool>, last: nat, n: nat)
    requires Prunes(log, cutoff, keep) && last < |log| && IsLast(log, last) && n <= last
    ensures Of(Select(log[..n], keep[..n]), ThingOf(log[last])) == Recent(Of(log[..n], ThingOf(log[last])), cutoff)
  {
    if n > 0 {
      var p, x := n - 1, ThingOf(log[last]);
      KeptBeforeLast(log, cutoff, keep, last, p);
      hide Of, Select, Recent;
      SelectSnoc(log, keep, p);
      OfSnoc(log[..p], log[p], x);
      OfSnoc(Select(log[..p], keep[..p]), log[p], x);
      RecentSnoc(Of(log[..p], x), log[p], cutoff);
      NotLast(log, cutoff, last, p);
      EmptyShares(x, cutoff);
    } else {
      assert Select(log[..0], keep[..0]) == [] && log[..0] == [];
    }
  }

  lemma EmptyShares(x: Thing, cutoff: Time)
    ensures Of([], x) == [] && Recent([], cutoff) == []
  {
  }

  lemma NotLast(log: seq<Event>, cutoff: Time, last: nat, p: nat)
    requires last < |log| && p < last
    ensures ThingOf(log[p]) == ThingOf(log[last]) ==> (Protected(log, cutoff, p) <==> log[p].recordedAt >= cutoff)
  {
  }

  /** After its latest event nothing of the thing comes. */
  lemma {:induction false} KeptAfterLast(log: seq<Event>, keep: seq<bool>, last: nat, n: nat)
    requires |keep| == |log| && last < n <= |log| && IsLast(log, last) && keep[last]
    ensures Of(Select(log[..n], keep[..n]), ThingOf(log[last])) ==
            Of(Select(log[..last], keep[..last]), ThingOf(log[last])) + [log[last]]
    ensures Of(log[..n], ThingOf(log[last])) == Of(log[..last], ThingOf(log[last])) + [log[last]]
  {
    hide Of, Select, IsLast;
    var p, x := n - 1, ThingOf(log[last]);
    SelectSnoc(log, keep, p);
    OfSnoc(log[..p], log[p], x);
    OfSnoc(Select(log[..p], keep[..p]), log[p], x);
    if p > last {
      LaterIsOther(log, last, p);
      KeptAfterLast(log, keep, last, p);
    }
  }

  lemma LaterIsOther(log: seq<Event>, last: nat, p: nat)
    requires last < p < |log| && IsLast(log, last)
    ensures ThingOf(log[p]) != ThingOf(log[last])
  {
  }

  /** What a prune leaves of the events of a live thing. */
  ghost function Pruned(e: seq<Event>, cutoff: Time): seq<Event>
    requires e != []
  {
    Recent(e[..|e| - 1], cutoff) + [e[|e| - 1]] + ShareOfBaselines(e, cutoff)
  }

  lemma PrunedShareOf(log: seq<Event>, cutoff: Time, keep: seq<bool>, bs: seq<Event>, x: Thing)
    requires Prunes(log, cutoff, keep) && BaselinesExactly(log, cutoff, bs) && x in Replay(log).live
    ensures Of(log, x) != [] && Of(Select(log, keep) + bs, x) == Pruned(Of(log, x), cutoff)
  {
    hide Of, Select, Replay, BaselinesExactly, Recent;
    var i := LastOfLive(log, x);
    assert Protected(log, cutoff, i);
    KeptBeforeLast(log, cutoff, keep, i, i);
    KeptAfterLast(log, keep, i, |log|);
    assert log[..|log|] == log && keep[..|log|] == keep;
    var e := Of(log, x);
    assert e[..|e| - 1] == Of(log[..i], x);
    BaselineShare(log, cutoff, bs, x);
    OfConcat(Select(log, keep), bs, x);
  }

  /** The last event in the log is the last of the thing's events. */
  lemma {:induction false} LastOf(log: seq<Event>, i: nat)
    requires i < |log| && IsLast(log, i)
    ensures var e := Of(log, ThingOf(log[i])); e != [] && e[|e| - 1] == log[i]
  {
    var n := |log| - 1;
    OfLast(log, ThingOf(log[i]));
    hide Of;
    if i < n {
      LastInPrefix(log, i, n);
      LastOf(log[..n], i);
    }
  }

  lemma LastInPrefix(log: seq<Event>, i: nat, n: nat)
    requires i < n <= |log| && IsLast(log, i)
    ensures IsLast(log[..n], i) && log[..n][i] == log[i] && (n < |log| ==> ThingOf(log[n]) != ThingOf(log[i]))
  {
  }

  lemma {:induction false} OfNone(s: seq<Event>, t: Thing)
    requires forall k :: 0 <= k < |s| ==> ThingOf(s[k]) != t
    ensures Of(s, t) == []
  {
    if s != [] {
      OfNone(s[..|s| - 1], t);
      OfLast(s, t);
    }
  }

  lemma {:induction false} OfOne(bs: seq<Event>, k: nat)
    requires k < |bs| && forall a, b :: 0 <= a < b < |bs| ==> ThingOf(bs[a]) != ThingOf(bs[b])
    ensures Of(bs, ThingOf(bs[k])) == [bs[k]]
  {
    var n := |bs| - 1;
    OfLast(bs, ThingOf(bs[k]));
    if k < n {
      OfOne(bs[..n], k);
    } else {
      OfNone(bs[..n], ThingOf(bs[k]));
    }
  }

  /** Some event lies at or before the cutoff. */
  ghost predicate SomeUpTo(e: seq<Event>, cutoff: Time) {
    exists k :: 0 <= k < |e| && e[k].eventTime <= cutoff
  }

  /** What the baselines contribute to a live thing with these events. */
  ghost function ShareOfBaselines(e: seq<Event>, cutoff: Time): seq<Event>
    requires e != []
  {
    if SomeUpTo(e, cutoff) && e[|e| - 1].eventTime > cutoff then [Baseline(e[|e| - 1], cutoff)] else []
  }

  lemma NoBaselineForOthers(log: seq<Event>, cutoff: Time, bs: seq<Event>, i: nat)
    requires BaselinesExactly(log, cutoff, bs) && i < |log| && IsLast(log, i) && !NeedsBaseline(log, cutoff, i)
    ensures Of(bs, ThingOf(log[i])) == []
  {
    forall k | 0 <= k < |bs|
      ensures ThingOf(bs[k]) != ThingOf(log[i])
    {
      assert HorizonBaseline(log, cutoff, bs[k]);
      var j :| 0 <= j < |log| && NeedsBaseline(log, cutoff, j) && bs[k] == Baseline(log[j], cutoff);
      assert i != j;
    }
    OfNone(bs, ThingOf(log[i]));
  }

  lemma BaselineForNeedy(log: seq<Event>, cutoff: Time, bs: seq<Event>, i: nat)
    requires BaselinesExactly(log, cutoff, bs) && i < |log| && NeedsBaseline(log, cutoff, i)
    ensures Of(bs, ThingOf(log[i])) == [Baseline(log[i], cutoff)]
  {
    assert Baseline(log[i], cutoff) in bs;
    var k :| 0 <= k < |bs| && bs[k] == Baseline(log[i], cutoff);
    OfOne(bs, k);
  }

  lemma LastOfLive(log: seq<Event>, t: Thing) returns (i: nat)
    requires t in Replay(log).live
    ensures i < |log| && ThingOf(log[i]) == t && LastAlive(log, i)
    ensures Of(log, t) != [] && Of(log, t)[|Of(log, t)| - 1] == log[i]
  {
    LiveWasNamed(log, t);
    i := LastIndex(log, t);
    LastOf(log, i);
    LastEventDecides(log, i);
  }

  lemma NeedsShare(log: seq<Event>, cutoff: Time, i: nat, e: seq<Event>)
    requires i < |log| && LastAlive(log, i) && e == Of(log, ThingOf(log[i])) && e != [] && e[|e| - 1] == log[i]
    ensures ShareOfBaselines(e, cutoff) == if NeedsBaseline(log, cutoff, i) then [Baseline(log[i], cutoff)] else []
  {
    BornInShare(log, ThingOf(log[i]), cutoff);
  }

  lemma BaselineShare(log: seq<Event>, cutoff: Time, bs: seq<Event>, t: Thing)
    requires BaselinesExactly(log, cutoff, bs) && t in Replay(log).live
    ensures Of(log, t) != [] && Of(bs, t) == ShareOfBaselines(Of(log, t), cutoff)
  {
    hide BaselinesExactly, NeedsBaseline, IsLast, Replay, Of;
    var i := LastOfLive(log, t);
    NeedsShare(log, cutoff, i, Of(log, t));
    ShareAt(log, cutoff, bs, i);
  }

  lemma ShareAt(log: seq<Event>, cutoff: Time, bs: seq<Event>, i: nat)
    requires BaselinesExactly(log, cutoff, bs) && i < |log| && IsLast(log, i)
    ensures Of(bs, ThingOf(log[i])) == if NeedsBaseline(log, cutoff, i) then [Baseline(log[i], cutoff)] else []
  {
    if NeedsBaseline(log, cutoff, i) {
      BaselineForNeedy(log, cutoff, bs, i);
    } else {
      NoBaselineForOthers(log, cutoff, bs, i);
    }
  }

  lemma BornInShare(log: seq<Event>, t: Thing, cutoff: Time)
    ensures BornBefore(log, t, cutoff) <==> SomeUpTo(Of(log, t), cutoff)
  {
    OfMembers(log, t);
    var e := Of(log, t);
    if BornBefore(log, t, cutoff) {
      var i :| 0 <= i < |log| && ThingOf(log[i]) == t && log[i].eventTime <= cutoff;
      assert log[i] in e;
      var k :| 0 <= k < |e| && e[k] == log[i];
    }
    if k :| 0 <= k < |e| && e[k].eventTime <= cutoff {
      assert e[k] in log;
      var i :| 0 <= i < |log| && log[i] == e[k];
    }
  }

  // ------------------------------------------------------------ presence survives

  /** A kept delete is from before the latest event, and what follows it is kept after it. */
  lemma KeptDrop(e: seq<Event>, cutoff: Time, k: nat) returns (i: nat)
    requires e != [] && !EffectOf(e[|e| - 1]).Drop? && k < |Pruned(e, cutoff)| && EffectOf(Pruned(e, cutoff)[k]).Drop?
    ensures i < |e| && e[i] == Pruned(e, cutoff)[k] && e[i].recordedAt >= cutoff
    ensures forall j :: i < j < |e| && e[j].recordedAt >= cutoff ==> LaterIn(Pruned(e, cutoff), k, e[j])
  {
    var n := |e| - 1;
    var a, z := Recent(e[..n], cutoff), Pruned(e, cutoff);
    assert k < |a|;
    i := RecentFrom(e[..n], cutoff, k);
    forall j | i < j < |e| && e[j].recordedAt >= cutoff
      ensures LaterIn(z, k, e[j])
    {
      if j < n {
        assert LaterIn(a, k, e[..n][j]);
        var m :| k < m < |a| && a[m] == e[j];
        assert z[m] == e[j];
      } else {
        assert z[|a|] == e[n];
      }
    }
  }

  /** After the pass every delete up to t is still mended. */
  lemma PrunedMended(e: seq<Event>, cutoff: Time, t: Time, idx: seq<nat>)
    requires Layered(e) && Steady(e) && e != [] && !EffectOf(e[|e| - 1]).Drop?
    requires Arranges(e, t, TimeOrder(e, t), idx) && TimeOrder(e, t) != []
    requires !EffectOf(TimeOrder(e, t)[|TimeOrder(e, t)| - 1]).Drop?
    ensures Mended(TimeOrder(Pruned(e, cutoff), t))
  {
    hide TimeOrder, Pruned, Arranges, Layered, Steady;
    var z := Pruned(e, cutoff);
    var s := TimeOrder(z, t);
    var at := Arrange(z, t);
    forall p | 0 <= p < |s| && EffectOf(s[p]).Drop?
      ensures MendedAt(s, p)
    {
      ArrangedAt(z, t, s, at, p);
      var i := KeptDrop(e, cutoff, at[p]);
      var j := MendingPut(e, t, TimeOrder(e, t), idx, i);
      assert LaterIn(z, at[p], e[j]);
      var m :| at[p] < m < |z| && z[m] == e[j];
      var q := StandsLater(z, t, s, at, p, m);
    }
  }

  lemma ArrangedAt(e: seq<Event>, t: Time, s: seq<Event>, idx: seq<nat>, p: nat)
    requires Arranges(e, t, s, idx) && p < |s|
    ensures p < |idx| && idx[p] < |e| && s[p] == e[idx[p]] && s[p].eventTime <= t
  {
  }

  /** Something up to t is left, if there was anything. */
  lemma PrunedNotEmpty(e: seq<Event>, cutoff: Time, t: Time, idx: seq<nat>)
    requires Layered(e) && e != [] && cutoff <= t && Arranges(e, t, TimeOrder(e, t), idx) && TimeOrder(e, t) != []
    ensures TimeOrder(Pruned(e, cutoff), t) != []
  {
    hide TimeOrder;
    var z, n := Pruned(e, cutoff), |e| - 1;
    var at := Arrange(z, t);
    if e[n].eventTime <= t {
      assert z[|Recent(e[..n], cutoff)|] == e[n];
      assert |Recent(e[..n], cutoff)| in at;
    } else if SomeUpTo(e, cutoff) {
      assert z[|z| - 1] == Baseline(e[n], cutoff);
      assert |z| - 1 in at;
    } else {
      AllRecent(e[..n], cutoff);
      var i := idx[0];
      assert z[i] == e[i] && e[i].eventTime <= t;
      assert i in at;
    }
  }

  /** As-of presence survives a prune pass, however many came before it: a still-live entity
      present in the fold at any instant at or after the cutoff is present in it after the
      pass, provided its own times are layered. */
  lemma PresenceSurvivesPrune(log: seq<Event>, cutoff: Time, keep: seq<bool>, bs: seq<Event>,
                              id: EntityId, t: Time, limit: int, ttl: int)
    requires AllowedLog(log) && Prunes(log, cutoff, keep) && BaselinesExactly(log, cutoff, bs)
    requires Layered(Of(log, Ent(id))) && cutoff <= t
    requires Ent(id) in Replay(log).live && id in Live(GraphAt(log, t, limit, ttl))
    ensures id in Live(GraphAt(Select(log, keep) + bs, t, limit, ttl))
  {
    hide Layered, Arranges, Of, TimeOrder, Sure, Mended;
    var x, e := Ent(id), Of(log, Ent(id));
    PresentIsUndeleted(TimeOrder(log, t), id, limit, ttl);
    OfTimeOrder(log, t, x);
    LiveEndsUndeleted(log, x);
    AllowedIsSteady(log, id);
    PrunedShareOf(log, cutoff, keep, bs, x);
    var idx := Arrange(e, t);
    PrunedMended(e, cutoff, t, idx);
    PrunedNotEmpty(e, cutoff, t, idx);
    MendedIsSure(TimeOrder(Pruned(e, cutoff), t));
    OfTimeOrder(Select(log, keep) + bs, t, x);
    SureIsPresent(TimeOrder(Select(log, keep) + bs, t), id, limit, ttl);
  }

  // ------------------------------------------------------------ the next pass

  /** Every delete a pass keeps happened after its cutoff: none was recorded late across it. */
  ghost predicate PromptDeletes(e: seq<Event>, cutoff: Time) {
    forall i :: 0 <= i < |e| && EffectOf(e[i]).Drop? && e[i].recordedAt >= cutoff ==> e[i].eventTime > cutoff
  }

  /** What a pass keeps of the events, before the baseline it may add. */
  function Kept(e: seq<Event>, cutoff: Time): seq<Event>
    requires e != []
  {
    Recent(e[..|e| - 1], cutoff) + [e[|e| - 1]]
  }

  /** at says where the events of s stood in e: in the same order, recent but for the last,
      and with no recent event left out. */
  ghost predicate Stood(e: seq<Event>, cutoff: Time, s: seq<Event>, at: seq<nat>) {
    && |at| == |s|
    && (forall k :: 0 <= k < |s| ==> at[k] < |e| && s[k] == e[at[k]])
    && (forall k :: 0 <= k < |s| ==> e[at[k]].recordedAt >= cutoff || at[k] == |e| - 1)
    && (forall k, m :: 0 <= k < m < |s| ==> at[k] < at[m])
    && (forall i :: 0 <= i < |e| && e[i].recordedAt >= cutoff ==> i in at)
  }

  lemma {:induction false} RecentStood(e: seq<Event>, cutoff: Time) returns (at: seq<nat>)
    ensures Stood(e, cutoff, Recent(e, cutoff), at) && AllOf(e, cutoff, at)
  {
    if e == [] {
      at := [];
    } else {
      hide Stood, AllOf;
      var n := |e| - 1;
      at := RecentStood(e[..n], cutoff);
      if e[n].recordedAt >= cutoff {
        StoodMore(e, cutoff, Recent(e[..n], cutoff), at);
        at := at + [n];
      } else {
        StoodLess(e, cutoff, Recent(e[..n], cutoff), at);
      }
    }
  }

  /** The places are all of recent events. */
  ghost predicate AllOf(e: seq<Event>, cutoff: Time, at: seq<nat>) {
    forall k :: 0 <= k < |at| ==> at[k] < |e| && e[at[k]].recordedAt >= cutoff
  }

  lemma StoodLess(e: seq<Event>, cutoff: Time, s: seq<Event>, at: seq<nat>)
    requires e != [] && Stood(e[..|e| - 1], cutoff, s, at) && AllOf(e[..|e| - 1], cutoff, at)
    requires e[|e| - 1].recordedAt < cutoff
    ensures Stood(e, cutoff, s, at) && AllOf(e, cutoff, at)
  {
    assert forall i :: 0 <= i < |e| - 1 ==> e[..|e| - 1][i] == e[i];
  }

  lemma StoodMore(e: seq<Event>, cutoff: Time, s: seq<Event>, at: seq<nat>)
    requires e != [] && Stood(e[..|e| - 1], cutoff, s, at) && AllOf(e[..|e| - 1], cutoff, at)
    ensures Stood(e, cutoff, s + [e[|e| - 1]], at + [|e| - 1])
    ensures e[|e| - 1].recordedAt >= cutoff ==> AllOf(e, cutoff, at + [|e| - 1])
  {
    var n := |e| - 1;
    var more := at + [n];
    assert more[|at|] == n;
    forall i | 0 <= i < |e| && e[i].recordedAt >= cutoff
      ensures i in more
    {
      if i < n {
        assert e[..n][i] == e[i];
        assert i in at;
      }
    }
  }

  lemma KeptStood(e: seq<Event>, cutoff: Time) returns (at: seq<nat>)
    requires e != []
    ensures Stood(e, cutoff, Kept(e, cutoff), at)
  {
    var n := |e| - 1;
    var before := RecentStood(e[..n], cutoff);
    StoodMore(e, cutoff, Recent(e[..n], cutoff), before);
    at := before + [n];
  }

  /** Between neighbours among the kept only older records stood. */
  lemma StoodNeighbours(e: seq<Event>, cutoff: Time, s: seq<Event>, at: seq<nat>, k: nat, m: nat)
    requires Stood(e, cutoff, s, at) && 0 < k < |s| && at[k - 1] < m < at[k]
    ensures e[m].recordedAt < cutoff && e[at[k - 1]].recordedAt >= cutoff
  {
    if m in at {
      var q :| 0 <= q < |at| && at[q] == m;
    }
  }

  /** What is dated back among the kept was so before, and still only restates. */
  lemma KeptRestates(e: seq<Event>, cutoff: Time, s: seq<Event>, at: seq<nat>, j: nat)
    requires Layered(e) && Stood(e, cutoff, s, at) && j < |s| && Backdated(s, j)
    ensures OnlyRestates(s, j)
  {
    var i :| 0 <= i < j && !Forward(s[i], s[j]);
    var b, c := at[j], at[j - 1];
    assert !Forward(e[at[i]], e[b]);
    assert Backdated(e, b);
    assert OnlyRestates(e, b);
    if c + 1 < b {
      StoodNeighbours(e, cutoff, s, at, j, c + 1);
      assert !Forward(e[c], e[c + 1]);
      assert Backdated(e, c + 1);
      assert OnlyRestates(e, c + 1);
    }
  }

  lemma KeptLayered(e: seq<Event>, cutoff: Time)
    requires Layered(e) && e != []
    ensures Layered(Kept(e, cutoff))
  {
    var s := Kept(e, cutoff);
    var at := KeptStood(e, cutoff);
    hide Kept, OnlyRestates, Backdated;
    forall j | 0 <= j < |s| && Backdated(s, j)
      ensures OnlyRestates(s, j)
    {
      KeptRestates(e, cutoff, s, at, j);
    }
  }

  lemma KeptDeletes(e: seq<Event>, cutoff: Time, k: nat)
    requires e != [] && !EffectOf(e[|e| - 1]).Drop? && PromptDeletes(e, cutoff)
    requires k < |Kept(e, cutoff)| && EffectOf(Kept(e, cutoff)[k]).Drop?
    ensures Kept(e, cutoff)[k].eventTime > cutoff
  {
    var at := KeptStood(e, cutoff);
  }

  /** A baseline on top of layered events keeps them layered. */
  lemma BaselineLayered(s: seq<Event>, b: Event)
    requires Layered(s) && s != [] && !EffectOf(s[|s| - 1]).Drop? && !EffectOf(b).Drop? && b.eventTime == b.recordedAt
    requires forall i :: 0 <= i < |s| && EffectOf(s[i]).Drop? ==> b.eventTime < s[i].eventTime
    ensures Layered(s + [b])
  {
    var z := s + [b];
    forall j | 0 <= j < |z| && Backdated(z, j)
      ensures OnlyRestates(z, j)
    {
      if j < |s| {
        var i :| 0 <= i < j && !Forward(z[i], z[j]);
        assert !Forward(s[i], s[j]);
        assert Backdated(s, j);
        assert OnlyRestates(s, j);
      }
    }
  }

  lemma PrunedLayered(e: seq<Event>, cutoff: Time)
    requires Layered(e) && e != [] && !EffectOf(e[|e| - 1]).Drop? && PromptDeletes(e, cutoff)
    ensures Layered(Pruned(e, cutoff))
  {
    hide Layered, PromptDeletes;
    KeptLayered(e, cutoff);
    var s := Kept(e, cutoff);
    forall k | 0 <= k < |s| && EffectOf(s[k]).Drop?
      ensures cutoff < s[k].eventTime
    {
      KeptDeletes(e, cutoff, k);
    }
    var b := Baseline(e[|e| - 1], cutoff);
    BaselineLayered(s, b);
    assert Pruned(e, cutoff) == s + ShareOfBaselines(e, cutoff);
    assert s + [] == s;
  }

  /** A baseline comes sooner than every delete kept only if none was late. */
  lemma LayeredIsPrompt(e: seq<Event>, cutoff: Time)
    requires e != [] && !EffectOf(e[|e| - 1]).Drop? && Layered(Pruned(e, cutoff)) && ShareOfBaselines(e, cutoff) != []
    ensures PromptDeletes(e, cutoff)
  {
    var z, s := Pruned(e, cutoff), Kept(e, cutoff);
    var at := KeptStood(e, cutoff);
    var l := |z| - 1;
    assert z == s + [Baseline(e[|e| - 1], cutoff)];
    assert z[l - 1] == e[|e| - 1] && z[l].eventTime == cutoff;
    assert !Forward(z[l - 1], z[l]);
    assert Backdated(z, l);
    assert OnlyRestates(z, l);
    forall i | 0 <= i < |e| && EffectOf(e[i]).Drop? && e[i].recordedAt >= cutoff
      ensures e[i].eventTime > cutoff
    {
      assert i in at;
      var k :| 0 <= k < |at| && at[k] == i;
      assert z[k] == e[i];
      assert Sooner(z[l], l, z[k], k);
    }
  }

  lemma NoBaselineLayered(e: seq<Event>, cutoff: Time)
    requires Layered(e) && e != [] && ShareOfBaselines(e, cutoff) == []
    ensures Layered(Pruned(e, cutoff))
  {
    hide Layered;
    KeptLayered(e, cutoff);
    assert Pruned(e, cutoff) == Kept(e, cutoff);
  }

  /** So the theorem applies pass after pass: a pass leaves the events of a live entity layered
      exactly when it mints no baseline for it, or keeps no delete recorded late across its
      cutoff. */
  lemma PrunedLayeredIff(e: seq<Event>, cutoff: Time)
    requires Layered(e) && e != [] && !EffectOf(e[|e| - 1]).Drop?
    ensures Layered(Pruned(e, cutoff)) <==> ShareOfBaselines(e, cutoff) == [] || PromptDeletes(e, cutoff)
  {
    hide Layered, PromptDeletes, Pruned, ShareOfBaselines;
    if ShareOfBaselines(e, cutoff) == [] {
      NoBaselineLayered(e, cutoff);
    } else if PromptDeletes(e, cutoff) {
      PrunedLayered(e, cutoff);
    } else if Layered(Pruned(e, cutoff)) {
      LayeredIsPrompt(e, cutoff);
    }
  }

  /** The engine's own appends keep the layers too. */
  lemma AppendKeepsLayers(e: seq<Event>, ev: Event)
    requires Layered(e) && ev.eventTime <= ev.recordedAt && forall i :: 0 <= i < |e| ==> Forward(e[i], ev)
    ensures Layered(e + [ev])
  {
    var z := e + [ev];
    forall j | 0 <= j < |z| && Backdated(z, j)
      ensures OnlyRestates(z, j)
    {
      var i :| 0 <= i < j && !Forward(z[i], z[j]);
      assert z[i] == e[i];
      assert !Forward(e[i], e[j]);
      assert Backdated(e, j);
      assert OnlyRestates(e, j);
    }
  }

  /** The same of a pass over a whole log. */
  lemma PassKeepsLayers(log: seq<Event>, cutoff: Time, keep: seq<bool>, bs: seq<Event>, x: Thing)
    requires Prunes(log, cutoff, keep) && BaselinesExactly(log, cutoff, bs) && x in Replay(log).live
    requires Layered(Of(log, x))
    ensures Layered(Of(Select(log, keep) + bs, x)) <==> Of(bs, x) == [] || PromptDeletes(Of(log, x), cutoff)
  {
    hide Layered, PromptDeletes, Pruned, ShareOfBaselines;
    PrunedShareOf(log, cutoff, keep, bs, x);
    BaselineShare(log, cutoff, bs, x);
    LiveEndsUndeleted(log, x);
    PrunedLayeredIff(Of(log, x), cutoff);
  }

  // ------------------------------------------------------------ a delete recorded late

  function At(ct: EntityChange, happened: Time, recorded: Time): Event {
    EntityEvent(ct, Entity(0, HOST, map[], []), happened, recorded)
  }

  /** Made, changed and deleted late, made again; and a heartbeat after the first pass. */
  const MADE: Event := At(Created, 0, 0)
  const LATE: Event := At(StateChanged, 1, 9)
  const GONE: Event := At(Deleted, 2, 10)
  const AGAIN: Event := At(Created, 12, 12)
  const BEAT: Event := At(Unchanged, 13, 13)

  const UNPRUNED: seq<Event> := [MADE, LATE, GONE, AGAIN]
  const PRUNED_ONCE: seq<Event> := [LATE, GONE, AGAIN, Baseline(AGAIN, 5), BEAT]
  const PRUNED_TWICE: seq<Event> := [LATE, GONE, AGAIN, BEAT, Baseline(BEAT, 8)]

  lemma {:induction false} AllOfOne(log: seq<Event>)
    requires forall k :: 0 <= k < |log| ==> ThingOf(log[k]) == Ent(0)
    ensures Of(log, Ent(0)) == log
  {
    if log != [] {
      AllOfOne(log[..|log| - 1]);
    }
  }

  lemma FirstPass()
    ensures Prunes(UNPRUNED, 5, [false, true, true, true])
    ensures BaselinesExactly(UNPRUNED, 5, [Baseline(AGAIN, 5)])
    ensures Select(UNPRUNED, [false, true, true, true]) + [Baseline(AGAIN, 5)] + [BEAT] == PRUNED_ONCE
  {
    var log := UNPRUNED;
    assert !LastAlive(log, 0) by {
      assert ThingOf(log[3]) == ThingOf(log[0]);
    }
    assert LastAlive(log, 3);
    assert BornBefore(log, ThingOf(log[3]), 5) by {
      assert ThingOf(log[0]) == ThingOf(log[3]) && log[0].eventTime <= 5;
    }
    assert NeedsBaseline(log, 5, 3);
    assert HorizonBaseline(log, 5, Baseline(AGAIN, 5));
    forall i | 0 <= i < |log| && NeedsBaseline(log, 5, i)
      ensures i == 3
    {
      assert ThingOf(log[3]) == ThingOf(log[i]);
    }
    SelectFour(log, [false, true, true, true]);
  }

  lemma SelectFour(log: seq<Event>, keep: seq<bool>)
    requires |log| == 4 && keep == [false, true, true, true]
    ensures Select(log, keep) == [log[1], log[2], log[3]]
  {
    assert log[..3][..2] == log[..2] && log[..2][..1] == log[..1] && log[..1][..0] == [];
    assert keep[..3][..2] == keep[..2] && keep[..2][..1] == keep[..1] && keep[..1][..0] == [];
    assert Select(log[..1], keep[..1]) == [];
    assert Select(log[..2], keep[..2]) == [log[1]];
    assert Select(log[..3], keep[..3]) == [log[1], log[2]];
  }

  lemma SecondPass()
    ensures Prunes(PRUNED_ONCE, 8, [true, true, true, false, true])
    ensures BaselinesExactly(PRUNED_ONCE, 8, [Baseline(BEAT, 8)])
    ensures Select(PRUNED_ONCE, [true, true, true, false, true]) + [Baseline(BEAT, 8)] == PRUNED_TWICE
  {
    var log := PRUNED_ONCE;
    assert !LastAlive(log, 3) by {
      assert ThingOf(log[4]) == ThingOf(log[3]);
    }
    assert LastAlive(log, 4);
    assert BornBefore(log, ThingOf(log[4]), 8) by {
      assert ThingOf(log[0]) == ThingOf(log[4]) && log[0].eventTime <= 8;
    }
    assert NeedsBaseline(log, 8, 4);
    assert HorizonBaseline(log, 8, Baseline(BEAT, 8));
    forall i | 0 <= i < |log| && NeedsBaseline(log, 8, i)
      ensures i == 4
    {
      assert ThingOf(log[4]) == ThingOf(log[i]);
    }
    SelectFive(log, [true, true, true, false, true]);
  }

  lemma SelectFive(log: seq<Event>, keep: seq<bool>)
    requires |log| == 5 && keep == [true, true, true, false, true]
    ensures Select(log, keep) == [log[0], log[1], log[2], log[4]]
  {
    assert log[..4][..3] == log[..3] && log[..3][..2] == log[..2] && log[..2][..1] == log[..1] && log[..1][..0] == [];
    assert keep[..4][..3] == keep[..3] && keep[..3][..2] == keep[..2] && keep[..2][..1] == keep[..1] &&
        keep[..1][..0] == [];
    assert Select(log[..1], keep[..1]) == [log[0]];
    assert Select(log[..2], keep[..2]) == [log[0], log[1]];
    assert Select(log[..3], keep[..3]) == [log[0], log[1], log[2]];
    assert Select(log[..4], keep[..4]) == [log[0], log[1], log[2]];
  }

  /** At 9 the first baseline follows the late delete, and revives. */
  lemma RevivedAtNine()
    ensures TimeOrder(PRUNED_ONCE, 9) == [LATE, GONE, Baseline(AGAIN, 5)]
  {
    hide TimeOrder;
    FirstThree();
    var s, b := [LATE, GONE, AGAIN], Baseline(AGAIN, 5);
    TimeOrderSnoc(s, b, 9);
    TimeOrderSnoc(s + [b], BEAT, 9);
    assert s + [b] + [BEAT] == PRUNED_ONCE;
    assert [LATE, GONE] + [b] == [LATE, GONE, b];
  }

  /** And the second, a heartbeat, is all that follows it after the next pass. */
  lemma TouchedAtNine()
    ensures TimeOrder(PRUNED_TWICE, 9) == [LATE, GONE, Baseline(BEAT, 8)]
  {
    hide TimeOrder;
    FirstThree();
    var s, b := [LATE, GONE, AGAIN], Baseline(BEAT, 8);
    TimeOrderSnoc(s, BEAT, 9);
    TimeOrderSnoc(s + [BEAT], b, 9);
    assert s + [BEAT] + [b] == PRUNED_TWICE;
    assert [LATE, GONE] + [b] == [LATE, GONE, b];
  }

  lemma FirstThree()
    ensures TimeOrder([LATE, GONE, AGAIN], 9) == [LATE, GONE]
  {
    assert TimeOrder([], 9) == [];
    hide TimeOrder;
    TimeOrderSnoc([], LATE, 9);
    TimeOrderSnoc([LATE], GONE, 9);
    TimeOrderSnoc([LATE, GONE], AGAIN, 9);
    assert [] + [LATE] == [LATE] && [LATE] + [GONE] == [LATE, GONE] && [LATE, GONE] + [AGAIN] == [LATE, GONE, AGAIN];
  }

  lemma ThreeApplied(g: Graph, a: Event, b: Event, c: Event)
    ensures ApplyAll(g, [a, b, c]) == Apply(Apply(Apply(g, a), b), c)
  {
    hide Apply;
    assert [a, b, c][..2] == [a, b] && [a, b][..1] == [a] && [a][..0] == [];
    assert ApplyAll(g, [a]) == Apply(g, a);
    assert ApplyAll(g, [a, b]) == Apply(Apply(g, a), b);
  }

  /** Where a delete was recorded late across a cutoff, two passes over events whose times run
      forward can lose presence: the first pass's baseline revives the entity before its time,
      and the second replaces that baseline by a heartbeat, which does not. */
  lemma LateDeleteLosesPresence(ttl: int)
    ensures Orderly(Of(UNPRUNED, Ent(0))) && !PromptDeletes(Of(UNPRUNED, Ent(0)), 5)
    ensures Prunes(UNPRUNED, 5, [false, true, true, true]) && BaselinesExactly(UNPRUNED, 5, [Baseline(AGAIN, 5)])
    ensures Select(UNPRUNED, [false, true, true, true]) + [Baseline(AGAIN, 5)] + [BEAT] == PRUNED_ONCE
    ensures Prunes(PRUNED_ONCE, 8, [true, true, true, false, true])
    ensures BaselinesExactly(PRUNED_ONCE, 8, [Baseline(BEAT, 8)])
    ensures Select(PRUNED_ONCE, [true, true, true, false, true]) + [Baseline(BEAT, 8)] == PRUNED_TWICE
    ensures 0 in Live(GraphAt(PRUNED_ONCE, 9, 10, ttl)) && 0 !in Live(GraphAt(PRUNED_TWICE, 9, 10, ttl))
  {
    hide Prunes, BaselinesExactly, Select, GraphAt, Of, Orderly, PromptDeletes;
    OrderlyButLate();
    FirstPass();
    SecondPass();
    PresenceAtNine(ttl);
  }

  lemma OrderlyButLate()
    ensures Orderly(Of(UNPRUNED, Ent(0))) && !PromptDeletes(Of(UNPRUNED, Ent(0)), 5)
  {
    AllOfOne(UNPRUNED);
    assert EffectOf(UNPRUNED[2]).Drop?;
  }

  lemma PresenceAtNine(ttl: int)
    ensures 0 in Live(GraphAt(PRUNED_ONCE, 9, 10, ttl)) && 0 !in Live(GraphAt(PRUNED_TWICE, 9, 10, ttl))
  {
    hide TimeOrder, Apply, ApplyAll, Live;
    RevivedAtNine();
    TouchedAtNine();
    var g := NewGraph(10, ttl);
    ThreeApplied(g, LATE, GONE, Baseline(AGAIN, 5));
    ThreeApplied(g, LATE, GONE, Baseline(BEAT, 8));
    DeletedThenTouched(g);
  }

  lemma DeletedThenTouched(g: Graph)
    requires g == NewGraph(10, g.ttl)
    ensures var d := Apply(Apply(g, LATE), GONE);
            0 in Live(Apply(d, Baseline(AGAIN, 5))) && 0 !in Live(Apply(d, Baseline(BEAT, 8)))
  {
    var h := Apply(g, LATE);
    assert h == PutEntity(g, LATE.entity);
    var b := Bury(Unindex(h, 0), 0, 10);
    assert Evict(b) == b;
    var d := Apply(h, GONE);
    assert d == b;
  }
}
