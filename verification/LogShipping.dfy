/** Shipping the log to an object store as immutable segments, and restoring from whatever
    segments survive there. One shipper, one tenant, no compaction: sequence numbers are
    positions in the log. */
module LogShipping {
  import opened Model

  /** The events (lo, hi] of the log, in one object. */
  datatype Segment = Segment(lo: nat, hi: nat)

  type Sink = map<Segment, seq<Event>>

  /** cursor caches the last shipped sequence, when it is known. */
  datatype Shipping = Shipping(log: seq<Event>, sink: Sink, cursor: Option<nat>)

  // ------------------------------------------------------------ the steps

  ghost predicate IsHighWater(sink: Sink, m: nat) {
    && (forall s :: s in sink ==> s.hi <= m)
    && (m == 0 || exists s :: s in sink && s.hi == m)
  }

  /** The highest sequence in the sink. */
  ghost function HighWater(sink: Sink): (m: nat)
    ensures IsHighWater(sink, m)
    decreases |sink|
  {
    if sink == map[] then 0
    else
      var s :| s in sink;
      assert |sink - {s}| < |sink| by {
        assert (sink - {s}).Keys == sink.Keys - {s};
        assert |sink.Keys - {s}| == |sink.Keys| - 1;
      }
      var m := HighWater(sink - {s});
      assert forall x :: x in sink - {s} ==> x in sink;
      assert forall x :: x in sink ==> x == s || x in sink - {s};
      if s.hi > m then s.hi else m
  }

  lemma HighWaterUnique(sink: Sink, m: nat)
    requires IsHighWater(sink, m)
    ensures m == HighWater(sink)
  {
  }

  datatype Outcome = Stored | FailedButLanded | FailedAndLost

  datatype Act = Append(events: seq<Event>) | Ship(outcome: Outcome) | LoseCache

  ghost function From(s: Shipping): nat {
    match s.cursor
    case Some(v) => v
    case None => HighWater(s.sink)
  }

  /** A failed put drops the cached cursor, since the object may have landed. */
  ghost function Next(s: Shipping, a: Act): Shipping {
    match a
    case Append(events) => s.(log := s.log + events)
    case LoseCache => s.(cursor := None)
    case Ship(outcome) =>
      var lo := From(s);
      if |s.log| <= lo then s.(cursor := Some(lo))
      else
        var landed := s.sink[Segment(lo, |s.log|) := s.log[lo..]];
        match outcome
        case Stored => s.(sink := landed, cursor := Some(|s.log|))
        case FailedButLanded => s.(sink := landed, cursor := None)
        case FailedAndLost => s.(cursor := None)
  }

  // ------------------------------------------------------------ the chain

  /** The sequence numbers at which segments meet. */
  ghost predicate Cuts(cuts: seq<nat>) {
    && |cuts| > 0 && cuts[0] == 0
    && forall i, j :: 0 <= i < j < |cuts| ==> cuts[i] < cuts[j]
  }

  function Link(cuts: seq<nat>, i: int): Segment
    requires 0 <= i < |cuts| - 1
  {
    Segment(cuts[i], cuts[i + 1])
  }

  ghost predicate IsLink(cuts: seq<nat>, s: Segment) {
    exists i :: 0 <= i < |cuts| - 1 && s == Link(cuts, i)
  }

  /** The sink is a gapless chain of segments from 0, each holding its slice of the log. */
  ghost predicate Chain(log: seq<Event>, sink: Sink, cuts: seq<nat>) {
    && Cuts(cuts) && cuts[|cuts| - 1] <= |log|
    && (forall s :: s in sink <==> IsLink(cuts, s))
    && (forall s :: s in sink ==> s.lo <= s.hi <= |log| && sink[s] == log[s.lo..s.hi])
  }

  lemma LinkEnds(cuts: seq<nat>, i: int)
    requires Cuts(cuts) && 0 <= i < |cuts| - 1
    ensures Link(cuts, i).hi <= cuts[|cuts| - 1]
  {
  }

  lemma ChainHighWater(log: seq<Event>, sink: Sink, cuts: seq<nat>)
    requires Chain(log, sink, cuts)
    ensures HighWater(sink) == cuts[|cuts| - 1]
  {
    var last := cuts[|cuts| - 1];
    forall s | s in sink
      ensures s.hi <= last
    {
      var i :| 0 <= i < |cuts| - 1 && s == Link(cuts, i);
      LinkEnds(cuts, i);
    }
    if |cuts| > 1 {
      assert IsLink(cuts, Link(cuts, |cuts| - 2));
      assert Link(cuts, |cuts| - 2) in sink;
    }
    HighWaterUnique(sink, last);
  }

  lemma ChainGrows(log: seq<Event>, sink: Sink, cuts: seq<nat>, events: seq<Event>)
    requires Chain(log, sink, cuts)
    ensures Chain(log + events, sink, cuts)
  {
    forall s | s in sink
      ensures sink[s] == (log + events)[s.lo..s.hi]
    {
      assert (log + events)[s.lo..s.hi] == log[s.lo..s.hi];
    }
  }

  lemma ChainExtends(log: seq<Event>, sink: Sink, cuts: seq<nat>)
    requires Chain(log, sink, cuts) && cuts[|cuts| - 1] < |log|
    ensures Chain(log, sink[Segment(cuts[|cuts| - 1], |log|) := log[cuts[|cuts| - 1]..]], cuts + [|log|])
  {
    var last := cuts[|cuts| - 1];
    var longer := cuts + [|log|];
    var newest := Segment(last, |log|);
    assert Link(longer, |cuts| - 1) == newest;
    forall s
      ensures IsLink(longer, s) <==> IsLink(cuts, s) || s == newest
    {
      if IsLink(cuts, s) {
        var i :| 0 <= i < |cuts| - 1 && s == Link(cuts, i);
        assert s == Link(longer, i);
      }
      if IsLink(longer, s) {
        var i :| 0 <= i < |longer| - 1 && s == Link(longer, i);
        if i + 1 < |cuts| {
          assert s == Link(cuts, i);
        }
      }
    }
    assert log[last..|log|] == log[last..];
  }

  /** The chain is whole, and a cached cursor stands at its end. */
  ghost predicate Whole(s: Shipping, cuts: seq<nat>) {
    && |cuts| > 0 && Chain(s.log, s.sink, cuts)
    && (s.cursor.Some? ==> s.cursor.value == cuts[|cuts| - 1])
  }

  lemma NextWhole(s: Shipping, a: Act, cuts: seq<nat>) returns (cuts': seq<nat>)
    requires Whole(s, cuts)
    ensures Whole(Next(s, a), cuts')
    ensures cuts' == cuts || (a.Ship? && a.outcome != FailedAndLost && cuts' == cuts + [|s.log|])
    ensures a == Ship(Stored) ==> cuts'[|cuts'| - 1] == |s.log|
  {
    hide Chain, HighWater;
    ChainBounds(s.log, s.sink, cuts);
    cuts' := cuts;
    match a
    case Append(events) => ChainGrows(s.log, s.sink, cuts, events);
    case LoseCache =>
    case Ship(outcome) =>
      ChainHighWater(s.log, s.sink, cuts);
      if From(s) < |s.log| && outcome != FailedAndLost {
        ChainExtends(s.log, s.sink, cuts);
        cuts' := cuts + [|s.log|];
      }
  }

  lemma ChainBounds(log: seq<Event>, sink: Sink, cuts: seq<nat>)
    requires Chain(log, sink, cuts)
    ensures |cuts| > 0 && cuts[|cuts| - 1] <= |log| && Cuts(cuts)
  {
  }

  ghost function After(s: Shipping, acts: seq<Act>): Shipping {
    if acts == [] then s else Next(After(s, acts[..|acts| - 1]), acts[|acts| - 1])
  }

  const NEW := Shipping([], map[], None)

  /** Whatever the sequence of appends, ships, lost caches and failed puts -- landed or not
      -- the sink is a gapless chain of the log's slices from 0. */
  lemma {:induction false} AlwaysGapless(acts: seq<Act>) returns (cuts: seq<nat>)
    ensures Whole(After(NEW, acts), cuts)
  {
    if acts == [] {
      cuts := [0];
    } else {
      cuts := AlwaysGapless(acts[..|acts| - 1]);
      cuts := NextWhole(After(NEW, acts[..|acts| - 1]), acts[|acts| - 1], cuts);
    }
  }

  // ------------------------------------------------------------ restoring

  datatype Restored = Restored(applied: seq<Event>, next: nat, ok: bool)

  /** The outcome of replaying the first n segments of an order: events are applied as they
      are read, and the first segment that does not resume where the last ended is an error. */
  function ReplayFirst(order: seq<Segment>, sink: Sink, n: nat): Restored
    requires n <= |order| && forall s :: s in order ==> s in sink
  {
    if n == 0 then Restored([], 0, true)
    else
      var r := ReplayFirst(order, sink, n - 1);
      var s := order[n - 1];
      if !r.ok then r
      else if s.lo != r.next then r.(ok := false)
      else Restored(r.applied + sink[s], s.hi, true)
  }

  /** An order of the surviving segments as Replay sorts them. */
  ghost predicate InOrder(order: seq<Segment>, sink: Sink) {
    && (forall s :: s in order <==> s in sink)
    && (forall i, j :: 0 <= i < j < |order| ==> order[i] != order[j] && order[i].lo <= order[j].lo)
  }

  /** The first n links of the chain, in order. */
  ghost predicate Leads(cuts: seq<nat>, order: seq<Segment>, n: nat) {
    n <= |order| && n < |cuts| && forall k :: 0 <= k < n ==> order[k] == Link(cuts, k)
  }

  ghost predicate Prefix(applied: seq<Event>, log: seq<Event>) {
    |applied| <= |log| && applied == log[..|applied|]
  }

  lemma LinkStarts(cuts: seq<nat>, i: int, j: int)
    requires Cuts(cuts) && 0 <= i < |cuts| && 0 <= j < |cuts| && cuts[i] == cuts[j]
    ensures i == j
  {
  }

  /** What a replay that has got through n segments has done. */
  ghost predicate Restoring(log: seq<Event>, cuts: seq<nat>, order: seq<Segment>, n: nat, r: Restored) {
    && Prefix(r.applied, log)
    && (r.ok <==> Leads(cuts, order, n))
    && (r.ok ==> n < |cuts| && cuts[n] <= |log| && r.next == cuts[n] && r.applied == log[..cuts[n]])
  }

  /** One more segment: a link of the chain that starts where the last ended is the next. */
  lemma RestoreStep(log: seq<Event>, cuts: seq<nat>, order: seq<Segment>, n: nat, r: Restored, i: int)
    requires Restoring(log, cuts, order, n, r) && r.ok && n < |order|
    requires Cuts(cuts) && cuts[|cuts| - 1] <= |log| && 0 <= i < |cuts| - 1 && order[n] == Link(cuts, i)
    ensures order[n].lo <= order[n].hi <= |log|
    ensures order[n].lo == r.next ==>
              Restoring(log, cuts, order, n + 1, Restored(r.applied + log[order[n].lo..order[n].hi], order[n].hi, true))
    ensures order[n].lo != r.next ==> Restoring(log, cuts, order, n + 1, r.(ok := false))
  {
    LinkEnds(cuts, i);
    if order[n].lo == r.next {
      LinkStarts(cuts, i, n);
      assert log[..cuts[n + 1]] == log[..cuts[n]] + log[cuts[n]..cuts[n + 1]];
    } else {
      if n + 1 < |cuts| {
        assert order[n] != Link(cuts, n);
      }
    }
  }

  lemma {:induction false} ReplaySafe(log: seq<Event>, sink: Sink, cuts: seq<nat>, sub: Sink, order: seq<Segment>,
                                      n: nat)
    requires Chain(log, sink, cuts) && sub.Items <= sink.Items && n <= |order| && forall s :: s in order ==> s in sub
    ensures Restoring(log, cuts, order, n, ReplayFirst(order, sub, n))
  {
    hide Restoring, Chain;
    if n == 0 {
      NothingRestored(log, sink, cuts, order);
    } else {
      ReplaySafe(log, sink, cuts, sub, order, n - 1);
      var r := ReplayFirst(order, sub, n - 1);
      var s := order[n - 1];
      if r.ok {
        assert (s, sub[s]) in sub.Items;
        assert s in sink && sub[s] == sink[s];
        var i := FindLink(log, sink, cuts, s);
        RestoreStep(log, cuts, order, n - 1, r, i);
      } else {
        StaysFailed(log, cuts, order, n - 1, r);
      }
    }
  }

  lemma NothingRestored(log: seq<Event>, sink: Sink, cuts: seq<nat>, order: seq<Segment>)
    requires Chain(log, sink, cuts)
    ensures Restoring(log, cuts, order, 0, Restored([], 0, true))
  {
  }

  lemma StaysFailed(log: seq<Event>, cuts: seq<nat>, order: seq<Segment>, n: nat, r: Restored)
    requires Restoring(log, cuts, order, n, r) && !r.ok && n < |order|
    ensures Restoring(log, cuts, order, n + 1, r)
  {
    assert Leads(cuts, order, n + 1) ==> Leads(cuts, order, n);
  }

  lemma FindLink(log: seq<Event>, sink: Sink, cuts: seq<nat>, s: Segment) returns (i: int)
    requires Chain(log, sink, cuts) && s in sink
    ensures 0 <= i < |cuts| - 1 && s == Link(cuts, i) && Cuts(cuts) && cuts[|cuts| - 1] <= |log|
    ensures s.lo <= s.hi <= |log| && sink[s] == log[s.lo..s.hi]
  {
    i :| 0 <= i < |cuts| - 1 && s == Link(cuts, i);
  }

  /** The survivors are the first j links of the chain. */
  ghost predicate IsChainPrefix(cuts: seq<nat>, sub: Sink, j: int) {
    0 <= j < |cuts| && forall s :: s in sub <==> LeadingLink(cuts, s, j)
  }

  ghost predicate LeadingLink(cuts: seq<nat>, s: Segment, j: int)
    requires j < |cuts|
  {
    exists i :: 0 <= i < j && s == Link(cuts, i)
  }

  lemma {:induction false} SortedPrefixLeads(cuts: seq<nat>, sub: Sink, order: seq<Segment>, j: int, n: nat)
    requires Cuts(cuts) && IsChainPrefix(cuts, sub, j) && InOrder(order, sub) && n <= |order|
    ensures n <= j && Leads(cuts, order, n)
  {
    hide Cuts;
    if n > 0 {
      SortedPrefixLeads(cuts, sub, order, j, n - 1);
      assert order[n - 1] in order;
      var m :| 0 <= m < j && order[n - 1] == Link(cuts, m);
      assert m < n - 1 ==> order[m] == Link(cuts, m);
      var p := Position(cuts, sub, order, j, n - 1);
      CutsOrdered(cuts, m, n - 1);
    }
  }

  /** Where link k stands in an order whose first k are the first k links. */
  lemma Position(cuts: seq<nat>, sub: Sink, order: seq<Segment>, j: int, k: nat) returns (p: nat)
    requires Cuts(cuts) && IsChainPrefix(cuts, sub, j) && InOrder(order, sub) && k < j && Leads(cuts, order, k)
    ensures k <= p < |order| && order[p] == Link(cuts, k) && order[k].lo <= cuts[k]
  {
    hide Cuts;
    assert LeadingLink(cuts, Link(cuts, k), j);
    assert Link(cuts, k) in order;
    p :| 0 <= p < |order| && order[p] == Link(cuts, k);
    if p < k {
      LinkStarts(cuts, p, k);
    }
  }

  lemma CutsOrdered(cuts: seq<nat>, m: int, k: int)
    requires Cuts(cuts) && 0 <= k <= m < |cuts| && cuts[m] <= cuts[k]
    ensures m == k
  {
  }

  lemma PrefixLength(cuts: seq<nat>, sub: Sink, order: seq<Segment>, j: int)
    requires Cuts(cuts) && IsChainPrefix(cuts, sub, j) && InOrder(order, sub)
    ensures |order| == j
  {
    hide Cuts, IsChainPrefix, InOrder;
    SortedPrefixLeads(cuts, sub, order, j, |order|);
    if |order| < j {
      var p := Position(cuts, sub, order, j, |order|);
    }
  }

  /** From any surviving subset of the segments, replay applies only a prefix of the log. It
      succeeds exactly when the survivors are a prefix of the chain, and then it has applied
      exactly what they hold. */
  lemma ReplayExact(log: seq<Event>, sink: Sink, cuts: seq<nat>, sub: Sink, order: seq<Segment>)
    requires Chain(log, sink, cuts) && sub.Items <= sink.Items && InOrder(order, sub)
    ensures var r := ReplayFirst(order, sub, |order|);
            && Prefix(r.applied, log)
            && (r.ok <==> exists j :: IsChainPrefix(cuts, sub, j))
            && (forall j :: IsChainPrefix(cuts, sub, j) ==> cuts[j] <= |log| && r.applied == log[..cuts[j]])
  {
    hide Chain, IsChainPrefix, ReplayFirst;
    var r := ReplayFirst(order, sub, |order|);
    ChainBounds(log, sink, cuts);
    ReplaySafe(log, sink, cuts, sub, order, |order|);
    if r.ok {
      LeadsIsPrefix(cuts, sub, order);
    }
    forall j | IsChainPrefix(cuts, sub, j)
      ensures r.ok && j == |order|
    {
      SortedPrefixLeads(cuts, sub, order, j, |order|);
      PrefixLength(cuts, sub, order, j);
    }
  }

  lemma LeadsIsPrefix(cuts: seq<nat>, sub: Sink, order: seq<Segment>)
    requires Leads(cuts, order, |order|) && forall s :: s in order <==> s in sub
    ensures IsChainPrefix(cuts, sub, |order|)
  {
    forall s
      ensures s in sub <==> LeadingLink(cuts, s, |order|)
    {
      if s in sub {
        var i :| 0 <= i < |order| && order[i] == s;
        assert s == Link(cuts, i);
      }
      if i :| 0 <= i < |order| && s == Link(cuts, i) {
        assert order[i] == s;
      }
    }
  }

  /** With every segment surviving, the restored log is everything shipped. */
  lemma FullRestore(log: seq<Event>, sink: Sink, cuts: seq<nat>, order: seq<Segment>)
    requires Chain(log, sink, cuts) && InOrder(order, sink)
    ensures ReplayFirst(order, sink, |order|).ok
    ensures ReplayFirst(order, sink, |order|).applied == log[..cuts[|cuts| - 1]]
  {
    hide ReplayFirst;
    forall s
      ensures s in sink <==> LeadingLink(cuts, s, |cuts| - 1)
    {
      assert s in sink <==> IsLink(cuts, s);
    }
    assert IsChainPrefix(cuts, sink, |cuts| - 1);
    ReplayExact(log, sink, cuts, sink, order);
  }

  // ------------------------------------------------------------ the shipper

  lemma {:induction false} ReplayGrows(order: seq<Segment>, sink: Sink, n: nat, m: nat)
    requires n <= m <= |order| && forall s :: s in order ==> s in sink
    ensures Prefix(ReplayFirst(order, sink, n).applied, ReplayFirst(order, sink, m).applied)
  {
    if n < m {
      ReplayGrows(order, sink, n, m - 1);
    }
  }

  /** The segments among listed names, of which some may not parse. */
  function Parsed(names: seq<Option<Segment>>): seq<Segment> {
    if names == [] then []
    else
      var n := |names| - 1;
      match names[n]
      case Some(s) => Parsed(names[..n]) + [s]
      case None => Parsed(names[..n])
  }

  predicate Parses(names: seq<Option<Segment>>) {
    forall k :: 0 <= k < |names| ==> names[k].Some?
  }

  lemma {:induction false} ParsedAll(names: seq<Option<Segment>>)
    ensures |Parsed(names)| <= |names|
    ensures |Parsed(names)| == |names| <==> Parses(names)
    ensures Parses(names) ==> forall k :: 0 <= k < |names| ==> Parsed(names)[k] == names[k].value
  {
    if names != [] {
      ParsedAll(names[..|names| - 1]);
    }
  }

  /** As long as names parse, they are the first segments of the order. */
  lemma {:induction false} ParsedFirst(names: seq<Option<Segment>>, n: nat)
    requires n < |names| && Parses(names[..n])
    ensures n <= |Parsed(names)|
    ensures names[n].Some? ==> n < |Parsed(names)| && Parsed(names)[n] == names[n].value
  {
    var m := |names| - 1;
    if n < m {
      assert names[..m][..n] == names[..n];
      ParsedFirst(names[..m], n);
    } else {
      ParsedAll(names[..m]);
    }
  }

  /** What a replay of the listed names ends with: whatever fails, only a prefix was applied,
      and it succeeds exactly when nothing fails. */
  ghost predicate Replayed(names: seq<Option<Segment>>, sink: Sink, readable: set<Segment>, accepts: nat,
                           applied: seq<Event>, ok: bool)
    requires InOrder(Parsed(names), sink)
  {
    var order := Parsed(names);
    var r := ReplayFirst(order, sink, |order|);
    && Prefix(applied, r.applied) && (ok ==> applied == r.applied)
    && (ok <==> Parses(names) && r.ok && |r.applied| <= accepts && forall s :: s in order ==> s in readable)
  }

  /** ... and after n of them, with nothing failed yet. */
  ghost predicate ReplayedFirst(names: seq<Option<Segment>>, sink: Sink, readable: set<Segment>, accepts: nat, n: nat,
                                applied: seq<Event>, next: nat)
    requires InOrder(Parsed(names), sink)
  {
    var order := Parsed(names);
    && n <= |names| && Parses(names[..n]) && n <= |order|
    && ReplayFirst(order, sink, n) == Restored(applied, next, true)
    && |applied| <= accepts && forall k :: 0 <= k < n ==> order[k] in readable
  }

  lemma ReplayBegins(names: seq<Option<Segment>>, sink: Sink, readable: set<Segment>, accepts: nat)
    requires InOrder(Parsed(names), sink)
    ensures ReplayedFirst(names, sink, readable, accepts, 0, [], 0)
  {
  }

  lemma ReplayEnds(names: seq<Option<Segment>>, sink: Sink, readable: set<Segment>, accepts: nat,
                   applied: seq<Event>, next: nat)
    requires InOrder(Parsed(names), sink)
    requires ReplayedFirst(names, sink, readable, accepts, |names|, applied, next)
    ensures Replayed(names, sink, readable, accepts, applied, true)
  {
    hide Parsed, ReplayFirst, InOrder;
    assert names[..|names|] == names;
    ParsedAll(names);
  }

  /** A name that does not parse, a segment out of turn and one that cannot be read stop it. */
  lemma ReplayStops(names: seq<Option<Segment>>, sink: Sink, readable: set<Segment>, accepts: nat, n: nat,
                    applied: seq<Event>, next: nat)
    requires InOrder(Parsed(names), sink)
    requires ReplayedFirst(names, sink, readable, accepts, n, applied, next) && n < |names|
    requires names[n].None? || names[n].value.lo != next || names[n].value !in readable
    ensures Replayed(names, sink, readable, accepts, applied, false)
  {
    hide Parsed, ReplayFirst;
    var order := Parsed(names);
    ParsedFirst(names, n);
    ReplayGrows(order, sink, n, |order|);
    if names[n].Some? {
      assert order[n] == names[n].value && order[n] in order;
      ReplayOne(order, sink, n);
      if order[n].lo != next {
        ReplayStuck(order, sink, n + 1, |order|);
      }
    }
  }

  /** A segment in turn is replayed, or the callback refuses one of its events. */
  lemma ReplayGoesOn(names: seq<Option<Segment>>, sink: Sink, readable: set<Segment>, accepts: nat, n: nat,
                     applied: seq<Event>, next: nat)
    requires InOrder(Parsed(names), sink)
    requires ReplayedFirst(names, sink, readable, accepts, n, applied, next) && n < |names| && names[n].Some?
    requires names[n].value.lo == next && names[n].value in readable
    ensures var s := names[n].value;
            && s in sink
            && (|applied| + |sink[s]| <= accepts ==>
                  ReplayedFirst(names, sink, readable, accepts, n + 1, applied + sink[s], s.hi))
            && (|applied| + |sink[s]| > accepts ==>
                  Replayed(names, sink, readable, accepts, applied + sink[s][..accepts - |applied|], false))
  {
    hide Parsed, ReplayFirst;
    var order := Parsed(names);
    ParsedFirst(names, n);
    var s := names[n].value;
    assert order[n] == s && s in order;
    ReplayOne(order, sink, n);
    ReplayGrows(order, sink, n + 1, |order|);
    if |applied| + |sink[s]| > accepts {
      StoppedShort(applied, sink[s], accepts - |applied|, ReplayFirst(order, sink, |order|).applied);
    }
  }

  /** Read segments in order, applying events as they come. A listed name may not parse,
      segments outside readable cannot be fetched or decoded, and the callback refuses an event
      after it took accepts. */
  method Replay(names: seq<Option<Segment>>, sink: Sink, readable: set<Segment>, accepts: nat)
    returns (applied: seq<Event>, ok: bool)
    requires InOrder(Parsed(names), sink)
    ensures Replayed(names, sink, readable, accepts, applied, ok)
  {
    hide Replayed, ReplayedFirst, Parsed, InOrder;
    applied := [];
    var next := 0;
    ReplayBegins(names, sink, readable, accepts);
    for n := 0 to |names|
      invariant ReplayedFirst(names, sink, readable, accepts, n, applied, next) && |applied| <= accepts
    {
      if names[n].None? || names[n].value.lo != next || names[n].value !in readable {
        ReplayStops(names, sink, readable, accepts, n, applied, next);
        return applied, false;
      }
      var s := names[n].value;
      ReplayGoesOn(names, sink, readable, accepts, n, applied, next);
      applied, ok := ApplyEvents(applied, sink[s], accepts);
      if !ok {
        return;
      }
      next := s.hi;
    }
    ReplayEnds(names, sink, readable, accepts, applied, next);
    ok := true;
  }

  /** Hand events to the callback until it refuses one. */
  method ApplyEvents(before: seq<Event>, events: seq<Event>, accepts: nat) returns (applied: seq<Event>, ok: bool)
    requires |before| <= accepts
    ensures ok <==> |before| + |events| <= accepts
    ensures applied == before + if ok then events else events[..accepts - |before|]
  {
    applied := before;
    for i := 0 to |events|
      invariant applied == before + events[..i] && |applied| <= accepts
    {
      if |applied| == accepts {
        return applied, false;
      }
      applied := applied + [events[i]];
    }
    ok := true;
  }

  lemma ReplayOne(order: seq<Segment>, sink: Sink, n: nat)
    requires n < |order| && (forall s :: s in order ==> s in sink) && ReplayFirst(order, sink, n).ok
    ensures var r := ReplayFirst(order, sink, n);
            ReplayFirst(order, sink, n + 1) ==
            if order[n].lo == r.next then Restored(r.applied + sink[order[n]], order[n].hi, true) else r.(ok := false)
  {
  }

  lemma StoppedShort(before: seq<Event>, events: seq<Event>, i: nat, all: seq<Event>)
    requires i < |events| && Prefix(before + events, all)
    ensures Prefix(before + events[..i], all) && |before + events[..i]| < |all|
  {
    assert before + events == before + events[..i] + events[i..];
    assert all[..|before| + i] == (before + events)[..|before| + i];
  }

  lemma {:induction false} ReplayStuck(order: seq<Segment>, sink: Sink, n: nat, m: nat)
    requires n <= m <= |order| && (forall s :: s in order ==> s in sink) && !ReplayFirst(order, sink, n).ok
    ensures ReplayFirst(order, sink, m) == ReplayFirst(order, sink, n)
  {
    if n < m {
      ReplayStuck(order, sink, n, m - 1);
    }
  }

  method DeriveCursor(sink: Sink) returns (m: nat)
    ensures m == HighWater(sink)
  {
    m := 0;
    var todo := sink.Keys;
    while todo != {}
      invariant todo <= sink.Keys
      invariant forall s :: s in sink && s !in todo ==> s.hi <= m
      invariant m == 0 || exists s :: s in sink && s.hi == m
      decreases |todo|
    {
      var s :| s in todo;
      todo := todo - {s};
      if s.hi > m {
        m := s.hi;
      }
    }
    HighWaterUnique(sink, m);
  }

  /** The events after lo, up to and including position hi. */
  method ScanFrom(log: seq<Event>, lo: nat, hi: nat) returns (events: seq<Event>)
    requires lo <= hi <= |log|
    ensures events == log[lo..hi]
  {
    events := [];
    for i := lo to |log|
      invariant events == log[lo..if i < hi then i else hi]
    {
      if i + 1 > hi {
        break;
      }
      events := events + [log[i]];
    }
  }

  class Shipper {
    var log: seq<Event>
    var sink: Sink
    var cursor: Option<nat>

    ghost function State(): Shipping
      reads this
    {
      Shipping(log, sink, cursor)
    }

    ghost predicate Valid()
      reads this
    {
      exists cuts :: Whole(State(), cuts)
    }

    constructor ()
      ensures State() == NEW && Valid()
    {
      log, sink, cursor := [], map[], None;
      new;
      assert Whole(State(), [0]);
    }

    method AppendEvents(events: seq<Event>)
      requires Valid()
      modifies this
      ensures Valid() && State() == Next(old(State()), Append(events))
    {
      ghost var cuts :| Whole(State(), cuts);
      ghost var cuts' := NextWhole(State(), Append(events), cuts);
      log := log + events;
      assert Whole(State(), cuts');
    }

    method LastShipped() returns (lo: nat)
      modifies this`cursor
      ensures lo == From(old(State())) && cursor == Some(lo)
    {
      match cursor {
        case Some(v) => lo := v;
        case None => lo := DeriveCursor(sink);
      }
      cursor := Some(lo);
    }

    /** Export everything since the last segment as one more; outcome is what the put does. */
    method Ship(outcome: Outcome) returns (shipped: nat, ok: bool)
      requires Valid()
      modifies this
      ensures Valid() && State() == Next(old(State()), Act.Ship(outcome))
      ensures ok ==> cursor == Some(HighWater(sink)) && HighWater(sink) == |log|
      ensures ok ==> shipped == |log| - HighWater(old(sink))
      ensures !ok ==> shipped == 0 && outcome != Stored && cursor == None
    {
      hide Chain, HighWater, Cuts;
      ghost var cuts :| Whole(State(), cuts);
      ghost var cuts' := NextWhole(State(), Act.Ship(outcome), cuts);
      ChainHighWater(log, sink, cuts);
      ChainBounds(log, sink, cuts);
      var lo := LastShipped();
      var current := |log|;
      if current <= lo {
        assert Whole(State(), cuts');
        return 0, true;
      }
      var events := ScanFrom(log, lo, current);
      assert log[lo..current] == log[lo..];
      if outcome != FailedAndLost {
        sink := sink[Segment(lo, current) := events];
      }
      if outcome != Stored {
        cursor := None;
        assert Whole(State(), cuts');
        return 0, false;
      }
      cursor := Some(current);
      assert Whole(State(), cuts');
      ChainHighWater(log, sink, cuts');
      return |events|, true;
    }
  }
}
