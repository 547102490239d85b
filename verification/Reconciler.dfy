/** Ingest of embedded relationships: each entity-state record lists the complete set of
    edges its speaker asserts on the source, and what is no longer listed is retracted. The
    assertion sets advance as the batch is classified and are rolled back when its append
    fails. */
module Reconciler {
  import opened Text
  import opened Model
  import opened ChangeEngine
  import opened Overlay
  import opened EngineSteps
  import opened EngineAppends
  import opened EngineRuns

  /** A collection method of a producer, speaking of one source entity. */
  datatype SourceKey = SourceKey(producer: Str, scope: Str, source: Identity)

  /** An edge within its source. */
  datatype EdgeKey = EdgeKey(typ: Str, dst: Identity)

  type Asserted = map<EdgeKey, RelationObs>
  type State = map<SourceKey, Asserted>

  datatype Record =
    | StateRecord(entity: EntityObs, edges: seq<RelationObs>)
    | DeleteRecord(entity: EntityObs)

  /** A batch names a scope, then the records collected under it. */
  datatype Item = Scope(name: Str, at: Time) | Rec(record: Record, now: Time)

  datatype Undo = Restore(key: SourceKey, prev: Asserted) | Forget(key: SourceKey)

  function EdgeKeyOf(o: RelationObs): EdgeKey {
    EdgeKey(o.typ, o.dst)
  }

  function KeyOf(rec: Record, scope: Str): SourceKey {
    SourceKey(rec.entity.producer, scope, rec.entity.ident)
  }

  /** The set a list of edges asserts; a repeated edge counts as last listed. */
  function Wanted(edges: seq<RelationObs>): Asserted {
    if edges == [] then map[]
    else Wanted(edges[..|edges| - 1])[EdgeKeyOf(edges[|edges| - 1]) := edges[|edges| - 1]]
  }

  /** Edge i is listed with k's type and target. */
  predicate ListedAt(edges: seq<RelationObs>, k: EdgeKey, i: int) {
    0 <= i < |edges| && edges[i].typ == k.typ && edges[i].dst == k.dst
  }

  /** ... and is the last of those. */
  ghost predicate LastListed(edges: seq<RelationObs>, k: EdgeKey, i: int) {
    ListedAt(edges, k, i) && forall j :: i < j ==> !ListedAt(edges, k, j)
  }

  /** An edge is wanted exactly when one of its type and target is listed, and as last listed. */
  lemma {:induction false} WantedExact(edges: seq<RelationObs>, k: EdgeKey)
    ensures k in Wanted(edges) <==> exists i :: ListedAt(edges, k, i)
    ensures k in Wanted(edges) ==> exists i :: LastListed(edges, k, i) && Wanted(edges)[k] == edges[i]
  {
    if edges != [] {
      var n := |edges| - 1;
      WantedExact(edges[..n], k);
      ListedEarlier(edges, k);
      hide ListedAt;
      if EdgeKeyOf(edges[n]) == k {
        assert LastListed(edges, k, n);
      } else if k in Wanted(edges[..n]) {
        var i :| LastListed(edges[..n], k, i) && Wanted(edges[..n])[k] == edges[..n][i];
        assert LastListed(edges, k, i);
      }
    }
  }

  lemma ListedEarlier(edges: seq<RelationObs>, k: EdgeKey)
    requires edges != []
    ensures var n := |edges| - 1;
            && (ListedAt(edges, k, n) <==> EdgeKeyOf(edges[n]) == k)
            && (forall i :: i != n ==> (ListedAt(edges, k, i) <==> ListedAt(edges[..n], k, i)))
            && (forall i :: ListedAt(edges[..n], k, i) ==> 0 <= i < n && edges[..n][i] == edges[i])
            && (forall i :: ListedAt(edges, k, i) ==> i <= n)
  {
  }

  // ------------------------------------------------------------ assertion sets

  function Listed(state: State, sk: SourceKey): Asserted {
    if sk in state then state[sk] else map[]
  }

  /** An empty set is not kept. */
  function Advance(state: State, sk: SourceKey, want: Asserted): State {
    if want == map[] then state - {sk} else state[sk := want]
  }

  function Recorded(state: State, rec: Record, scope: Str): State {
    match rec
    case StateRecord(_, edges) => Advance(state, KeyOf(rec, scope), Wanted(edges))
    case DeleteRecord(_) => state - {KeyOf(rec, scope)}
  }

  function UndoFor(state: State, sk: SourceKey): Undo {
    if sk in state then Restore(sk, state[sk]) else Forget(sk)
  }

  /** What undoes a record; forgetting nothing needs no undo. */
  function UndoOf(state: State, rec: Record, scope: Str): seq<Undo> {
    if rec.DeleteRecord? && KeyOf(rec, scope) !in state then [] else [UndoFor(state, KeyOf(rec, scope))]
  }

  function Undone(state: State, u: Undo): State {
    match u
    case Restore(sk, prev) => state[sk := prev]
    case Forget(sk) => state - {sk}
  }

  /** Run the undos, most recent first. */
  function RollBack(state: State, undo: seq<Undo>): State
    decreases |undo|
  {
    if undo == [] then state
    else RollBack(Undone(state, undo[|undo| - 1]), undo[..|undo| - 1])
  }

  /** The scope in force after some items. */
  function ScopeOf(items: seq<Item>): Str {
    if items == [] then []
    else match items[|items| - 1]
      case Scope(name, _) => name
      case Rec(_, _) => ScopeOf(items[..|items| - 1])
  }

  function StateAfter(state: State, items: seq<Item>): State {
    if items == [] then state
    else
      var n := |items| - 1;
      var s := StateAfter(state, items[..n]);
      match items[n]
      case Scope(_, _) => s
      case Rec(rec, _) => Recorded(s, rec, ScopeOf(items[..n]))
  }

  function UndoAll(state: State, items: seq<Item>): seq<Undo> {
    if items == [] then []
    else
      var n := |items| - 1;
      UndoAll(state, items[..n]) +
      match items[n]
      case Scope(_, _) => []
      case Rec(rec, _) => UndoOf(StateAfter(state, items[..n]), rec, ScopeOf(items[..n]))
  }

  lemma UndoneRestores(state: State, rec: Record, scope: Str)
    ensures RollBack(Recorded(state, rec, scope), UndoOf(state, rec, scope)) == state
  {
    var sk := KeyOf(rec, scope);
    var next := Recorded(state, rec, scope);
    assert next - {sk} == state - {sk};
    if sk in state {
      assert next[sk := state[sk]] == state;
    } else {
      assert state - {sk} == state;
    }
    var u := UndoOf(state, rec, scope);
    if u != [] {
      assert u[..0] == [];
    }
  }

  lemma {:induction false} RollBackConcat(state: State, a: seq<Undo>, b: seq<Undo>)
    ensures RollBack(state, a + b) == RollBack(RollBack(state, b), a)
    decreases |b|
  {
    if b == [] {
      assert a + b == a;
    } else {
      var n := |b| - 1;
      assert (a + b)[..|a| + n] == a + b[..n];
      RollBackConcat(Undone(state, b[n]), a, b[..n]);
    }
  }

  /** Rolling a batch back restores every assertion set, however often the batch spoke of
      the same source. */
  lemma {:induction false} RollbackRestores(state: State, items: seq<Item>)
    ensures RollBack(StateAfter(state, items), UndoAll(state, items)) == state
  {
    if items != [] {
      var n := |items| - 1;
      var s := StateAfter(state, items[..n]);
      RollbackRestores(state, items[..n]);
      match items[n]
      case Scope(_, _) => assert UndoAll(state, items) == UndoAll(state, items[..n]);
      case Rec(rec, _) =>
        var scope := ScopeOf(items[..n]);
        RollBackConcat(Recorded(s, rec, scope), UndoAll(state, items[..n]), UndoOf(s, rec, scope));
        UndoneRestores(s, rec, scope);
    }
  }

  /** What the last record of a batch about a source key listed, if there is one. */
  function LastWord(items: seq<Item>, sk: SourceKey): Option<Asserted> {
    if items == [] then None
    else
      var n := |items| - 1;
      match items[n]
      case Scope(_, _) => LastWord(items[..n], sk)
      case Rec(rec, _) =>
        if SourceKey(rec.entity.producer, ScopeOf(items[..n]), rec.entity.ident) != sk then LastWord(items[..n], sk)
        else match rec
          case StateRecord(_, edges) => Some(Wanted(edges))
          case DeleteRecord(_) => Some(map[])
  }

  /** Each set as its last record listed it, and the others alone. */
  function Outcome(state: State, items: seq<Item>, sk: SourceKey): Asserted {
    match LastWord(items, sk)
    case Some(want) => want
    case None => Listed(state, sk)
  }

  lemma {:induction false} LastRecordWins(state: State, items: seq<Item>, sk: SourceKey)
    ensures Listed(StateAfter(state, items), sk) == Outcome(state, items, sk)
  {
    if items != [] {
      LastRecordWins(state, items[..|items| - 1], sk);
    }
  }

  // ------------------------------------------------------------ engine operations

  /** The edges listed before and no longer wanted. */
  function Stale(state: State, sk: SourceKey, edges: seq<RelationObs>): set<EdgeKey> {
    Listed(state, sk).Keys - Wanted(edges).Keys
  }

  function Observes(edges: seq<RelationObs>, now: Time): seq<Timed> {
    seq(|edges|, i requires 0 <= i < |edges| => Timed(ObserveRelation(edges[i]), now))
  }

  /** Removals carry the event time of the record that stopped listing the edge. */
  function Removals(prev: Asserted, gone: seq<EdgeKey>, when: Time, now: Time): seq<Timed>
    requires forall k :: k in gone ==> k in prev
  {
    seq(|gone|, i requires 0 <= i < |gone| => Timed(RemoveRelation(prev[gone[i]].(eventTime := when)), now))
  }

  lemma {:induction false} StepsConcat(s: Engine, a: seq<Timed>, b: seq<Timed>)
    ensures Steps(s, a + b) == Steps(Steps(s, a), b)
  {
    hide Step;
    if b == [] {
      assert a + b == a;
    } else {
      var n := |b| - 1;
      assert (a + b)[..|a| + n] == a + b[..n];
      StepsConcat(s, a, b[..n]);
    }
  }

  lemma StepsSnoc(s: Engine, a: seq<Timed>, t: Timed)
    ensures Steps(s, a + [t]) == Step(Steps(s, a), t.op, t.now)
  {
    hide Step;
    assert (a + [t])[..|a|] == a;
  }

  lemma RemoveNone(s: Engine, prev: Asserted, want: Asserted, when: Time, now: Time)
    ensures Passed(prev, want, prev.Keys, {}) && Visits<EdgeKey>([], {}) && Steps(s, Removals(prev, [], when, now)) == s
  {
  }

  lemma RemoveOneMore(s: Engine, prev: Asserted, gone: seq<EdgeKey>, seen: set<EdgeKey>, k: EdgeKey, when: Time,
                      now: Time)
    requires Visits(gone, seen) && k !in seen && k in prev && forall x :: x in gone ==> x in prev
    ensures Visits(gone + [k], seen + {k})
    ensures Steps(s, Removals(prev, gone + [k], when, now)) ==
            Step(Steps(s, Removals(prev, gone, when, now)), RemoveRelation(prev[k].(eventTime := when)), now)
  {
    hide Step;
    VisitsSnoc(gone, seen, k);
    var t := Timed(RemoveRelation(prev[k].(eventTime := when)), now);
    StepsSnoc(s, Removals(prev, gone, when, now), t);
    assert Removals(prev, gone + [k], when, now) == Removals(prev, gone, when, now) + [t];
  }

  lemma VisitsSnoc<T(!new)>(order: seq<T>, s: set<T>, x: T)
    requires Visits(order, s) && x !in s
    ensures Visits(order + [x], s + {x})
  {
    assert x !in order;
  }

  method ObserveListed(s: Engine, edges: seq<RelationObs>, now: Time) returns (t: Engine, want: Asserted)
    ensures want == Wanted(edges) && t == Steps(s, Observes(edges, now))
  {
    hide Step;
    t, want := s, map[];
    for i := 0 to |edges|
      invariant want == Wanted(edges[..i]) && t == Steps(s, Observes(edges[..i], now))
    {
      assert edges[..i + 1][..i] == edges[..i];
      want := want[EdgeKeyOf(edges[i]) := edges[i]];
      t := Step(t, ObserveRelation(edges[i]), now);
      StepsSnoc(s, Observes(edges[..i], now), Timed(ObserveRelation(edges[i]), now));
      assert Observes(edges[..i + 1], now) == Observes(edges[..i], now) + [Timed(ObserveRelation(edges[i]), now)];
    }
    assert edges[..|edges|] == edges;
  }

  /** The stale edges go in whatever order the map yields them. */
  method RemoveUnlisted(s: Engine, prev: Asserted, want: Asserted, when: Time, now: Time)
    returns (t: Engine, ghost gone: seq<EdgeKey>)
    ensures Visits(gone, prev.Keys - want.Keys) && (forall k :: k in gone ==> k in prev)
    ensures t == Steps(s, Removals(prev, gone, when, now))
    ensures exists order :: Visits(order, prev.Keys - want.Keys) && (forall k :: k in order ==> k in prev)
              && t == Steps(s, Removals(prev, order, when, now))
  {
    hide Step, Visits, Steps, Removals, Passed;
    t, gone := s, [];
    ghost var seen: set<EdgeKey> := {};
    var todo := prev.Keys;
    RemoveNone(s, prev, want, when, now);
    while todo != {}
      invariant todo <= prev.Keys && Passed(prev, want, todo, seen)
      invariant Visits(gone, seen) && forall k :: k in gone ==> k in prev
      invariant t == Steps(s, Removals(prev, gone, when, now))
      decreases |todo|
    {
      var k :| k in todo;
      PassOne(prev, want, todo, seen, k);
      todo := todo - {k};
      if k !in want {
        RemoveOneMore(s, prev, gone, seen, k, when, now);
        t := Step(t, RemoveRelation(prev[k].(eventTime := when)), now);
        gone, seen := gone + [k], seen + {k};
      }
    }
    PassedAll(prev, want, seen);
  }

  lemma PassedAll(prev: Asserted, want: Asserted, seen: set<EdgeKey>)
    requires Passed(prev, want, {}, seen)
    ensures seen == prev.Keys - want.Keys
  {
  }

  lemma PassOne(prev: Asserted, want: Asserted, todo: set<EdgeKey>, seen: set<EdgeKey>, k: EdgeKey)
    requires Passed(prev, want, todo, seen) && k in todo && k in prev
    ensures k !in seen && Passed(prev, want, todo - {k}, if k in want then seen else seen + {k})
  {
  }

  ghost predicate Passed(prev: Asserted, want: Asserted, todo: set<EdgeKey>, seen: set<EdgeKey>) {
    forall k :: k in seen <==> k in prev && k !in todo && k !in want
  }

  /** What an item tells the engine: its scope; or the deletion; or the entity, then the edges it
      lists in order, then, at the record's own time, the removal of each edge its speaker had
      listed before and lists no more. */
  ghost predicate RoutedAs(state: State, item: Item, scope: Str, ops: seq<Timed>) {
    match item
    case Scope(name, at) => ops == [Timed(SetScope(name), at)]
    case Rec(DeleteRecord(entity), now) => ops == [Timed(DeleteEntity(entity), now)]
    case Rec(StateRecord(entity, edges), now) =>
      var prev := Listed(state, SourceKey(entity.producer, scope, entity.ident));
      exists gone :: Visits(gone, prev.Keys - Wanted(edges).Keys) &&
        ops == [Timed(ObserveEntity(entity), now)]
               + (Observes(edges, now) + Removals(prev, gone, entity.eventTime, now))
  }

  /** ... and what a batch does, item by item. */
  ghost predicate Routed(state: State, items: seq<Item>, ops: seq<Timed>) {
    if items == [] then ops == []
    else
      var n := |items| - 1;
      exists cut :: 0 <= cut <= |ops| && Routed(state, items[..n], ops[..cut])
        && RoutedAs(StateAfter(state, items[..n]), items[n], ScopeOf(items[..n]), ops[cut..])
  }

  lemma RoutedNone(state: State, items: seq<Item>, s: Engine)
    ensures Routed(state, items[..0], []) && Steps(s, []) == s
  {
  }

  lemma ScopeRouted(state: State, name: Str, at: Time, scope: Str)
    ensures RoutedAs(state, Scope(name, at), scope, [Timed(SetScope(name), at)])
  {
  }

  lemma RoutedSnoc(state: State, items: seq<Item>, i: nat, ops: seq<Timed>, more: seq<Timed>)
    requires i < |items| && Routed(state, items[..i], ops)
    requires RoutedAs(StateAfter(state, items[..i]), items[i], ScopeOf(items[..i]), more)
    ensures Routed(state, items[..i + 1], ops + more)
  {
    hide RoutedAs;
    assert items[..i + 1][..i] == items[..i];
    assert (ops + more)[..|ops|] == ops && (ops + more)[|ops|..] == more;
  }

  /** The engine, the assertion sets, and the undos registered with the batch under way. */
  class Ingest {
    var eng: Engine
    var state: State
    var undo: seq<Undo>

    constructor (limit: int, ttl: int, bufferTTL: int)
      ensures Sound(eng) && eng.st == NO_STAGED && state == map[] && undo == []
    {
      eng := NewEngine(limit, ttl, bufferTTL);
      state, undo := map[], [];
      NewbornGood(World(NewEngine(limit, ttl, bufferTTL), 0, map[], None), limit, ttl, bufferTTL);
    }

    /** Observe what is listed, remove what no longer is, and remember how to go back. */
    method Reconcile(sk: SourceKey, edges: seq<RelationObs>, when: Time, now: Time) returns (ghost gone: seq<EdgeKey>)
      modifies this
      ensures Visits(gone, Stale(old(state), sk, edges))
      ensures eng == Steps(old(eng), Observes(edges, now) + Removals(Listed(old(state), sk), gone, when, now))
      ensures state == Advance(old(state), sk, Wanted(edges))
      ensures undo == old(undo) + [UndoFor(old(state), sk)]
    {
      hide Steps;
      var before := UndoFor(state, sk);
      var prev := Listed(state, sk);
      var want;
      eng, want := ObserveListed(eng, edges, now);
      eng, gone := RemoveUnlisted(eng, prev, want, when, now);
      StepsConcat(old(eng), Observes(edges, now), Removals(prev, gone, when, now));
      state := if want == map[] then state - {sk} else state[sk := want];
      undo := undo + [before];
    }

    /** Route one record to the engine, then reconcile the edges it lists. */
    method Handle(rec: Record, scope: Str, now: Time) returns (ghost ops: seq<Timed>)
      modifies this
      ensures state == Recorded(old(state), rec, scope)
      ensures undo == old(undo) + UndoOf(old(state), rec, scope)
      ensures eng == Steps(old(eng), ops) && RoutedAs(old(state), Rec(rec, now), scope, ops)
    {
      var sk := KeyOf(rec, scope);
      match rec
      case StateRecord(entity, edges) =>
        eng := Step(eng, ObserveEntity(entity), now);
        StepsSnoc(old(eng), [], Timed(ObserveEntity(entity), now));
        assert [] + [Timed(ObserveEntity(entity), now)] == [Timed(ObserveEntity(entity), now)];
        ghost var gone := Reconcile(sk, edges, entity.eventTime, now);
        ghost var rest := Observes(edges, now) + Removals(Listed(old(state), sk), gone, entity.eventTime, now);
        ops := [Timed(ObserveEntity(entity), now)] + rest;
        StepsConcat(old(eng), [Timed(ObserveEntity(entity), now)], rest);
      case DeleteRecord(entity) =>
        eng := Step(eng, DeleteEntity(entity), now);
        ops := [Timed(DeleteEntity(entity), now)];
        StepsSnoc(old(eng), [], Timed(DeleteEntity(entity), now));
        assert [] + [Timed(DeleteEntity(entity), now)] == [Timed(DeleteEntity(entity), now)];
        if sk in state {
          undo := undo + [Restore(sk, state[sk])];
        }
        state := state - {sk};
    }

    /** Run the registered undos, most recent first. */
    method RunUndos()
      modifies this`state, this`undo
      ensures state == RollBack(old(state), old(undo)) && undo == []
    {
      while undo != []
        invariant RollBack(state, undo) == RollBack(old(state), old(undo))
        decreases |undo|
      {
        var n := |undo| - 1;
        match undo[n] {
          case Restore(sk, prev) => state := state[sk := prev];
          case Forget(sk) => state := state - {sk};
        }
        undo := undo[..n];
      }
    }

    /** Stage every item, in order. */
    method StageAll(items: seq<Item>) returns (ghost ops: seq<Timed>)
      requires undo == []
      modifies this
      ensures Routed(old(state), items, ops) && eng == Steps(old(eng), ops)
      ensures state == StateAfter(old(state), items) && undo == UndoAll(old(state), items)
    {
      hide Steps, RoutedAs, Routed, Step, Recorded, UndoOf;
      ops := [];
      var scope: Str := [];
      RoutedNone(old(state), items, old(eng));
      for i := 0 to |items|
        invariant scope == ScopeOf(items[..i]) && Routed(old(state), items[..i], ops)
        invariant state == StateAfter(old(state), items[..i])
        invariant undo == UndoAll(old(state), items[..i])
        invariant eng == Steps(old(eng), ops)
      {
        assert items[..i + 1][..i] == items[..i] && items[..i + 1][i] == items[i];
        ghost var more;
        match items[i] {
          case Scope(name, at) =>
            scope := name;
            eng := Step(eng, SetScope(name), at);
            more := [Timed(SetScope(name), at)];
            StepsSnoc(old(eng), ops, Timed(SetScope(name), at));
            ScopeRouted(state, name, at, ScopeOf(items[..i]));
          case Rec(rec, now) =>
            more := Handle(rec, scope, now);
            StepsConcat(old(eng), ops, more);
        }
        RoutedSnoc(old(state), items, i, ops, more);
        ops := ops + more;
      }
      assert items[..|items|] == items;
    }

    /** One batch: stage every item, then append. When the append fails nothing remains of
        the batch in the log, the projection, the notifications or any assertion set; when
        it succeeds each set is what its last record listed. */
    method IngestBatch(items: seq<Item>, lands: bool) returns (ok: bool, ghost ops: seq<Timed>)
      requires Sound(eng) && eng.st == NO_STAGED && undo == []
      modifies this
      ensures Sound(eng) && eng.st == NO_STAGED && undo == []
      ensures Routed(old(state), items, ops) && eng == Batch(old(eng), ops, lands)
      ensures !ok ==> eng.log == old(eng).log && eng.g == old(eng).g && eng.notified == old(eng).notified
      ensures !ok ==> state == old(state)
      ensures ok ==> forall sk :: Listed(state, sk) == Outcome(old(state), items, sk)
      ensures ok <==> lands || Steps(old(eng), ops).st.events == []
    {
      hide Sound, Steps, Routed, StateAfter, UndoAll, Outcome, Listed, RollBack;
      ops := StageAll(items);
      ok := lands || eng.st.events == [];
      ghost var staged := eng;
      eng := Flush(eng, lands);
      BatchSettles(old(eng), ops, lands);
      if ok {
        undo := [];
        forall sk
          ensures Listed(state, sk) == Outcome(old(state), items, sk)
        {
          LastRecordWins(old(state), items, sk);
        }
      } else {
        RunUndos();
        RollbackRestores(old(state), items);
      }
    }
  }

  lemma BatchSettles(s: Engine, ops: seq<Timed>, lands: bool)
    requires Sound(s) && s.st == NO_STAGED
    ensures Flush(Steps(s, ops), lands) == Batch(s, ops, lands)
    ensures var t := Batch(s, ops, lands);
            && Sound(t) && t.st == NO_STAGED
            && (!lands ==> t.log == s.log && t.g == s.g && t.notified == s.notified)
  {
    assert s.(st := NO_STAGED) == s;
    BatchKeeps(s, ops, lands);
  }
}
