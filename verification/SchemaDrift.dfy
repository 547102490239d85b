/** The schema URL an entity ends with. Replay takes it from the last event that overwrites
    the entity, or failing that from the first heartbeat that brings it back; a prune keeps
    it exactly when the event it is then taken from carries the same one. */
module SchemaDrift {
  import opened Text
  import opened Model
  import opened EventLog
  import opened Retention
  import P = Projection

  type Schemas = map<EntityId, Str>

  function SchemaStep(sch: Schemas, ev: Event): Schemas {
    match ev
    case EntityEvent(Deleted, e, _, _) => sch - {e.id}
    case EntityEvent(Unchanged, e, _, _) => if e.id in sch then sch else sch[e.id := e.schema]
    case EntityEvent(_, e, _, _) => sch[e.id := e.schema]
    case RelationEvent(_, _, _, _) => sch
  }

  function SchemasFrom(sch: Schemas, log: seq<Event>): Schemas {
    if log == [] then sch else SchemaStep(SchemasFrom(sch, log[..|log| - 1]), log[|log| - 1])
  }

  function SchemasOf(log: seq<Event>): Schemas {
    SchemasFrom(map[], log)
  }

  // ------------------------------------------------------------ the projection's schemas

  ghost predicate Bears(live: map<EntityId, Entity>, sch: Schemas) {
    live.Keys == sch.Keys && forall id :: id in live ==> live[id].schema == sch[id]
  }

  lemma BearsStep(live: map<EntityId, Entity>, sch: Schemas, ev: Event)
    requires Bears(live, sch)
    ensures Bears(P.LiveStep(live, ev), SchemaStep(sch, ev))
  {
    if ev.EntityEvent? && ev.change == Deleted {
      assert P.LiveStep(live, ev).Keys == live.Keys - {ev.entity.id};
    }
  }

  lemma NothingBorne(limit: int, ttl: int)
    ensures Bears(P.Live(P.NewGraph(limit, ttl)), map[])
  {
    assert P.Live(P.NewGraph(limit, ttl)) == map[];
  }

  /** A replay of a tolerated log gives every live entity the schema of the fold. */
  lemma {:induction false} SchemasProjected(log: seq<Event>, limit: int, ttl: int)
    requires AllowedLog(log)
    ensures Bears(P.Live(P.ApplyAll(P.NewGraph(limit, ttl), log)), SchemasOf(log))
  {
    hide Bears, SchemaStep, P.Apply, P.LiveStep;
    if log == [] {
      NothingBorne(limit, ttl);
    } else {
      var n := |log| - 1;
      SchemasProjected(log[..n], limit, ttl);
      var g := P.ApplyAll(P.NewGraph(limit, ttl), log[..n]);
      P.NewGraphProjects(limit, ttl);
      P.ReplayProjects(P.NewGraph(limit, ttl), EMPTY, log[..n]);
      P.FitsReplay(g, Replay(log[..n]), log[n]);
      P.ApplyMovesLive(g, log[n]);
      BearsStep(P.Live(g), SchemasOf(log[..n]), log[n]);
    }
  }

  // ------------------------------------------------------------ where a schema comes from

  /** The kept event that gives the entity its schema, or -1. */
  function Carrier(log: seq<Event>, keep: seq<bool>, id: EntityId): (c: int)
    requires |keep| == |log|
    ensures -1 <= c < |log|
    ensures c >= 0 ==> keep[c] && log[c].EntityEvent? && log[c].entity.id == id && log[c].change != Deleted
  {
    if log == [] then -1
    else
      var n := |log| - 1;
      var c := Carrier(log[..n], keep[..n], id);
      if !keep[n] || ThingOf(log[n]) != Ent(id) then c
      else match EffectOf(log[n])
        case Put(_) => n
        case Drop => -1
        case Touch(_) => if c >= 0 then c else n
  }

  /** A kept event of the entity. */
  predicate KeptOf(log: seq<Event>, keep: seq<bool>, id: EntityId, k: int)
    requires |keep| == |log|
  {
    0 <= k < |log| && keep[k] && ThingOf(log[k]) == Ent(id)
  }

  /** What is kept after the carrier are heartbeats; and if the carrier is one itself, what is
      kept before it belongs to an earlier life. */
  ghost predicate Carries(log: seq<Event>, keep: seq<bool>, id: EntityId, c: int)
    requires |keep| == |log|
  {
    && KeptOf(log, keep, id, c) && !EffectOf(log[c]).Drop?
    && (forall k :: c < k && KeptOf(log, keep, id, k) ==> EffectOf(log[k]).Touch?)
    && (EffectOf(log[c]).Touch? ==> Fresh(log, keep, id, c))
  }

  /** The latest kept event of the entity before c, if any, drops it. */
  ghost predicate Fresh(log: seq<Event>, keep: seq<bool>, id: EntityId, c: int)
    requires |keep| == |log|
  {
    forall j :: j < c && KeptOf(log, keep, id, j) && !EffectOf(log[j]).Drop? ==>
      exists d :: j < d < c && KeptOf(log, keep, id, d) && EffectOf(log[d]).Drop?
  }

  lemma KeptOfPrefix(log: seq<Event>, keep: seq<bool>, id: EntityId)
    requires |keep| == |log| && log != []
    ensures var n := |log| - 1;
            forall k :: KeptOf(log[..n], keep[..n], id, k) <==> k < n && KeptOf(log, keep, id, k)
  {
  }

  /** No carrier: the last kept event of the entity, if any, drops it. */
  lemma {:induction false} CarrierIs(log: seq<Event>, keep: seq<bool>, id: EntityId)
    requires |keep| == |log|
    ensures var c := Carrier(log, keep, id);
            if c >= 0 then Carries(log, keep, id, c) else Fresh(log, keep, id, |log|)
  {
    if log != [] {
      var n := |log| - 1;
      var c0, c := Carrier(log[..n], keep[..n], id), Carrier(log, keep, id);
      CarrierIs(log[..n], keep[..n], id);
      KeptOfPrefix(log, keep, id);
      hide KeptOf, Carrier;
      assert forall k :: 0 <= k < n ==> log[..n][k] == log[k];
      CarrierStep(log, keep, id, c0);
    }
  }

  lemma CarrierStep(log: seq<Event>, keep: seq<bool>, id: EntityId, c0: int)
    requires |keep| == |log| && log != [] && c0 == Carrier(log[..|log| - 1], keep[..|log| - 1], id)
    requires var n := |log| - 1;
             if c0 >= 0 then Carries(log[..n], keep[..n], id, c0) else Fresh(log[..n], keep[..n], id, n)
    ensures var c := Carrier(log, keep, id);
            if c >= 0 then Carries(log, keep, id, c) else Fresh(log, keep, id, |log|)
  {
    var n, c := |log| - 1, Carrier(log, keep, id);
    KeptOfPrefix(log, keep, id);
    assert forall k :: 0 <= k < n ==> log[..n][k] == log[k];
    if KeptOf(log, keep, id, n) && EffectOf(log[n]).Drop? {
      assert c == -1;
    } else if c0 < 0 {
      FreshPrefix(log, keep, id, n);
    } else if c == c0 && EffectOf(log[c]).Touch? {
      FreshPrefix(log, keep, id, c);
    }
  }

  lemma FreshPrefix(log: seq<Event>, keep: seq<bool>, id: EntityId, c: int)
    requires |keep| == |log| && log != [] && c <= |log| - 1 && Fresh(log[..|log| - 1], keep[..|log| - 1], id, c)
    ensures Fresh(log, keep, id, c)
  {
    var n := |log| - 1;
    KeptOfPrefix(log, keep, id);
    forall j | j < c && KeptOf(log, keep, id, j) && !EffectOf(log[j]).Drop?
      ensures exists d :: j < d < c && KeptOf(log, keep, id, d) && EffectOf(log[d]).Drop?
    {
      var d :| j < d < c && KeptOf(log[..n], keep[..n], id, d) && EffectOf(log[..n][d]).Drop?;
      assert KeptOf(log, keep, id, d);
    }
  }

  /** The fold of the kept events takes the schema from the carrier. */
  lemma {:induction false} CarrierGives(log: seq<Event>, keep: seq<bool>, id: EntityId)
    requires |keep| == |log|
    ensures var c, sch := Carrier(log, keep, id), SchemasOf(Select(log, keep));
            (id in sch <==> c >= 0) && (c >= 0 ==> sch[id] == log[c].entity.schema)
  {
    if log != [] {
      var n := |log| - 1;
      CarrierGives(log[..n], keep[..n], id);
      CarrierStepGives(log, keep, id);
      hide Carrier, SchemaStep;
      SelectSchemas(log, keep);
    }
  }

  lemma SelectSchemas(log: seq<Event>, keep: seq<bool>)
    requires |keep| == |log| && log != []
    ensures var n := |log| - 1;
            var was := SchemasOf(Select(log[..n], keep[..n]));
            SchemasOf(Select(log, keep)) == if keep[n] then SchemaStep(was, log[n]) else was
  {
    hide SchemaStep;
    var n := |log| - 1;
    var small := Select(log[..n], keep[..n]);
    if keep[n] {
      assert Select(log, keep) == small + [log[n]];
      assert (small + [log[n]])[..|small|] == small;
    } else {
      assert Select(log, keep) == small;
    }
  }

  /** The carrier and the fold take a kept event alike. */
  lemma CarrierStepGives(log: seq<Event>, keep: seq<bool>, id: EntityId)
    requires |keep| == |log| && log != []
    requires var n := |log| - 1;
             var c, sch := Carrier(log[..n], keep[..n], id), SchemasOf(Select(log[..n], keep[..n]));
             (id in sch <==> c >= 0) && (c >= 0 ==> sch[id] == log[c].entity.schema)
    ensures var n := |log| - 1;
            var was := SchemasOf(Select(log[..n], keep[..n]));
            var c, sch := Carrier(log, keep, id), if keep[n] then SchemaStep(was, log[n]) else was;
            (id in sch <==> c >= 0) && (c >= 0 ==> sch[id] == log[c].entity.schema)
  {
    hide Select, SchemasFrom;
  }

  // ------------------------------------------------------------ baselines

  /** An event that would give no entity another schema. */
  predicate SchemaNoop(sch: Schemas, ev: Event) {
    SchemaStep(sch, ev) == sch
  }

  lemma {:induction false} SchemaNoops(log: seq<Event>, bs: seq<Event>)
    requires forall k :: 0 <= k < |bs| ==> SchemaNoop(SchemasOf(log), bs[k])
    ensures SchemasOf(log + bs) == SchemasOf(log)
  {
    hide SchemaStep;
    if bs == [] {
      assert log + bs == log;
    } else {
      var n := |bs| - 1;
      SchemaNoops(log, bs[..n]);
      assert (log + bs)[..|log| + n] == log + bs[..n];
    }
  }

  /** A baseline repeats the latest event of a live thing, which every prune keeps. */
  lemma BaselineSchema(log: seq<Event>, cutoff: Time, keep: seq<bool>, b: Event)
    requires Prunes(log, cutoff, keep) && BaselineOf(log, cutoff, b)
    ensures SchemaNoop(SchemasOf(Select(log, keep)), b)
  {
    var i :| 0 <= i < |log| && LastAlive(log, i) && b == Baseline(log[i], cutoff);
    assert Protected(log, cutoff, i);
    if b.EntityEvent? {
      var id, c := b.entity.id, Carrier(log, keep, b.entity.id);
      CarrierGives(log, keep, id);
      CarrierIs(log, keep, id);
      hide Carrier, SchemasFrom, Select;
      assert KeptOf(log, keep, id, i);
      assert c < 0 ==> !Fresh(log, keep, id, |log|);
      assert c >= 0;
      assert EffectOf(log[i]).Put? ==> c == i;
    }
  }

  // ------------------------------------------------------------ the theorem

  /** Every event is kept. */
  function All(log: seq<Event>): seq<bool> {
    seq(|log|, _ => true)
  }

  lemma {:induction false} SelectAll(log: seq<Event>)
    ensures Select(log, All(log)) == log
  {
    if log != [] {
      var n := |log| - 1;
      assert All(log)[..n] == All(log[..n]);
      SelectAll(log[..n]);
    }
  }

  /** After a prune a live entity has the schema it had exactly when the surviving event it
      is now taken from carries the same schema as the event it was taken from. */
  lemma SchemaSurvivesIff(log: seq<Event>, cutoff: Time, keep: seq<bool>, bs: seq<Event>, id: EntityId, limit: int,
                          ttl: int)
    requires AllowedLog(log) && Settled(log) && Prunes(log, cutoff, keep) && Baselines(log, cutoff, bs)
    requires Ent(id) in Replay(log).live
    ensures var was, live := Carrier(log, All(log), id), Carrier(log, keep, id);
            var before := P.Live(P.ApplyAll(P.NewGraph(limit, ttl), log));
            var after := P.Live(P.ApplyAll(P.NewGraph(limit, ttl), Select(log, keep) + bs));
            && was >= 0 && live >= 0 && id in before && id in after
            && (after[id].schema == before[id].schema <==> log[live].entity.schema == log[was].entity.schema)
  {
    PrunePreserves(log, cutoff, keep, bs);
    var pruned := Select(log, keep) + bs;
    forall k | 0 <= k < |bs|
      ensures SchemaNoop(SchemasOf(Select(log, keep)), bs[k])
    {
      BaselineSchema(log, cutoff, keep, bs[k]);
    }
    SchemaNoops(Select(log, keep), bs);
    SchemasProjected(log, limit, ttl);
    SchemasProjected(pruned, limit, ttl);
    SelectAll(log);
    CarrierGives(log, All(log), id);
    CarrierGives(log, keep, id);
    LiveProjected(log, id, limit, ttl);
    LiveProjected(pruned, id, limit, ttl);
  }

  lemma LiveProjected(log: seq<Event>, id: EntityId, limit: int, ttl: int)
    requires AllowedLog(log)
    ensures id in P.Live(P.ApplyAll(P.NewGraph(limit, ttl), log)) <==> Ent(id) in Replay(log).live
  {
    P.NewGraphProjects(limit, ttl);
    P.ReplayProjects(P.NewGraph(limit, ttl), EMPTY, log);
  }

  /** In particular when the overwrite that carries it is recent enough to be kept. */
  lemma KeptOverwriteKeepsSchema(log: seq<Event>, keep: seq<bool>, id: EntityId)
    requires |keep| == |log| && Carrier(log, All(log), id) >= 0
    requires EffectOf(log[Carrier(log, All(log), id)]).Put? && keep[Carrier(log, All(log), id)]
    ensures Carrier(log, keep, id) == Carrier(log, All(log), id)
  {
    var c, k := Carrier(log, All(log), id), Carrier(log, keep, id);
    CarrierIs(log, All(log), id);
    CarrierIs(log, keep, id);
    hide Carrier;
    assert KeptOf(log, keep, id, c);
    assert forall j :: KeptOf(log, keep, id, j) ==> KeptOf(log, All(log), id, j);
  }
}
