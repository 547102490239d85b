# Verified model of the Toise graph engine

Toise is an event-sourced graph engine. An append-only log of qualified events is the truth, an
in-memory projection is folded from it, and a change engine turns observations into events: it
classifies them against a batch's staged effects, counts references per speaker (a producer and
the collection method it spoke through), parks edges that arrive before their endpoints, and
expires what nobody re-asserts. Around it stand log compaction, snapshots, log shipping,
annotation synchronisation, and the read side: paging, group walks, blast radius and path search.

This project models that logic in Dafny and proves what it promises, almost always in one of two
forms: a fast, staged or compacted form agrees with the plain fold of the log, or every step of
every run keeps something.

## How it is organised

* `Text`, `Model`, `RelationOrder` -- byte strings, entities, relations, events, and edge order.
* `EventLog` -- the meaning of a log, well-formed logs, and the sublog theorem compaction rests on.
* `Projection`, `Tombstones`, `ProjectionObject` -- the projection as a value, its tombstone cache, and
  the object updated in place.
* `SpeakerKeys`, `CanonicalValue`, `Aliases` -- speaker keys, the canonical value encoding, aliases.
* `ChangeEngine` -- the engine as a state machine over observations, batches and sweeps.
* `Overlay`, `EngineSteps`, `EngineSweep`, `EngineAppends` -- the overlay refines the projection, what
  every operation keeps, exact sweeps, and what the engine appends.
* `Retention`, `RetentionPass`, `SchemaDrift`, `AsOf` -- compaction, the schema it keeps, as-of presence.
* `Snapshot`, `SnapshotRestore`, `SnapshotCompaction` -- taking a snapshot, when snapshot plus tail is the
  whole log, and compaction in between.
* `EngineRuns`, `SnapshotRuns`, `WitnessRuns` -- whole runs of batches, sweeps, compactions, snapshots and
  restarts, which of them restart safely, and runs that reach what the guarantees exclude.
* `ObservedState`, `EngineMeaning` -- what observations leave and report, over whole runs, and what single
  decisions mean.
* `Survival`, `EdgeSurvival`, `Promises`, `LivenessRestore` -- reference-counted survival, exactly how long
  entities, edges and equivalences last, and restarts.
* `WakeUps`, `LostWakeUps`, `ParkedFates`, `FailedAppends` -- parked edges: when they keep waiting, when a
  wake-up is lost, what becomes of them, and where failed appends end the guarantees.
* `EngineContracts`, `EngineObject` -- what the engine keeps between any two operations and does for its
  caller, and the engine as the object updated in place by loops that keeps and does it.
* `Reconciler` -- embedded relationships with rollback.
* `ObjectNames`, `SegmentFraming`, `LogShipping`, `AnnotationSync` -- the shared object store.
* `Traversal`, `BlastRadius`, `Paths`, `Paging` -- the read side.

A log is *well-formed* when a create names an id that is not live, an update, heartbeat or delete
names a live id with its identity, an identity has one live owner, and a heartbeat repeats the state
it matched (`EventLog.Emitted`). `EventLog.Allowed` is the weaker form that survives compaction,
where an entity's first event may be any of them. `EngineRuns` proves that the engine only appends
the former and that compaction keeps the latter.

## Where code and comments disagree

The model follows the code.

* `internal/change/engine.go:1207-1211` says that after a failed flush the next sweep self-heals.
  Sweep deletes the reference sets of what it meant to expire before the flush, so the next sweep no
  longer considers them: `WitnessRuns.LeakingRun`. What the next sweep leaves, and that it heals exactly
  when nothing live had lapsed: `FailedAppends.SweepAfterFailed`, `FailedAppends.SelfHealsIff`.
* `internal/change/engine.go:1671-1674` says re-observation repairs the buffer after a failed batch.
  An edge parked because the batch had staged its endpoint's deletion stays parked although the
  endpoint is live: `WitnessRuns.StrandingRun`. The exact condition: `LostWakeUps.BatchUnexposedIff`. An
  edge woken in such a batch is gone from the buffer and not in the log: `WitnessRuns.VanishingRun`.
* Sweep drops lapsed alias claims without re-indexing the parked edges, so a claim that becomes
  unambiguous by another's lapse wakes nobody: `WitnessRuns.LapsingRun`, and later arrivals go unnoticed:
  `WitnessRuns.ExposingRun`. The exact conditions: `LostWakeUps.SweepWaitingIff`,
  `LostWakeUps.SweepUnexposedIff`, and over runs `LostWakeUps.WakefulExact`.
* `internal/projection/graph.go:200-203` says eviction drops the oldest tombstones and skips stale
  queue entries. An entry left stale by a resurrection is not skipped once its id is deleted again,
  so the younger tombstone goes first: `Tombstones.StaleEntryEvictsYounger`. The exact conditions:
  `Tombstones.EvictionOrderExact`, `Tombstones.FullDeleteOrder`.
* Pruning appends its baselines after its scan; an append in between can be undone by them:
  `WitnessRuns.RacingRun`, with the exact condition in `Retention.PruneWithAppends`.
* A delete recorded late across a prune's cutoff can make a later prune lose an entity's presence at times
  both passes should have kept: `AsOf.LateDeleteLosesPresence`. When exactly a pass leaves events in the
  layered form from which `AsOf.PresenceSurvivesPrune` follows: `AsOf.PrunedLayeredIff`.
* A restart applies the last snapshot and then the log's tail (`internal/registry/registry.go:457-483`),
  but pruning never looks at the snapshot's sequence (`internal/store/retention.go:115-241`). When a prune
  has removed the delete of something the snapshot holds, the restart revives it, and if its identity was
  taken meanwhile two live entities share it: `WitnessRuns.MisledRun`. The same goes for an update whose
  last overwrite was pruned. The exact conditions: `EngineRuns.RunExact` for runs, `SnapshotRuns.PruneExact`
  for a prune.
* `cmd/toise-server/main.go:848-854` reads the sequence before sampling the graph so that the tail overlaps
  the sample. The sequence moves with the append (`internal/change/engine.go:1698`), before the events are
  applied (`internal/change/engine.go:1707`), and the snapshot holds no engine lock; so the recorded sequence
  can be ahead of the sample, and a restart can lose what was appended in between: `WitnessRuns.AheadRun`.
  The exact condition: `SnapshotRestore.SequenceAheadOfSample`.
* Pruning does not preserve the schema URL of an entity: `RetentionPass.SchemaCanDrift`. The exact condition:
  `SchemaDrift.SchemaSurvivesIff`.
* The shared annotation store can go back to an older row when two passes overlap:
  `AnnotationSync.StoreCanRegress`. The exact condition: `AnnotationSync.StoreRegressesIff`.

## Model

| member | source | states |
|---|---|---|
| `SpeakerKeys.SpeakerRoundTrip` | internal/change/engine.go:206-211 | splitting the key of any producer and collection method gives them back, whatever bytes they hold, including a producer id that is itself a well-formed key |
| `SpeakerKeys.DistinctSpeakersDistinctKeys` | internal/change/engine.go:174-211 | two speakers share a reference slot exactly when they are the same speaker |
| `SpeakerKeys.ReencodeIffWritten` | internal/change/engine.go:293-307 | re-encoding a decoded key is the identity exactly on the keys the engine writes |
| `CanonicalValue.CanonicalInjective` | internal/model/value.go:168-211 | on well-formed nested values two encodings are equal exactly when the values are, a kvlist counting as a map |
| `CanonicalValue.EncodeCanonical` | internal/model/value.go:168-211 | the recursive encoder writes exactly the specified length-prefixed form |
| `CanonicalValue.AppendCanonical` | internal/model/value.go:151-166 | appending the encoding to a buffer appends exactly that form |
| `CanonicalValue.NoChangeIffSameMap` | internal/change/engine.go:1783-1811 | the attribute diff is empty exactly when the two lists denote the same map |
| `CanonicalValue.DiffAttributes` | internal/change/engine.go:1783-1803 | the diff lists exactly the keys that came, went or moved, and flags a state key among them |
| `EventLog.SublogReplays` | internal/store/retention.go:91-96 | replaying a log without events that are no-ops, or that precede everything kept of their thing, is well-formed and gives every thing that kept an event its full-log state |
| `Projection.ApplyKeepsIndexes` | internal/projection/graph.go:141-334 | every event that keeps its entity's name and sole ownership leaves the hash, tombstone, type and adjacency indexes exact |
| `Projection.ReplayProjects` | internal/projection/graph.go:122-198 | folding any well-formed log -- also one whose first surviving events are updates, heartbeats or deletes -- yields exactly the live things it denotes, with every index exact |
| `Projection.TrackStep` | internal/projection/graph.go:130-198 | an event the engine emits keeps the projection in step with the log, also when the projection remembers ids the pruned log has forgotten |
| `Projection.SameViewSameAnswers` | internal/projection/graph.go:337-350 | two exactly indexed graphs that show the same live things answer every live read alike |
| `Projection.TombstonesAccounted` | internal/projection/graph.go:158-229 | after every event sequence whatever, the tombstone counter equals the deleted set's size, is within the cap, and every tombstone is queued |
| `Projection.EvictAccounts` | internal/projection/graph.go:204-213 | eviction always finds a tombstone to drop and ends within the cap |
| `Projection.PruneAccounts` | internal/projection/graph.go:231-282 | a time-bound prune drops exactly the tombstones whose window is over, keeps the accounting, and bounds the queue by twice the remaining tombstones |
| `Projection.CompactedExact` | internal/projection/graph.go:265-282 | compaction keeps each id still tombstoned exactly once, and nothing else |
| `Tombstones.ResurrectionWindow` | internal/projection/graph.go:158-198 | a deleted entity, also one deleted into a full cache, is resurrectable by identity exactly while the cache remembers it and its window, anchored on the recorded time, is open; putting it back revives the same id |
| `Tombstones.EvictExact` | internal/projection/graph.go:200-213 | eviction pops a prefix of the queue and drops exactly the tombstones with an entry, stale or not, in it |
| `Tombstones.EvictionOrderExact` | internal/projection/graph.go:200-213 | eviction respects the order of deletion exactly when no stale entry is popped ahead of an older tombstone |
| `Tombstones.FullDeleteDropsFirst` | internal/projection/graph.go:158-213 | a delete into a full cache drops exactly one tombstone, that of the first tombstoned queue entry |
| `Tombstones.FullDeleteOrder` | internal/projection/graph.go:158-213 | over every sequence of events from an empty graph, the tombstone a delete into a full cache drops is the one longest dead exactly when it was not deleted, then overtaken by another tombstone's deletion, then deleted again |
| `Tombstones.EvictsOldestFirst` | internal/projection/graph.go:200-213 | in particular, when no tombstoned id is queued twice eviction never drops a tombstone and keeps an older one |
| `Tombstones.StaleEntryEvictsYounger` | internal/projection/graph.go:200-213 | an id deleted, resurrected and deleted again leaves a stale queue entry that makes eviction drop it before an older tombstone |
| `ProjectionObject.Graph.constructor` | internal/projection/graph.go:66-90 | a new graph is the empty value with the default cap for a non-positive limit |
| `ProjectionObject.Graph.PutEntity` | internal/projection/graph.go:284-300 | afterwards the entity is live, its identity matches it and no tombstone, every other live entity is as before, and exact indexes stay exact if the entity fits them |
| `ProjectionObject.Graph.DropTombstone` | internal/projection/graph.go:215-229 | afterwards the id is unreadable and no identity resurrects it, while no live entity and no exact index changed |
| `ProjectionObject.Graph.EvictTombstones` | internal/projection/graph.go:200-213 | the popping loop equals recursive eviction |
| `ProjectionObject.Graph.DeleteEntity` | internal/projection/graph.go:158-191 | unindexing, burying and evicting in place equals the value-level delete |
| `ProjectionObject.Graph.AddRelation` | internal/projection/graph.go:302-334 | afterwards the relation is found from both its ends, every other relation from the ends it was, and exact indexes stay exact |
| `ProjectionObject.Graph.RemoveRelation` | internal/projection/graph.go:314-322 | afterwards the relation is found from neither end, every other relation from the ends it was, and exact indexes stay exact |
| `ProjectionObject.Graph.Apply` | internal/projection/graph.go:129-198 | folds each event kind, keeps the tombstone cache accounted for whatever the event, and the indexes exact for every event that fits |
| `ProjectionObject.Graph.Replay` | internal/projection/graph.go:121-127 | the replay loop equals the fold, hence projects exactly what a well-formed log denotes |
| `ProjectionObject.Graph.CompactTombstones` | internal/projection/graph.go:265-282 | the rewriting loop equals value-level compaction |
| `ProjectionObject.Graph.PruneTombstones` | internal/projection/graph.go:231-263 | the map-order loop equals the set-level prune, returns how many tombstones went, and bounds the queue |
| `Overlay.MatchIsOwner` | internal/change/engine.go:578-597 | at every point of a batch matchIdentity answers with the live owner in the log with the staged events appended, and with nothing when there is none |
| `Overlay.GetEntityIsLive` | internal/change/engine.go:611-620 | getEntity answers with the live state and never presents a dead entity as live |
| `Overlay.GetRelationIsLive` | internal/change/engine.go:623-636 | getRelation answers with the live edge, and only then |
| `Overlay.TouchingIsLive` | internal/change/engine.go:638-662 | listRelationsTouching lists exactly the live edges of an entity, each once |
| `Overlay.TombstoneIsDead` | internal/change/engine.go:600-608 | a tombstone offered for resurrection carries the identity and is not live |
| `Overlay.CommitSound` | internal/change/engine.go:351-379 | staging an event the engine may emit keeps the overlay equal to the projection with all staged events applied |
| `Overlay.FlushSound` | internal/change/engine.go:1685-1710 | a flush that lands makes the staged history durable; one that does not leaves log, projection and notifications as they were; either way the projection shows the log |
| `Overlay.MatchEqualsApplied` | internal/change/engine.go:578-597 | matchIdentity over the overlay equals MatchIdentity of the projection with every staged event applied |
| `Overlay.EntityEqualsApplied` | internal/change/engine.go:611-620 | getEntity over the overlay equals the applied projection's live entity |
| `Overlay.RelationEqualsApplied` | internal/change/engine.go:623-662 | getRelation and listRelationsTouching over the overlay equal those of the applied projection |
| `EngineSteps.TargetEmits` | internal/change/engine.go:724-781 | an observation names the live owner, a dead tombstone of its identity, or a fresh id, and classifies it as an event a well-formed log may append |
| `EngineSteps.TargetNamed` | internal/change/engine.go:724-748 | an observation is about the live owner of its identity; without one, about the tombstone exactly when one is still offered; and otherwise about the next fresh id |
| `EngineSteps.AssertEntitySound` | internal/change/engine.go:724-794 | asserting an entity leaves it live with the identity and the attributes observed, and every other thing as it was |
| `EngineSteps.KillSound` | internal/change/engine.go:1119-1179 | deleting an entity takes exactly its edges, references included, each removed once |
| `EngineSteps.AssertRelationSound` | internal/change/engine.go:1431-1487 | asserting an edge between live entities leaves it live with the attributes observed and every other thing as it was, and records the speaker's reference alone |
| `EngineSteps.AssertRelationReports` | internal/change/engine.go:1469-1487 | an observed edge is reported as added, as changed, or, when its attributes are as they were, not at all, at the time observed |
| `EngineSteps.EndsAreLive` | internal/change/engine.go:1620-1639 | endpoints resolve to live entities, and an endpoint is missing exactly when neither its identity nor its alias substitution is owned |
| `EngineSteps.EndsExact` | internal/change/engine.go:1620-1639 | endpoints resolve to an edge exactly when each stands for a live entity, by its own identity first and its aliases next, and no alias makes the two one |
| `EngineSteps.RetryAllKeeps` | internal/change/engine.go:1492-1529 | a retry pass keeps parked exactly the unexpired edges that still miss an endpoint |
| `EngineSteps.StepsKeep` | internal/change/engine.go:1675-1683 | every operation of every batch keeps the overlay refinement, edges joined to live entities, and the exactness of the count |
| `ObservedState.ObservationDecides` | internal/change/engine.go:724-806 | after an observation its entity has exactly the attributes observed, every other entity is as it was, the speaker holds it exactly as long as promised, and the first staged event says so, with the schema and time observed and the kind of change the attributes made |
| `ObservedState.BatchAsSaid` | internal/change/engine.go:1661-1710 | a batch that lands leaves each identity with the attributes the batch last gave it, or those it had; one that does not land leaves every one as it was |
| `ObservedState.LastObservationDecides` | internal/change/engine.go:1661-1710 | at every point of every safe run, through sweeps, failed appends, compactions, snapshots and restarts, an entity is projected with the attributes of the last landed observation of its identity |
| `ObservedState.SweepReports` | internal/change/engine.go:1245-1344 | a sweep appends only deletions and removals, of things as they were projected, dated at its own time |
| `EngineSweep.SweepExact` | internal/change/engine.go:1201-1365 | a landed pass leaves only non-empty sets of unlapsed references, removes exactly the wholly lapsed entities, their edges and the wholly lapsed edges, nothing twice, and its counts equal the events appended; a failed one changes no live thing and reports zero |
| `EngineSweep.SweepCounted` | internal/change/engine.go:1201-1365 | with nothing lost to failed appends a landed pass keeps live equal to referenced |
| `EngineSweep.DropsDistinct` | internal/change/engine.go:1165-1179 | a tail of drops each of a live thing drops no thing twice |
| `EngineAppends.StepsTimely` | internal/change/engine.go:1641-1683 | over a whole batch the log stays prunable and its owners anchored, and a create names only a tombstone the projection remembers or a fresh id |
| `EngineAppends.NamesAgree` | internal/change/engine.go:724-781 | no event the engine emits gives an entity id it ever used another identity |
| `EngineRuns.BatchKeeps` | internal/change/engine.go:1675-1710 | what a batch appends is what a well-formed log may append; a failed flush leaves log, projection and notifications as before |
| `EngineRuns.RunGood` | internal/change/engine.go:1661-1710 | every world of every run of batches, sweeps, compactions, snapshots and restarts, appends failing or not, keeps the engine sound, edges joined, tombstones accounted, ids named as ever and the log prunable, as long as no restart reads a snapshot its tail does not put right |
| `EngineRuns.ProjectionIsFold` | internal/change/engine.go:1685-1710 | at every point of every run, up to the first restart so misled, the projection answers every live read as a fresh replay of the log would |
| `EngineRuns.RunExact` | internal/registry/registry.go:457-483 | over a whole run the projection answers as the log at every point exactly when every restart that read a snapshot found a tail deciding everything the snapshot had otherwise |
| `EngineRuns.RestartExact` | internal/registry/registry.go:457-483 | one restart of a good world answers as the log exactly under that condition |
| `EngineRuns.NoDanglingEdges` | internal/change/engine.go:1162-1179 | at every point of every such run each projected relation joins two live entities and is found from both |
| `EngineRuns.OneEntityPerIdentity` | internal/change/engine.go:578-597 | at every point of every such run an identity has at most one live entity and matching finds it |
| `EngineRuns.CompactSound` | internal/store/retention.go:91-94 | an engine over a compacted log with the same live things is as sound as before |
| `SnapshotRuns.PruneExact` | internal/store/retention.go:115-241 | after a prune a restart from the stored snapshot is right exactly when the cutoff spared, of everything the snapshot holds and the log has since changed or dropped, a deciding event after the recorded sequence |
| `SnapshotRuns.CarefulIsSafe` | internal/registry/registry.go:457-483 | a run whose prunes spare that much and whose snapshots record no sequence ahead of the sample never restarts wrongly |
| `SnapshotRuns.UnnamedComesBack` | internal/registry/registry.go:468-479 | a thing the snapshot holds and the tail never names comes back as the snapshot had it, whatever the log says |
| `SnapshotRuns.TwoOwners` | internal/registry/registry.go:468-479 | if another entity has taken its identity since, both are live after the restart |
| `WitnessRuns.MisledRun` | internal/registry/registry.go:457-483 | a run -- observe, snapshot, delete, observe again after the grace window, prune past the delete, restart -- ends with two live entities of one identity |
| `WitnessRuns.MisledRunIsUnsafe` | internal/registry/registry.go:457-483 | that run is not a safe one, so the guarantees of safe runs do not extend to every run |
| `WitnessRuns.AheadRun` | cmd/toise-server/main.go:852-864 | a run in which the sequence is recorded after an append and the graph sampled before its event is applied ends, after a restart, without an entity the log holds |
| `Survival.AssertionHolds` | internal/change/engine.go:782-794 | a speaker that asserts an entity holds it until exactly its interval from now, if that is positive and at most a week, and for good otherwise |
| `Survival.EntitySurvivesStep` | internal/change/engine.go:1119-1160 | whatever anyone else observes, deletes or retracts, an entity held by a speaker stays held |
| `Survival.AssertedIsHeld` | internal/change/engine.go:1675-1710 | a batch that lands leaves the entity held by the speaker that last asserted it, exactly that long from the assertion |
| `Survival.EntitySurvivesSweep` | internal/change/engine.go:1219-1277 | a sweep not past the deadline keeps a held entity, whether or not its append lands |
| `Survival.HeldEntitySurvives` | internal/change/engine.go:1201-1277 | over every stretch of every safe run a held entity stays live through every batch its speaker is silent in, failed append, compaction, snapshot, sweep not past the deadline, and restart whose saved liveness knew of it |
| `Survival.LiveIffReferenced` | internal/change/engine.go:1119-1160 | while every append lands, an entity or edge is live exactly when some speaker references it |
| `EdgeSurvival.EdgeAssertionHolds` | internal/change/engine.go:1438-1468 | a speaker whose edge resolves holds it until exactly its interval from now, if that is positive and at most a week; else as long as its own reference on the source; else for good |
| `EdgeSurvival.ObservedEdgeHolds` | internal/change/engine.go:1379-1468 | observing an edge that resolves, also through the equivalence it itself asserts, leaves it live and held by its speaker as long as promised |
| `EdgeSurvival.AssertedEdgeIsHeld` | internal/change/engine.go:1675-1710 | a batch that lands leaves an edge held exactly that long by the speaker whose last word on it was a resolving observation |
| `EdgeSurvival.EdgeSurvivesStep` | internal/change/engine.go:1565-1602 | whatever anyone else says, a held edge stays held while both endpoints live |
| `EdgeSurvival.HeldEdgeSurvives` | internal/change/engine.go:1313-1344 | over every stretch of every safe run a held edge stays projected while both endpoints live, its speaker is silent on it, and no sweep passes the deadline |
| `Promises.ObservedUntil` | internal/change/engine.go:782-794 | an entity its speaker observed and then kept silent on is there after a landed sweep exactly when the sweep is not past the interval, no believable interval was promised, or another speaker's reference is not past |
| `Promises.EdgeReference` | internal/change/engine.go:1436-1468 | the reference recorded on an edge is its own promise, or else the speaker's reference on the source, or else one that never lapses |
| `Promises.EdgeObservedUntil` | internal/change/engine.go:1313-1344 | an edge its speaker observed and then kept silent on is there after a landed sweep exactly when both ends are and that reference, or another speaker's, is not past |
| `Promises.RestartedUntil` | internal/change/engine.go:1890-1982 | after a restart and silence a landed sweep leaves exactly the entities, and between them the edges, with a saved reference not lapsed by then |
| `Promises.RestartForgets` | internal/change/engine.go:1886-1949 | after a restart no edge is parked and an endpoint stands only for the owner of its own identity, until equivalences are observed again |
| `Promises.SweepPrunes` | internal/change/engine.go:1353-1365 | after a sweep, landed or not, no tombstone is left whose window is over |
| `Promises.ClaimExact` | internal/change/alias.go:103-144 | an observation asserts an equivalence exactly when its confidence is at least 0.9 and its identities, of one type and key set, differ in one string value, the target's being the alias |
| `Promises.NoEquivalence` | internal/change/alias.go:234-262 | an observation that asserts none changes no equivalence |
| `Promises.EquivalenceRecorded` | internal/change/alias.go:208-262 | an equivalence on a cycle of at most a week -- the edge's, or else its source's -- is spoken for until two cycles from now, without a cycle for good; on a longer one it is refused; no other claim or speaker changes |
| `Promises.SweptEquivalence` | internal/change/alias.go:83-101 | after any sequence of sweeps an equivalence is in the index exactly when somebody's word for it was not past at any of them |
| `Promises.EquivalenceUntil` | internal/change/alias.go:208-262 | so an observed equivalence is in the index after any sweeps exactly when none was later than two cycles, no cycle was declared, or another speaker's word held at all of them |
| `LivenessRestore.NoMassExpiry` | internal/change/engine.go:1966-1973 | nothing whose speakers keep believable intervals expires within one interval of a restart |
| `LivenessRestore.RestoredLapses` | internal/change/engine.go:1925-1982 | a restored reference has lapsed at t exactly when its saved deadline and, if it has an interval, one interval from the restart are past; a deadline that never passes stays so, and an entity's on more than a week becomes so |
| `LivenessRestore.RestoreLiveness` | internal/change/engine.go:1890-1949 | the restore loops bring back every speaker's reference on everything saved and no other, lapsing exactly then |
| `LivenessRestore.RestoreDeadlines` | internal/change/engine.go:1938-1949 | edges saved with a deadline and no producer come back as the anonymous producer's, lapsing alike, unless they have references |
| `WakeUps.StepAsleep` | internal/change/engine.go:796-804 | after every operation no unexpired parked edge has both endpoints resolvable, directly or through an unambiguous alias, and the buffer is within its cap |
| `WakeUps.FailedFlushAsleep` | internal/change/engine.go:1685-1710 | a failed flush leaves the parked edges asleep exactly when every unexpired one waits for something the log without the staged events does not hold either |
| `WakeUps.BatchAsleepIff` | internal/change/engine.go:1661-1710 | a batch leaves the parked edges asleep exactly when it lands or that condition holds of the state it flushes |
| `WakeUps.BatchAsleep` | internal/change/engine.go:1492-1555 | in particular a failed batch that deletes nothing leaves every parked edge waiting |
| `WakeUps.SweepAsleepIff` | internal/change/engine.go:1294-1361 | a sweep leaves the parked edges asleep exactly when every unexpired one still lacks an owner for an endpoint under the aliases left, and waits on no identity it was not waiting on |
| `WakeUps.SweepAsleep` | internal/change/engine.go:1294-1311 | in particular a sweep that keeps the substitutions parked edges rest on, also when its append fails |
| `WakeUps.NoLostWakeUps` | internal/change/engine.go:1379-1427 | over every safe run of acts meeting those conditions no parked edge's endpoints ever resolve while it stays parked, although arrivals outside the waited-on identities skip the scan |
| `WakeUps.WakeUpsExact` | internal/change/engine.go:1379-1427 | over a whole safe run the parked edges stay waiting and fully indexed exactly when every act meets those conditions |
| `LostWakeUps.BatchUnexposedIff` | internal/change/engine.go:1661-1710 | call an edge exposed when each endpoint resolves or could by an arrival nobody waits on; a batch leaves nothing exposed exactly when it lands or nothing it has parked is exposed over what the log holds |
| `LostWakeUps.SweepWaitingIff` | internal/change/engine.go:1294-1361 | whatever the state, a sweep loses no wake-up exactly when no unexpired parked edge has both endpoints resolving under the entities and aliases left |
| `LostWakeUps.SweepUnexposedIff` | internal/change/engine.go:1294-1361 | and leaves nothing exposed exactly when none has both endpoints resolving or newly waiting on an identity outside the index |
| `LostWakeUps.ExposedIsLost` | internal/change/engine.go:1379-1427 | an exposed edge is lost by one batch that lands, of at most two entity observations |
| `LostWakeUps.LosesNoneIff` | internal/change/engine.go:1379-1427 | no batch that lands loses a wake-up exactly when no unexpired parked edge is exposed |
| `LostWakeUps.WakefulExact` | internal/change/engine.go:1379-1427 | over a whole safe run, no point has a lost wake-up or can come to one by a batch that lands, exactly when no failed batch and no sweep exposes an edge |
| `ParkedFates.StepTakes` | internal/change/engine.go:1379-1531 | an operation takes an edge out of the buffer only when it expired, is the oldest of a full buffer, collapsed onto one entity, or resolved, and then it is live and credited to its own speaker |
| `ParkedFates.ParkedEdgeFate` | internal/change/engine.go:1379-1531 | over every safe run an edge once parked is parked still, expired, given up for room, collapsed, asserted in the log, woken in a batch that did not land, or was parked before a restart |
| `WitnessRuns.VanishingRun` | internal/change/engine.go:1671-1674 | a run in which an edge, woken in a batch that does not land, ends neither parked nor asserted, unexpired |
| `WakeUps.NothingVanishedHolds` | internal/change/alias.go:83-101 | a sweep at which no claim loses its last speaker keeps every substitution |
| `FailedAppends.SweepAfterFailed` | internal/change/engine.go:1207-1277 | after a sweep whose append failed, the next one that lands keeps, of what should have lapsed by then, exactly the entities and edges that had lapsed at the failed one |
| `FailedAppends.SelfHealsIff` | internal/change/engine.go:1207-1211 | so the next sweep makes up for a failed one exactly when nothing live had wholly lapsed at the failed one, save edges that go with an endpoint anyway |
| `FailedAppends.FailedSweepLeaks` | internal/change/engine.go:1245-1277 | a sweep whose append fails leaves a lapsed entity live with no reference, and no later sweep removes it |
| `WitnessRuns.LeakingRun` | internal/change/engine.go:1245-1277 | a run -- observe with an interval, a sweep after it that does not land, a sweep that does -- ends with a live entity nobody references |
| `FailedAppends.FailedDeleteLosesWakeUp` | internal/change/engine.go:1671-1674 | a failed batch that released an entity and asserted an edge to it leaves that edge parked though both endpoints are live |
| `WitnessRuns.StrandingRun` | internal/change/engine.go:1671-1674 | a run -- observe, then release and relate in a batch that does not land -- ends with an unexpired parked edge both of whose endpoints resolve |
| `FailedAppends.LapseDisambiguates` | internal/change/alias.go:83-101 | when one of two disputing claims lapses the other becomes unambiguous without any arrival |
| `FailedAppends.LapseLosesWakeUp` | internal/change/engine.go:1358-1361 | a sweep that lapses such a claim leaves an edge parked though both endpoints have become resolvable |
| `WitnessRuns.LapsingRun` | internal/change/engine.go:1358-1361 | a run with two disputing equivalences of which one lapses ends with an unexpired parked edge both of whose endpoints resolve |
| `WitnessRuns.ExposingRun` | internal/change/engine.go:1294-1361 | a run in which every parked edge waits up to and after a sweep that leaves one exposed, and the next observation loses it |
| `EngineMeaning.ClassificationExact` | internal/change/engine.go:1783-1803 | a re-observation is a heartbeat exactly when nothing moved and a state change exactly when a state key did |
| `EngineMeaning.AliasPointsToSource` | internal/change/alias.go:108-146 | an undisputed believed equivalence makes its target resolve as its source and not the reverse |
| `EngineMeaning.DisputedAliasResolvesNothing` | internal/change/alias.go:65-76 | two canonical values for one alias resolve nothing |
| `EngineMeaning.ExactIdentityWins` | internal/change/alias.go:287-302 | an endpoint whose exact identity is live resolves to its owner, aliases or not |
| `EngineMeaning.LastReleaseRemoves` | internal/change/engine.go:1565-1602 | the last speaker to release an edge removes it and no entity |
| `EngineMeaning.ParkedEdgeCredited` | internal/change/engine.go:1509-1515 | a parked edge that wakes is credited to the speaker that asserted it, and the flushing scope is restored |
| `EngineMeaning.ParkedEdgeReported` | internal/change/engine.go:1509-1515 | it then has the attributes observed when it was parked, and is reported at the time observed |
| `FailedAppends.LastReleaseKills` | internal/change/engine.go:1119-1160 | releasing the last reference leaves the identity without a live owner |
| `Aliases.RecordKeepsExact` | internal/change/alias.go:40-63 | recording keeps the candidates of an alias exactly the claims someone speaks for |
| `Aliases.SweepKeepsExact` | internal/change/alias.go:83-101 | so does a sweep, after which every claim left has an unlapsed speaker |
| `Aliases.SubstituteExact` | internal/change/alias.go:264-285 | an identity is substituted exactly when one of its values has a single canonical candidate, and then in exactly those values |
| `EngineContracts.WholeAnswers` | internal/change/engine.go:1685-1710 | whenever the engine object is valid its projection answers every live read as a fresh replay of the log |
| `EngineContracts.ReleaseMeans` | internal/change/engine.go:1119-1160 | releasing an entity ends the speaker's reference and nothing else exactly when another speaker holds it; otherwise the entity and its edges, and nothing else, go, reported as observed and at the time observed |
| `EngineContracts.EdgeReleaseMeans` | internal/change/engine.go:1565-1602 | releasing an edge ends the speaker's reference and nothing else exactly when another speaker holds it; otherwise the edge alone goes, reported as it was and at the time observed |
| `EngineContracts.EdgeObserveMeans` | internal/change/engine.go:1379-1487 | the edge an observation is about is live with the attributes observed, held exactly as promised, and reported; one missing an endpoint is parked last, for the buffer's time or its source's interval, whichever is longer, the oldest of 4096 giving way |
| `EngineObject.DropAllLapsed` | internal/change/engine.go:1231-1244 | the nested loops drop exactly the lapsed references and list exactly the holders left without any |
| `EngineObject.SweepAliases` | internal/change/alias.go:86-101 | the nested loops over claims equal the specified alias sweep |
| `EngineObject.Engine.RemoveIncidentRelations` | internal/change/engine.go:1162-1179 | the loop removes and counts exactly the edges listed, as the cascade specifies |
| `EngineObject.Engine.RebuildPendingHashes` | internal/change/engine.go:1538-1555 | the loop recomputes exactly the waited-on identities |
| `EngineObject.Engine.FlushPending` | internal/change/engine.go:1489-1529 | the loop retries every parked edge in order under its own scope, as specified |
| `EngineObject.Engine.ObserveEntity` | internal/change/engine.go:724-806 | keeps the engine valid -- overlay sound, edges joined, tombstones accounted, aliases exact -- and leaves the entity with the attributes observed, the others as they were, the speaker's hold exactly as promised, and the event that reports it |
| `EngineObject.Engine.DeleteEntity` | internal/change/engine.go:1119-1160 | keeps the engine valid; ends the speaker's reference alone exactly when another speaker holds the entity, and otherwise removes and reports the entity and its edges and nothing else |
| `EngineObject.Engine.RecordAlias` | internal/change/alias.go:234-262 | keeps the engine valid; a believed equivalence on a cycle of at most a week is spoken for until two cycles from now, or for good without one; any other changes nothing |
| `EngineObject.Engine.ObserveRelation` | internal/change/engine.go:1379-1487 | keeps the engine valid; the edge the observation is about is live with the attributes observed and held exactly as promised or as its source is, an out-of-order one is parked |
| `EngineObject.Engine.RemoveRelation` | internal/change/engine.go:1565-1602 | keeps the engine valid; ends the speaker's reference alone exactly when another speaker holds the edge, and otherwise removes and reports the edge and nothing else |
| `EngineObject.Engine.FlushStaged` | internal/change/engine.go:1685-1710 | keeps the engine valid whether or not the append lands; nothing is applied or notified when it does not |
| `EngineObject.Engine.Batch` | internal/change/engine.go:1661-1683 | keeps the engine valid; log, projection and notifications advance by the same events, which are none when the append fails |
| `EngineObject.Engine.Sweep` | internal/change/engine.go:1201-1365 | keeps the engine valid; the whole pass, in whatever order the maps yield, equals the specified sweep for some visiting orders, counts included |
| `Retention.CoalescePreserves` | internal/store/retention.go:14-89 | collapsing heartbeat runs leaves the log well-formed with the same live things |
| `Retention.PrunePreserves` | internal/store/retention.go:91-265 | pruning with its baselines in any order leaves the log well-formed, prunable again, with the same live things |
| `Retention.PruneWithAppends` | internal/store/retention.go:115-241 | with appends between scan and baselines the meaning is preserved exactly when each baseline restates what is then true |
| `Retention.NoAppendsNoRace` | internal/store/retention.go:115-241 | without such appends the condition holds by itself |
| `RetentionPass.MarkMiddles` | internal/store/retention.go:36-81 | the run detection marks exactly the heartbeats strictly inside a run of their entity's events |
| `RetentionPass.FindLatest` | internal/store/retention.go:129-159 | the scan finds each thing's latest event, whether it lives, and whether it was born by the horizon |
| `RetentionPass.MintBaselines` | internal/store/retention.go:200-218 | exactly one baseline for each live thing born by the horizon whose latest event is newer |
| `RetentionPass.MarkPrunable` | internal/store/retention.go:160-195 | keeps exactly the latest events of live things and those recorded at or after the cutoff |
| `RetentionPass.Store.CoalesceHeartbeats` | internal/store/retention.go:24-89 | drops exactly the run middles and returns how many |
| `RetentionPass.Store.PruneOlderThan` | internal/store/retention.go:115-241 | drops exactly the prunable events, appends the baselines, counts events and bytes dropped, does nothing when nothing is old; a failed baseline append changes nothing, a failed commit leaves only the baselines, and the log means the same in every case |
| `RetentionPass.CompactedLogAnswersAlike` | internal/store/retention.go:91-102 | a fresh replay of a compacted log answers every live read as the full log does |
| `RetentionPass.RaceResurrects` | internal/store/retention.go:115-241 | a delete appended between the scan and the baselines is undone by the baseline the pass mints at its cutoff |
| `WitnessRuns.RacingRun` | internal/store/retention.go:115-241 | a run whose log is such an input: the deleted entity is back after the prune that scanned before the delete |
| `RetentionPass.SchemaCanDrift` | internal/store/retention.go:91-102 | the schema URL is not preserved: pruning can bring a heartbeat's URL to the fore |
| `SchemaDrift.SchemaSurvivesIff` | internal/store/retention.go:91-102 | after a prune a live entity has the schema URL it had exactly when the surviving event it is now taken from -- the last overwrite of its current life, or else its first event -- carries the one it was taken from |
| `SchemaDrift.KeptOverwriteKeepsSchema` | internal/store/retention.go:91-102 | in particular an overwrite that carries the schema and is kept still carries it |
| `SchemaDrift.SchemasProjected` | internal/projection/graph.go:122-198 | a replay gives every live entity the schema of its last overwrite, or of the first heartbeat of its current life |
| `SchemaDrift.CarrierIs` | internal/store/retention.go:91-102 | that event is followed by heartbeats only and, when a heartbeat itself, preceded by nothing of the current life |
| `AsOf.PresenceSurvivesPrune` | internal/projection/asof.go:41-60 | however many passes came before, an entity still live and present in the as-of fold at any instant at or after the cutoff is present after the prune, when what is dated back among its events only restates it |
| `AsOf.PrunedLayeredIff` | internal/store/retention.go:115-241 | a pass leaves the events of a live entity layered exactly when it mints no baseline for it or keeps no delete recorded late across its cutoff |
| `AsOf.PassKeepsLayers` | internal/store/retention.go:115-241 | the same of a pass over a whole log: when what a pass leaves meets the premise of the presence theorem again |
| `AsOf.LateDeleteLosesPresence` | internal/store/retention.go:115-241 | a log with a delete recorded late across the first cutoff, whose second pass loses an entity's presence at a time after both cutoffs |
| `AsOf.AppendKeepsLayers` | internal/projection/asof.go:41-60 | any later event whose times run forward keeps an entity's events layered |
| `AsOf.OrderlyIsLayered` | internal/projection/asof.go:41-60 | an entity whose times always ran forward starts out layered |
| `Snapshot.SnapshotEvents` | internal/projection/graph.go:736-767 | lists every live entity and relation once, in any order, and no tombstone |
| `SnapshotRestore.RestoreExact` | internal/registry/registry.go:457-483 | a snapshot of anything plus the log's tail answers every live read as a replay of the whole log exactly when the tail decides everything on which sample and log disagree |
| `SnapshotRestore.RestoreEqualsReplay` | internal/registry/registry.go:457-483 | in particular for every recorded sequence not beyond the sampled prefix, whose overlap is then re-applied |
| `SnapshotRestore.SequenceAheadOfSample` | cmd/toise-server/main.go:852-864 | when the recorded sequence is ahead of the sample, exactly when the rest of the log decides everything the missed events changed |
| `SnapshotRestore.MissedIsLost` | cmd/toise-server/main.go:852-864 | with no rest, exactly when what was missed changed nothing |
| `SnapshotCompaction.PruneRecovers` | internal/store/retention.go:115-241 | a prune between snapshot and restart keeps the restart right exactly when its cutoff spares a deciding event for every thing the snapshot holds otherwise than the log |
| `SnapshotCompaction.EarlyCutoffSpares` | internal/store/retention.go:115-241 | in particular when nothing after the recorded sequence is older than the cutoff |
| `SnapshotCompaction.CoalesceRecovers` | internal/store/retention.go:14-89 | collapsing heartbeat runs between snapshot and restart never harms it |
| `Reconciler.WantedExact` | internal/ingest/embedded.go:128-135 | an edge is wanted exactly when one of its type and target is listed, and as the last such one listed it |
| `Reconciler.RollbackRestores` | internal/ingest/embedded.go:154-166 | running a batch's undos most recent first restores every assertion set, however often the batch spoke of a source |
| `Reconciler.LastRecordWins` | internal/ingest/embedded.go:146-153 | a batch leaves each set as its last record listed it and the others alone |
| `Reconciler.ObserveListed` | internal/ingest/embedded.go:128-135 | observes each listed edge in order |
| `Reconciler.RemoveUnlisted` | internal/ingest/embedded.go:136-145 | removes each edge no longer listed exactly once, stamped with the record's time |
| `Reconciler.Ingest.Reconcile` | internal/ingest/embedded.go:123-168 | observes, removes, advances the set and registers its undo |
| `Reconciler.Ingest.Handle` | internal/ingest/embedded.go:86-118 | routes a record to the engine and reconciles or forgets its set |
| `Reconciler.Ingest.RunUndos` | internal/change/engine.go:1698-1703 | runs the registered undos in reverse |
| `Reconciler.Ingest.IngestBatch` | internal/change/engine.go:1675-1710 | the engine is told exactly what the items say in their order, removals dated by their record; a failed append leaves log, projection, notifications and every assertion set as before; a successful one leaves each set as its last record listed it |
| `AnnotationSync.RemovalLeavesTombstone` | internal/annotations/annotations.go:137-165 | removing every value leaves a tombstone that reads as absence and keeps its time |
| `AnnotationSync.EditExact` | internal/annotations/annotations.go:137-165 | an edit stamps one row and changes in it exactly the values it names, removing the empty ones; every other row stays |
| `AnnotationSync.PassEqualises` | internal/annotations/sync.go:43-96 | an undisturbed pass leaves node and store with the same rows |
| `AnnotationSync.TwoRoundsConverge` | internal/annotations/sync.go:43-96 | once writes stop, two sequential rounds in any order leave every node and the store with the newest row of every key, tombstones included |
| `AnnotationSync.NewestExists` | internal/annotations/sync.go:25-39 | a fleet whose equal timestamps mean equal rows has such newest rows |
| `AnnotationSync.NeverBackwards` | internal/annotations/sync.go:67-77 | under any interleaving of writes, pulls, pushes and aborts no local row moves to an older timestamp |
| `AnnotationSync.NewestSurvives` | internal/annotations/sync.go:43-96 | under any interleaving a row nothing surpasses is held by some node for good |
| `AnnotationSync.StoreRegressesIff` | internal/annotations/sync.go:80-94 | a push takes a row of the shared store back exactly when it wins over what the pass saw and the store has meanwhile come to hold a newer one |
| `AnnotationSync.OnlyPushesRegress` | internal/annotations/sync.go:43-96 | no other step takes a row of the store back |
| `AnnotationSync.StoreCanRegress` | internal/annotations/sync.go:80-94 | a history of two overlapping passes, from an empty store, whose last push takes the store back to the older row |
| `AnnotationSync.Pull` | internal/annotations/sync.go:44-78 | whatever objects the store holds: skips foreign ones, adopts row by row what is newer, counts what it adopts, and stops at an undecodable one |
| `AnnotationSync.AdoptNewest` | internal/annotations/sync.go:61-77 | whatever the spellings of the names, the node ends with rows it had or read, none older than either |
| `AnnotationSync.AdoptMerges` | internal/annotations/sync.go:61-77 | when no key is read twice, adopting row by row is the merge and the count that of the rows won |
| `AnnotationSync.PushRows` | internal/annotations/sync.go:80-95 | stores rows the store lacked or held older when read and no others, leaves every other object, counts them, and stores all of them exactly when the store takes that many puts |
| `AnnotationSync.SyncOnce` | internal/annotations/sync.go:43-96 | whatever fails -- the listing, a row, a put -- the node ends with the newest of what it had and read and the store with some of the rows to push; over a store whose objects are foreign or named as rows are, a complete pass takes node and store rows exactly where a step of the fleet does |
| `ObjectNames.NameRoundTrip` | internal/annotations/sync.go:117-132 | any key, whatever its bytes, comes back from its object's name |
| `ObjectNames.DistinctKeysDistinctNames` | internal/annotations/sync.go:117-119 | distinct keys have distinct object names |
| `LogShipping.AlwaysGapless` | internal/logship/shipper.go:48-92 | after any appends, ships, lost caches and failed puts that did or did not land, the sink is a gapless chain of the log's slices from 0 |
| `LogShipping.NextWhole` | internal/logship/shipper.go:79-91 | each step keeps the chain whole and a cached cursor at its end |
| `LogShipping.ReplayExact` | internal/logship/shipper.go:94-140 | from any surviving subset replay applies only a prefix of the log, and succeeds exactly on a prefix of the chain |
| `LogShipping.FullRestore` | internal/logship/shipper.go:94-140 | with every segment surviving replay restores everything shipped |
| `LogShipping.Replay` | internal/logship/shipper.go:102-140 | applies only a prefix whatever fails, and succeeds exactly when every name parses, the chain is whole, every segment can be read and the callback takes every event |
| `LogShipping.DeriveCursor` | internal/logship/shipper.go:180-193 | the scan finds the highest shipped sequence |
| `LogShipping.ScanFrom` | internal/logship/shipper.go:58-69 | the scan collects exactly the events after the cursor up to the sequence read before it |
| `LogShipping.Shipper.AppendEvents` | internal/logship/shipper.go:19-24 | an append extends the log and breaks no segment |
| `LogShipping.Shipper.LastShipped` | internal/logship/shipper.go:170-194 | answers the cached cursor or derives it from the sink |
| `LogShipping.Shipper.Ship` | internal/logship/shipper.go:44-92 | ships exactly what is new as one segment; a failed put drops the cached cursor |
| `ObjectNames.SegmentRoundTrip` | internal/logship/shipper.go:210-232 | a segment's range comes back from its name, whatever the tenant's bytes |
| `ObjectNames.NameOrderIsSequenceOrder` | internal/logship/shipper.go:210-214 | the lexical order of a tenant's segment names is their sequence order |
| `SegmentFraming.FramingRoundTrip` | internal/logship/shipper.go:234-272 | a segment decodes to what was encoded exactly when every record's length fits its four bytes |
| `SegmentFraming.DecodedIsEncoding` | internal/logship/shipper.go:253-272 | whatever decodes is the encoding of what it decodes to |
| `SegmentFraming.EncodeSegment` | internal/logship/shipper.go:238-251 | the loop writes exactly the framing |
| `SegmentFraming.DecodeSegment` | internal/logship/shipper.go:253-272 | the loop reads exactly the framed records or reports a cut-short segment |
| `Paging.ClampLimit` | internal/mcp/tools.go:957-965 | a limit in range is kept, none becomes 50, and one above 200 becomes 200 |
| `Paging.EveryStayerOnce` | internal/mcp/tools.go:882-915 | following cursors to the end while the keys change arbitrarily returns every key present all along exactly once |
| `Paging.PagesIncrease` | internal/mcp/tools.go:892-896 | everything on a page sorts after everything on the pages before it |
| `Paging.StayerReturnedOnce` | internal/projection/graph.go:461-495 | an entity that stays live, matching and of one identity is returned exactly once |
| `Paging.IndexIsLive` | internal/projection/graph.go:284-300 | the hash index holds exactly one entry per live entity |
| `Paging.KeysExist` | internal/projection/graph.go:461-482 | the ordered keys of a graph exist and are determined |
| `Paging.PageEntitiesByFingerprint` | internal/projection/graph.go:461-495 | the page is the first entities beyond the cursor in fingerprint order, with the resume key and the full count |
| `Paging.PageByFingerprint` | internal/mcp/tools.go:897-915 | binary search over an ordered list gives the same page |
| `Paging.PageNeighbors` | internal/mcp/tools.go:937-954 | the linear walk gives the same page |
| `BlastRadius.Walk` | internal/canonical/canonical.go:54-95 | returns exactly the connected component of root over same_as relations whose confidence is at least the threshold, root first, each once, and exactly those relations within it, by endpoint |
| `RelationOrder.SortedInOrder` | internal/canonical/canonical.go:89-94 | listing a set of relations by endpoint gives each once, in order |
| `BlastRadius.SameGroupFromAnyMember` | internal/canonical/canonical.go:46-53 | asking for any member's group gives the same group |
| `BlastRadius.GroupIsLive` | internal/canonical/canonical.go:46-53 | where relations join live entities the whole group of a live entity is live |
| `BlastRadius.ImpactOf` | internal/mcp/impact.go:65-101 | reports every live entity a failure of the group reaches within the depth, once, at its shortest distance, along a relation that carries the failure from an entity one hop nearer: from source to target, against it, either way or not at all, as its type says |
| `BlastRadius.DirectImpact` | internal/mcp/impact.go:120-131 | what is reported at depth 1 is exactly the live entities outside the group to which some relation, in the direction its type has, carries the failure of a member |
| `BlastRadius.SameImpactFromAnyMember` | internal/mcp/impact.go:66-70 | whichever member is named, the same entities are reported at the same depths |
| `BlastRadius.NoFurther` | internal/mcp/impact.go:79-101 | an empty frontier means nothing lies beyond it |
| `BlastRadius.ClampDepth` | internal/mcp/impact.go:47-50 | a depth in range is kept, any other becomes the cap |
| `Traversal.RelationsTouching` | internal/projection/graph.go:568-592 | lists exactly the incident relations of a type through the adjacency indexes, each once, in relation order |
| `Traversal.EdgesOf` | internal/mcp/traverse.go:26-47 | lists exactly the edges to live neighbours, each once, with direction, in relation order |
| `Paths.WalkPaths` | internal/mcp/traverse.go:97-176 | builds a tree of allowed steps no deeper than the cap and records only entities whose edges were refused; when the goal is not found no allowed step from an entity short of the cap leads anywhere new |
| `Paths.TerminalsExact` | internal/mcp/traverse.go:97-176 | when the goal is not found, the entities on record are exactly those short of the cap with an edge the rules refuse |
| `Paths.FindPath` | internal/mcp/traverse.go:178-252 | under the source's terminal and crossing types, a reported path is a simple chain of allowed steps from start to goal within the cap; otherwise the shared entities reported are exactly those both searches recorded, each reached from both ends by allowed steps and refused there |
| `Paths.ConvergenceMeans` | internal/mcp/traverse.go:97-176 | a reported convergence is a live network.endpoint, network.neighbor or network.interface, and neither end |
| `Paths.PathSaysWhatItShould` | internal/mcp/traverse.go:97-158 | every hop is an existing relation to a live entity, a network.endpoint in the middle is left by an edge of its own, a network.neighbor or network.interface by another relation type, and same_as only at or above the threshold |
| `Paths.ReverseHops` | internal/mcp/traverse.go:244-246 | swapping from both ends reverses the hops |

## Left out

- Stored bytes: Pebble, protobuf and JSON encodings; an append is an atomic extension of a sequence that may fail, and a record's bytes are taken to determine it.
- Hashes and joined keys: identity hashes, relation ids, fingerprints, reconciler keys and base64 cursors are taken to be injective, so identities and keys are compared as values.
- The unbatched commit path: every operation is modelled inside a batch, with one clock reading per operation.
- Event fields that no read of the core rests on: event ids, schema version, priority, scope, delete source and reason, display names; the schema URL is kept but not part of what live reads compare (SchemaDrift treats it by itself).
- The retired identity-changed event.
- LivenessRestore.RestoreLiveness: references marked legacy by an old liveness blob are not modelled.
- Concurrency inside one node: operations, sweeps, compactions and reads are atomic steps; locks are not modelled.
- AnnotationSync.Pull: reading a local row and overwriting it is one step; a local write between the two could be overwritten by an older remote row.
- AnnotationSync.SyncOnce: when two objects spell one key differently, which row is remembered as seen depends on the listing order.
- LogShipping.Shipper.Ship: one tenant, and a sink that answers listings; several shippers on one sink and compaction of the source log are not covered.
- Paths.FindPath: neither shortest paths nor completeness are claimed, since which edge first enters an entity decides how it may be left; the listing of convergences by fingerprint, cut at ten, and its note are not modelled.
- BlastRadius.Walk: the reading of a confidence and a basis from attributes is not modelled; the confidence of an edge is a parameter.
- BlastRadius.ImpactOf: the final ordering, limit, per-type counts and summary are not modelled; the flow table is a parameter.
- AsOf.PresenceSurvivesPrune: presence only; attribute values just after the horizon may be those of the baseline.
- EngineRuns.RestartExact: liveness is saved and read with the snapshot; a snapshot samples a prefix of the log as it stands; a compaction while the snapshot is being taken is not covered, and after a restart misled by its snapshot nothing more is claimed.
- ParkedFates.ParkedEdgeFate: retracting a parked edge, which is a no-op, does not unpark it and is not a fate of its own.
- EngineRuns.RunGood: compaction happens when no append is under way; the race is treated by Retention.PruneWithAppends.
- Reconciler.Ingest.IngestBatch: parsing of descriptors and rejected records are not modelled; the records given are those that reached the engine. A retraction whose endpoints an alias collapses onto one entity is an error that ends the routing of a batch early; here it is a no-op.
- gRPC, HTTP, MCP and GraphQL plumbing, authentication, configuration, metrics, logging, the debug interface, and the type registry's contents.
