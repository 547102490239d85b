/** The change engine as a state machine: a batch classifies observations against an
    overlay laid over the untouched projection, counts references per speaker, parks
    out-of-order edges, and finally appends and applies -- or, when the append fails,
    applies nothing. */
module ChangeEngine {
  import opened Text
  import opened Model
  import opened EventLog
  import opened Aliases
  import opened SpeakerKeys
  import CanonicalValue
  import Projection
  import RelationOrder

  // ------------------------------------------------------------ observations

  datatype EntityObs = EntityObs(ident: Identity, attrs: Attrs, schema: Str, eventTime: Time,
                                 interval: int, producer: Str)

  /** confidence is what the attributes say of the belief, when that is a number in [0,1]. */
  datatype RelationObs = RelationObs(typ: Str, src: Identity, dst: Identity, attrs: Attrs,
                                     confidence: Option<real>, eventTime: Time, producer: Str,
                                     interval: int, sourceInterval: int)

  datatype Op =
    | SetScope(scope: Str)
    | ObserveEntity(entity: EntityObs)
    | DeleteEntity(entity: EntityObs)
    | ObserveRelation(relation: RelationObs)
    | RemoveRelation(relation: RelationObs)

  const SAME_AS: Str := Ascii("same_as")

  /** Descriptive keys whose change is a state change. */
  const STATE_KEYS: set<Str> := {
    Ascii("oper_state"), Ascii("admin_state"), Ascii("status"), Ascii("replication.role"),
    Ascii("read_only"), Ascii("hw.state"), Ascii("ha.role") }

  /** The longest interval believed as a promise to speak again: a week, in nanoseconds. */
  const MAX_PROMISE: int := 604_800_000_000_000

  const ALIAS_SLACK: int := 2
  const ALIAS_THRESHOLD: real := 0.9
  const MAX_PENDING: nat := 4096

  function Promise(declared: int): int {
    if declared <= MAX_PROMISE then declared else 0
  }

  // ------------------------------------------------------------ state

  /** A batch's uncommitted events and the overlay of their effects. */
  datatype Staged = Staged(events: seq<Event>, scope: Str,
                           entities: map<EntityId, Entity>, deleted: set<EntityId>,
                           byHash: map<Identity, EntityId>,
                           relations: map<RelationId, Relation>, removed: set<RelationId>)

  const NO_STAGED := Staged([], [], map[], {}, map[], map[], {})

  datatype Pending = Pending(obs: RelationObs, deadline: Time, scope: Str)

  /** st is NO_STAGED between batches. nextId is the id source: every id minted so far is
      below it. */
  datatype Engine = Engine(
    g: Projection.Graph, log: seq<Event>, notified: seq<Event>, nextId: EntityId,
    refs: map<EntityId, Refs>, relRefs: map<RelationId, Refs>,
    pending: seq<Pending>, waited: set<Identity>, aliases: AliasIndex, bufferTTL: int,
    st: Staged)

  function NewEngine(limit: int, ttl: int, bufferTTL: int): Engine {
    Engine(Projection.NewGraph(limit, ttl), [], [], 0, map[], map[], [], {}, NO_ALIASES, bufferTTL, NO_STAGED)
  }

  function Key(s: Engine, producer: Str): Str {
    RefKey(producer, s.st.scope)
  }

  // ------------------------------------------------------------ overlay reads

  function MatchIdentity(s: Engine, ident: Identity): Option<EntityId> {
    if ident in s.st.byHash then
      if s.st.byHash[ident] in s.st.deleted then None else Some(s.st.byHash[ident])
    else
      match Projection.MatchIdentity(s.g, ident)
      case Some(id) => if id in s.st.deleted then None else Some(id)
      case None => None
  }

  function MatchTombstone(s: Engine, ident: Identity, now: Time): Option<EntityId> {
    match Projection.MatchTombstone(s.g, ident, now)
    case Some(id) => if id in s.st.deleted then None else Some(id)
    case None => None
  }

  /** The entity as readable by id, and whether it is soft-deleted. */
  function GetEntity(s: Engine, id: EntityId): (Option<Entity>, bool) {
    if id in s.st.entities then (Some(s.st.entities[id]), id in s.st.deleted)
    else if id in s.g.entities then (Some(s.g.entities[id]), id in s.g.deleted || id in s.st.deleted)
    else (None, id in s.g.deleted || id in s.st.deleted)
  }

  function GetRelation(s: Engine, rid: RelationId): Option<Relation> {
    if rid in s.st.removed then None
    else if rid in s.st.relations then Some(s.st.relations[rid])
    else if rid in s.g.relations then Some(s.g.relations[rid])
    else None
  }

  /** The edges incident to id: staged ones, and the projection's not staged away. */
  function TouchingSet(s: Engine, id: EntityId): set<RelationId> {
    (set r | r in s.st.relations && Touches(r, id)) +
    (set r | r in s.g.relations && Touches(r, id) && r !in s.st.removed)
  }

  function ListRelationsTouching(s: Engine, id: EntityId): seq<RelationId> {
    RelationOrder.Sorted(TouchingSet(s, id))
  }

  // ------------------------------------------------------------ staging

  function Stage(st: Staged, ev: Event): Staged {
    var st1 := st.(events := st.events + [ev]);
    match ev
    case EntityEvent(Created, e, _, _) =>
      st1.(entities := st.entities[e.id := e], deleted := st.deleted - {e.id}, byHash := st.byHash[e.ident := e.id])
    case EntityEvent(Deleted, e, _, _) => st1.(deleted := st.deleted + {e.id})
    case EntityEvent(Unchanged, _, _, _) => st1
    case EntityEvent(_, e, _, _) => st1.(entities := st.entities[e.id := e])
    case RelationEvent(Removed, r, _, _) =>
      st1.(relations := st.relations - {r.id}, removed := st.removed + {r.id})
    case RelationEvent(_, r, _, _) =>
      st1.(relations := st.relations[r.id := r], removed := st.removed - {r.id})
  }

  function Commit(s: Engine, ev: Event): Engine {
    s.(st := Stage(s.st, ev))
  }

  // ------------------------------------------------------------ entities

  function Classify(before: Attrs, after: Attrs): EntityChange {
    var changed := CanonicalValue.ChangedKeys(before, after);
    if changed == {} then Unchanged
    else if changed * STATE_KEYS != {} then StateChanged
    else AttributeUpdated
  }

  /** The id an observation is about, how it changes it, and the next fresh id. */
  function Target(s: Engine, obs: EntityObs, now: Time): (EntityId, EntityChange, EntityId) {
    match MatchIdentity(s, obs.ident)
    case Some(id) =>
      var before := match GetEntity(s, id).0 case Some(e) => e.attrs case None => map[];
      (id, Classify(before, obs.attrs), s.nextId)
    case None =>
      match MatchTombstone(s, obs.ident, now)
      case Some(id) => (id, Created, s.nextId)
      case None => (s.nextId, Created, s.nextId + 1)
  }

  function RefFor(interval: int, now: Time): Ref {
    if Promise(interval) > 0 then Ref(By(now + Promise(interval)), Promise(interval)) else Ref(Never, 0)
  }

  function Held<K>(refs: map<K, Refs>, k: K): Refs {
    if k in refs then refs[k] else map[]
  }

  function EntityEventOf(ct: EntityChange, id: EntityId, obs: EntityObs, now: Time): Event {
    EntityEvent(ct, Entity(id, obs.ident, obs.attrs, obs.schema), obs.eventTime, now)
  }

  /** Classify and commit, then record the speaker's reference. */
  function AssertEntity(s: Engine, obs: EntityObs, now: Time): Engine {
    var (id, ct, next) := Target(s, obs, now);
    var s1 := Commit(s.(nextId := next), EntityEventOf(ct, id, obs, now));
    s1.(refs := s1.refs[id := Held(s1.refs, id)[Key(s, obs.producer) := RefFor(obs.interval, now)]])
  }

  function ObserveEntityOp(s: Engine, obs: EntityObs, now: Time): Engine {
    var s1 := AssertEntity(s, obs, now);
    if s1.pending != [] && obs.ident in s1.waited then FlushPending(s1, now) else s1
  }

  function RemovedEvent(s: Engine, rid: RelationId, when: Time, now: Time): Event {
    var r := match GetRelation(s, rid) case Some(r) => r case None => Relation(rid, map[]);
    RelationEvent(Removed, r, when, now)
  }

  /** Remove the listed edges, which die with their node, and forget their references. */
  function RemoveEdges(s: Engine, rids: seq<RelationId>, when: Time, now: Time): Engine {
    if rids == [] then s
    else
      var n := |rids| - 1;
      var s1 := RemoveEdges(s, rids[..n], when, now);
      var s2 := Commit(s1, RemovedEvent(s1, rids[n], when, now));
      s2.(relRefs := s2.relRefs - {rids[n]})
  }

  function Cascade(s: Engine, id: EntityId, when: Time, now: Time): Engine {
    RemoveEdges(s, ListRelationsTouching(s, id), when, now)
  }

  /** Release one speaker; the entity dies only with its last reference. */
  function DeleteEntityOp(s: Engine, obs: EntityObs, now: Time): Engine {
    match MatchIdentity(s, obs.ident)
    case None => s
    case Some(id) =>
      var left := Held(s.refs, id) - {Key(s, obs.producer)};
      if id in s.refs && left != map[] then s.(refs := s.refs[id := left])
      else
        var s1 := Commit(s.(refs := s.refs - {id}), EntityEventOf(Deleted, id, obs, now));
        Cascade(s1, id, obs.eventTime, now)
  }

  // ------------------------------------------------------------ relations

  datatype Endpoint = Found(id: EntityId, substituted: bool) | NotFound

  /** Exact identity first, then one retry with unambiguous aliases substituted. */
  function ResolveEndpoint(s: Engine, ident: Identity): Endpoint {
    match MatchIdentity(s, ident)
    case Some(id) => Found(id, false)
    case None =>
      match Substitute(s.aliases, ident)
      case None => NotFound
      case Some(sub) =>
        match MatchIdentity(s, sub)
        case Some(id) => Found(id, true)
        case None => NotFound
  }

  datatype Ends = Ends(src: EntityId, dst: EntityId) | EndpointMissing | EndpointsCollapsed

  function ResolveEnds(s: Engine, obs: RelationObs): Ends {
    match ResolveEndpoint(s, obs.src)
    case NotFound => EndpointMissing
    case Found(src, a) =>
      match ResolveEndpoint(s, obs.dst)
      case NotFound => EndpointMissing
      case Found(dst, b) => if (a || b) && src == dst then EndpointsCollapsed else Ends(src, dst)
  }

  /** An edge with no promise of its own lives as long as its speaker's claim on the source. */
  function InheritedRef(s: Engine, src: EntityId, key: Str): Ref {
    if src in s.refs && key in s.refs[src] then s.refs[src][key] else Ref(Never, 0)
  }

  function EdgeRef(s: Engine, obs: RelationObs, src: EntityId, now: Time): Ref {
    if Promise(obs.interval) > 0 then Ref(By(now + Promise(obs.interval)), Promise(obs.interval))
    else InheritedRef(s, src, Key(s, obs.producer))
  }

  /** Record the speaker's reference on a resolved edge, and emit what changed. */
  function AssertRelation(s: Engine, obs: RelationObs, src: EntityId, dst: EntityId, now: Time): Engine {
    var rid := RelationId(obs.typ, src, dst);
    var s1 := s.(relRefs := s.relRefs[rid := Held(s.relRefs, rid)[Key(s, obs.producer) := EdgeRef(s, obs, src, now)]]);
    match GetRelation(s, rid)
    case None => Commit(s1, RelationEvent(Added, Relation(rid, obs.attrs), obs.eventTime, now))
    case Some(prior) =>
      if CanonicalValue.ChangedKeys(prior.attrs, obs.attrs) == {} then s1
      else Commit(s1, RelationEvent(AttributeChanged, Relation(rid, obs.attrs), obs.eventTime, now))
  }

  /** The state after retrying one parked edge, and whether it stays parked. */
  function Retry(s: Engine, p: Pending, now: Time): (Engine, bool) {
    if now > p.deadline then (s, false)
    else
      match ResolveEnds(s, p.obs)
      case EndpointMissing => (s, true)
      case EndpointsCollapsed => (s, false)
      case Ends(src, dst) =>
        var flushing := s.st.scope;
        var s1 := AssertRelation(s.(st := s.st.(scope := p.scope)), p.obs, src, dst, now);
        (s1.(st := s1.st.(scope := flushing)), false)
  }

  function RetryAll(s: Engine, ps: seq<Pending>, now: Time): (Engine, seq<Pending>) {
    if ps == [] then (s, [])
    else
      var n := |ps| - 1;
      var (s1, kept) := RetryAll(s, ps[..n], now);
      var (s2, stays) := Retry(s1, ps[n], now);
      (s2, if stays then kept + [ps[n]] else kept)
  }

  /** The hashes one endpoint waits on: its own and, under an alias, the canonical one. */
  function EndpointHashes(idx: AliasIndex, ident: Identity): set<Identity> {
    match Substitute(idx, ident)
    case None => {ident}
    case Some(sub) => {ident, sub}
  }

  function WaitedHashes(idx: AliasIndex, ps: seq<Pending>): set<Identity> {
    if ps == [] then {}
    else
      var n := |ps| - 1;
      WaitedHashes(idx, ps[..n]) + EndpointHashes(idx, ps[n].obs.src) + EndpointHashes(idx, ps[n].obs.dst)
  }

  function SetPending(s: Engine, ps: seq<Pending>): Engine {
    s.(pending := ps, waited := WaitedHashes(s.aliases, ps))
  }

  function FlushPending(s: Engine, now: Time): Engine {
    var (s1, kept) := RetryAll(s, s.pending, now);
    SetPending(s1, kept)
  }

  // ------------------------------------------------------------ alias claims

  function DifferingKeys(a: Identity, b: Identity): set<Str> {
    set k | k in a.keys && k in b.keys && a.keys[k] != b.keys[k]
  }

  /** The equivalence a believed same_as asserts: identities of one type that differ in
      exactly one string-valued key. */
  function ClaimOf(obs: RelationObs): Option<Claim> {
    if obs.confidence.None? || obs.confidence.value < ALIAS_THRESHOLD then None
    else if obs.src.typ != obs.dst.typ || obs.src.keys.Keys != obs.dst.keys.Keys then None
    else
      var d := DifferingKeys(obs.src, obs.dst);
      if |d| != 1 then None
      else
        var k := TheOne(d);
        match (obs.src.keys[k], obs.dst.keys[k])
        case (Plain(canonical), Plain(alias)) => Some(Claim(AliasKey(k, alias), canonical))
        case _ => None
  }

  function TheOne(d: set<Str>): (k: Str)
    requires |d| == 1
    ensures k in d
  {
    assert forall a, b :: a in d && b in d ==> a == b by {
      forall a, b | a in d && b in d
        ensures a == b
      {
        SingletonUnique(d, a, b);
      }
    }
    var k :| k in d;
    k
  }

  /** The expiry of an equivalence, or None when the declared cycle is not believed. */
  function AliasDeadline(obs: RelationObs, now: Time): Option<Deadline> {
    if obs.interval > 0 then
      if obs.interval > MAX_PROMISE then None else Some(By(now + obs.interval * ALIAS_SLACK))
    else if obs.sourceInterval > 0 then
      if obs.sourceInterval > MAX_PROMISE then None else Some(By(now + obs.sourceInterval * ALIAS_SLACK))
    else Some(Never)
  }

  function RecordAlias(s: Engine, obs: RelationObs, now: Time): Engine {
    match (ClaimOf(obs), AliasDeadline(obs, now))
    case (Some(claim), Some(d)) =>
      var s1 := s.(aliases := Record(s.aliases, claim, Key(s, obs.producer), Ref(d, 0)));
      if s1.pending == [] then s1 else FlushPending(SetPending(s1, s1.pending), now)
    case _ => s
  }

  // ------------------------------------------------------------ parking

  function Hold(s: Engine, obs: RelationObs): int {
    if obs.sourceInterval > s.bufferTTL then obs.sourceInterval else s.bufferTTL
  }

  /** Park an out-of-order edge, giving up on the oldest when the buffer is full. */
  function Park(s: Engine, obs: RelationObs, now: Time): Engine {
    var room := if |s.pending| >= MAX_PENDING then s.pending[1..] else s.pending;
    SetPending(s, room + [Pending(obs, now + Hold(s, obs), s.st.scope)])
  }

  function ObserveRelationOp(s: Engine, obs: RelationObs, now: Time): Engine {
    var s1 := if obs.typ == SAME_AS then RecordAlias(s, obs, now) else s;
    match ResolveEnds(s1, obs)
    case Ends(src, dst) => AssertRelation(s1, obs, src, dst, now)
    case EndpointsCollapsed => s1
    case EndpointMissing => if s1.bufferTTL > 0 then Park(s1, obs, now) else s1
  }

  /** Release one speaker of an edge; a missing endpoint means nothing to remove. */
  function RemoveRelationOp(s: Engine, obs: RelationObs, now: Time): Engine {
    match ResolveEnds(s, obs)
    case EndpointMissing => s
    case EndpointsCollapsed => s
    case Ends(src, dst) =>
      var rid := RelationId(obs.typ, src, dst);
      var left := Held(s.relRefs, rid) - {Key(s, obs.producer)};
      if rid in s.relRefs && left != map[] then s.(relRefs := s.relRefs[rid := left])
      else
        var s1 := s.(relRefs := s.relRefs - {rid});
        if GetRelation(s, rid).None? then s1
        else Commit(s1, RemovedEvent(s, rid, obs.eventTime, now))
  }

  // ------------------------------------------------------------ batches

  function Step(s: Engine, op: Op, now: Time): Engine {
    match op
    case SetScope(scope) => s.(st := s.st.(scope := scope))
    case ObserveEntity(obs) => ObserveEntityOp(s, obs, now)
    case DeleteEntity(obs) => DeleteEntityOp(s, obs, now)
    case ObserveRelation(obs) => ObserveRelationOp(s, obs, now)
    case RemoveRelation(obs) => RemoveRelationOp(s, obs, now)
  }

  /** An operation and the clock reading it runs at. */
  datatype Timed = Timed(op: Op, now: Time)

  function Steps(s: Engine, ops: seq<Timed>): Engine {
    if ops == [] then s
    else Step(Steps(s, ops[..|ops| - 1]), ops[|ops| - 1].op, ops[|ops| - 1].now)
  }

  /** Append the staged events in one atomic write, then apply and notify them; a failed
      append, like an empty batch, applies nothing. */
  function Flush(s: Engine, lands: bool): Engine {
    var evs := s.st.events;
    if evs == [] || !lands then s.(st := NO_STAGED)
    else s.(st := NO_STAGED, log := s.log + evs, g := Projection.ApplyAll(s.g, evs), notified := s.notified + evs)
  }

  function Batch(s: Engine, ops: seq<Timed>, lands: bool): Engine {
    Flush(Steps(s.(st := NO_STAGED), ops), lands)
  }

  // ------------------------------------------------------------ sweeping

  /** Drop the lapsed references of every holder. */
  function DropLapsed<K>(refs: map<K, Refs>, now: Time): map<K, Refs> {
    map k | k in refs :: Unlapsed(refs[k], now)
  }

  function Orphans<K>(refs: map<K, Refs>): set<K> {
    set k | k in refs && refs[k] == map[]
  }

  datatype SweepState = SweepState(e: Engine, entities: nat, relations: nat)

  /** Expire one unreferenced entity of the projection, with its edges. */
  function ExpireEntity(w: SweepState, id: EntityId, now: Time): SweepState {
    var s := w.e.(refs := w.e.refs - {id});
    if id !in s.g.entities || id in s.g.deleted then w.(e := s)
    else
      var s1 := Commit(s, EntityEvent(Deleted, s.g.entities[id], now, now));
      SweepState(Cascade(s1, id, now, now), w.entities + 1, w.relations + |ListRelationsTouching(s1, id)|)
  }

  function ExpireEntities(w: SweepState, ids: seq<EntityId>, now: Time): SweepState {
    if ids == [] then w
    else ExpireEntity(ExpireEntities(w, ids[..|ids| - 1], now), ids[|ids| - 1], now)
  }

  function UnexpiredPending(ps: seq<Pending>, now: Time): seq<Pending> {
    if ps == [] then []
    else
      var n := |ps| - 1;
      var kept := UnexpiredPending(ps[..n], now);
      if now > ps[n].deadline then kept else kept + [ps[n]]
  }

  /** Expire one unreferenced edge of the projection. */
  function ExpireRelation(w: SweepState, rid: RelationId, now: Time): SweepState {
    var s := w.e.(relRefs := w.e.relRefs - {rid});
    if rid !in s.g.relations then w.(e := s)
    else w.(e := Commit(s, RelationEvent(Removed, s.g.relations[rid], now, now)), relations := w.relations + 1)
  }

  function ExpireRelations(w: SweepState, rids: seq<RelationId>, now: Time): SweepState {
    if rids == [] then w
    else ExpireRelation(ExpireRelations(w, rids[..|rids| - 1], now), rids[|rids| - 1], now)
  }

  /** Drop lapsed entity references; the entities left without any are to be expired. */
  function SweepStart(s: Engine, now: Time): SweepState {
    SweepState(s.(st := NO_STAGED, refs := DropLapsed(s.refs, now)), 0, 0)
  }

  /** Expired parked edges go, then lapsed edge references. */
  function SweepMiddle(w: SweepState, now: Time): SweepState {
    var s := w.e;
    var s1 := if s.pending == [] then s else SetPending(s, UnexpiredPending(s.pending, now));
    w.(e := s1.(relRefs := DropLapsed(s1.relRefs, now)))
  }

  function SweepStaged(s: Engine, now: Time, ids: seq<EntityId>, rids: seq<RelationId>): SweepState {
    ExpireRelations(SweepMiddle(ExpireEntities(SweepStart(s, now), ids, now), now), rids, now)
  }

  /** One liveness pass. ids and rids are the orders in which the unreferenced entities and
      edges happen to be visited; lands says whether the append succeeds. */
  function Sweep(s: Engine, now: Time, ids: seq<EntityId>, rids: seq<RelationId>, lands: bool): SweepState {
    var w := SweepStaged(s, now, ids, rids);
    var s1 := Flush(w.e, lands);
    var e := s1.(aliases := Aliases.Sweep(s1.aliases, now), g := Projection.PruneTombstones(s1.g, now));
    if lands || w.e.st.events == [] then w.(e := e) else SweepState(e, 0, 0)
  }

  /** An order visits each member of a set once. */
  ghost predicate Visits<T(!new)>(order: seq<T>, s: set<T>) {
    && (forall x :: x in order <==> x in s)
    && (forall i, j :: 0 <= i < j < |order| ==> order[i] != order[j])
  }

  /** The orders a sweep of s may use. */
  ghost predicate SweepOrders(s: Engine, now: Time, ids: seq<EntityId>, rids: seq<RelationId>) {
    && Visits(ids, Orphans(SweepStart(s, now).e.refs))
    && Visits(rids, Orphans(SweepMiddle(ExpireEntities(SweepStart(s, now), ids, now), now).e.relRefs))
  }
}
