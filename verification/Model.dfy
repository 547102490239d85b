/** Entities, relations and the qualified events of the log. */
module Model {
  import opened Text

  /** A logical entity id: minted once, never reused. */
  type EntityId = nat

  type Time = int

  /** Attributes as the engine compares them: each key with the canonical encoding of
      its value, an encoding that CanonicalValue proves injective. */
  type Attrs = map<Str, Str>

  /** One identifying value: a string, or the canonical encoding of anything else. */
  datatype IdValue = Plain(text: Str) | Coded(code: Str)

  /** An entity type with its identifying attributes. It stands for the identity hash,
      taken to be collision-free. */
  datatype Identity = Identity(typ: Str, keys: map<Str, IdValue>)

  datatype Entity = Entity(id: EntityId, ident: Identity, attrs: Attrs, schema: Str)

  /** Derived from the relation's type and endpoints, and taken to be collision-free. */
  datatype RelationId = RelationId(typ: Str, src: EntityId, dst: EntityId)

  predicate Touches(r: RelationId, id: EntityId) {
    r.src == id || r.dst == id
  }

  datatype Relation = Relation(id: RelationId, attrs: Attrs)

  datatype EntityChange = Created | AttributeUpdated | StateChanged | Unchanged | Deleted

  datatype RelationChange = Added | AttributeChanged | Removed

  datatype Event =
    | EntityEvent(change: EntityChange, entity: Entity, eventTime: Time, recordedAt: Time)
    | RelationEvent(relChange: RelationChange, relation: Relation, eventTime: Time, recordedAt: Time)

  datatype Option<+T> = None | Some(value: T)

  /** In nanoseconds. */
  const WEEK: int := 7 * 24 * 60 * 60 * 1_000_000_000

  function SetOf<T>(s: seq<T>): set<T> {
    set x | x in s
  }
}
