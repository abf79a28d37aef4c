/**
 * Behaviour systems, as a closed set of variants: the built-in input and
 * movement systems, whose `registerEntity` / `unregisterEntity` hooks keep
 * their own membership set, and any other system, which has no hooks and
 * whose `update` is opaque to this model.
 */
module Systems {
  import opened Wrappers
  import opened Components

  type SystemId = string

  const InputSystemId: SystemId := "input"
  const MovementSystemId: SystemId := "movement"

  datatype SystemKind =
    | Input
    | Movement
    | Custom(id: Option<SystemId>, hasUpdate: bool)

  /** A system object: what it is and the ids in its `entities` set. */
  datatype System = System(kind: SystemKind, members: set<EntityId>)

  /** The `id` property of a system of this kind. */
  function IdOf(kind: SystemKind): Option<SystemId>
  {
    match kind
    case Input => Some(InputSystemId)
    case Movement => Some(MovementSystemId)
    case Custom(id, _) => id
  }

  /** Whether the system has an `update` behaviour (the built-ins always do). */
  predicate HasUpdate(kind: SystemKind)
  {
    kind.Custom? ==> kind.hasUpdate
  }

  /** `addSystem` accepts a non-null system with a non-empty `id` and an `update`. */
  predicate IsInstallable(system: Option<System>)
  {
    system.Some? && IdOf(system.value.kind).Some? && IdOf(system.value.kind).value != ""
    && HasUpdate(system.value.kind)
  }

  /**
   * The `registerEntity` predicate: the input system takes entities with an
   * input component, the movement system those with position and velocity,
   * and a system without the hook takes none.
   */
  predicate Accepts(kind: SystemKind, e: Entity)
    ensures kind == Input ==> (Accepts(kind, e) <==> e.components.input.Some?)
    ensures kind == Movement ==> (Accepts(kind, e) <==> e.components.position.Some? && e.components.velocity.Some?)
    ensures kind.Custom? ==> !Accepts(kind, e)
  {
    match kind
    case Input => e.components.input.Some?
    case Movement => IsMobile(e)
    case Custom(_, _) => false
  }

  /** Offering entity `e` (stored under `id`) to the system's `registerEntity`. */
  function Register(s: System, id: EntityId, e: Entity): (r: System)
    ensures r.kind == s.kind
    ensures forall x :: x in r.members <==> x in s.members || (x == id && Accepts(s.kind, e))
  {
    if Accepts(s.kind, e) then s.(members := s.members + {id}) else s
  }

  /** The system's `unregisterEntity(id)`, where it has one. */
  function Unregister(s: System, id: EntityId): (r: System)
    ensures r.kind == s.kind
    ensures forall x :: x in r.members <==> x in s.members && (x != id || s.kind.Custom?)
  {
    if s.kind.Custom? then s else s.(members := s.members - {id})
  }

  /** The ids of the entities in `entities` that the system's predicate takes. */
  function Accepted(kind: SystemKind, entities: map<EntityId, Entity>): set<EntityId>
  {
    set id | id in entities && Accepts(kind, entities[id])
  }

  /** Installing a system offers it every entity already registered. */
  function Install(s: System, entities: map<EntityId, Entity>): System
  {
    s.(members := s.members + Accepted(s.kind, entities))
  }

  /** A system without hooks takes nobody on installation. */
  lemma CustomInstall(s: System, entities: map<EntityId, Entity>)
    requires s.kind.Custom?
    ensures Install(s, entities) == s
  {
    assert Accepted(s.kind, entities) == {};
  }
}
