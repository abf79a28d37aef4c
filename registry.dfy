/**
 * The orchestrator's state as a value, and one function per operation of
 * the gameplay orchestrator saying what the operation leaves behind. The
 * class in module Gameplay is proved to compute exactly these.
 */
module Registry {
  import opened Wrappers
  import opened Sequences
  import opened Components
  import opened Systems
  import opened StateMachine

  /**
   * Everything the orchestrator owns: the entity registry and the system
   * registry (each a key map plus its insertion order), the ids mirrored
   * into the render surface, and the game state.
   */
  datatype World = World(
    entityOrder: seq<EntityId>,
    entities: map<EntityId, Entity>,
    systemOrder: seq<SystemId>,
    systems: map<SystemId, System>,
    rendered: set<EntityId>,
    gameState: GameState)

  /** A freshly constructed orchestrator over an empty render surface. */
  const EmptyWorld := World([], map[], [], map[], {}, InitialGameState)

  /** One hook invocation made by a frame. */
  datatype Call = SystemUpdate(system: SystemId) | EntityUpdate(entity: EntityId)

  /**
   * The invariant every operation keeps: each order lists its map's keys
   * once; every entity and system is stored under its own id and passed the
   * registration guard; the render surface holds registered ids only and
   * every registered entity with a model; the stage lies in `[0, max)`.
   */
  ghost predicate WellFormed(w: World)
  {
    && NoDup(w.entityOrder)
    && (forall id :: id in w.entityOrder <==> id in w.entities)
    && (forall id :: id in w.entities ==> w.entities[id].id == Some(id) && id != "")
    && NoDup(w.systemOrder)
    && (forall sid :: sid in w.systemOrder <==> sid in w.systems)
    && (forall sid :: sid in w.systems ==>
          IsInstallable(Some(w.systems[sid])) && IdOf(w.systems[sid].kind) == Some(sid))
    && w.rendered <= w.entities.Keys
    && (forall id :: id in w.entities && w.entities[id].hasModel ==> id in w.rendered)
    && 0 <= w.gameState.evolutionStage < MaxEvolutionStage
  }

  /**
   * Every id in the membership set of a system with hooks names a
   * registered entity. Systems without hooks are never pruned, so they are
   * not covered.
   */
  ghost predicate NoDanglingMembers(w: World)
  {
    forall sid, id :: sid in w.systems && !w.systems[sid].kind.Custom? && id in w.systems[sid].members
      ==> id in w.entities
  }

  /** `addEntity(entity)`. */
  function AddEntity(w: World, entity: Option<Entity>): (r: World)
    ensures !IsRegistrable(entity) ==> r == w
    ensures IsRegistrable(entity) ==>
      var id := entity.value.id.value;
      && r.entities == w.entities[id := entity.value]
      && (id in w.entities ==> r.entityOrder == w.entityOrder)
      && (id !in w.entities ==> r.entityOrder == w.entityOrder + [id])
      && r.rendered == (if entity.value.hasModel then w.rendered + {id} else w.rendered)
    ensures r.systems.Keys == w.systems.Keys
    ensures forall sid :: sid in w.systems ==>
      && r.systems[sid].kind == w.systems[sid].kind
      && w.systems[sid].members <= r.systems[sid].members
    ensures r.systemOrder == w.systemOrder && r.gameState == w.gameState
  {
    if !IsRegistrable(entity) then w
    else
      var e := entity.value;
      var id := e.id.value;
      w.(entityOrder := if id in w.entities then w.entityOrder else w.entityOrder + [id],
         entities := w.entities[id := e],
         systems := map sid | sid in w.systems :: Register(w.systems[sid], id, e),
         rendered := if e.hasModel then w.rendered + {id} else w.rendered)
  }

  /** `removeEntity(id)`. */
  function RemoveEntity(w: World, id: EntityId): (r: World)
    ensures id !in r.entities && id !in r.entityOrder && id !in r.rendered
    ensures forall sid :: sid in r.systems && !r.systems[sid].kind.Custom? ==> id !in r.systems[sid].members
    ensures forall x :: x != id && x in w.entities ==> x in r.entities && r.entities[x] == w.entities[x]
    ensures r.entities.Keys == w.entities.Keys - {id}
    ensures r.entityOrder == Without(w.entityOrder, id) && r.rendered == w.rendered - {id}
    ensures r.systems.Keys == w.systems.Keys
    ensures forall sid :: sid in w.systems ==>
      && r.systems[sid].kind == w.systems[sid].kind
      && r.systems[sid].members ==
           if w.systems[sid].kind.Custom? then w.systems[sid].members else w.systems[sid].members - {id}
    ensures r.systemOrder == w.systemOrder && r.gameState == w.gameState
  {
    w.(entityOrder := Without(w.entityOrder, id),
       entities := w.entities - {id},
       systems := map sid | sid in w.systems :: Unregister(w.systems[sid], id),
       rendered := w.rendered - {id})
  }

  /** `addSystem(system)`. */
  function AddSystem(w: World, system: Option<System>): (r: World)
    ensures !IsInstallable(system) ==> r == w
    ensures IsInstallable(system) ==>
      var s := system.value;
      var sid := IdOf(s.kind).value;
      && sid in r.systems && r.systems[sid].kind == s.kind
      && (forall id :: id in r.systems[sid].members <==>
            id in s.members || (id in w.entities && Accepts(s.kind, w.entities[id])))
      && (sid in w.systems ==> r.systemOrder == w.systemOrder)
      && (sid !in w.systems ==> r.systemOrder == w.systemOrder + [sid])
      && r.systems.Keys == w.systems.Keys + {sid}
      && (forall other :: other in w.systems && other != sid ==> r.systems[other] == w.systems[other])
    ensures r.entities == w.entities && r.entityOrder == w.entityOrder
    ensures r.rendered == w.rendered && r.gameState == w.gameState
  {
    if !IsInstallable(system) then w
    else
      var s := system.value;
      var sid := IdOf(s.kind).value;
      w.(systemOrder := if sid in w.systems then w.systemOrder else w.systemOrder + [sid],
         systems := w.systems[sid := Install(s, w.entities)])
  }

  /** `removeSystem(sid)`. */
  function RemoveSystem(w: World, sid: SystemId): (r: World)
    ensures sid !in r.systems && sid !in r.systemOrder
    ensures r.systemOrder == Without(w.systemOrder, sid)
    ensures r.systems.Keys == w.systems.Keys - {sid}
    ensures forall other :: other in w.systems && other != sid ==> r.systems[other] == w.systems[other]
    ensures r.entities == w.entities && r.entityOrder == w.entityOrder
    ensures r.rendered == w.rendered && r.gameState == w.gameState
  {
    w.(systemOrder := Without(w.systemOrder, sid), systems := w.systems - {sid})
  }

  /** The membership set the movement system's `update` walks, if it is installed. */
  function MovementMembers(systems: map<SystemId, System>): set<EntityId>
  {
    if MovementSystemId in systems && systems[MovementSystemId].kind.Movement?
    then systems[MovementSystemId].members
    else {}
  }

  /** Every entity whose id is in `ids` takes one movement step. */
  function MoveMembers(entities: map<EntityId, Entity>, ids: set<EntityId>, dt: real): map<EntityId, Entity>
  {
    map id | id in entities :: if id in ids then Move(entities[id], dt) else entities[id]
  }

  /**
   * `update(dt)`: nothing while paused; otherwise the clock advances by
   * `dt` and every movement member still registered takes a step. The
   * other hooks are opaque and leave the world as it is.
   */
  function Update(w: World, dt: real): (r: World)
    ensures w.gameState.isPaused ==> r == w
    ensures !w.gameState.isPaused ==>
      r.gameState == w.gameState.(gameTime := w.gameState.gameTime + dt)
    ensures r.entities.Keys == w.entities.Keys
    ensures forall id :: id in w.entities && id !in MovementMembers(w.systems) ==> r.entities[id] == w.entities[id]
    ensures !w.gameState.isPaused ==>
      forall id :: id in w.entities && id in MovementMembers(w.systems) ==> r.entities[id] == Move(w.entities[id], dt)
    ensures r.systems == w.systems && r.systemOrder == w.systemOrder
    ensures r.entityOrder == w.entityOrder && r.rendered == w.rendered
  {
    if w.gameState.isPaused then w
    else
      w.(gameState := w.gameState.(gameTime := w.gameState.gameTime + dt),
         entities := MoveMembers(w.entities, MovementMembers(w.systems), dt))
  }

  /** Every installed system's `update`, in registration order. */
  function SystemCalls(order: seq<SystemId>): seq<Call>
  {
    seq(|order|, k requires 0 <= k < |order| => SystemUpdate(order[k]))
  }

  /** The `update` hooks of the entities listed in `order`, in that order. */
  function EntityCalls(order: seq<EntityId>, entities: map<EntityId, Entity>): seq<Call>
    decreases |order|
  {
    if order == [] then []
    else
      var last := order[|order| - 1];
      EntityCalls(order[..|order| - 1], entities)
        + (if last in entities && entities[last].hasUpdate then [EntityUpdate(last)] else [])
  }

  /** The hooks one call of `update` invokes: none while paused, else systems then entities. */
  function Dispatch(w: World): seq<Call>
  {
    if w.gameState.isPaused then [] else SystemCalls(w.systemOrder) + EntityCalls(w.entityOrder, w.entities)
  }
}
