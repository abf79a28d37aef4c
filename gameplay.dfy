/**
 * The gameplay orchestrator: an entity registry, a system registry with
 * per-system membership sets, the render surface it mirrors renderable
 * entities into, and the game state. Every registry method is proved to
 * leave exactly the world that the matching function of module Registry
 * describes; the game-state methods leave the prior world with only the
 * named game-state fields changed.
 */
module Gameplay {
  import opened Wrappers
  import opened Sequences
  import opened Components
  import opened Systems
  import opened StateMachine
  import opened Registry
  import opened RegistryProperties

  /** The id of the built-in player entity. */
  const PlayerId: EntityId := "player"

  /**
   * The built-in player entity registered by `init`: at rest at the origin,
   * with idle input intent, full health, its own `update` hook and no model.
   */
  function PlayerEntity(): (e: Entity)
    ensures IsRegistrable(Some(e)) && e.id == Some(PlayerId)
    ensures Accepts(Input, e) && Accepts(Movement, e)
    ensures e.hasUpdate && !e.hasModel
    ensures forall dt :: Move(e, dt) == e
  {
    Entity(Some(PlayerId),
      ComponentSet(
        Some(Vec3(0.0, 0.0, 0.0)),
        Some(Vec3(0.0, 0.0, 0.0)),
        Some(InputIntent(false, false, false, false)),
        Some(Stats(100, 100, 1, 0))),
      false, true)
  }

  class GameplaySystem {
    /** The entity map's keys, in insertion order, and the map itself. */
    var entityOrder: seq<EntityId>
    var entities: map<EntityId, Entity>
    /** The system map's keys, in insertion order, and the map itself. */
    var systemOrder: seq<SystemId>
    var systems: map<SystemId, System>
    /** The ids the render surface currently holds a model for; the render surface itself is not modelled, so this is ghost bookkeeping. */
    ghost var rendered: set<EntityId>
    var gameState: GameState

    /** The orchestrator's current state as a value. */
    ghost function Snapshot(): World
      reads this
    {
      World(entityOrder, entities, systemOrder, systems, rendered, gameState)
    }

    ghost predicate Valid()
      reads this
    {
      WellFormed(Snapshot())
    }

    constructor ()
      ensures Valid() && Snapshot() == EmptyWorld
    {
      entityOrder, entities := [], map[];
      systemOrder, systems := [], map[];
      rendered := {};
      gameState := InitialGameState;
    }

    /** `init()`: the core entities, then the core systems. */
    method Init()
      requires Valid()
      modifies this
      ensures Valid()
      ensures Snapshot() == Registry.AddSystem(Registry.AddSystem(
        Registry.AddEntity(old(Snapshot()), Some(PlayerEntity())).(gameState := old(gameState).(player := Some(PlayerId))),
        Some(System(Input, {}))), Some(System(Movement, {})))
    {
      RegisterCoreEntities();
      RegisterCoreSystems();
    }

    /** Registers the player entity and designates it as the player. */
    method RegisterCoreEntities()
      requires Valid()
      modifies this
      ensures Valid()
      ensures Snapshot() == Registry.AddEntity(old(Snapshot()), Some(PlayerEntity())).(gameState := old(gameState).(player := Some(PlayerId)))
    {
      AddEntity(Some(PlayerEntity()));
      gameState := gameState.(player := Some(PlayerId));
    }

    /** Installs the input system, then the movement system, each with an empty membership set. */
    method RegisterCoreSystems()
      requires Valid()
      modifies this
      ensures Valid()
      ensures Snapshot() == Registry.AddSystem(Registry.AddSystem(old(Snapshot()), Some(System(Input, {}))), Some(System(Movement, {})))
    {
      AddSystem(Some(System(Input, {})));
      AddSystem(Some(System(Movement, {})));
    }

    /**
     * `addEntity(entity)`: rejects a null entity or one without an id;
     * otherwise stores it under its id, offers it to every installed
     * system in order, and mirrors it into the render surface if it has
     * a model.
     */
    method AddEntity(entity: Option<Entity>)
      requires Valid()
      modifies this
      ensures Valid()
      ensures Snapshot() == Registry.AddEntity(old(Snapshot()), entity)
    {
      ghost var w0 := Snapshot();
      AddEntityPreserves(w0, entity);
      if !IsRegistrable(entity) {
        return;
      }
      var e := entity.value;
      var id := e.id.value;
      if id !in entities {
        entityOrder := entityOrder + [id];
      }
      entities := entities[id := e];
      OfferToSystems(id, e);
      if e.hasModel {
        rendered := rendered + {id};
      }
      ghost var r := Registry.AddEntity(w0, entity);
      assert systems == r.systems && entities == r.entities;
      assert entityOrder == r.entityOrder && rendered == r.rendered;
      assert systemOrder == r.systemOrder && gameState == r.gameState;
      assert Snapshot() == r;
    }

    /** The loop of `addEntity`: each installed system, in order, runs its `registerEntity`. */
    method OfferToSystems(id: EntityId, e: Entity)
      requires NoDup(systemOrder) && forall sid :: sid in systemOrder <==> sid in systems
      modifies this`systems
      ensures systems == map sid | sid in old(systems) :: Register(old(systems)[sid], id, e)
    {
      var i := 0;
      while i < |systemOrder|
        invariant 0 <= i <= |systemOrder|
        invariant systems.Keys == old(systems).Keys
        invariant forall sid :: sid in systems ==>
          systems[sid] == if sid in systemOrder[..i] then Register(old(systems)[sid], id, e) else old(systems)[sid]
      {
        var sid := systemOrder[i];
        assert sid !in systemOrder[..i];
        assert systemOrder[..i + 1] == systemOrder[..i] + [sid];
        systems := systems[sid := Register(systems[sid], id, e)];
        i := i + 1;
      }
      assert systemOrder[..i] == systemOrder;
    }

    /**
     * `removeEntity(id)`: every system with an `unregisterEntity` hook
     * drops the id, then the render surface and the entity map do.
     */
    method RemoveEntity(id: EntityId)
      requires Valid()
      modifies this
      ensures Valid()
      ensures Snapshot() == Registry.RemoveEntity(old(Snapshot()), id)
    {
      RemoveEntityPreserves(Snapshot(), id);
      WithdrawFromSystems(id);
      rendered := rendered - {id};
      entities := entities - {id};
      entityOrder := Without(entityOrder, id);
    }

    /** The loop of `removeEntity`: each installed system with the hook runs its `unregisterEntity`. */
    method WithdrawFromSystems(id: EntityId)
      requires NoDup(systemOrder) && forall sid :: sid in systemOrder <==> sid in systems
      modifies this`systems
      ensures systems == map sid | sid in old(systems) :: Unregister(old(systems)[sid], id)
    {
      var i := 0;
      while i < |systemOrder|
        invariant 0 <= i <= |systemOrder|
        invariant systems.Keys == old(systems).Keys
        invariant forall sid :: sid in systems ==>
          systems[sid] == if sid in systemOrder[..i] then Unregister(old(systems)[sid], id) else old(systems)[sid]
      {
        var sid := systemOrder[i];
        assert sid !in systemOrder[..i];
        assert systemOrder[..i + 1] == systemOrder[..i] + [sid];
        if !systems[sid].kind.Custom? {
          systems := systems[sid := Unregister(systems[sid], id)];
        }
        i := i + 1;
      }
      assert systemOrder[..i] == systemOrder;
    }

    /**
     * `addSystem(system)`: rejects a null system or one without an id or
     * an `update`; otherwise installs it under its id and, if it has a
     * `registerEntity` hook, offers it every registered entity in order.
     */
    method AddSystem(system: Option<System>)
      requires Valid()
      modifies this
      ensures Valid()
      ensures Snapshot() == Registry.AddSystem(old(Snapshot()), system)
    {
      ghost var w0 := Snapshot();
      AddSystemPreserves(w0, system);
      if !IsInstallable(system) {
        return;
      }
      var s := system.value;
      var sid := IdOf(s.kind).value;
      if sid !in systems {
        systemOrder := systemOrder + [sid];
      }
      PutSystem(sid, s);
      assert Snapshot() == Registry.AddSystem(w0, system);
    }

    /** Stores `s` under `sid`, then offers it every registered entity if it has a `registerEntity` hook. */
    method PutSystem(sid: SystemId, s: System)
      requires forall id :: id in entityOrder <==> id in entities
      requires forall id :: id in entities ==> entities[id].id == Some(id)
      modifies this`systems
      ensures systems == old(systems)[sid := Install(s, entities)]
    {
      systems := systems[sid := s];
      if !s.kind.Custom? {
        OfferEntitiesTo(sid);
      } else {
        CustomInstall(s, entities);
      }
    }

    /** The loop of `addSystem`: the new system's `registerEntity` runs on each registered entity, in order. */
    method OfferEntitiesTo(sid: SystemId)
      requires sid in systems
      requires forall id :: id in entityOrder <==> id in entities
      requires forall id :: id in entities ==> entities[id].id == Some(id)
      modifies this`systems
      ensures systems == old(systems)[sid := Install(old(systems)[sid], entities)]
    {
      var s := systems[sid];
      var i := 0;
      while i < |entityOrder|
        invariant 0 <= i <= |entityOrder|
        invariant sid in systems && systems == old(systems)[sid := systems[sid]]
        invariant systems[sid].kind == s.kind
        invariant forall id :: id in systems[sid].members <==>
          id in s.members || (id in entityOrder[..i] && Accepts(s.kind, entities[id]))
      {
        var e := entities[entityOrder[i]];
        assert entityOrder[..i + 1] == entityOrder[..i] + [entityOrder[i]];
        systems := systems[sid := Register(systems[sid], e.id.value, e)];
        i := i + 1;
      }
      assert entityOrder[..i] == entityOrder;
      assert systems[sid] == Install(s, entities);
    }

    /** `removeSystem(sid)`: deletes that system and its membership set, nothing else. */
    method RemoveSystem(sid: SystemId)
      requires Valid()
      modifies this
      ensures Valid()
      ensures Snapshot() == Registry.RemoveSystem(old(Snapshot()), sid)
    {
      RemoveSystemPreserves(Snapshot(), sid);
      systemOrder := Without(systemOrder, sid);
      systems := systems - {sid};
    }

    /**
     * The movement system's `update(dt)`: every id in its membership set
     * that still names an entity with position and velocity moves by
     * `velocity * dt`.
     */
    method RunMovement(dt: real)
      requires MovementSystemId in systems && systems[MovementSystemId].kind.Movement?
      modifies this`entities
      ensures entities == MoveMembers(old(entities), systems[MovementSystemId].members, dt)
    {
      var members := systems[MovementSystemId].members;
      var pending := members;
      while pending != {}
        invariant pending <= members
        invariant entities == MoveMembers(old(entities), members - pending, dt)
        decreases pending
      {
        var id :| id in pending;
        if id in entities && IsMobile(entities[id]) {
          entities := entities[id := Move(entities[id], dt)];
        }
        pending := pending - {id};
        assert entities == MoveMembers(old(entities), members - pending, dt);
      }
    }

    /**
     * `update(dt)`: a no-op while paused. Otherwise the clock advances,
     * every system's `update` runs in registration order and then every
     * entity's own `update` hook. The ghost `calls` records those
     * invocations; `update` itself returns nothing.
     */
    method Update(deltaTime: real) returns (ghost calls: seq<Call>)
      requires Valid()
      modifies this
      ensures Valid()
      ensures Snapshot() == Registry.Update(old(Snapshot()), deltaTime)
      ensures calls == Dispatch(old(Snapshot()))
    {
      ghost var w0 := Snapshot();
      UpdatePreserves(w0, deltaTime);
      if gameState.isPaused {
        return [];
      }
      gameState := gameState.(gameTime := gameState.gameTime + deltaTime);
      var systemCalls := RunSystems(deltaTime);
      var entityCalls := RunEntityHooks();
      calls := systemCalls + entityCalls;
      EntityCallsKeys(entityOrder, entities, w0.entities);
      assert Snapshot() == Registry.Update(w0, deltaTime);
    }

    /** The first phase of a frame: each installed system's `update`, in registration order. */
    method RunSystems(dt: real) returns (calls: seq<Call>)
      requires NoDup(systemOrder) && forall sid :: sid in systemOrder <==> sid in systems
      requires forall sid :: sid in systems ==> IdOf(systems[sid].kind) == Some(sid)
      modifies this`entities
      ensures entities == MoveMembers(old(entities), MovementMembers(systems), dt)
      ensures calls == SystemCalls(systemOrder)
    {
      ghost var moved := MoveMembers(entities, MovementMembers(systems), dt);
      calls := [];
      var i := 0;
      while i < |systemOrder|
        invariant 0 <= i <= |systemOrder|
        invariant entities == if MovementSystemId in systemOrder[..i] then moved else old(entities)
        invariant calls == SystemCalls(systemOrder[..i])
      {
        var sid := systemOrder[i];
        assert sid !in systemOrder[..i];
        assert systemOrder[..i + 1] == systemOrder[..i] + [sid];
        calls := calls + [SystemUpdate(sid)];
        if systems[sid].kind.Movement? {
          RunMovement(dt);
        } else if sid == MovementSystemId {
          assert MovementMembers(systems) == {};
          assert moved == entities;
        }
        i := i + 1;
      }
      assert systemOrder[..i] == systemOrder;
      assert MovementSystemId !in systemOrder ==> moved == entities;
    }

    /** The second phase of a frame: each registered entity's own `update` hook, in insertion order. */
    method RunEntityHooks() returns (calls: seq<Call>)
      requires forall id :: id in entityOrder ==> id in entities
      ensures calls == EntityCalls(entityOrder, entities)
    {
      calls := [];
      var j := 0;
      while j < |entityOrder|
        invariant 0 <= j <= |entityOrder|
        invariant calls == EntityCalls(entityOrder[..j], entities)
      {
        var id := entityOrder[j];
        assert entityOrder[..j + 1][..j] == entityOrder[..j];
        if entities[id].hasUpdate {
          calls := calls + [EntityUpdate(id)];
        }
        j := j + 1;
      }
      assert entityOrder[..j] == entityOrder;
    }

    /** `pause()`: only the pause flag changes. */
    method Pause()
      requires Valid()
      modifies this
      ensures Valid()
      ensures Snapshot() == old(Snapshot()).(gameState := old(gameState).(isPaused := true))
    {
      gameState := gameState.(isPaused := true);
    }

    /** `resume()`: only the pause flag changes. */
    method Resume()
      requires Valid()
      modifies this
      ensures Valid()
      ensures Snapshot() == old(Snapshot()).(gameState := old(gameState).(isPaused := false))
    {
      gameState := gameState.(isPaused := false);
    }

    /** `loadScene(sceneId)`: only the current scene changes. */
    method LoadScene(sceneId: string)
      requires Valid()
      modifies this
      ensures Valid()
      ensures Snapshot() == old(Snapshot()).(gameState := old(gameState).(currentScene := Some(sceneId)))
    {
      gameState := gameState.(currentScene := Some(sceneId));
    }

    /**
     * `startNewGame()`: whatever the prior state, stage 0, clock 0,
     * running, in the configured initial scene; the registries and the
     * designated player are untouched.
     */
    method StartNewGame()
      requires Valid()
      modifies this
      ensures Valid()
      ensures gameState == GameState(old(gameState).player, Some(InitialScene), 0, 0.0, false)
      ensures Snapshot() == old(Snapshot()).(gameState := gameState)
    {
      gameState := gameState.(evolutionStage := 0, gameTime := 0.0, isPaused := false);
      LoadScene(InitialScene);
    }

    /** `evolve()`: one step up the stage ladder unless the next stage would reach the cap. */
    method Evolve()
      requires Valid()
      modifies this
      ensures Valid()
      ensures Snapshot() == old(Snapshot()).(gameState := old(gameState).(evolutionStage := Evolved(old(gameState).evolutionStage, MaxEvolutionStage)))
    {
      var nextStage := gameState.evolutionStage + 1;
      if nextStage >= MaxEvolutionStage {
        return;
      }
      gameState := gameState.(evolutionStage := nextStage);
    }
  }
}
