# Gameplay orchestrator of AI-Evolving RPG, modelled in Dafny

This project models `GameplaySystem`, the gameplay orchestrator of the game
(`src/systems/gameplay/index.js`). The orchestrator is an ECS-lite
registry with a small game-state machine. It owns:

- an **entity registry**, a JavaScript `Map` from id to entity;
- a **system registry**, a `Map` from id to system, where each system
  carries a membership `Set` of entity ids;
- the **render surface** boundary. Entities with a `model` are mirrored
  into the engine, and every removal is forwarded to it;
- the **game state**: designated player, current scene, evolution stage,
  elapsed game time and pause flag.

Modules, one per concern:

- `Wrappers` (wrappers.dfy): `Option`, standing for `null` and missing properties.
- `Sequences` (sequences.dfy): insertion-ordered key sequences. A JS `Map`
  iterates in insertion order, an overwrite keeps a key's place, and
  `delete` drops it.
- `Components` (components.dfy): vectors, component kinds, entities and
  one movement step.
- `Systems` (systems.dfy): the system variants the model can represent.
  These are the built-in `input` and `movement` systems with their
  registration hooks, and `Custom` systems that bring no
  `registerEntity` or `unregisterEntity` hook. The program also accepts
  caller-supplied systems with hooks of their own. The model does not
  represent those (see "Left out").
- `StateMachine` (state_machine.dfy): the game state, the configuration
  constants (`initialScene = "pixel_village"`, `maxEvolutionStage = 4`
  from `config.js`) and the evolution step.
- `Registry` (registry.dfy): the orchestrator's state as a value
  (`World`). Each operation is a function that says what it leaves behind.
- `RegistryProperties` (registry_properties.dfy): the lemmas on those
  functions: invariants kept, membership produced, removal undoing an
  addition, paused frames, additivity of frames and dispatch order.
- `RegistrationOrder` (registration_order.dfy): whether the final
  membership sets depend on the order of registration, both for
  systems-first against entities-first and for any interleaving of
  `addEntity` and `addSystem` calls.
- `Gameplay` (gameplay.dfy): the class `GameplaySystem`. Its fields are
  updated in place. Each method loops the way the source does, except
  that `RunMovement` takes the movement members in an arbitrary order
  rather than the set's insertion order; the outcome is the same, since
  each member moves once and one entity's step does not read another's.
  Each
  registry method is proved to leave exactly the `World` that the
  matching `Registry` function describes. `Pause`, `Resume`,
  `LoadScene`, `StartNewGame` and `Evolve` are proved to leave the prior
  world with only the named game-state fields changed.
- `Scenarios` (scenarios.dfy): clients of the class that rely only on
  its contracts.

Idealisations: JavaScript numbers (`deltaTime`, positions, `gameTime`)
are mathematical reals. The engine is reduced to the set of ids it holds
a model for (`rendered`). Engine `addEntity` stores an entity only when it
has a model (`src/components/engine/index.js:92-97`). Engine
`removeEntity` is a no-op for an absent id
(`src/components/engine/index.js:103-109`).

Properties the orchestrator is meant to have, and what the code does:

- **Registration order.** Membership is meant not to depend on whether
  systems or entities are registered first. The code guarantees this
  only when no entity id is registered twice. `addEntity` never takes an
  id out of a set, so a rebind to an entity the predicate rejects keeps
  the old membership. That happens only when the system came first.
  `RegistrationOrderIndependent` proves the distinct-id case for
  systems-first against entities-first, and `InterleavedRegistration`
  for any interleaving of the two kinds of call.
  `RebindBreaksOrderIndependence` exhibits the rebind case.
- **Dangling members.** A membership set is meant to hold only
  registered ids. The code keeps this only for the two built-in systems,
  and only when an added system brings no stale ids of its own
  (`NoDanglingMembers` with the `...Preserves` lemmas). Systems without
  an `unregisterEntity` hook are never pruned.
- **Max stage.** `evolve` at the top stage only logs. No error value is
  returned or recorded.
- **Second `init`.** A second `init` is not rejected: it re-registers the
  player and re-installs fresh built-in systems.
- **Failing hooks.** One failing hook is not isolated from the rest of
  the frame.

## Model

| member | source | states |
|---|---|---|
| `Components.Move` | src/systems/gameplay/index.js:95-99 | an entity with position and velocity moves by `velocity * dt` with velocity, input, stats, id, model and hook unchanged; any other entity is returned unchanged |
| `Components.MoveAdditive` | src/systems/gameplay/index.js:96-98 | two movement steps of `a` and `b` seconds equal one step of `a + b` |
| `Systems.Accepts` | src/systems/gameplay/index.js:78 | the input system's predicate holds exactly for entities with an input component; the movement system's predicate (line 112) holds exactly for entities with position and velocity; a system without hooks takes none |
| `Systems.Register` | src/systems/gameplay/index.js:77-81 | `registerEntity` keeps the system's kind and adds exactly the offered id, and only when the predicate takes the entity (also lines 111-115) |
| `Systems.Unregister` | src/systems/gameplay/index.js:82-84 | `unregisterEntity` keeps the kind and drops exactly that id from a built-in system's set (also lines 116-118); a system without the hook is unchanged |
| `Gameplay.PlayerEntity` | src/systems/gameplay/index.js:47-58 | the player literal is registrable under id "player", is taken by both the input and the movement predicate, has its own `update` hook and no model, and stays put at any `dt` since its velocity is zero |
| `Sequences.WithoutAt` | src/systems/gameplay/index.js:169 | deleting a key that occurs once, at position `k`, closes that slot and keeps every other key in its order (`Map.delete`) |
| `StateMachine.Evolved` | src/systems/gameplay/index.js:273-282 | the stage rises by one exactly when `stage + 1 < max`, and stays put exactly when `stage + 1 >= max` |
| `StateMachine.EvolvedInRange` | src/systems/gameplay/index.js:277-282 | `evolve` keeps the stage in `[0, max)` and never lowers it |
| `StateMachine.EvolvedTimesFrom` | src/systems/gameplay/index.js:273-282 | from stage `s`, `n` calls reach `s + n` while that is below the cap, and `max - 1` otherwise |
| `StateMachine.EvolvedTimesFromZero` | src/systems/gameplay/index.js:273-282 | from stage 0, `n` calls reach `min(n, max - 1)` |
| `StateMachine.ConfiguredEvolution` | config.js:16 | with the configured cap of 4, successive calls give stages 1, 2, 3, 3, 3 |
| `Registry.AddEntity` | src/systems/gameplay/index.js:130-151 | a null entity or one with a missing or empty id changes nothing. Otherwise the entity is stored under its id, overwriting any prior one. A new id goes to the end of the order and an existing id keeps its place. It is mirrored into the render surface iff it has a model. No system is added or re-kinded, and no membership is lost |
| `Registry.RemoveEntity` | src/systems/gameplay/index.js:157-172 | the id is gone from the entity map, the order and the render surface, with every other render entry kept. Each system keeps its kind; a built-in system's set loses exactly that id and a hook-less one keeps its set. Other entities are unchanged, the order is `Without(order, id)`, and systems are neither added nor dropped |
| `Registry.AddSystem` | src/systems/gameplay/index.js:178-193 | a null system or one lacking an id or `update` changes nothing. Otherwise it is installed under its id, with members = its own set plus every registered entity its predicate takes. A new id goes to the end of the order. Other systems, the entities and the render surface are unchanged |
| `Registry.RemoveSystem` | src/systems/gameplay/index.js:199-202 | that system entry is gone and the order becomes `Without(order, sid)`. Entities, other systems and their memberships are unchanged |
| `Registry.Update` | src/systems/gameplay/index.js:208-227 | while paused the world is unchanged. Otherwise `gameTime' = gameTime + dt`, every movement member still registered takes one step, and every other entity and both registries are unchanged |
| `RegistryProperties.AddEntityPreserves` | src/systems/gameplay/index.js:130-151 | `addEntity` keeps the registry invariant and adds no dangling member |
| `RegistryProperties.AddEntityMembership` | src/systems/gameplay/index.js:139-143 | after a valid `addEntity(e)`, `e.id` is in a system's set iff it already was or the predicate takes `e`. No other id's membership changes |
| `RegistryProperties.FreshEntityMembership` | src/systems/gameplay/index.js:77-81 | when no system holds a dangling id (`NoDanglingMembers`), for an id not registered before: member of `input` iff `e` has an input component, member of `movement` iff it has position and velocity (lines 111-115) |
| `RegistryProperties.StaleMembership` | src/systems/gameplay/index.js:136-143 | re-adding an id whose new entity the predicate rejects leaves the id in the set |
| `RegistryProperties.RemoveEntityPreserves` | src/systems/gameplay/index.js:157-172 | `removeEntity` keeps the registry invariant and adds no dangling member |
| `RegistryProperties.RemoveAbsentEntity` | src/systems/gameplay/index.js:157-172 | when no system holds a dangling id (`NoDanglingMembers`), removing an id that is not registered changes nothing |
| `RegistryProperties.RemoveEntityIdempotent` | src/systems/gameplay/index.js:157-172 | removing twice equals removing once |
| `RegistryProperties.AddThenRemoveEntity` | src/systems/gameplay/index.js:130-172 | when no system holds a dangling id (`NoDanglingMembers`), `removeEntity(id)` after `addEntity` of a new id restores the whole world: entity, memberships, render surface and order |
| `RegistryProperties.RemoveEntityKeepsOrder` | src/systems/gameplay/index.js:169 | in a well-formed world, removing the entity at position `k` leaves the order with that slot closed and every other entity in its place |
| `RegistryProperties.RemoveSystemKeepsOrder` | src/systems/gameplay/index.js:200 | in a well-formed world, removing the system at position `k` closes that slot, so the remaining systems are dispatched in their old order |
| `RegistryProperties.AddSystemPreserves` | src/systems/gameplay/index.js:178-193 | `addSystem` keeps the registry invariant. A system bringing no stale ids adds no dangling member |
| `RegistryProperties.RemoveSystemPreserves` | src/systems/gameplay/index.js:199-202 | `removeSystem` keeps the registry invariant and adds no dangling member |
| `RegistryProperties.AddThenRemoveSystem` | src/systems/gameplay/index.js:178-202 | `removeSystem` after `addSystem` of a new id restores the whole world |
| `RegistryProperties.UpdatePreserves` | src/systems/gameplay/index.js:208-227 | a frame keeps the registry invariant and adds no dangling member |
| `RegistryProperties.PausedFrames` | src/systems/gameplay/index.js:209 | while paused, any number of frames leave the whole world unchanged |
| `RegistryProperties.UpdateAdditive` | src/systems/gameplay/index.js:208-227 | two frames of `a` and `b` seconds end where one frame of `a + b` does, paused or not (paused, all three change nothing) |
| `RegistryProperties.EntityCallsShape` | src/systems/gameplay/index.js:222-226 | the entity phase calls only entity hooks, exactly those of the listed entities that have one |
| `RegistryProperties.EntityCallsKeys` | src/systems/gameplay/index.js:222-226 | which entity hooks run depends only on which entities have one, not on their components |
| `RegistryProperties.DispatchOrder` | src/systems/gameplay/index.js:214-226 | an unpaused frame calls every system's `update` once in registration order, then exactly the registered entities' own hooks |
| `RegistrationOrder.EntitiesKeepSystems` | src/systems/gameplay/index.js:130-151 | adding entities never adds, drops or re-kinds a system |
| `RegistrationOrder.EntitiesIntoSystem` | src/systems/gameplay/index.js:139-143 | adding a sequence of entities to an installed system adds exactly the ids its predicate admitted along the way |
| `RegistrationOrder.EntitiesCatalog` | src/systems/gameplay/index.js:136 | adding a sequence of entities leaves the last entity registered under each id |
| `RegistrationOrder.SystemsKeepEntities` | src/systems/gameplay/index.js:178-193 | adding systems never changes the entity map |
| `RegistrationOrder.SystemsOverEntities` | src/systems/gameplay/index.js:184-192 | after adding a sequence of systems, each id holds the last system installed under it, offered every present entity |
| `RegistrationOrder.CatalogAdmitted` | src/systems/gameplay/index.js:188-192 | with distinct ids, offering the final entity map admits what offering each entity in turn admitted |
| `RegistrationOrder.RegistrationOrderIndependent` | src/systems/gameplay/index.js:130-193 | from empty registries and with distinct entity ids, systems-then-entities and entities-then-systems give identical systems and membership sets |
| `RegistrationOrder.AcceptedUnion` | src/systems/gameplay/index.js:188-192 | offering two entity maps with disjoint keys admits the union of what each admits |
| `RegistrationOrder.ReplaySystem` | src/systems/gameplay/index.js:130-193 | after any interleaving of `addEntity` and `addSystem` calls with fresh, distinct entity ids, a system installed along the way holds its own set plus every final entity its predicate takes, and a system present from the start and never replaced gains exactly the admitted ids |
| `RegistrationOrder.EntityStepFresh` | src/systems/gameplay/index.js:130-137 | after one `addEntity`, the remaining registrations still use fresh, distinct ids |
| `RegistrationOrder.EntityStep` | src/systems/gameplay/index.js:130-151 | the per-system outcome of a replay carries back over a leading `addEntity` |
| `RegistrationOrder.EntityIntoCatalog` | src/systems/gameplay/index.js:136 | one `addEntity` followed by a sequence under other ids leaves the entity map the whole sequence leaves |
| `RegistrationOrder.EntityIntoSystem` | src/systems/gameplay/index.js:139-143 | one `addEntity` adds to an installed system exactly the id its predicate admits |
| `RegistrationOrder.SystemStep` | src/systems/gameplay/index.js:178-193 | the per-system outcome of a replay carries back over a leading `addSystem` |
| `RegistrationOrder.InterleavedRegistration` | src/systems/gameplay/index.js:130-193 | from empty registries and with distinct entity ids, every interleaving of `addEntity` and `addSystem` calls leaves the same systems and membership sets as adding all systems first and then all entities |
| `RegistrationOrder.RebindBreaksOrderIndependence` | src/systems/gameplay/index.js:136-143 | registering "hero" with input intent and then again without it leaves "hero" in the input set when the system came first, but not when it came last |
| `Gameplay.GameplaySystem.constructor` | src/systems/gameplay/index.js:13-24 | empty registries, empty render surface, no player or scene, stage 0, time 0, running |
| `Gameplay.GameplaySystem.Init` | src/systems/gameplay/index.js:29-37 | the world after adding the player, designating it, then installing the input and the movement system |
| `Gameplay.GameplaySystem.RegisterCoreEntities` | src/systems/gameplay/index.js:42-62 | the player entity is added and designated as the player |
| `Gameplay.GameplaySystem.RegisterCoreSystems` | src/systems/gameplay/index.js:67-124 | the input system, then the movement system, each installed with an empty set |
| `Gameplay.GameplaySystem.AddEntity` | src/systems/gameplay/index.js:130-151 | keeps the invariant and leaves exactly `Registry.AddEntity` of the prior world |
| `Gameplay.GameplaySystem.OfferToSystems` | src/systems/gameplay/index.js:139-143 | the loop over systems leaves every system as its `registerEntity` hook makes it |
| `Gameplay.GameplaySystem.RemoveEntity` | src/systems/gameplay/index.js:157-172 | keeps the invariant and leaves exactly `Registry.RemoveEntity` of the prior world |
| `Gameplay.GameplaySystem.WithdrawFromSystems` | src/systems/gameplay/index.js:159-163 | the loop over systems leaves every system as its `unregisterEntity` hook makes it (lines 82-84, 116-118) |
| `Gameplay.GameplaySystem.AddSystem` | src/systems/gameplay/index.js:178-193 | keeps the invariant and leaves exactly `Registry.AddSystem` of the prior world |
| `Gameplay.GameplaySystem.PutSystem` | src/systems/gameplay/index.js:184-192 | the system is stored under its id and ends up holding its own set plus every registered entity its predicate takes; a system without `registerEntity` is stored as given |
| `Systems.CustomInstall` | src/systems/gameplay/index.js:188 | installing a system without a `registerEntity` hook adds nobody to its set |
| `Gameplay.GameplaySystem.OfferEntitiesTo` | src/systems/gameplay/index.js:188-192 | the loop over entities leaves the new system holding its own set plus every entity its predicate takes |
| `Gameplay.GameplaySystem.RemoveSystem` | src/systems/gameplay/index.js:199-202 | keeps the invariant and leaves exactly `Registry.RemoveSystem` of the prior world |
| `Gameplay.GameplaySystem.RunMovement` | src/systems/gameplay/index.js:91-110 | every member id still naming an entity with position and velocity is moved one step, and nothing else changes |
| `Gameplay.GameplaySystem.RunSystems` | src/systems/gameplay/index.js:214-219 | systems run in registration order, and the movement system's effect is applied once |
| `Gameplay.GameplaySystem.RunEntityHooks` | src/systems/gameplay/index.js:221-226 | returns the entity hooks called, in insertion order, exactly for entities that have one |
| `Gameplay.GameplaySystem.Update` | src/systems/gameplay/index.js:208-227 | keeps the invariant, leaves exactly `Registry.Update` of the prior world, and its ghost call trace is `Dispatch` of it |
| `Gameplay.GameplaySystem.Pause` | src/systems/gameplay/index.js:232-235 | only `isPaused` changes, to true |
| `Gameplay.GameplaySystem.Resume` | src/systems/gameplay/index.js:240-243 | only `isPaused` changes, to false |
| `Gameplay.GameplaySystem.LoadScene` | src/systems/gameplay/index.js:264-268 | only `currentScene` changes, to the requested scene |
| `Gameplay.GameplaySystem.StartNewGame` | src/systems/gameplay/index.js:248-258 | whatever the prior state: stage 0, time 0, running, scene `"pixel_village"`; registries and player untouched |
| `Gameplay.GameplaySystem.Evolve` | src/systems/gameplay/index.js:273-290 | only the stage changes, to `Evolved(stage, 4)`, keeping `0 <= stage < 4` |
| `Scenarios.StartUp` | src/systems/gameplay/index.js:29-62 | after `init` the player is designated and is a member of both the input and the movement system |
| `Scenarios.OneSecondFrame` | src/systems/gameplay/index.js:93-99 | a player at the origin with velocity (1, 0, 0), after `update(1.0)`, is at (1, 0, 0). The clock reads 1, and the movement then input systems ran |
| `Scenarios.EvolutionLadder` | src/systems/gameplay/index.js:273-282 | a new game evolved four times passes through stages 1, 2, 3, 3 |

## Left out

- The Three.js engine (`src/components/engine/index.js`) is not part of
  this model: scene, camera, renderer, controls, model loading, resize
  handling and its own animation loop. Only the add/remove-by-id contract
  is kept, as the `rendered` set.
- `src/main.js`, `scripts/build.js` and `config.js` beyond its two
  consumed values are not part of this model. They cover DOM set-up, the
  `requestAnimationFrame` loop, bundling and static data;
  `evolutionThresholds` has no consumer in the code.
- Console logging, and the `entity.model.position.set` call that copies a
  moved position into the renderable, are left out. Both are effects on
  the host.
- Custom systems' `update` and entities' own `update` hooks are opaque.
  The model records each call in order (`Call`) and assumes the hook
  changes nothing. The built-in player hook and the input system's
  `update` are empty in the source.
- A hook that throws aborts the rest of the frame in the source. Hooks
  here cannot fail, so that path is not modelled.
- An entity with no `components` object at all is not modelled. Every
  entity carries a `ComponentSet` whose kinds may each be absent. The
  registration predicates guard the missing object, but the movement step
  would dereference it and throw.
- Caller-supplied systems with their own `registerEntity` or
  `unregisterEntity` hooks are not modelled. The source calls those hooks
  on any system that has them (lines 140, 160 and 188), but the closed
  set of variants cannot carry an arbitrary predicate or pruning
  behaviour. So `AddEntityMembership`, `RegistrationOrderIndependent`
  and `NoDanglingMembers` cover only the two built-in predicates and
  hook-less systems.
- `Gameplay.GameplaySystem.LoadScene` takes a string. A call with no
  argument, or with a non-string one, stores that value as the scene
  (line 267), and the model cannot represent it.
- Ids are strings. A non-string id (a number, say) is not modelled, and
  the falsy-id check covers only the empty string.
- Aliasing is not modelled; entities and systems are values.
  - The designated player is kept by id, so the model loses it once that
    entity is removed.
  - A system object re-added to `addSystem` brings the membership set it
    carries in the value passed, not a set shared with an earlier
    installation.
  - The built-in hooks look their own set up with
    `this.systems.get('input')` or `this.systems.get('movement')`. The
    model fixes those two variants' ids, so the lookup always finds the
    system itself.
- Floating-point rounding of `deltaTime`, positions and `gameTime` is not
  modelled; they are reals.
- `Gameplay.GameplaySystem.RunSystems`: the guard `if (system.update)` at
  line 216 is not modelled. Every installed system has an `update`, since
  `addSystem` rejects one without it.
