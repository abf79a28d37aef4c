/**
 * What the registration protocol guarantees across operations: the
 * invariants each operation keeps, the membership each addition produces,
 * removal as the inverse of addition, and the shape of a frame.
 */
module RegistryProperties {
  import opened Wrappers
  import opened Sequences
  import opened Components
  import opened Systems
  import opened StateMachine
  import opened Registry

  /** `addEntity` keeps the registry invariant, and adds no dangling member. */
  lemma AddEntityPreserves(w: World, entity: Option<Entity>)
    requires WellFormed(w)
    ensures WellFormed(AddEntity(w, entity))
    ensures NoDanglingMembers(w) ==> NoDanglingMembers(AddEntity(w, entity))
  {
    if IsRegistrable(entity) {
      var id := entity.value.id.value;
      var r := AddEntity(w, entity);
      if id !in w.entities {
        AppendFresh(w.entityOrder, id);
      }
      forall sid | sid in r.systems
        ensures IsInstallable(Some(r.systems[sid])) && IdOf(r.systems[sid].kind) == Some(sid)
      {
        assert r.systems[sid] == Register(w.systems[sid], id, entity.value);
      }
    }
  }

  /**
   * After a valid `addEntity(e)`, the new id is in a system's membership
   * set exactly when it already was or the system's predicate takes `e`,
   * and no other id's membership changes.
   */
  lemma AddEntityMembership(w: World, entity: Option<Entity>, sid: SystemId)
    requires IsRegistrable(entity) && sid in w.systems
    ensures var r, id, s := AddEntity(w, entity), entity.value.id.value, w.systems[sid];
      && (id in r.systems[sid].members <==> id in s.members || Accepts(s.kind, entity.value))
      && (forall x :: x != id ==> (x in r.systems[sid].members <==> x in s.members))
  {
  }

  /**
   * For an id not registered before, membership after `addEntity(e)` is
   * decided by the predicate alone: the input system takes `e` iff it has an
   * input component, the movement system iff it has position and velocity.
   */
  lemma FreshEntityMembership(w: World, entity: Option<Entity>)
    requires WellFormed(w) && NoDanglingMembers(w)
    requires IsRegistrable(entity) && entity.value.id.value !in w.entities
    ensures var r, id, e := AddEntity(w, entity), entity.value.id.value, entity.value;
      && (InputSystemId in w.systems && w.systems[InputSystemId].kind == Input ==>
            (id in r.systems[InputSystemId].members <==> e.components.input.Some?))
      && (MovementSystemId in w.systems && w.systems[MovementSystemId].kind == Movement ==>
            (id in r.systems[MovementSystemId].members <==> IsMobile(e)))
  {
    var id := entity.value.id.value;
    if InputSystemId in w.systems && w.systems[InputSystemId].kind == Input {
      assert id !in w.systems[InputSystemId].members;
      AddEntityMembership(w, entity, InputSystemId);
    }
    if MovementSystemId in w.systems && w.systems[MovementSystemId].kind == Movement {
      assert id !in w.systems[MovementSystemId].members;
      AddEntityMembership(w, entity, MovementSystemId);
    }
  }

  /**
   * Re-adding an id whose new entity the predicate rejects keeps the old
   * membership: `addEntity` never takes an id out of a set.
   */
  lemma StaleMembership(w: World, entity: Option<Entity>, sid: SystemId)
    requires IsRegistrable(entity) && sid in w.systems
    requires entity.value.id.value in w.systems[sid].members
    requires !Accepts(w.systems[sid].kind, entity.value)
    ensures entity.value.id.value in AddEntity(w, entity).systems[sid].members
  {
  }

  /** `removeEntity` keeps the registry invariant and leaves no dangling member. */
  lemma RemoveEntityPreserves(w: World, id: EntityId)
    requires WellFormed(w)
    ensures WellFormed(RemoveEntity(w, id))
    ensures NoDanglingMembers(w) ==> NoDanglingMembers(RemoveEntity(w, id))
  {
    var r := RemoveEntity(w, id);
    assert NoDup(r.entityOrder);
    assert forall x :: x in r.entityOrder <==> x in r.entities;
    assert r.systemOrder == w.systemOrder;
    forall sid | sid in r.systems
      ensures IsInstallable(Some(r.systems[sid])) && IdOf(r.systems[sid].kind) == Some(sid)
    {
      assert r.systems[sid] == Unregister(w.systems[sid], id);
    }
  }

  /** Removing an id that is not registered changes nothing. */
  lemma RemoveAbsentEntity(w: World, id: EntityId)
    requires WellFormed(w) && NoDanglingMembers(w) && id !in w.entities
    ensures RemoveEntity(w, id) == w
  {
    var r := RemoveEntity(w, id);
    forall sid | sid in w.systems
      ensures r.systems[sid] == w.systems[sid]
    {
      assert id !in w.systems[sid].members || w.systems[sid].kind.Custom?;
    }
    assert r.systems == w.systems;
    assert r.entities == w.entities;
  }

  /** Removing the same id twice is the same as removing it once. */
  lemma RemoveEntityIdempotent(w: World, id: EntityId)
    ensures RemoveEntity(RemoveEntity(w, id), id) == RemoveEntity(w, id)
  {
    var once := RemoveEntity(w, id);
    var twice := RemoveEntity(once, id);
    forall sid | sid in once.systems
      ensures twice.systems[sid] == once.systems[sid]
    {
    }
    assert twice.systems == once.systems;
    assert twice.entities == once.entities;
  }

  /**
   * `removeEntity` undoes `addEntity` of an id that was not registered:
   * the entity, its memberships, its render-surface entry and its place
   * in the iteration order are all gone again.
   */
  lemma AddThenRemoveEntity(w: World, entity: Option<Entity>)
    requires WellFormed(w) && NoDanglingMembers(w)
    requires IsRegistrable(entity) && entity.value.id.value !in w.entities
    ensures RemoveEntity(AddEntity(w, entity), entity.value.id.value) == w
  {
    UnregisteredEntityRemoved(w, entity);
  }

  /**
   * The core of `AddThenRemoveEntity`: the fresh id is nowhere in the
   * world before, neither in the order, the render surface nor any hooked
   * system's membership.
   */
  lemma UnregisteredEntityRemoved(w: World, entity: Option<Entity>)
    requires IsRegistrable(entity)
    requires var id := entity.value.id.value;
      && id !in w.entities && id !in w.entityOrder && id !in w.rendered
      && forall sid :: sid in w.systems && !w.systems[sid].kind.Custom? ==> id !in w.systems[sid].members
    ensures RemoveEntity(AddEntity(w, entity), entity.value.id.value) == w
  {
    var id := entity.value.id.value;
    var r := RemoveEntity(AddEntity(w, entity), id);
    WithoutAppended(w.entityOrder, id);
    assert r.entities == w.entities;
    forall sid | sid in w.systems
      ensures r.systems[sid] == w.systems[sid]
    {
    }
    assert r.systems == w.systems;
  }

  /**
   * The entities left after `removeEntity(id)` keep their iteration
   * order: the removed id's slot closes up and nothing else moves.
   */
  lemma RemoveEntityKeepsOrder(w: World, id: EntityId, k: nat)
    requires WellFormed(w) && k < |w.entityOrder| && w.entityOrder[k] == id
    ensures RemoveEntity(w, id).entityOrder == w.entityOrder[..k] + w.entityOrder[k + 1..]
  {
    SlotOfUniqueKey(w.entityOrder, k);
    WithoutAt(w.entityOrder, id, k);
  }

  /** `addSystem` keeps the registry invariant; a system brought in with no stale members adds no dangling one. */
  lemma AddSystemPreserves(w: World, system: Option<System>)
    requires WellFormed(w)
    ensures WellFormed(AddSystem(w, system))
    ensures NoDanglingMembers(w) && (system.Some? ==> system.value.members <= w.entities.Keys)
      ==> NoDanglingMembers(AddSystem(w, system))
  {
    if IsInstallable(system) {
      var sid := IdOf(system.value.kind).value;
      if sid !in w.systems {
        AppendFresh(w.systemOrder, sid);
      }
    }
  }

  /** `removeSystem` keeps the registry invariant and leaves no dangling member. */
  lemma RemoveSystemPreserves(w: World, sid: SystemId)
    requires WellFormed(w)
    ensures WellFormed(RemoveSystem(w, sid))
    ensures NoDanglingMembers(w) ==> NoDanglingMembers(RemoveSystem(w, sid))
  {
  }

  /**
   * The systems left after `removeSystem(sid)` keep their registration
   * order, so later frames dispatch them as before.
   */
  lemma RemoveSystemKeepsOrder(w: World, sid: SystemId, k: nat)
    requires WellFormed(w) && k < |w.systemOrder| && w.systemOrder[k] == sid
    ensures RemoveSystem(w, sid).systemOrder == w.systemOrder[..k] + w.systemOrder[k + 1..]
  {
    SlotOfUniqueKey(w.systemOrder, k);
    WithoutAt(w.systemOrder, sid, k);
  }

  /** `removeSystem` undoes `addSystem` of a system whose id was not installed. */
  lemma AddThenRemoveSystem(w: World, system: Option<System>)
    requires WellFormed(w)
    requires IsInstallable(system) && IdOf(system.value.kind).value !in w.systems
    ensures RemoveSystem(AddSystem(w, system), IdOf(system.value.kind).value) == w
  {
    UninstalledSystemRemoved(w, system);
  }

  /** The core of `AddThenRemoveSystem`: only the fresh id's absence from the registry and its order matters. */
  lemma UninstalledSystemRemoved(w: World, system: Option<System>)
    requires IsInstallable(system)
    requires IdOf(system.value.kind).value !in w.systems
    requires IdOf(system.value.kind).value !in w.systemOrder
    ensures RemoveSystem(AddSystem(w, system), IdOf(system.value.kind).value) == w
  {
    var sid := IdOf(system.value.kind).value;
    WithoutAppended(w.systemOrder, sid);
    assert (w.systems[sid := Install(system.value, w.entities)]) - {sid} == w.systems;
  }

  /** A frame keeps the registry invariant and leaves no dangling member. */
  lemma UpdatePreserves(w: World, dt: real)
    requires WellFormed(w)
    ensures WellFormed(Update(w, dt))
    ensures NoDanglingMembers(w) ==> NoDanglingMembers(Update(w, dt))
  {
  }

  /** Successive frames of the given lengths. */
  function UpdateAll(w: World, dts: seq<real>): World
    decreases |dts|
  {
    if dts == [] then w else UpdateAll(Update(w, dts[0]), dts[1..])
  }

  /** While paused, any number of frames leave the whole world as it was. */
  lemma {:induction false} PausedFrames(w: World, dts: seq<real>)
    requires w.gameState.isPaused
    ensures UpdateAll(w, dts) == w
    decreases |dts|
  {
    if dts != [] {
      PausedFrames(Update(w, dts[0]), dts[1..]);
    }
  }

  /**
   * Two frames of `a` and `b` seconds end where one frame of `a + b` does;
   * while paused, all three leave the world as it is.
   */
  lemma UpdateAdditive(w: World, a: real, b: real)
    ensures Update(Update(w, a), b) == Update(w, a + b)
  {
    var twice, once := Update(Update(w, a), b), Update(w, a + b);
    forall id | id in w.entities
      ensures twice.entities[id] == once.entities[id]
    {
      MoveAdditive(w.entities[id], a, b);
    }
    assert twice.entities == once.entities;
  }

  lemma {:induction false} EntityCallsShape(order: seq<EntityId>, entities: map<EntityId, Entity>)
    ensures forall k :: 0 <= k < |EntityCalls(order, entities)| ==> EntityCalls(order, entities)[k].EntityUpdate?
    ensures forall id :: EntityUpdate(id) in EntityCalls(order, entities) <==>
      id in order && id in entities && entities[id].hasUpdate
    decreases |order|
  {
    if order != [] {
      var init := order[..|order| - 1];
      EntityCallsShape(init, entities);
      assert order == init + [order[|order| - 1]];
    }
  }

  /**
   * An unpaused frame calls every system's `update` once, in registration
   * order, and only then the `update` hook of exactly the registered
   * entities that have one.
   */
  lemma DispatchOrder(w: World)
    requires WellFormed(w) && !w.gameState.isPaused
    ensures var calls := Dispatch(w);
      && |w.systemOrder| <= |calls|
      && (forall k :: 0 <= k < |w.systemOrder| ==> calls[k] == SystemUpdate(w.systemOrder[k]))
      && (forall k :: |w.systemOrder| <= k < |calls| ==> calls[k].EntityUpdate?)
      && (forall id :: EntityUpdate(id) in calls <==> id in w.entities && w.entities[id].hasUpdate)
  {
    var calls := Dispatch(w);
    var sys, ent := SystemCalls(w.systemOrder), EntityCalls(w.entityOrder, w.entities);
    EntityCallsShape(w.entityOrder, w.entities);
    assert calls == sys + ent;
    forall k | |w.systemOrder| <= k < |calls|
      ensures calls[k].EntityUpdate?
    {
      assert calls[k] == ent[k - |sys|];
    }
    forall id
      ensures EntityUpdate(id) in calls <==> id in w.entities && w.entities[id].hasUpdate
    {
      if EntityUpdate(id) in calls {
        var k :| 0 <= k < |calls| && calls[k] == EntityUpdate(id);
        assert k >= |sys|;
        assert ent[k - |sys|] == EntityUpdate(id);
      }
      if EntityUpdate(id) in ent {
        var k :| 0 <= k < |ent| && ent[k] == EntityUpdate(id);
        assert calls[|sys| + k] == EntityUpdate(id);
      }
    }
  }

  /** The entity hooks a frame calls depend only on which entities have one, not on their components. */
  lemma {:induction false} EntityCallsKeys(order: seq<EntityId>, a: map<EntityId, Entity>, b: map<EntityId, Entity>)
    requires a.Keys == b.Keys
    requires forall id :: id in a ==> a[id].hasUpdate == b[id].hasUpdate
    ensures EntityCalls(order, a) == EntityCalls(order, b)
    decreases |order|
  {
    if order != [] {
      EntityCallsKeys(order[..|order| - 1], a, b);
    }
  }
}
