/**
 * Entities and their component kinds (position, velocity, input intent,
 * stats). Components are data only; numbers that are JavaScript doubles in
 * the game are idealised here as mathematical reals.
 */
module Components {
  import opened Wrappers

  type EntityId = string

  datatype Vec3 = Vec3(x: real, y: real, z: real)

  /** The input-intent flags of the built-in player. */
  datatype InputIntent = InputIntent(moveForward: bool, moveBackward: bool, moveLeft: bool, moveRight: bool)

  datatype Stats = Stats(health: int, maxHealth: int, level: int, experience: int)

  /** The `components` object of an entity; an absent kind is `None`. */
  datatype ComponentSet = ComponentSet(
    position: Option<Vec3>,
    velocity: Option<Vec3>,
    input: Option<InputIntent>,
    stats: Option<Stats>)

  /**
   * An entity as handed to `addEntity`: its `id` (absent or empty counts as
   * missing, as JavaScript treats "" as false), its components, whether it
   * carries a renderable `model` and whether it has its own `update` hook.
   */
  datatype Entity = Entity(id: Option<EntityId>, components: ComponentSet, hasModel: bool, hasUpdate: bool)

  /** `addEntity` accepts a non-null entity whose `id` is present and non-empty. */
  predicate IsRegistrable(entity: Option<Entity>)
  {
    entity.Some? && entity.value.id.Some? && entity.value.id.value != ""
  }

  /** The kinds the movement system needs: both a position and a velocity. */
  predicate IsMobile(e: Entity)
  {
    e.components.position.Some? && e.components.velocity.Some?
  }

  /** One movement step of one entity: `position += velocity * dt` on each axis. */
  function Move(e: Entity, dt: real): (r: Entity)
    ensures r.id == e.id && r.hasModel == e.hasModel && r.hasUpdate == e.hasUpdate
    ensures r.components.velocity == e.components.velocity
    ensures r.components.input == e.components.input && r.components.stats == e.components.stats
    ensures IsMobile(r) == IsMobile(e)
    ensures !IsMobile(e) ==> r == e
  {
    if IsMobile(e) then
      var p := e.components.position.value;
      var v := e.components.velocity.value;
      e.(components := e.components.(position := Some(Vec3(p.x + v.x * dt, p.y + v.y * dt, p.z + v.z * dt))))
    else e
  }

  /** Two frames of `a` and `b` seconds move an entity as far as one frame of `a + b`. */
  lemma MoveAdditive(e: Entity, a: real, b: real)
    ensures Move(Move(e, a), b) == Move(e, a + b)
  {
    if IsMobile(e) {
      var v := e.components.velocity.value;
      var p := e.components.position.value;
      var twice, once := Move(Move(e, a), b), Move(e, a + b);
      var q, r := twice.components.position.value, once.components.position.value;
      assert q.x == (p.x + v.x * a) + v.x * b == p.x + v.x * (a + b) == r.x;
      assert q.y == (p.y + v.y * a) + v.y * b == p.y + v.y * (a + b) == r.y;
      assert q.z == (p.z + v.z * a) + v.z * b == p.z + v.z * (a + b) == r.z;
      assert q == Vec3(r.x, r.y, r.z) == r;
      assert twice.components.position == Some(q);
      assert twice.components == once.components;
    }
  }
}
