/**
 * Whether the final membership sets depend on the order in which systems
 * and entities are registered. `addSystem` offers every present entity to
 * the new system and `addEntity` offers the new entity to every present
 * system, so for distinct entity ids the two orders agree. They do not
 * agree when an id is registered twice: `addEntity` never prunes, so a
 * rebind to an entity the predicate rejects keeps the old membership only
 * when the system was there first.
 */
module RegistrationOrder {
  import opened Wrappers
  import opened Components
  import opened Systems
  import opened Registry

  /** `addEntity` for each element, first to last. */
  function AddEntities(w: World, es: seq<Option<Entity>>): World
    decreases |es|
  {
    if es == [] then w else AddEntities(AddEntity(w, es[0]), es[1..])
  }

  /** `addSystem` for each element, first to last. */
  function AddSystems(w: World, ss: seq<Option<System>>): World
    decreases |ss|
  {
    if ss == [] then w else AddSystems(AddSystem(w, ss[0]), ss[1..])
  }

  /** The ids of the registrable entities in `es`. */
  function Ids(es: seq<Option<Entity>>): set<EntityId>
    decreases |es|
  {
    if es == [] then {}
    else (if IsRegistrable(es[0]) then {es[0].value.id.value} else {}) + Ids(es[1..])
  }

  /** No id is registered twice in `es`. */
  ghost predicate DistinctIds(es: seq<Option<Entity>>)
    decreases |es|
  {
    es == [] ||
    ((IsRegistrable(es[0]) ==> es[0].value.id.value !in Ids(es[1..])) && DistinctIds(es[1..]))
  }

  /** The id a system of this kind takes from one `addEntity(entity)`, if any. */
  function AdmittedBy(kind: SystemKind, entity: Option<Entity>): set<EntityId>
  {
    if IsRegistrable(entity) && Accepts(kind, entity.value) then {entity.value.id.value} else {}
  }

  /** The ids of the entities in `es` that a system of this kind takes when offered them. */
  function Admitted(kind: SystemKind, es: seq<Option<Entity>>): set<EntityId>
    decreases |es|
  {
    if es == [] then {} else AdmittedBy(kind, es[0]) + Admitted(kind, es[1..])
  }

  /** The entity map `es` leaves behind: the last entity registered under each id. */
  function Catalog(es: seq<Option<Entity>>): map<EntityId, Entity>
    decreases |es|
  {
    if es == [] then map[]
    else
      var rest := Catalog(es[1..]);
      if IsRegistrable(es[0]) && es[0].value.id.value !in rest then rest[es[0].value.id.value := es[0].value]
      else rest
  }

  /** The system map `ss` leaves behind before any entity is offered: the last system installed under each id. */
  function Latest(ss: seq<Option<System>>): map<SystemId, System>
    decreases |ss|
  {
    if ss == [] then map[]
    else (if IsInstallable(ss[0]) then map[IdOf(ss[0].value.kind).value := ss[0].value] else map[]) + Latest(ss[1..])
  }

  lemma {:induction false} CatalogKeys(es: seq<Option<Entity>>)
    ensures Catalog(es).Keys == Ids(es)
    decreases |es|
  {
    if es != [] {
      CatalogKeys(es[1..]);
    }
  }

  /** Adding entities never adds, drops or re-kinds a system. */
  lemma {:induction false} EntitiesKeepSystems(w: World, es: seq<Option<Entity>>)
    ensures AddEntities(w, es).systems.Keys == w.systems.Keys
    ensures forall sid :: sid in w.systems ==> AddEntities(w, es).systems[sid].kind == w.systems[sid].kind
    decreases |es|
  {
    if es != [] {
      EntitiesKeepSystems(AddEntity(w, es[0]), es[1..]);
    }
  }

  /** Adding entities to a present system: it gains exactly the ids its predicate admitted along the way. */
  lemma {:induction false} EntitiesIntoSystem(w: World, es: seq<Option<Entity>>, sid: SystemId)
    requires sid in w.systems
    ensures sid in AddEntities(w, es).systems
    ensures AddEntities(w, es).systems[sid] ==
      System(w.systems[sid].kind, w.systems[sid].members + Admitted(w.systems[sid].kind, es))
    decreases |es|
  {
    EntitiesKeepSystems(w, es);
    if es != [] {
      var w1 := AddEntity(w, es[0]);
      var s := w.systems[sid];
      assert w1.systems[sid] == System(s.kind, s.members + AdmittedBy(s.kind, es[0]));
      EntitiesIntoSystem(w1, es[1..], sid);
    }
  }

  /** Adding entities leaves the last entity registered under each id. */
  lemma {:induction false} EntitiesCatalog(w: World, es: seq<Option<Entity>>)
    ensures AddEntities(w, es).entities == w.entities + Catalog(es)
    decreases |es|
  {
    if es != [] {
      var w1 := AddEntity(w, es[0]);
      EntitiesCatalog(w1, es[1..]);
      var rest := Catalog(es[1..]);
      CatalogKeys(es[1..]);
      if IsRegistrable(es[0]) {
        var id := es[0].value.id.value;
        assert w1.entities == w.entities[id := es[0].value];
        assert Catalog(es) == (if id in rest then rest else rest[id := es[0].value]);
      }
    }
  }

  /** Adding systems never touches the entity map. */
  lemma {:induction false} SystemsKeepEntities(w: World, ss: seq<Option<System>>)
    ensures AddSystems(w, ss).entities == w.entities
    decreases |ss|
  {
    if ss != [] {
      SystemsKeepEntities(AddSystem(w, ss[0]), ss[1..]);
    }
  }

  /**
   * Adding systems over present entities: the system map gains the ids
   * installed, and each one holds the last system installed under it,
   * offered every present entity.
   */
  lemma {:induction false} SystemsOverEntities(w: World, ss: seq<Option<System>>, sid: SystemId)
    ensures sid in AddSystems(w, ss).systems <==> sid in w.systems || sid in Latest(ss)
    ensures sid in Latest(ss) ==> AddSystems(w, ss).systems[sid] == Install(Latest(ss)[sid], w.entities)
    ensures sid !in Latest(ss) && sid in w.systems ==> AddSystems(w, ss).systems[sid] == w.systems[sid]
    decreases |ss|
  {
    if ss != [] {
      var w1 := AddSystem(w, ss[0]);
      SystemsKeepEntities(w1, ss[1..]);
      SystemsOverEntities(w1, ss[1..], sid);
    }
  }

  /** With distinct ids, offering the final entity map admits what offering each entity in turn admitted. */
  lemma {:induction false} CatalogAdmitted(kind: SystemKind, es: seq<Option<Entity>>)
    requires DistinctIds(es)
    ensures Accepted(kind, Catalog(es)) == Admitted(kind, es)
    decreases |es|
  {
    if es != [] {
      CatalogAdmitted(kind, es[1..]);
      CatalogKeys(es[1..]);
      var rest := Catalog(es[1..]);
      if IsRegistrable(es[0]) {
        var id := es[0].value.id.value;
        assert id !in rest;
        assert Catalog(es) == rest[id := es[0].value];
        forall x
          ensures x in Accepted(kind, Catalog(es)) <==> x in Admitted(kind, es)
        {
          if x != id {
            assert x in Accepted(kind, Catalog(es)) <==> x in Accepted(kind, rest);
          }
        }
      } else {
        assert Catalog(es) == rest;
      }
    }
  }

  /**
   * Registration order does not matter for distinct entity ids: starting
   * from empty registries, adding all systems and then all entities leaves
   * the same systems, with the same membership sets, as adding all
   * entities and then all systems.
   */
  lemma RegistrationOrderIndependent(w: World, ss: seq<Option<System>>, es: seq<Option<Entity>>)
    requires w.entities == map[] && w.systems == map[]
    requires DistinctIds(es)
    ensures AddEntities(AddSystems(w, ss), es).systems == AddSystems(AddEntities(w, es), ss).systems
  {
    var a := AddEntities(AddSystems(w, ss), es).systems;
    var b := AddSystems(AddEntities(w, es), ss).systems;
    forall sid
      ensures sid in a <==> sid in b
      ensures sid in a ==> a[sid] == b[sid]
    {
      SameSystemEitherOrder(w, ss, es, sid);
    }
  }

  /** `RegistrationOrderIndependent` for one system id. */
  lemma SameSystemEitherOrder(w: World, ss: seq<Option<System>>, es: seq<Option<Entity>>, sid: SystemId)
    requires w.entities == map[] && w.systems == map[]
    requires DistinctIds(es)
    ensures var a, b := AddEntities(AddSystems(w, ss), es).systems, AddSystems(AddEntities(w, es), ss).systems;
      && (sid in a <==> sid in b)
      && (sid in a ==> a[sid] == b[sid])
  {
    var systemsFirst := AddSystems(w, ss);
    var entitiesFirst := AddEntities(w, es);
    SystemsKeepEntities(w, ss);
    EntitiesKeepSystems(w, es);
    EntitiesKeepSystems(systemsFirst, es);
    EntitiesCatalog(w, es);
    assert entitiesFirst.entities == Catalog(es);
    SystemsOverEntities(w, ss, sid);
    SystemsOverEntities(entitiesFirst, ss, sid);
    if sid in systemsFirst.systems {
      var s := Latest(ss)[sid];
      assert Accepted(s.kind, map[]) == {};
      assert systemsFirst.systems[sid] == s;
      EntitiesIntoSystem(systemsFirst, es, sid);
      CatalogAdmitted(s.kind, es);
    }
  }

  /** One registration call: `addEntity(entity)` or `addSystem(system)`. */
  datatype Registration = EntityAdded(entity: Option<Entity>) | SystemAdded(system: Option<System>)

  /** The registration calls in `ops`, first to last, in any interleaving. */
  function Replay(w: World, ops: seq<Registration>): World
    decreases |ops|
  {
    if ops == [] then w
    else
      var w1 := match ops[0]
        case EntityAdded(e) => AddEntity(w, e)
        case SystemAdded(s) => AddSystem(w, s);
      Replay(w1, ops[1..])
  }

  /** The `addEntity` arguments of `ops`, in order. */
  function EntitiesOf(ops: seq<Registration>): seq<Option<Entity>>
    decreases |ops|
  {
    if ops == [] then []
    else (if ops[0].EntityAdded? then [ops[0].entity] else []) + EntitiesOf(ops[1..])
  }

  /** The `addSystem` arguments of `ops`, in order. */
  function SystemsOf(ops: seq<Registration>): seq<Option<System>>
    decreases |ops|
  {
    if ops == [] then []
    else (if ops[0].SystemAdded? then [ops[0].system] else []) + SystemsOf(ops[1..])
  }

  /** Offering two entity maps with disjoint keys admits what offering each one admits. */
  lemma AcceptedUnion(kind: SystemKind, a: map<EntityId, Entity>, b: map<EntityId, Entity>)
    requires a.Keys !! b.Keys
    ensures Accepted(kind, a + b) == Accepted(kind, a) + Accepted(kind, b)
  {
    forall x | x in a
      ensures (a + b)[x] == a[x]
    {
      assert x !in b;
    }
  }

  /**
   * What replaying `ops` over `w` leaves in system `sid`, in terms of the
   * systems registered last and the entities registered along the way.
   */
  ghost predicate ReplayShape(w: World, ops: seq<Registration>, sid: SystemId, r: World)
  {
    var latest := Latest(SystemsOf(ops));
    && (sid in r.systems <==> sid in w.systems || sid in latest)
    && (sid in latest ==>
          r.systems[sid] == System(latest[sid].kind,
            latest[sid].members + Accepted(latest[sid].kind, w.entities + Catalog(EntitiesOf(ops)))))
    && (sid !in latest && sid in w.systems ==>
          r.systems[sid] == System(w.systems[sid].kind,
            w.systems[sid].members + Admitted(w.systems[sid].kind, EntitiesOf(ops))))
  }

  /** No entity id registered by `ops` is already in `w`, and none twice. */
  ghost predicate FreshRegistrations(w: World, ops: seq<Registration>)
  {
    && DistinctIds(EntitiesOf(ops))
    && forall id :: id in Ids(EntitiesOf(ops)) ==> id !in w.entities
  }

  /**
   * A system the replay installs ends up holding its own set plus every
   * entity the predicate takes from the final entity map, wherever in the
   * interleaving it was installed; a system present from the start and
   * never replaced gains exactly the ids admitted along the way.
   */
  lemma {:induction false} ReplaySystem(w: World, ops: seq<Registration>, sid: SystemId)
    requires FreshRegistrations(w, ops)
    ensures ReplayShape(w, ops, sid, Replay(w, ops))
    decreases |ops|
  {
    if ops == [] {
      assert w.entities + map[] == w.entities;
      return;
    }
    var rest := ops[1..];
    match ops[0]
    case EntityAdded(e) =>
      var w1 := AddEntity(w, e);
      assert Replay(w, ops) == Replay(w1, rest);
      EntityStepFresh(w, ops, e);
      ReplaySystem(w1, rest, sid);
      EntityStep(w, ops, e, sid, Replay(w1, rest));
    case SystemAdded(sys) =>
      var w1 := AddSystem(w, sys);
      assert Replay(w, ops) == Replay(w1, rest);
      assert EntitiesOf(ops) == EntitiesOf(rest);
      ReplaySystem(w1, rest, sid);
      SystemStep(w, ops, sys, sid, Replay(w1, rest));
  }

  /** Registering an entity first keeps the remaining registrations fresh. */
  lemma EntityStepFresh(w: World, ops: seq<Registration>, e: Option<Entity>)
    requires ops != [] && ops[0] == EntityAdded(e)
    requires FreshRegistrations(w, ops)
    ensures FreshRegistrations(AddEntity(w, e), ops[1..])
  {
    var es, restEs := EntitiesOf(ops), EntitiesOf(ops[1..]);
    assert es == [e] + restEs;
    assert es[1..] == restEs;
  }

  /** `ReplayShape` carries back over a leading `addEntity`. */
  lemma EntityStep(w: World, ops: seq<Registration>, e: Option<Entity>, sid: SystemId, r: World)
    requires ops != [] && ops[0] == EntityAdded(e)
    requires FreshRegistrations(w, ops)
    requires ReplayShape(AddEntity(w, e), ops[1..], sid, r)
    ensures ReplayShape(w, ops, sid, r)
  {
    var es, restEs := EntitiesOf(ops), EntitiesOf(ops[1..]);
    assert es == [e] + restEs;
    assert es[1..] == restEs;
    assert SystemsOf(ops) == SystemsOf(ops[1..]);
    EntityIntoCatalog(w, e, restEs);
    if sid in w.systems {
      EntityIntoSystem(w, e, sid);
    }
  }

  /** The entity map after one `addEntity` and then `rest`, for an id `rest` does not reuse. */
  lemma EntityIntoCatalog(w: World, e: Option<Entity>, rest: seq<Option<Entity>>)
    requires DistinctIds([e] + rest)
    ensures AddEntity(w, e).entities + Catalog(rest) == w.entities + Catalog([e] + rest)
  {
    var es := [e] + rest;
    assert es[1..] == rest;
    CatalogKeys(rest);
    if IsRegistrable(e) {
      var id := e.value.id.value;
      assert id !in Catalog(rest);
      assert Catalog(es) == Catalog(rest)[id := e.value];
    }
  }

  /** One `addEntity` adds to a system exactly the id it admits. */
  lemma EntityIntoSystem(w: World, e: Option<Entity>, sid: SystemId)
    requires sid in w.systems
    ensures AddEntity(w, e).systems[sid] ==
      System(w.systems[sid].kind, w.systems[sid].members + AdmittedBy(w.systems[sid].kind, e))
  {
  }

  /** `ReplayShape` carries back over a leading `addSystem`. */
  lemma SystemStep(w: World, ops: seq<Registration>, sys: Option<System>, sid: SystemId, r: World)
    requires ops != [] && ops[0] == SystemAdded(sys)
    requires FreshRegistrations(w, ops)
    requires ReplayShape(AddSystem(w, sys), ops[1..], sid, r)
    ensures ReplayShape(w, ops, sid, r)
  {
    var w1 := AddSystem(w, sys);
    var es := EntitiesOf(ops);
    assert es == EntitiesOf(ops[1..]);
    assert SystemsOf(ops) == [sys] + SystemsOf(ops[1..]);
    assert SystemsOf(ops)[1..] == SystemsOf(ops[1..]);
    if IsInstallable(sys) && IdOf(sys.value.kind).value == sid && sid !in Latest(SystemsOf(ops[1..])) {
      var k := sys.value.kind;
      assert w1.systems[sid] == System(k, sys.value.members + Accepted(k, w.entities));
      CatalogKeys(es);
      CatalogAdmitted(k, es);
      AcceptedUnion(k, w.entities, Catalog(es));
    }
  }

  /**
   * Registration order does not matter for distinct entity ids, for any
   * interleaving of `addSystem` and `addEntity` calls: from empty
   * registries, every interleaving leaves the same systems, with the same
   * membership sets, as adding all systems first and then all entities.
   */
  lemma InterleavedRegistration(w: World, ops: seq<Registration>)
    requires w.entities == map[] && w.systems == map[]
    requires DistinctIds(EntitiesOf(ops))
    ensures Replay(w, ops).systems == AddEntities(AddSystems(w, SystemsOf(ops)), EntitiesOf(ops)).systems
  {
    var a := Replay(w, ops).systems;
    var b := AddEntities(AddSystems(w, SystemsOf(ops)), EntitiesOf(ops)).systems;
    forall sid
      ensures sid in a <==> sid in b
      ensures sid in a ==> a[sid] == b[sid]
    {
      SameSystemInterleaved(w, ops, sid);
    }
  }

  /** `InterleavedRegistration` for one system id. */
  lemma SameSystemInterleaved(w: World, ops: seq<Registration>, sid: SystemId)
    requires w.entities == map[] && w.systems == map[]
    requires DistinctIds(EntitiesOf(ops))
    ensures var a, b := Replay(w, ops).systems, AddEntities(AddSystems(w, SystemsOf(ops)), EntitiesOf(ops)).systems;
      && (sid in a <==> sid in b)
      && (sid in a ==> a[sid] == b[sid])
  {
    var ss, es := SystemsOf(ops), EntitiesOf(ops);
    ReplaySystem(w, ops, sid);
    assert ReplayShape(w, ops, sid, Replay(w, ops));
    var systemsFirst := AddSystems(w, ss);
    SystemsKeepEntities(w, ss);
    SystemsOverEntities(w, ss, sid);
    EntitiesKeepSystems(systemsFirst, es);
    assert w.entities + Catalog(es) == Catalog(es);
    if sid in systemsFirst.systems {
      var s := Latest(ss)[sid];
      assert Accepted(s.kind, map[]) == {};
      assert systemsFirst.systems[sid] == s;
      EntitiesIntoSystem(systemsFirst, es, sid);
      CatalogAdmitted(s.kind, es);
    }
  }

  /** An entity for the rebind example: "hero", with or without input intent. */
  function Hero(withInput: bool): Entity
  {
    var flags := InputIntent(false, false, false, false);
    Entity(Some("hero"), ComponentSet(None, None, if withInput then Some(flags) else None, None), false, false)
  }

  /**
   * Rebinding an id breaks order independence: registering "hero" with
   * input intent and then again without it leaves "hero" in the input
   * system when the system came first, but not when it came last.
   */
  lemma RebindBreaksOrderIndependence()
    ensures var ss, es := [Some(System(Input, {}))], [Some(Hero(true)), Some(Hero(false))];
      && "hero" in AddEntities(AddSystems(EmptyWorld, ss), es).systems[InputSystemId].members
      && "hero" !in AddSystems(AddEntities(EmptyWorld, es), ss).systems[InputSystemId].members
  {
    var ss, es := [Some(System(Input, {}))], [Some(Hero(true)), Some(Hero(false))];
    var systemsFirst := AddSystems(EmptyWorld, ss);
    SystemsOverEntities(EmptyWorld, ss, InputSystemId);
    assert Latest(ss) == map[InputSystemId := System(Input, {})];
    assert Accepted(Input, map[]) == {};
    EntitiesIntoSystem(systemsFirst, es, InputSystemId);
    assert "hero" in AdmittedBy(Input, es[0]);

    var entitiesFirst := AddEntities(EmptyWorld, es);
    EntitiesCatalog(EmptyWorld, es);
    assert Catalog(es[1..]) == map["hero" := Hero(false)];
    assert entitiesFirst.entities == map["hero" := Hero(false)];
    SystemsOverEntities(entitiesFirst, ss, InputSystemId);
    assert "hero" !in Accepted(Input, entitiesFirst.entities);
  }
}
