/**
 * Clients of the orchestrator class that use only its contracts: the
 * start-up wiring, one frame of movement and the evolution ladder.
 */
module Scenarios {
  import opened Wrappers
  import opened Components
  import opened Systems
  import opened StateMachine
  import opened Registry
  import opened Gameplay

  /**
   * `init()` on a fresh orchestrator: the player is registered, designated,
   * and a member of both the input and the movement system.
   */
  method StartUp() returns (inInput: bool, inMovement: bool, designated: Option<EntityId>)
    ensures inInput && inMovement && designated == Some(PlayerId)
  {
    var game := new GameplaySystem();
    game.Init();
    assert game.systems[InputSystemId].members == {PlayerId};
    assert game.systems[MovementSystemId].members == {PlayerId};
    inInput := PlayerId in game.systems[InputSystemId].members;
    inMovement := PlayerId in game.systems[MovementSystemId].members;
    designated := game.gameState.player;
  }

  /** The entity `OneSecondFrame` drives: at the origin, one unit per second along x. */
  function Runner(): Entity
  {
    Entity(Some("player"),
      ComponentSet(Some(Vec3(0.0, 0.0, 0.0)), Some(Vec3(1.0, 0.0, 0.0)),
        Some(InputIntent(false, false, false, false)), None),
      false, false)
  }

  /** The world `RunnerWorld` builds, step by step from the empty world. */
  lemma RunnerSetUp()
    ensures var w1 := Registry.AddSystem(EmptyWorld, Some(System(Movement, {})));
      var w2 := Registry.AddSystem(w1, Some(System(Input, {})));
      Registry.AddEntity(w2, Some(Runner())) == World(["player"], map["player" := Runner()],
        [MovementSystemId, InputSystemId],
        map[MovementSystemId := System(Movement, {"player"}), InputSystemId := System(Input, {"player"})],
        {}, InitialGameState)
  {
    assert Accepted(Movement, map[]) == {} && Accepted(Input, map[]) == {};
    assert Install(System(Movement, {}), map[]) == System(Movement, {});
    assert Install(System(Input, {}), map[]) == System(Input, {});
    var w1 := Registry.AddSystem(EmptyWorld, Some(System(Movement, {})));
    assert w1.systems == map[MovementSystemId := System(Movement, {})];
    var w2 := Registry.AddSystem(w1, Some(System(Input, {})));
    assert w2.systems == map[MovementSystemId := System(Movement, {}), InputSystemId := System(Input, {})];
    var w3 := Registry.AddEntity(w2, Some(Runner()));
    assert Register(System(Movement, {}), "player", Runner()) == System(Movement, {"player"});
    assert Register(System(Input, {}), "player", Runner()) == System(Input, {"player"});
    assert w3.systems.Keys == w2.systems.Keys;
    assert w3.systems == map[MovementSystemId := System(Movement, {"player"}), InputSystemId := System(Input, {"player"})];
  }

  /**
   * A fresh orchestrator given the movement system, then the input system,
   * then `Runner()`: the runner is a member of both and the clock is at 0.
   */
  method RunnerWorld() returns (game: GameplaySystem)
    ensures fresh(game) && game.Valid()
    ensures game.entities == map["player" := Runner()] && game.entityOrder == ["player"]
    ensures game.systemOrder == [MovementSystemId, InputSystemId]
    ensures game.systems == map[MovementSystemId := System(Movement, {"player"}), InputSystemId := System(Input, {"player"})]
    ensures game.gameState == InitialGameState
  {
    game := new GameplaySystem();
    game.AddSystem(Some(System(Movement, {})));
    game.AddSystem(Some(System(Input, {})));
    game.AddEntity(Some(Runner()));
    RunnerSetUp();
  }

  /**
   * One frame of a second over `RunnerWorld()`: the runner is at (1, 0, 0),
   * the clock reads 1, and the frame ran the movement system and then the
   * input system, with no entity hook.
   */
  method OneSecondFrame() returns (position: Option<Vec3>, gameTime: real, ghost calls: seq<Call>)
    ensures position == Some(Vec3(1.0, 0.0, 0.0)) && gameTime == 1.0
    ensures calls == [SystemUpdate(MovementSystemId), SystemUpdate(InputSystemId)]
  {
    var game := RunnerWorld();
    calls := game.Update(1.0);
    assert EntityCalls(["player"], map["player" := Runner()]) == [] by {
      assert ["player"][..0] == [];
    }
    assert game.entities["player"] == Move(Runner(), 1.0);
    position := game.entities["player"].components.position;
    gameTime := game.gameState.gameTime;
  }

  /** A new game evolved four times passes through stages 1, 2, 3 and then stays at 3. */
  method EvolutionLadder() returns (stages: seq<int>)
    ensures stages == [1, 2, 3, 3]
  {
    var game := new GameplaySystem();
    game.StartNewGame();
    stages := [];
    var n := 0;
    while n < 4
      invariant 0 <= n <= 4
      invariant game.Valid()
      invariant game.gameState.evolutionStage == if n < 3 then n else 3
      invariant stages == [1, 2, 3, 3][..n]
    {
      game.Evolve();
      stages := stages + [game.gameState.evolutionStage];
      n := n + 1;
    }
  }
}
