/**
 * The game-wide state and the evolution state machine, with the two
 * configuration values the core consumes.
 */
module StateMachine {
  import opened Wrappers
  import opened Components

  /** `config.initialScene`. */
  const InitialScene: string := "pixel_village"
  /** `config.maxEvolutionStage`. */
  const MaxEvolutionStage: int := 4

  /**
   * `gameState`: the designated player (by id), the current scene (`None`
   * before the first load), the evolution stage, the elapsed game time in
   * seconds and the pause flag.
   */
  datatype GameState = GameState(
    player: Option<EntityId>,
    currentScene: Option<string>,
    evolutionStage: int,
    gameTime: real,
    isPaused: bool)

  /** The state a fresh orchestrator starts in. */
  const InitialGameState := GameState(None, None, 0, 0.0, false)

  /**
   * One `evolve()` step against a stage cap `max`: the next stage is taken
   * only while it stays below the cap, otherwise the stage stays put.
   */
  function Evolved(stage: int, max: int): (r: int)
    ensures r == stage + 1 <==> stage + 1 < max
    ensures r == stage <==> stage + 1 >= max
  {
    if stage + 1 >= max then stage else stage + 1
  }

  /** `evolve()` keeps the stage in `[0, max)` and never lowers it. */
  lemma EvolvedInRange(stage: int, max: int)
    requires 0 <= stage < max
    ensures 0 <= stage <= Evolved(stage, max) < max
  {
  }

  /** The stage after `n` successive calls to `evolve()`. */
  function EvolvedTimes(stage: int, max: int, n: nat): int
    decreases n
  {
    if n == 0 then stage else EvolvedTimes(Evolved(stage, max), max, n - 1)
  }

  /**
   * From stage 0, `n` calls to `evolve()` reach stage `min(n, max - 1)`:
   * the stage climbs one step per call and then sticks at `max - 1`.
   */
  lemma EvolvedTimesFromZero(max: int, n: nat)
    requires max >= 1
    ensures EvolvedTimes(0, max, n) == if n < max then n else max - 1
  {
    EvolvedTimesFrom(0, max, n);
  }

  lemma {:induction false} EvolvedTimesFrom(stage: int, max: int, n: nat)
    requires 0 <= stage < max
    ensures EvolvedTimes(stage, max, n) == if stage + n < max then stage + n else max - 1
    decreases n
  {
    if n > 0 {
      EvolvedTimesFrom(Evolved(stage, max), max, n - 1);
    }
  }

  /** With the configured cap of 4, successive calls give 1, 2, 3, 3, 3. */
  lemma ConfiguredEvolution()
    ensures EvolvedTimes(0, MaxEvolutionStage, 1) == 1
    ensures EvolvedTimes(0, MaxEvolutionStage, 2) == 2
    ensures EvolvedTimes(0, MaxEvolutionStage, 3) == 3
    ensures EvolvedTimes(0, MaxEvolutionStage, 4) == 3
    ensures EvolvedTimes(0, MaxEvolutionStage, 5) == 3
  {
    EvolvedTimesFromZero(MaxEvolutionStage, 4);
    EvolvedTimesFromZero(MaxEvolutionStage, 5);
  }
}
