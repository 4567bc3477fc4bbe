/** The game-tree search engine's view of a game, the joint actions it
    expands states with, and the configuration record that stands for the
    choice of mixin classes a concrete search is assembled from. */
module SearchGame {
  import opened Common
  import opened Scores

  /** A joint action: one entry per player that `legal_moves` listed, in
      that order, holding the chosen move or `None` for a pass. */
  type JointAction<P, M> = Dict<P, Option<M>>

  /** Per-player scores, in the order the evaluator produced them. */
  type Slate<P> = Dict<P, Score>

  /** The game contract the engine consumes. `winner` returns the winning
      player or a draw marker of the same type; `None` means the game goes
      on. The named evaluators and portfolios are the game's
      `evaluation_funcs` and `portfolios` dicts, `evaluateState` its
      `evaluate_state` function; each is `None` when the game class has no
      such attribute. */
  datatype Game<!S, !P, !M, H> = Game(
    players: seq<P>,
    legalMoves: S -> Dict<P, seq<M>>,
    makeMove: (S, JointAction<P, M>) -> S,
    winner: S -> Option<P>,
    hash: S -> H,
    evaluationFuncs: Option<Dict<string, S -> Slate<P>>>,
    evaluateState: Option<S -> Slate<P>>,
    portfolios: Option<Dict<string, (S, Dict<P, seq<M>>) -> seq<M>>>)

  /** How `build_tree` runs the build loop. */
  datatype Expansion =
    | NoExpansion
    | FullExpansion
    | NodeLimitedExpansion(nodeLimit: int)
    | StepLimitedExpansion(expansionSteps: int)

  /** Which states `select_states_to_expand` hands to `step`. */
  datatype Queue =
    | NoExpansionQueue
    | SingleNodeBreadthSearch
    | SingleNodeDepthSearch
    | BreadthSearch

  /** How the joint actions of a state are generated. */
  datatype ActionGeneration = AllCombinations | Portfolio(portfolio: string)

  /** How per-player scores become the searcher's single score. */
  datatype StateEvaluation = ZeroSumPlayer | RacerPlayer

  /** Where the per-player scores come from. Monte Carlo rollouts are
      random; the engine takes their outcome as a parameter. */
  datatype PlayerEvaluation =
    | GameBasedEvaluation(evaluationFunction: string)
    | WinnerBasedEvaluation
    | MonteCarloBasedEvaluation

  /** How the move is chosen once the tree is built. */
  datatype ActionSelection = BestMovePlayer | RandomChooser | BestPaths

  /** The mixin classes a search is assembled from, one per axis. `None`
      marks an axis for which no mixin was included. */
  datatype Config = Config(
    expansion: Expansion,
    queue: Option<Queue>,
    actions: ActionGeneration,
    stateEvaluation: StateEvaluation,
    playerEvaluation: Option<PlayerEvaluation>,
    selection: ActionSelection,
    analysis: bool)

  /** `setup_expansion`, which `Search.__init__` calls after storing the
      root: only a queue mixin defines it; without one the base class's
      method raises NotImplementedError, so no search object is made. */
  function SetupExpansion(cfg: Config): (r: Result<Queue, Exc>)
    ensures r.Err? <==> cfg.queue.None?
    ensures r.Err? ==> r.error == NotImplementedError
    ensures r.Ok? ==> cfg.queue == Some(r.value)
  {
    match cfg.queue
    case None => Err(NotImplementedError)
    case Some(q) => Ok(q)
  }

  /** A search instance's constant part: the game, the searching player,
      the configuration, the outcome of the random rollouts, and `fuel`, the
      bound the model puts on the loops that Python leaves unbounded. */
  datatype Engine<!S, !P, !M, H> = Engine(
    game: Game<S, P, M, H>,
    player: P,
    cfg: Config,
    rollout: S -> Slate<P>,
    fuel: nat)

  /** `StateOfTheArt` (pychology/search.py:552-564). */
  function StateOfTheArt(): Config {
    Config(NodeLimitedExpansion(10000), Some(SingleNodeBreadthSearch), AllCombinations,
           ZeroSumPlayer, Some(MonteCarloBasedEvaluation), BestMovePlayer, true)
  }

  /** `FixedPliesAI` (pychology/search.py:567-578). It includes no
      per-player evaluation mixin. */
  function FixedPliesAI(): Config {
    Config(StepLimitedExpansion(2), Some(BreadthSearch), AllCombinations,
           ZeroSumPlayer, None, BestMovePlayer, true)
  }

  /** `RandomAI` (pychology/search.py:581-590). */
  function RandomAI(): Config {
    Config(NoExpansion, Some(NoExpansionQueue), AllCombinations,
           ZeroSumPlayer, None, RandomChooser, false)
  }
}
