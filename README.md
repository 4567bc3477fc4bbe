# pychology in Dafny

A model of the game-AI toolkit pychology and proofs about it. The model covers:

- **The composable game-tree search engine** (`pychology/search.py`).
  - A transposition table keeps one node per state hash, child and parent edges, and per-node `value` and `opinion`.
  - `Search.step` is the build loop.
  - The queue policies (breadth, depth, whole layer) and the expansion policies (full, node-limited, step-limited).
  - Joint-action generation: the Cartesian product with a `None` pass, and portfolios.
  - Minimax re-evaluation of a node and the FIFO back-propagation worklist.
  - The zero-sum and racer state evaluations.
  - The winner-based, game-based and Monte Carlo per-player evaluations.
  - The weighted `evaluate_state` helper.
  - Move selection: best move, random move, best paths.
- **Behaviour trees** (`pychology/behavior_trees.py`): the three-valued node states, the decorators, counters, Chain, Priorities and the root wrapper.
- **A\*** (`pychology/simple_search/a_star.py`) and the text-labyrinth example built on it (`examples/a_star_on_text_labyrinth.py`).
- **The blackboard** with its parent chain (`pychology/blackboard.py`).
- **The knowledge base's arity registry and symbol interning** (`pychology/knowledge.py`).
- **The BrainJar command-to-plan protocol** (`pychology/brainjar.py`).
- **The configuration-string parser and AI-to-player mapping** of the game REPL (`pychology/games/repl.py`).
- **The five rule modules the engine plays**: tic-tac-toe, connect four, nine men's morris, the text labyrinth and the three-player trick-taking game. Nine men's morris and connect four are also assembled into the engine's game value (`GameInstances`), with lemmas that every joint action the engine expands a state with plays one of the mover's legal moves.

The model keeps the form of the source. Pure code, such as the rule modules, minimax and best paths, becomes datatypes, functions and lemmas. Objects whose methods update fields in place become classes:

- `Blackboard`, `BrainJar` and `KnowledgeBase`;
- the `BehaviorTree` wrapper;
- the `Search` object, whose methods are each proved equal to a function on a snapshot of the table.

Loops become methods with loop invariants, each proved against a specification function.

Some modelling choices:

- Python dicts whose order matters are association lists, `Common.Dict`.
- `math.inf` scores are `Scores.Score` (`NegInf`, `Fin(n)`, `PosInf`, `NaN`), with Python's comparison, `min`, `max`, `+`, `-` and `sum` on them. `NaN` is needed because the engine can add `inf` to `-inf`.
- Exceptions are `Err` values of `Common.Result`.
- The mixin classes a search is assembled from are a configuration record of enums (`SearchGame.Config`).
- Randomness and console I/O are parameters.

The engine's main results:

- Every build policy keeps the table well formed: one node per hash, every child edge matched by a parent entry leading back, edges only between known states. It also leaves every opinion settled, meaning equal to what minimax gives on the current children (`SearchStep.BuildTreeValid`).
- Minimax picks the best worst case over the searcher's own moves (`Minimax.MinimaxChoice`).
- The best-move player therefore returns a minimax move (`SearchEngine.BestMoveIsMinimax`).
- Best paths follow opinion-valued edges without repeating a hash and stop at the first state with a winner (`BestPaths.FindPathFound`), and every such path is returned (`BestPaths.FindPathComplete`): a path is returned exactly when it is `Found`.

## Model

| member | source | states |
|---|---|---|
| SearchTable.StoreState | pychology/search.py:197-203 | returns true exactly when the hash was unknown; a new state is stored under its hash, a known hash keeps its first state; nothing else changes |
| SearchTable.StoreTransition | pychology/search.py:205-209 | appends the edge to the children of the source hash and the mirrored edge to the parents of the successor hash, duplicates included; every other list and field is unchanged |
| SearchTable.PropagateOne | pychology/search.py:214-227 | one worklist turn pops the oldest hash and overwrites its opinion with the minimax result; a node without a value gets one and notifies nobody; parents are enqueued only when the stored value changes; an unknown hash or missing child value raises KeyError |
| SearchTable.Propagate | pychology/search.py:211-227 | `backpropagate`: worklist turns until the worklist is empty, errors passed on; what a finished run leaves is stated by PropagateConsistent and PropagateFrame |
| SearchTable.EmptyValid | pychology/search.py:189-195 | the fresh storage is well formed and has nothing unsettled |
| SearchTable.StoreStateValid | pychology/search.py:197-203 | storing a state keeps hashes consistent, edges known, every child edge matched by a parent entry, and every settled node settled |
| SearchTable.StoreTransitionValid | pychology/search.py:205-209 | recording an edge between known states keeps the table well formed, every child edge matched by a parent entry; only the source node may become unsettled, and it is in the worklist |
| SearchTable.PropagateOneConsistent | pychology/search.py:214-227 | one turn keeps the table well formed and every node with an opinion settled or waiting in the worklist |
| SearchTable.SettledAfterTurn | pychology/search.py:214-227 | after a turn, every node with an opinion that is not in the new worklist is settled |
| SearchTable.PropagateConsistent | pychology/search.py:211-227 | a back-propagation that finishes leaves every opinion equal to minimax on the current values |
| SearchTable.PropagateFrame | pychology/search.py:211-227 | back-propagation changes only values and opinions: known states, edges and the queue are untouched |
| SearchTable.UnaffectedNode | pychology/search.py:431-446 | a node's minimax result ignores the value of any node that is not its child |
| SearchStep.Enqueue | pychology/search.py:257-299 | every queue policy but the no-expansion queue appends the state at the back; nothing else changes |
| SearchStep.Select | pychology/search.py:264-307 | single-node breadth pops the oldest entry, single-node depth the newest, breadth hands out the whole queue and empties it, no-expansion selects nothing; selection is empty exactly when the policy is no-expansion or the queue is empty; selected plus remaining is the old queue as a multiset |
| SearchStep.SelectFrom | pychology/search.py:264-307 | selected and still-queued states were queued before |
| SearchStep.Step | pychology/search.py:116-137 | reports true exactly when the policy selected something; with nothing selected the table is unchanged |
| SearchStep.ExpandActionStores | pychology/search.py:127-135 | only a successor whose hash is new gets a heuristic value and a queue place; a repeated hash leaves values, queue and stored state alone |
| SearchStep.ActionsEdges | pychology/search.py:127-130 | expanding a state appends exactly one child edge per joint action, in order, repeats included |
| SearchStep.ActionsChildren | pychology/search.py:127-130 | expanding a state adds children only under its own hash |
| SearchStep.ExpandStatesSkipsWinners | pychology/search.py:123-125 | a hash whose selected states all have a winner gets no new children |
| SearchStep.Initial | pychology/search.py:79-86 | the new search knows exactly the root, has no edges, values or opinions, and queues the root unless the policy is the no-expansion queue |
| SearchStep.InitialValid | pychology/search.py:79-86 | the new search is well formed with nothing unsettled |
| SearchStep.ExpandActionValid | pychology/search.py:128-135 | one expansion keeps the table well formed, keeps known states and leaves only the expanded node to settle |
| SearchStep.ExpandActionsValid | pychology/search.py:127-135 | the loop over a state's actions keeps the table well formed |
| SearchStep.ExpandStateValid | pychology/search.py:126-136 | expanding a state and back-propagating from it leaves every opinion settled |
| SearchStep.ExpandStatesValid | pychology/search.py:123-136 | the loop over selected states keeps every opinion settled |
| SearchStep.SelectValid | pychology/search.py:264-307 | selection keeps the table well formed and hands out known states only |
| SearchStep.StepValid | pychology/search.py:116-137 | a step keeps the table well formed, every opinion settled and every known state known |
| SearchStep.FullLoopValid | pychology/search.py:237-240 | a successful full expansion from a well-formed, settled table ends well formed and settled, still knowing every state it knew |
| SearchStep.NodeLoopValid | pychology/search.py:243-246 | a successful node-limited expansion from a well-formed, settled table ends well formed and settled, still knowing every state it knew |
| SearchStep.StepLoopValid | pychology/search.py:249-252 | a successful step-limited expansion from a well-formed, settled table ends well formed and settled, still knowing every state it knew |
| SearchStep.BuildTreeValid | pychology/search.py:232-252 | whatever the expansion policy, the built tree is well formed and every opinion in it is settled |
| SearchStep.FullLoopEnds | pychology/search.py:237-240 | full expansion ends at a table on which a further step selects nothing |
| SearchStep.NodeLoopEnds | pychology/search.py:243-246 | node-limited expansion stops once a step selects nothing or the known states reach the limit |
| SearchStep.StepLoopIterate | pychology/search.py:249-252 | step-limited expansion is the n-fold iteration of one step, stopping at the first error |
| SearchStep.IterateSplit | pychology/search.py:249-252 | iterating a step a+b times is iterating it a times and then b times, so step-limited expansion takes exactly its number of steps |
| SearchActions.Choices | pychology/search.py:318-324 | a player with no moves gets the single pass option None, otherwise one option per move in order |
| SearchActions.Combinations | pychology/search.py:318-330 | `generate_move_combinations`: the product of every player's options in `itertools.product` order; its count and members are stated by CombinationsCount and CombinationsMembers |
| SearchActions.Extend | pychology/search.py:318-330 | the number of extended actions is the number of options times the number of partial actions |
| SearchActions.CombinationsCount | pychology/search.py:312-330 | the number of joint actions is the product over players of max(1, number of moves) |
| SearchActions.ExtendMembers | pychology/search.py:318-330 | a joint action is in the extension exactly when its head is one of the player's options and its tail one of the partial actions |
| SearchActions.CombinationsMembers | pychology/search.py:312-330 | the product holds exactly the joint actions that name every player in order with one of its options |
| SearchActions.PortfolioActions | pychology/search.py:333-346 | AttributeError for a game without a `portfolios` attribute, before any player is looked at; otherwise with no players the one empty action; an unknown portfolio raises KeyError; an empty behaviour abandons the state with no actions; otherwise the result is the product over the players of the behaviour's moves, |behavior| to the power |players| joint actions, each giving every player in order one of those moves |
| SearchActions.PortfolioProduct | pychology/search.py:340-346 | the portfolio product holds a joint action exactly when it names every player in order with one of the behaviour's moves, and has |behavior| to the power |players| entries |
| SearchActions.UniformCount | pychology/search.py:327 | when every player has the same b > 0 moves the product has b to the power of the number of players entries |
| SearchActions.ChoicesMembers | pychology/search.py:323-327 | a player with moves is offered exactly its own moves, never the pass |
| SearchEval.Uniform | pychology/search.py:396 | every player mapped to the same score, keys distinct |
| SearchEval.WinnerSlate | pychology/search.py:391-400 | without a winner every player scores 0; with one the winner scores +inf and every other player -inf, the winner's key added when it is not a player |
| SearchEval.GameBased | pychology/search.py:384-388 | AttributeError for a game without an `evaluation_funcs` attribute; otherwise the game's named evaluation function, and KeyError when it has none of that name |
| SearchEval.PlayerSlate | pychology/search.py:384-426 | AttributeError without a per-player evaluation mixin; winner-based gives the winner slate; Monte Carlo gives the winner slate on a finished state |
| SearchEval.Others | pychology/search.py:359 | exactly the scores of the players other than the searcher |
| SearchEval.ZeroSumValue | pychology/search.py:357-361 | KeyError exactly when the searcher has no score; the value itself is stated by the lemmas below |
| SearchEval.ZeroSumFinite | pychology/search.py:357-361 | on finite scores the value is own score minus the integer sum of the others |
| SearchEval.ZeroSumOfWinnerSlate | pychology/search.py:357-361 | on winner-based scores: 0 without a winner, +inf for the searcher's own win, -inf for a loss in a two-player game, NaN once a third player or a draw marker brings both infinities together |
| SearchEval.ZeroSumNoWinner | pychology/search.py:391-396 | without a winner the zero-sum value is 0 |
| SearchEval.ZeroSumOwnWin | pychology/search.py:397-400 | the searcher's own win is worth +inf |
| SearchEval.ZeroSumTwoPlayerLoss | pychology/search.py:397-400 | in a two-player game the opponent's win is worth -inf |
| SearchEval.ZeroSumMixedInfinities | pychology/search.py:357-361 | when another player also scores -inf, inf minus inf makes the value NaN |
| SearchEval.Sort | pychology/search.py:374 | the sort is a permutation of the scores |
| SearchEval.SortAscending | pychology/search.py:374 | without NaN the sorted scores ascend |
| SearchEval.RacerValue | pychology/search.py:371-379 | KeyError whenever the searcher has no score |
| SearchEval.RacerLowest | pychology/search.py:375-376 | on finite scores, a searcher with the lowest score gets IndexError when it is alone and otherwise a value that is never positive, its score minus the second lowest |
| SearchEval.RacerAhead | pychology/search.py:377-378 | on finite scores, a searcher above the lowest score gets its score minus the lowest, which is positive |
| SearchEval.EvaluateState | pychology/search.py:351-379 | AttributeError when the zero-sum player lacks a per-player evaluation or the racer's game lacks `evaluate_state` |
| SearchEval.HelperWeights | pychology/search.py:530-533 | no weights means weight 1 per function; given weights are used exactly when they match the functions in number, else GeneralException |
| SearchEval.WeightedSumOnes | pychology/search.py:545 | with all weights 1 the weighted sum is the plain sum |
| SearchEval.Column | pychology/search.py:544 | one player's score from every slate, KeyError when a slate lacks the player |
| SearchEval.TotalsOk | pychology/search.py:542-546 | the totals exist exactly when every slate scores every player of the first slate |
| SearchEval.TotalsKeys | pychology/search.py:542-546 | the totals score exactly the players of the first slate |
| SearchEval.TotalsValues | pychology/search.py:545 | each player's total is its weighted sum over all functions |
| SearchEval.WeightedEvaluation | pychology/search.py:534-546 | a winner among the players scores +inf and the rest -inf; otherwise no functions raises IndexError, and a result scores exactly the players of the first function's slate |
| Minimax.GroupScores | pychology/search.py:433-441 | the per-move minima exist exactly when every child's move and value are present, else KeyError |
| Minimax.GroupKeys | pychology/search.py:433-441 | the groups are keyed by exactly the searcher's moves on the children, each once |
| Minimax.GroupLookup | pychology/search.py:438-441 | the fold's entry for a move is the minimum over the values of that move's children |
| Minimax.GroupOfMinimum | pychology/search.py:438-441 | the group value is attained by a child of that move and no child of that move is lower |
| Minimax.Attaining | pychology/search.py:443-445 | every group whose value equals the maximum is listed |
| Minimax.AttainingSource | pychology/search.py:443-445 | every listed move is a group attaining the maximum |
| Minimax.AttainingDistinct | pychology/search.py:443-445 | the best-action list has no repeats |
| Minimax.Reevaluate | pychology/search.py:431-446 | (-inf, None) without children; otherwise a result exactly when every child is resolvable, else KeyError; with children a result always names a best-action list |
| Minimax.MoveBound | pychology/search.py:442 | the node value is at least every move's worst case |
| Minimax.MoveBest | pychology/search.py:442-445 | a move is listed exactly when its worst case equals the node value |
| Minimax.BestActions | pychology/search.py:442-445 | without NaN the best-action list is nonempty, repeat-free and lists only the searcher's moves on the children |
| Minimax.MinimaxChoice | pychology/search.py:431-446 | the node value is the maximum over own moves of the minimum child value per move, and the listed moves are exactly those attaining it |
| Minimax.ReevaluateFrame | pychology/search.py:438-441 | the result depends only on the children's values |
| SearchGame.SetupExpansion | pychology/search.py:98-99 | `setup_expansion` fails with NotImplementedError exactly when the configuration has no queue mixin, and otherwise gives that mixin's policy |
| SearchEngine.Search.constructor | pychology/search.py:79-86 | for a configuration with a queue mixin: the engine and root are kept and the queue policy is the configured one; the table is the initial one, knowing only the root and queueing it; the object is valid |
| SearchEngine.Search.StoreState | pychology/search.py:197-203 | the object's update is the table function's |
| SearchEngine.Search.StoreTransition | pychology/search.py:205-209 | the object's update is the table function's |
| SearchEngine.Search.Enqueue | pychology/search.py:261-299 | the object's update is the queue policy's |
| SearchEngine.Search.SelectStates | pychology/search.py:264-307 | the selection and the new queue are the policy's |
| SearchEngine.Search.Backpropagate | pychology/search.py:211-227 | the worklist loop, started from the expanded hash, computes the back-propagation function, error included |
| SearchEngine.Search.ExpandAction | pychology/search.py:128-135 | one inner turn of `step` on the object equals the table function |
| SearchEngine.Search.ExpandState | pychology/search.py:126-136 | expanding one state on the object equals the table function |
| SearchEngine.Search.Step | pychology/search.py:116-137 | `step` on the object equals the table function SearchStep.Step, errors included, so the object's new fields are the table StepValid speaks of |
| SearchEngine.Search.BuildTree | pychology/search.py:232-252 | `build_tree` of the configured policy equals the table function |
| SearchEngine.Search.ExpandFully | pychology/search.py:237-240 | the full-expansion loop equals its function |
| SearchEngine.Search.ExpandToLimit | pychology/search.py:243-246 | the node-limited loop equals its function |
| SearchEngine.Search.ExpandSteps | pychology/search.py:249-252 | the step-limited loop equals its function |
| SearchEngine.Search.SelectBestMove | pychology/search.py:460-467 | one of the current node's best actions; KeyError without an opinion, TypeError for an opinion without a list, IndexError for an empty list |
| SearchEngine.Search.SelectRandomMove | pychology/search.py:451-457 | one of the searcher's legal moves, KeyError without an entry for the searcher, IndexError when it has none |
| SearchEngine.Search.Analyze | pychology/search.py:494-515 | succeeds exactly when the current node has an opinion with a best-action list; KeyError without an opinion, TypeError for an opinion without a list |
| SearchEngine.Search.Run | pychology/search.py:168-172 | build the tree, analyse when configured, then select: a best action, a legal move, or the best paths |
| SearchEngine.BestMoveIsMinimax | pychology/search.py:431-467 | on a settled node whose children have no NaN value, every move the best-move player may pick is one of the searcher's moves whose worst case equals the node value, and no move's worst case exceeds it |
| BestPaths.Successors | pychology/search.py:478-480 | exactly the children whose value equals the opinion score and that are not yet on the path; KeyError when any child lacks a value |
| BestPaths.Prefixed | pychology/search.py:484-485 | the current hash is put in front of each rest path |
| BestPaths.FindPath | pychology/search.py:472-486 | the recursive path search, KeyError on a missing node or opinion; its paths are stated by FindPathFound, FindPathComplete and TerminalRoot |
| BestPaths.SelectPaths | pychology/search.py:471-489 | the search from the root alone; its paths are those of FindPathFound and FindPathComplete with the path so far `[root]` |
| BestPaths.FindPathFound | pychology/search.py:472-486 | every path returned starts at the last hash so far, ends at a state with a winner, passes no earlier state with a winner, repeats no hash and follows only child edges valued like the opinion; with FindPathComplete, returned exactly when `Found` |
| BestPaths.FollowAllFound | pychology/search.py:481-486 | the loop over successors of a state without a winner returns only such paths |
| BestPaths.ExtendFound | pychology/search.py:482-485 | a path found from a best successor extends to one from the current hash |
| BestPaths.FindPathComplete | pychology/search.py:472-486 | conversely, when the search succeeds, every path from the last hash so far that repeats no hash, follows best edges, and reaches a winner only at its last state is among the paths returned |
| BestPaths.ShortenFound | pychology/search.py:478-483 | a found path of two or more hashes starts at a state without a winner, leaves along a best edge to a hash off the path, and its tail is found from the extended path |
| BestPaths.BestSuccessorCovered | pychology/search.py:478-486 | a best child off the path of a state without a winner is followed: its search succeeds and its paths come back prefixed with the current hash |
| BestPaths.FollowAllCovers | pychology/search.py:481-486 | when the loop over successors succeeds, each successor is known, its search succeeds, and each of its paths is in the result behind the current hash |
| BestPaths.TerminalRoot | pychology/search.py:474-475 | a current state with a winner yields exactly the one path holding its hash |
| Scores.LessOrder | pychology/search.py:441-442 | without NaN, Python's less-than on scores is a strict total order |
| Scores.Min2 | pychology/search.py:441 | Python `min` of two: one of them, the first when either is NaN; without NaN neither is smaller than the result |
| Scores.MaxOf | pychology/search.py:442 | Python `max` returns an item, and without NaN no item exceeds it |
| Scores.Add | pychology/search.py:360 | finite scores add as integers; NaN results exactly from NaN or opposite infinities |
| Scores.SumFinite | pychology/search.py:360 | on finite scores Python's sum is the integer sum |
| Scores.SumOpposite | pychology/search.py:360 | a sum holding both infinities is NaN |
| BehaviorTrees.ChainFrom | pychology/behavior_trees.py:380-396 | the Chain loop keeps one node per child |
| BehaviorTrees.Tick | pychology/behavior_trees.py:115-428 | every node class's `__call__`, as a function from node, entity and arguments to status, new node, entity and leaf calls; its behaviour per node is stated by PassThrough, AlwaysFixed, OnValueRewrites, the condition and counter lemmas, ChainSweep and PrioritiesSweep |
| BehaviorTrees.Reset | pychology/behavior_trees.py:130-400 | every node class's `reset`, with Priorities keeping its active child; what it leaves is stated by ResetFresh, FreshResetFixed and ResetIdempotent |
| BehaviorTrees.ChainCall | pychology/behavior_trees.py:380-396 | the Chain loop resumes at the active child, or the first child when there is none |
| BehaviorTrees.PrioritiesCall | pychology/behavior_trees.py:414-428 | the Priorities loop always starts again at the first child |
| BehaviorTrees.ResetChildren | pychology/behavior_trees.py:365-367 | every child is reset, in place |
| BehaviorTrees.BehaviorTree.constructor | pychology/behavior_trees.py:84-86 | the wrapped tree is reset when the wrapper is built |
| BehaviorTrees.BehaviorTree.Call | pychology/behavior_trees.py:88-97 | a DONE or FAILED run resets the tree and answers DONE or FAILED; any other result answers ACTIVE and keeps the ticked tree |
| BehaviorTrees.BehaviorTree.ResetTree | pychology/behavior_trees.py:99-100 | the tree is reset |
| BehaviorTrees.PassThrough | pychology/behavior_trees.py:151-185 | the debug-print decorators return the child's result, entity and calls unchanged; DebugPrintOnEnter clears its flag |
| BehaviorTrees.RewritePassesEntity | pychology/behavior_trees.py:190-197 | RewriteArguments calls the child once with rewritten arguments on the same entity and returns its result |
| BehaviorTrees.AlwaysFixed | pychology/behavior_trees.py:202-213 | ReturnActiveAlways, ReturnDoneAlways and ReturnFailedAlways call the child exactly once and return their fixed state |
| BehaviorTrees.OnValueRewrites | pychology/behavior_trees.py:216-259 | a ReturnXOnY decorator rewrites its selected state and passes the other two through |
| BehaviorTrees.PreconditionShortCircuits | pychology/behavior_trees.py:292-296 | a holding precondition answers its reaction without calling the child; otherwise the child's result stands |
| BehaviorTrees.PostconditionOverrides | pychology/behavior_trees.py:299-304 | a postcondition always calls the child and answers the reaction when the condition then holds |
| BehaviorTrees.CounterTick | pychology/behavior_trees.py:328-342 | both counters count every call; a Precounter at its timeout answers its reaction without calling the child, a Postcounter calls the child first |
| BehaviorTrees.CounterCounts | pychology/behavior_trees.py:317-342 | after k calls a counter has counted k more and kept its timeout |
| BehaviorTrees.ChainSweep | pychology/behavior_trees.py:380-396 | a Chain pass answers DONE exactly when every child from `active_child` on answers DONE in turn, each on the entity the previous left; otherwise the active child is exactly the first one that did not answer DONE, the pass returns that child's status and entity, every child before it answered DONE and is left reset, a FAILED child is left reset, and later children are not run |
| BehaviorTrees.ChainOfTwo | pychology/behavior_trees.py:380-396 | a fresh two-child Chain runs the second child on the entity the first left only when the first is DONE, and is DONE only when both are |
| BehaviorTrees.PrioritiesSweep | pychology/behavior_trees.py:414-428 | a Priorities pass answers FAILED exactly when every child answers FAILED in turn, each on the entity the previous left; otherwise the active child is exactly the first one that did not fail, the pass returns that child's status and entity, later children are not run, and a previously active other child is reset: its node after its own FAILED tick when the pass ran it, its old node otherwise |
| BehaviorTrees.ResetFresh | pychology/behavior_trees.py:323-400 | a reset leaves counters at zero, flags set and Chains without an active child |
| BehaviorTrees.FreshResetFixed | pychology/behavior_trees.py:323-400 | resetting a node in its reset state changes nothing |
| BehaviorTrees.ResetIdempotent | pychology/behavior_trees.py:323-400 | resetting twice is resetting once |
| BehaviorTrees.ResetWellFormed | pychology/behavior_trees.py:365-400 | a reset keeps every active child in range |
| BehaviorTrees.TickWellFormed | pychology/behavior_trees.py:380-428 | calling a node keeps every active child in range, so the Python code never indexes past its children |
| BehaviorTrees.ChainWellFormed | pychology/behavior_trees.py:380-396 | a Chain pass keeps the active child in range |
| BehaviorTrees.PrioritiesWellFormed | pychology/behavior_trees.py:414-428 | a Priorities pass keeps the active child in range |
| AStar.NeighborsAndCosts | pychology/simple_search/a_star.py:4-7 | a node's successors are exactly its own (neighbour, cost) entries; KeyError for a node the dict lacks |
| AStar.NavGraphClosed | pychology/simple_search/a_star.py:4-7 | a search over a graph dict never leaves the nodes the dict mentions |
| AStar.EstimateZero | pychology/simple_search/a_star.py:10-11 | the zero estimate is 0 for every pair of nodes |
| AStar.Lowest | pychology/simple_search/a_star.py:20 | the queue hands out an entry no later than any other by (total cost, fixed cost), the first such |
| AStar.Explore | pychology/simple_search/a_star.py:21-22 | a node's explored entry is written only when the node is new or the new fixed cost is strictly smaller; others are untouched |
| AStar.PushedSound | pychology/simple_search/a_star.py:33-38 | explored neighbours are never pushed; each pushed entry carries the fixed cost plus edge cost, the estimate and the popped node as parent |
| AStar.PushedComplete | pychology/simple_search/a_star.py:33-38 | every unexplored neighbour is pushed |
| AStar.Expand | pychology/simple_search/a_star.py:33-38 | the loop over the neighbours appends exactly the pushed entries |
| AStar.Reverse | pychology/simple_search/a_star.py:31 | the reversed list |
| AStar.WalkCostNonNegative | tests/test_a_star.py:35-44 | under the zero estimate with no negative cost, a walk costs at least 0 |
| AStar.PopBound | pychology/simple_search/a_star.py:20-22 | under the zero estimate with no negative cost, a node first leaves the queue at a cost no walk to it undercuts |
| AStar.NoWayOut | pychology/simple_search/a_star.py:40-41 | when the frontier is empty, no walk from the start reaches the goal |
| AStar.StepKeeps | pychology/simple_search/a_star.py:20-38 | a pass of the loop keeps the frontier, parent-pointer and settledness invariant |
| AStar.Popped | pychology/simple_search/a_star.py:20-23 | popping the cheapest entry extends the explored map soundly; the goal is popped at a cheapest cost |
| AStar.Search | pychology/simple_search/a_star.py:14-41 | on success a walk from start to goal whose edge costs sum to the returned cost; cheapest under the zero estimate with no negative cost; (0, [start]) when start is the goal; "no path found" only when no walk reaches the goal; any other error is one raised by the successor function |
| AStar.Rebuild | pychology/simple_search/a_star.py:24-31 | following parent pointers back from the goal gives a walk from the start costing the goal's fixed cost |
| Maze.NeighbourEntries | examples/a_star_on_text_labyrinth.py:114-121 | a tile's entries are exactly its four-neighbour tiles, each at cost 1, each once |
| Maze.AdjacencyFacts | examples/a_star_on_text_labyrinth.py:113-121 | the adjacency dict is symmetric, has no self-loops and lists each neighbour tile once at cost 1 |
| Maze.TileAdjacents | examples/a_star_on_text_labyrinth.py:116-121 | the direction loop builds the tile's entries in the order up, down, left, right |
| Maze.TilesAdjacency | examples/a_star_on_text_labyrinth.py:112-120 | the dict built over all tiles has exactly the tiles as keys and maps each to its four-neighbour entries that are tiles, at cost 1 |
| Maze.CreateAdjacency | examples/a_star_on_text_labyrinth.py:98-123 | the tiles' adjacency, the last 'I' as start or None, the last 'O' as end, and UnboundLocalError when there is no 'O' |
| Maze.MazeIsDijkstra | examples/a_star_on_text_labyrinth.py:98-123 | a maze's adjacency is closed under its successors and every edge costs 1, so with the zero estimate the A* result on it is a shortest path |
| Maze.AnnotatedLine | examples/a_star_on_text_labyrinth.py:129-133 | the annotated line is as long as the level line |
| Maze.Annotated | examples/a_star_on_text_labyrinth.py:126-135 | the annotated level, every line annotated and ended by a newline; Annotate computes it and AnnotatedLineAt and AnnotatedNoPath state what it holds |
| Maze.Annotate | examples/a_star_on_text_labyrinth.py:126-135 | the loops build the annotated level, line by line, each followed by a newline |
| Maze.AnnotatedLineAt | examples/a_star_on_text_labyrinth.py:129-133 | each character is '*' exactly when its position is on the path, else the level's own |
| Maze.AnnotatedNoPath | examples/a_star_on_text_labyrinth.py:126-135 | without a path the output is the level plus a final newline |
| Levels.Scan | pychology/games/labyrinth.py:31-39 | the scanning loops find every '.', 'I' and 'O' tile and the last 'I' and last 'O' in reading order |
| Blackboards.Blackboard.constructor | pychology/blackboard.py:2-4 | an empty local map over the given parent; a reader sees the parent's view |
| Blackboards.Blackboard.RootView | pychology/blackboard.py:14-26 | a blackboard without a parent sees exactly its own entries |
| Blackboards.Blackboard.Contains | pychology/blackboard.py:14-19 | a key is contained exactly when it is held locally or anywhere up the parent chain |
| Blackboards.Blackboard.Get | pychology/blackboard.py:21-26 | the local value shadows the parent's, then the parent chain, else KeyError |
| Blackboards.Blackboard.Set | pychology/blackboard.py:6-12 | a local key is overwritten locally; a key only visible up the chain is written to the parent, leaving the local map alone; otherwise it is stored locally; readers see the new value |
| Blackboards.Blackboard.Delete | pychology/blackboard.py:28-32 | removes a locally held key; KeyError for a key held only up the chain; the parent is untouched |
| Blackboards.SetGetDelete | tests/test_blackboard.py:6-25 | set-then-get reads the stored value; after a local delete the key is gone unless a parent holds it |
| Knowledge.Value.constructor | pychology/knowledge.py:51-53 | the value object carries its symbol |
| Knowledge.Variable.constructor | pychology/knowledge.py:59-61 | the variable object carries its symbol |
| Knowledge.FirstVar | pychology/knowledge.py:88-93 | the index of the first variable argument, all before it plain |
| Knowledge.KnowledgeBase.constructor | pychology/knowledge.py:68-73 | all registries start empty |
| Knowledge.KnowledgeBase.CheckArity | pychology/knowledge.py:75-82 | the first use of a relation records its argument count; a later different count raises ArityError; nothing else changes |
| Knowledge.KnowledgeBase.Internalize | pychology/knowledge.py:84-102 | each argument becomes the object filed under its symbol, created at most once and then reused; a variable where none is allowed fails the assertion after the earlier values were interned |
| Knowledge.KnowledgeBase.Intern | pychology/knowledge.py:89-101 | one argument is replaced by the object filed under its symbol, created when missing |
| Knowledge.KnowledgeBase.Fact | pychology/knowledge.py:104-111 | the arity is checked first, recording the argument count of a new relation and changing no other relation, even when the call then fails; a clash fails with ArityError; variable arguments then fail with AssertionError after the values before them were interned; otherwise one entry per call is appended, duplicates kept; interned values only grow |
| Knowledge.KnowledgeBase.CheckArities | pychology/knowledge.py:116-117 | every predicate's arity is checked in order, failing with ArityError at the first clash; the registry ends as the old one with each new relation up to the clash recorded with its first count |
| Knowledge.KnowledgeBase.Rule | pychology/knowledge.py:113-129 | a head without body fails the assertion and changes nothing; otherwise arities are checked, recording new relations up to the first clash and failing with ArityError at it, symbols interned and (head arguments, original body) appended under the head relation |
| Knowledge.KnowledgeBase.Query | pychology/knowledge.py:131-135 | RelationError when the relation has neither facts nor rules, changing nothing; otherwise the arity check, recording the count of a relation not yet in the registry and failing with ArityError on a clash, and interning of the arguments |
| Knowledge.ArityFixedByFirstUse | pychology/knowledge.py:75-82 | two uses of a relation are consistent exactly when they have the same number of arguments |
| Knowledge.RecordedGrows | pychology/knowledge.py:113-117 | checking a rule's predicates keeps every recorded arity, adds only relations of those predicates with their own counts, and records every predicate's count when there is no clash |
| BrainJars.SetPlanToCommand | pychology/brainjar.py:50-55 | a BEHAVIOR command naming a known behaviour writes that behaviour to PLAN and answers DONE; any other command answers DONE and leaves the blackboard unchanged; the raising cases answer FAILED and change nothing |
| BrainJars.ExecutePlan | pychology/brainjar.py:58-59 | runs the behaviour under PLAN and answers what it answers; without a plan it answers FAILED and changes nothing |
| BrainJars.BbDel | pychology/brainjar.py:62-69 | DONE exactly when the field is held locally, and the field is gone afterwards |
| BrainJars.CommandBlockTick | pychology/brainjar.py:78-84 | without a command the first block is skipped with DONE; with one the plan is set and the command removed |
| BrainJars.PlanBlockTick | pychology/brainjar.py:86-92 | without a plan the second block is skipped with DONE; with one the plan's answer stands, and a DONE plan is deleted, the block failing only when the plan removed PLAN itself |
| BrainJars.ThinkTick | pychology/brainjar.py:74-94 | one tick turns a present command into the plan and then acts on the plan |
| BrainJars.ThinkIdle | pychology/brainjar.py:74-94 | with neither command nor plan a tick is DONE and changes nothing |
| BrainJars.BrainJar.constructor | pychology/brainjar.py:98-105 | the blackboard holds an empty BEHAVIORS map; the thought pattern is the given one or the default tree, reset |
| BrainJars.BrainJar.Think | pychology/brainjar.py:107-110 | one call of the thought pattern; the idle hook runs only after DONE |
| BrainJars.BrainJar.AddKnowledge | pychology/brainjar.py:112-113 | the fact is written under its name |
| BrainJars.BrainJar.AddBehavior | pychology/brainjar.py:115-116 | the behaviour is filed in the BEHAVIORS map; KeyError without that map, TypeError when the field holds something else, both changing nothing |
| BrainJars.BrainJar.GiveCommand | pychology/brainjar.py:118-124 | an unknown behaviour raises KeyError and changes nothing; a known one stores the BEHAVIOR command and writes every keyword argument |
| BrainJars.WrittenKeeps | pychology/brainjar.py:123-124 | keyword arguments leave the reserved fields alone and each name ends with its last value |
| BrainJars.NewBlackboard | pychology/brainjar.py:99-100 | a new agent holds no command and no plan |
| BrainJars.HasComplement | pychology/brainjar.py:36-45 | `bb_has(f)` and `bb_has_not(f)` disagree on every blackboard |
| Repl.Setting | pychology/games/repl.py:127-131 | an item without '=' sets itself to True; otherwise the key is the text before the first '=' and a text value is what follows it |
| Repl.Properties | pychology/games/repl.py:110-131 | the defaults with every comma item applied in order; PropertiesLookup and DefaultKeys state what it holds |
| Repl.LastSetting | pychology/games/repl.py:126-131 | the value of the last item with the key, None exactly when no item has it |
| Repl.PropertiesLookup | pychology/games/repl.py:110-131 | later items override earlier ones and the defaults; a key no item sets keeps its default |
| Repl.DefaultKeys | pychology/games/repl.py:110-115 | the parsed properties always hold storage, limit type, selector and analysis |
| Repl.ParseSpec | pychology/games/repl.py:126-131 | the parsing loop yields the defaults with every comma item applied in order |
| Repl.IntOf | pychology/games/repl.py:152-157 | `int()` of a property: text that reads as a decimal integer gives that integer, and ValueError comes only from text that does not |
| Repl.ExpansionStep | pychology/games/repl.py:143-159 | the limit type selects the expansion mixins and the limit attribute; an unknown limit type raises the generic exception and an unreadable limit ValueError |
| Repl.AssembleSearch | pychology/games/repl.py:109-184 | 'human', 'sota' and 'random' name the predefined AIs; otherwise the string is refused exactly for an unknown storage, limit type or selector or an unreadable limit, and the result is the assembled mixin list and attributes |
| Repl.Assemble | pychology/games/repl.py:134-184 | the mixins and attributes from the parsed properties, refused as above with the error of the first failing check |
| Repl.QueuePolicy | pychology/games/repl.py:143-159 | a breadth queue exactly for plies, a single-node breadth queue exactly for nodes; storage first and Search last |
| Repl.QueueOf | pychology/games/repl.py:143-159 | the queue mixin an assembled class takes `setup_expansion` from is absent exactly when neither queue mixin is among its bases |
| Repl.QueueOfFront | pychology/games/repl.py:143-159 | the first queue mixin of a list of bases is the first of its front part when that has one |
| Repl.AssembledSetup | pychology/search.py:85-99 | constructing an assembled search raises NotImplementedError exactly for the `none` and `no_exp` limit types; `plies` sets up BreadthSearch and `nodes` SingleNodeBreadthSearch |
| Repl.FrontQueue | pychology/games/repl.py:143-159 | the storage and expansion mixins bring BreadthSearch for plies, SingleNodeBreadthSearch for nodes and no queue otherwise |
| Repl.LaterWins | pychology/games/repl.py:126-131 | a string setting a key twice uses the later value |
| Repl.PartitionAt | pychology/games/repl.py:127 | partitioning `k=v` gives back k and v |
| Repl.FromPairs | pychology/games/repl.py:100-104 | the dict comprehension over zipped pairs has distinct keys and exactly the listed players |
| Repl.FromPairsAll | pychology/games/repl.py:100-104 | with distinct players each is mapped to its own AI |
| Repl.NonHuman | pychology/games/repl.py:105 | exactly the players whose AI is not None |
| Repl.NonHumanAll | pychology/games/repl.py:105 | a player is listed exactly when it is mapped to an AI |
| Repl.MapAIsToPlayers | pychology/games/repl.py:88-106 | no classes: the queried players and the default AI for everyone; one class: the queried players and that class for everyone; otherwise a count mismatch raises, else players map to their classes and the AI players are those not human |
| TicTacToe.InitialState | pychology/games/tic_tac_toe.py:18-22 | an empty board with X to move |
| TicTacToe.AnyLine | pychology/games/tic_tac_toe.py:28-30 | true exactly when some line from the given one on is all the player's |
| TicTacToe.Winner | pychology/games/tic_tac_toe.py:25-31 | X exactly when X owns a line; O exactly when X owns none and O one; otherwise None |
| TicTacToe.LegalMoves | pychology/games/tic_tac_toe.py:34-40 | the player to move, with exactly the empty tiles in increasing order |
| TicTacToe.MakeMove | pychology/games/tic_tac_toe.py:43-55 | KeyError without a move for the player, IndexError off the board; otherwise the tile is set, and the turn passes, or ends with a winner |
| Common.CountUpdate | pychology/games/tic_tac_toe.py:46 | writing one tile changes each player's count by what was removed and added; the tic-tac-toe turn invariant and the nine men's morris man counts rest on it |
| TicTacToe.MakeMoveTurns | pychology/games/tic_tac_toe.py:43-55 | a legal move keeps X one mark ahead of O or level, according to whose turn it is |
| TicTacToe.InitialTurns | pychology/games/tic_tac_toe.py:18-22 | the initial state keeps turns |
| FourInARow.InitialState | pychology/games/four_in_a_row.py:16-19 | seven empty columns, X to move |
| FourInARow.ScansCoverRuns | pychology/games/four_in_a_row.py:29-76 | the four scans reach every run of four cells going up, right or diagonally |
| FourInARow.ScanWindows | pychology/games/four_in_a_row.py:29-76 | a scan reports a window that is all one player's, or none exists |
| FourInARow.WindowOwner | pychology/games/four_in_a_row.py:29-76 | the player owning all four cells of a window, None exactly when no player does |
| FourInARow.FirstInRow | pychology/games/four_in_a_row.py:29-76 | the first owned window of one row of a scan; a reported player owns its window, None exactly when no window of that row is owned |
| FourInARow.FirstInScan | pychology/games/four_in_a_row.py:29-76 | the first owned window of a scan from a given row on; None exactly when none is owned |
| FourInARow.FirstFour | pychology/games/four_in_a_row.py:29-76 | the first four in a row the scans meet, in the source's scan order; None exactly when neither player has four |
| FourInARow.WinnerOf | pychology/games/four_in_a_row.py:22-81 | `game_winner` as a function: the scans' first four, else DRAW exactly on a full board, else None |
| FourInARow.GameWinner | pychology/games/four_in_a_row.py:22-81 | the loop equals WinnerOf: a reported player has four in a row; DRAW exactly when neither has four and the board is full; None exactly when neither has four and there is room |
| FourInARow.OpenColumns | pychology/games/four_in_a_row.py:86-88 | exactly the columns with room, in increasing order |
| FourInARow.LegalMoves | pychology/games/four_in_a_row.py:84-90 | an entry for X and O; the player to move gets the open columns, the other nothing |
| FourInARow.MakeMove | pychology/games/four_in_a_row.py:93-103 | KeyError without a move or for a column off the board; otherwise the piece is dropped on that column and the turn passes |
| FourInARow.LegalMoveFits | pychology/games/four_in_a_row.py:84-103 | a legal move succeeds and keeps every column within six pieces |
| FourInARow.HashOf | pychology/games/four_in_a_row.py:106-118 | 42 characters, column by column bottom up: '.', 'X' or 'O' |
| FourInARow.HashOfUnique | pychology/games/four_in_a_row.py:106-118 | exactly one string is the hash of a board |
| FourInARow.Hash | pychology/games/four_in_a_row.py:106-118 | the loop builds HashOf: 42 characters, column by column bottom up: '.', 'X' or 'O' |
| FourInARow.HashDetermines | pychology/games/four_in_a_row.py:106-118 | the hash determines the board |
| FourInARow.Evaluation | pychology/games/four_in_a_row.py:121-128 | +inf for a winner and -inf for the loser, 0 for both otherwise |
| FourInARow.Evaluate | pychology/games/four_in_a_row.py:121-128 | equals Evaluation: +inf for a winner and -inf for the loser, 0 for both otherwise |
| FourInARow.MakeMoveReadsMover | pychology/games/four_in_a_row.py:93-103 | `make_move` reads only the mover's entry of the moves dict |
| NineMensMorris.Mill | pychology/games/nine_mens_morris.py:20-37 | every mill is three points of the board |
| NineMensMorris.Adj | pychology/games/nine_mens_morris.py:38-65 | a point's neighbours are points of the board other than itself |
| NineMensMorris.AdjacencySymmetric | pychology/games/nine_mens_morris.py:38-63 | adjacency goes both ways |
| NineMensMorris.InitialState | pychology/games/nine_mens_morris.py:98-103 | an empty board, nothing set, SETTING phase, X to move |
| NineMensMorris.ClosesMillMeans | pychology/games/nine_mens_morris.py:81-91 | true exactly when after the move some mill through the target is entirely the mover's |
| NineMensMorris.SettingMoves | pychology/games/nine_mens_morris.py:122-131 | the SETTING loop lists the placements on empty points, each closing placement once per enemy man |
| NineMensMorris.StepsOf | pychology/games/nine_mens_morris.py:136-145 | the loop over one man's neighbours lists the steps to empty neighbours, each mill-closing step once per enemy man |
| NineMensMorris.MovingMoves | pychology/games/nine_mens_morris.py:134-145 | the MOVING loop over the mover's men |
| NineMensMorris.LegalMoves | pychology/games/nine_mens_morris.py:118-146 | an entry for X and O; only the player to move gets actions |
| NineMensMorris.SettingMembers | pychology/games/nine_mens_morris.py:122-131 | a SETTING action is an empty point, followed by an enemy man exactly when the placement closes a mill |
| NineMensMorris.StepsMembers | pychology/games/nine_mens_morris.py:136-145 | a step goes from the man's point to an empty neighbour, followed by an enemy man exactly when it closes a mill |
| NineMensMorris.MovingMembers | pychology/games/nine_mens_morris.py:134-145 | a MOVING action steps one of the mover's men to an empty neighbouring point, capturing exactly on a mill |
| NineMensMorris.PlayerMovesAre | pychology/games/nine_mens_morris.py:118-146 | the player to move is offered exactly the SETTING or the MOVING actions of its phase |
| NineMensMorris.Apply | pychology/games/nine_mens_morris.py:150-162 | the new board stays 24 points; it raises IndexError exactly when the action is too short for the phase or an index it reads is off the board (negative indices count from the end); otherwise SETTING puts the mover on `action[0]` and then clears `action[1]` for a capture, MOVING clears `action[0]`, puts the mover on `action[1]` and then clears `action[2]` for a capture, and every other point is unchanged |
| NineMensMorris.MakeMove | pychology/games/nine_mens_morris.py:149-177 | KeyError without an action for the mover; otherwise the turn passes, O's placements are counted and MOVING begins after O's ninth |
| NineMensMorris.LegalMoveCounts | pychology/games/nine_mens_morris.py:149-177 | a legal action adds a man for the mover when setting, keeps it when moving, and removes one enemy man exactly on a capture |
| NineMensMorris.Winner | pychology/games/nine_mens_morris.py:180-193 | nobody while setting; then a side with fewer than three men loses; otherwise the player to move loses exactly when it has no move |
| NineMensMorris.HashDetermines | pychology/games/nine_mens_morris.py:196-206 | the hash determines the state |
| NineMensMorris.Hash | pychology/games/nine_mens_morris.py:196-206 | `hash_state`: the 24 points, the men set, the phase letter and the mover; HashDetermines proves it tells states apart |
| NineMensMorris.Evaluate | pychology/games/nine_mens_morris.py:209-216 | +inf and -inf once there is a winner, otherwise each side's number of men |
| NineMensMorris.MakeMoveReadsMover | pychology/games/nine_mens_morris.py:149-152 | `make_move` reads only the mover's entry of the moves dict |
| GameInstances.Chosen | pychology/search.py:329 | the dict `make_move` is handed, a pass (`None`) counting as no move: every player with a move in the joint action, holding that move; with distinct players, a player is present exactly when its entry is not a pass |
| GameInstances.ProductEntry | pychology/search.py:318-330 | in a joint action of the product of legal moves, each player with moves gets one of them and a player without moves passes |
| GameInstances.MorrisExpansion | pychology/games/nine_mens_morris.py:295-307 | the morris `Game` in the engine: a Portfolio configuration raises AttributeError, the game having no `portfolios`; every expanded joint action plays a legal action of the mover that `make_move` accepts; a mover without actions passes and the rules reject it; a MOVING state without a winner always has an action |
| GameInstances.MorrisMoveLegal | pychology/games/nine_mens_morris.py:118-177 | the mover's entry of a joint action of the legal-moves product is one of its actions and `make_move` accepts it |
| GameInstances.FourExpansion | pychology/games/four_in_a_row.py:197-207 | the connect-four `Game` in the engine: a Portfolio configuration and a game-based evaluation raise AttributeError, the game having neither `portfolios` nor `evaluation_funcs`; every expanded joint action drops the mover's piece into an open column; on a full board the mover passes and the rules reject it; a board within six rows without a winner has an open column |
| GameInstances.FourMoveLegal | pychology/games/four_in_a_row.py:84-103 | the mover's entry of a joint action of the legal-moves product is an open column and `make_move` accepts it |
| GameInstances.FourEntry | pychology/games/four_in_a_row.py:84-90 | the mover's entry is one of its open columns, or a pass when there are none |
| GameInstances.FourRoom | pychology/games/four_in_a_row.py:77-90 | a board within six rows that is not full has an open column |
| Labyrinth.InitialStateOf | pychology/games/labyrinth.py:26-40 | the level's tiles, the last 'I' as position and the last 'O' as exit, None when absent |
| Labyrinth.InitialState | pychology/games/labyrinth.py:4-40 | the same for the level the module ships with |
| Labyrinth.Winner | pychology/games/labyrinth.py:43-45 | the one-actor list exactly when the position is the exit |
| Labyrinth.LegalMoves | pychology/games/labyrinth.py:48-60 | exactly the moves whose neighbouring coordinate is a tile, in the order w, s, a, d; TypeError without a position |
| Labyrinth.MakeMove | pychology/games/labyrinth.py:63-76 | one step in the chosen direction with tiles and exit kept; TypeError without a position, UnboundLocalError for an unknown move |
| Labyrinth.Evaluate | pychology/games/labyrinth.py:83-87 | +inf exactly on the exit, 0 elsewhere |
| Labyrinth.LegalMovesStayOnTiles | pychology/games/labyrinth.py:48-76 | every legal move keeps the actor on a tile |
| Labyrinth.MoveUndo | pychology/games/labyrinth.py:63-76 | the opposite move undoes a move |
| Labyrinth.HashDistinguishes | pychology/games/labyrinth.py:79-80 | over one level the position hash tells states apart |
| Labyrinth.Hash | pychology/games/labyrinth.py:79-80 | `hash_state`: the position; HashDistinguishes proves it tells states of one level apart |
| TenTrickTake.InitialState | pychology/games/ten_trick_take.py:13-19 | a full hand each, no points, player 1 deals |
| TenTrickTake.GameWinner | pychology/games/ten_trick_take.py:22-28 | nobody while player 1 holds cards; then exactly the players with the top score, a nonempty list in decreasing player order |
| TenTrickTake.LegalMoves | pychology/games/ten_trick_take.py:31-32 | the hands, keyed by players 1 to 3 |
| TenTrickTake.Without | pychology/games/ten_trick_take.py:36-37 | every copy of the played card leaves the hand and nothing else does |
| TenTrickTake.PlayOne | pychology/games/ten_trick_take.py:36-37 | a card held once is played once: the hand shrinks by exactly one |
| TenTrickTake.Highest | pychology/games/ten_trick_take.py:39-40 | the highest card played |
| TenTrickTake.PlayedTop | pychology/games/ten_trick_take.py:39-41 | exactly the players who played the highest card |
| TenTrickTake.TakerUnique | pychology/games/ten_trick_take.py:42-51 | at most one player takes a trick |
| TenTrickTake.SeatTurn | pychology/games/ten_trick_take.py:44-45 | the k-th seat from the dealer comes k-th |
| TenTrickTake.TurnSeat | pychology/games/ten_trick_take.py:44-45 | every player has one seat in the round |
| TenTrickTake.TieBreak | pychology/games/ten_trick_take.py:44-49 | the first taker in seat order from the dealer, or none when no player 1 to 3 took |
| TenTrickTake.ChooseTaker | pychology/games/ten_trick_take.py:39-51 | the taker played the highest card and comes first in seat order among the players 1 to 3 who did; it fails exactly when none of them did, with UnboundLocalError when several keys played it and KeyError when one did |
| TenTrickTake.MakeMove | pychology/games/ten_trick_take.py:35-60 | KeyError when a player 1 to 3 who still holds cards plays nothing, IndexError when nobody plays, otherwise the taker's errors; on success played cards leave the hands, the taker gains the sum of the cards played and the deal passes on |
| TenTrickTake.DealerRotates | pychology/games/ten_trick_take.py:54 | the dealer goes round the table 1, 2, 3, 1 |
| TenTrickTake.IntSumCredit | pychology/games/ten_trick_take.py:52-53 | crediting a trick raises the table's total by its worth |
| TenTrickTake.PointsGrowBySum | pychology/games/ten_trick_take.py:38-53 | a trick adds exactly the cards played to the points on the table |
| TenTrickTake.HashHand | pychology/games/ten_trick_take.py:68-72 | a card or '-' for each of 1, 2, 3 |
| TenTrickTake.HashHands | pychology/games/ten_trick_take.py:67-73 | per hand its three characters and a separator bar |
| TenTrickTake.HashPoints | pychology/games/ten_trick_take.py:75-76 | each player's points followed by a bar |
| TenTrickTake.Hash | pychology/games/ten_trick_take.py:65-77 | the hands part, a further bar, then the points part |
| TenTrickTake.BarredInjective | pychology/games/ten_trick_take.py:75-76 | the points part is read back unambiguously |
| TenTrickTake.HashDetermines | pychology/games/ten_trick_take.py:65-77 | the hash determines the points and which of the cards 1, 2, 3 each hand holds |
| TenTrickTake.Evaluate | pychology/games/ten_trick_take.py:80-88 | once over, +inf for each winner and -inf for the rest; before, points plus the cards still held |
| TenTrickTake.EvaluateFinished | pychology/games/ten_trick_take.py:80-88 | once over some player scores +inf, and only players with the top score do |
| Common.SplitJoin | pychology/games/repl.py:126 | splitting loses nothing and no piece holds the separator |
| Common.Partition | pychology/games/repl.py:127 | the text before the first separator and after it, or the whole text and "" |
| Common.IntStringRoundTrip | pychology/games/ten_trick_take.py:76 | printing an int and reading it back gives the same int |
| Common.ListIndex | pychology/games/tic_tac_toe.py:46 | Python indexing of a list of length n: negative indices count from the end, anything else raises |
| Common.PutLookup | pychology/search.py:223-225 | a dict write is read back and keeps keys distinct |
| Common.PutOthers | pychology/search.py:223-225 | a dict write keeps every other key and its value |

## Left out

- Randomness: `random.choice` in the best-move player and the random chooser is the `pick` parameter, and the Monte Carlo rollouts' outcome is the `rollout` parameter of the engine, so the rollout loop itself is not modelled.
- Printing and console I/O are not modelled: debug prints, `TTAnalysis`'s level report, `visualize_state`, `query_action`, `query_ai_players` and `print_labyrinth`'s final print. `query_ai_players` becomes the `queried` parameter of `Repl.MapAIsToPlayers`, and `print_labyrinth` is modelled up to the string it prints.
- The REPL loop, `play_interactively`, `auto_tournament` and the command line are not modelled, being console I/O around the modelled functions.
- SearchEngine.Search.constructor: the constructor requires a queue mixin in the configuration. Without one, `Search.__init__` stores the root and then raises NotImplementedError from `setup_expansion` (pychology/search.py:85, 98-99), so no object exists; that error is `SearchGame.SetupExpansion`'s result, and `Repl.AssembledSetup` shows the `none` and `no_exp` limit types produce it.
- Python's `type()` class creation is modelled as the `Repl.Assembled` value listing the mixins and attributes; method resolution over the mixins is the configuration record `SearchGame.Config`.
- SearchTable.Propagate: the back-propagation loop has no bound in the source and may not terminate on cyclic graphs; the model gives it fuel and ends with OutOfFuel, and its lemmas speak of runs that finish. The same fuel bounds the full and node-limited expansion loops and `BestPaths`' recursion ends because paths never repeat a hash.
- SearchEval.WeightedEvaluation: weights are integers; the source's default weight is the float 1.0, which gives the same sums on integer scores.
- Floating point: scores are integers extended by the infinities and NaN; non-integer costs, weights and scores are not modelled.
- AStar.Search: costs are integers, ties in the priority queue are broken by (total cost, fixed cost) and then insertion order rather than by comparing nodes, and the returned path is proved cheapest only for the zero estimate with no negative cost. The `nodes` ghost parameter assumes the reachable graph is finite.
- AStar.Lowest: Python's tuple comparison would go on to compare the nodes and parents of tied entries; the model takes the earliest of them.
- Knowledge.KnowledgeBase.Query: `query` stops at a debugger breakpoint after the arity check and interning; nothing past that is modelled.
- The knowledge base's `__repr__` is left out: it is an unfinished stub.
- BehaviorTrees.Tick: leaf actions are functions of the entity and arguments returning a node state and new entity; keyword arguments are folded into the one argument value.
- BehaviorTrees.PrioritiesCall: `Priorities.reset` inherits `Multinode.reset`, which resets the children but keeps `active_child`; the model keeps that behaviour.
- BrainJars.SetPlanToCommand / ExecutePlan: where `set_plan_to_command` raises (no command, an entry that is not a command, no BEHAVIORS map or an unknown behaviour) and where `execute_plan` raises KeyError (no plan), the model answers FAILED and changes nothing, so the behaviour tree resets instead of the exception leaving `think`. The tree calls them only where the blackboard holds a command or a plan, and `BrainJar.GiveCommand` stores only BEHAVIOR commands that name a known behaviour.
- BrainJars.BrainJar: the blackboard's `parent_ai` argument is not modelled; the agent's blackboard has no parent.
- BrainJars.BrainJar.constructor: a supplied thought pattern is taken as a tree and wrapped in a new, reset `BehaviorTree`, as `BehaviorTree(tree)` would build it; the Python constructor stores a supplied `BehaviorTree` object as given, with whatever tick state it already holds, and the model does not share tree objects between agents.
- GameInstances: the engine's `make_move` has no failure, so where the rules raise, the morris and connect-four game values keep the state; MorrisExpansion and FourExpansion show this happens only for a pass by a mover without moves.
- GameInstances: tic-tac-toe, the labyrinth and the trick-taking game are not assembled into game values. Tic-tac-toe has no hash or evaluation in its module, and the other two report their winners as lists of players, which the engine's single-winner type does not hold.
- BehaviorTrees: nodes are values, so one Python node object shared by two parents, whose state both would then see change, is not modelled; each parent holds its own copy.
- TicTacToe: hash and evaluation functions are not part of that module; tic-tac-toe's `visualize_state` and queries are I/O.
- Labyrinth.LegalMoves: `{None: moves}` is modelled as the move list, the one actor being implicit.
- NineMensMorris: action tuples are integer sequences; flying with three men is not in the source and not modelled.
- GameInstances.Chosen: `dict(zip(players, combi))` keeps a passing player with the value None, while the model drops that entry; a morris rule reading a pass then raises KeyError in the model where Python raises TypeError. Both keep the state in the game value, so the engine's behaviour is the same.
- TenTrickTake.HashDetermines: the dealer is not part of the hash, so the hash does not determine it.
- Repl.IntOf: text is read as an optional sign and decimal digits; Python's `int` also accepts surrounding whitespace and underscores.
- Repl.AssembleSearch: the assembled class has no per-player evaluation mixin, so its `ZeroSumPlayer` evaluation raises AttributeError (SearchEval.EvaluateState); `FixedPliesAI` has the same gap. The "storage lacks analysis" error cannot occur, because an unknown storage raises first.
- SearchEval.RacerValue: the source sorts ascending, so its "player leads" branch fires when the player has the lowest score; the model follows the code, not the docstring.
- `pychology/games/navmesh/main.py`, `pychology/utility.py` and the wezu navgraph example are not part of this model.
