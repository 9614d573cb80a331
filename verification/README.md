# A verified model of a TRON light-cycle bot's Monte-Carlo tree search core

The bot plays TRON on a rectangular grid: every agent occupies a cell, moves
one step up, down, left or right each turn, and leaves the cell it entered
blocked. An agent with no free orthogonal neighbour has lost. The bot chooses
moves with Monte-Carlo tree search; this project models the parts that do not
depend on the random number generator or on the clock:

- the grid (`Grid`): points, the board's blocked set, the in-bounds lookup of
  interned points, the free-neighbour enumeration in the fixed order top
  (y+1), bottom (y-1), left (x-1), right (x+1), and blocking a cell;
- an agent's random move (`Player`): any one of the free neighbours, chosen
  nondeterministically, or none when there is no free neighbour;
- one random playout (`Mcts`): enemies move first, then the controlled agent,
  until somebody is stuck, on a private copy of the board;
- the search tree (`ActionTree`): nodes with win and play counters,
  propagation of a win or a loss to every ancestor, the leaf test, and the two
  child selectors (best exploration score, best integer win ratio).

The tree is an arena: a sequence of nodes addressed by index, each naming its
parent and children by index, with every parent created before its children.
The identity of the program's interned `Point` objects becomes value
equality of the `Point` datatype (`Grid.GetPointFindsInternedCell` ties the
lookup to the table of interned cells). The random index of a move becomes a
`:|` choice, so every contract holds for every random outcome. The
exploration score of a node (a floating-point formula) becomes a parameter
`score: Node -> real` of the selector. `ActionTree.AddChild`, which appends a
child and links it both ways, is no operation of the program: its contract
shows how a well-formed tree grows, and no other member calls it.

A rollout's board only ever gains blocked cells of the grid (`Grid.Extends`),
so every count of blocked cells below is also a count of free cells used up
(`Grid.ExtendsFreeCount`). A rollout returns, besides its outcome, a record
of every round it completed: the board each round started on, the enemies'
moves in it and the player's cells (`Mcts.Played`). Each recorded round is
legal (`Mcts.RoundPlayed`): every enemy made a move of the phase, and the
player then stepped to one of the neighbours offered to it on the board the
enemies left. The next round starts on that board with that cell blocked. The
round after the last recorded one decides the outcome (`Mcts.Decided`). Its
enemy phase made distinct moves to free adjacent cells. The rollout is won
exactly when the first enemy without a move had no free neighbour on the board
left by the earlier enemies' moves. It is lost exactly when every enemy moved
and the player then had no free neighbour. The round loops themselves are
`Mcts.PlayRounds` and `Mcts.PlayRoundsAdvancing`, whose contracts the two
rollouts extend.

## Model

| member | source | states |
|---|---|---|
| Grid.GetPoint | main.cpp:90-96 | a point is returned exactly when both coordinates lie inside the board, and it is the point with those coordinates; otherwise there is none |
| Grid.GetPointFindsInternedCell | main.cpp:68-80 | the lookup succeeds exactly for the cells of the table the board interns at construction, and what it returns is one of them |
| Grid.IsBlocked | main.cpp:86-88 | a cell is blocked exactly when it is in the board's set of blocked cells; cell identity is coordinate equality |
| Grid.SetBlocked | main.cpp:82-84 | after blocking, the cell is blocked, every other cell keeps its blocked status, the grid size is unchanged, and blocking an already blocked cell changes nothing |
| Grid.Neighbors | main.cpp:98-123 | at most four cells are returned, each inside the board, unblocked and one orthogonal step away |
| Grid.NeighborsSound | main.cpp:98-123 | every returned neighbour is a free cell orthogonally adjacent to the given cell |
| Grid.NeighborsComplete | main.cpp:98-123 | every free cell orthogonally adjacent to the given cell is returned |
| Grid.NeighborsOrdered | main.cpp:100-120 | the neighbours come in the order top, bottom, left, right, hence without repetition |
| Grid.NeighborsOnFullerBoard | main.cpp:98-123 | on a board with more blocked cells every neighbour is also a neighbour on the emptier board, there are no more of them, and blocking a returned neighbour leaves strictly fewer |
| Grid.FewerMovesOnFullerBoard | main.cpp:98-123 | an agent's number of free neighbours never grows as cells are blocked, and drops when one of its free adjacent cells is blocked |
| Grid.BlockAllBlocks | main.cpp:239-254 | blocking a sequence of cells one after the other leaves blocked exactly the board's cells and the cells of the sequence |
| Grid.ExtendsFreeCount | main.cpp:82-88 | when a board only gains blocked cells of the grid, its free-cell count falls by exactly the number of cells it gained |
| Grid.KeepFreeComplete | main.cpp:105-120 | the filter over the four candidates keeps every present, unblocked candidate |
| Grid.KeepFreeOrdered | main.cpp:105-120 | the filter keeps the candidates' order |
| Grid.BlockingFreeCellShrinks | main.cpp:82-84 | blocking a free cell of the board lowers the number of free cells by exactly one |
| Grid.BlockingNeverGrows | main.cpp:82-84 | blocking any cell never raises the number of free cells |
| Player.GetRandomMove | main.cpp:136-144 | there is no move exactly when the cell has no free neighbour; otherwise the move is one of the free neighbours, hence a free adjacent cell |
| Mcts.Step | main.cpp:241-253 | one agent's move: stuck exactly when it has no free neighbour, leaving the board alone; otherwise one of its free neighbours, a free adjacent cell, is blocked and nothing else |
| Mcts.EnemiesMove | main.cpp:239-254 | the enemy phase as written: the enemies move in order, each to a cell adjacent to its cell in `enemies` and free when the phase began, no two to the same cell; the board afterwards is the starting board with exactly these cells blocked; the phase is stuck exactly when fewer moves than enemies were made, and then the first enemy without a move has no free neighbour on the board left by the earlier moves |
| Mcts.PhaseMovesAreOffered | main.cpp:239-253 | every move of a phase is one of the neighbours offered to its enemy on the board left by the earlier moves |
| Mcts.OfferedMovesArePhase | main.cpp:239-253 | conversely, moves that were each offered on the board left by the earlier moves form a phase: adjacent, free at the start and distinct |
| Mcts.PhaseCostsEveryEnemyAMove | main.cpp:239-253 | a phase never gives an enemy more free neighbours at its starting cell, and a completed phase takes at least one from every enemy |
| Mcts.Round | main.cpp:237-261 | one pass of the rollout loop: the enemy phase first, and only when every enemy moved the player's move; a round that stops decides the rollout as `Decided` states, and a completed round blocks one cell per enemy and then a free neighbour of the player |
| Mcts.PlaySimulation | main.cpp:235-263 | the rollout as written terminates. Every completed round is legal: each enemy moved from its starting cell in `enemies` to a distinct free adjacent cell, then the player stepped to a neighbour offered on the board the enemies left. The next round starts on that board with the player's cell blocked. The final round decides the outcome as `Decided` states: won exactly when an enemy, asked from its starting cell, had no move, lost exactly when all enemies moved and the player then had none. The board only gains cells of the grid, and the player stands on its start or on a cell blocked during the rollout. Each completed round blocked one cell per enemy and one for the player. No enemy had fewer free neighbours at its starting cell than rounds were completed, and on a loss every enemy had more |
| Mcts.RoundPlayedIsOffered | main.cpp:237-261 | a round counts as completed exactly when every enemy made its move of a full phase and the player then took one of the neighbours offered to it on the board the enemies left, blocking it |
| Mcts.PlayedRounds | main.cpp:237-261 | every round in a rollout's record was completed as `RoundPlayed` states, each starting on the board and player cell the round before it left |
| Mcts.PhaseDrainsStartCells | main.cpp:239-261 | a completed enemy phase from the starting cells takes one more free neighbour from each of them, and the player's move after it gives none back |
| Mcts.RolloutUsesFreeCells | main.cpp:235-263 | a rollout used up `rounds * (enemies + 1)` free cells before its final round and the final round's enemy moves after it: fewer than the enemies on a win, all of them on a loss |
| Mcts.WalkSteps | main.cpp:249-250 | in a history of enemy cells kept round by round, each round's cells are one orthogonal step from the previous round's |
| Mcts.PlaySimulationAdvancing | main.cpp:235-263 | the rollout with each enemy's move kept terminates. Every completed round is legal, with the enemies moving from the cells they reached in the round before (`history` is `enemies` followed by each round's moves). The enemies' cells, round by round, form a walk of orthogonal steps, and after a completed round every enemy stands on a cell the rollout claimed. The final round starts from the cells the enemies reached and decides the outcome as `Decided` states |
| Mcts.CorridorStrandsEnemyAtStart | main.cpp:239-253 | on a one-cell-wide corridor, after one round the as-written rollout sees the enemy's starting cell with no free neighbour, while the cell the enemy moved to still has one |
| Mcts.AsWrittenCorridorWins | main.cpp:239-253 | on the one-cell-wide corridor with the enemy at (0,0) and the player at (0,4), every outcome the as-written rollout's contract admits completes exactly one round and reports a win, because the second round asks the enemy's starting cell for a move again |
| Mcts.AdvancingCorridorLoses | main.cpp:239-253 | on the same corridor, every outcome the rollout with the moves kept admits completes exactly one round and reports a loss: the enemy moves on to (0,2) and the player at (0,3) is stuck |
| ActionTree.NewNode | main.cpp:160-162 | a new node holds its move, no children, no parent, valid counters, and is not a leaf |
| ActionTree.Ancestors | main.cpp:164-171 | the nodes a result propagates to: the node itself, only earlier nodes, and the root of its chain |
| ActionTree.Win | main.cpp:164-171 | a win adds one win and one play to the node and to each of its ancestors, leaves every other node and all links untouched, and keeps wins within plays |
| ActionTree.Loss | main.cpp:177-183 | a loss adds one play to the node and to each of its ancestors, leaves every win count, every other node and all links untouched, and keeps wins within plays |
| ActionTree.WinLossCommute | main.cpp:164-183 | recording a win and a loss gives the same counters in either order |
| ActionTree.IsLeaf | main.cpp:173-175 | a node is a leaf exactly when it has recorded at least one play and has no children |
| ActionTree.FirstResultMakesLeaf | main.cpp:173-175 | a childless node is not a leaf before its first result and is one after it, win or loss |
| ActionTree.FirstBest | main.cpp:197-210 | the selection loop returns nothing exactly when no score is positive, and otherwise the first index of the maximal score |
| ActionTree.GetOptimalChild | main.cpp:197-210 | no child is chosen exactly when no child scores above zero; otherwise the chosen child is the first one with the maximal score |
| ActionTree.RatioOfValidNode | main.cpp:217 | with valid counters the integer win ratio is 1 for a node that won every play and 0 otherwise |
| ActionTree.GetWinRatioChild | main.cpp:212-225 | no child is chosen exactly when no child's integer win ratio is positive; otherwise the chosen child is the first holding the maximal ratio |
| ActionTree.WinRatioPicksFirstPerfect | main.cpp:212-225 | with valid counters a child holds the first maximal positive win ratio exactly when it won every play and no earlier child did |
| ActionTree.WinRatioPicksNothing | main.cpp:212-225 | with valid counters no child is chosen by win ratio exactly when no child won every play |

## Left out

- `randomIntRange` (main.cpp:13-18): a random number source; the move choice is a nondeterministic index in the same range.
- `ubcScore` (main.cpp:185-193): floating-point arithmetic with `sqrt` and `log`; `ActionTree.GetOptimalChild` takes the score as a parameter.
- `getBestChoice` (main.cpp:273-336): the search driver depends on the wall clock and the random playouts; it is not part of this model.
- The `std::hash<Point>` specialisation (main.cpp:48-59): hashing is replaced by value equality of points.
- `main` (main.cpp:344-364): input and output.
- Point equality (main.cpp:42-44): it is the structural equality of the `Point` datatype, so it has no member of its own.
- Integer width: coordinates and counters are unbounded integers; 32-bit overflow of `wins` and `plays` is not modelled.
- The board's width, height and point table are static members, so a second board would overwrite the dimensions and append to the table; the model gives each board its own dimensions.
- ActionTree.NewNode: the program's constructor leaves `wins`, `plays` and `parent` uninitialised; the model starts them at 0, 0 and no parent, and every counter property assumes this.
- ActionTree.AddChild: sets the child's parent link; the search driver (main.cpp:294-301) builds children without one, so there `win` and `loss` would follow an uninitialised pointer.
- ActionTree.GetWinRatioChild: requires every child to have been played, because the program divides by `plays` and a zero would be a division by zero.
- The `winningMove` flag and `biasParameter` (main.cpp:153, 158): read only by the search driver and the exploration score, both outside this model.
- Mcts.PlaySimulation: requires at least one enemy; with none, the program's loop never runs and the function ends without returning a value.
- Mcts.PlaySimulation and Mcts.PlaySimulationAdvancing return, besides the outcome, the board before the final round, the enemies' moves in it, the final board and player cell, the round count, the record of the completed rounds (boards, enemy moves, player cells) and (advancing) the history of enemy cells, so that their contracts can speak about them.
- The rollouts' termination measure is a bound on the blocked cells of any board that extends the starting one; it exists for every board (`Grid.RoomExists`) and is never computed.

## Findings

| source | as written | input that shows it | evidently intended | confidence | as-written member | corrected member |
|---|---|---|---|---|---|---|
| main.cpp:239-253 | the loop iterates the enemies by value, so `enemy.position = move` updates a copy and every round moves the enemies from their starting cells again | a 1-by-5 board with (0,0) and (0,4) blocked, one enemy at (0,0), the player at (0,4): after one round the enemy is at (0,1) with (0,2) still free, but the next round asks (0,0) for a move, finds none and reports a win | each enemy continues from the cell it moved to; on this input the enemy takes (0,2) and the player, at (0,3), is stuck | not executed | Mcts.PlaySimulation, Mcts.CorridorStrandsEnemyAtStart, Mcts.AsWrittenCorridorWins | Mcts.PlaySimulationAdvancing, Mcts.AdvancingCorridorLoses |

The child selectors start from a best score of 0 and replace it only with a
strictly greater score, so they return the first child holding the maximum,
and nothing when no score is positive; the model follows this code.
