/**
 * Random playouts ("rollouts") of the pursuit game, the simulation step of the
 * tree search. A board, the opposing agents' cells and the controlled agent's
 * cell are taken by value: nothing the rollout does is visible to its caller.
 */
module Mcts {
  import opened Wrappers
  import opened Grid
  import opened Player

  /**
   * `moves` is what the first `|moves|` agents of an enemy phase starting on
   * `b0` did: each agent stepped to an orthogonally adjacent cell that was
   * free when the phase began, and no two agents took the same cell.
   */
  predicate PhaseMoves(b0: Board, agents: seq<Point>, moves: seq<Point>)
  {
    && |moves| <= |agents|
    && (forall j :: 0 <= j < |moves| ==> Adjacent(agents[j].x, agents[j].y, moves[j]) && Free(b0, moves[j]))
    && (forall j, k :: 0 <= k < j < |moves| ==> moves[k] != moves[j])
  }

  /** A phase prefix grows by a fresh adjacent step of the next agent. */
  lemma PhaseMovesGrow(b0: Board, agents: seq<Point>, moves: seq<Point>, m: Point)
    requires PhaseMoves(b0, agents, moves) && |moves| < |agents|
    requires Adjacent(agents[|moves|].x, agents[|moves|].y, m) && Free(b0, m) && m !in moves
    ensures PhaseMoves(b0, agents, moves + [m])
  {
    var grown := moves + [m];
    forall j, k | 0 <= k < j < |grown|
      ensures grown[k] != grown[j]
    {
      if j == |moves| {
        assert grown[k] in moves;
      }
    }
  }

  /** A free adjacent step of the next agent on the board the phase left extends the phase. */
  lemma PhaseGrowsByStep(b0: Board, agents: seq<Point>, moves: seq<Point>, b: Board, move: Point, after: Board)
    requires PhaseMoves(b0, agents, moves) && |moves| < |agents| && b == BlockAll(b0, moves)
    requires Adjacent(agents[|moves|].x, agents[|moves|].y, move) && Free(b, move) && after == SetBlocked(b, move)
    ensures PhaseMoves(b0, agents, moves + [move]) && after == BlockAll(b0, moves + [move])
  {
    BlockAllBlocks(b0, moves);
    assert !IsBlocked(b, move);
    PhaseMovesGrow(b0, agents, moves, move);
    assert (moves + [move])[..|moves|] == moves;
  }

  /**
   * A phase is exactly a sequence of offered moves: each agent's move is one
   * of the neighbours offered to it on the board left by the moves before it.
   */
  lemma PhaseMovesAreOffered(b0: Board, agents: seq<Point>, moves: seq<Point>, j: nat)
    requires PhaseMoves(b0, agents, moves) && j < |moves|
    ensures moves[j] in Neighbors(BlockAll(b0, moves[..j]), agents[j].x, agents[j].y)
  {
    var board := BlockAll(b0, moves[..j]);
    BlockAllBlocks(b0, moves[..j]);
    assert moves[j] !in moves[..j];
    assert Free(board, moves[j]);
    NeighborsComplete(board, agents[j].x, agents[j].y, moves[j]);
  }

  /** Conversely, a sequence of offered moves is a phase. */
  lemma OfferedMovesArePhase(b0: Board, agents: seq<Point>, moves: seq<Point>)
    requires |moves| <= |agents|
    requires forall j :: 0 <= j < |moves| ==>
               moves[j] in Neighbors(BlockAll(b0, moves[..j]), agents[j].x, agents[j].y)
    ensures PhaseMoves(b0, agents, moves)
  {
    forall j | 0 <= j < |moves|
      ensures Adjacent(agents[j].x, agents[j].y, moves[j]) && Free(b0, moves[j])
      ensures forall k :: 0 <= k < j ==> moves[k] != moves[j]
    {
      BlockAllBlocks(b0, moves[..j]);
      NeighborsSound(BlockAll(b0, moves[..j]), agents[j].x, agents[j].y, moves[j]);
      forall k | 0 <= k < j
        ensures moves[k] != moves[j]
      {
        assert moves[k] in moves[..j];
      }
    }
  }

  /**
   * One agent's move inside a rollout: a random move from `position`, marked
   * blocked, or `stuck` when the agent has no free neighbour.
   */
  method Step(ghost start: Board, b0: Board, position: Point) returns (stuck: bool, b: Board, next: Point)
    requires Extends(start, b0)
    ensures Extends(start, b)
    ensures stuck <==> Neighbors(b0, position.x, position.y) == []
    ensures stuck ==> b == b0 && next == position
    ensures !stuck ==> next in Neighbors(b0, position.x, position.y) && b == SetBlocked(b0, next)
    ensures !stuck ==> Free(b0, next) && Adjacent(position.x, position.y, next)
    ensures !stuck ==> |b.blocked| == |b0.blocked| + 1
  {
    var move := GetRandomMove(b0, position);
    if move.None? {
      return true, b0, position;
    }
    next := move.value;
    b := SetBlocked(b0, next);
    stuck := false;
  }

  /**
   * One enemy phase: each enemy in turn takes a random move from its cell in
   * `enemies` on the board left by the enemies before it, and the phase stops
   * with `stuck` at the first enemy that has none. `moves` are the moves
   * taken, in enemy order, and `b` is `b0` with those cells blocked.
   *
   * Within a phase every enemy moves from the cell it started the phase on,
   * whether or not its move is written back; the rollouts below differ in
   * which cells the next phase starts from.
   */
  method EnemiesMove(ghost start: Board, b0: Board, enemies: seq<Point>) returns (stuck: bool, b: Board, moves: seq<Point>)
    requires Extends(start, b0)
    ensures Extends(start, b)
    ensures PhaseMoves(b0, enemies, moves) && b == BlockAll(b0, moves)
    ensures stuck <==> |moves| < |enemies|
    ensures stuck ==> Neighbors(b, enemies[|moves|].x, enemies[|moves|].y) == []
    ensures |b.blocked| == |b0.blocked| + |moves|
  {
    b, stuck, moves := b0, false, [];
    while |moves| < |enemies|
      invariant |moves| <= |enemies|
      invariant Extends(start, b) && b == BlockAll(b0, moves)
      invariant PhaseMoves(b0, enemies, moves)
      invariant |b.blocked| == |b0.blocked| + |moves|
      invariant !stuck
    {
      var enemy := enemies[|moves|];
      var enemyStuck, after, move := Step(start, b, enemy);
      if enemyStuck {
        stuck := true;
        break;
      }
      PhaseGrowsByStep(b0, enemies, moves, b, move, after);
      moves := moves + [move];
      b := after;
    }
  }

  /**
   * A phase never gives an enemy more moves from its starting cell, and a
   * completed phase takes one from every enemy: each blocked a cell next to
   * its own.
   */
  lemma PhaseCostsEveryEnemyAMove(b0: Board, enemies: seq<Point>, moves: seq<Point>)
    requires PhaseMoves(b0, enemies, moves)
    ensures forall j :: 0 <= j < |enemies| ==> Mobility(BlockAll(b0, moves), enemies[j]) <= Mobility(b0, enemies[j])
    ensures |moves| == |enemies| ==>
              forall j :: 0 <= j < |enemies| ==> Mobility(BlockAll(b0, moves), enemies[j]) < Mobility(b0, enemies[j])
  {
    var b := BlockAll(b0, moves);
    BlockAllBlocks(b0, moves);
    forall j | 0 <= j < |enemies|
      ensures Mobility(b, enemies[j]) <= Mobility(b0, enemies[j])
      ensures j < |moves| ==> Mobility(b, enemies[j]) < Mobility(b0, enemies[j])
    {
      FewerMovesOnFullerBoard(b0, b, enemies[j], if j < |moves| then moves[j] else enemies[j]);
    }
  }

  /** The number of cells `rounds` completed rounds block: one per enemy and one for the player each. */
  function RoundsCost(rounds: nat, enemies: nat): nat
  {
    if rounds == 0 then 0 else RoundsCost(rounds - 1, enemies) + enemies + 1
  }

  /** The cost of the completed rounds is `rounds * (enemies + 1)` cells. */
  lemma {:induction false} RoundsCostIsProduct(rounds: nat, enemies: nat)
    ensures RoundsCost(rounds, enemies) == rounds * (enemies + 1)
  {
    if rounds > 0 {
      RoundsCostIsProduct(rounds - 1, enemies);
    }
  }

  /**
   * How the last round of a rollout, played from board `before`, decided it:
   * the agents made the distinct free moves `moves`, leaving `last`; the
   * rollout is won exactly when an agent, the first without a move, had no
   * free neighbour, and lost exactly when every agent moved and then the
   * player at `position` had no free neighbour.
   */
  predicate Decided(before: Board, agents: seq<Point>, position: Point, won: bool, moves: seq<Point>, last: Board)
  {
    && PhaseMoves(before, agents, moves)
    && last == BlockAll(before, moves)
    && (won <==> |moves| < |agents|)
    && (won ==> Neighbors(last, agents[|moves|].x, agents[|moves|].y) == [])
    && (!won ==> Neighbors(last, position.x, position.y) == [])
  }

  /**
   * The free cells a rollout used up: `rounds` completed rounds of the
   * enemies and the player, then the final round's enemy moves, fewer than
   * the enemies on a win and all of them on a loss.
   */
  lemma RolloutUsesFreeCells(board: Board, before: Board, last: Board, enemies: seq<Point>, position: Point,
                             won: bool, moves: seq<Point>, rounds: nat)
    requires Extends(board, before) && Extends(board, last)
    requires |before.blocked| == |board.blocked| + RoundsCost(rounds, |enemies|)
    requires |last.blocked| == |before.blocked| + |moves|
    requires Decided(before, enemies, position, won, moves, last)
    ensures FreeCount(board) - FreeCount(before) == rounds * (|enemies| + 1)
    ensures FreeCount(board) - FreeCount(last) == rounds * (|enemies| + 1) + |moves|
    ensures won ==> FreeCount(board) - FreeCount(last) < rounds * (|enemies| + 1) + |enemies|
    ensures !won ==> FreeCount(board) - FreeCount(last) == rounds * (|enemies| + 1) + |enemies|
  {
    RoundsCostIsProduct(rounds, |enemies|);
    ExtendsFreeCount(board, before);
    ExtendsFreeCount(board, last);
  }

  /** How a round of a rollout ended. */
  datatype RoundEnd = EnemyStuck | PlayerStuck | BothMoved

  /**
   * One round of a rollout from board `b`: the enemy phase from the cells
   * `agents`, then, if every enemy moved, one random move of the player from
   * `position`. `last` is the board when the round ended and `next` the
   * player's new cell.
   */
  method Round(ghost start: Board, b: Board, agents: seq<Point>, position: Point)
    returns (end: RoundEnd, moves: seq<Point>, last: Board, next: Point)
    requires Extends(start, b)
    ensures Extends(start, last)
    ensures PhaseMoves(b, agents, moves)
    ensures end == EnemyStuck <==> |moves| < |agents|
    ensures end != BothMoved ==> Decided(b, agents, position, end == EnemyStuck, moves, last)
    ensures end == BothMoved ==> next in Neighbors(BlockAll(b, moves), position.x, position.y)
    ensures end == BothMoved ==> last == SetBlocked(BlockAll(b, moves), next)
    ensures |last.blocked| == |b.blocked| + |moves| + (if end == BothMoved then 1 else 0)
  {
    var stuck, afterEnemies, taken := EnemiesMove(start, b, agents);
    moves := taken;
    if stuck {
      return EnemyStuck, moves, afterEnemies, position;
    }
    var playerStuck, afterPlayer, step := Step(start, afterEnemies, position);
    if playerStuck {
      return PlayerStuck, moves, afterEnemies, position;
    }
    end, last, next := BothMoved, afterPlayer, step;
  }

  /**
   * What a rollout keeps true between rounds: the board only gained cells
   * of the grid, the player stands where it started or on a cell it
   * claimed, and each completed round blocked one cell per agent, within
   * the `room` the board has.
   */
  predicate Progress(board: Board, b: Board, agents: nat, player: Point, position: Point, rounds: nat, room: nat)
  {
    && Extends(board, b)
    && (position == player || (position in b.blocked && position !in board.blocked))
    && |b.blocked| == |board.blocked| + RoundsCost(rounds, agents) <= room
  }

  /** Each agent of `to` stands orthogonally next to the same agent's cell in `from`. */
  predicate SteppedFrom(from: seq<Point>, to: seq<Point>)
  {
    |to| == |from| && forall i :: 0 <= i < |from| ==> Adjacent(from[i].x, from[i].y, to[i])
  }

  /** Every cell of `cells` is blocked on `b` but was not on `board`: the rollout claimed it. */
  predicate Claimed(board: Board, b: Board, cells: seq<Point>)
  {
    forall i :: 0 <= i < |cells| ==> cells[i] in b.blocked && cells[i] !in board.blocked
  }

  /**
   * A completed round from board `b`: every agent of `agents` made its move
   * of a phase, and then the player stepped from `from` to `to`, a free cell
   * next to it on the board the enemies left; `after` is that board with
   * `to` blocked.
   */
  predicate RoundPlayed(b: Board, agents: seq<Point>, moves: seq<Point>, from: Point, to: Point, after: Board)
  {
    && PhaseMoves(b, agents, moves) && |moves| == |agents|
    && Adjacent(from.x, from.y, to) && Free(BlockAll(b, moves), to)
    && after == SetBlocked(BlockAll(b, moves), to)
  }

  /**
   * A round is played exactly when a full phase was made and the player took
   * one of the neighbours offered to it on the board the enemies left.
   */
  lemma RoundPlayedIsOffered(b: Board, agents: seq<Point>, moves: seq<Point>, from: Point, to: Point, after: Board)
    ensures RoundPlayed(b, agents, moves, from, to, after) <==>
              && PhaseMoves(b, agents, moves) && |moves| == |agents|
              && to in Neighbors(BlockAll(b, moves), from.x, from.y)
              && after == SetBlocked(BlockAll(b, moves), to)
  {
    var mid := BlockAll(b, moves);
    if to in Neighbors(mid, from.x, from.y) {
      NeighborsSound(mid, from.x, from.y, to);
    }
    if Adjacent(from.x, from.y, to) && Free(mid, to) {
      NeighborsComplete(mid, from.x, from.y, to);
    }
  }

  /**
   * The completed rounds of a rollout: round `r` started on `boards[r]` with
   * the agents at `starts[r]` and the player at `trail[r]`, and was played as
   * `RoundPlayed` states, with the enemy moves `phases[r]`, into
   * `boards[r + 1]` and `trail[r + 1]`.
   */
  predicate Played(boards: seq<Board>, starts: seq<seq<Point>>, phases: seq<seq<Point>>, trail: seq<Point>)
    decreases |phases|
  {
    && |boards| == |trail| == |phases| + 1 && |starts| == |phases|
    && (|phases| == 0 ||
        var n := |phases| - 1;
        && Played(boards[..n + 1], starts[..n], phases[..n], trail[..n + 1])
        && RoundPlayed(boards[n], starts[n], phases[n], trail[n], trail[n + 1], boards[n + 1]))
  }

  /** A further completed round extends the record. */
  lemma PlayedGrows(boards: seq<Board>, starts: seq<seq<Point>>, phases: seq<seq<Point>>, trail: seq<Point>,
                    agents: seq<Point>, moves: seq<Point>, next: Point, after: Board)
    requires Played(boards, starts, phases, trail)
    requires RoundPlayed(boards[|phases|], agents, moves, trail[|phases|], next, after)
    ensures Played(boards + [after], starts + [agents], phases + [moves], trail + [next])
  {
    assert (boards + [after])[..|boards|] == boards;
    assert (starts + [agents])[..|starts|] == starts;
    assert (phases + [moves])[..|phases|] == phases;
    assert (trail + [next])[..|trail|] == trail;
  }

  /** Every recorded round was played as `RoundPlayed` states. */
  lemma {:induction false} PlayedRounds(boards: seq<Board>, starts: seq<seq<Point>>, phases: seq<seq<Point>>,
                                        trail: seq<Point>, r: nat)
    requires Played(boards, starts, phases, trail) && r < |phases|
    ensures RoundPlayed(boards[r], starts[r], phases[r], trail[r], trail[r + 1], boards[r + 1])
  {
    var n := |phases| - 1;
    if r < n {
      PlayedRounds(boards[..n + 1], starts[..n], phases[..n], trail[..n + 1], r);
    }
  }

  /** The starting cells of `n` rounds that all start from `cells`. */
  function Repeat(cells: seq<Point>, n: nat): (r: seq<seq<Point>>)
    ensures |r| == n && forall i :: 0 <= i < n ==> r[i] == cells
  {
    if n == 0 then [] else Repeat(cells, n - 1) + [cells]
  }

  /**
   * A completed round, every agent's move and then the player's, keeps
   * `Progress`; the agents now stand on cells the rollout claimed, one step
   * from where they were.
   */
  lemma CompletedRoundProgresses(board: Board, b: Board, agents: seq<Point>, player: Point, position: Point,
                                 rounds: nat, room: nat, moves: seq<Point>, next: Point, after: Board)
    requires HasRoom(board, room)
    requires Progress(board, b, |agents|, player, position, rounds, room)
    requires PhaseMoves(b, agents, moves) && |moves| == |agents|
    requires next in Neighbors(BlockAll(b, moves), position.x, position.y)
    requires after == SetBlocked(BlockAll(b, moves), next) && Extends(board, after)
    requires |after.blocked| == |b.blocked| + |moves| + 1
    ensures Progress(board, after, |agents|, player, next, rounds + 1, room)
    ensures SteppedFrom(agents, moves)
    ensures Claimed(board, after, moves)
  {
    BlockAllBlocks(b, moves);
    NeighborsSound(BlockAll(b, moves), position.x, position.y, next);
  }

  /**
   * One round of a rollout that has kept `Progress` so far: a round that
   * decides the rollout says how, and a completed round keeps `Progress`
   * with the agents moved one step onto cells the rollout claimed.
   */
  method RolloutRound(board: Board, ghost room: nat, agents: seq<Point>, player: Point, b: Board, position: Point, rounds: nat)
    returns (end: RoundEnd, moves: seq<Point>, last: Board, next: Point)
    requires HasRoom(board, room)
    requires Progress(board, b, |agents|, player, position, rounds, room)
    ensures Extends(board, last) && PhaseMoves(b, agents, moves)
    ensures end != BothMoved ==> Decided(b, agents, position, end == EnemyStuck, moves, last)
    ensures end != BothMoved ==> |last.blocked| == |b.blocked| + |moves|
    ensures end == BothMoved ==> |moves| == |agents| && last == SetBlocked(BlockAll(b, moves), next)
    ensures end == BothMoved ==> RoundPlayed(b, agents, moves, position, next, last)
    ensures end == BothMoved ==> Progress(board, last, |agents|, player, next, rounds + 1, room)
    ensures end == BothMoved ==> SteppedFrom(agents, moves)
    ensures end == BothMoved ==> Claimed(board, last, moves)
  {
    end, moves, last, next := Round(board, b, agents, position);
    if end == BothMoved {
      CompletedRoundProgresses(board, b, agents, player, position, rounds, room, moves, next, last);
    }
  }

  /**
   * In the rollout as written every completed round takes one move from each
   * enemy's starting cell: after `rounds` rounds each has lost `rounds`.
   */
  predicate StartCellsDrained(board: Board, b: Board, enemies: seq<Point>, rounds: nat)
  {
    forall j {:trigger Mobility(b, enemies[j])} :: 0 <= j < |enemies| ==> rounds + Mobility(b, enemies[j]) <= Mobility(board, enemies[j])
  }

  /** No enemy had fewer free neighbours at the start than rounds were completed. */
  lemma DrainedStartCellsBoundRounds(board: Board, b: Board, enemies: seq<Point>, rounds: nat)
    requires StartCellsDrained(board, b, enemies, rounds)
    ensures forall j :: 0 <= j < |enemies| ==> rounds <= Mobility(board, enemies[j])
  {
    forall j | 0 <= j < |enemies|
      ensures rounds <= Mobility(board, enemies[j])
    {
      assert rounds + Mobility(b, enemies[j]) <= Mobility(board, enemies[j]);
    }
  }

  /**
   * A completed enemy phase from the starting cells drains each of them once
   * more, and so does the player's move after it.
   */
  lemma PhaseDrainsStartCells(board: Board, b: Board, enemies: seq<Point>, rounds: nat, moves: seq<Point>, next: Point)
    requires StartCellsDrained(board, b, enemies, rounds)
    requires PhaseMoves(b, enemies, moves) && |moves| == |enemies|
    ensures StartCellsDrained(board, BlockAll(b, moves), enemies, rounds + 1)
    ensures StartCellsDrained(board, SetBlocked(BlockAll(b, moves), next), enemies, rounds + 1)
  {
    var afterEnemies := BlockAll(b, moves);
    PhaseCostsEveryEnemyAMove(b, enemies, moves);
    forall j | 0 <= j < |enemies|
      ensures Mobility(SetBlocked(afterEnemies, next), enemies[j]) <= Mobility(afterEnemies, enemies[j])
    {
      FewerMovesOnFullerBoard(afterEnemies, SetBlocked(afterEnemies, next), enemies[j], next);
    }
  }

  /**
   * The rollout as written: each round every enemy tries a random move and
   * then the player does; `won` is true as soon as an enemy is stuck and false
   * as soon as the player is stuck. Each enemy is iterated as a copy, so its
   * move is marked blocked but every round starts the enemies from their
   * cells in `enemies` again; hence no rollout completes more rounds than
   * any enemy has free neighbours at the start.
   *
   * Besides the outcome, the method returns the board `before` the final
   * round and the enemies' `moves` in it, the board and player cell at the
   * moment the outcome was decided, and the number of completed rounds.
   * `boards`, `phases` and `trail` record every completed round: its board,
   * the enemies' moves and the player's cells, each round legal as
   * `RoundPlayed` states. The final round runs the enemies first: the outcome
   * is a win exactly when an enemy found no move, and a loss exactly when all
   * enemies moved and then the player found none.
   */
  method PlaySimulation(board: Board, enemies: seq<Point>, player: Point)
    returns (won: bool, last: Board, position: Point, rounds: nat, before: Board, moves: seq<Point>,
             boards: seq<Board>, phases: seq<seq<Point>>, trail: seq<Point>)
    requires |enemies| > 0
    ensures Extends(board, before) && Extends(board, last)
    ensures Played(boards, Repeat(enemies, rounds), phases, trail)
    ensures boards[0] == board && boards[rounds] == before && trail[0] == player && trail[rounds] == position
    ensures forall r :: 0 <= r < rounds ==> RoundPlayed(boards[r], enemies, phases[r], trail[r], trail[r + 1], boards[r + 1])
    ensures Decided(before, enemies, position, won, moves, last)
    ensures position == player || (position in before.blocked && position !in board.blocked)
    ensures |before.blocked| == |board.blocked| + RoundsCost(rounds, |enemies|)
    ensures |last.blocked| == |before.blocked| + |moves|
    ensures StartCellsDrained(board, before, enemies, rounds)
    ensures !won ==> StartCellsDrained(board, last, enemies, rounds + 1)
    ensures forall j :: 0 <= j < |enemies| ==> rounds <= Mobility(board, enemies[j])
    ensures !won ==> forall j :: 0 <= j < |enemies| ==> rounds < Mobility(board, enemies[j])
  {
    won, last, position, rounds, before, moves, boards, phases, trail := PlayRounds(board, enemies, player);
    AsWrittenRoundsPlayed(boards, enemies, phases, trail);
    DrainedStartCellsBoundRounds(board, before, enemies, rounds);
    if !won {
      DrainedStartCellsBoundRounds(board, last, enemies, rounds + 1);
    }
  }

  /**
   * What the rollout as written keeps true between rounds: besides
   * `Progress`, every starting cell has been drained once per round, and
   * every completed round is recorded.
   */
  predicate AsWrittenProgress(board: Board, room: nat, enemies: seq<Point>, player: Point, b: Board, position: Point,
                              rounds: nat, boards: seq<Board>, phases: seq<seq<Point>>, trail: seq<Point>)
  {
    && Progress(board, b, |enemies|, player, position, rounds, room)
    && StartCellsDrained(board, b, enemies, rounds)
    && Played(boards, Repeat(enemies, rounds), phases, trail)
    && boards[0] == board && boards[rounds] == b && trail[0] == player && trail[rounds] == position
  }

  /**
   * One round of the rollout as written: a round that decides the rollout
   * says how, and a completed round keeps `AsWrittenProgress`.
   */
  method AsWrittenRound(board: Board, ghost room: nat, enemies: seq<Point>, player: Point, b: Board, position: Point,
                        rounds: nat, boards: seq<Board>, phases: seq<seq<Point>>, trail: seq<Point>)
    returns (end: RoundEnd, moves: seq<Point>, last: Board, next: Point,
             boards': seq<Board>, phases': seq<seq<Point>>, trail': seq<Point>)
    requires HasRoom(board, room)
    requires AsWrittenProgress(board, room, enemies, player, b, position, rounds, boards, phases, trail)
    ensures Extends(board, last)
    ensures end != BothMoved ==> Decided(b, enemies, position, end == EnemyStuck, moves, last)
    ensures end != BothMoved ==> |last.blocked| == |b.blocked| + |moves|
    ensures end == PlayerStuck ==> StartCellsDrained(board, last, enemies, rounds + 1)
    ensures end == BothMoved ==> |last.blocked| > |b.blocked|
    ensures end == BothMoved ==>
              AsWrittenProgress(board, room, enemies, player, last, next, rounds + 1, boards', phases', trail')
  {
    end, moves, last, next := RolloutRound(board, room, enemies, player, b, position, rounds);
    boards', phases', trail' := boards + [last], phases + [moves], trail + [next];
    if end == PlayerStuck {
      PhaseDrainsStartCells(board, b, enemies, rounds, moves, next);
    } else if end == BothMoved {
      PhaseDrainsStartCells(board, b, enemies, rounds, moves, next);
      PlayedGrows(boards, Repeat(enemies, rounds), phases, trail, enemies, moves, next, last);
    }
  }

  /**
   * The round loop of the rollout as written: it plays rounds until one
   * decides the outcome, recording every completed round.
   */
  method PlayRounds(board: Board, enemies: seq<Point>, player: Point)
    returns (won: bool, last: Board, position: Point, rounds: nat, before: Board, moves: seq<Point>,
             boards: seq<Board>, phases: seq<seq<Point>>, trail: seq<Point>)
    ensures Extends(board, before) && Extends(board, last)
    ensures Played(boards, Repeat(enemies, rounds), phases, trail)
    ensures boards[0] == board && boards[rounds] == before && trail[0] == player && trail[rounds] == position
    ensures Decided(before, enemies, position, won, moves, last)
    ensures position == player || (position in before.blocked && position !in board.blocked)
    ensures |before.blocked| == |board.blocked| + RoundsCost(rounds, |enemies|)
    ensures |last.blocked| == |before.blocked| + |moves|
    ensures StartCellsDrained(board, before, enemies, rounds)
    ensures !won ==> StartCellsDrained(board, last, enemies, rounds + 1)
  {
    var b := board;
    position := player;
    rounds := 0;
    boards, phases, trail := [board], [], [player];
    RoomExists(board);
    ghost var room: nat :| HasRoom(board, room);
    while true
      invariant AsWrittenProgress(board, room, enemies, player, b, position, rounds, boards, phases, trail)
      decreases room - |b.blocked|
    {
      var end, taken, after, next, boards', phases', trail' :=
        AsWrittenRound(board, room, enemies, player, b, position, rounds, boards, phases, trail);
      before, moves := b, taken;
      if end != BothMoved {
        won, last := end == EnemyStuck, after;
        return;
      }
      boards, phases, trail := boards', phases', trail';
      b, position := after, next;
      rounds := rounds + 1;
    }
  }

  /** In the rollout as written every recorded round starts the enemies from `enemies`. */
  lemma AsWrittenRoundsPlayed(boards: seq<Board>, enemies: seq<Point>, phases: seq<seq<Point>>, trail: seq<Point>)
    requires Played(boards, Repeat(enemies, |phases|), phases, trail)
    ensures forall r :: 0 <= r < |phases| ==> RoundPlayed(boards[r], enemies, phases[r], trail[r], trail[r + 1], boards[r + 1])
  {
    forall r | 0 <= r < |phases|
      ensures RoundPlayed(boards[r], enemies, phases[r], trail[r], trail[r + 1], boards[r + 1])
    {
      PlayedRounds(boards, Repeat(enemies, |phases|), phases, trail, r);
    }
  }

  /** Each entry of `history` is one step, agent by agent, from the entry before it. */
  predicate Walk(history: seq<seq<Point>>)
  {
    |history| <= 1 || (Walk(history[..|history| - 1]) && SteppedFrom(history[|history| - 2], history[|history| - 1]))
  }

  /** In a walk, the agents' cells in round `r + 1` are one step from those in round `r`. */
  lemma {:induction false} WalkSteps(history: seq<seq<Point>>, r: nat)
    requires Walk(history) && r + 1 < |history|
    ensures SteppedFrom(history[r], history[r + 1])
  {
    if r + 2 < |history| {
      WalkSteps(history[..|history| - 1], r);
    }
  }

  /**
   * The rollout with the enemies' moves kept: identical to `PlaySimulation`
   * except that each enemy moves on from the cell it reached in the previous
   * round. `history[r]` holds the enemies' cells at the start of round `r`,
   * and the history is a `Walk`: each round's cells are one step from the
   * previous round's. `foes`, the last of them, is where the final round
   * starts. Every completed round is recorded in `boards`, `phases` and
   * `trail` as in `PlaySimulation`, each round starting the enemies from
   * `history[r]`. Termination rests on the number of free cells alone: every
   * completed round blocks one more cell per agent.
   */
  method PlaySimulationAdvancing(board: Board, enemies: seq<Point>, player: Point)
    returns (won: bool, last: Board, history: seq<seq<Point>>, foes: seq<Point>, position: Point,
             rounds: nat, before: Board, moves: seq<Point>,
             boards: seq<Board>, phases: seq<seq<Point>>, trail: seq<Point>)
    requires |enemies| > 0
    ensures Extends(board, before) && Extends(board, last)
    ensures |history| == rounds + 1 && history[0] == enemies && history[rounds] == foes
    ensures Walk(history)
    ensures |foes| == |enemies|
    ensures rounds > 0 ==> Claimed(board, before, foes)
    ensures Played(boards, history[..rounds], phases, trail) && history == [enemies] + phases
    ensures boards[0] == board && boards[rounds] == before && trail[0] == player && trail[rounds] == position
    ensures forall r :: 0 <= r < rounds ==> RoundPlayed(boards[r], history[r], phases[r], trail[r], trail[r + 1], boards[r + 1])
    ensures Decided(before, foes, position, won, moves, last)
    ensures position == player || (position in before.blocked && position !in board.blocked)
    ensures |before.blocked| == |board.blocked| + RoundsCost(rounds, |enemies|)
    ensures |last.blocked| == |before.blocked| + |moves|
  {
    won, last, history, foes, position, rounds, before, moves, boards, phases, trail :=
      PlayRoundsAdvancing(board, enemies, player);
    AdvancingRoundsPlayed(boards, history, phases, trail);
  }

  /** In the rollout with the moves kept, round `r` starts the enemies from `history[r]`. */
  lemma AdvancingRoundsPlayed(boards: seq<Board>, history: seq<seq<Point>>, phases: seq<seq<Point>>, trail: seq<Point>)
    requires |history| == |phases| + 1 && Played(boards, history[..|phases|], phases, trail)
    ensures forall r :: 0 <= r < |phases| ==> RoundPlayed(boards[r], history[r], phases[r], trail[r], trail[r + 1], boards[r + 1])
  {
    forall r | 0 <= r < |phases|
      ensures RoundPlayed(boards[r], history[r], phases[r], trail[r], trail[r + 1], boards[r + 1])
    {
      PlayedRounds(boards, history[..|phases|], phases, trail, r);
    }
  }

  /** A completed round extends the record of the rollout with the moves kept. */
  lemma AdvancingRecordGrows(boards: seq<Board>, history: seq<seq<Point>>, phases: seq<seq<Point>>, trail: seq<Point>,
                             enemies: seq<Point>, rounds: nat, taken: seq<Point>, next: Point, after: Board)
    requires |history| == rounds + 1 && Played(boards, history[..rounds], phases, trail)
    requires history == [enemies] + phases
    requires RoundPlayed(boards[rounds], history[rounds], taken, trail[rounds], next, after)
    ensures Played(boards + [after], (history + [taken])[..rounds + 1], phases + [taken], trail + [next])
    ensures history + [taken] == [enemies] + (phases + [taken])
  {
    assert history[..rounds] + [history[rounds]] == history;
    assert (history + [taken])[..rounds + 1] == history;
    PlayedGrows(boards, history[..rounds], phases, trail, history[rounds], taken, next, after);
  }

  /**
   * What the rollout with the moves kept keeps true between rounds: besides
   * `Progress`, the enemies' cells so far form a walk that starts at
   * `enemies` and ends at `foes`, on cells the rollout claimed, and every
   * completed round is recorded.
   */
  predicate AdvancingProgress(board: Board, room: nat, enemies: seq<Point>, player: Point, b: Board, position: Point,
                              rounds: nat, history: seq<seq<Point>>, foes: seq<Point>,
                              boards: seq<Board>, phases: seq<seq<Point>>, trail: seq<Point>)
  {
    && |foes| == |enemies|
    && Progress(board, b, |foes|, player, position, rounds, room)
    && |history| == rounds + 1 && history[0] == enemies && history[rounds] == foes
    && Walk(history)
    && (rounds > 0 ==> Claimed(board, b, foes))
    && Played(boards, history[..rounds], phases, trail) && history == [enemies] + phases
    && boards[0] == board && boards[rounds] == b && trail[0] == player && trail[rounds] == position
  }

  /**
   * One round of the rollout with the moves kept: a round that decides the
   * rollout says how, and a completed round moves the enemies on to the
   * cells they reached and keeps `AdvancingProgress`.
   */
  method AdvancingRound(board: Board, ghost room: nat, enemies: seq<Point>, player: Point, b: Board, position: Point,
                        rounds: nat, history: seq<seq<Point>>, foes: seq<Point>,
                        boards: seq<Board>, phases: seq<seq<Point>>, trail: seq<Point>)
    returns (end: RoundEnd, moves: seq<Point>, last: Board, next: Point, history': seq<seq<Point>>,
             boards': seq<Board>, phases': seq<seq<Point>>, trail': seq<Point>)
    requires HasRoom(board, room)
    requires AdvancingProgress(board, room, enemies, player, b, position, rounds, history, foes, boards, phases, trail)
    ensures Extends(board, last)
    ensures end != BothMoved ==> Decided(b, foes, position, end == EnemyStuck, moves, last)
    ensures end != BothMoved ==> |last.blocked| == |b.blocked| + |moves|
    ensures end == BothMoved ==> |last.blocked| > |b.blocked|
    ensures end == BothMoved ==>
              AdvancingProgress(board, room, enemies, player, last, next, rounds + 1, history', moves, boards', phases', trail')
  {
    end, moves, last, next := RolloutRound(board, room, foes, player, b, position, rounds);
    history', boards', phases', trail' := history + [moves], boards + [last], phases + [moves], trail + [next];
    if end == BothMoved {
      AdvancingRecordGrows(boards, history, phases, trail, enemies, rounds, moves, next, last);
      assert history'[..|history|] == history;
    }
  }

  /**
   * The round loop of the rollout with the moves kept: it plays rounds until
   * one decides the outcome, recording every completed round and the cells
   * the enemies reached in it.
   */
  method PlayRoundsAdvancing(board: Board, enemies: seq<Point>, player: Point)
    returns (won: bool, last: Board, history: seq<seq<Point>>, foes: seq<Point>, position: Point,
             rounds: nat, before: Board, moves: seq<Point>,
             boards: seq<Board>, phases: seq<seq<Point>>, trail: seq<Point>)
    ensures Extends(board, before) && Extends(board, last)
    ensures |history| == rounds + 1 && history[0] == enemies && history[rounds] == foes
    ensures Walk(history)
    ensures |foes| == |enemies|
    ensures rounds > 0 ==> Claimed(board, before, foes)
    ensures Played(boards, history[..rounds], phases, trail) && history == [enemies] + phases
    ensures boards[0] == board && boards[rounds] == before && trail[0] == player && trail[rounds] == position
    ensures Decided(before, foes, position, won, moves, last)
    ensures position == player || (position in before.blocked && position !in board.blocked)
    ensures |before.blocked| == |board.blocked| + RoundsCost(rounds, |enemies|)
    ensures |last.blocked| == |before.blocked| + |moves|
  {
    var b := board;
    foes := enemies;
    history := [enemies];
    position := player;
    rounds := 0;
    boards, phases, trail := [board], [], [player];
    RoomExists(board);
    ghost var room: nat :| HasRoom(board, room);
    while true
      invariant AdvancingProgress(board, room, enemies, player, b, position, rounds, history, foes, boards, phases, trail)
      decreases room - |b.blocked|
    {
      var end, taken, after, next, history', boards', phases', trail' :=
        AdvancingRound(board, room, enemies, player, b, position, rounds, history, foes, boards, phases, trail);
      before, moves := b, taken;
      if end != BothMoved {
        won, last := end == EnemyStuck, after;
        return;
      }
      history, foes := history', taken;
      boards, phases, trail := boards', phases', trail';
      b, position := after, next;
      rounds := rounds + 1;
    }
  }

  /** A one-cell-wide corridor: an enemy at the bottom end, the player at the top. */
  const Corridor: Board := Board(1, 5, {Point(0, 0), Point(0, 4)})

  /**
   * In the corridor each agent has exactly one move in the first round. After
   * it, the enemy's starting cell has no free neighbour while the cell the
   * enemy actually reached still has one: the rollout as written declares the
   * enemy stuck in round two, although the enemy could move on.
   */
  lemma CorridorStrandsEnemyAtStart()
    ensures Neighbors(Corridor, 0, 0) == [Point(0, 1)]
    ensures Neighbors(SetBlocked(Corridor, Point(0, 1)), 0, 4) == [Point(0, 3)]
    ensures var afterRound := SetBlocked(SetBlocked(Corridor, Point(0, 1)), Point(0, 3));
            Neighbors(afterRound, 0, 0) == [] && Neighbors(afterRound, 0, 1) == [Point(0, 2)]
  {
    var afterEnemy := SetBlocked(Corridor, Point(0, 1));
    var afterRound := SetBlocked(afterEnemy, Point(0, 3));
    OnlyCandidate(Corridor, 0, Point(0, 1));
    OnlyCandidate(afterEnemy, 4, Point(0, 3));
    OnlyCandidate(afterRound, 1, Point(0, 2));
    assert Candidates(afterRound, 0, 0) == [Some(Point(0, 1)), None, None, None];
  }

  /** The corridor after its only possible first round. */
  const CorridorAfterRound: Board := SetBlocked(SetBlocked(Corridor, Point(0, 1)), Point(0, 3))

  /** No round 0 of a corridor rollout decides it: the enemy and then the player each have a move. */
  lemma CorridorUndecidedAtStart(won: bool, moves: seq<Point>, last: Board)
    ensures !Decided(Corridor, [Point(0, 0)], Point(0, 4), won, moves, last)
  {
    CorridorStrandsEnemyAtStart();
    if |moves| == 1 {
      assert BlockAll(Corridor, moves) == SetBlocked(Corridor, moves[0]);
    }
  }

  /** The only completed first round in the corridor: the enemy takes (0,1), the player (0,3). */
  lemma CorridorFirstRound(phase: seq<Point>, to: Point, after: Board)
    requires RoundPlayed(Corridor, [Point(0, 0)], phase, Point(0, 4), to, after)
    ensures phase == [Point(0, 1)] && to == Point(0, 3) && after == CorridorAfterRound
  {
    assert phase[0] == Point(0, 1);
    assert BlockAll(Corridor, phase) == SetBlocked(Corridor, Point(0, 1));
  }

  /**
   * In the rollout as written the second corridor round starts the enemy at
   * (0,0) again, where it has no move: that round never completes and, when
   * it decides the rollout, decides a win.
   */
  lemma CorridorSecondRoundAsWritten(phase: seq<Point>, to: Point, after: Board, won: bool, last: Board)
    ensures !RoundPlayed(CorridorAfterRound, [Point(0, 0)], phase, Point(0, 3), to, after)
    ensures Decided(CorridorAfterRound, [Point(0, 0)], Point(0, 3), won, phase, last) ==> won
  {
  }

  /**
   * With the moves kept the second corridor round starts the enemy at (0,1):
   * it takes (0,2), after which the player at (0,3) has no move, so the round
   * never completes and, when it decides the rollout, decides a loss.
   */
  lemma CorridorSecondRoundAdvancing(phase: seq<Point>, to: Point, after: Board, won: bool, last: Board)
    ensures !RoundPlayed(CorridorAfterRound, [Point(0, 1)], phase, Point(0, 3), to, after)
    ensures Decided(CorridorAfterRound, [Point(0, 1)], Point(0, 3), won, phase, last) ==> !won
  {
    NeighborsComplete(CorridorAfterRound, 0, 1, Point(0, 2));
    if |phase| == 1 {
      assert BlockAll(CorridorAfterRound, phase) == SetBlocked(CorridorAfterRound, phase[0]);
    }
  }

  /**
   * Every outcome `PlaySimulation`'s contract admits on the corridor, with
   * the enemy at (0,0) and the player at (0,4), is a win in the second round.
   */
  lemma AsWrittenCorridorWins(won: bool, last: Board, position: Point, rounds: nat, before: Board, moves: seq<Point>,
                              boards: seq<Board>, phases: seq<seq<Point>>, trail: seq<Point>)
    requires Played(boards, Repeat([Point(0, 0)], rounds), phases, trail)
    requires boards[0] == Corridor && boards[rounds] == before && trail[0] == Point(0, 4) && trail[rounds] == position
    requires forall r :: 0 <= r < rounds ==> RoundPlayed(boards[r], [Point(0, 0)], phases[r], trail[r], trail[r + 1], boards[r + 1])
    requires Decided(before, [Point(0, 0)], position, won, moves, last)
    ensures rounds == 1 && won
  {
    CorridorUndecidedAtStart(won, moves, last);
    assert rounds != 0;
    CorridorFirstRound(phases[0], trail[1], boards[1]);
    if rounds >= 2 {
      CorridorSecondRoundAsWritten(phases[1], trail[2], boards[2], won, last);
    }
    CorridorSecondRoundAsWritten(moves, trail[1], boards[1], won, last);
  }

  /**
   * Every outcome `PlaySimulationAdvancing`'s contract admits on the same
   * corridor is a loss in the second round.
   */
  lemma AdvancingCorridorLoses(won: bool, last: Board, history: seq<seq<Point>>, foes: seq<Point>, position: Point,
                               rounds: nat, before: Board, moves: seq<Point>,
                               boards: seq<Board>, phases: seq<seq<Point>>, trail: seq<Point>)
    requires |history| == rounds + 1 && history[rounds] == foes
    requires Played(boards, history[..rounds], phases, trail) && history == [[Point(0, 0)]] + phases
    requires boards[0] == Corridor && boards[rounds] == before && trail[0] == Point(0, 4) && trail[rounds] == position
    requires forall r :: 0 <= r < rounds ==> RoundPlayed(boards[r], history[r], phases[r], trail[r], trail[r + 1], boards[r + 1])
    requires Decided(before, foes, position, won, moves, last)
    ensures rounds == 1 && !won
  {
    CorridorUndecidedAtStart(won, moves, last);
    assert rounds != 0;
    CorridorFirstRound(phases[0], trail[1], boards[1]);
    assert history[1] == [Point(0, 1)];
    if rounds >= 2 {
      CorridorSecondRoundAdvancing(phases[1], trail[2], boards[2], won, last);
    }
    CorridorSecondRoundAdvancing(moves, trail[1], boards[1], won, last);
  }

  /** The first corridor round both rollouts play. */
  lemma CorridorFirstRoundPlayed()
    ensures RoundPlayed(Corridor, [Point(0, 0)], [Point(0, 1)], Point(0, 4), Point(0, 3), CorridorAfterRound)
  {
    assert BlockAll(Corridor, [Point(0, 1)]) == SetBlocked(Corridor, Point(0, 1));
  }

  /** The record of that single round. */
  lemma CorridorFirstRoundRecorded(starts: seq<seq<Point>>)
    requires starts == [[Point(0, 0)]]
    ensures Played([Corridor, CorridorAfterRound], starts, [[Point(0, 1)]], [Point(0, 4), Point(0, 3)])
  {
    CorridorFirstRoundPlayed();
    var boards, phases, trail := [Corridor, CorridorAfterRound], [[Point(0, 1)]], [Point(0, 4), Point(0, 3)];
    assert Played(boards[..1], starts[..0], phases[..0], trail[..1]);
  }

  /**
   * The play the rollout as written makes on the corridor, one completed
   * round and then a stuck enemy, meets what `AsWrittenCorridorWins` assumes:
   * its record here, its final round in `CorridorEnemyStuck`.
   */
  lemma AsWrittenCorridorPlay(boards: seq<Board>, starts: seq<seq<Point>>, phases: seq<seq<Point>>, trail: seq<Point>)
    requires boards == [Corridor, CorridorAfterRound] && starts == Repeat([Point(0, 0)], 1)
    requires phases == [[Point(0, 1)]] && trail == [Point(0, 4), Point(0, 3)]
    ensures Played(boards, starts, phases, trail)
    ensures RoundPlayed(boards[0], [Point(0, 0)], phases[0], trail[0], trail[1], boards[1])
  {
    assert starts == Repeat([Point(0, 0)], 0) + [[Point(0, 0)]];
    CorridorFirstRoundRecorded(starts);
    CorridorFirstRoundPlayed();
  }

  /** In the rollout as written the enemy is asked at (0,0) again in the second round and is stuck. */
  lemma CorridorEnemyStuck()
    ensures Decided(CorridorAfterRound, [Point(0, 0)], Point(0, 3), true, [], CorridorAfterRound)
  {
    CorridorStrandsEnemyAtStart();
  }

  /** With the moves kept, the enemy takes (0,2) in the second round and the player at (0,3) is stuck. */
  lemma CorridorPlayerStuck()
    ensures Decided(CorridorAfterRound, [Point(0, 1)], Point(0, 3), false, [Point(0, 2)],
                    SetBlocked(CorridorAfterRound, Point(0, 2)))
  {
    var last := SetBlocked(CorridorAfterRound, Point(0, 2));
    assert BlockAll(CorridorAfterRound, [Point(0, 2)]) == last;
    assert Neighbors(last, 0, 3) == [] by {
      if Neighbors(last, 0, 3) != [] {
        NeighborsSound(last, 0, 3, Neighbors(last, 0, 3)[0]);
      }
    }
    assert Free(CorridorAfterRound, Point(0, 2));
  }

  /**
   * The play the rollout with the moves kept makes on the corridor, one
   * completed round and then a stuck player, meets what
   * `AdvancingCorridorLoses` assumes: its record here, its final round in
   * `CorridorPlayerStuck`.
   */
  lemma AdvancingCorridorPlay(boards: seq<Board>, history: seq<seq<Point>>, phases: seq<seq<Point>>, trail: seq<Point>)
    requires boards == [Corridor, CorridorAfterRound] && history == [[Point(0, 0)], [Point(0, 1)]]
    requires phases == [[Point(0, 1)]] && trail == [Point(0, 4), Point(0, 3)]
    ensures Played(boards, history[..1], phases, trail) && history == [[Point(0, 0)]] + phases
    ensures RoundPlayed(boards[0], history[0], phases[0], trail[0], trail[1], boards[1])
  {
    CorridorFirstRoundPlayed();
    assert history[..1] == [[Point(0, 0)]];
    CorridorFirstRoundRecorded(history[..1]);
  }

  /**
   * On a one-column board a cell has at most the two candidates above and
   * below it; when exactly one of them is free it is the only neighbour.
   */
  lemma OnlyCandidate(b: Board, y: int, c: Point)
    requires b.width == 1 && Free(b, c)
    requires c == Point(0, y + 1) || c == Point(0, y - 1)
    requires c == Point(0, y + 1) ==> !Free(b, Point(0, y - 1))
    requires c == Point(0, y - 1) ==> !Free(b, Point(0, y + 1))
    ensures Neighbors(b, 0, y) == [c]
  {
    var cs := Candidates(b, 0, y);
    assert cs[2] == None && cs[3] == None;
    assert KeepFree(b, cs[3..]) == [] by {
      assert cs[3..][1..] == [];
    }
    assert KeepFree(b, cs[2..]) == [] by {
      assert cs[2..][1..] == cs[3..];
    }
    assert cs[1..][1..] == cs[2..];
    if c == Point(0, y + 1) {
      assert KeepFree(b, cs[1..]) == [];
      assert KeepFree(b, cs) == [c] + KeepFree(b, cs[1..]);
    } else {
      assert KeepFree(b, cs[1..]) == [c];
      assert KeepFree(b, cs) == KeepFree(b, cs[1..]);
    }
  }
}
