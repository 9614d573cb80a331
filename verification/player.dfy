/** An agent's uniform-random move policy. */
module Player {
  import opened Wrappers
  import opened Grid

  /**
   * Picks one of the free neighbours of `position`, or `None` (the agent is
   * stuck and has lost) when there is none. The random index drawn from
   * [0, count - 1] is modelled as an arbitrary choice in that range.
   */
  method GetRandomMove(board: Board, position: Point) returns (move: Option<Point>)
    ensures move.None? <==> Neighbors(board, position.x, position.y) == []
    ensures move.Some? ==> move.value in Neighbors(board, position.x, position.y)
    ensures move.Some? ==> Free(board, move.value) && Adjacent(position.x, position.y, move.value)
  {
    var possibleMoves := Neighbors(board, position.x, position.y);
    if |possibleMoves| != 0 {
      var index :| 0 <= index <= |possibleMoves| - 1;
      move := Some(possibleMoves[index]);
    } else {
      move := None;
    }
  }
}
