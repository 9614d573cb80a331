/**
 * The occupancy grid: a fixed `width` x `height` rectangle of cells and the set
 * of cells blocked by the agents' trails.
 *
 * The program interns one `Point` object per cell and stores pointers to them,
 * so pointer identity coincides with coordinate identity; here a cell is a
 * value and the blocked set is a set of coordinates.
 */
module Grid {
  import opened Wrappers

  /** A cell coordinate; equality is by coordinate, as in `Point::operator==`. */
  datatype Point = Point(x: int, y: int)

  /** A board value. The dimensions are fixed for the board's lifetime. */
  datatype Board = Board(width: int, height: int, blocked: set<Point>)

  /** The interned cells of the grid: one per coordinate inside the rectangle. */
  function Cells(b: Board): set<Point>
  {
    set x, y | 0 <= x < b.width && 0 <= y < b.height :: Point(x, y)
  }

  /** Two boards describe the same grid (their occupancy may differ). */
  predicate SameGrid(a: Board, b: Board)
  {
    a.width == b.width && a.height == b.height
  }

  /** The cell lies inside the rectangle. */
  predicate OnGrid(b: Board, p: Point)
  {
    0 <= p.x < b.width && 0 <= p.y < b.height
  }

  predicate IsBlocked(b: Board, p: Point)
  {
    p in b.blocked
  }

  /** A cell an agent may still enter: on the grid and not blocked. */
  predicate Free(b: Board, p: Point)
  {
    OnGrid(b, p) && !IsBlocked(b, p)
  }

  /** The number of free cells of the grid; blocking a free cell lowers it by one (`BlockingFreeCellShrinks`). */
  function FreeCount(b: Board): nat
  {
    |Cells(b) - b.blocked|
  }

  function Abs(n: int): nat
  {
    if n < 0 then -n else n
  }

  /** Orthogonal adjacency, stated as Manhattan distance one. */
  predicate Adjacent(x: int, y: int, p: Point)
  {
    Abs(p.x - x) + Abs(p.y - y) == 1
  }

  /**
   * The position of a neighbour of (x, y) in the fixed enumeration order
   * top (y+1), bottom (y-1), left (x-1), right (x+1); 4 for any other cell.
   */
  function DirRank(x: int, y: int, p: Point): nat
  {
    if p == Point(x, y + 1) then 0
    else if p == Point(x, y - 1) then 1
    else if p == Point(x - 1, y) then 2
    else if p == Point(x + 1, y) then 3
    else 4
  }

  /** Bounds-checked lookup of the interned cell at (x, y). */
  function GetPoint(b: Board, x: int, y: int): (r: Option<Point>)
    ensures r.Some? <==> OnGrid(b, Point(x, y))
    ensures r.Some? ==> r.value == Point(x, y)
  {
    if 0 <= x && b.width > x && 0 <= y && b.height > y then
      Some(Point(x, y))
    else
      None
  }

  /** Adds `p` to the blocked set. */
  function SetBlocked(b: Board, p: Point): (r: Board)
    ensures SameGrid(r, b)
    ensures IsBlocked(r, p)
    ensures forall q :: q != p ==> (IsBlocked(r, q) <==> IsBlocked(b, q))
    ensures IsBlocked(b, p) ==> r == b
  {
    b.(blocked := b.blocked + {p})
  }

  /** The four lookups made for a neighbour query: top, bottom, left, right. */
  function Candidates(b: Board, x: int, y: int): seq<Option<Point>>
  {
    [GetPoint(b, x, y + 1), GetPoint(b, x, y - 1), GetPoint(b, x - 1, y), GetPoint(b, x + 1, y)]
  }

  /**
   * The present, unblocked candidates, in candidate order: each list element
   * is a present candidate that is not blocked.
   */
  function KeepFree(b: Board, cs: seq<Option<Point>>): (r: seq<Point>)
    ensures |r| <= |cs|
    ensures forall i :: 0 <= i < |r| ==> !IsBlocked(b, r[i]) && Some(r[i]) in cs
    decreases |cs|
  {
    if cs == [] then []
    else
      var rest := KeepFree(b, cs[1..]);
      assert forall i :: 0 <= i < |rest| ==> Some(rest[i]) in cs;
      if cs[0].Some? && !IsBlocked(b, cs[0].value) then [cs[0].value] + rest else rest
  }

  /**
   * The unblocked on-grid orthogonal neighbours of (x, y), in the order top,
   * bottom, left, right: at most four cells, each free and each one of the
   * four enumerated neighbours. Completeness and order are the lemmas
   * `NeighborsComplete` and `NeighborsOrdered`.
   */
  function Neighbors(b: Board, x: int, y: int): (r: seq<Point>)
    ensures |r| <= 4
    ensures forall i :: 0 <= i < |r| ==> Free(b, r[i]) && DirRank(x, y, r[i]) < 4
  {
    KeepFree(b, Candidates(b, x, y))
  }

  /** The grid's cells are exactly the coordinates inside the rectangle. */
  lemma CellsAreOnGrid(b: Board, p: Point)
    ensures p in Cells(b) <==> OnGrid(b, p)
  {
  }

  /** `GetPoint` finds a cell exactly when the interned table holds it. */
  lemma GetPointFindsInternedCell(b: Board, x: int, y: int)
    ensures GetPoint(b, x, y).Some? <==> Point(x, y) in Cells(b)
    ensures GetPoint(b, x, y).Some? ==> GetPoint(b, x, y).value in Cells(b)
  {
  }

  /** The enumeration order ranks exactly the orthogonal neighbours. */
  lemma AdjacentIffRanked(x: int, y: int, p: Point)
    ensures Adjacent(x, y, p) <==> DirRank(x, y, p) < 4
  {
  }

  /** Every present, unblocked candidate is kept. */
  lemma {:induction false} KeepFreeComplete(b: Board, cs: seq<Option<Point>>, c: Point)
    requires Some(c) in cs && !IsBlocked(b, c)
    ensures c in KeepFree(b, cs)
    decreases |cs|
  {
    if cs[0] != Some(c) {
      KeepFreeComplete(b, cs[1..], c);
    }
  }

  /** Candidates listed in increasing rank are kept in increasing rank. */
  lemma {:induction false} KeepFreeOrdered(b: Board, cs: seq<Option<Point>>, x: int, y: int)
    requires forall i, j :: 0 <= i < j < |cs| && cs[i].Some? && cs[j].Some? ==>
               DirRank(x, y, cs[i].value) < DirRank(x, y, cs[j].value)
    ensures forall i, j :: 0 <= i < j < |KeepFree(b, cs)| ==>
              DirRank(x, y, KeepFree(b, cs)[i]) < DirRank(x, y, KeepFree(b, cs)[j])
    decreases |cs|
  {
    if cs != [] {
      var rest := KeepFree(b, cs[1..]);
      KeepFreeOrdered(b, cs[1..], x, y);
      if cs[0].Some? && !IsBlocked(b, cs[0].value) {
        forall k | 0 <= k < |rest|
          ensures DirRank(x, y, cs[0].value) < DirRank(x, y, rest[k])
        {
          var j :| 0 <= j < |cs[1..]| && cs[1..][j] == Some(rest[k]);
          assert cs[j + 1] == Some(rest[k]);
        }
      }
    }
  }

  /**
   * On a board with more cells blocked no more candidates are kept, and
   * strictly fewer when a kept candidate became blocked.
   */
  lemma {:induction false} KeepFreeOnFullerBoard(b0: Board, b: Board, cs: seq<Option<Point>>, c: Point)
    requires b0.blocked <= b.blocked
    ensures |KeepFree(b, cs)| <= |KeepFree(b0, cs)|
    ensures Some(c) in cs && !IsBlocked(b0, c) && IsBlocked(b, c) ==> |KeepFree(b, cs)| < |KeepFree(b0, cs)|
    decreases |cs|
  {
    if cs != [] {
      KeepFreeOnFullerBoard(b0, b, cs[1..], c);
    }
  }

  /** Every listed cell is a free cell at Manhattan distance one. */
  lemma NeighborsSound(b: Board, x: int, y: int, q: Point)
    requires q in Neighbors(b, x, y)
    ensures Free(b, q) && Adjacent(x, y, q)
  {
  }

  /** Every free cell at Manhattan distance one is listed. */
  lemma NeighborsComplete(b: Board, x: int, y: int, q: Point)
    requires Adjacent(x, y, q) && Free(b, q)
    ensures q in Neighbors(b, x, y)
  {
    AdjacentIffRanked(x, y, q);
    assert Some(q) in Candidates(b, x, y);
    KeepFreeComplete(b, Candidates(b, x, y), q);
  }

  /**
   * The list follows the enumeration order top, bottom, left, right strictly,
   * so no cell is listed twice.
   */
  lemma NeighborsOrdered(b: Board, x: int, y: int)
    ensures forall i, j :: 0 <= i < j < |Neighbors(b, x, y)| ==>
              DirRank(x, y, Neighbors(b, x, y)[i]) < DirRank(x, y, Neighbors(b, x, y)[j])
    ensures forall i, j :: 0 <= i < j < |Neighbors(b, x, y)| ==> Neighbors(b, x, y)[i] != Neighbors(b, x, y)[j]
  {
    KeepFreeOrdered(b, Candidates(b, x, y), x, y);
  }

  /**
   * Blocking more cells of the same grid never lists more neighbours, and
   * blocking a listed one lists strictly fewer.
   */
  lemma NeighborsOnFullerBoard(b0: Board, b: Board, x: int, y: int, c: Point)
    requires SameGrid(b0, b) && b0.blocked <= b.blocked
    ensures forall q :: q in Neighbors(b, x, y) ==> q in Neighbors(b0, x, y)
    ensures |Neighbors(b, x, y)| <= |Neighbors(b0, x, y)|
    ensures c in Neighbors(b0, x, y) && IsBlocked(b, c) ==> |Neighbors(b, x, y)| < |Neighbors(b0, x, y)|
  {
    forall q | q in Neighbors(b, x, y)
      ensures q in Neighbors(b0, x, y)
    {
      NeighborsSound(b, x, y, q);
      NeighborsComplete(b0, x, y, q);
    }
    assert Candidates(b, x, y) == Candidates(b0, x, y);
    if c in Neighbors(b0, x, y) {
      var i :| 0 <= i < |Neighbors(b0, x, y)| && Neighbors(b0, x, y)[i] == c;
    }
    KeepFreeOnFullerBoard(b0, b, Candidates(b0, x, y), c);
  }

  /** The number of free neighbours of a cell: the moves an agent there has. */
  function Mobility(b: Board, p: Point): nat
  {
    |Neighbors(b, p.x, p.y)|
  }

  /**
   * Blocking more cells never gives a cell more free neighbours, and blocking
   * a free cell orthogonally adjacent to it gives it strictly fewer.
   */
  lemma FewerMovesOnFullerBoard(b0: Board, b: Board, p: Point, c: Point)
    requires SameGrid(b0, b) && b0.blocked <= b.blocked
    ensures Mobility(b, p) <= Mobility(b0, p)
    ensures Adjacent(p.x, p.y, c) && Free(b0, c) && IsBlocked(b, c) ==> Mobility(b, p) < Mobility(b0, p)
  {
    if Adjacent(p.x, p.y, c) && Free(b0, c) {
      NeighborsComplete(b0, p.x, p.y, c);
    }
    NeighborsOnFullerBoard(b0, b, p.x, p.y, c);
  }

  /** `b` with the cells of `ms` blocked one after the other. */
  function BlockAll(b: Board, ms: seq<Point>): (r: Board)
    ensures SameGrid(r, b)
    decreases |ms|
  {
    if |ms| == 0 then b else SetBlocked(BlockAll(b, ms[..|ms| - 1]), ms[|ms| - 1])
  }

  /** The cells `BlockAll` leaves blocked are those of `b` and those of `ms`, nothing else. */
  lemma {:induction false} BlockAllBlocks(b: Board, ms: seq<Point>)
    ensures forall p :: p in BlockAll(b, ms).blocked <==> p in b.blocked || p in ms
    decreases |ms|
  {
    if |ms| > 0 {
      var init := ms[..|ms| - 1];
      assert ms == init + [ms[|ms| - 1]];
      BlockAllBlocks(b, init);
    }
  }

  /**
   * `b` is `start` with more blocked cells, every newly blocked cell on the
   * grid: the only way a rollout changes a board.
   */
  predicate Extends(start: Board, b: Board)
  {
    && SameGrid(b, start)
    && start.blocked <= b.blocked
    && forall p :: p in b.blocked && p !in start.blocked ==> OnGrid(start, p)
  }

  /**
   * Every cell blocked beyond `start` was a free cell of `start`: the free
   * count falls by exactly the number of newly blocked cells.
   */
  lemma ExtendsFreeCount(start: Board, b: Board)
    requires Extends(start, b)
    ensures FreeCount(start) - FreeCount(b) == |b.blocked| - |start.blocked|
  {
    var added := b.blocked - start.blocked;
    forall p | p in added
      ensures p in Cells(start)
    {
      CellsAreOnGrid(start, p);
    }
    assert Cells(b) == Cells(start);
    assert Cells(b) - b.blocked == (Cells(start) - start.blocked) - added;
    assert added <= Cells(start) - start.blocked;
    assert b.blocked == start.blocked + added;
  }

  /** Hence a board can gain at most as many blocked cells as it had free cells. */
  lemma ExtendsBlocksFreeCells(start: Board, b: Board)
    requires Extends(start, b)
    ensures |b.blocked| <= |start.blocked| + FreeCount(start)
  {
    ExtendsFreeCount(start, b);
  }

  /** No board extending `start` has more than `room` blocked cells. */
  ghost predicate HasRoom(start: Board, room: nat)
  {
    forall b :: Extends(start, b) ==> |b.blocked| <= room
  }

  /** The blocked and free cells of `start` together bound every extension of it. */
  lemma FreeCellsAreRoom(start: Board)
    ensures HasRoom(start, |start.blocked| + FreeCount(start))
  {
    forall b | Extends(start, b)
      ensures |b.blocked| <= |start.blocked| + FreeCount(start)
    {
      ExtendsBlocksFreeCells(start, b);
    }
  }

  /** Every board has some bound on the blocked cells of its extensions. */
  lemma RoomExists(start: Board)
    ensures exists room: nat :: HasRoom(start, room)
  {
    FreeCellsAreRoom(start);
  }

  /** Blocking a free cell removes exactly one cell from the free count. */
  lemma BlockingFreeCellShrinks(b: Board, p: Point)
    requires Free(b, p)
    ensures FreeCount(SetBlocked(b, p)) == FreeCount(b) - 1
  {
    var after := SetBlocked(b, p);
    CellsAreOnGrid(b, p);
    assert Cells(after) == Cells(b);
    assert Cells(after) - after.blocked == (Cells(b) - b.blocked) - {p};
  }

  /** Blocking any cell never increases the free count. */
  lemma BlockingNeverGrows(b: Board, p: Point)
    ensures FreeCount(SetBlocked(b, p)) <= FreeCount(b)
  {
    if Free(b, p) {
      BlockingFreeCellShrinks(b, p);
    } else {
      var after := SetBlocked(b, p);
      CellsAreOnGrid(b, p);
      assert Cells(after) - after.blocked == Cells(b) - b.blocked;
    }
  }
}
