/** `is_point_an_eye` of dlgo/agent/helpers.py, on the board of
    dlgo/goboard.py: whether an empty point is an eye of `color`. As
    written, the corner list is built with one-argument `Point` calls,
    which raise `TypeError`, so every point that passes the neighbour test
    raises; `IsPointAnEyeCorrected` is the evident intent, counting the
    four diagonal points. */
module AgentHelpers {
  import opened Wrappers
  import opened GoTypes
  import GoBoard

  /** Every on-grid orthogonal neighbour of `point` holds a stone of
      `color`; off-grid neighbours do not count against it. */
  predicate Surrounded(board: GoBoard.Board, point: Point, color: Player)
    reads board
  {
    forall n :: n in point.Neighbors() && board.IsOnGrid(n) ==> board.Get(n) == Some(color)
  }

  /** The neighbour loop of `is_point_an_eye` (lines 21-25): it gives up at
      the first on-grid neighbour whose colour is not `color`, an empty one
      included. */
  method NeighborsHeld(board: GoBoard.Board, point: Point, color: Player) returns (held: bool)
    ensures held == Surrounded(board, point, color)
  {
    var ns := point.Neighbors();
    for j := 0 to 4
      invariant forall k :: 0 <= k < j && board.IsOnGrid(ns[k]) ==> board.Get(ns[k]) == Some(color)
    {
      if board.IsOnGrid(ns[j]) {
        var neighborColor := board.Get(ns[j]);
        if neighborColor != Some(color) {
          return false;
        }
      }
    }
    held := true;
  }

  /** `is_point_an_eye` as written: false on an occupied point or next to
      an on-grid point not of `color`; otherwise building the corner list
      raises. */
  method IsPointAnEye(board: GoBoard.Board, point: Point, color: Player) returns (r: Result<bool>)
    ensures board.Get(point).Some? ==> r == Ok(false)
    ensures board.Get(point).None? && !Surrounded(board, point, color) ==> r == Ok(false)
    ensures board.Get(point).None? && Surrounded(board, point, color) ==> r == Err(TypeError)
  {
    if board.Get(point).Some? {
      return Ok(false);
    }
    var held := NeighborsHeld(board, point, color);
    if !held {
      return Ok(false);
    }
    // `Point` takes a row and a column; the corner list passes one value.
    r := Err(TypeError);
  }

  /** Every point of a board with one point and no stone passes the
      neighbour test, so `IsPointAnEye` raises there. */
  lemma LonePointReachesCorners(board: GoBoard.Board, color: Player)
    requires board.numRows == 1 && board.numCols == 1 && board.grid == map[]
    ensures board.Get(Point(1, 1)).None? && Surrounded(board, Point(1, 1), color)
  {
    var ns := Point(1, 1).Neighbors();
    assert forall n :: n in ns ==> !board.IsOnGrid(n);
  }

  /** The four diagonal points, as the corner list evidently means them. */
  function Corners(p: Point): (cs: seq<Point>)
    ensures |cs| == 4
    ensures forall i :: 0 <= i < 4 ==> Abs(cs[i].row - p.row) == 1 && Abs(cs[i].col - p.col) == 1
    ensures forall i, j :: 0 <= i < j < 4 ==> cs[i] != cs[j]
  {
    [Point(p.row - 1, p.col - 1), Point(p.row - 1, p.col + 1), Point(p.row + 1, p.col - 1), Point(p.row + 1, p.col + 1)]
  }

  /** How many points of `cs` are on the grid and hold `color`. */
  function Friendly(board: GoBoard.Board, cs: seq<Point>, color: Player): nat
    reads board
  {
    if cs == [] then 0
    else
      Friendly(board, cs[..|cs| - 1], color) +
      (if board.IsOnGrid(cs[|cs| - 1]) && board.Get(cs[|cs| - 1]) == Some(color) then 1 else 0)
  }

  /** How many points of `cs` are off the grid. */
  function OffBoard(board: GoBoard.Board, cs: seq<Point>): nat {
    if cs == [] then 0
    else OffBoard(board, cs[..|cs| - 1]) + (if board.IsOnGrid(cs[|cs| - 1]) then 0 else 1)
  }

  /** The decision of lines 47-50: on the edge every on-grid corner must be
      friendly, in the middle three of four. */
  predicate CornersHeld(board: GoBoard.Board, point: Point, color: Player)
    reads board
  {
    var f := Friendly(board, Corners(point), color);
    var o := OffBoard(board, Corners(point));
    if o > 0 then o + f == 4 else f >= 3
  }

  /** Friendly and off-grid points are disjoint kinds: together they are at
      most all the points, and exactly all when every on-grid point is
      friendly. */
  lemma {:induction false} CornerCount(board: GoBoard.Board, cs: seq<Point>, color: Player)
    ensures Friendly(board, cs, color) + OffBoard(board, cs) <= |cs|
    ensures Friendly(board, cs, color) + OffBoard(board, cs) == |cs| <==>
      forall i :: 0 <= i < |cs| && board.IsOnGrid(cs[i]) ==> board.Get(cs[i]) == Some(color)
  {
    if cs != [] {
      var pre := cs[..|cs| - 1];
      CornerCount(board, pre, color);
      assert forall i :: 0 <= i < |pre| ==> pre[i] == cs[i];
    }
  }

  /** At the edge of the board, an eye needs every on-grid corner. */
  lemma EdgeEyeNeedsEveryCorner(board: GoBoard.Board, point: Point, color: Player)
    requires OffBoard(board, Corners(point)) > 0
    ensures CornersHeld(board, point, color) <==>
      forall c :: c in Corners(point) && board.IsOnGrid(c) ==> board.Get(c) == Some(color)
  {
    CornerCount(board, Corners(point), color);
  }

  /** `is_point_an_eye` with the corners built as the diagonal points: an
      eye is an empty point whose on-grid neighbours all hold `color` and
      whose corners are held as lines 47-50 decide. */
  method IsPointAnEyeCorrected(board: GoBoard.Board, point: Point, color: Player) returns (r: bool)
    ensures r <==> board.Get(point).None? && Surrounded(board, point, color) && CornersHeld(board, point, color)
  {
    if board.Get(point).Some? {
      return false;
    }
    var held := NeighborsHeld(board, point, color);
    if !held {
      return false;
    }
    var friendlyCorners := 0;
    var offBoardCorners := 0;
    var corners := Corners(point);
    for i := 0 to 4
      invariant friendlyCorners == Friendly(board, corners[..i], color)
      invariant offBoardCorners == OffBoard(board, corners[..i])
    {
      assert corners[..i + 1][..i] == corners[..i];
      if board.IsOnGrid(corners[i]) {
        var cornerColor := board.Get(corners[i]);
        if cornerColor == Some(color) {
          friendlyCorners := friendlyCorners + 1;
        }
      } else {
        offBoardCorners := offBoardCorners + 1;
      }
    }
    assert corners[..4] == corners;
    if offBoardCorners > 0 {
      return offBoardCorners + friendlyCorners == 4;
    }
    r := friendlyCorners >= 3;
  }
}
