/** `capture_diff` of mcts_go.py: the stone balance of a position from the
    point of view of the player to move. The game state it is given comes
    from `dlgo.goboard_fast`, which is not part of this model; the board of
    dlgo/goboard.py, which offers the same `num_rows`, `num_cols` and
    `get`, stands in for it. */
module MctsGo {
  import opened Wrappers
  import opened GoTypes
  import GoBoard
  import GameStates

  /** Stones of `color` in row `r`, columns 1 to `c`. */
  function RowCount(board: GoBoard.Board, r: int, c: int, color: Player): nat
    reads board
    decreases c
  {
    if c <= 0 then 0
    else RowCount(board, r, c - 1, color) + (if board.Get(Point(r, c)) == Some(color) then 1 else 0)
  }

  /** Stones of `color` in rows 1 to `r`. */
  function GridCount(board: GoBoard.Board, r: int, color: Player): nat
    reads board
    decreases r
  {
    if r <= 0 then 0
    else GridCount(board, r - 1, color) + RowCount(board, r, board.numCols, color)
  }

  /** Stones of `color` on the grid. */
  function Count(board: GoBoard.Board, color: Player): nat
    reads board
  {
    GridCount(board, board.numRows, color)
  }

  /** Black's surplus of stones, negated when white is to move. */
  function Advantage(board: GoBoard.Board, player: Player): int
    reads board
  {
    var diff := Count(board, Black) - Count(board, White);
    if player == Black then diff else -1 * diff
  }

  /** `capture_diff`: both colours counted over every on-grid point, row
      by row. */
  method CaptureDiff(state: GameStates.GameState) returns (d: int)
    ensures d == Advantage(state.board, state.nextPlayer)
  {
    var board := state.board;
    var blackStones, whiteStones := 0, 0;
    var r := 1;
    while r <= board.numRows
      invariant 1 <= r && (board.numRows >= 1 ==> r <= board.numRows + 1) && (board.numRows < 1 ==> r == 1)
      invariant blackStones == GridCount(board, r - 1, Black) && whiteStones == GridCount(board, r - 1, White)
    {
      var c := 1;
      while c <= board.numCols
        invariant 1 <= c && (board.numCols >= 1 ==> c <= board.numCols + 1) && (board.numCols < 1 ==> c == 1)
        invariant blackStones == GridCount(board, r - 1, Black) + RowCount(board, r, c - 1, Black)
        invariant whiteStones == GridCount(board, r - 1, White) + RowCount(board, r, c - 1, White)
      {
        var p := Point(r, c);
        var color := board.Get(p);
        if color == Some(Black) {
          blackStones := blackStones + 1;
        } else if color == Some(White) {
          whiteStones := whiteStones + 1;
        }
        c := c + 1;
      }
      r := r + 1;
    }
    var diff := blackStones - whiteStones;
    if state.nextPlayer == Black {
      return diff;
    }
    d := -1 * diff;
  }

  lemma {:induction false} RowCountEmpty(board: GoBoard.Board, r: int, c: int, color: Player)
    requires forall p :: board.Get(p).None?
    ensures RowCount(board, r, c, color) == 0
    decreases c
  {
    if c > 0 {
      RowCountEmpty(board, r, c - 1, color);
    }
  }

  lemma {:induction false} GridCountEmpty(board: GoBoard.Board, r: int, color: Player)
    requires forall p :: board.Get(p).None?
    ensures GridCount(board, r, color) == 0
    decreases r
  {
    if r > 0 {
      GridCountEmpty(board, r - 1, color);
      RowCountEmpty(board, r, board.numCols, color);
    }
  }

  /** On an empty board neither player is ahead. */
  lemma EmptyBoardIsEven(board: GoBoard.Board, player: Player)
    requires forall p :: board.Get(p).None?
    ensures Advantage(board, player) == 0
  {
    GridCountEmpty(board, board.numRows, Black);
    GridCountEmpty(board, board.numRows, White);
  }

  function Width(n: int): nat {
    if n > 0 then n else 0
  }

  lemma {:induction false} RowCountBound(board: GoBoard.Board, r: int, c: int)
    ensures RowCount(board, r, c, Black) + RowCount(board, r, c, White) <= Width(c)
    decreases c
  {
    if c > 0 {
      RowCountBound(board, r, c - 1);
    }
  }

  lemma {:induction false} GridCountBound(board: GoBoard.Board, r: int)
    ensures GridCount(board, r, Black) + GridCount(board, r, White) <= Width(r) * Width(board.numCols)
    decreases r
  {
    if r > 0 {
      GridCountBound(board, r - 1);
      RowCountBound(board, r, board.numCols);
      assert Width(r) * Width(board.numCols) == Width(r - 1) * Width(board.numCols) + Width(board.numCols);
    }
  }

  /** The balance never exceeds the number of points of the grid. */
  lemma AdvantageBound(board: GoBoard.Board, player: Player)
    ensures -(Width(board.numRows) * Width(board.numCols) as int) <= Advantage(board, player)
    ensures Advantage(board, player) <= Width(board.numRows) * Width(board.numCols)
  {
    GridCountBound(board, board.numRows);
  }

  /** The two players see opposite balances of the same position. */
  lemma AdvantageOpposite(board: GoBoard.Board)
    ensures Advantage(board, White) == -Advantage(board, Black)
  {
  }
}
