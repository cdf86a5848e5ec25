/** `GameState` of dlgo/goboard.py: a persistent chain of states, each
    holding the board after its move, the player to move, the move that led
    to it and the set of (player to move, board hash) situations of its
    ancestors, from which ko and termination are decided. */
module GameStates {
  import opened Wrappers
  import opened GoTypes
  import opened Zobrist
  import opened GoBoard

  /** The argument of `new_game`: an `int` side or a `(rows, cols)` pair. */
  datatype BoardSize = Square(side: int) | Dims(rows: int, cols: int)

  /** The hash `place_stone(player, point)` leaves on a board with this
      grid and hash. */
  ghost function NextHash(g: Grid, h: Bits, rows: int, cols: int, player: Player, point: Point): Bits {
    Xor(Xor(h, HASH_CODE(point, player)), RemovedXor(ScanAt(g, rows, cols, player, point).opp, point))
  }

  /** On a coherent grid, the string at `point` after
      `place_stone(player, point)` has no liberty: the bound string has none
      and no string is removed (a removal would give it one). */
  ghost predicate SelfCapturing(g: Grid, rows: int, cols: int, player: Player, point: Point) {
    Merged(g, rows, cols, player, point).liberties == {} &&
    NoneExhausted(ScanAt(g, rows, cols, player, point).opp, point)
  }

  /** The moves of a game, in order, as a sequence: whether they end it. */
  predicate Ended(ms: seq<Move>) {
    |ms| >= 1 &&
    (ms[|ms| - 1].isResign || (|ms| >= 2 && ms[|ms| - 1].isPass && ms[|ms| - 2].isPass))
  }

  datatype GameState = GameState(
    board: Board,
    nextPlayer: Player,
    previousState: Option<GameState>,
    previousStates: set<(Player, Bits)>,
    lastMove: Option<Move>)
  {
    /** The states before this one, nearest first, as a set. */
    ghost function Ancestors(): set<GameState>
      decreases this
    {
      match previousState
      case None => {}
      case Some(p) => {p} + p.Ancestors()
    }

    /** The boards of this state and of its ancestors. */
    ghost function Boards(): set<Board>
      decreases this
    {
      {board} + match previousState
        case None => {}
        case Some(p) => p.Boards()
    }

    /** The moves that led from the start of the game to this state. */
    ghost function Moves(): seq<Move>
      decreases this
    {
      match previousState
      case None => []
      case Some(p) => p.Moves() + (if lastMove.Some? then [lastMove.value] else [])
    }

    /** The shape every state built by `new_game` and `apply_move` has: a
        state has a last move exactly when it has a previous state, and the
        player to move alternates. */
    ghost predicate Linked()
      decreases this
    {
      match previousState
      case None => lastMove.None?
      case Some(p) => lastMove.Some? && nextPlayer == p.nextPlayer.Other() && p.Linked()
    }

    /** `previous_states` was built as `__init__` builds it, from boards
        whose hashes have not changed since. */
    ghost predicate Recorded()
      reads Boards()
      decreases this
    {
      match previousState
      case None => previousStates == {}
      case Some(p) =>
        assert p.board in p.Boards();
        previousStates == p.previousStates + {(p.nextPlayer, p.board.hash)} && p.Recorded()
    }

    /** The situations of the ancestors, each with its current hash. */
    ghost function History(): set<(Player, Bits)>
      reads set a | a in Ancestors() :: a.board
    {
      set a | a in Ancestors() :: (a.nextPlayer, a.board.hash)
    }

    /** `is_over` reads `previous_state.last_move` only after a move that
        is not a resignation; with no previous state that raises. */
    predicate CanAskIsOver() {
      lastMove.None? || lastMove.value.isResign || previousState.Some?
    }

    /** `is_over`. */
    predicate IsOver()
      requires CanAskIsOver()
    {
      if lastMove.None? then false
      else if lastMove.value.isResign then true
      else match previousState.value.lastMove
        case None => false
        case Some(second) => lastMove.value.isPass && second.isPass
    }

    /** `previous_states` holds exactly the situations of the ancestors:
        the set the ko rule consults is the game's history. */
    lemma {:induction false} PreviousStatesAreHistory()
      requires Recorded()
      ensures previousStates == History()
      decreases this
    {
      match previousState
      case None =>
      case Some(p) =>
        assert p.board in p.Boards();
        p.PreviousStatesAreHistory();
        assert Ancestors() == {p} + p.Ancestors();
        assert History() == p.History() + {(p.nextPlayer, p.board.hash)};
    }

    /** `is_over` can be asked of every linked state, and it holds exactly
        when the game's last move is a resignation or its last two moves
        are passes. */
    lemma {:induction false} IsOverMeansEnded()
      requires Linked()
      ensures CanAskIsOver()
      ensures IsOver() <==> Ended(Moves())
    {
      match previousState
      case None =>
      case Some(p) =>
        var m := lastMove.value;
        assert Moves() == p.Moves() + [m];
        match p.previousState
        case None =>
          assert p.Moves() == [];
        case Some(pp) =>
          assert p.Moves() == pp.Moves() + [p.lastMove.value];
    }

    /** `apply_move`. A play places a stone for the player to move on a
        deep copy of the board, whose assertions fail on an off-grid or
        occupied point; a pass or a resignation shares the board. The new
        state records this state's situation. */
    method ApplyMove(move: Move) returns (r: Result<GameState>)
      requires board.Valid()
      ensures move.IsPlay() && !(board.IsOnGrid(move.point.value) && board.Get(move.point.value).None?) ==>
        r == Err(AssertionError)
      ensures !move.IsPlay() ==>
        r == Ok(GameState(board, nextPlayer.Other(), Some(this), previousStates + {(nextPlayer, board.hash)}, Some(move)))
      ensures move.IsPlay() && board.IsOnGrid(move.point.value) && board.Get(move.point.value).None? ==>
        && r.Ok?
        && r.value.nextPlayer == nextPlayer.Other() && r.value.previousState == Some(this)
        && r.value.lastMove == Some(move)
        && r.value.previousStates == previousStates + {(nextPlayer, board.hash)}
        && fresh(r.value.board) && r.value.board.Valid()
        && r.value.board.numRows == board.numRows && r.value.board.numCols == board.numCols
        && r.value.board.hash == NextHash(board.grid, board.hash, board.numRows, board.numCols, nextPlayer, move.point.value)
        && (Coherent(board.grid) ==> r.value.board.Get(move.point.value) == Some(nextPlayer))
        && (NoDoubleTouch(board.grid, board.numRows, board.numCols, nextPlayer, move.point.value) ==>
              r.value.board.grid == Rebind(board.grid, Merged(board.grid, board.numRows, board.numCols, nextPlayer, move.point.value)))
        && (board.WellFormed() && NoDoubleTouch(board.grid, board.numRows, board.numCols, nextPlayer, move.point.value) ==>
              r.value.board.WellFormed())
        && (Coherent(board.grid) ==>
              forall q :: q != move.point.value && board.Get(q).None? ==> r.value.board.Get(q).None?)
        && (Coherent(board.grid) ==>
              forall q :: board.Get(q) == Some(nextPlayer.Other()) ==> r.value.board.Get(q) == Some(nextPlayer.Other()))
      ensures r.Ok? && Linked() ==> r.value.Linked()
      ensures r.Ok? && Recorded() ==> r.value.Recorded()
    {
      var nextBoard := board;
      if move.IsPlay() {
        var point := move.point.value;
        nextBoard := new Board.Copy(board);
        var o := nextBoard.PlaceStone(nextPlayer, point);
        if o.Fail? {
          return Err(o.error);
        }
      }
      r := Ok(Init(nextBoard, nextPlayer.Other(), Some(this), Some(move)));
      if Recorded() {
        assert board in Boards();
      }
    }

    /** `is_move_self_capture`: place the stone on a deep copy and look at
        the liberties of the string at the point. On a coherent board that
        string exists; otherwise reading its liberties may raise. */
    method IsMoveSelfCapture(player: Player, move: Move) returns (r: Result<bool>)
      requires board.Valid()
      ensures !move.IsPlay() ==> r == Ok(false)
      ensures move.IsPlay() && !(board.IsOnGrid(move.point.value) && board.Get(move.point.value).None?) ==>
        r == Err(AssertionError)
      ensures move.IsPlay() && board.IsOnGrid(move.point.value) && board.Get(move.point.value).None? &&
              Coherent(board.grid) ==>
        r == Ok(SelfCapturing(board.grid, board.numRows, board.numCols, player, move.point.value))
      ensures r.Err? ==> r.error == AssertionError || r.error == AttributeError
    {
      if !move.IsPlay() {
        return Ok(false);
      }
      var point := move.point.value;
      var nextBoard := new Board.Copy(board);
      if Coherent(nextBoard.grid) && At(nextBoard.grid, point).None? {
        CoherentUnclaimed(nextBoard.grid, point);
      }
      var o := nextBoard.PlaceStone(player, point);
      if o.Fail? {
        return Err(o.error);
      }
      var newString := nextBoard.GetGoString(point);
      if newString.None? {
        return Err(AttributeError);
      }
      r := Ok(newString.value.NumLiberties() == 0);
    }

    /** `does_move_violate_ko`: the situation after the speculative play,
        with the opponent to move, is one already recorded. */
    method DoesMoveViolateKo(player: Player, move: Move) returns (r: Result<bool>)
      requires board.Valid()
      ensures !move.IsPlay() ==> r == Ok(false)
      ensures move.IsPlay() && !(board.IsOnGrid(move.point.value) && board.Get(move.point.value).None?) ==>
        r == Err(AssertionError)
      ensures move.IsPlay() && board.IsOnGrid(move.point.value) && board.Get(move.point.value).None? ==>
        r == Ok((player.Other(), NextHash(board.grid, board.hash, board.numRows, board.numCols, player, move.point.value))
                in previousStates)
    {
      if !move.IsPlay() {
        return Ok(false);
      }
      var point := move.point.value;
      var nextBoard := new Board.Copy(board);
      var o := nextBoard.PlaceStone(player, point);
      if o.Fail? {
        return Err(o.error);
      }
      r := Ok((player.Other(), nextBoard.ZobristHash()) in previousStates);
    }

    /** `is_valid_move`: false once the game is over, true for a pass or a
        resignation, and otherwise a play on an empty point that is neither
        a self-capture nor a repetition of a recorded situation. */
    method IsValidMove(move: Move) returns (r: Result<bool>)
      requires board.Valid() && CanAskIsOver()
      ensures IsOver() ==> r == Ok(false)
      ensures !IsOver() && (move.isPass || move.isResign) ==> r == Ok(true)
      ensures !IsOver() && !move.isPass && !move.isResign ==>
        var p := move.point.value;
        && (board.Get(p).Some? ==> r == Ok(false))
        && (board.Get(p).None? && !board.IsOnGrid(p) ==> r == Err(AssertionError))
        && (board.Get(p).None? && board.IsOnGrid(p) && Coherent(board.grid) ==>
              r == Ok(!SelfCapturing(board.grid, board.numRows, board.numCols, nextPlayer, p) &&
                      (nextPlayer.Other(), NextHash(board.grid, board.hash, board.numRows, board.numCols, nextPlayer, p))
                      !in previousStates))
      ensures r == Ok(true) && !move.isPass && !move.isResign && Coherent(board.grid) && Recorded() ==>
        (nextPlayer.Other(), NextHash(board.grid, board.hash, board.numRows, board.numCols, nextPlayer, move.point.value))
        !in History()
    {
      if IsOver() {
        return Ok(false);
      }
      if move.isPass || move.isResign {
        return Ok(true);
      }
      MoveKinds(move);
      if board.Get(move.point.value).Some? {
        return Ok(false);
      }
      var selfCapture := IsMoveSelfCapture(nextPlayer, move);
      if selfCapture.Err? {
        return Err(selfCapture.error);
      }
      if selfCapture.value {
        return Ok(false);
      }
      var ko := DoesMoveViolateKo(nextPlayer, move);
      if ko.Err? {
        return Err(ko.error);
      }
      r := Ok(!ko.value);
      if Recorded() {
        PreviousStatesAreHistory();
      }
    }
  }

  /** `GameState.__init__`: `previous_states` is the previous state's set
      with the previous situation added, or empty for the first state. */
  function Init(board: Board, nextPlayer: Player, previous: Option<GameState>, move: Option<Move>): (r: GameState)
    reads if previous.Some? then {previous.value.board} else {}
    ensures r.board == board && r.nextPlayer == nextPlayer && r.previousState == previous && r.lastMove == move
    ensures previous.None? ==> r.previousStates == {}
    ensures previous.Some? ==>
      previous.value.previousStates <= r.previousStates &&
      r.previousStates - previous.value.previousStates <= {(previous.value.nextPlayer, previous.value.board.hash)} &&
      (previous.value.nextPlayer, previous.value.board.hash) in r.previousStates
  {
    match previous
    case None => GameState(board, nextPlayer, None, {}, move)
    case Some(p) => GameState(board, nextPlayer, previous, p.previousStates + {(p.nextPlayer, p.board.hash)}, move)
  }

  /** `new_game`: an empty board of the given size, black to move, no
      history. */
  method NewGame(size: BoardSize) returns (st: GameState)
    ensures fresh(st.board)
    ensures size.Square? ==> st.board.numRows == size.side && st.board.numCols == size.side
    ensures size.Dims? ==> st.board.numRows == size.rows && st.board.numCols == size.cols
    ensures st.board.grid == map[] && st.board.hash == EMPTY_BOARD && st.board.WellFormed()
    ensures st.nextPlayer == Black && st.previousState == None && st.lastMove == None && st.previousStates == {}
    ensures st.Linked() && st.Recorded() && st.CanAskIsOver() && !st.IsOver()
  {
    var rows, cols := 0, 0;
    match size {
      case Square(n) => rows, cols := n, n;
      case Dims(r, c) => rows, cols := r, c;
    }
    var board := new Board(rows, cols);
    st := Init(board, Black, None, None);
  }
}
