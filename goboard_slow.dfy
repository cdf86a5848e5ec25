/** The mutable variant of the rules engine (dlgo/goboard_slow.py). Strings
    are objects whose liberty sets change in place and are shared between
    grid entries; `stones` keeps whatever the constructor was given, which
    `place_stone` makes a one-element list. Python's `|` is defined on two
    sets and raises `TypeError` on a list, so every merge fails: a stone
    placed next to one of its own colour raises, and the last two loops of
    `place_stone` only ever run over an empty list. Ko never holds, because
    situations compare boards by identity and the board looked for is a fresh
    copy. */
module SlowBoard {
  import opened Wrappers
  import opened GoTypes
  import GoBoard
  import GameStates

  /** The `stones` attribute: a list or a set of points. */
  datatype Stones = ListOf(items: seq<Point>) | SetOf(elems: set<Point>) {
    function Members(): set<Point> {
      match this
      case ListOf(xs) => set p | p in xs
      case SetOf(s) => s
    }
  }

  /** Python's `|` on two `stones` values: only two sets combine. */
  function Union(a: Stones, b: Stones): (r: Result<Stones>)
    ensures r.Ok? <==> a.SetOf? && b.SetOf?
    ensures r.Ok? ==> r.value.SetOf? && r.value.Members() == a.Members() + b.Members()
    ensures r.Err? ==> r.error == TypeError
  {
    if a.SetOf? && b.SetOf? then Ok(SetOf(a.elems + b.elems)) else Err(TypeError)
  }

  /** `GoString` with a liberty set updated in place. */
  class GoString {
    const color: Player
    const stones: Stones
    var liberties: set<Point>

    constructor (color: Player, stones: Stones, liberties: set<Point>)
      ensures this.color == color && this.stones == stones && this.liberties == liberties
    {
      this.color := color;
      this.stones := stones;
      this.liberties := liberties;
    }

    /** `remove_liberty`: `set.remove` raises `KeyError` on an absent point. */
    method RemoveLiberty(point: Point) returns (o: Outcome)
      modifies this
      ensures point in old(liberties) ==> o == Pass && liberties == old(liberties) - {point}
      ensures point !in old(liberties) ==> o == Fail(KeyError) && liberties == old(liberties)
    {
      if point !in liberties {
        return Fail(KeyError);
      }
      liberties := liberties - {point};
      o := Pass;
    }

    /** `add_liberty`. */
    method AddLiberty(point: Point)
      modifies this
      ensures liberties == old(liberties) + {point}
    {
      liberties := liberties + {point};
    }

    /** `merge_with`: the colours must agree and both stone collections
        must be sets; the merged string is a new object whose liberties are
        both strings' liberties less the combined stones. */
    method MergeWith(other: GoString) returns (r: Result<GoString>)
      ensures other.color != color ==> r == Err(AssertionError)
      ensures other.color == color ==> (r.Ok? <==> stones.SetOf? && other.stones.SetOf?)
      ensures other.color == color && r.Err? ==> r.error == TypeError
      ensures r.Ok? ==>
        && fresh(r.value) && r.value.color == color
        && r.value.stones.Members() == stones.Members() + other.stones.Members()
        && r.value.liberties == (liberties + other.liberties) - r.value.stones.Members()
        && r.value.liberties !! r.value.stones.Members()
    {
      if other.color != color {
        return Err(AssertionError);
      }
      var combined := Union(stones, other.stones);
      if combined.Err? {
        return Err(combined.error);
      }
      var s := new GoString(color, combined.value, (liberties + other.liberties) - combined.value.Members());
      r := Ok(s);
    }

    /** `num_liberties`. */
    function NumLiberties(): nat
      reads this
    {
      |liberties|
    }

    /** `__eq__`: structural; a list never equals a set. */
    predicate Equals(other: GoString)
      reads this, other
    {
      color == other.color && stones == other.stones && liberties == other.liberties
    }
  }

  /** Python's `s in xs` on a list, which compares with `__eq__`. */
  predicate Listed(xs: seq<GoString>, s: GoString)
    reads s, set x | x in xs
  {
    exists x :: x in xs && x.Equals(s)
  }

  /** `_grid`: a point maps to a string object, or to `None` after a
      removal. */
  type Grid = map<Point, Option<GoString>>

  /** `self._grid.get(p)`. */
  function At(g: Grid, p: Point): Option<GoString> {
    if p in g then g[p] else None
  }

  /** The colour stored at a point (colours never change, so no object is
      read). */
  function ColorAt(g: Grid, p: Point): Option<Player> {
    match At(g, p)
    case None => None
    case Some(s) => Some(s.color)
  }

  /** Some on-grid neighbour of `point` holds a string of `player`'s colour. */
  predicate OwnNeighbor(g: Grid, rows: int, cols: int, player: Player, point: Point) {
    exists n :: n in point.Neighbors() && GoBoard.OnGrid(rows, cols, n) && ColorAt(g, n) == Some(player)
  }

  /** The empty on-grid neighbours of `point`. */
  function EmptyNeighbors(g: Grid, rows: int, cols: int, point: Point): set<Point> {
    set n | n in point.Neighbors() && GoBoard.OnGrid(rows, cols, n) && At(g, n).None?
  }

  /** The string objects stored in a grid. */
  function Values(g: Grid): set<GoString> {
    set q | q in g && g[q].Some? :: g[q].value
  }

  /** The grid after `self._grid[p] = None` for every `p` of `pts`. */
  function Cleared(g: Grid, pts: set<Point>): Grid {
    map q | q in g.Keys + pts :: if q in pts then None else g[q]
  }

  /** The grid after `self._grid[p] = s` for every `p` of `pts`. */
  function BoundTo(g: Grid, pts: set<Point>, s: GoString): Grid {
    map q | q in g.Keys + pts :: if q in pts then Some(s) else g[q]
  }

  lemma ClearedValues(g: Grid, pts: set<Point>)
    ensures Values(Cleared(g, pts)) <= Values(g)
  {
    forall t | t in Values(Cleared(g, pts)) ensures t in Values(g) {
      var q :| q in Cleared(g, pts) && Cleared(g, pts)[q].Some? && t == Cleared(g, pts)[q].value;
    }
  }

  /** The merge loop of `place_stone` (lines 193-194): it stops at the first
      merge that raises. */
  method MergeStrings(base: GoString, same: seq<GoString>) returns (r: Result<GoString>)
    ensures same == [] ==> r == Ok(base)
    ensures same != [] && same[0].color == base.color && base.stones.ListOf? ==> r == Err(TypeError)
  {
    var cur := base;
    var k := 0;
    while k < |same|
      invariant 0 <= k <= |same|
      invariant k == 0 ==> cur == base
      invariant k > 0 ==> base.stones.SetOf? || same[0].color != base.color
    {
      var m := cur.MergeWith(same[k]);
      if m.Err? {
        return Err(m.error);
      }
      cur := m.value;
      k := k + 1;
    }
    r := Ok(cur);
  }

  class Board {
    const numRows: int
    const numCols: int
    var grid: Grid

    /** `Board(num_rows, num_cols)`. */
    constructor (numRows: int, numCols: int)
      ensures this.numRows == numRows && this.numCols == numCols && grid == map[]
    {
      this.numRows := numRows;
      this.numCols := numCols;
      grid := map[];
    }

    /** `copy.deepcopy(board)`: every stored string is copied once, and
        points that shared a string share its copy. */
    constructor Copy(other: Board)
      ensures numRows == other.numRows && numCols == other.numCols
      ensures grid.Keys == other.grid.Keys
      ensures forall q :: ColorAt(grid, q) == ColorAt(other.grid, q)
      ensures forall q :: At(grid, q).None? <==> At(other.grid, q).None?
      ensures forall q :: q in grid && grid[q].Some? ==>
        other.grid[q].Some? && fresh(grid[q].value) && grid[q].value.Equals(other.grid[q].value)
      ensures forall q, q' ::
        (q in grid && q' in grid && grid[q].Some? && grid[q'].Some? &&
         other.grid[q].Some? && other.grid[q'].Some?) ==>
        (grid[q].value == grid[q'].value <==> other.grid[q].value == other.grid[q'].value)
    {
      numRows := other.numRows;
      numCols := other.numCols;
      var g: Grid := map[];
      var memo: map<GoString, GoString> := map[];
      var rest := other.grid.Keys;
      while rest != {}
        invariant rest <= other.grid.Keys && g.Keys == other.grid.Keys - rest
        invariant forall q :: q in g ==> (g[q].Some? <==> other.grid[q].Some?)
        invariant forall q :: q in g && g[q].Some? ==> other.grid[q].value in memo && g[q].value == memo[other.grid[q].value]
        invariant forall t :: t in memo ==> fresh(memo[t]) && memo[t].Equals(t)
        invariant forall t, t' :: t in memo && t' in memo && memo[t] == memo[t'] ==> t == t'
        decreases rest
      {
        var q :| q in rest;
        match other.grid[q] {
          case None =>
            g := g[q := None];
          case Some(t) =>
            if t !in memo {
              var c := new GoString(t.color, t.stones, t.liberties);
              memo := memo[t := c];
            }
            g := g[q := Some(memo[t])];
        }
        rest := rest - {q};
      }
      grid := g;
    }

    /** The string objects on the board. */
    function Strings(): set<GoString>
      reads this
    {
      Values(grid)
    }

    /** `is_on_grid`. */
    predicate IsOnGrid(p: Point) {
      GoBoard.OnGrid(numRows, numCols, p)
    }

    /** `get`: the colour of the string stored at `p`. */
    function Get(p: Point): (r: Option<Player>)
      reads this
      ensures r.None? <==> (p !in grid || grid[p].None?)
      ensures r.Some? ==> r.value == grid[p].value.color
    {
      ColorAt(grid, p)
    }

    /** `get_go_string`. */
    function GetGoString(p: Point): (r: Option<GoString>)
      reads this
      ensures r.None? <==> Get(p).None?
      ensures r.Some? ==> r.value in Strings() && Get(p) == Some(r.value.color)
    {
      At(grid, p)
    }

    /** `place_stone` as written. It fails its assertions off the grid or on
        an occupied point, and raises `TypeError` next to a stone of its
        own colour; otherwise it stores a new one-stone string whose
        liberties are the empty on-grid neighbours, and changes no other
        grid entry and no existing string. */
    method PlaceStone(player: Player, point: Point) returns (o: Outcome)
      modifies this, Strings()
      ensures !(IsOnGrid(point) && At(old(grid), point).None?) ==> o == Fail(AssertionError) && grid == old(grid)
      ensures IsOnGrid(point) && At(old(grid), point).None? && OwnNeighbor(old(grid), numRows, numCols, player, point) ==>
        o == Fail(TypeError) && grid == old(grid)
      ensures IsOnGrid(point) && At(old(grid), point).None? && !OwnNeighbor(old(grid), numRows, numCols, player, point) ==>
        && o == Pass
        && point in grid && grid[point].Some? && grid == old(grid)[point := grid[point]]
        && fresh(grid[point].value) && grid[point].value.color == player
        && grid[point].value.stones == ListOf([point])
        && grid[point].value.liberties == EmptyNeighbors(old(grid), numRows, numCols, point)
      ensures forall t :: t in old(Strings()) ==> t.liberties == old(t.liberties)
    {
      if !(IsOnGrid(point) && At(grid, point).None?) {
        return Fail(AssertionError);
      }
      var same, opp, libs := CollectNeighbors(player, point);
      var newString := new GoString(player, ListOf([point]), GoBoard.Elems(libs));
      var merged := MergeStrings(newString, same);
      if merged.Err? {
        return Fail(merged.error);
      }
      newString := merged.value;
      BindStones(newString);
      o := ReduceTouched(opp, point);
    }

    /** The neighbour scan of `place_stone` (lines 175-188), with the
        `else` bound to the inner `if`. */
    method CollectNeighbors(player: Player, point: Point) returns (same: seq<GoString>, opp: seq<GoString>, libs: seq<Point>)
      ensures GoBoard.Elems(libs) == EmptyNeighbors(grid, numRows, numCols, point)
      ensures same == [] <==> !OwnNeighbor(grid, numRows, numCols, player, point)
      ensures opp != [] ==> same != []
      ensures forall x :: x in same ==> x.color == player && x in Strings()
      ensures forall x :: x in opp ==> x in Strings()
    {
      var ns := point.Neighbors();
      same, opp, libs := [], [], [];
      var j := 0;
      while j < 4
        invariant 0 <= j <= 4
        invariant GoBoard.Elems(libs) == set k | 0 <= k < j && IsOnGrid(ns[k]) && At(grid, ns[k]).None? :: ns[k]
        invariant same == [] <==> forall k :: 0 <= k < j && IsOnGrid(ns[k]) ==> ColorAt(grid, ns[k]) != Some(player)
        invariant opp != [] ==> same != []
        invariant forall x :: x in same ==> x.color == player && x in Strings()
        invariant forall x :: x in opp ==> x in Strings()
      {
        var neighbor := ns[j];
        if IsOnGrid(neighbor) {
          var neighborString := At(grid, neighbor);
          if neighborString.None? {
            libs := libs + [neighbor];
          } else if neighborString.value.color == player {
            if !Listed(same, neighborString.value) {
              same := same + [neighborString.value];
            } else if !Listed(opp, neighborString.value) {
              opp := opp + [neighborString.value];
            }
          }
        }
        assert (set k | 0 <= k < j + 1 && IsOnGrid(ns[k]) && At(grid, ns[k]).None? :: ns[k]) ==
               (set k | 0 <= k < j && IsOnGrid(ns[k]) && At(grid, ns[k]).None? :: ns[k]) +
               (if IsOnGrid(ns[j]) && At(grid, ns[j]).None? then {ns[j]} else {});
        j := j + 1;
      }
    }

    /** The binding loop of `place_stone` (lines 196-197). */
    method BindStones(s: GoString)
      modifies this
      ensures grid == BoundTo(old(grid), s.stones.Members(), s)
    {
      var rest := s.stones.Members();
      while rest != {}
        invariant rest <= s.stones.Members()
        invariant grid == BoundTo(old(grid), s.stones.Members() - rest, s)
        decreases rest
      {
        var q :| q in rest;
        assert BoundTo(old(grid), s.stones.Members() - rest, s)[q := Some(s)] ==
               BoundTo(old(grid), s.stones.Members() - (rest - {q}), s);
        grid := grid[q := Some(s)];
        rest := rest - {q};
      }
    }

    /** The last two loops of `place_stone` (lines 200-205): every listed
        string loses `point` as a liberty, then those left with none are
        removed. */
    method ReduceTouched(opp: seq<GoString>, point: Point) returns (o: Outcome)
      requires forall x :: x in opp ==> x in Strings()
      modifies this, Strings()
      ensures o == Pass || o == Fail(KeyError)
      ensures opp == [] ==> o == Pass && grid == old(grid)
      ensures opp == [] ==> forall t :: t in old(Strings()) ==> t.liberties == old(t.liberties)
    {
      var k := 0;
      while k < |opp|
        invariant 0 <= k <= |opp|
        invariant grid == old(grid)
        invariant opp == [] ==> forall t :: t in old(Strings()) ==> t.liberties == old(t.liberties)
      {
        var r := opp[k].RemoveLiberty(point);
        if r.Fail? {
          return r;
        }
        k := k + 1;
      }
      k := 0;
      while k < |opp|
        invariant 0 <= k <= |opp|
        invariant Strings() <= old(Strings())
        invariant opp == [] ==> grid == old(grid)
        invariant opp == [] ==> forall t :: t in old(Strings()) ==> t.liberties == old(t.liberties)
      {
        if opp[k].NumLiberties() == 0 {
          RemoveString(opp[k]);
        }
        k := k + 1;
      }
      o := Pass;
    }

    /** `_remove_string`: each stone of `s`, in an arbitrary order, becomes
        a liberty of every other string object stored next to it, and is
        then cleared. The test is by identity (`is not`). */
    method RemoveString(s: GoString)
      modifies this, Strings()
      ensures grid == Cleared(old(grid), s.stones.Members())
      ensures Strings() <= old(Strings())
      ensures s.liberties == old(s.liberties)
      ensures forall t :: t in old(Strings()) && t != s ==>
        old(t.liberties) <= t.liberties <= old(t.liberties) + s.stones.Members()
      ensures forall t, p, n ::
        (t in old(Strings()) && t != s && p in s.stones.Members() && n in p.Neighbors() &&
         n !in s.stones.Members() && At(old(grid), n) == Some(t)) ==> p in t.liberties
    {
      var rest := s.stones.Members();
      ghost var done: set<Point> := {};
      while rest != {}
        invariant done <= s.stones.Members() && rest == s.stones.Members() - done
        invariant grid == Cleared(old(grid), done)
        invariant s.liberties == old(s.liberties)
        invariant forall t :: t in old(Strings()) && t != s ==> old(t.liberties) <= t.liberties <= old(t.liberties) + done
        invariant forall t, p, n ::
          (t in old(Strings()) && t != s && p in done && n in p.Neighbors() &&
           n !in s.stones.Members() && At(old(grid), n) == Some(t)) ==> p in t.liberties
        decreases rest
      {
        var pt :| pt in rest;
        ClearedValues(old(grid), done);
        ClearStone(s, pt, old(grid), done);
        done := done + {pt};
        rest := rest - {pt};
      }
      ClearedValues(old(grid), done);
    }

    /** One pass of the outer loop of `_remove_string` (lines 257-266): the
        stone `pt` is freed for its neighbours and cleared. */
    method ClearStone(s: GoString, pt: Point, ghost g0: Grid, ghost done: set<Point>)
      requires done <= s.stones.Members() && pt in s.stones.Members() && pt !in done
      requires grid == Cleared(g0, done)
      modifies this, Strings()
      ensures grid == Cleared(g0, done + {pt})
      ensures s.liberties == old(s.liberties)
      ensures forall t :: t in old(Strings()) && t != s ==> old(t.liberties) <= t.liberties <= old(t.liberties) + {pt}
      ensures forall t, n :: n in pt.Neighbors() && n !in s.stones.Members() && At(g0, n) == Some(t) && t != s ==>
        pt in t.liberties
    {
      FreeNeighbors(s, pt);
      assert Cleared(g0, done)[pt := None] == Cleared(g0, done + {pt});
      grid := grid[pt := None];
    }

    /** The inner loop of `_remove_string` (lines 258-264). */
    method FreeNeighbors(s: GoString, pt: Point)
      modifies Strings()
      ensures s.liberties == old(s.liberties)
      ensures forall t :: t in Strings() && t != s ==> old(t.liberties) <= t.liberties <= old(t.liberties) + {pt}
      ensures forall t, n :: n in pt.Neighbors() && At(grid, n) == Some(t) && t != s ==> pt in t.liberties
    {
      var ns := pt.Neighbors();
      var j := 0;
      while j < 4
        invariant 0 <= j <= 4
        invariant s.liberties == old(s.liberties)
        invariant forall t :: t in Strings() && t != s ==> old(t.liberties) <= t.liberties <= old(t.liberties) + {pt}
        invariant forall t, k :: 0 <= k < j && At(grid, ns[k]) == Some(t) && t != s ==> pt in t.liberties
      {
        var neighborString := At(grid, ns[j]);
        if neighborString.Some? && neighborString.value != s {
          neighborString.value.AddLiberty(pt);
        }
        j := j + 1;
      }
    }
  }

  /** The situation `(player, board)` occurs at `past` or further back; the
      boards are compared by identity, since `Board` defines no `__eq__`. */
  ghost predicate SeenFrom(past: Option<GameState>, player: Player, b: Board)
    decreases past
  {
    match past
    case None => false
    case Some(a) => a.Situation() == (player, b) || SeenFrom(a.previousState, player, b)
  }

  datatype GameState = GameState(
    board: Board,
    nextPlayer: Player,
    previousState: Option<GameState>,
    lastMove: Option<GoBoard.Move>)
  {
    /** The states before this one, as a set. */
    ghost function Ancestors(): set<GameState>
      decreases this
    {
      match previousState
      case None => {}
      case Some(p) => {p} + p.Ancestors()
    }

    /** The moves that led from the start of the game to this state. */
    ghost function Moves(): seq<GoBoard.Move>
      decreases this
    {
      match previousState
      case None => []
      case Some(p) => p.Moves() + (if lastMove.Some? then [lastMove.value] else [])
    }

    /** A state has a last move exactly when it has a previous state, and
        the player to move alternates: the shape `apply_move` builds. */
    ghost predicate Linked()
      decreases this
    {
      match previousState
      case None => lastMove.None?
      case Some(p) => lastMove.Some? && nextPlayer == p.nextPlayer.Other() && p.Linked()
    }

    /** `situation`. */
    function Situation(): (Player, Board) {
      (nextPlayer, board)
    }

    /** `is_over` reads `previous_state.last_move` only after a move that
        is not a resignation; with no previous state that raises. */
    predicate CanAskIsOver() {
      lastMove.None? || lastMove.value.isResign || previousState.Some?
    }

    /** `is_over`. */
    predicate IsOver()
      requires CanAskIsOver()
    {
      if lastMove.None? then false
      else if lastMove.value.isResign then true
      else match previousState.value.lastMove
        case None => false
        case Some(second) => lastMove.value.isPass && second.isPass
    }

    /** On every linked state `is_over` can be asked, and it holds exactly
        when the last move is a resignation or the last two are passes. */
    lemma {:induction false} IsOverMeansEnded()
      requires Linked()
      ensures CanAskIsOver()
      ensures IsOver() <==> GameStates.Ended(Moves())
    {
      match previousState
      case None =>
      case Some(p) =>
        assert Moves() == p.Moves() + [lastMove.value];
        match p.previousState
        case None =>
          assert p.Moves() == [];
        case Some(pp) =>
          assert p.Moves() == pp.Moves() + [p.lastMove.value];
    }

    /** A situation is seen from the previous state exactly when it is the
        situation of an ancestor. */
    lemma {:induction false} SeenMeansAncestor(player: Player, b: Board)
      ensures SeenFrom(previousState, player, b) <==> exists a :: a in Ancestors() && a.Situation() == (player, b)
      decreases this
    {
      match previousState
      case None =>
      case Some(p) =>
        p.SeenMeansAncestor(player, b);
        assert Ancestors() == {p} + p.Ancestors();
    }

    /** `apply_move`: a play places a stone for the player to move on a
        deep copy of the board; a pass or a resignation shares the board. */
    method ApplyMove(move: GoBoard.Move) returns (r: Result<GameState>)
      ensures !move.IsPlay() ==> r == Ok(GameState(board, nextPlayer.Other(), Some(this), Some(move)))
      ensures move.IsPlay() ==>
        var p := move.point.value;
        && (!(board.IsOnGrid(p) && board.Get(p).None?) ==> r == Err(AssertionError))
        && (board.IsOnGrid(p) && board.Get(p).None? && OwnNeighbor(board.grid, board.numRows, board.numCols, nextPlayer, p) ==>
              r == Err(TypeError))
        && (board.IsOnGrid(p) && board.Get(p).None? && !OwnNeighbor(board.grid, board.numRows, board.numCols, nextPlayer, p) ==>
              && r.Ok? && fresh(r.value.board)
              && r.value.nextPlayer == nextPlayer.Other() && r.value.previousState == Some(this)
              && r.value.lastMove == Some(move)
              && r.value.board.numRows == board.numRows && r.value.board.numCols == board.numCols
              && r.value.board.Get(p) == Some(nextPlayer)
              && (forall q :: q != p ==> r.value.board.Get(q) == board.Get(q))
              && r.value.board.GetGoString(p).value.liberties == EmptyNeighbors(board.grid, board.numRows, board.numCols, p))
      ensures r.Ok? && Linked() ==> r.value.Linked()
    {
      var nextBoard := board;
      if move.IsPlay() {
        var point := move.point.value;
        nextBoard := new Board.Copy(board);
        assert EmptyNeighbors(nextBoard.grid, nextBoard.numRows, nextBoard.numCols, point) ==
               EmptyNeighbors(board.grid, board.numRows, board.numCols, point);
        assert OwnNeighbor(nextBoard.grid, nextBoard.numRows, nextBoard.numCols, nextPlayer, point) ==
               OwnNeighbor(board.grid, board.numRows, board.numCols, nextPlayer, point);
        var o := nextBoard.PlaceStone(nextPlayer, point);
        if o.Fail? {
          return Err(o.error);
        }
      }
      r := Ok(GameState(nextBoard, nextPlayer.Other(), Some(this), Some(move)));
    }

    /** `is_move_self_capture`: the string at the point, after the
        speculative play, has no liberty. That string is the new one-stone
        string, so the play is a self-capture exactly when the point has no
        empty on-grid neighbour. */
    method IsMoveSelfCapture(player: Player, move: GoBoard.Move) returns (r: Result<bool>)
      ensures !move.IsPlay() ==> r == Ok(false)
      ensures move.IsPlay() ==>
        var p := move.point.value;
        && (!(board.IsOnGrid(p) && board.Get(p).None?) ==> r == Err(AssertionError))
        && (board.IsOnGrid(p) && board.Get(p).None? && OwnNeighbor(board.grid, board.numRows, board.numCols, player, p) ==>
              r == Err(TypeError))
        && (board.IsOnGrid(p) && board.Get(p).None? && !OwnNeighbor(board.grid, board.numRows, board.numCols, player, p) ==>
              r == Ok(EmptyNeighbors(board.grid, board.numRows, board.numCols, p) == {}))
    {
      if !move.IsPlay() {
        return Ok(false);
      }
      var point := move.point.value;
      var nextBoard := new Board.Copy(board);
      assert EmptyNeighbors(nextBoard.grid, nextBoard.numRows, nextBoard.numCols, point) ==
             EmptyNeighbors(board.grid, board.numRows, board.numCols, point);
      assert OwnNeighbor(nextBoard.grid, nextBoard.numRows, nextBoard.numCols, player, point) ==
             OwnNeighbor(board.grid, board.numRows, board.numCols, player, point);
      var o := nextBoard.PlaceStone(player, point);
      if o.Fail? {
        return Err(o.error);
      }
      var newString := nextBoard.GetGoString(point);
      r := Ok(newString.value.NumLiberties() == 0);
    }

    /** The loop of `does_move_violate_ko`: walk the previous states,
        nearest first, looking for the situation `(player, b)`. */
    method SeenBefore(player: Player, b: Board) returns (found: bool)
      ensures found == SeenFrom(previousState, player, b)
      ensures found <==> exists a :: a in Ancestors() && a.Situation() == (player, b)
    {
      SeenMeansAncestor(player, b);
      var past := previousState;
      while past.Some?
        invariant SeenFrom(past, player, b) == SeenFrom(previousState, player, b)
        decreases past
      {
        if past.value.Situation() == (player, b) {
          return true;
        }
        past := past.value.previousState;
      }
      found := false;
    }

    /** `does_move_violate_ko`. The board of the situation looked for is
        a fresh copy, and no earlier state holds it, so a repetition is never
        found: the call either raises as `place_stone` does or gives false. */
    method DoesMoveViolateKo(player: Player, move: GoBoard.Move) returns (r: Result<bool>)
      ensures !move.IsPlay() ==> r == Ok(false)
      ensures move.IsPlay() ==>
        var p := move.point.value;
        && (!(board.IsOnGrid(p) && board.Get(p).None?) ==> r == Err(AssertionError))
        && (board.IsOnGrid(p) && board.Get(p).None? && OwnNeighbor(board.grid, board.numRows, board.numCols, player, p) ==>
              r == Err(TypeError))
        && (board.IsOnGrid(p) && board.Get(p).None? && !OwnNeighbor(board.grid, board.numRows, board.numCols, player, p) ==>
              r == Ok(false))
    {
      if !move.IsPlay() {
        return Ok(false);
      }
      var point := move.point.value;
      var nextBoard := new Board.Copy(board);
      assert OwnNeighbor(nextBoard.grid, nextBoard.numRows, nextBoard.numCols, player, point) ==
             OwnNeighbor(board.grid, board.numRows, board.numCols, player, point);
      var o := nextBoard.PlaceStone(player, point);
      if o.Fail? {
        return Err(o.error);
      }
      var found := SeenBefore(player.Other(), nextBoard);
      // Every earlier board was allocated before the copy.
      ghost var past := previousState;
      while past.Some?
        invariant old(allocated(past))
        invariant SeenFrom(previousState, player.Other(), nextBoard) ==> SeenFrom(past, player.Other(), nextBoard)
        decreases past
      {
        past := past.value.previousState;
      }
      r := Ok(found);
    }

    /** `is_valid_move`. A play is valid exactly when its point is empty,
        on the grid, next to no stone of the mover's colour (there the
        speculative play raises) and next to at least one empty point. */
    method IsValidMove(move: GoBoard.Move) returns (r: Result<bool>)
      requires CanAskIsOver()
      ensures IsOver() ==> r == Ok(false)
      ensures !IsOver() && (move.isPass || move.isResign) ==> r == Ok(true)
      ensures !IsOver() && !move.isPass && !move.isResign ==>
        var p := move.point.value;
        && (board.Get(p).Some? ==> r == Ok(false))
        && (board.Get(p).None? && !board.IsOnGrid(p) ==> r == Err(AssertionError))
        && (board.Get(p).None? && board.IsOnGrid(p) && OwnNeighbor(board.grid, board.numRows, board.numCols, nextPlayer, p) ==>
              r == Err(TypeError))
        && (board.Get(p).None? && board.IsOnGrid(p) && !OwnNeighbor(board.grid, board.numRows, board.numCols, nextPlayer, p) ==>
              r == Ok(EmptyNeighbors(board.grid, board.numRows, board.numCols, p) != {}))
    {
      if IsOver() {
        return Ok(false);
      }
      if move.isPass || move.isResign {
        return Ok(true);
      }
      GoBoard.MoveKinds(move);
      if board.Get(move.point.value).Some? {
        return Ok(false);
      }
      var selfCapture := IsMoveSelfCapture(nextPlayer, move);
      if selfCapture.Err? {
        return Err(selfCapture.error);
      }
      if selfCapture.value {
        return Ok(false);
      }
      var ko := DoesMoveViolateKo(nextPlayer, move);
      r := Ok(!ko.value);
    }
  }

  /** `new_game` of the slow engine: an empty board of the given size,
      black to move, no previous state. */
  method NewGame(size: GameStates.BoardSize) returns (st: GameState)
    ensures fresh(st.board)
    ensures size.Square? ==> st.board.numRows == size.side && st.board.numCols == size.side
    ensures size.Dims? ==> st.board.numRows == size.rows && st.board.numCols == size.cols
    ensures st.board.grid == map[]
    ensures st.nextPlayer == Black && st.previousState == None && st.lastMove == None
    ensures st.Linked() && st.CanAskIsOver() && !st.IsOver()
  {
    var rows, cols := 0, 0;
    match size {
      case Square(n) => rows, cols := n, n;
      case Dims(r, c) => rows, cols := r, c;
    }
    var board := new Board(rows, cols);
    st := GameState(board, Black, None, None);
  }
}
