/** The rules engine used by the game driver (dlgo/goboard.py): moves,
    immutable strings of stones, the board with its running Zobrist hash,
    and the persistent chain of game states.

    The model follows the code as written. In `place_stone` the `else` of the
    neighbour scan belongs to the inner `if`, so strings of the opposite
    colour are never collected: the list the source names
    `adjacent_opposite_color` receives the player's own strings that touch
    the new stone twice. Those strings lose `point` as a liberty and are then
    rebound or removed; no opponent string is ever captured. */
module GoBoard {
  import opened GoTypes
  import opened Wrappers
  import opened Zobrist

  // ---------------------------------------------------------------------
  // Move

  /** The arguments of a `Move(point, is_pass, is_resign)` call. */
  datatype MoveFields = MoveFields(point: Option<Point>, isPass: bool, isResign: bool) {

    /** `is_play`: a point was given. */
    predicate IsPlay() {
      point.Some?
    }

    /** The constructor's assertion `(point is not None) ^ is_pass ^ is_resign`. */
    predicate Accepted() {
      (point.Some? != isPass) != isResign
    }
  }

  /** A `Move` object: arguments whose constructor assertion held. */
  type Move = m: MoveFields | m.Accepted() witness MoveFields(None, true, false)

  /** How many of the three kinds the arguments ask for. */
  function KindCount(point: Option<Point>, isPass: bool, isResign: bool): nat {
    (if point.Some? then 1 else 0) + (if isPass then 1 else 0) + (if isResign then 1 else 0)
  }

  /** `Move.__init__`: `None` stands for the failing assertion. */
  function NewMove(point: Option<Point>, isPass: bool, isResign: bool): (r: Option<Move>)
    ensures r.Some? <==> KindCount(point, isPass, isResign) % 2 == 1
    ensures r.Some? ==> r.value == MoveFields(point, isPass, isResign)
  {
    var m := MoveFields(point, isPass, isResign);
    if m.Accepted() then Some(m) else None
  }

  /** `Move.play(point)`. */
  function Play(p: Point): (m: Move)
    ensures m.IsPlay() && m.point == Some(p) && !m.isPass && !m.isResign
  {
    NewMove(Some(p), false, false).value
  }

  /** `Move.pass_turn()`. */
  function PassTurn(): (m: Move)
    ensures !m.IsPlay() && m.isPass && !m.isResign
  {
    NewMove(None, true, false).value
  }

  /** `Move.resign()`. */
  function Resign(): (m: Move)
    ensures !m.IsPlay() && !m.isPass && m.isResign
  {
    NewMove(None, false, true).value
  }

  /** Every move is of exactly one kind, except the one the assertion also
      lets through: a point together with both flags. */
  lemma MoveKinds(m: Move)
    ensures KindCount(m.point, m.isPass, m.isResign) == 1 || (m.IsPlay() && m.isPass && m.isResign)
  {
  }

  // ---------------------------------------------------------------------
  // GoString: an immutable value; `__eq__` compares all three fields, which
  // is Dafny's equality on this datatype.

  datatype GoString = GoString(color: Player, stones: set<Point>, liberties: set<Point>) {

    /** `without_liberty`. */
    function WithoutLiberty(p: Point): (r: GoString)
      ensures r.color == color && r.stones == stones
      ensures r.liberties == liberties - {p}
      ensures r.NumLiberties() == if p in liberties then NumLiberties() - 1 else NumLiberties()
    {
      GoString(color, stones, liberties - {p})
    }

    /** `with_liberty`. */
    function WithLiberty(p: Point): (r: GoString)
      ensures r.color == color && r.stones == stones
      ensures r.liberties == liberties + {p}
      ensures r.NumLiberties() == if p in liberties then NumLiberties() else NumLiberties() + 1
    {
      if p in liberties then
        assert liberties + {p} == liberties;
        GoString(color, stones, liberties)
      else
        GoString(color, stones, liberties + {p})
    }

    /** `merge_with`; its assertion of equal colours is a precondition. */
    function MergeWith(other: GoString): (r: GoString)
      requires other.color == color
      ensures r.color == color
      ensures r.stones == stones + other.stones
      ensures forall p :: p in r.liberties <==> (p in liberties || p in other.liberties) && p !in r.stones
      ensures r.liberties !! r.stones
    {
      var combined := stones + other.stones;
      GoString(color, combined, (liberties + other.liberties) - combined)
    }

    /** `num_liberties`. */
    function NumLiberties(): nat {
      |liberties|
    }
  }

  /** Merging is symmetric in its two strings. */
  lemma MergeSymmetric(a: GoString, b: GoString)
    requires a.color == b.color
    ensures a.MergeWith(b) == b.MergeWith(a)
  {
  }

  /** Removing a liberty undoes adding it, when it was not there before. */
  lemma LibertyRoundTrip(s: GoString, p: Point)
    ensures p !in s.liberties ==> s.WithLiberty(p).WithoutLiberty(p) == s
    ensures p in s.liberties ==> s.WithoutLiberty(p).WithLiberty(p) == s
  {
  }

  /** The set of a sequence's elements. */
  function Elems<T>(xs: seq<T>): set<T> {
    set x | x in xs
  }

  /** Stones of all strings in a list. */
  function UnionStones(ss: seq<GoString>): set<Point> {
    set s, p | s in ss && p in s.stones :: p
  }

  /** Liberties of all strings in a list. */
  function UnionLiberties(ss: seq<GoString>): set<Point> {
    set s, p | s in ss && p in s.liberties :: p
  }

  /** The merge loop of `place_stone`: fold `merge_with` over the list. */
  function MergeAll(base: GoString, ss: seq<GoString>): GoString
    requires forall s :: s in ss ==> s.color == base.color
    decreases |ss|
  {
    if ss == [] then base else MergeAll(base.MergeWith(ss[0]), ss[1..])
  }

  lemma UnionsSplit(ss: seq<GoString>)
    requires ss != []
    ensures UnionStones(ss) == ss[0].stones + UnionStones(ss[1..])
    ensures UnionLiberties(ss) == ss[0].liberties + UnionLiberties(ss[1..])
  {
    assert forall s :: s in ss <==> s == ss[0] || s in ss[1..];
  }

  /** The folded merge holds every stone of the base and of the list, and
      every liberty of any of them that is not itself one of those stones;
      so its value does not depend on the order of the list. */
  lemma {:induction false} MergeAllSpec(base: GoString, ss: seq<GoString>)
    requires forall s :: s in ss ==> s.color == base.color
    requires base.liberties !! base.stones
    ensures MergeAll(base, ss).color == base.color
    ensures MergeAll(base, ss).stones == base.stones + UnionStones(ss)
    ensures MergeAll(base, ss).liberties == (base.liberties + UnionLiberties(ss)) - MergeAll(base, ss).stones
    decreases |ss|
  {
    if ss != [] {
      var b1 := base.MergeWith(ss[0]);
      MergeAllSpec(b1, ss[1..]);
      UnionsSplit(ss);
    }
  }

  // ---------------------------------------------------------------------
  // The grid: a dictionary from points to strings in which a removed stone
  // leaves an explicit `None` (line 291); `dict.get` treats a missing key
  // and a stored `None` alike.

  type Grid = map<Point, Option<GoString>>

  /** `self._grid.get(p)`. */
  function At(g: Grid, p: Point): Option<GoString> {
    if p in g then g[p] else None
  }

  /** The colour stored at a point, if any. */
  function ColorAt(g: Grid, p: Point): Option<Player> {
    match At(g, p)
    case None => None
    case Some(s) => Some(s.color)
  }

  /** `is_on_grid` for a board of the given dimensions. */
  predicate OnGrid(rows: int, cols: int, p: Point) {
    1 <= p.row <= rows && 1 <= p.col <= cols
  }

  /** Every stored string lists the point it is stored at among its stones. */
  ghost predicate Consistent(g: Grid) {
    forall q :: q in g && g[q].Some? ==> q in g[q].value.stones
  }

  /** Every stone of every stored string is occupied in that string's
      colour. The engine does not keep this after a removal (see README). */
  ghost predicate Coherent(g: Grid) {
    forall q, s :: q in g && g[q].Some? && s in g[q].value.stones ==> ColorAt(g, s) == Some(g[q].value.color)
  }

  /** No stored string lists `p` among its stones. */
  ghost predicate Unclaimed(g: Grid, p: Point) {
    forall q :: q in g && g[q].Some? ==> p !in g[q].value.stones
  }

  /** Every stored string that lists `p` among its stones is `t`. */
  ghost predicate ClaimedOnlyBy(g: Grid, p: Point, t: GoString) {
    forall q :: q in g && g[q].Some? && p in g[q].value.stones ==> g[q].value == t
  }

  /** The (colour, stones) shapes of the stored strings. */
  ghost function Shapes(g: Grid): set<(Player, set<Point>)> {
    set q | q in g && g[q].Some? :: (g[q].value.color, g[q].value.stones)
  }

  /** The occupied points with their colours. */
  ghost function StonesOf(g: Grid): set<(Point, Player)> {
    set q | q in g && g[q].Some? :: (q, g[q].value.color)
  }

  /** The grid after binding every stone of `s` to `s` (`_replace_string`). */
  function Rebind(g: Grid, s: GoString): Grid {
    RebindOn(g, s.stones, s)
  }

  /** The grid after binding the points of `pts` to `s`. */
  function RebindOn(g: Grid, pts: set<Point>, s: GoString): Grid {
    map q | q in g.Keys + pts :: if q in pts then Some(s) else g[q]
  }

  lemma RebindOnStep(g: Grid, pts: set<Point>, s: GoString, q: Point)
    ensures RebindOn(g, pts, s)[q := Some(s)] == RebindOn(g, pts + {q}, s)
  {
  }

  // ---------------------------------------------------------------------
  // The neighbour scan of `place_stone` (lines 185-198)

  /** The three lists the scan builds. */
  datatype Scan = Scan(same: seq<GoString>, opp: seq<GoString>, libs: seq<Point>)

  /** One iteration of the scan loop, with the `else` bound to the inner
      `if`: only same-colour strings are ever appended. */
  function ScanStep(g: Grid, rows: int, cols: int, player: Player, sc: Scan, n: Point): Scan {
    if !OnGrid(rows, cols, n) then sc
    else match At(g, n)
      case None => sc.(libs := sc.libs + [n])
      case Some(s) =>
        if s.color != player then sc
        else if s !in sc.same then sc.(same := sc.same + [s])
        else if s !in sc.opp then sc.(opp := sc.opp + [s])
        else sc
  }

  /** The scan over a list of neighbours, in order. */
  function ScanNeighbors(g: Grid, rows: int, cols: int, player: Player, ns: seq<Point>): Scan
    decreases |ns|
  {
    if ns == [] then Scan([], [], [])
    else ScanStep(g, rows, cols, player, ScanNeighbors(g, rows, cols, player, ns[..|ns| - 1]), ns[|ns| - 1])
  }

  /** `n` is on the grid and holds a string of the player's colour. */
  predicate IsOwn(g: Grid, rows: int, cols: int, player: Player, n: Point) {
    OnGrid(rows, cols, n) && At(g, n).Some? && At(g, n).value.color == player
  }

  /** The player's strings stored at on-grid points of the list. */
  function OwnStrings(g: Grid, rows: int, cols: int, player: Player, ns: seq<Point>): set<GoString> {
    set i | 0 <= i < |ns| && IsOwn(g, rows, cols, player, ns[i]) :: At(g, ns[i]).value
  }

  /** The player's strings stored at two different positions of the list. */
  function TwiceTouched(g: Grid, rows: int, cols: int, player: Player, ns: seq<Point>): set<GoString> {
    set i, j | 0 <= i < j < |ns| && IsOwn(g, rows, cols, player, ns[i]) && OnGrid(rows, cols, ns[j])
                 && At(g, ns[j]) == At(g, ns[i]) :: At(g, ns[i]).value
  }

  /** The empty on-grid points of the list. */
  function EmptyOnGrid(g: Grid, rows: int, cols: int, ns: seq<Point>): set<Point> {
    set n | n in ns && OnGrid(rows, cols, n) && At(g, n).None?
  }

  lemma OwnSnoc(g: Grid, rows: int, cols: int, player: Player, ns: seq<Point>, n: Point)
    ensures OwnStrings(g, rows, cols, player, ns + [n]) ==
      OwnStrings(g, rows, cols, player, ns) + (if IsOwn(g, rows, cols, player, n) then {At(g, n).value} else {})
  {
    var ns' := ns + [n];
    assert forall i :: 0 <= i < |ns| ==> ns'[i] == ns[i];
    assert ns'[|ns|] == n;
    var own, own' := OwnStrings(g, rows, cols, player, ns), OwnStrings(g, rows, cols, player, ns');
    forall s | s in own' ensures s in own || (IsOwn(g, rows, cols, player, n) && s == At(g, n).value) {
      var i :| 0 <= i < |ns'| && IsOwn(g, rows, cols, player, ns'[i]) && s == At(g, ns'[i]).value;
      if i < |ns| { assert s in own; }
    }
  }

  lemma TwiceSnoc(g: Grid, rows: int, cols: int, player: Player, ns: seq<Point>, n: Point)
    ensures TwiceTouched(g, rows, cols, player, ns + [n]) ==
      TwiceTouched(g, rows, cols, player, ns) +
      (if IsOwn(g, rows, cols, player, n) && At(g, n).value in OwnStrings(g, rows, cols, player, ns)
       then {At(g, n).value} else {})
  {
    TwiceSnocSub(g, rows, cols, player, ns, n);
    TwiceSnocSup(g, rows, cols, player, ns, n);
  }

  lemma TwiceSnocSub(g: Grid, rows: int, cols: int, player: Player, ns: seq<Point>, n: Point)
    ensures TwiceTouched(g, rows, cols, player, ns + [n]) <=
      TwiceTouched(g, rows, cols, player, ns) +
      (if IsOwn(g, rows, cols, player, n) && At(g, n).value in OwnStrings(g, rows, cols, player, ns)
       then {At(g, n).value} else {})
  {
    var ns' := ns + [n];
    forall s | s in TwiceTouched(g, rows, cols, player, ns')
      ensures s in TwiceTouched(g, rows, cols, player, ns) ||
              (IsOwn(g, rows, cols, player, n) && At(g, n).value in OwnStrings(g, rows, cols, player, ns) && s == At(g, n).value)
    {
      var i, j :| 0 <= i < j < |ns'| && IsOwn(g, rows, cols, player, ns'[i]) && OnGrid(rows, cols, ns'[j])
                  && At(g, ns'[j]) == At(g, ns'[i]) && s == At(g, ns'[i]).value;
      assert ns'[i] == ns[i];
      if j < |ns| {
        assert ns'[j] == ns[j];
      } else {
        assert ns'[j] == n;
      }
    }
  }

  lemma TwiceSnocSup(g: Grid, rows: int, cols: int, player: Player, ns: seq<Point>, n: Point)
    ensures TwiceTouched(g, rows, cols, player, ns) +
      (if IsOwn(g, rows, cols, player, n) && At(g, n).value in OwnStrings(g, rows, cols, player, ns)
       then {At(g, n).value} else {}) <= TwiceTouched(g, rows, cols, player, ns + [n])
  {
    var ns' := ns + [n];
    forall s | s in TwiceTouched(g, rows, cols, player, ns) ensures s in TwiceTouched(g, rows, cols, player, ns') {
      var i, j :| 0 <= i < j < |ns| && IsOwn(g, rows, cols, player, ns[i]) && OnGrid(rows, cols, ns[j])
                  && At(g, ns[j]) == At(g, ns[i]) && s == At(g, ns[i]).value;
      assert ns'[i] == ns[i] && ns'[j] == ns[j];
    }
    if IsOwn(g, rows, cols, player, n) && At(g, n).value in OwnStrings(g, rows, cols, player, ns) {
      var i :| 0 <= i < |ns| && IsOwn(g, rows, cols, player, ns[i]) && At(g, n).value == At(g, ns[i]).value;
      assert ns'[i] == ns[i] && ns'[|ns|] == n;
    }
  }

  lemma EmptySnoc(g: Grid, rows: int, cols: int, ns: seq<Point>, n: Point)
    ensures EmptyOnGrid(g, rows, cols, ns + [n]) ==
      EmptyOnGrid(g, rows, cols, ns) + (if OnGrid(rows, cols, n) && At(g, n).None? then {n} else {})
  {
  }

  /** What one scan step adds to the three collections. */
  lemma ScanStepSpec(g: Grid, rows: int, cols: int, player: Player, sc: Scan, n: Point)
    ensures var sc' := ScanStep(g, rows, cols, player, sc, n);
      && Elems(sc'.same) == Elems(sc.same) + (if IsOwn(g, rows, cols, player, n) then {At(g, n).value} else {})
      && Elems(sc'.opp) == Elems(sc.opp) +
           (if IsOwn(g, rows, cols, player, n) && At(g, n).value in sc.same then {At(g, n).value} else {})
      && Elems(sc'.libs) == Elems(sc.libs) + (if OnGrid(rows, cols, n) && At(g, n).None? then {n} else {})
      && (forall s :: s in sc'.same ==> s in sc.same || (IsOwn(g, rows, cols, player, n) && s == At(g, n).value))
      && (forall s :: s in sc'.opp ==> s in sc.opp || (IsOwn(g, rows, cols, player, n) && s == At(g, n).value && s in sc.same))
  {
  }

  /** The scan collects exactly: in `same`, the player's strings next to the
      point, each once; in `opp`, those of them met at two neighbours; in
      `libs`, the empty on-grid neighbours. Strings of the other colour are
      never collected. */
  lemma {:induction false} ScanSpec(g: Grid, rows: int, cols: int, player: Player, ns: seq<Point>)
    ensures Elems(ScanNeighbors(g, rows, cols, player, ns).same) == OwnStrings(g, rows, cols, player, ns)
    ensures Elems(ScanNeighbors(g, rows, cols, player, ns).opp) == TwiceTouched(g, rows, cols, player, ns)
    ensures Elems(ScanNeighbors(g, rows, cols, player, ns).libs) == EmptyOnGrid(g, rows, cols, ns)
    ensures forall s :: s in ScanNeighbors(g, rows, cols, player, ns).same ==> s.color == player
    ensures forall s :: s in ScanNeighbors(g, rows, cols, player, ns).opp ==> s in ScanNeighbors(g, rows, cols, player, ns).same
    decreases |ns|
  {
    if ns != [] {
      var pre, n := ns[..|ns| - 1], ns[|ns| - 1];
      assert ns == pre + [n];
      ScanSpec(g, rows, cols, player, pre);
      var sc := ScanNeighbors(g, rows, cols, player, pre);
      assert ScanNeighbors(g, rows, cols, player, ns) == ScanStep(g, rows, cols, player, sc, n);
      ScanStepSpec(g, rows, cols, player, sc, n);
      OwnSnoc(g, rows, cols, player, pre, n);
      TwiceSnoc(g, rows, cols, player, pre, n);
      EmptySnoc(g, rows, cols, pre, n);
      assert At(g, n).Some? && At(g, n).value in sc.same <==> At(g, n).Some? && At(g, n).value in Elems(sc.same);
    }
  }

  // ---------------------------------------------------------------------
  // Facts about rebinding a string

  lemma RebindAt(g: Grid, s: GoString, p: Point)
    ensures At(Rebind(g, s), p) == if p in s.stones then Some(s) else At(g, p)
  {
  }

  lemma RebindConsistent(g: Grid, s: GoString)
    requires Consistent(g)
    ensures Consistent(Rebind(g, s))
  {
  }

  /** A stored string contributes its shape. */
  lemma ShapeOf(g: Grid, n: Point)
    requires At(g, n).Some?
    ensures (At(g, n).value.color, At(g, n).value.stones) in Shapes(g)
  {
    assert n in g && g[n].Some?;
  }

  lemma RebindShapes(g: Grid, s: GoString)
    ensures Shapes(Rebind(g, s)) <= Shapes(g) + {(s.color, s.stones)}
  {
    var g' := Rebind(g, s);
    forall x | x in Shapes(g') ensures x in Shapes(g) + {(s.color, s.stones)} {
      var q :| q in g' && g'[q].Some? && x == (g'[q].value.color, g'[q].value.stones);
      if q !in s.stones {
        ShapeOf(g, q);
      }
    }
  }

  lemma RebindClaimsOutside(g: Grid, p: Point, cur: GoString, s: GoString)
    requires p !in s.stones && ClaimedOnlyBy(g, p, cur)
    ensures ClaimedOnlyBy(Rebind(g, s), p, cur) && At(Rebind(g, s), p) == At(g, p)
  {
  }

  lemma RebindClaimsInside(g: Grid, p: Point, cur: GoString, s: GoString)
    requires Consistent(g) && ClaimedOnlyBy(g, p, cur)
    requires p in s.stones && s.stones == cur.stones
    ensures ClaimedOnlyBy(Rebind(g, s), p, s) && At(Rebind(g, s), p) == Some(s)
  {
  }

  // ---------------------------------------------------------------------
  // Facts used by `_remove_string`

  /** `point` holds a string other than `s`, and every string listing
      `point` among its stones is that one. */
  ghost predicate Anchored(g: Grid, point: Point, s: GoString) {
    point !in s.stones && At(g, point).Some? && ClaimedOnlyBy(g, point, At(g, point).value)
  }

  /** The string at `point` in `g1` keeps the colour and stones it had in
      `g0`, has gained liberties only among `added`, and has gained every
      point of `covered` that is next to `point`. */
  ghost predicate Grown(g0: Grid, g1: Grid, point: Point, added: set<Point>, covered: set<Point>) {
    At(g0, point).Some? && At(g1, point).Some? &&
    var t0, t1 := At(g0, point).value, At(g1, point).value;
    t1.color == t0.color && t1.stones == t0.stones &&
    t0.liberties <= t1.liberties && t1.liberties <= t0.liberties + added &&
    ClaimedOnlyBy(g1, point, t1) &&
    forall pt :: pt in covered && point in pt.Neighbors() ==> pt in t1.liberties
  }

  /** The invariant of the removal loop once the stones of `done` are cleared. */
  ghost predicate Removing(g0: Grid, g: Grid, point: Point, s: GoString, done: set<Point>, anchored: bool) {
    && Consistent(g) && Shapes(g) <= Shapes(g0)
    && (forall q :: At(g, q).None? ==> At(g0, q).None? || q in done)
    && (anchored ==> Anchored(g0, point, s) && Grown(g0, g, point, s.stones, done))
  }

  /** The first `j` neighbours of the stone `pt` have been visited: if one of
      them is `point`, the string there has gained `pt` as a liberty. */
  ghost predicate Visited(g: Grid, point: Point, pt: Point, j: int, anchored: bool)
    requires 0 <= j <= 4
  {
    anchored ==>
      (At(g, point).Some? &&
       forall k :: 0 <= k < j && pt.Neighbors()[k] == point ==> pt in At(g, point).value.liberties)
  }

  /** One `_replace_string(neighbor_string.with_liberty(pt))` of the removal loop. */
  lemma LibertyStep(g0: Grid, g: Grid, j: int, pt: Point, point: Point, s: GoString, done: set<Point>, anchored: bool)
    requires 0 <= j < 4
    requires Removing(g0, g, point, s, done, anchored) && Visited(g, point, pt, j, anchored)
    requires At(g, pt.Neighbors()[j]).Some? && At(g, pt.Neighbors()[j]).value != s
    requires pt in s.stones
    ensures var g' := Rebind(g, At(g, pt.Neighbors()[j]).value.WithLiberty(pt));
      Removing(g0, g', point, s, done, anchored) && Visited(g', point, pt, j + 1, anchored)
  {
    var n := pt.Neighbors()[j];
    var t := At(g, n).value;
    var t' := t.WithLiberty(pt);
    var g' := Rebind(g, t');
    RebindConsistent(g, t');
    RebindShapes(g, t');
    ShapeOf(g, n);
    forall q | At(g', q).None? ensures At(g0, q).None? || q in done {
      RebindAt(g, t', q);
    }
    if anchored {
      var cur := At(g, point).value;
      if point in t.stones {
        assert n in g && g[n] == Some(t);
        assert t == cur;
        RebindClaimsInside(g, point, cur, t');
      } else {
        RebindClaimsOutside(g, point, cur, t');
      }
    }
  }

  /** A neighbour the removal loop skips. */
  lemma SkipStep(g0: Grid, g: Grid, j: int, pt: Point, point: Point, s: GoString, done: set<Point>, anchored: bool)
    requires 0 <= j < 4
    requires Removing(g0, g, point, s, done, anchored) && Visited(g, point, pt, j, anchored)
    requires At(g, pt.Neighbors()[j]).None? || At(g, pt.Neighbors()[j]).value == s
    ensures Visited(g, point, pt, j + 1, anchored)
  {
  }

  /** The clearing of one stone at the end of an iteration of the removal loop. */
  lemma ClearStep(g0: Grid, g: Grid, pt: Point, point: Point, s: GoString, done: set<Point>, anchored: bool)
    requires Removing(g0, g, point, s, done, anchored) && Visited(g, point, pt, 4, anchored)
    requires pt in s.stones
    ensures Removing(g0, g[pt := None], point, s, done + {pt}, anchored)
  {
    var g' := g[pt := None];
    assert Shapes(g') <= Shapes(g) by {
      forall x | x in Shapes(g') ensures x in Shapes(g) {
        var q :| q in g' && g'[q].Some? && x == (g'[q].value.color, g'[q].value.stones);
        ShapeOf(g, q);
      }
    }
    if anchored {
      assert pt != point;
      assert At(g', point) == At(g, point);
      var ns := pt.Neighbors();
      forall p' | p' in done + {pt} && point in p'.Neighbors()
        ensures p' in At(g', point).value.liberties
      {
        if p' == pt {
          var k :| 0 <= k < 4 && ns[k] == point;
        }
      }
    }
  }

  /** XORing one more stone's code into the running hash of a removal. */
  lemma HashStep(h: Bits, done: set<Point>, pt: Point, c: Player)
    requires pt !in done
    ensures Xor(Xor(h, XorAll(Tagged(done, c))), HASH_CODE(pt, c)) == Xor(h, XorAll(Tagged(done + {pt}, c)))
  {
    assert Tagged(done + {pt}, c) == Tagged(done, c) + {(pt, c)};
    XorAllAdd(Tagged(done, c), (pt, c));
    XorAssoc(h, XorAll(Tagged(done, c)), HASH_CODE(pt, c));
  }

  // ---------------------------------------------------------------------
  // Facts used by `place_stone`

  /** The neighbour scan of `place_stone` at `point`. */
  function ScanAt(g: Grid, rows: int, cols: int, player: Player, point: Point): Scan {
    ScanNeighbors(g, rows, cols, player, point.Neighbors())
  }

  /** The string `place_stone` binds at `point`: the one-stone string with
      the scanned liberties, merged with every scanned same-colour string. */
  function Merged(g: Grid, rows: int, cols: int, player: Player, point: Point): GoString {
    var sc := ScanAt(g, rows, cols, player, point);
    ScanSpec(g, rows, cols, player, point.Neighbors());
    MergeAll(GoString(player, {point}, Elems(sc.libs)), sc.same)
  }

  /** The bound string holds the new stone and the stones of every string of
      the player's colour on a neighbouring point; its liberties are the
      empty on-grid neighbours and those strings' liberties, less its own
      stones. */
  lemma MergedSpec(g: Grid, rows: int, cols: int, player: Player, point: Point)
    ensures var m := Merged(g, rows, cols, player, point);
      var same := ScanAt(g, rows, cols, player, point).same;
      && m.color == player
      && m.stones == {point} + UnionStones(same)
      && m.liberties == (EmptyOnGrid(g, rows, cols, point.Neighbors()) + UnionLiberties(same)) - m.stones
      && Elems(same) == OwnStrings(g, rows, cols, player, point.Neighbors())
  {
    var sc := ScanAt(g, rows, cols, player, point);
    ScanSpec(g, rows, cols, player, point.Neighbors());
    forall q | q in Elems(sc.libs) ensures q != point {
      NeighborsSymmetric(point, q);
    }
    MergeAllSpec(GoString(player, {point}, Elems(sc.libs)), sc.same);
  }

  /** No string of the player's colour sits at two on-grid neighbours of
      `point`: then the second list of the scan is empty, as intended. */
  predicate NoDoubleTouch(g: Grid, rows: int, cols: int, player: Player, point: Point) {
    var ns := point.Neighbors();
    forall i, j :: 0 <= i < j < 4 && IsOwn(g, rows, cols, player, ns[i]) && OnGrid(rows, cols, ns[j]) ==>
      At(g, ns[j]) != At(g, ns[i])
  }

  /** The scan lists no string for the last loop exactly when no string is
      touched twice. */
  lemma NoDoubleTouchIff(g: Grid, rows: int, cols: int, player: Player, point: Point)
    ensures ScanAt(g, rows, cols, player, point).opp == [] <==> NoDoubleTouch(g, rows, cols, player, point)
  {
    var ns := point.Neighbors();
    var opp := ScanAt(g, rows, cols, player, point).opp;
    ScanSpec(g, rows, cols, player, ns);
    if opp == [] {
      assert TwiceTouched(g, rows, cols, player, ns) == {};
      forall i, j | 0 <= i < j < 4 && IsOwn(g, rows, cols, player, ns[i]) && OnGrid(rows, cols, ns[j])
        ensures At(g, ns[j]) != At(g, ns[i])
      {
        var s := At(g, ns[i]).value;
        assert At(g, ns[j]) == At(g, ns[i]) ==> s in TwiceTouched(g, rows, cols, player, ns);
      }
    } else {
      assert opp[0] in Elems(opp);
    }
  }

  /** A string whose last liberty would be `point`: the last loop of
      `place_stone` removes it instead of rebinding it. */
  predicate Exhausted(a: GoString, point: Point) {
    a.liberties - {point} == {}
  }

  predicate NoneExhausted(xs: seq<GoString>, point: Point) {
    forall a :: a in xs ==> !Exhausted(a, point)
  }

  /** The stones the removals of the last loop clear. */
  function RemovedStones(xs: seq<GoString>, point: Point): set<Point> {
    set a, q | a in xs && Exhausted(a, point) && q in a.stones :: q
  }

  /** What the removals of the last loop XOR into the hash. */
  ghost function RemovedXor(xs: seq<GoString>, point: Point): Bits
    decreases |xs|
  {
    if xs == [] then {}
    else
      var last := xs[|xs| - 1];
      Xor(RemovedXor(xs[..|xs| - 1], point),
          if Exhausted(last, point) then XorAll(Tagged(last.stones, last.color)) else {})
  }

  /** The state of `point` after `place_stone` bound `m` there and ran the
      last loop over `opp`: the string at `point` has the colour and stones
      of `m` and at least its liberties; it is `m` itself when nothing was
      removed, and it has a liberty when something was. */
  ghost predicate Settled(g: Grid, point: Point, m: GoString, opp: seq<GoString>) {
    At(g, point).Some? &&
    var t := At(g, point).value;
    t.color == m.color && t.stones == m.stones && m.liberties <= t.liberties &&
    ClaimedOnlyBy(g, point, t) &&
    (NoneExhausted(opp, point) ==> t == m) &&
    (!NoneExhausted(opp, point) ==> t.liberties != {})
  }

  lemma RemovedSnoc(xs: seq<GoString>, k: int, point: Point)
    requires 0 <= k < |xs|
    ensures RemovedStones(xs[..k + 1], point) ==
      RemovedStones(xs[..k], point) + (if Exhausted(xs[k], point) then xs[k].stones else {})
    ensures NoneExhausted(xs[..k + 1], point) <==> NoneExhausted(xs[..k], point) && !Exhausted(xs[k], point)
  {
    assert forall b :: b in xs[..k + 1] <==> b in xs[..k] || b == xs[k];
  }

  lemma RemovedXorSnoc(xs: seq<GoString>, k: int, point: Point)
    requires 0 <= k < |xs|
    ensures RemovedXor(xs[..k + 1], point) ==
      Xor(RemovedXor(xs[..k], point), if Exhausted(xs[k], point) then XorAll(Tagged(xs[k].stones, xs[k].color)) else {})
  {
    assert xs[..k + 1][..k] == xs[..k];
  }

  /** Binding `m` over an empty point keeps every stored string's stones
      occupied in its colour, and adds exactly the new stone. */
  lemma BindKeepsCoherent(g: Grid, m: GoString, point: Point)
    requires Consistent(g) && Coherent(g) && At(g, point).None?
    requires point in m.stones
    requires forall q :: q in m.stones && q != point ==> ColorAt(g, q) == Some(m.color)
    ensures Coherent(Rebind(g, m))
    ensures StonesOf(Rebind(g, m)) == StonesOf(g) + {(point, m.color)}
    ensures (point, m.color) !in StonesOf(g)
  {
    var g' := Rebind(g, m);
    forall q, s | q in g' && g'[q].Some? && s in g'[q].value.stones
      ensures ColorAt(g', s) == Some(g'[q].value.color)
    {
      RebindAt(g, m, s);
      if q !in m.stones {
        assert ColorAt(g, s) == Some(g[q].value.color);
        if s in m.stones {
          assert s != point;
          assert ColorAt(g, s) == Some(m.color);
        }
      }
    }
    forall x | x in StonesOf(g') ensures x in StonesOf(g) + {(point, m.color)} {
      var q :| q in g' && g'[q].Some? && x == (q, g'[q].value.color);
      if q in m.stones && q != point {
        assert ColorAt(g, q) == Some(m.color);
        assert x in StonesOf(g);
      }
    }
    forall x | x in StonesOf(g) + {(point, m.color)} ensures x in StonesOf(g') {
      if x != (point, m.color) {
        var q :| q in g && g[q].Some? && x == (q, g[q].value.color);
        if q in m.stones {
          assert ColorAt(g, q) == Some(m.color);
        }
        assert q in g' && g'[q].Some? && x == (q, g'[q].value.color);
      } else {
        assert point in g' && g'[point] == Some(m);
      }
    }
  }

  /** Under coherence, the stones of the bound string other than the new
      stone are already the player's. */
  lemma MergedStonesOwn(g: Grid, rows: int, cols: int, player: Player, point: Point)
    requires Coherent(g)
    ensures forall q :: q in Merged(g, rows, cols, player, point).stones && q != point ==> ColorAt(g, q) == Some(player)
  {
    MergedSpec(g, rows, cols, player, point);
    var same := ScanAt(g, rows, cols, player, point).same;
    var ns := point.Neighbors();
    forall q | q in Merged(g, rows, cols, player, point).stones && q != point ensures ColorAt(g, q) == Some(player) {
      var s :| s in same && q in s.stones;
      assert s in Elems(same);
      var i :| 0 <= i < |ns| && IsOwn(g, rows, cols, player, ns[i]) && s == At(g, ns[i]).value;
      assert ns[i] in g && g[ns[i]] == Some(s);
    }
  }

  /** The invariant of the last loop of `place_stone` once the strings of
      `done` are handled, with `m` bound at `point` over `g0`. */
  ghost predicate Placing(g0: Grid, g: Grid, point: Point, m: GoString, done: seq<GoString>) {
    && Consistent(g) && Shapes(g) <= Shapes(g0) + {(m.color, m.stones)}
    && (forall q :: At(g, q).None? ==> (At(g0, q).None? && q != point) || q in RemovedStones(done, point))
    && (Unclaimed(g0, point) ==> Settled(g, point, m, done))
  }

  /** Binding the merged string (lines 206-207) starts the last loop. */
  lemma BindStep(g0: Grid, rows: int, cols: int, player: Player, point: Point)
    requires Consistent(g0)
    ensures Placing(g0, Rebind(g0, Merged(g0, rows, cols, player, point)), point, Merged(g0, rows, cols, player, point), [])
  {
    var m := Merged(g0, rows, cols, player, point);
    MergedSpec(g0, rows, cols, player, point);
    RebindConsistent(g0, m);
    RebindShapes(g0, m);
    forall q | At(Rebind(g0, m), q).None? ensures At(g0, q).None? && q != point {
      RebindAt(g0, m, q);
    }
    RebindAt(g0, m, point);
  }

  /** `a` is stored at a neighbour of `point`. */
  ghost predicate StoredNear(g: Grid, point: Point, a: GoString) {
    exists n :: n in point.Neighbors() && n in g && g[n] == Some(a)
  }

  /** Every string the scan puts in `opp` is of the player's colour and
      stored at a neighbour of `point`. */
  lemma OppStored(g: Grid, rows: int, cols: int, player: Player, point: Point)
    ensures forall a :: a in ScanAt(g, rows, cols, player, point).opp ==> a.color == player && StoredNear(g, point, a)
  {
    var sc := ScanAt(g, rows, cols, player, point);
    ScanSpec(g, rows, cols, player, point.Neighbors());
    var ns := point.Neighbors();
    forall a | a in sc.opp ensures a.color == player && StoredNear(g, point, a) {
      assert a in Elems(sc.same);
      var i :| 0 <= i < |ns| && IsOwn(g, rows, cols, player, ns[i]) && a == At(g, ns[i]).value;
      assert ns[i] in ns && ns[i] in g && g[ns[i]] == Some(a);
    }
  }

  /** A scanned string that keeps a liberty is rebound without `point`. */
  lemma KeepStep(g0: Grid, g: Grid, point: Point, m: GoString, xs: seq<GoString>, k: int)
    requires 0 <= k < |xs|
    requires Placing(g0, g, point, m, xs[..k])
    requires StoredNear(g0, point, xs[k]) && !Exhausted(xs[k], point)
    ensures Placing(g0, Rebind(g, xs[k].WithoutLiberty(point)), point, m, xs[..k + 1])
  {
    var a := xs[k];
    var r := a.WithoutLiberty(point);
    var g' := Rebind(g, r);
    var n :| n in point.Neighbors() && n in g0 && g0[n] == Some(a);
    assert Consistent(g') by {
      RebindConsistent(g, r);
    }
    assert Shapes(g') <= Shapes(g0) + {(m.color, m.stones)} by {
      ShapeOf(g0, n);
      RebindShapes(g, r);
    }
    assert forall q :: At(g', q).None? ==> (At(g0, q).None? && q != point) || q in RemovedStones(xs[..k + 1], point) by {
      RemovedSnoc(xs, k, point);
      forall q | At(g', q).None? ensures At(g, q).None? {
        RebindAt(g, r, q);
      }
    }
    assert Unclaimed(g0, point) ==> Settled(g', point, m, xs[..k + 1]) by {
      if Unclaimed(g0, point) {
        RemovedSnoc(xs, k, point);
        RebindClaimsOutside(g, point, At(g, point).value, r);
      }
    }
  }

  /** A scanned string whose last liberty was `point` is removed. */
  lemma DropStep(g0: Grid, g: Grid, g': Grid, point: Point, m: GoString, xs: seq<GoString>, k: int)
    requires Consistent(g0)
    requires 0 <= k < |xs|
    requires Placing(g0, g, point, m, xs[..k])
    requires StoredNear(g0, point, xs[k]) && Exhausted(xs[k], point)
    requires Consistent(g') && Shapes(g') <= Shapes(g)
    requires forall q :: At(g', q).None? ==> At(g, q).None? || q in xs[k].stones
    requires Anchored(g, point, xs[k]) ==> Grown(g, g', point, xs[k].stones, xs[k].stones)
    ensures Placing(g0, g', point, m, xs[..k + 1])
  {
    var a := xs[k];
    assert forall q :: At(g', q).None? ==> (At(g0, q).None? && q != point) || q in RemovedStones(xs[..k + 1], point) by {
      RemovedSnoc(xs, k, point);
    }
    assert Unclaimed(g0, point) ==> Settled(g', point, m, xs[..k + 1]) by {
      if Unclaimed(g0, point) {
        RemovedSnoc(xs, k, point);
        var n :| n in point.Neighbors() && n in g0 && g0[n] == Some(a);
        assert n in a.stones;
        assert Anchored(g, point, a);
        NeighborsSymmetric(point, n);
        assert n in At(g', point).value.liberties;
      }
    }
  }

  lemma KeepHash(h: Bits, xs: seq<GoString>, k: int, point: Point)
    requires 0 <= k < |xs| && !Exhausted(xs[k], point)
    ensures Xor(h, RemovedXor(xs[..k + 1], point)) == Xor(h, RemovedXor(xs[..k], point))
  {
    RemovedXorSnoc(xs, k, point);
    XorZero(RemovedXor(xs[..k], point));
  }

  lemma DropHash(h: Bits, xs: seq<GoString>, k: int, point: Point, h1: Bits, h2: Bits)
    requires 0 <= k < |xs| && Exhausted(xs[k], point)
    requires h1 == Xor(h, RemovedXor(xs[..k], point))
    requires h2 == Xor(h1, XorAll(Tagged(xs[k].stones, xs[k].color)))
    ensures h2 == Xor(h, RemovedXor(xs[..k + 1], point))
  {
    RemovedXorSnoc(xs, k, point);
    XorAssoc(h, RemovedXor(xs[..k], point), XorAll(Tagged(xs[k].stones, xs[k].color)));
  }

  /** With nothing to rebind or remove, placing a stone keeps every stone of
      every stored string occupied in its colour and XORs exactly the new
      stone into the hash. */
  lemma PlaceKeepsWellFormed(g0: Grid, h0: Bits, rows: int, cols: int, player: Player, point: Point)
    requires Consistent(g0) && Coherent(g0) && At(g0, point).None?
    requires h0 == Xor(EMPTY_BOARD, XorAll(StonesOf(g0)))
    ensures var g := Rebind(g0, Merged(g0, rows, cols, player, point));
      Coherent(g) && Xor(h0, HASH_CODE(point, player)) == Xor(EMPTY_BOARD, XorAll(StonesOf(g)))
  {
    var m := Merged(g0, rows, cols, player, point);
    MergedSpec(g0, rows, cols, player, point);
    MergedStonesOwn(g0, rows, cols, player, point);
    BindKeepsCoherent(g0, m, point);
    XorAllAdd(StonesOf(g0), (point, player));
    XorAssoc(EMPTY_BOARD, XorAll(StonesOf(g0)), HASH_CODE(point, player));
  }

  /** On a coherent board an empty point is listed by no stored string. */
  lemma CoherentUnclaimed(g: Grid, p: Point)
    requires Coherent(g) && At(g, p).None?
    ensures Unclaimed(g, p)
  {
    assert ColorAt(g, p) == None;
  }

  /** Over a coherent grid, a point occupied after rebinding only to
      strings of known shapes, or to one extra shape, was occupied in the
      same colour or belongs to the extra shape. */
  lemma CoveredColor(g0: Grid, g: Grid, q: Point, c: Player, stones: set<Point>)
    requires Consistent(g) && Coherent(g0) && Shapes(g) <= Shapes(g0) + {(c, stones)}
    ensures At(g, q).Some? ==>
      ColorAt(g0, q) == Some(At(g, q).value.color) || (At(g, q).value.color == c && q in stones)
  {
    if At(g, q).Some? {
      ShapeOf(g, q);
      var t := At(g, q).value;
      if (t.color, t.stones) in Shapes(g0) {
        var q' :| q' in g0 && g0[q'].Some? && (t.color, t.stones) == (g0[q'].value.color, g0[q'].value.stones);
        assert ColorAt(g0, q) == Some(t.color);
      }
    }
  }

  /** On a coherent board, what `place_stone` leaves behind: `point` holds
      the player's colour, no other empty point becomes occupied, and no
      stone of the opponent is cleared or recoloured. */
  lemma PlaceColours(g0: Grid, g: Grid, rows: int, cols: int, player: Player, point: Point)
    requires Consistent(g0) && Coherent(g0) && At(g0, point).None?
    requires Placing(g0, g, point, Merged(g0, rows, cols, player, point), ScanAt(g0, rows, cols, player, point).opp)
    ensures ColorAt(g, point) == Some(player)
    ensures forall q :: q != point && At(g0, q).None? ==> At(g, q).None?
    ensures forall q :: ColorAt(g0, q) == Some(player.Other()) ==> ColorAt(g, q) == Some(player.Other())
  {
    var m := Merged(g0, rows, cols, player, point);
    var opp := ScanAt(g0, rows, cols, player, point).opp;
    MergedSpec(g0, rows, cols, player, point);
    MergedStonesOwn(g0, rows, cols, player, point);
    CoherentUnclaimed(g0, point);
    OppStored(g0, rows, cols, player, point);
    forall q | q != point && At(g0, q).None? ensures At(g, q).None? {
      assert ColorAt(g0, q) == None;
      CoveredColor(g0, g, q, m.color, m.stones);
    }
    forall q | ColorAt(g0, q) == Some(player.Other()) ensures ColorAt(g, q) == Some(player.Other()) {
      CoveredColor(g0, g, q, m.color, m.stones);
    }
  }

  /** The merge loop of `place_stone` (lines 203-204). */
  method MergeStrings(base: GoString, same: seq<GoString>) returns (r: GoString)
    requires forall s :: s in same ==> s.color == base.color
    ensures r == MergeAll(base, same)
  {
    r := base;
    var k := 0;
    while k < |same|
      invariant 0 <= k <= |same| && r.color == base.color
      invariant MergeAll(r, same[k..]) == MergeAll(base, same)
    {
      assert same[k..][0] == same[k] && same[k..][1..] == same[k + 1..];
      r := r.MergeWith(same[k]);
      k := k + 1;
    }
    assert same[k..] == [];
  }

  // ---------------------------------------------------------------------
  // Board

  class Board {
    const numRows: int
    const numCols: int
    /** `_grid`. */
    var grid: Grid
    /** `_hash`. */
    var hash: Bits

    /** What every operation keeps: each stored string lists its own point. */
    ghost predicate Valid()
      reads this
    {
      Consistent(grid)
    }

    /** The intended board invariant: each stored string's stones are
        occupied in its colour, and the hash is the XOR, over the occupied
        points, of their codes, into the empty-board code. */
    ghost predicate WellFormed()
      reads this
    {
      Consistent(grid) && Coherent(grid) && hash == Xor(EMPTY_BOARD, XorAll(StonesOf(grid)))
    }

    /** `Board(num_rows, num_cols)`: an empty board. */
    constructor (numRows: int, numCols: int)
      ensures this.numRows == numRows && this.numCols == numCols
      ensures grid == map[] && hash == EMPTY_BOARD
      ensures WellFormed()
    {
      this.numRows := numRows;
      this.numCols := numCols;
      grid := map[];
      hash := EMPTY_BOARD;
      new;
      assert StonesOf(grid) == {};
      XorZero(EMPTY_BOARD);
    }

    /** `copy.deepcopy(board)`: strings are values, so copying the fields
        is a deep copy. */
    constructor Copy(other: Board)
      ensures numRows == other.numRows && numCols == other.numCols
      ensures grid == other.grid && hash == other.hash
    {
      numRows := other.numRows;
      numCols := other.numCols;
      grid := other.grid;
      hash := other.hash;
    }

    /** `is_on_grid`. */
    predicate IsOnGrid(p: Point)
      ensures IsOnGrid(p) ==> 1 <= numRows && 1 <= numCols
    {
      OnGrid(numRows, numCols, p)
    }

    /** `get`: the colour of the string stored at `p`. */
    function Get(p: Point): (r: Option<Player>)
      reads this
      ensures r.None? <==> (p !in grid || grid[p].None?)
      ensures r.Some? ==> r.value == grid[p].value.color
    {
      ColorAt(grid, p)
    }

    /** `get_go_string`. */
    function GetGoString(p: Point): (r: Option<GoString>)
      reads this
      ensures r.None? <==> Get(p).None?
      ensures r.Some? ==> Get(p) == Some(r.value.color)
      ensures Valid() && r.Some? ==> p in r.value.stones
    {
      At(grid, p)
    }

    /** `zobrist_hash`. */
    function ZobristHash(): (r: Bits)
      reads this
      ensures WellFormed() ==> r == Xor(EMPTY_BOARD, XorAll(StonesOf(grid)))
    {
      hash
    }

    /** `_replace_string`: bind every stone of `s` to `s`. */
    method ReplaceString(s: GoString)
      modifies this
      ensures grid == Rebind(old(grid), s)
      ensures hash == old(hash)
    {
      var rest := s.stones;
      while rest != {}
        invariant rest <= s.stones
        invariant grid == RebindOn(old(grid), s.stones - rest, s)
        invariant hash == old(hash)
        decreases rest
      {
        var q :| q in rest;
        RebindOnStep(old(grid), s.stones - rest, s, q);
        assert s.stones - (rest - {q}) == (s.stones - rest) + {q};
        grid := grid[q := Some(s)];
        rest := rest - {q};
      }
      assert s.stones - rest == s.stones;
    }

    /** `_remove_string`: for each stone of `s`, in an arbitrary order, give
        it as a liberty to every neighbouring stored string other than `s`,
        then clear it and XOR its code out of the hash. `point` names a
        point whose string the caller follows; it does not affect the run.

        The source compares by identity (`is not`); the model compares the
        values. */
    method RemoveString(s: GoString, ghost point: Point)
      requires Valid()
      modifies this
      ensures Valid()
      ensures Shapes(grid) <= old(Shapes(grid))
      ensures forall q :: At(grid, q).None? ==> old(At(grid, q)).None? || q in s.stones
      ensures hash == Xor(old(hash), XorAll(Tagged(s.stones, s.color)))
      ensures old(Anchored(grid, point, s)) ==> Grown(old(grid), grid, point, s.stones, s.stones)
    {
      ghost var g0 := grid;
      ghost var anchored := Anchored(grid, point, s);
      var rest := s.stones;
      ghost var done: set<Point> := {};
      assert Tagged(done, s.color) == {};
      XorZero(hash);
      while rest != {}
        invariant done <= s.stones && rest == s.stones - done
        invariant Removing(g0, grid, point, s, done, anchored)
        invariant hash == Xor(old(hash), XorAll(Tagged(done, s.color)))
        decreases rest
      {
        var pt :| pt in rest;
        RemoveStone(s, pt, point, g0, done, anchored, old(hash));
        done := done + {pt};
        rest := rest - {pt};
      }
      assert done == s.stones;
    }

    /** One iteration of the loop of `_remove_string` (lines 283-293): free
        the neighbours of the stone `pt`, clear it and XOR its code out. */
    method RemoveStone(s: GoString, pt: Point, ghost point: Point, ghost g0: Grid, ghost done: set<Point>,
                       ghost anchored: bool, ghost h: Bits)
      requires pt in s.stones && pt !in done
      requires Removing(g0, grid, point, s, done, anchored)
      requires hash == Xor(h, XorAll(Tagged(done, s.color)))
      modifies this
      ensures Removing(g0, grid, point, s, done + {pt}, anchored)
      ensures hash == Xor(h, XorAll(Tagged(done + {pt}, s.color)))
    {
      FreeNeighbors(s, pt, point, g0, done, anchored);
      ClearStep(g0, grid, pt, point, s, done, anchored);
      HashStep(h, done, pt, s.color);
      grid := grid[pt := None];
      hash := Xor(hash, HASH_CODE(pt, s.color));
    }

    /** The inner loop of `_remove_string` (lines 283-289): every stored
        string on a neighbour of the stone `pt`, other than `s`, is rebound
        with `pt` as a further liberty. */
    method FreeNeighbors(s: GoString, pt: Point, ghost point: Point, ghost g0: Grid, ghost done: set<Point>, ghost anchored: bool)
      requires pt in s.stones
      requires Removing(g0, grid, point, s, done, anchored)
      modifies this
      ensures Removing(g0, grid, point, s, done, anchored) && Visited(grid, point, pt, 4, anchored)
      ensures hash == old(hash)
    {
      var ns := pt.Neighbors();
      var j := 0;
      while j < 4
        invariant 0 <= j <= 4
        invariant Removing(g0, grid, point, s, done, anchored) && Visited(grid, point, pt, j, anchored)
        invariant hash == old(hash)
      {
        var neighborString := At(grid, ns[j]);
        if neighborString.Some? && neighborString.value != s {
          LibertyStep(g0, grid, j, pt, point, s, done, anchored);
          ReplaceString(neighborString.value.WithLiberty(pt));
        } else {
          SkipStep(g0, grid, j, pt, point, s, done, anchored);
        }
        j := j + 1;
      }
    }

    /** The neighbour scan of `place_stone` (lines 185-198). */
    method CollectNeighbors(player: Player, point: Point) returns (sc: Scan)
      ensures sc == ScanAt(grid, numRows, numCols, player, point)
    {
      var ns := point.Neighbors();
      var same: seq<GoString> := [];
      var opp: seq<GoString> := [];
      var libs: seq<Point> := [];
      var j := 0;
      while j < 4
        invariant 0 <= j <= 4
        invariant Scan(same, opp, libs) == ScanNeighbors(grid, numRows, numCols, player, ns[..j])
      {
        var neighbor := ns[j];
        assert ns[..j + 1][..j] == ns[..j];
        if IsOnGrid(neighbor) {
          var neighborString := At(grid, neighbor);
          if neighborString.None? {
            libs := libs + [neighbor];
          } else if neighborString.value.color == player {
            if neighborString.value !in same {
              same := same + [neighborString.value];
            } else if neighborString.value !in opp {
              opp := opp + [neighborString.value];
            }
          }
        }
        j := j + 1;
      }
      assert ns[..4] == ns;
      sc := Scan(same, opp, libs);
    }

    /** The last loop of `place_stone` (lines 212-217): each listed string
        loses `point` as a liberty, and is rebound if a liberty is left and
        removed otherwise. */
    method ReduceTouched(opp: seq<GoString>, point: Point, ghost g0: Grid, ghost m: GoString)
      requires Consistent(g0) && Placing(g0, grid, point, m, [])
      requires forall a :: a in opp ==> StoredNear(g0, point, a)
      modifies this
      ensures Placing(g0, grid, point, m, opp)
      ensures hash == Xor(old(hash), RemovedXor(opp, point))
      ensures opp == [] ==> grid == old(grid)
    {
      XorZero(hash);
      assert opp[..0] == [];
      var k := 0;
      while k < |opp|
        invariant 0 <= k <= |opp|
        invariant Placing(g0, grid, point, m, opp[..k])
        invariant hash == Xor(old(hash), RemovedXor(opp[..k], point))
        invariant k == 0 ==> grid == old(grid)
      {
        ReduceOne(opp, k, point, g0, m, old(hash));
        k := k + 1;
      }
      assert opp[..k] == opp;
    }

    /** The body of that loop for the `k`-th listed string (lines 213-217). */
    method ReduceOne(opp: seq<GoString>, k: int, point: Point, ghost g0: Grid, ghost m: GoString, ghost h: Bits)
      requires Consistent(g0) && 0 <= k < |opp|
      requires Placing(g0, grid, point, m, opp[..k]) && StoredNear(g0, point, opp[k])
      requires hash == Xor(h, RemovedXor(opp[..k], point))
      modifies this
      ensures Placing(g0, grid, point, m, opp[..k + 1])
      ensures hash == Xor(h, RemovedXor(opp[..k + 1], point))
    {
      var other := opp[k];
      ghost var g := grid;
      var replacement := other.WithoutLiberty(point);
      if replacement.NumLiberties() != 0 {
        KeepStep(g0, grid, point, m, opp, k);
        KeepHash(h, opp, k, point);
        ReplaceString(other.WithoutLiberty(point));
      } else {
        ghost var h1 := hash;
        RemoveString(other, point);
        DropStep(g0, g, grid, point, m, opp, k);
        DropHash(h, opp, k, point, h1, hash);
      }
    }

    /** `place_stone` as written: its two assertions fail on an off-grid
        or occupied point and change nothing. */
    method PlaceStone(player: Player, point: Point) returns (o: Outcome)
      requires Valid()
      modifies this
      ensures o.Pass? <==> IsOnGrid(point) && old(At(grid, point)).None?
      ensures o.Fail? ==> o.error == AssertionError && grid == old(grid) && hash == old(hash)
      ensures Valid()
      ensures o.Pass? ==> Shapes(grid) <= old(Shapes(grid)) + {(player, Merged(old(grid), numRows, numCols, player, point).stones)}
      ensures o.Pass? ==> forall q :: At(grid, q).None? ==>
        (old(At(grid, q)).None? && q != point) || q in RemovedStones(ScanAt(old(grid), numRows, numCols, player, point).opp, point)
      ensures o.Pass? ==> hash == Xor(Xor(old(hash), HASH_CODE(point, player)),
                          RemovedXor(ScanAt(old(grid), numRows, numCols, player, point).opp, point))
      ensures o.Pass? ==> NoDoubleTouch(old(grid), numRows, numCols, player, point) ==>
        grid == Rebind(old(grid), Merged(old(grid), numRows, numCols, player, point)) &&
        hash == Xor(old(hash), HASH_CODE(point, player))
      ensures o.Pass? ==> old(Unclaimed(grid, point)) ==>
        Settled(grid, point, Merged(old(grid), numRows, numCols, player, point),
                ScanAt(old(grid), numRows, numCols, player, point).opp)
      ensures o.Pass? ==> old(WellFormed()) && NoDoubleTouch(old(grid), numRows, numCols, player, point) ==> WellFormed()
      ensures o.Pass? ==> old(Coherent(grid)) ==> Get(point) == Some(player)
      ensures o.Pass? ==> old(Coherent(grid)) ==> forall q :: q != point && old(Get(q)).None? ==> Get(q).None?
      ensures o.Pass? ==> old(Coherent(grid)) ==> forall q :: old(Get(q)) == Some(player.Other()) ==> Get(q) == Some(player.Other())
    {
      if !IsOnGrid(point) || At(grid, point).Some? {
        return Fail(AssertionError);
      }
      o := Pass;
      ghost var g0 := grid;
      ghost var h0 := hash;
      var sc := CollectNeighbors(player, point);
      var same, opp, libs := sc.same, sc.opp, sc.libs;
      ghost var m := Merged(g0, numRows, numCols, player, point);
      MergedSpec(g0, numRows, numCols, player, point);
      ScanSpec(g0, numRows, numCols, player, point.Neighbors());
      var newString := MergeStrings(GoString(player, {point}, Elems(libs)), same);

      BindStep(g0, numRows, numCols, player, point);
      OppStored(g0, numRows, numCols, player, point);
      ReplaceString(newString);
      hash := Xor(hash, HASH_CODE(point, player));
      ReduceTouched(opp, point, g0, m);
      NoDoubleTouchIff(g0, numRows, numCols, player, point);
      if opp == [] {
        XorZero(hash);
      }
      if Coherent(g0) {
        PlaceColours(g0, grid, numRows, numCols, player, point);
        if h0 == Xor(EMPTY_BOARD, XorAll(StonesOf(g0))) && opp == [] {
          PlaceKeepsWellFormed(g0, h0, numRows, numCols, player, point);
        }
      }
    }
  }
}
