/** Leaf types of the rules engine: the two players and board coordinates
    (dlgo/gotypes.py). */
module GoTypes {

  /** `Player` enumeration: black = 1, white = 2. */
  datatype Player = Black | White {

    /** The opponent's colour (`Player.other`). */
    function Other(): (r: Player)
      ensures r != this
      ensures r == Black <==> this == White
    {
      if this == White then Black else White
    }
  }

  /** A 1-indexed `(row, col)` coordinate; equality is structural as for the
      source's namedtuple. Rows and columns are unbounded integers. */
  datatype Point = Point(row: int, col: int) {

    /** The four orthogonal neighbours, in the source's order, with no
        bounds filtering. */
    function Neighbors(): (ns: seq<Point>)
      ensures |ns| == 4
      ensures forall i :: 0 <= i < 4 ==> Adjacent(this, ns[i])
      ensures forall i, j :: 0 <= i < j < 4 ==> ns[i] != ns[j]
    {
      [Point(row - 1, col), Point(row + 1, col), Point(row, col - 1), Point(row, col + 1)]
    }
  }

  function Abs(x: int): nat { if x < 0 then -x else x }

  /** Reference definition of orthogonal adjacency: the points differ by
      exactly one in exactly one coordinate. */
  predicate Adjacent(p: Point, q: Point) {
    Abs(p.row - q.row) + Abs(p.col - q.col) == 1
  }

  /** `Other` is an involution. */
  lemma OtherInvolution(p: Player)
    ensures p.Other().Other() == p
    ensures p.Other() != p
  {
  }

  /** The neighbour list holds exactly the adjacent points. */
  lemma NeighborsAreAdjacent(p: Point, q: Point)
    ensures q in p.Neighbors() <==> Adjacent(p, q)
  {
    if Adjacent(p, q) {
      var ns := p.Neighbors();
      if q.row == p.row - 1 { assert q == ns[0]; }
      else if q.row == p.row + 1 { assert q == ns[1]; }
      else if q.col == p.col - 1 { assert q == ns[2]; }
      else { assert q == ns[3]; }
    }
  }

  /** Neighbourhood is symmetric and irreflexive. */
  lemma NeighborsSymmetric(p: Point, q: Point)
    ensures q in p.Neighbors() <==> p in q.Neighbors()
    ensures p !in p.Neighbors()
  {
    NeighborsAreAdjacent(p, q);
    NeighborsAreAdjacent(q, p);
    NeighborsAreAdjacent(p, p);
  }
}
