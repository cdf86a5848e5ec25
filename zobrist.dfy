/** The Zobrist code table of `dlgo.zobrist`, which is not part of this model.
    Both constants are left without a value: the model fixes some code per
    (point, player) and some empty-board code, and assumes nothing else about
    them (in particular, not that the codes are distinct). A code or hash,
    a non-negative Python integer, is represented by the set of positions of
    its one bits, on which `^` is the symmetric difference. */
module Zobrist {
  import opened GoTypes

  /** `zobrist.HASH_CODE[point, player]`. */
  const HASH_CODE: (Point, Player) -> Bits

  /** `zobrist.EMPTY_BOARD`. */
  const EMPTY_BOARD: Bits

  /** A code or hash, as the set of positions of its one bits. */
  type Bits = set<nat>

  /** Python's `^`: a bit is set in the result when it is set in exactly
      one operand. */
  function Xor(a: Bits, b: Bits): Bits {
    (a - b) + (b - a)
  }

  /** XOR of the codes of a finite set of (point, colour) pairs. */
  ghost function XorAll(s: set<(Point, Player)>): Bits
    decreases |s|
  {
    if s == {} then {}
    else
      var x :| x in s;
      Xor(HASH_CODE(x.0, x.1), XorAll(s - {x}))
  }

  /** Any element can be folded in first: the order in which the codes are
      combined does not matter. */
  lemma {:induction false} XorAllRemove(s: set<(Point, Player)>, x: (Point, Player))
    requires x in s
    ensures XorAll(s) == Xor(HASH_CODE(x.0, x.1), XorAll(s - {x}))
    decreases |s|, 1
  {
    var y :| y in s && XorAll(s) == Xor(HASH_CODE(y.0, y.1), XorAll(s - {y}));
    if y != x {
      XorAllSwap(s, x, y);
    }
  }

  lemma {:induction false} XorAllSwap(s: set<(Point, Player)>, x: (Point, Player), y: (Point, Player))
    requires x in s && y in s && x != y
    requires XorAll(s) == Xor(HASH_CODE(y.0, y.1), XorAll(s - {y}))
    ensures XorAll(s) == Xor(HASH_CODE(x.0, x.1), XorAll(s - {x}))
    decreases |s|, 0
  {
    var rest := s - {x} - {y};
    assert s - {y} - {x} == rest;
    XorAllRemove(s - {y}, x);
    XorAllRemove(s - {x}, y);
    XorRegroup(HASH_CODE(x.0, x.1), HASH_CODE(y.0, y.1), XorAll(rest), XorAll(s), XorAll(s - {y}), XorAll(s - {x}));
  }

  lemma XorRegroup(a: Bits, b: Bits, c: Bits, t: Bits, u: Bits, v: Bits)
    requires t == Xor(b, u) && u == Xor(a, c) && v == Xor(b, c)
    ensures t == Xor(a, v)
  {
    XorAssoc(b, a, c);
    XorComm(b, a);
    XorAssoc(a, b, c);
  }

  /** Adding a pair that is not yet present XORs in its code. */
  lemma XorAllAdd(s: set<(Point, Player)>, x: (Point, Player))
    requires x !in s
    ensures XorAll(s + {x}) == Xor(XorAll(s), HASH_CODE(x.0, x.1))
  {
    XorAllRemove(s + {x}, x);
    assert s + {x} - {x} == s;
    XorComm(XorAll(s), HASH_CODE(x.0, x.1));
  }

  lemma XorComm(a: Bits, b: Bits)
    ensures Xor(a, b) == Xor(b, a)
  {
  }

  lemma XorAssoc(a: Bits, b: Bits, c: Bits)
    ensures Xor(Xor(a, b), c) == Xor(a, Xor(b, c))
  {
  }

  /** Zero (no bits set) is the identity. */
  lemma XorZero(a: Bits)
    ensures Xor(a, {}) == a && Xor({}, a) == a
  {
  }

  /** The stones of one colour as (point, colour) pairs. */
  function Tagged(stones: set<Point>, c: Player): (r: set<(Point, Player)>)
    ensures forall p :: (p, c) in r <==> p in stones
    ensures forall x :: x in r ==> x.1 == c
  {
    set p | p in stones :: (p, c)
  }
}
