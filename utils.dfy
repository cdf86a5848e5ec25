/** Coordinate text of dlgo/utils.py: the column letters, the stone
    characters, `point_from_coords`, and the strings `print_move` and
    `print_board` print (the printing itself is not modelled). */
module Utils {
  import opened Wrappers
  import opened GoTypes
  import GoBoard

  /** `COLS`: the column letters, A to T without I. */
  const COLS: string := "ABCDEFGHJKLMNOPQRST"

  /** `STONE_TO_CHAR`. */
  const STONE_TO_CHAR: map<Option<Player>, string> := map[None := " . ", Some(Black) := " x ", Some(White) := " o "]

  lemma ColsLetters()
    ensures |COLS| == 19 && 'I' !in COLS
    ensures forall i :: 0 <= i < 19 ==> 'A' <= COLS[i] <= 'T'
    ensures forall i, j :: 0 <= i < j < 19 ==> COLS[i] != COLS[j]
  {
  }

  /** Every colour has a three-character cell whose middle character tells
      the colours apart. */
  lemma StoneChars(s: Option<Player>)
    ensures s in STONE_TO_CHAR && |STONE_TO_CHAR[s]| == 3
    ensures STONE_TO_CHAR[s][0] == ' ' && STONE_TO_CHAR[s][2] == ' '
    ensures STONE_TO_CHAR[s][1] == (match s case None => '.' case Some(Black) => 'x' case Some(White) => 'o')
  {
    match s
    case None => assert STONE_TO_CHAR[s] == " . ";
    case Some(Black) => assert STONE_TO_CHAR[s] == " x ";
    case Some(White) => assert STONE_TO_CHAR[s] == " o ";
  }

  // ---------------------------------------------------------------------
  // Decimal integers: `str(n)` and `int(s)`.

  predicate IsDigit(c: char) {
    '0' <= c <= '9'
  }

  predicate AllDigits(s: string) {
    forall i :: 0 <= i < |s| ==> IsDigit(s[i])
  }

  function DigitChar(d: nat): (c: char)
    requires d < 10
    ensures IsDigit(c)
  {
    ('0' as int + d) as char
  }

  function DigitValue(c: char): (d: nat)
    requires IsDigit(c)
    ensures d < 10 && DigitChar(d) == c
  {
    c as int - '0' as int
  }

  /** The value of a string of decimal digits. */
  function ParseDigits(s: string): nat
    requires AllDigits(s)
  {
    if s == [] then 0 else ParseDigits(s[..|s| - 1]) * 10 + DigitValue(s[|s| - 1])
  }

  /** `str(n)` for `n >= 0`: the shortest decimal numeral. */
  function ShowNat(n: nat): (s: string)
    ensures |s| >= 1 && AllDigits(s)
    ensures |s| > 1 ==> s[0] != '0'
  {
    if n < 10 then [DigitChar(n)] else ShowNat(n / 10) + [DigitChar(n % 10)]
  }

  /** `str(n)`. */
  function ShowInt(n: int): string {
    if n < 0 then "-" + ShowNat(-n) else ShowNat(n)
  }

  /** `int(s)` on a numeral: optional sign, at least one digit. Other
      strings raise `ValueError`. */
  function ParseInt(s: string): (r: Result<int>)
    ensures r.Err? ==> r.error == ValueError
  {
    if |s| >= 2 && s[0] == '-' && AllDigits(s[1..]) then Ok(0 - ParseDigits(s[1..]) as int)
    else if |s| >= 2 && s[0] == '+' && AllDigits(s[1..]) then Ok(ParseDigits(s[1..]))
    else if |s| >= 1 && AllDigits(s) then Ok(ParseDigits(s))
    else Err(ValueError)
  }

  lemma {:induction false} ParseShowNat(n: nat)
    ensures ParseDigits(ShowNat(n)) == n
  {
    if n >= 10 {
      ParseShowNat(n / 10);
      var s := ShowNat(n);
      assert s[..|s| - 1] == ShowNat(n / 10);
    }
  }

  /** `int(str(n)) == n`. */
  lemma ParseShowInt(n: int)
    ensures ParseInt(ShowInt(n)) == Ok(n)
  {
    var s := ShowInt(n);
    if n < 0 {
      var digits := ShowNat(-n);
      ParseShowNat(-n);
      assert s == "-" + digits && s[1..] == digits;
      assert |s| >= 2 && s[0] == '-' && AllDigits(s[1..]);
    } else {
      ParseShowNat(n);
      assert IsDigit(s[0]) && AllDigits(s);
      assert !(s[0] == '-' || s[0] == '+');
    }
  }

  /** A numeral `str` can produce: no sign but `-`, no leading zero, no
      `-0`. */
  predicate Canonical(s: string) {
    if |s| >= 1 && s[0] == '-' then
      |s| >= 2 && AllDigits(s[1..]) && s[1] != '0'
    else
      |s| >= 1 && AllDigits(s) && (|s| == 1 || s[0] != '0')
  }

  lemma {:induction false} LeadingDigitPositive(s: string)
    requires |s| >= 1 && AllDigits(s) && s[0] != '0'
    ensures ParseDigits(s) >= 1
  {
    if |s| > 1 {
      LeadingDigitPositive(s[..|s| - 1]);
    }
  }

  lemma {:induction false} ShowParseDigits(s: string)
    requires |s| >= 1 && AllDigits(s) && (|s| == 1 || s[0] != '0')
    ensures ShowNat(ParseDigits(s)) == s
  {
    if |s| > 1 {
      var pre := s[..|s| - 1];
      ShowParseDigits(pre);
      LeadingDigitPositive(pre);
      var n := ParseDigits(s);
      assert n / 10 == ParseDigits(pre) && n % 10 == DigitValue(s[|s| - 1]);
      assert s == pre + [s[|s| - 1]];
    }
  }

  /** `str(int(s)) == s` for every numeral `str` can produce. */
  lemma ShowParseInt(s: string)
    requires Canonical(s)
    ensures ParseInt(s).Ok? && ShowInt(ParseInt(s).value) == s
  {
    if s[0] == '-' {
      ShowParseDigits(s[1..]);
      LeadingDigitPositive(s[1..]);
      assert s == "-" + s[1..];
    } else {
      ShowParseDigits(s);
    }
  }

  // ---------------------------------------------------------------------
  // Coordinates.

  /** `s.index(c)`: the first position of `c`, or `None` for the
      `ValueError`. */
  function IndexOf(s: string, c: char): (r: Option<nat>)
    ensures r.Some? ==> r.value < |s| && s[r.value] == c && forall k :: 0 <= k < r.value ==> s[k] != c
    ensures r.None? <==> c !in s
  {
    if s == [] then None
    else if s[0] == c then Some(0)
    else
      match IndexOf(s[1..], c)
      case None => None
      case Some(i) => Some(i + 1)
  }

  /** `COLS[col - 1]`, with Python's indexing from the end for negative
      positions. */
  function ColumnLetter(col: int): (r: Result<char>)
    ensures 1 <= col <= 19 ==> r == Ok(COLS[col - 1])
    ensures r.Err? <==> !(-18 <= col <= 19)
    ensures r.Err? ==> r.error == IndexError
  {
    var i := col - 1;
    if 0 <= i < |COLS| then Ok(COLS[i])
    else if -|COLS| <= i < 0 then Ok(COLS[|COLS| + i])
    else Err(IndexError)
  }

  /** `point_from_coords`: the first character names the column, the rest
      is the row. */
  function PointFromCoords(coords: string): (r: Result<Point>)
    ensures coords == [] ==> r == Err(IndexError)
    ensures coords != [] && coords[0] !in COLS ==> r == Err(ValueError)
    ensures r.Ok? ==> 1 <= r.value.col <= 19 && COLS[r.value.col - 1] == coords[0]
    ensures r.Ok? ==> ParseInt(coords[1..]) == Ok(r.value.row)
    ensures coords != [] && coords[0] in COLS && ParseInt(coords[1..]).Ok? ==> r.Ok?
    ensures coords != [] && ParseInt(coords[1..]).Err? ==> r == Err(ValueError)
  {
    if coords == [] then Err(IndexError)
    else
      match IndexOf(COLS, coords[0])
      case None => Err(ValueError)
      case Some(i) =>
        match ParseInt(coords[1..])
        case Err(e) => Err(e)
        case Ok(row) => Ok(Point(row, i + 1))
  }

  /** The text of a play: column letter, then the decimal row. */
  function PointText(p: Point): (r: Result<string>)
    ensures r.Err? <==> !(-18 <= p.col <= 19)
    ensures r.Err? ==> r.error == IndexError
  {
    match ColumnLetter(p.col)
    case Err(e) => Err(e)
    case Ok(letter) => Ok([letter] + ShowInt(p.row))
  }

  /** `move_str` of `print_move`. */
  function MoveText(move: GoBoard.Move): (r: Result<string>)
    ensures move.isPass ==> r == Ok("passes")
    ensures !move.isPass && move.isResign ==> r == Ok("resigns")
    ensures !move.isPass && !move.isResign ==> move.point.Some? && r == PointText(move.point.value)
  {
    GoBoard.MoveKinds(move);
    if move.isPass then Ok("passes")
    else if move.isResign then Ok("resigns")
    else PointText(move.point.value)
  }

  /** Reading back the text of a play on columns A to T gives the point. */
  lemma PointTextRoundTrip(p: Point)
    requires 1 <= p.col <= 19
    ensures PointText(p).Ok? && PointFromCoords(PointText(p).value) == Ok(p)
  {
    ColsLetters();
    var s := PointText(p).value;
    assert s[1..] == ShowInt(p.row);
    ParseShowInt(p.row);
    var i := IndexOf(COLS, s[0]);
    assert i == Some(p.col - 1);
  }

  /** Writing out the point a canonical coordinate string denotes gives
      the string back. */
  lemma CoordsRoundTrip(coords: string)
    requires PointFromCoords(coords).Ok? && Canonical(coords[1..])
    ensures PointText(PointFromCoords(coords).value) == Ok(coords)
  {
    var p := PointFromCoords(coords).value;
    ShowParseInt(coords[1..]);
    assert coords == [coords[0]] + coords[1..];
  }

  /** The text `print_move` shows for a play of a point on columns A to T
      reads back as that point. */
  lemma PlayTextRoundTrip(p: Point)
    requires 1 <= p.col <= 19
    ensures MoveText(GoBoard.Play(p)) == PointText(p)
    ensures PointFromCoords(MoveText(GoBoard.Play(p)).value) == Ok(p)
  {
    PointTextRoundTrip(p);
  }

  // ---------------------------------------------------------------------
  // Board lines.

  /** `bump`, the row number and the space before the cells. */
  function RowLabel(row: int): string {
    (if row <= 9 then " " else "") + ShowInt(row) + " "
  }

  /** The cell strings of columns 1 to `n` of a row. */
  function CellList(board: GoBoard.Board, row: int, n: int): (cs: seq<string>)
    reads board
    ensures |cs| == if n > 0 then n else 0
    ensures forall c :: 1 <= c <= n ==> cs[c - 1] == STONE_TO_CHAR[board.Get(Point(row, c))]
  {
    if n <= 0 then [] else CellList(board, row, n - 1) + [STONE_TO_CHAR[board.Get(Point(row, n))]]
  }

  /** `"".join(...)`. */
  function Concat(ss: seq<string>): string {
    if ss == [] then "" else Concat(ss[..|ss| - 1]) + ss[|ss| - 1]
  }

  /** The line `print_board` prints for a row. */
  function RowLine(board: GoBoard.Board, row: int): string
    reads board
  {
    RowLabel(row) + Concat(CellList(board, row, board.numCols))
  }

  /** `COLS[:n]`, with Python's slicing for negative and large `n`. */
  function ColsPrefix(n: int): (s: string)
    ensures 0 <= n <= 19 ==> |s| == n && forall i :: 0 <= i < n ==> s[i] == COLS[i]
  {
    if n >= |COLS| then COLS
    else if n >= 0 then COLS[..n]
    else if n > -|COLS| then COLS[..|COLS| + n]
    else ""
  }

  /** `'  '.join(letters)`. */
  function Spaced(s: string): string {
    if |s| <= 1 then s else Spaced(s[..|s| - 1]) + "  " + [s[|s| - 1]]
  }

  /** The last line `print_board` prints. */
  function Footer(numCols: int): string {
    "    " + Spaced(ColsPrefix(numCols))
  }

  /** The lines `print_board` prints, built as it builds them: rows from the
      top down, each from its cells left to right, then the footer. */
  method BoardLines(board: GoBoard.Board) returns (lines: seq<string>)
    ensures |lines| == (if board.numRows > 0 then board.numRows else 0) + 1
    ensures forall i :: 0 <= i < |lines| - 1 ==> lines[i] == RowLine(board, board.numRows - i)
    ensures lines[|lines| - 1] == Footer(board.numCols)
  {
    lines := [];
    var row := if board.numRows > 0 then board.numRows else 0;
    ghost var top := row;
    while row > 0
      invariant 0 <= row <= top && |lines| == top - row
      invariant forall i :: 0 <= i < |lines| ==> lines[i] == RowLine(board, top - i)
    {
      var line := RowCells(board, row);
      var text := RowLabel(row) + Concat(line);
      assert text == RowLine(board, row);
      lines := lines + [text];
      row := row - 1;
    }
    lines := lines + [Footer(board.numCols)];
  }

  /** The inner loop of `print_board`: the cells of one row, left to
      right. */
  method RowCells(board: GoBoard.Board, row: int) returns (line: seq<string>)
    ensures line == CellList(board, row, board.numCols)
  {
    line := [];
    var col := 1;
    while col <= board.numCols
      invariant 1 <= col && (board.numCols > 0 ==> col <= board.numCols + 1)
      invariant board.numCols <= 0 ==> col == 1
      invariant line == CellList(board, row, col - 1)
    {
      var stone := board.Get(Point(row, col));
      line := line + [STONE_TO_CHAR[stone]];
      col := col + 1;
    }
  }

  /** Rows 1 to 99 have labels of three characters, so their cells line up. */
  lemma RowLabelWidth(row: int)
    requires 1 <= row <= 99
    ensures |RowLabel(row)| == 3
  {
    if row >= 10 {
      assert ShowNat(row) == ShowNat(row / 10) + [DigitChar(row % 10)];
    }
  }

  lemma {:induction false} ConcatCells(ss: seq<string>)
    requires forall i :: 0 <= i < |ss| ==> |ss[i]| == 3
    ensures |Concat(ss)| == 3 * |ss|
    ensures forall i :: 0 <= i < |ss| ==> Concat(ss)[3 * i..3 * i + 3] == ss[i]
  {
    if ss != [] {
      var pre := ss[..|ss| - 1];
      ConcatCells(pre);
      var c := Concat(ss);
      assert c == Concat(pre) + ss[|ss| - 1];
      forall i | 0 <= i < |ss| ensures c[3 * i..3 * i + 3] == ss[i] {
        if i < |pre| {
          assert c[3 * i..3 * i + 3] == Concat(pre)[3 * i..3 * i + 3];
        } else {
          assert c[3 * i..3 * i + 3] == ss[|ss| - 1];
        }
      }
    }
  }

  /** Column `c` of a row line is the three-character cell of the stone at
      `(row, c)`, and its middle character is `.`, `x` or `o`. */
  lemma RowLineCell(board: GoBoard.Board, row: int, c: int)
    requires 1 <= c <= board.numCols
    ensures var k := |RowLabel(row)| + 3 * (c - 1);
      && k + 3 <= |RowLine(board, row)|
      && RowLine(board, row)[k..k + 3] == STONE_TO_CHAR[board.Get(Point(row, c))]
      && RowLine(board, row)[k + 1] == (match board.Get(Point(row, c)) case None => '.' case Some(Black) => 'x' case Some(White) => 'o')
  {
    var cs := CellList(board, row, board.numCols);
    forall i | 0 <= i < |cs| ensures |cs[i]| == 3 {
      StoneChars(board.Get(Point(row, i + 1)));
    }
    ConcatCells(cs);
    StoneChars(board.Get(Point(row, c)));
    var k := |RowLabel(row)| + 3 * (c - 1);
    assert RowLine(board, row)[k..k + 3] == Concat(cs)[3 * (c - 1)..3 * (c - 1) + 3];
  }

  lemma {:induction false} SpacedLetters(s: string)
    requires |s| >= 1
    ensures |Spaced(s)| == 3 * |s| - 2
    ensures forall k :: 0 <= k < |s| ==> Spaced(s)[3 * k] == s[k]
  {
    if |s| > 1 {
      var pre := s[..|s| - 1];
      SpacedLetters(pre);
      assert forall k :: 0 <= k < |pre| ==> Spaced(s)[3 * k] == Spaced(pre)[3 * k];
    }
  }

  /** The letter of column `c` stands at position `3 * c + 1` of the
      footer. */
  lemma FooterLetter(n: int, c: int)
    requires 1 <= c <= n <= 19
    ensures 3 * c + 1 < |Footer(n)| && Footer(n)[3 * c + 1] == COLS[c - 1]
  {
    var letters := ColsPrefix(n);
    PaddedSpaced(letters, c - 1);
  }

  lemma PaddedSpaced(s: string, k: nat)
    requires k < |s|
    ensures 3 * k + 4 < |"    " + Spaced(s)| && ("    " + Spaced(s))[3 * k + 4] == s[k]
  {
    SpacedLetters(s);
  }

  /** On a board of at most 19 columns, the letter of column `c` in the
      footer stands at the position of the stone character of column `c`
      in every row line of rows 1 to 99. */
  lemma FooterAligned(board: GoBoard.Board, row: int, c: int)
    requires 1 <= board.numCols <= 19 && 1 <= row <= 99 && 1 <= c <= board.numCols
    ensures var k := 3 + 3 * (c - 1) + 1;
      && k < |Footer(board.numCols)| && k < |RowLine(board, row)|
      && Footer(board.numCols)[k] == COLS[c - 1]
      && RowLine(board, row)[k] == (match board.Get(Point(row, c)) case None => '.' case Some(Black) => 'x' case Some(White) => 'o')
  {
    RowLabelWidth(row);
    RowLineCell(board, row, c);
    FooterLetter(board.numCols, c);
  }
}
