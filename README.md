# Go rules engine of the AlphaGo (dlgo) repository, in Dafny

This project models the rules engine of the `dlgo` Go-playing package and proves properties of that model. It covers:

- **Vocabulary** (`dlgo/gotypes.py`): players, points and neighbours.
- **Main engine** (`dlgo/goboard.py`):
  - moves;
  - immutable strings of stones with their liberties;
  - the board, a dictionary from points to strings with a running Zobrist hash;
  - the persistent chain of game states that decides validity, ko and end of game.
- **Slow engine** (`dlgo/goboard_slow.py`): strings are shared mutable objects, and ko is decided by walking the previous states.
- **Eye test** of the agents (`dlgo/agent/helpers.py`).
- **Text helpers** (`dlgo/utils.py`): coordinates, move text and the board drawing.
- **Stone balance** used as an evaluation by the tree-search driver (`mcts_go.py`).

The model follows the code as written, including three places where it behaves differently from what its comments suggest:

- **Capture scan.** In `place_stone` of both engines, the `else` of the neighbour scan belongs to the inner `if`. As a result, opponent strings are never collected.
  - Main engine: the list named for the opponent's strings collects the mover's own strings that touch the new stone twice. Those strings lose the point as a liberty and are rebound with their old stones, or removed. No opponent stone is ever captured.
  - Slow engine: a stone's own string is a one-element *list*, and `|` on a list raises `TypeError`. So every merge raises. A play next to a stone of the same colour fails, and the capture loops only ever run over an empty list.
- **Slow-engine ko.** Situations are compared with `==` on `(player, board)`, and `Board` defines no `__eq__`. The board looked for is a fresh deep copy, so ko is never detected.
- **Eye corners.** `is_point_an_eye` builds its corner points with one-argument `Point(...)` calls. A `Point` has two fields, so every point that passes the neighbour test raises `TypeError` (see Findings).

Modules:

| module | file | what it holds |
|---|---|---|
| `Wrappers` | wrappers.dfy | `Option`, `Result` and `Outcome`; Python exceptions are values of `Error` (`AssertionError`, `TypeError`, `KeyError`, …) |
| `GoTypes` | gotypes.dfy | `Player`, `Point` |
| `Zobrist` | zobrist.dfy | the code table, left abstract; hashes are sets of one-bit positions, and `^` is symmetric difference |
| `GoBoard` | goboard.dfy | `Move`, the `GoString` value and the `Board` class of the main engine |
| `GameStates` | gamestate.dfy | its `GameState` |
| `SlowBoard` | goboard_slow.dfy | the slow engine, with `GoString` and `Board` as classes |
| `AgentHelpers` | helpers.dfy | the eye test |
| `Utils` | utils.dfy | the text helpers |
| `MctsGo` | mcts.dfy | `capture_diff` |

Ghost predicates used in the contracts:

- **`GoBoard.Board.Valid`**: every stored string lists its own point among its stones. Every operation keeps it.
- **`GoBoard.Board.WellFormed`**: the invariant the engine is meant to keep. Every stone of every stored string is occupied in that string's colour (`Coherent`), and the hash is the XOR of the codes of the occupied points into the empty-board code.
  - `place_stone` keeps it when no own string touches the new stone twice.
  - An own string that touches the new stone twice is listed for the opponent loop by the `else` at goboard.py:196.
  - Rebinding that string without the point (goboard.py:213-215) keeps every listed stone occupied in its colour and leaves the hash unchanged.
  - Removing it (goboard.py:216-217) clears its stones one by one and XORs each code out of the hash (goboard.py:282-292). The merged string bound at the new point still lists those stones. Handing it a liberty (goboard.py:289) rebinds it over stones already cleared.
  - After a removal, the merged string can list an emptied point, and the hash can lack the codes of stones still on the board.

## Model

| member | source | states |
|---|---|---|
| GoTypes.Player.Other | dlgo/gotypes.py:16-23 | the other player is never the same one; it is black exactly when this one is white |
| GoTypes.OtherInvolution | dlgo/gotypes.py:16-23 | `other` applied twice gives the player back |
| GoTypes.Point.Neighbors | dlgo/gotypes.py:30-42 | four distinct points, each orthogonally adjacent to the point |
| GoTypes.NeighborsAreAdjacent | dlgo/gotypes.py:30-42 | q is a neighbour of p exactly when q is at distance one in exactly one coordinate |
| GoTypes.NeighborsSymmetric | dlgo/gotypes.py:30-42 | the neighbour relation is symmetric and irreflexive |
| GoBoard.NewMove | dlgo/goboard.py:19-29 | the constructor's assertion passes exactly when an odd number of the three kinds is asked for; the move keeps its arguments |
| GoBoard.MoveKinds | dlgo/goboard.py:25 | an accepted move is of exactly one kind, or of all three at once (the XOR assertion lets that through) |
| GoBoard.Play | dlgo/goboard.py:31-42 | a play at p: a point, not a pass, not a resignation |
| GoBoard.PassTurn | dlgo/goboard.py:44-52 | a pass: no point, not a resignation |
| GoBoard.Resign | dlgo/goboard.py:54-62 | a resignation: no point, not a pass |
| GoBoard.GoString.WithoutLiberty | dlgo/goboard.py:79-91 | same colour and stones, liberties less p; the count drops by one exactly when p was a liberty |
| GoBoard.GoString.WithLiberty | dlgo/goboard.py:93-105 | same colour and stones, liberties plus p; the count grows by one exactly when p was not a liberty |
| GoBoard.LibertyRoundTrip | dlgo/goboard.py:79-105 | adding then removing a new liberty, or removing then adding an existing one, gives the string back |
| GoBoard.GoString.MergeWith | dlgo/goboard.py:107-124 | the merged string has the union of the stones, and the liberties of either string that are not among them; liberties and stones are disjoint |
| GoBoard.MergeSymmetric | dlgo/goboard.py:107-124 | merging a with b equals merging b with a |
| GoBoard.MergeAllSpec | dlgo/goboard.py:203-204 | folding the merge over a list gives the base stones plus all listed stones, and every liberty not among those stones |
| GoBoard.MergeStrings | dlgo/goboard.py:203-204 | the merge loop computes the fold over the list of same-colour strings |
| GoBoard.ScanSpec | dlgo/goboard.py:185-198 | the scan collects exactly the own strings on on-grid neighbours, the own strings met twice, and the empty on-grid neighbours; no opponent string |
| GoBoard.NoDoubleTouchIff | dlgo/goboard.py:185-198 | the second list of the scan is empty exactly when no own string is met at two neighbours |
| GoBoard.MergedSpec | dlgo/goboard.py:200-204 | the string bound at the point holds the point and the stones of every neighbouring own string; its liberties are the empty neighbours and those strings' liberties, less its stones |
| GoBoard.PlaceKeepsWellFormed | dlgo/goboard.py:206-209 | binding the merged string on a coherent grid keeps it coherent; XORing the stone's code keeps the hash equal to the XOR of the occupied points |
| GoBoard.PlaceColours | dlgo/goboard.py:168-217 | on a coherent grid, after the play the point holds the player's colour, every other empty point stays empty, and every opponent stone stays |
| GoBoard.Board.constructor | dlgo/goboard.py:162-166 | an empty grid of the given size with the empty-board hash; well-formed |
| GoBoard.Board.Copy | dlgo/goboard.py:338 | the deep copy has the same size, grid and hash |
| GoBoard.Board.IsOnGrid | dlgo/goboard.py:232-243 | a point is on the grid only on a board with at least one row and column |
| GoBoard.Board.Get | dlgo/goboard.py:245-256 | no colour exactly when the key is missing or holds `None`; otherwise the stored string's colour |
| GoBoard.Board.GetGoString | dlgo/goboard.py:258-270 | a string exactly where `get` gives a colour, of that colour; on a valid board it lists the point |
| GoBoard.Board.ZobristHash | dlgo/goboard.py:295-302 | on a well-formed board, the hash is the XOR of the codes of the occupied points into the empty-board code |
| GoBoard.Board.ReplaceString | dlgo/goboard.py:219-230 | each stone of the string is bound to it, nothing else changes, and the hash is kept |
| GoBoard.Board.RemoveString | dlgo/goboard.py:272-293 | it keeps validity, binds no new shape and frees only the string's stones; the hash loses the codes of those stones; the string at a point outside it keeps its stones, gains liberties only among the removed stones, and gains every removed stone next to that point |
| GoBoard.Board.CollectNeighbors | dlgo/goboard.py:185-198 | the scan loop returns the scan of the neighbours in order |
| GoBoard.Board.ReduceTouched | dlgo/goboard.py:212-217 | after the loop the grid binds no new shape, frees only the stones of strings left without liberties, and keeps the merged string settled at the point; the hash loses exactly the codes of those stones; an empty list changes nothing |
| GoBoard.Board.PlaceStone | dlgo/goboard.py:168-217 | off-grid or occupied: AssertionError and no change. Otherwise: the new hash; the grid when no string is met twice; the point is settled on the merged string; emptied points are only the removed stones; well-formedness is kept in the common case |
| GameStates.Init | dlgo/goboard.py:315-325 | the state keeps its arguments; its situation set is empty at the start; otherwise it is the previous set plus the previous situation |
| GameStates.GameState.PreviousStatesAreHistory | dlgo/goboard.py:319-324 | on a chain built by `Init`, the recorded situations are exactly those of all ancestors |
| GameStates.GameState.IsOverMeansEnded | dlgo/goboard.py:363-380 | on a linked chain `is_over` never raises, and holds exactly when the last move is a resignation or the last two are passes |
| GameStates.GameState.ApplyMove | dlgo/goboard.py:327-343 | a pass or resignation shares the board; a play on a bad point gives AssertionError; a valid play gives a fresh valid board with the placed hash. When no own string touches the point twice, the new grid is the old grid with the merged string bound, and well-formedness is kept. On a coherent grid, the point holds the player's stone, every other empty point stays empty and every opponent stone stays. The new state records the old situation and keeps the chain linked |
| GameStates.NewGame | dlgo/goboard.py:345-361 | an empty square or rectangular board, black to move, no history; the game is not over |
| GameStates.GameState.IsMoveSelfCapture | dlgo/goboard.py:382-400 | no for a pass or resignation; AssertionError on a bad point; on a coherent grid, yes exactly when the bound string has no liberty and nothing is removed |
| GameStates.GameState.DoesMoveViolateKo | dlgo/goboard.py:411-429 | no for a pass or resignation; AssertionError on a bad point; otherwise whether the opponent-to-move situation with the placed hash is recorded |
| GameStates.GameState.IsValidMove | dlgo/goboard.py:431-450 | false once over; true for a pass or resignation; false on an occupied point; on a coherent grid, a play is valid exactly when it is neither a self-capture nor a recorded situation, so it never repeats a situation of any ancestor |
| SlowBoard.Union | dlgo/goboard_slow.py:113 | `|` succeeds exactly on two sets, giving their union; otherwise TypeError |
| SlowBoard.GoString.constructor | dlgo/goboard_slow.py:73-76 | the string holds the given colour, stones and liberty set |
| SlowBoard.GoString.RemoveLiberty | dlgo/goboard_slow.py:78-88 | removes a liberty in place; KeyError and no change when the point is not one |
| SlowBoard.GoString.AddLiberty | dlgo/goboard_slow.py:90-100 | adds the liberty in place |
| SlowBoard.GoString.MergeWith | dlgo/goboard_slow.py:102-119 | AssertionError on a colour mismatch; TypeError unless both stones are sets; otherwise a fresh string with the union of the stones and the other liberties |
| SlowBoard.MergeStrings | dlgo/goboard_slow.py:193-194 | with no same-colour string the new string is kept; with one, merging the one-point list raises TypeError |
| SlowBoard.Board.constructor | dlgo/goboard_slow.py:153-156 | an empty grid of the given size |
| SlowBoard.Board.Copy | dlgo/goboard_slow.py:296 | the deep copy has the same keys and colours; every string is a fresh object equal to its original; two points share a copied string exactly when they shared the original |
| SlowBoard.Board.Get | dlgo/goboard_slow.py:220-231 | no colour exactly when the key is missing or holds `None`; otherwise the stored string's colour |
| SlowBoard.Board.GetGoString | dlgo/goboard_slow.py:233-245 | a stored string exactly where `get` gives a colour, of that colour |
| SlowBoard.Board.CollectNeighbors | dlgo/goboard_slow.py:175-188 | the empty on-grid neighbours; the same-colour list is empty exactly when no neighbour is of the player's colour; the second list is empty when the first is |
| SlowBoard.Board.BindStones | dlgo/goboard_slow.py:196-197 | every member of the string's stones is bound to the string; nothing else changes |
| SlowBoard.Board.ReduceTouched | dlgo/goboard_slow.py:200-205 | either passes or raises KeyError; an empty list changes nothing |
| SlowBoard.Board.RemoveString | dlgo/goboard_slow.py:247-266 | the string's stones are set to `None`; each other string gains only removed points as liberties, and gains every removed point next to one of its stones |
| SlowBoard.Board.PlaceStone | dlgo/goboard_slow.py:158-205 | off-grid or occupied: AssertionError; next to its own colour: TypeError with no change; otherwise a fresh one-point list string with the empty neighbours as liberties at the point, nothing else changed, and no other string's liberties touched |
| SlowBoard.GameState.IsOverMeansEnded | dlgo/goboard_slow.py:321-338 | on a linked chain `is_over` never raises, and holds exactly when the last move is a resignation or the last two are passes |
| SlowBoard.GameState.SeenMeansAncestor | dlgo/goboard_slow.py:386-392 | the walk back finds a situation exactly when some ancestor has it |
| SlowBoard.GameState.SeenBefore | dlgo/goboard_slow.py:386-394 | the loop finds a situation exactly when some ancestor has it |
| SlowBoard.GameState.ApplyMove | dlgo/goboard_slow.py:285-301 | a pass or resignation shares the board; errors as `place_stone` raises; a valid play gives a fresh board differing only at the point, which holds the player's one-point string; the chain stays linked |
| SlowBoard.GameState.IsMoveSelfCapture | dlgo/goboard_slow.py:340-358 | errors as `place_stone` raises; otherwise a self-capture exactly when the point has no empty on-grid neighbour |
| SlowBoard.GameState.DoesMoveViolateKo | dlgo/goboard_slow.py:369-394 | errors as `place_stone` raises; otherwise always false, as the fresh board is held by no earlier state |
| SlowBoard.GameState.IsValidMove | dlgo/goboard_slow.py:396-415 | false once over; true for a pass or resignation; false on an occupied point; TypeError next to its own colour; otherwise valid exactly when the point has an empty on-grid neighbour |
| SlowBoard.NewGame | dlgo/goboard_slow.py:303-319 | an empty board of the given size, black to move, no previous state; the game is not over |
| AgentHelpers.NeighborsHeld | dlgo/agent/helpers.py:21-25 | the loop answers whether every on-grid neighbour holds the colour |
| AgentHelpers.IsPointAnEye | dlgo/agent/helpers.py:18-36 | false on an occupied point or next to an on-grid point not of the colour; every other point raises TypeError |
| AgentHelpers.LonePointReachesCorners | dlgo/agent/helpers.py:18-36 | the empty point of a 1×1 board passes both tests, so it reaches the corner list |
| AgentHelpers.Corners | dlgo/agent/helpers.py:31-36 | four distinct points, each diagonal to the point |
| AgentHelpers.CornerCount | dlgo/agent/helpers.py:38-45 | friendly plus off-grid corners never exceed the corner count, and equal it exactly when every on-grid corner is friendly |
| AgentHelpers.EdgeEyeNeedsEveryCorner | dlgo/agent/helpers.py:47-48 | at the edge, the corner test holds exactly when every on-grid corner is friendly |
| AgentHelpers.IsPointAnEyeCorrected | dlgo/agent/helpers.py:7-50 | an eye exactly when the point is empty, every on-grid neighbour holds the colour, and the corners pass the edge and middle rules |
| Utils.ColsLetters | dlgo/utils.py:7 | nineteen distinct letters from A to T, without I |
| Utils.StoneChars | dlgo/utils.py:9-13 | every point content has a three-character cell with `.`, `x` or `o` in the middle |
| Utils.ParseInt | dlgo/utils.py:70 | `int` either gives a value or raises ValueError |
| Utils.ParseShowNat | dlgo/utils.py:70 | parsing the decimal text of n gives n back |
| Utils.ParseShowInt | dlgo/utils.py:70 | `int(str(n)) == n` for every integer, negative ones included |
| Utils.ShowParseDigits | dlgo/utils.py:32 | a digit string without a leading zero is the text of its value |
| Utils.ShowParseInt | dlgo/utils.py:32 | a canonical numeral parses, and prints back as itself |
| Utils.IndexOf | dlgo/utils.py:69 | `str.index`: the first position of the character, or none exactly when it is absent |
| Utils.ColumnLetter | dlgo/utils.py:32 | columns 1 to 19 give their letter; IndexError exactly outside -18..19, where Python's negative indexing still answers |
| Utils.PointFromCoords | dlgo/utils.py:59-72 | IndexError on empty text; ValueError on an unknown letter or a row `int` rejects; a known letter followed by text `int` accepts ("C03", "C+3" included) always gives the letter's column and the parsed row |
| Utils.PointText | dlgo/utils.py:32 | IndexError exactly when the column has no letter under Python indexing |
| Utils.MoveText | dlgo/utils.py:27-32 | `passes` for a pass, `resigns` for a resignation, the point's text for a play |
| Utils.PointTextRoundTrip | dlgo/utils.py:69-72 | parsing the text of a point with a lettered column gives the point back |
| Utils.CoordsRoundTrip | dlgo/utils.py:32 | the text of the point parsed from canonical coordinates is those coordinates |
| Utils.PlayTextRoundTrip | dlgo/utils.py:27-32 | the move text of a play is its point's text, and parses back to the point |
| Utils.CellList | dlgo/utils.py:50-52 | one cell per column, each the character of that point's content |
| Utils.RowCells | dlgo/utils.py:50-52 | the inner loop builds that cell list |
| Utils.ColsPrefix | dlgo/utils.py:56 | `COLS[:n]`: the first n letters, for n from 0 to 19 |
| Utils.BoardLines | dlgo/utils.py:47-56 | one line per row from the top down, each that row's line, then the letter footer |
| Utils.RowLabelWidth | dlgo/utils.py:48 | with the bump, the label of rows 1 to 99 is three characters wide |
| Utils.ConcatCells | dlgo/utils.py:54 | joining three-character cells puts cell i at characters 3i to 3i+2 |
| Utils.RowLineCell | dlgo/utils.py:47-54 | column c of a row's line shows that point's content character |
| Utils.SpacedLetters | dlgo/utils.py:56 | joining letters with two spaces puts letter k at position 3k |
| Utils.FooterLetter | dlgo/utils.py:56 | the footer shows column c's letter at position 3c+1 |
| Utils.FooterAligned | dlgo/utils.py:47-56 | on boards of up to 19 columns and 99 rows, the footer letter of column c stands at the same position as the stone character (`.`, `x` or `o`) of column c in every row line |
| MctsGo.CaptureDiff | mcts_go.py:11-25 | the loops give black's stones minus white's, negated when white is to move |
| MctsGo.EmptyBoardIsEven | mcts_go.py:11-25 | on an empty board the balance is zero |
| MctsGo.AdvantageBound | mcts_go.py:22-25 | the balance is bounded by the number of grid points |
| MctsGo.AdvantageOpposite | mcts_go.py:22-25 | the two players see opposite balances |

## Left out

- `dlgo/zobrist.py` is not part of this model.
  - Its table is the abstract pair `HASH_CODE` and `EMPTY_BOARD`. Nothing is assumed about the codes, not even that they differ.
  - A hash is modelled as the set of its one bits. This gives Python's unbounded integers and `^` without fixing a width.
  - Ko detection in the main engine is therefore proved about hash values, not about board positions.
- `dlgo/goboard_fast.py`, which `mcts_go.py` plays with, is not part of this model. `MctsGo.CaptureDiff` takes a state of the main engine, whose board has the same `num_rows`, `num_cols` and `get`.
- The driver and agents are not modelled: the `main` of `mcts_go.py`, `bot_v_bot.py`, the agents, the clock and randomness.
- `print_move` and `print_board` are modelled only for the strings they build; the printing is left out. `print_move`'s `player` prefix is the enum's `str` and is not modelled.
- Python's `int` also accepts surrounding whitespace, underscores between digits and non-ASCII digits. `Utils.ParseInt` takes only an optional sign followed by ASCII digits and gives ValueError for all else.
- Loops over a `frozenset` or `set` run in an arbitrary order in the model: binding (goboard.py:206-207, goboard_slow.py:196-197) and removal (goboard.py:282, goboard_slow.py:257). The contracts hold for every order.
- The slow engine's `stones` list is visited through its members, as a set would be. Since `|` fails on lists, only the one-point lists that `place_stone` builds ever reach those loops.
- The `Move` class of goboard_slow.py (lines 9-61) behaves the same as goboard.py's (only a return annotation and docstrings differ) and is modelled once, by `GoBoard.Move`.
- In the main engine, strings are values, so `is not` at goboard.py:288 is modelled as value inequality. The two differ only for distinct string objects with equal contents. `copy.deepcopy` of that board is a copy of its fields, because its strings are immutable.
- GoBoard.Board.PlaceStone: for a play after which some own string touches the new stone twice, the grid is stated only up to this:
  - the hash;
  - the emptied points;
  - the shapes of the strings bound;
  - the string settled at the point.

  The stale rebinding of those strings depends on the order of the list.
- GameStates.GameState.IsMoveSelfCapture: the exact answer is stated only on a grid where every stone of every stored string is occupied in its colour (`Coherent`). Otherwise the string read back can be missing (AttributeError) or a stale one.
- GameStates.GameState.IsValidMove: the exact answer for a play is stated under the same `Coherent` hypothesis, for the reason given for `IsMoveSelfCapture`.
- SlowBoard.Board.RemoveString: liberties are stated as bounds plus the neighbours that must gain. Which liberties a string gains from a removed stone of its own list depends on the iteration order.
- SlowBoard.Board.ReduceTouched: only the outcome kind is stated for a nonempty list. `place_stone` calls it only with an empty list, because a nonempty second list needs a same-colour neighbour, and that merge has already raised.

## Findings

| source | as written | input that shows it | evidently intended | confidence | as-written member | corrected member |
|---|---|---|---|---|---|---|
| dlgo/agent/helpers.py:31-36 | each corner is `Point(point.row - point.col - 1)` and the like: one argument to a two-field `Point`, which raises `TypeError` | the empty point (1, 1) of an empty 1×1 board, for either colour: it passes the occupied and neighbour tests and reaches the corner list | the four diagonal points `Point(point.row ± 1, point.col ± 1)`, counted by the edge and middle rules of lines 38-50 | not executed | AgentHelpers.IsPointAnEye, AgentHelpers.LonePointReachesCorners | AgentHelpers.IsPointAnEyeCorrected |
