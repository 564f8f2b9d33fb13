# Slide puzzle engine, modelled in Dafny

This project models the engine of a 3x3 sliding-tile puzzle (the 8-puzzle)
written as a React component in `src/App.tsx`. Eight numbered pieces sit on
eight of the nine cells; the ninth cell is open. A piece that borders the
open cell may be pushed into it. The engine has these parts:

- grid geometry: a cell index 0..8 to its column and row (`geometry.dfy`);
- the board: pieces with a label and a position, the solved starting
  board, and the lookup of the open cell (`board.dfy`);
- the adjacency rule that decides whether a piece may move (`adjacency.dfy`);
- the move, which puts a chosen piece on the open cell (`move.dfy`);
- the shuffle, which hands the pieces the first eight cells of an ordering
  of all nine (`shuffle.dfy`);
- the component state: the board, the "started" flag, and the events that
  replace them: two timers and button presses (`app.dfy`).

The code is pure: every operation builds a new array or object, and the
component only ever replaces its state whole. So the model is datatypes,
functions and lemmas. The board is a `seq<Piece>`.

Modelling choices:

- A piece's label is the field `name`, because `label` is a reserved word in
  Dafny.
- Positions are `int`, as the program's positions are JavaScript numbers. The
  column and row use JavaScript's `%` and `Math.trunc`, which round toward
  zero. `TruncRem` and `TruncDiv` write these out, so geometry and adjacency
  are total, as in the program. The properties are stated for cells 0..8.
- The lookup of the open cell returns -1 when every cell is taken, as
  `findIndex` does. A move then writes -1 into the moved piece, as the
  program does. On a valid board this never happens, and
  `Board.OpenPositionUnique` proves it.
- The program picks the piece to move by object identity. Here the piece is
  picked by its index in the board. An index outside the board picks no piece,
  and the board comes back unchanged. This is what happens when the object
  is not in the array.
- The random sort is replaced by its result: any ordering of the nine cells
  (`Shuffle.IsCellPermutation`), given as an argument.
- The two timers become events, `ShuffleTimer` and `StartTimer`. They may
  occur in any order and any number of times, so the invariants proved over
  `App.Run` also cover the order the delays produce (shuffle at 1000 ms,
  start at 1750 ms).
- Two behaviours are modelled as the code has them, although a game would
  rather not have them. The open-cell lookup does not fail when no cell is
  free: it returns -1. The move itself does not check adjacency; only the
  enabled state of the button does.

## Model

| member | source | states |
|---|---|---|
| `Geometry.TruncDiv` | src/App.tsx:16-18 | `Math.trunc(a / b)`: the quotient rounds toward zero, so the remainder has the sign of the dividend and is smaller than the divisor |
| `Geometry.TruncRem` | src/App.tsx:12-14 | JavaScript `%`: quotient times divisor plus remainder is the dividend, and the remainder has the dividend's sign |
| `Geometry.IndexToX` | src/App.tsx:12-14 | the column of a non-negative index lies in 0..2; a negative index gets a column in -2..0, as JavaScript `%` gives |
| `Geometry.IndexToY` | src/App.tsx:16-18 | row * 3 + column gives back the index for every index, and the row of a cell lies in 0..2 |
| `Geometry.IndexCoordinates` | src/App.tsx:12-18 | for every cell 0..8, column and row lie in 0..2 and row * 3 + column is the cell |
| `Geometry.CellAtCoordinates` | src/App.tsx:12-18 | every column and row in 0..2 give a cell whose column and row they are (the inverse direction) |
| `Geometry.CoordinatesInjective` | src/App.tsx:12-18 | two cells with the same column and row are the same cell |
| `Geometry.SentinelCoordinates` | src/App.tsx:12-18 | the sentinel -1 has column -1 and row 0 under JavaScript's rounding |
| `Board.DecimalString` | src/App.tsx:24 | the label text `${n}` is a non-empty string of digits that spells n (read by `Board.DigitsValue`), has no leading zero, and is one digit long exactly when n < 10 |
| `Board.InitPieceArray` | src/App.tsx:20-27 | eight pieces; piece i sits on cell i and its label is a digit string spelling i + 1 |
| `Board.FirstFree` | src/App.tsx:31-32 | the `findIndex` scan returns the first cell from `i` on that is not taken, or -1 when all are taken |
| `Board.FindOpenPosition` | src/App.tsx:29-33 | the result is -1 exactly when every cell 0..8 is taken; otherwise it is a free cell and every lower cell is taken |
| `Board.OpenPositionUnique` | src/App.tsx:29-33 | on a valid board (8 pieces, distinct positions in 0..8) the lookup returns a cell, no piece is on it, and it is the only free cell |
| `Board.FreeCellIsOpen` | src/App.tsx:29-33 | on a valid board any free cell is the one the lookup returns |
| `Board.InitialBoard` | src/App.tsx:20-27 | the solved board is valid; piece i is on cell i with the one-digit label i + 1; labels are distinct; its open cell is 8 |
| `Adjacency.IsPieceBorderingOpenPosition` | src/App.tsx:35-47 | true exactly when the piece and the open cell are at Manhattan distance 1 in columns and rows |
| `Adjacency.BorderingIsNeighbours` | src/App.tsx:35-47 | on the board the rule agrees with an index-only definition: 3 apart, or 1 apart in the same row |
| `Adjacency.BorderingSymmetric` | src/App.tsx:35-47 | the rule is symmetric in the two cells |
| `Adjacency.BorderingIrreflexive` | src/App.tsx:35-47 | a piece never borders its own cell |
| `Adjacency.CornerNeighbours` | src/App.tsx:35-47 | with the open cell at 8, a piece on the board borders it exactly when it is on cell 5 or 7 |
| `Adjacency.SolvedBoardBordering` | src/App.tsx:35-47 | on the solved board the pieces on cells 5 and 7 border the open cell and the piece on cell 0 does not |
| `Move.MovePiece` | src/App.tsx:59-71 | the board keeps its length and labels; the chosen piece gets the open position; every other piece is unchanged |
| `Move.MovePreservesValid` | src/App.tsx:59-71 | a move keeps the board valid, and the moved piece's old cell becomes the open cell |
| `Move.MoveTwiceRestores` | src/App.tsx:59-71 | on a valid board, moving the same piece twice gives back the original board |
| `Move.MovedPieceStillBorders` | src/App.tsx:59-71 | a piece that bordered the open cell borders the new open cell after its move |
| `Move.SolvedBoardMove` | src/App.tsx:59-71 | on the solved board, moving the piece on cell 7 puts it on 8 and leaves 7 open |
| `Move.MoveIgnoresAdjacency` | src/App.tsx:59-71 | the move does not check adjacency: the piece on cell 0 of the solved board still goes to cell 8 |
| `Shuffle.AllCells` | src/App.tsx:87 | the ascending list of cells, before sorting, orders every cell exactly once |
| `Shuffle.ShufflePieces` | src/App.tsx:86-94 | piece i gets position perm[i]; count and labels are unchanged |
| `Shuffle.ShuffleValid` | src/App.tsx:86-94 | shuffling eight pieces gives a valid board whose open cell is perm[8] |
| `Shuffle.ShuffleUsesEveryCell` | src/App.tsx:86-94 | after a shuffle every cell is the open cell or the position of a piece |
| `Shuffle.ShuffleForgetsPositions` | src/App.tsx:86-94 | the result depends on the labels only, not on the old positions |
| `Shuffle.ShuffleReachesEveryBoard` | src/App.tsx:86-94 | every valid board is the shuffle of its own pieces by some ordering of the cells |
| `Shuffle.UnshuffledIsSolved` | src/App.tsx:86-94 | the ascending ordering applied to the solved board gives the solved board |
| `App.Initial` | src/App.tsx:100-106 | the mounted state holds a valid board with cell 8 open, and play has not started |
| `App.Step` | src/App.tsx:100-121 | the start timer sets the started flag and keeps the board; the shuffle timer replaces the board by `ShufflePieces`; a press on an enabled button replaces it by `MovePiece`, on a disabled one changes nothing; labels never change |
| `App.Run` | src/App.tsx:100-121 | after a sequence of events the labels are unchanged, and play has started exactly when it had before or the start timer is among the events |
| `App.StepPreservesValid` | src/App.tsx:100-121 | every event (shuffle, start, press) keeps the board valid |
| `App.RunPreservesValid` | src/App.tsx:100-121 | any sequence of events keeps the board valid and the labels unchanged |
| `App.ReachableStatesValid` | src/App.tsx:100-121 | every state reachable from mount holds a valid board with the solved board's labels |
| `App.NothingEnabledBeforeStart` | src/App.tsx:120 | `App.Enabled`, the button's enabled expression, is false for every piece before the start timer fires |
| `App.PressIsUndoable` | src/App.tsx:116-121 | pressing an enabled button moves the piece to the open cell, its old cell becomes open, the button stays enabled, and a second press restores the state |
| `App.SolvedBoardEnabled` | src/App.tsx:116-121 | once started on the solved board, `App.Enabled` holds exactly for pieces 5 and 7 |
| `App.StartTimerEnablesCornerNeighbours` | src/App.tsx:106-110 | when the start timer fires on the mounted component, play starts on the solved board and exactly the buttons of pieces 5 and 7 become enabled |

## Left out

- Rendering: JSX, CSS classes, the `--squares-per-side` variable and the
  layout of the buttons by column and row. These are presentation and hold no logic.
- The timers are not modelled as such. The 1000 ms and 1750 ms delays, `setTimeout`
  and `clearTimeout` on unmount become two events that the model lets happen
  in any order.
- `Math.random` and the sort with a random comparator. Their randomness, and
  the bias of such a sort, are not modelled. The shuffle takes the resulting
  ordering as an argument.
- `console.log` output: it is I/O.
- Object identity of pieces and stale closures: a piece is chosen by its
  index, not by reference.
- Floating point: positions are integers; JavaScript numbers are not modelled
  beyond integer `%` and `Math.trunc`.
