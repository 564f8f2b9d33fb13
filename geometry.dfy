/**
 Grid geometry of the 3x3 sliding puzzle: a cell is a linear index 0..8, read
 row by row, and `IndexToX` / `IndexToY` give its column and row.

 Positions are JavaScript numbers in the program, so the two conversions are
 total here: `%` keeps the sign of the dividend and `Math.trunc` rounds toward
 zero, which `TruncRem` and `TruncDiv` write out (Dafny's own `/` and `%` are
 Euclidean and differ on negative operands).
 */
module Geometry {

  /** Number of cells on one side of the square board. */
  const SquaresPerSide: int := 3

  /** Number of cells on the board (the side squared). */
  const SquareCount: int := SquaresPerSide * SquaresPerSide

  /** A cell index of the board. */
  predicate IsCell(i: int) {
    0 <= i < SquareCount
  }

  function Abs(a: int): (r: int)
    ensures r >= 0 && (r == a || r == -a)
  {
    if a < 0 then -a else a
  }

  /** `Math.trunc(a / b)`: the quotient rounded toward zero. */
  function TruncDiv(a: int, b: int): (q: int)
    requires b > 0
    ensures a >= 0 ==> 0 <= a - b * q < b
    ensures a < 0 ==> -b < a - b * q <= 0
  {
    if a >= 0 then a / b else -((-a) / b)
  }

  /** JavaScript `a % b`: the remainder takes the sign of the dividend. */
  function TruncRem(a: int, b: int): (r: int)
    requires b > 0
    ensures TruncDiv(a, b) * b + r == a
    ensures a >= 0 ==> 0 <= r < b
    ensures a < 0 ==> -b < r <= 0
  {
    if a >= 0 then a % b else -((-a) % b)
  }

  /** Column of a cell. */
  function IndexToX(index: int): (x: int)
    ensures index >= 0 ==> 0 <= x < SquaresPerSide
    ensures index < 0 ==> -SquaresPerSide < x <= 0
  {
    TruncRem(index, SquaresPerSide)
  }

  /** Row of a cell. */
  function IndexToY(index: int): (y: int)
    ensures IsCell(index) ==> 0 <= y < SquaresPerSide
    ensures y * SquaresPerSide + IndexToX(index) == index
  {
    TruncDiv(index, SquaresPerSide)
  }

  /** The cell at column `x` and row `y`: the inverse of the two conversions. */
  function CellAt(x: int, y: int): int {
    y * SquaresPerSide + x
  }

  /** Every cell has a column and a row on the board, and they give the cell back. */
  lemma IndexCoordinates(i: int)
    requires IsCell(i)
    ensures 0 <= IndexToX(i) < SquaresPerSide
    ensures 0 <= IndexToY(i) < SquaresPerSide
    ensures IndexToY(i) * SquaresPerSide + IndexToX(i) == i
  {
  }

  /** Every column and row on the board name a cell whose coordinates they are. */
  lemma CellAtCoordinates(x: int, y: int)
    requires 0 <= x < SquaresPerSide && 0 <= y < SquaresPerSide
    ensures IsCell(CellAt(x, y))
    ensures IndexToX(CellAt(x, y)) == x && IndexToY(CellAt(x, y)) == y
  {
  }

  /** Two cells with the same column and row are the same cell. */
  lemma CoordinatesInjective(a: int, b: int)
    requires IsCell(a) && IsCell(b)
    requires IndexToX(a) == IndexToX(b) && IndexToY(a) == IndexToY(b)
    ensures a == b
  {
  }

  /**
   Outside the board the JavaScript operators give the open-position sentinel
   -1 the column -1 and the row 0.
   */
  lemma SentinelCoordinates()
    ensures IndexToX(-1) == -1 && IndexToY(-1) == 0
  {
  }
}
