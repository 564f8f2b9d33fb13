/**
 The adjacency rule: a piece may move when its cell is an orthogonal
 neighbour of the open cell.
 */
module Adjacency {
  import opened Geometry
  import opened Board

  /**
   True when the piece is one column away on the same row, or one row away on
   the same column, from the open position.
   */
  function IsPieceBorderingOpenPosition(piece: Piece, openPosition: int): (r: bool)
    ensures r <==> Abs(IndexToX(openPosition) - IndexToX(piece.position))
                   + Abs(IndexToY(openPosition) - IndexToY(piece.position)) == 1
  {
    var openX := IndexToX(openPosition);
    var openY := IndexToY(openPosition);
    var pieceX := IndexToX(piece.position);
    var pieceY := IndexToY(piece.position);
    if Abs(openX - pieceX) == 1 && openY == pieceY then true
    else if Abs(openY - pieceY) == 1 && openX == pieceX then true
    else false
  }

  /**
   Neighbourhood stated on cell indices alone: one row apart is three cells
   apart, one column apart is one cell apart within the same row.
   */
  predicate Neighbours(a: int, b: int) {
    Abs(a - b) == SquaresPerSide
    || (Abs(a - b) == 1 && a / SquaresPerSide == b / SquaresPerSide)
  }

  /** On the board the rule agrees with neighbourhood on cell indices. */
  lemma BorderingIsNeighbours(piece: Piece, openPosition: int)
    requires IsCell(piece.position) && IsCell(openPosition)
    ensures IsPieceBorderingOpenPosition(piece, openPosition) <==> Neighbours(piece.position, openPosition)
  {
  }

  /** The rule is symmetric in the two cells. */
  lemma BorderingSymmetric(a: Piece, b: Piece)
    ensures IsPieceBorderingOpenPosition(a, b.position) == IsPieceBorderingOpenPosition(b, a.position)
  {
  }

  /** A piece never borders its own cell. */
  lemma BorderingIrreflexive(piece: Piece)
    ensures !IsPieceBorderingOpenPosition(piece, piece.position)
  {
  }

  /**
   With the open cell in the corner (cell 8), exactly the pieces on cells 5
   and 7 may move.
   */
  lemma CornerNeighbours(piece: Piece)
    requires IsCell(piece.position)
    ensures IsPieceBorderingOpenPosition(piece, 8) <==> piece.position == 5 || piece.position == 7
  {
  }

  /**
   On the solved board the pieces on cells 5 and 7 border the open cell and
   the piece on cell 0 does not.
   */
  lemma SolvedBoardBordering()
    ensures IsPieceBorderingOpenPosition(InitPieceArray()[5], FindOpenPosition(InitPieceArray()))
    ensures IsPieceBorderingOpenPosition(InitPieceArray()[7], FindOpenPosition(InitPieceArray()))
    ensures !IsPieceBorderingOpenPosition(InitPieceArray()[0], FindOpenPosition(InitPieceArray()))
  {
    InitialBoard();
  }
}
