/**
 Moving a piece: the chosen piece is put on the open cell and every other
 piece is left as it was. The piece is chosen by its index in the board; an
 index outside the board chooses no piece, as an object that is not in the
 array matches no element of it.
 */
module Move {
  import opened Geometry
  import opened Board
  import opened Adjacency

  /**
   The board after moving piece `k` into the open position. Nothing checks
   that the piece borders the open cell.
   */
  function MovePiece(pieces: seq<Piece>, k: int): (r: seq<Piece>)
    ensures |r| == |pieces|
    ensures Labels(r) == Labels(pieces)
    ensures forall j :: 0 <= j < |pieces| && j != k ==> r[j] == pieces[j]
    ensures 0 <= k < |pieces| ==> r[k].position == FindOpenPosition(pieces)
  {
    var openPosition := FindOpenPosition(pieces);
    seq(|pieces|, j requires 0 <= j < |pieces| =>
      if j == k then pieces[j].(position := openPosition) else pieces[j])
  }

  /**
   A move keeps the board valid, and the cell the moved piece left is the new
   open position.
   */
  lemma MovePreservesValid(pieces: seq<Piece>, k: int)
    requires ValidBoard(pieces)
    requires 0 <= k < |pieces|
    ensures ValidBoard(MovePiece(pieces, k))
    ensures FindOpenPosition(MovePiece(pieces, k)) == pieces[k].position
  {
    var open := FindOpenPosition(pieces);
    OpenPositionUnique(pieces);
    var r := MovePiece(pieces, k);
    forall i, j | 0 <= i < j < |r|
      ensures Positions(r)[i] != Positions(r)[j]
    {
      if i != k && j != k {
        assert Positions(pieces)[i] != Positions(pieces)[j];
      } else {
        var other := if i == k then j else i;
        assert pieces[other].position in Positions(pieces);
      }
    }
    var left := pieces[k].position;
    forall j | 0 <= j < |r|
      ensures r[j].position != left
    {
      if j != k {
        assert Positions(pieces)[j] != Positions(pieces)[k];
      } else {
        assert left in Positions(pieces);
      }
    }
    FreeCellIsOpen(r, left);
  }

  /** Moving the same piece twice gives back the board it started from. */
  lemma MoveTwiceRestores(pieces: seq<Piece>, k: int)
    requires ValidBoard(pieces)
    ensures MovePiece(MovePiece(pieces, k), k) == pieces
  {
    if 0 <= k < |pieces| {
      MovePreservesValid(pieces, k);
    }
  }

  /**
   A piece that bordered the open cell borders it again after its move, so
   the move can be undone by a legal move.
   */
  lemma MovedPieceStillBorders(pieces: seq<Piece>, k: int)
    requires ValidBoard(pieces)
    requires 0 <= k < |pieces|
    requires IsPieceBorderingOpenPosition(pieces[k], FindOpenPosition(pieces))
    ensures IsPieceBorderingOpenPosition(MovePiece(pieces, k)[k], FindOpenPosition(MovePiece(pieces, k)))
  {
    MovePreservesValid(pieces, k);
  }

  /**
   On the solved board, moving the piece on cell 7 puts it on cell 8 and
   leaves cell 7 open.
   */
  lemma SolvedBoardMove()
    ensures MovePiece(InitPieceArray(), 7)[7].position == 8
    ensures FindOpenPosition(MovePiece(InitPieceArray(), 7)) == 7
  {
    InitialBoard();
    MovePreservesValid(InitPieceArray(), 7);
  }

  /**
   No adjacency check: on the solved board the piece on cell 0, which does not
   border the open cell, still jumps to cell 8.
   */
  lemma MoveIgnoresAdjacency()
    ensures !IsPieceBorderingOpenPosition(InitPieceArray()[0], FindOpenPosition(InitPieceArray()))
    ensures MovePiece(InitPieceArray(), 0)[0].position == 8
  {
    InitialBoard();
    SolvedBoardBordering();
  }
}
