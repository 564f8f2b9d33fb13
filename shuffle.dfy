/**
 Shuffling: the cells 0..8 are put in some order and the first eight go to
 the pieces, in piece order; the ninth is left open. The random order is an
 argument here, any ordering of the nine cells.
 */
module Shuffle {
  import opened Geometry
  import opened Board

  /** An ordering of all the cells of the board, each exactly once. */
  predicate IsCellPermutation(perm: seq<int>) {
    && |perm| == SquareCount
    && (forall i :: 0 <= i < |perm| ==> IsCell(perm[i]))
    && Distinct(perm)
  }

  /** The cells in ascending order, the list before it is shuffled. */
  function AllCells(): (cells: seq<int>)
    ensures IsCellPermutation(cells)
  {
    seq(SquareCount, i requires 0 <= i < SquareCount => i)
  }

  /**
   Piece `i` takes the cell `perm[i]`; labels and order of the pieces stay,
   their old positions are not consulted.
   */
  function ShufflePieces(pieces: seq<Piece>, perm: seq<int>): (r: seq<Piece>)
    requires IsCellPermutation(perm)
    requires |pieces| <= |perm|
    ensures |r| == |pieces|
    ensures Labels(r) == Labels(pieces)
    ensures Positions(r) == perm[..|pieces|]
  {
    seq(|pieces|, i requires 0 <= i < |pieces| => pieces[i].(position := perm[i]))
  }

  /**
   Shuffling a board of eight pieces gives a valid board whose open position
   is the last cell of the ordering.
   */
  lemma ShuffleValid(pieces: seq<Piece>, perm: seq<int>)
    requires IsCellPermutation(perm)
    requires |pieces| == PieceCount
    ensures ValidBoard(ShufflePieces(pieces, perm))
    ensures FindOpenPosition(ShufflePieces(pieces, perm)) == perm[PieceCount]
  {
    var r := ShufflePieces(pieces, perm);
    forall j | 0 <= j < |r|
      ensures r[j].position != perm[PieceCount]
    {
      assert Positions(r)[j] == perm[j];
    }
    FreeCellIsOpen(r, perm[PieceCount]);
  }

  /**
   Every cell is used exactly once: it is either the open position or the
   position of exactly one piece.
   */
  lemma ShuffleUsesEveryCell(pieces: seq<Piece>, perm: seq<int>, c: int)
    requires IsCellPermutation(perm)
    requires |pieces| == PieceCount
    requires IsCell(c)
    ensures c == FindOpenPosition(ShufflePieces(pieces, perm))
            || exists j :: 0 <= j < PieceCount && ShufflePieces(pieces, perm)[j].position == c
  {
    ShuffleValid(pieces, perm);
    var r := ShufflePieces(pieces, perm);
    OpenPositionUnique(r);
    if c in Positions(r) {
      var j :| 0 <= j < |r| && Positions(r)[j] == c;
      assert r[j].position == c;
    }
  }

  /** The result depends only on the labels, never on the old positions. */
  lemma ShuffleForgetsPositions(a: seq<Piece>, b: seq<Piece>, perm: seq<int>)
    requires IsCellPermutation(perm)
    requires |a| <= |perm|
    requires Labels(a) == Labels(b)
    ensures ShufflePieces(a, perm) == ShufflePieces(b, perm)
  {
  }

  /**
   Every valid board is a possible shuffle of its own pieces: its positions
   followed by its open position order all the cells.
   */
  lemma ShuffleReachesEveryBoard(pieces: seq<Piece>)
    requires ValidBoard(pieces)
    ensures IsCellPermutation(Positions(pieces) + [FindOpenPosition(pieces)])
    ensures ShufflePieces(pieces, Positions(pieces) + [FindOpenPosition(pieces)]) == pieces
  {
    OpenPositionUnique(pieces);
    var perm := Positions(pieces) + [FindOpenPosition(pieces)];
    forall i, j | 0 <= i < j < |perm|
      ensures perm[i] != perm[j]
    {
      if j == PieceCount {
        assert perm[i] in Positions(pieces);
      }
    }
    var r := ShufflePieces(pieces, perm);
    forall j | 0 <= j < |r|
      ensures r[j] == pieces[j]
    {
      assert Positions(r)[j] == perm[j];
    }
  }

  /** Leaving the cells in ascending order gives back the solved board. */
  lemma UnshuffledIsSolved()
    ensures ShufflePieces(InitPieceArray(), AllCells()) == InitPieceArray()
  {
  }
}
