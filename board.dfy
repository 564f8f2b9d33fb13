/**
 The puzzle state: eight pieces, each with a label and the cell it sits on,
 the solved starting board, and the lookup of the one cell no piece holds.
 */
module Board {
  import opened Geometry

  /** A tile: its label never changes, its position is the cell it occupies. */
  datatype Piece = Piece(name: string, position: int)

  /** Number of pieces on a board: every cell but one. */
  const PieceCount: int := SquareCount - 1

  function DigitChar(d: nat): (c: char)
    requires d < 10
    ensures '0' <= c <= '9'
  {
    ('0' as int + d) as char
  }

  /** The number a string of decimal digits spells, read left to right. */
  function DigitsValue(s: string): nat
    requires forall i :: 0 <= i < |s| ==> '0' <= s[i] <= '9'
  {
    if s == [] then 0
    else DigitsValue(s[..|s| - 1]) * 10 + (s[|s| - 1] as int - '0' as int)
  }

  /**
   The decimal text of `n`, as the template string `${n}` writes it: digits
   that spell `n`, with no leading zero.
   */
  function DecimalString(n: nat): (s: string)
    ensures |s| >= 1
    ensures forall i :: 0 <= i < |s| ==> '0' <= s[i] <= '9'
    ensures DigitsValue(s) == n
    ensures |s| > 1 ==> s[0] != '0'
    ensures |s| == 1 <==> n < 10
  {
    if n < 10 then [DigitChar(n)] else DecimalString(n / 10) + [DigitChar(n % 10)]
  }

  /** The solved board: piece `i` is labelled `i + 1` and sits on cell `i`. */
  function InitPieceArray(): (pieces: seq<Piece>)
    ensures |pieces| == PieceCount
    ensures forall i :: 0 <= i < PieceCount ==>
      && pieces[i].position == i
      && (forall j :: 0 <= j < |pieces[i].name| ==> '0' <= pieces[i].name[j] <= '9')
      && DigitsValue(pieces[i].name) == i + 1
  {
    seq(PieceCount, i requires 0 <= i < PieceCount => Piece(DecimalString(i + 1), i))
  }

  /** The cells the pieces occupy, piece by piece. */
  function Positions(pieces: seq<Piece>): (ps: seq<int>)
    ensures |ps| == |pieces|
    ensures forall j :: 0 <= j < |pieces| ==> ps[j] == pieces[j].position
  {
    seq(|pieces|, j requires 0 <= j < |pieces| => pieces[j].position)
  }

  /** The labels of the pieces, piece by piece. */
  function Labels(pieces: seq<Piece>): (ls: seq<string>)
    ensures |ls| == |pieces|
    ensures forall j :: 0 <= j < |pieces| ==> ls[j] == pieces[j].name
  {
    seq(|pieces|, j requires 0 <= j < |pieces| => pieces[j].name)
  }

  /**
   The scan behind `findIndex`: the first cell from `i` on that is not in
   `taken`, or -1 when every one of them is.
   */
  function FirstFree(taken: seq<int>, i: int): (r: int)
    requires 0 <= i <= SquareCount
    decreases SquareCount - i
    ensures r == -1 || (i <= r < SquareCount && r !in taken)
    ensures r == -1 ==> forall c :: i <= c < SquareCount ==> c in taken
    ensures r != -1 ==> forall c :: i <= c < r ==> c in taken
  {
    if i == SquareCount then -1
    else if i !in taken then i
    else FirstFree(taken, i + 1)
  }

  /**
   The open position: the lowest cell that no piece occupies, or -1 when all
   of them are occupied.
   */
  function FindOpenPosition(pieces: seq<Piece>): (r: int)
    ensures r == -1 <==> forall c :: IsCell(c) ==> c in Positions(pieces)
    ensures r != -1 ==> IsCell(r) && r !in Positions(pieces)
    ensures r != -1 ==> forall c :: 0 <= c < r ==> c in Positions(pieces)
  {
    FirstFree(Positions(pieces), 0)
  }

  /** Positions pairwise distinct. */
  predicate Distinct(s: seq<int>) {
    forall j, k :: 0 <= j < k < |s| ==> s[j] != s[k]
  }

  /**
   The board invariant: eight pieces, each on a cell of the board, no two on
   the same cell.
   */
  predicate ValidBoard(pieces: seq<Piece>) {
    && |pieces| == PieceCount
    && (forall j :: 0 <= j < |pieces| ==> IsCell(pieces[j].position))
    && Distinct(Positions(pieces))
  }

  /** The cells `0 .. n - 1`. */
  function Range(n: nat): (cells: set<int>)
    ensures forall i :: i in cells <==> 0 <= i < n
  {
    if n == 0 then {} else Range(n - 1) + {n - 1}
  }

  lemma {:induction false} RangeCard(n: nat)
    ensures |Range(n)| == n
  {
    if n > 0 {
      RangeCard(n - 1);
    }
  }

  lemma {:induction false} DistinctCard(s: seq<int>)
    requires Distinct(s)
    ensures |set x | x in s| == |s|
  {
    if |s| > 0 {
      var init := s[..|s| - 1];
      DistinctCard(init);
      assert (set x | x in s) == (set x | x in init) + {s[|s| - 1]};
      assert s[|s| - 1] !in init;
    }
  }

  lemma {:induction false} SubsetCard<T>(a: set<T>, b: set<T>)
    requires a <= b
    ensures |a| <= |b|
  {
    if a != {} {
      var x :| x in a;
      SubsetCard(a - {x}, b - {x});
    }
  }

  /**
   On a valid board exactly one cell is free, and the lookup returns it: the
   result is a cell, no piece is on it, and every other cell is occupied.
   */
  lemma OpenPositionUnique(pieces: seq<Piece>)
    requires ValidBoard(pieces)
    ensures IsCell(FindOpenPosition(pieces))
    ensures FindOpenPosition(pieces) !in Positions(pieces)
    ensures forall c :: IsCell(c) && c !in Positions(pieces) ==> c == FindOpenPosition(pieces)
  {
    var ps := Positions(pieces);
    var taken := set x | x in ps;
    DistinctCard(ps);
    RangeCard(SquareCount);
    assert taken <= Range(SquareCount);
    var r := FindOpenPosition(pieces);
    if r == -1 {
      assert Range(SquareCount) <= taken;
      SubsetCard(Range(SquareCount), taken);
      assert false;
    }
    forall c | IsCell(c) && c !in ps
      ensures c == r
    {
      if c != r {
        assert taken <= Range(SquareCount) - {c, r};
        SubsetCard(taken, Range(SquareCount) - {c, r});
        assert false;
      }
    }
  }

  /** A cell of a valid board that no piece holds is its open position. */
  lemma FreeCellIsOpen(pieces: seq<Piece>, c: int)
    requires ValidBoard(pieces)
    requires IsCell(c) && c !in Positions(pieces)
    ensures FindOpenPosition(pieces) == c
  {
    OpenPositionUnique(pieces);
  }

  /**
   The solved board is valid: eight pieces, piece `i` on cell `i` with the
   one-digit label `i + 1`, so the labels are pairwise distinct, and its open
   position is the last cell.
   */
  lemma InitialBoard()
    ensures ValidBoard(InitPieceArray())
    ensures forall i :: 0 <= i < PieceCount ==>
      InitPieceArray()[i].position == i && InitPieceArray()[i].name == [DigitChar(i + 1)]
    ensures forall i, j :: 0 <= i < j < PieceCount ==>
      InitPieceArray()[i].name != InitPieceArray()[j].name
    ensures FindOpenPosition(InitPieceArray()) == SquareCount - 1
  {
    var board := InitPieceArray();
    assert SquareCount - 1 !in Positions(board);
    FreeCellIsOpen(board, SquareCount - 1);
  }
}
