/** Properties of the starting position: which cells are occupied, how many,
    and the mirror symmetry between the two sides. */
module StartProofs {
  import opened Geometry
  import opened Pieces
  import opened Boards

  /** The cell at flat position 64x + 8y + z of the starting board. */
  lemma StartAtIndex(x: int, y: int, z: int)
    requires 0 <= x <= 7 && 0 <= y <= 7 && 0 <= z <= 7
    ensures StartBoard().cells[64 * x + 8 * y + z] == StartCell(Location(x, y, z))
  {
    StartBoardAt(Location(x, y, z));
  }

  /** Cells (x, y, z) with y*8 + z in lo..hi-1 are all empty. */
  lemma EmptyStretch(x: int, y: int, zlo: int, zhi: int)
    requires 0 <= x <= 7 && 0 <= y <= 7 && 0 <= zlo <= zhi <= 8
    requires forall z :: zlo <= z < zhi ==> StartCell(Location(x, y, z)) == Empty
    ensures CountRange(StartBoard().cells, 64 * x + 8 * y + zlo, 64 * x + 8 * y + zhi) == 0
  {
    var s := StartBoard().cells;
    forall i | 64 * x + 8 * y + zlo <= i < 64 * x + 8 * y + zhi
      ensures s[i] == Empty
    {
      StartAtIndex(x, y, i - 64 * x - 8 * y);
    }
    CountNone(s, 64 * x + 8 * y + zlo, 64 * x + 8 * y + zhi);
  }

  /** Whole rows y = 2..5 are empty, as are rows 0/1 above z = 0 and rows 6/7 below z = 7. */
  lemma EmptyRows(x: int, ylo: int, yhi: int)
    requires 0 <= x <= 7 && 0 <= ylo <= yhi <= 8
    requires forall y, z :: ylo <= y < yhi && 0 <= z <= 7 ==> StartCell(Location(x, y, z)) == Empty
    ensures CountRange(StartBoard().cells, 64 * x + 8 * ylo, 64 * x + 8 * yhi) == 0
  {
    var s := StartBoard().cells;
    forall i | 64 * x + 8 * ylo <= i < 64 * x + 8 * yhi
      ensures s[i] == Empty
    {
      var r := i - 64 * x;
      StartAtIndex(x, r / 8, r % 8);
    }
    CountNone(s, 64 * x + 8 * ylo, 64 * x + 8 * yhi);
  }

  /** One occupied cell, at flat position i. */
  lemma OneCell(s: seq<Cell>, i: nat)
    requires i < |s| && s[i].Piece?
    ensures CountRange(s, i, i + 1) == 1
  {
  }

  /** A White row (x, y, .), y = 0 or 1, holds one piece, at z = 0. */
  lemma WhiteRowCount(x: int, y: int)
    requires 0 <= x <= 7 && 0 <= y <= 1
    ensures CountRange(StartBoard().cells, 64 * x + 8 * y, 64 * x + 8 * y + 8) == 1
  {
    var s := StartBoard().cells;
    var row := 64 * x + 8 * y;
    StartAtIndex(x, y, 0);
    OneCell(s, row);
    EmptyStretch(x, y, 1, 8);
    CountSplit(s, row, row + 1, row + 8);
  }

  /** A Black row (x, y, .), y = 6 or 7, holds one piece, at z = 7. */
  lemma BlackRowCount(x: int, y: int)
    requires 0 <= x <= 7 && 6 <= y <= 7
    ensures CountRange(StartBoard().cells, 64 * x + 8 * y, 64 * x + 8 * y + 8) == 1
  {
    var s := StartBoard().cells;
    var row := 64 * x + 8 * y;
    StartAtIndex(x, y, 7);
    OneCell(s, row + 7);
    EmptyStretch(x, y, 0, 7);
    CountSplit(s, row, row + 7, row + 8);
  }

  /** Every file x of the starting board holds exactly four pieces:
      a pawn and a back-rank piece per side. */
  lemma {:induction false} FileCount(x: int)
    requires 0 <= x <= 7
    ensures CountRange(StartBoard().cells, 64 * x, 64 * x + 64) == 4
  {
    var s := StartBoard().cells;
    var base := 64 * x;
    WhiteRowCount(x, 0);
    WhiteRowCount(x, 1);
    EmptyRows(x, 2, 6);
    BlackRowCount(x, 6);
    BlackRowCount(x, 7);
    CountSplit(s, base, base + 8, base + 64);
    CountSplit(s, base + 8, base + 16, base + 64);
    CountSplit(s, base + 16, base + 48, base + 64);
    CountSplit(s, base + 48, base + 56, base + 64);
  }

  lemma {:induction false} FilesCount(n: int)
    requires 0 <= n <= 8
    ensures CountRange(StartBoard().cells, 0, 64 * n) == 4 * n
  {
    if n > 0 {
      FilesCount(n - 1);
      FileCount(n - 1);
      CountSplit(StartBoard().cells, 0, 64 * (n - 1), 64 * n);
    }
  }

  /** The starting board is running and holds exactly 32 pieces. */
  lemma StartPieceCount()
    ensures IsRunning(StartBoard())
    ensures PieceCount(StartBoard()) == 32
  {
    FilesCount(8);
  }

  /** The occupied cells of the starting board are exactly the four rows
      (x, 0, 0), (x, 1, 0), (x, 6, 7) and (x, 7, 7); White holds the z = 0 rows
      and Black the z = 7 rows, pawns on the inner rows. */
  lemma StartOccupancy(l: Location)
    requires ValidLoc(l)
    ensures At(StartBoard(), l).Piece? <==>
      (l.z == 0 && (l.y == 0 || l.y == 1)) || (l.z == 7 && (l.y == 6 || l.y == 7))
    ensures OwnedBy(At(StartBoard(), l), White) <==> l.z == 0 && (l.y == 0 || l.y == 1)
    ensures At(StartBoard(), l).Piece? ==> (At(StartBoard(), l).piece.1.Pawn? <==> l.y == 1 || l.y == 6)
    ensures At(StartBoard(), l).Piece? && At(StartBoard(), l).piece.1.Pawn? ==> !At(StartBoard(), l).piece.1.moved
  {
    StartBoardAt(l);
  }

  /** The mirror image of (x, y, z) across the middle of the y and z axes. */
  function SideSwap(l: Location): Location {
    Location(l.x, 7 - l.y, 7 - l.z)
  }

  /** A cell holds White kind k iff its mirror cell holds Black kind k. */
  lemma StartSymmetric(l: Location, k: Kind)
    requires ValidLoc(l)
    ensures ValidLoc(SideSwap(l))
    ensures At(StartBoard(), l) == Piece((White, k)) <==> At(StartBoard(), SideSwap(l)) == Piece((Black, k))
  {
    StartBoardAt(l);
    StartBoardAt(SideSwap(l));
  }

  /** Each side has exactly one King, at x = 4 of its back rank. */
  lemma StartKings(l: Location, c: Color)
    requires ValidLoc(l)
    ensures At(StartBoard(), l) == Piece((c, King)) <==>
      l == (if c == White then Location(4, 0, 0) else Location(4, 7, 7))
  {
    StartBoardAt(l);
  }
}
