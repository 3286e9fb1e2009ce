/** Applying a move to a board, and replacing a board wholesale. */
module Execution {
  import opened Geometry
  import opened Pieces
  import opened Boards
  import opened MoveGen
  import opened PawnProofs

  /** The identity a piece has after it has moved: an unmoved pawn becomes a
      moved pawn of the same side; every other piece is unchanged. */
  function AfterMove(st: Stamp): (r: Stamp)
    ensures r.0 == st.0
    ensures r.1.Pawn? <==> st.1.Pawn?
    ensures r.1.Pawn? ==> r.1.moved
    ensures !st.1.Pawn? || st.1.moved ==> r == st
  {
    if st.1 == Pawn(false) then (st.0, Pawn(true)) else st
  }

  /** Copies the content of `from` to `to`, empties `from`, and, when the move is
      stamped as an unmoved pawn of side c, overwrites `to` with a moved pawn of
      side c. The source cell's own content is not consulted for that last step,
      and nothing checks that the move was generated for this board. */
  function ExecuteMove(b: Board, m: Move): (r: Board)
    requires ValidLoc(m.from) && ValidLoc(m.to)
    ensures r.running == b.running
    ensures forall l :: ValidLoc(l) && l != m.from && l != m.to ==> At(r, l) == At(b, l)
    ensures m.from != m.to ==> At(r, m.from) == Empty
    ensures At(r, m.to) ==
      if m.piece.1 == Pawn(false) then Piece(AfterMove(m.piece))
      else if m.from == m.to then Empty
      else At(b, m.from)
  {
    var moved := Set(b, m.to, At(b, m.from));
    var vacated := Set(moved, m.from, Empty);
    match m.piece
    case (c, Pawn(false)) => Set(vacated, m.to, Piece((c, Pawn(true))))
    case _ => vacated
  }

  /** Executing a move the generator produced for the piece on `l` empties `l`,
      puts that piece (marked as moved, if a pawn) on the destination, leaves every
      other cell alone, and removes exactly the captured piece, if any, from the
      board. */
  lemma ExecuteGenerated(b: Board, l: Location, m: Move)
    requires ValidLoc(l) && m in PieceMoves(b, l)
    ensures var r := ExecuteMove(b, m);
      At(b, l).Piece? &&
      At(r, l) == Empty &&
      At(r, m.to) == Piece(AfterMove(At(b, l).piece)) &&
      (forall l' :: ValidLoc(l') && l' != l && l' != m.to ==> At(r, l') == At(b, l')) &&
      r.running == b.running &&
      PieceCount(r) + Occ(At(b, m.to)) == PieceCount(b)
  {
    var p := At(b, l);
    var moved := Set(b, m.to, p);
    var vacated := Set(moved, l, Empty);
    SetCount(b, m.to, p);
    SetCount(moved, l, Empty);
    if m.piece.1 == Pawn(false) {
      SetCount(vacated, m.to, Piece(AfterMove(m.piece)));
    }
  }

  /** A capture takes exactly one piece off the board; any other generated move
      keeps the number of pieces. */
  lemma ExecuteCount(b: Board, l: Location, m: Move)
    requires ValidLoc(l) && m in PieceMoves(b, l)
    ensures HeldByOpponent(At(b, m.to), At(b, l).piece.0) ==> PieceCount(ExecuteMove(b, m)) == PieceCount(b) - 1
    ensures !HeldByOpponent(At(b, m.to), At(b, l).piece.0) ==> PieceCount(ExecuteMove(b, m)) == PieceCount(b)
  {
    ExecuteGenerated(b, l, m);
  }

  /** After an unmoved pawn's first generated move it stands on the destination as a
      moved pawn, and from there it never steps two cells again. */
  lemma PawnFirstMove(b: Board, l: Location, c: Color, m: Move, o: Location)
    requires ValidLoc(l) && At(b, l) == Piece((c, Pawn(false))) && m in PieceMoves(b, l)
    requires o in PawnSteps((c, Pawn(true)))
    ensures var r := ExecuteMove(b, m);
      At(r, m.to) == Piece((c, Pawn(true))) &&
      Move(m.to, Along(m.to, o, 2), (c, Pawn(true))) !in PieceMoves(r, m.to)
  {
    var r := ExecuteMove(b, m);
    ExecuteGenerated(b, l, m);
    PawnMovedSingleStep(r, m.to, c, o);
  }

  /** Replaces every cell and the running flag with those of `other`. */
  function UpdateBoard(self: Board, other: Board): (r: Board)
    ensures forall l :: ValidLoc(l) ==> At(r, l) == At(other, l)
    ensures r.running == other.running
    ensures IsRunning(r) == IsRunning(other)
  {
    self.(cells := other.cells, running := other.running)
  }

  /** After an update the board is `other` itself: nothing of the old board survives. */
  lemma UpdateBoardCopies(self: Board, other: Board)
    ensures UpdateBoard(self, other) == other
  {
    var r := UpdateBoard(self, other);
    SameCells(r, other);
  }
}
