/** Sides, piece kinds, cell contents and move records. */
module Pieces {
  import opened Geometry

  datatype Color = Black | White

  /** The pawn's flag records that it has completed its first move. */
  datatype Kind = Pawn(moved: bool) | Rook | Bishop | Queen | King | Knight

  /** A piece identity: its side and its kind. */
  type Stamp = (Color, Kind)

  /** The content of one cell of the lattice. */
  datatype Cell = Piece(piece: Stamp) | Empty

  /** A move stamped, at generation time, with the identity of the piece that makes it. */
  datatype Move = Move(from: Location, to: Location, piece: Stamp)

  /** True iff the cell holds a piece of side `c`. */
  predicate OwnedBy(cell: Cell, c: Color) {
    cell.Piece? && cell.piece.0 == c
  }

  /** True iff the cell holds a piece of the side opposing `c`. */
  predicate HeldByOpponent(cell: Cell, c: Color) {
    cell.Piece? && cell.piece.0 != c
  }

  /** The identity the generators stamp on moves from a cell; an empty cell
      falls back to an unmoved White pawn. */
  function SourceStamp(cell: Cell): (st: Stamp)
    ensures cell.Piece? ==> st == cell.piece
  {
    match cell
    case Piece(p) => p
    case Empty => (White, Pawn(false))
  }
}
