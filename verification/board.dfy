/** The 8x8x8 board: cells, the running flag, lookups and writes, and the
    starting position. */
module Boards {
  import opened Geometry
  import opened Pieces

  /** The cells of the lattice in flat order (see `Geometry.Index`). */
  type Grid = s: seq<Cell> | |s| == CellCount witness EmptyGrid()

  function EmptyGrid(): (s: seq<Cell>)
    ensures |s| == CellCount
  {
    seq(CellCount, _ => Empty)
  }

  datatype Board = Board(cells: Grid, running: bool)

  /** Direct lookup; the caller must have validated the location. */
  function At(b: Board, l: Location): Cell
    requires ValidLoc(l)
  {
    b.cells[Index(l)]
  }

  /** Direct write; the caller must have validated the location. */
  function Set(b: Board, l: Location, c: Cell): (r: Board)
    requires ValidLoc(l)
    ensures forall l' :: ValidLoc(l') ==> At(r, l') == if l' == l then c else At(b, l')
    ensures r.running == b.running
  {
    var r := b.(cells := b.cells[Index(l) := c]);
    forall l' | ValidLoc(l')
      ensures At(r, l') == if l' == l then c else At(b, l')
    {
      IndexInjective(l, l');
    }
    r
  }

  function IsRunning(b: Board): bool {
    b.running
  }

  /** Two boards agree on every cell of the lattice exactly when their grids are equal. */
  lemma {:induction false} SameCells(a: Board, b: Board)
    requires forall l :: ValidLoc(l) ==> At(a, l) == At(b, l)
    ensures a.cells == b.cells
  {
    forall i | 0 <= i < CellCount
      ensures a.cells[i] == b.cells[i]
    {
      LocOfIndex(i);
      assert At(a, LocOf(i)) == At(b, LocOf(i));
    }
  }

  // ---------------------------------------------------------------------------
  // Counting occupied cells

  function Occ(c: Cell): nat {
    if c.Piece? then 1 else 0
  }

  /** Number of occupied cells among positions lo..hi-1. */
  function CountRange(s: seq<Cell>, lo: nat, hi: nat): nat
    requires lo <= hi <= |s|
    decreases hi - lo
  {
    if lo == hi then 0 else CountRange(s, lo, hi - 1) + Occ(s[hi - 1])
  }

  /** Number of occupied cells of a board. */
  function PieceCount(b: Board): nat {
    CountRange(b.cells, 0, CellCount)
  }

  lemma {:induction false} CountSplit(s: seq<Cell>, lo: nat, mid: nat, hi: nat)
    requires lo <= mid <= hi <= |s|
    ensures CountRange(s, lo, hi) == CountRange(s, lo, mid) + CountRange(s, mid, hi)
    decreases hi - mid
  {
    if mid < hi {
      CountSplit(s, lo, mid, hi - 1);
    }
  }

  lemma {:induction false} CountNone(s: seq<Cell>, lo: nat, hi: nat)
    requires lo <= hi <= |s|
    requires forall i :: lo <= i < hi ==> s[i] == Empty
    ensures CountRange(s, lo, hi) == 0
    decreases hi - lo
  {
    if lo < hi {
      CountNone(s, lo, hi - 1);
    }
  }

  /** Overwriting one position changes the count by the occupancy difference. */
  lemma {:induction false} CountUpdate(s: seq<Cell>, i: nat, c: Cell, lo: nat, hi: nat)
    requires i < |s| && lo <= hi <= |s|
    ensures lo <= i < hi ==> CountRange(s[i := c], lo, hi) + Occ(s[i]) == CountRange(s, lo, hi) + Occ(c)
    ensures !(lo <= i < hi) ==> CountRange(s[i := c], lo, hi) == CountRange(s, lo, hi)
    decreases hi - lo
  {
    if lo < hi {
      CountUpdate(s, i, c, lo, hi - 1);
    }
  }

  /** The piece count after a write, in terms of the cell it replaces. */
  lemma SetCount(b: Board, l: Location, c: Cell)
    requires ValidLoc(l)
    ensures PieceCount(Set(b, l, c)) + Occ(At(b, l)) == PieceCount(b) + Occ(c)
  {
    CountUpdate(b.cells, Index(l), c, 0, CellCount);
  }

  // ---------------------------------------------------------------------------
  // Starting position

  /** Back-rank order along x: Rook, Knight, Bishop, Queen, King, Bishop, Knight, Rook. */
  function BackRank(x: int): Kind
    requires 0 <= x <= 7
  {
    if x == 0 || x == 7 then Rook
    else if x == 1 || x == 6 then Knight
    else if x == 2 || x == 5 then Bishop
    else if x == 3 then Queen
    else King
  }

  /** Closed form of the starting position: White pawns at (x,1,0) and back rank at
      (x,0,0); Black pawns at (x,6,7) and back rank at (x,7,7); every other cell empty. */
  function StartCell(l: Location): Cell
    requires ValidLoc(l)
  {
    if l.y == 1 && l.z == 0 then Piece((White, Pawn(false)))
    else if l.y == 6 && l.z == 7 then Piece((Black, Pawn(false)))
    else if l.y == 0 && l.z == 0 then Piece((White, BackRank(l.x)))
    else if l.y == 7 && l.z == 7 then Piece((Black, BackRank(l.x)))
    else Empty
  }

  function StartBoard(): Board {
    Board(seq(CellCount, i requires 0 <= i < CellCount => StartCell(LocOf(i))), true)
  }

  lemma StartBoardAt(l: Location)
    requires ValidLoc(l)
    ensures At(StartBoard(), l) == StartCell(l)
  {
    IndexLocOf(l);
  }

  /** The two pawn rows, for x < n, on an otherwise empty board. */
  function PawnRows(l: Location, n: int): Cell {
    if l.x < n && l.y == 1 && l.z == 0 then Piece((White, Pawn(false)))
    else if l.x < n && l.y == 6 && l.z == 7 then Piece((Black, Pawn(false)))
    else Empty
  }

  /** Writes the back rank of side `c` at (x, y, z) for x in 0..7, in the order of `lib.rs`. */
  method PlaceBackRank(b: Board, y: int, z: int, c: Color) returns (r: Board)
    requires 0 <= y <= 7 && 0 <= z <= 7
    ensures forall l :: ValidLoc(l) ==>
      At(r, l) == if l.y == y && l.z == z then Piece((c, BackRank(l.x))) else At(b, l)
    ensures r.running == b.running
  {
    r := Set(b, Location(0, y, z), Piece((c, Rook)));
    r := Set(r, Location(7, y, z), Piece((c, Rook)));
    r := Set(r, Location(1, y, z), Piece((c, Knight)));
    r := Set(r, Location(6, y, z), Piece((c, Knight)));
    r := Set(r, Location(2, y, z), Piece((c, Bishop)));
    r := Set(r, Location(5, y, z), Piece((c, Bishop)));
    r := Set(r, Location(3, y, z), Piece((c, Queen)));
    r := Set(r, Location(4, y, z), Piece((c, King)));
  }

  /** Builds the starting position by the same sequence of writes as `lib.rs`:
      an empty grid, the two pawn rows, then the two back ranks. */
  method NewBoard() returns (b: Board)
    ensures b == StartBoard()
  {
    b := Board(EmptyGrid(), true);
    for i := 0 to 8
      invariant b.running
      invariant forall l :: ValidLoc(l) ==> At(b, l) == PawnRows(l, i)
    {
      b := Set(b, Location(i, 1, 0), Piece((White, Pawn(false))));
      b := Set(b, Location(i, 6, 7), Piece((Black, Pawn(false))));
    }
    b := PlaceBackRank(b, 0, 0, White);
    b := PlaceBackRank(b, 7, 7, Black);
    forall l | ValidLoc(l)
      ensures At(b, l) == At(StartBoard(), l)
    {
      StartBoardAt(l);
    }
    SameCells(b, StartBoard());
  }
}
