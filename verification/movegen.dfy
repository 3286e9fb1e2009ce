/** Move generation: one generator per piece kind and the dispatch over the
    occupant of the source cell. Every generator lists its moves in the order
    `lib.rs` pushes them. */
module MoveGen {
  import opened Geometry
  import opened Pieces
  import opened Boards

  // ---------------------------------------------------------------------------
  // Offset tables

  /** Each offset multiplied by -1, in order. */
  function Negated(s: seq<Location>): (r: seq<Location>)
    ensures |r| == |s|
    ensures forall i :: 0 <= i < |s| ==> r[i] == Neg(s[i])
  {
    seq(|s|, i requires 0 <= i < |s| => Neg(s[i]))
  }

  /** The seeds followed by their mirror images, as built by pushing
      `offsets[i] * -1` for every seed. */
  function Mirrored(seeds: seq<Location>): (r: seq<Location>)
    ensures |r| == 2 * |seeds|
    ensures forall i :: 0 <= i < |seeds| ==> r[i] == seeds[i] && r[|seeds| + i] == Neg(seeds[i])
  {
    seeds + Negated(seeds)
  }

  /** An offset occurs in the negated table exactly when its mirror image occurs
      in the original table. */
  lemma NegatedMembers(s: seq<Location>, x: Location)
    ensures x in Negated(s) <==> Neg(x) in s
  {
    var r := Negated(s);
    NegInvolution(x);
    if x in r {
      var i :| 0 <= i < |r| && r[i] == x;
      NegInvolution(s[i]);
      assert s[i] == Neg(x);
    }
    if Neg(x) in s {
      var i :| 0 <= i < |s| && s[i] == Neg(x);
      assert r[i] == x;
    }
  }

  /** A mirrored table holds exactly the seeds and their mirror images. */
  lemma MirroredMembers(seeds: seq<Location>, d: Location)
    ensures d in Mirrored(seeds) <==> d in seeds || Neg(d) in seeds
  {
    NegatedMembers(seeds, d);
  }

  /** The twelve knight offsets: the L-shape in the xy, xz and yz planes. */
  const KnightSeeds: seq<Location> := [
    Location(-1, 2, 0), Location(1, 2, 0), Location(2, -1, 0), Location(2, 1, 0),
    Location(1, 0, 2), Location(-1, 0, 2), Location(2, 0, 1), Location(2, 0, -1),
    Location(0, 1, 2), Location(0, -1, 2), Location(0, 2, 1), Location(0, 2, -1)]

  /** The nine adjacent-cell seeds shared by the queen and the king: the axis
      steps and the in-plane diagonals of the xy, xz and yz planes. */
  const AdjacentSeeds: seq<Location> := [
    Location(-1, 1, 0), Location(1, 1, 0), Location(1, 0, 0),
    Location(-1, 0, 1), Location(0, 0, 1), Location(1, 0, 1),
    Location(0, -1, 1), Location(0, 1, 1), Location(0, 1, 0)]

  /** The bishop's seeds: the in-plane diagonals only. */
  const BishopSeeds: seq<Location> := [
    Location(-1, 1, 0), Location(1, 1, 0),
    Location(-1, 0, 1), Location(1, 0, 1),
    Location(0, -1, 1), Location(0, 1, 1)]

  /** The rook's seeds: one step along each axis. */
  const RookSeeds: seq<Location> := [Location(1, 0, 0), Location(0, 0, 1), Location(0, 1, 0)]

  /** White's pawn steps: forward along y and along z. */
  const PawnStepSeeds: seq<Location> := [Location(0, 1, 0), Location(0, 0, 1)]

  /** White's pawn capture offsets. */
  const PawnCaptureSeeds: seq<Location> := [
    Location(-1, 1, 0), Location(1, 1, 0), Location(1, 0, 1),
    Location(-1, 0, 1), Location(-1, 1, 1), Location(1, 1, 1)]

  predicate NonZero(dirs: seq<Location>) {
    forall d :: d in dirs ==> d != Origin
  }

  lemma MirroredNonZero(seeds: seq<Location>)
    requires NonZero(seeds)
    ensures NonZero(Mirrored(seeds))
  {
    var r := Mirrored(seeds);
    forall d | d in r
      ensures d != Origin
    {
      var i :| 0 <= i < |r| && r[i] == d;
      if i >= |seeds| {
        var s := seeds[i - |seeds|];
        assert s in seeds && r[i] == Neg(s) == Scale(s, -1);
      } else {
        assert r[i] == seeds[i] && seeds[i] in seeds;
      }
    }
  }

  // ---------------------------------------------------------------------------
  // Single-step pieces: knight and king

  /** `l + o` for each offset `o` in order, kept iff it is on the board and not
      held by a piece of the side `st.0`. */
  function Leaps(b: Board, l: Location, st: Stamp, offsets: seq<Location>): (r: seq<Move>)
    requires ValidLoc(l)
    ensures |r| <= |offsets|
    ensures forall m :: m in r ==>
      m.from == l && m.piece == st && ValidLoc(m.to) && !OwnedBy(At(b, m.to), st.0) && Diff(m.to, l) in offsets
    ensures forall o :: o in offsets && ValidLoc(Add(l, o)) && !OwnedBy(At(b, Add(l, o)), st.0) ==>
      Move(l, Add(l, o), st) in r
    decreases |offsets|
  {
    if offsets == [] then []
    else
      var t := Add(l, offsets[0]);
      var keep := ValidLoc(t) && match At(b, t) { case Empty => true case Piece(p) => p.0 != st.0 };
      var rest := Leaps(b, l, st, offsets[1..]);
      assert forall o :: o in offsets[1..] ==> o in offsets;
      if keep then [Move(l, t, st)] + rest else rest
  }

  function KnightMoves(b: Board, l: Location): seq<Move>
    requires ValidLoc(l)
  {
    var cell := At(b, l);
    if cell.Piece? then Leaps(b, l, (cell.piece.0, Knight), Mirrored(KnightSeeds)) else []
  }

  function KingMoves(b: Board, l: Location): seq<Move>
    requires ValidLoc(l)
  {
    Leaps(b, l, SourceStamp(At(b, l)), Mirrored(AdjacentSeeds))
  }

  // ---------------------------------------------------------------------------
  // Sliding pieces: rook, bishop and queen

  /** The walk from `loc` onwards in direction `d`: empty cells are kept and the
      walk goes on; the first occupied cell ends it and is kept iff it holds an
      opponent. */
  function Ray(b: Board, l: Location, st: Stamp, loc: Location, d: Location): (r: seq<Move>)
    requires ValidLoc(l) && d != Origin
    ensures forall m :: m in r ==> m.from == l && m.piece == st && ValidLoc(m.to) && !OwnedBy(At(b, m.to), st.0)
    decreases Budget(loc, d)
  {
    if !ValidLoc(loc) then []
    else
      BudgetStep(loc, d);
      match At(b, loc)
      case Empty => [Move(l, loc, st)] + Ray(b, l, st, Add(loc, d), d)
      case Piece(p) => if p.0 == st.0 then [] else [Move(l, loc, st)]
  }

  /** The rays from `l` in every direction, concatenated in order. */
  function Slides(b: Board, l: Location, st: Stamp, dirs: seq<Location>): (r: seq<Move>)
    requires ValidLoc(l) && NonZero(dirs)
    ensures forall m :: m in r ==> m.from == l && m.piece == st && ValidLoc(m.to) && !OwnedBy(At(b, m.to), st.0)
    decreases |dirs|
  {
    if dirs == [] then []
    else
      assert dirs[0] in dirs;
      assert forall d :: d in dirs[1..] ==> d in dirs;
      Ray(b, l, st, Add(l, dirs[0]), dirs[0]) + Slides(b, l, st, dirs[1..])
  }

  /** The shared walk of the rook, bishop and queen over the mirrored seeds. */
  function QueenRookBishopMoves(b: Board, l: Location, seeds: seq<Location>): (r: seq<Move>)
    requires ValidLoc(l) && NonZero(seeds)
    ensures forall m :: m in r ==>
      m.from == l && m.piece == SourceStamp(At(b, l)) && ValidLoc(m.to) && !OwnedBy(At(b, m.to), SourceStamp(At(b, l)).0)
  {
    MirroredNonZero(seeds);
    Slides(b, l, SourceStamp(At(b, l)), Mirrored(seeds))
  }

  function QueenMoves(b: Board, l: Location): seq<Move>
    requires ValidLoc(l)
  {
    QueenRookBishopMoves(b, l, AdjacentSeeds)
  }

  function BishopMoves(b: Board, l: Location): seq<Move>
    requires ValidLoc(l)
  {
    QueenRookBishopMoves(b, l, BishopSeeds)
  }

  function RookMoves(b: Board, l: Location): seq<Move>
    requires ValidLoc(l)
  {
    QueenRookBishopMoves(b, l, RookSeeds)
  }

  // ---------------------------------------------------------------------------
  // Pawn

  /** Straight steps from `loc` onwards along `o`: at most `maxd - dist + 1` cells,
      stopping at the first cell that is off the board or not empty. */
  function PawnWalk(b: Board, l: Location, st: Stamp, loc: Location, o: Location, dist: int, maxd: int): (r: seq<Move>)
    requires ValidLoc(l)
    ensures forall m :: m in r ==> m.from == l && m.piece == st && ValidLoc(m.to) && At(b, m.to) == Empty
    decreases maxd - dist
  {
    if ValidLoc(loc) && dist <= maxd then
      match At(b, loc)
      case Empty => [Move(l, loc, st)] + PawnWalk(b, l, st, Add(loc, o), o, dist + 1, maxd)
      case Piece(_) => []
    else []
  }

  /** `l + o` for each capture offset in order, kept iff it is on the board and
      holds a piece of the side opposing `st.0`. */
  function PawnCaptures(b: Board, l: Location, st: Stamp, caps: seq<Location>): (r: seq<Move>)
    requires ValidLoc(l)
    ensures forall m :: m in r ==>
      m.from == l && m.piece == st && ValidLoc(m.to) && HeldByOpponent(At(b, m.to), st.0) && Diff(m.to, l) in caps
    ensures forall o :: o in caps && ValidLoc(Add(l, o)) && HeldByOpponent(At(b, Add(l, o)), st.0) ==>
      Move(l, Add(l, o), st) in r
    decreases |caps|
  {
    if caps == [] then []
    else
      var t := Add(l, caps[0]);
      var rest := PawnCaptures(b, l, st, caps[1..]);
      assert forall o :: o in caps[1..] ==> o in caps;
      if ValidLoc(t) && HeldByOpponent(At(b, t), st.0) then [Move(l, t, st)] + rest else rest
  }

  /** A Black pawn uses every offset negated. */
  predicate IsBlackPawn(st: Stamp) {
    st.0 == Black && st.1.Pawn?
  }

  function PawnSteps(st: Stamp): (r: seq<Location>)
    ensures |r| == 2
  {
    if IsBlackPawn(st) then Negated(PawnStepSeeds) else PawnStepSeeds
  }

  function PawnCaptureOffsets(st: Stamp): seq<Location> {
    if IsBlackPawn(st) then Negated(PawnCaptureSeeds) else PawnCaptureSeeds
  }

  /** An unmoved pawn may walk two cells, a moved one a single cell. */
  function PawnReach(st: Stamp): int {
    if st.1 == Pawn(false) then 2 else 1
  }

  function PawnMoves(b: Board, l: Location): seq<Move>
    requires ValidLoc(l)
  {
    var st := SourceStamp(At(b, l));
    var steps := PawnSteps(st);
    PawnWalk(b, l, st, Add(l, steps[0]), steps[0], 1, PawnReach(st))
      + PawnWalk(b, l, st, Add(l, steps[1]), steps[1], 1, PawnReach(st))
      + PawnCaptures(b, l, st, PawnCaptureOffsets(st))
  }

  // ---------------------------------------------------------------------------
  // Dispatch

  /** The moves of the piece on `l`: none from an empty cell; otherwise every
      move leaves `l`, lands on the board, never on a piece of the mover's own
      side, and carries the mover's identity. */
  function PieceMoves(b: Board, l: Location): (r: seq<Move>)
    requires ValidLoc(l)
    ensures At(b, l) == Empty ==> r == []
    ensures forall m :: m in r ==>
      m.from == l && m.to != l && ValidLoc(m.to) && m.piece == At(b, l).piece &&
      !OwnedBy(At(b, m.to), At(b, l).piece.0)
  {
    var cell := At(b, l);
    if cell.Empty? then []
    else
      match cell.piece.1
      case Pawn(_) => PawnMoves(b, l)
      case Knight => KnightMoves(b, l)
      case Queen => QueenMoves(b, l)
      case Bishop => BishopMoves(b, l)
      case Rook => RookMoves(b, l)
      case King => KingMoves(b, l)
  }
}
