/** The single-step pieces: the knight's 24 and the king's 18 offsets, the exact
    destination sets, and the move counts of a lone piece away from the edges. */
module LeapProofs {
  import opened Geometry
  import opened Pieces
  import opened Boards
  import opened MoveGen
  import opened SlidingProofs

  /** No offset appears twice. */
  predicate Distinct(s: seq<Location>) {
    forall i, j :: 0 <= i < j < |s| ==> s[i] != s[j]
  }

  function Abs(n: int): nat {
    if n < 0 then -n else n
  }

  /** A linear form that is positive on every seed, so negative on every mirrored seed. */
  predicate PointsForward(o: Location) {
    4 * o.x + 5 * o.y + 6 * o.z > 0
  }

  /** Mirroring distinct forward seeds yields distinct offsets. */
  lemma MirroredDistinct(seeds: seq<Location>)
    requires Distinct(seeds) && forall o :: o in seeds ==> PointsForward(o)
    ensures Distinct(Mirrored(seeds))
  {
    var r := Mirrored(seeds);
    var n := |seeds|;
    forall i, j | 0 <= i < j < |r|
      ensures r[i] != r[j]
    {
      if j < n {
        assert r[i] == seeds[i] && r[j] == seeds[j];
      } else if i >= n {
        assert Neg(r[i]) == seeds[i - n] && Neg(r[j]) == seeds[j - n];
      } else {
        assert seeds[j - n] in seeds && seeds[i] in seeds;
        assert PointsForward(r[i]) && !PointsForward(r[j]);
      }
    }
  }

  /** The knight has 24 distinct offsets: exactly the vectors moving two cells along
      one axis and one cell along another. */
  lemma KnightOffsets(o: Location)
    ensures o in Mirrored(KnightSeeds) <==>
      Abs(o.x) <= 2 && Abs(o.y) <= 2 && Abs(o.z) <= 2 && Abs(o.x) + Abs(o.y) + Abs(o.z) == 3 &&
      (o.x == 0 || o.y == 0 || o.z == 0)
  {
    KnightOffsetTable();
  }

  lemma KnightOffsetsDistinct()
    ensures |Mirrored(KnightSeeds)| == 24 && Distinct(Mirrored(KnightSeeds))
  {
    assert Distinct(KnightSeeds);
    MirroredDistinct(KnightSeeds);
  }

  lemma KnightOffsetTable()
    ensures Mirrored(KnightSeeds) == [
      Location(-1, 2, 0), Location(1, 2, 0), Location(2, -1, 0), Location(2, 1, 0),
      Location(1, 0, 2), Location(-1, 0, 2), Location(2, 0, 1), Location(2, 0, -1),
      Location(0, 1, 2), Location(0, -1, 2), Location(0, 2, 1), Location(0, 2, -1),
      Location(1, -2, 0), Location(-1, -2, 0), Location(-2, 1, 0), Location(-2, -1, 0),
      Location(-1, 0, -2), Location(1, 0, -2), Location(-2, 0, -1), Location(-2, 0, 1),
      Location(0, -1, -2), Location(0, 1, -2), Location(0, -2, -1), Location(0, -2, 1)]
  {
  }

  lemma KingOffsetTable()
    ensures Mirrored(AdjacentSeeds) == [
      Location(-1, 1, 0), Location(1, 1, 0), Location(1, 0, 0),
      Location(-1, 0, 1), Location(0, 0, 1), Location(1, 0, 1),
      Location(0, -1, 1), Location(0, 1, 1), Location(0, 1, 0),
      Location(1, -1, 0), Location(-1, -1, 0), Location(-1, 0, 0),
      Location(1, 0, -1), Location(0, 0, -1), Location(-1, 0, -1),
      Location(0, 1, -1), Location(0, -1, -1), Location(0, -1, 0)]
  {
  }

  /** The king has 18 distinct offsets: exactly the non-zero single steps that
      change at most two coordinates. */
  lemma KingOffsets(o: Location)
    ensures o in Mirrored(AdjacentSeeds) <==>
      o != Origin && Abs(o.x) <= 1 && Abs(o.y) <= 1 && Abs(o.z) <= 1 && (o.x == 0 || o.y == 0 || o.z == 0)
  {
    KingOffsetTable();
  }

  lemma KingOffsetsDistinct()
    ensures |Mirrored(AdjacentSeeds)| == 18 && Distinct(Mirrored(AdjacentSeeds))
  {
    assert Distinct(AdjacentSeeds);
    MirroredDistinct(AdjacentSeeds);
  }

  lemma KnightDispatch(b: Board, l: Location, c: Color)
    requires ValidLoc(l) && At(b, l) == Piece((c, Knight))
    ensures PieceMoves(b, l) == Leaps(b, l, (c, Knight), Mirrored(KnightSeeds))
  {
    assert At(b, l).piece.1 == Knight;
  }

  lemma KingDispatch(b: Board, l: Location, c: Color)
    requires ValidLoc(l) && At(b, l) == Piece((c, King))
    ensures PieceMoves(b, l) == Leaps(b, l, (c, King), Mirrored(AdjacentSeeds))
  {
    assert At(b, l).piece.1 == King;
  }

  /** A knight on `l` reaches `t` iff `t - l` is a knight offset and `t` is on the
      board and not held by the knight's own side; every move is stamped as a
      knight of the mover's side. */
  lemma KnightExact(b: Board, l: Location, c: Color, t: Location)
    requires ValidLoc(l) && At(b, l) == Piece((c, Knight))
    ensures Move(l, t, (c, Knight)) in PieceMoves(b, l) <==>
      Diff(t, l) in Mirrored(KnightSeeds) && ValidLoc(t) && !OwnedBy(At(b, t), c)
  {
  }

  /** A king on `l` reaches `t` iff `t - l` is a king offset and `t` is on the board
      and empty or held by the opponent. */
  lemma KingExact(b: Board, l: Location, c: Color, t: Location)
    requires ValidLoc(l) && At(b, l) == Piece((c, King))
    ensures Move(l, t, (c, King)) in PieceMoves(b, l) <==>
      Diff(t, l) in Mirrored(AdjacentSeeds) && ValidLoc(t) && (At(b, t) == Empty || HeldByOpponent(At(b, t), c))
  {
  }

  /** When every offset lands on the board and off the mover's own pieces, each
      offset yields its move, in order. */
  lemma {:induction false} LeapsAll(b: Board, l: Location, st: Stamp, offsets: seq<Location>)
    requires ValidLoc(l)
    requires forall o :: o in offsets ==> ValidLoc(Add(l, o)) && !OwnedBy(At(b, Add(l, o)), st.0)
    ensures var r := Leaps(b, l, st, offsets);
      |r| == |offsets| && forall i :: 0 <= i < |r| ==> r[i] == Move(l, Add(l, offsets[i]), st)
    decreases |offsets|
  {
    if offsets != [] {
      assert offsets[0] in offsets;
      assert forall o :: o in offsets[1..] ==> o in offsets;
      LeapsAll(b, l, st, offsets[1..]);
    }
  }

  /** With every other cell empty, a single-step piece keeps each offset that
      stays on the board. */
  lemma LeapsAlone(b: Board, l: Location, st: Stamp, offsets: seq<Location>, lo: int, hi: int)
    requires ValidLoc(l) && Alone(b, l) && NonZero(offsets)
    requires forall o :: o in offsets ==> lo <= o.x <= hi && lo <= o.y <= hi && lo <= o.z <= hi
    requires -lo <= l.x <= 7 - hi && -lo <= l.y <= 7 - hi && -lo <= l.z <= 7 - hi
    ensures var r := Leaps(b, l, st, offsets);
      |r| == |offsets| && forall i :: 0 <= i < |r| ==> r[i] == Move(l, Add(l, offsets[i]), st)
  {
    forall o | o in offsets
      ensures ValidLoc(Add(l, o)) && !OwnedBy(At(b, Add(l, o)), st.0)
    {
      assert Add(l, o) != l;
    }
    LeapsAll(b, l, st, offsets);
  }

  /** Moves built from distinct offsets have distinct destinations. */
  lemma DistinctTargets(r: seq<Move>, l: Location, st: Stamp, offsets: seq<Location>)
    requires Distinct(offsets) && |r| == |offsets|
    requires forall i :: 0 <= i < |r| ==> r[i] == Move(l, Add(l, offsets[i]), st)
    ensures forall i, j :: 0 <= i < j < |r| ==> r[i].to != r[j].to
  {
    forall i, j | 0 <= i < j < |r|
      ensures r[i].to != r[j].to
    {
      assert Diff(r[i].to, l) == offsets[i];
      assert Diff(r[j].to, l) == offsets[j];
    }
  }

  /** The knight's offsets are non-zero and move at most two cells per axis. */
  lemma KnightOffsetBounds()
    ensures Distinct(Mirrored(KnightSeeds)) && |Mirrored(KnightSeeds)| == 24
    ensures forall o :: o in Mirrored(KnightSeeds) ==>
      o != Origin && -2 <= o.x <= 2 && -2 <= o.y <= 2 && -2 <= o.z <= 2
  {
    forall o | o in Mirrored(KnightSeeds)
      ensures o != Origin && -2 <= o.x <= 2 && -2 <= o.y <= 2 && -2 <= o.z <= 2
    {
      KnightOffsets(o);
    }
    KnightOffsetsDistinct();
  }

  /** The king's offsets are non-zero single steps. */
  lemma KingOffsetBounds()
    ensures Distinct(Mirrored(AdjacentSeeds)) && |Mirrored(AdjacentSeeds)| == 18
    ensures forall o :: o in Mirrored(AdjacentSeeds) ==>
      o != Origin && -1 <= o.x <= 1 && -1 <= o.y <= 1 && -1 <= o.z <= 1
  {
    forall o | o in Mirrored(AdjacentSeeds)
      ensures o != Origin && -1 <= o.x <= 1 && -1 <= o.y <= 1 && -1 <= o.z <= 1
    {
      KingOffsets(o);
    }
    KingOffsetsDistinct();
  }

  /** A single-step piece alone on the board, far enough from every face, has one
      move per offset, to pairwise distinct cells. */
  lemma LeapsAloneDistinct(b: Board, l: Location, st: Stamp, offsets: seq<Location>, reach: int)
    requires ValidLoc(l) && Alone(b, l) && Distinct(offsets) && reach >= 0
    requires forall o :: o in offsets ==>
      o != Origin && -reach <= o.x <= reach && -reach <= o.y <= reach && -reach <= o.z <= reach
    requires reach <= l.x <= 7 - reach && reach <= l.y <= 7 - reach && reach <= l.z <= 7 - reach
    ensures var r := Leaps(b, l, st, offsets);
      |r| == |offsets| && forall i, j :: 0 <= i < j < |r| ==> r[i].to != r[j].to
  {
    LeapsAlone(b, l, st, offsets, -reach, reach);
    DistinctTargets(Leaps(b, l, st, offsets), l, st, offsets);
  }

  /** A knight alone on the board, at least two cells from every face, has 24
      moves to 24 distinct cells. */
  lemma KnightAloneCount(b: Board, l: Location, c: Color)
    requires ValidLoc(l) && Alone(b, l) && At(b, l) == Piece((c, Knight))
    requires 2 <= l.x <= 5 && 2 <= l.y <= 5 && 2 <= l.z <= 5
    ensures |PieceMoves(b, l)| == 24
    ensures forall i, j :: 0 <= i < j < |PieceMoves(b, l)| ==> PieceMoves(b, l)[i].to != PieceMoves(b, l)[j].to
  {
    KnightOffsetBounds();
    KnightDispatch(b, l, c);
    LeapsAloneDistinct(b, l, (c, Knight), Mirrored(KnightSeeds), 2);
  }

  /** A king alone on the board, off every face, has 18 moves to 18 distinct cells. */
  lemma KingAloneCount(b: Board, l: Location, c: Color)
    requires ValidLoc(l) && Alone(b, l) && At(b, l) == Piece((c, King))
    requires 1 <= l.x <= 6 && 1 <= l.y <= 6 && 1 <= l.z <= 6
    ensures |PieceMoves(b, l)| == 18
    ensures forall i, j :: 0 <= i < j < |PieceMoves(b, l)| ==> PieceMoves(b, l)[i].to != PieceMoves(b, l)[j].to
  {
    KingOffsetBounds();
    KingDispatch(b, l, c);
    LeapsAloneDistinct(b, l, (c, King), Mirrored(AdjacentSeeds), 1);
  }
}
