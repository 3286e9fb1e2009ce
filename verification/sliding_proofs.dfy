/** The walk of the sliding pieces: exactly the empty cells up to the first
    occupied one, that cell included iff it holds an opponent; and the move
    count of a rook alone on the board. */
module SlidingProofs {
  import opened Geometry
  import opened Pieces
  import opened Boards
  import opened MoveGen

  /** Every cell strictly between `l` and `Along(l, d, k)` is on the board and empty. */
  ghost predicate PathClear(b: Board, l: Location, d: Location, k: int) {
    forall j :: 1 <= j < k ==> ValidLoc(Along(l, d, j)) && At(b, Along(l, d, j)) == Empty
  }

  /** `Along(l, d, k)` is a destination of the walk for side `side`: it is on the
      board, the path to it is clear, and it is empty or held by the opponent. */
  ghost predicate SlideTarget(b: Board, l: Location, d: Location, k: int, side: Color) {
    k >= 1 && ValidLoc(Along(l, d, k)) && PathClear(b, l, d, k) && !OwnedBy(At(b, Along(l, d, k)), side)
  }

  /** The walk from the k0-th cell onwards, given a clear path up to it. */
  lemma {:induction false} RayFrom(b: Board, l: Location, st: Stamp, d: Location, k0: int, t: Location)
    requires ValidLoc(l) && d != Origin && k0 >= 1 && PathClear(b, l, d, k0)
    ensures Move(l, t, st) in Ray(b, l, st, Along(l, d, k0), d) <==>
      exists k :: k >= k0 && SlideTarget(b, l, d, k, st.0) && t == Along(l, d, k)
    decreases Budget(Along(l, d, k0), d)
  {
    var loc := Along(l, d, k0);
    if !ValidLoc(loc) {
      assert forall k :: SlideTarget(b, l, d, k, st.0) ==> k < k0;
    } else {
      AlongSucc(l, d, k0);
      BudgetStep(loc, d);
      match At(b, loc)
      case Empty =>
        assert PathClear(b, l, d, k0 + 1);
        RayFrom(b, l, st, d, k0 + 1, t);
        if t == loc {
          assert SlideTarget(b, l, d, k0, st.0);
        }
        if exists k :: k >= k0 && SlideTarget(b, l, d, k, st.0) && t == Along(l, d, k) {
          var k :| k >= k0 && SlideTarget(b, l, d, k, st.0) && t == Along(l, d, k);
          if k > k0 {
            assert k >= k0 + 1 && SlideTarget(b, l, d, k, st.0) && t == Along(l, d, k);
          }
        }
      case Piece(p) =>
        assert forall k :: SlideTarget(b, l, d, k, st.0) ==> k <= k0;
        if p.0 != st.0 && t == loc {
          assert SlideTarget(b, l, d, k0, st.0);
        }
    }
  }

  /** The moves of one ray are exactly the slide targets along its direction. */
  lemma RayExact(b: Board, l: Location, st: Stamp, d: Location, t: Location)
    requires ValidLoc(l) && d != Origin
    ensures Move(l, t, st) in Ray(b, l, st, Add(l, d), d) <==>
      exists k :: SlideTarget(b, l, d, k, st.0) && t == Along(l, d, k)
  {
    assert Along(l, d, 1) == Add(l, d);
    RayFrom(b, l, st, d, 1, t);
  }

  /** The walk stops at the first occupied cell: nothing beyond it is a destination. */
  lemma RayStopsAtPiece(b: Board, l: Location, st: Stamp, d: Location, k: int, k': int)
    requires ValidLoc(l) && d != Origin
    requires 1 <= k < k' && ValidLoc(Along(l, d, k)) && At(b, Along(l, d, k)).Piece?
    ensures Move(l, Along(l, d, k'), st) !in Ray(b, l, st, Add(l, d), d)
  {
    RayExact(b, l, st, d, Along(l, d, k'));
    forall k2 | SlideTarget(b, l, d, k2, st.0)
      ensures Along(l, d, k') != Along(l, d, k2)
    {
      assert k2 <= k;
      AlongInjective(l, d, k', k2);
    }
  }

  /** The moves of a set of rays are exactly the slide targets along any of its directions. */
  lemma {:induction false} SlidesExact(b: Board, l: Location, st: Stamp, dirs: seq<Location>, t: Location)
    requires ValidLoc(l) && NonZero(dirs)
    ensures Move(l, t, st) in Slides(b, l, st, dirs) <==>
      exists d, k :: d in dirs && SlideTarget(b, l, d, k, st.0) && t == Along(l, d, k)
    decreases |dirs|
  {
    if dirs != [] {
      var d0 := dirs[0];
      assert d0 in dirs;
      assert forall d :: d in dirs[1..] ==> d in dirs;
      RayExact(b, l, st, d0, t);
      SlidesExact(b, l, st, dirs[1..], t);
      if exists d, k :: d in dirs && SlideTarget(b, l, d, k, st.0) && t == Along(l, d, k) {
        var d, k :| d in dirs && SlideTarget(b, l, d, k, st.0) && t == Along(l, d, k);
        if d != d0 {
          assert d in dirs[1..];
        }
      }
    }
  }

  /** Mirroring closes a direction set under negation. */
  lemma MirroredClosed(seeds: seq<Location>, d: Location)
    requires d in Mirrored(seeds)
    ensures Neg(d) in Mirrored(seeds)
  {
    var r := Mirrored(seeds);
    var i :| 0 <= i < |r| && r[i] == d;
    if i < |seeds| {
      assert r[|seeds| + i] == Neg(d);
    } else {
      assert r[i - |seeds|] == Neg(d);
    }
  }

  /** A rook, bishop or queen on `l` reaches `t` iff `t` is a slide target along one
      of the mirrored seeds; the mirrored set holds the negation of each of its directions. */
  lemma SlidingExact(b: Board, l: Location, t: Location)
    requires ValidLoc(l) && At(b, l).Piece? && At(b, l).piece.1 in {Rook, Bishop, Queen}
    ensures var st := At(b, l).piece;
      var seeds := if st.1 == Rook then RookSeeds else if st.1 == Bishop then BishopSeeds else AdjacentSeeds;
      (Move(l, t, st) in PieceMoves(b, l) <==>
        exists d, k :: d in Mirrored(seeds) && SlideTarget(b, l, d, k, st.0) && t == Along(l, d, k))
      && forall d :: d in Mirrored(seeds) ==> Neg(d) in Mirrored(seeds)
  {
    var st := At(b, l).piece;
    var seeds := if st.1 == Rook then RookSeeds else if st.1 == Bishop then BishopSeeds else AdjacentSeeds;
    MirroredNonZero(seeds);
    SlidesExact(b, l, st, Mirrored(seeds), t);
    forall d | d in Mirrored(seeds)
      ensures Neg(d) in Mirrored(seeds)
    {
      MirroredClosed(seeds, d);
    }
  }

  // ---------------------------------------------------------------------------
  // A rook alone on the board

  /** Every cell but `l` is empty. */
  ghost predicate Alone(b: Board, l: Location) {
    forall l' :: ValidLoc(l') && l' != l ==> At(b, l') == Empty
  }

  /** The number of cells from `loc` onwards along `d` that lie on the board. */
  function Steps(loc: Location, d: Location): nat
    requires d != Origin
    decreases Budget(loc, d)
  {
    if !ValidLoc(loc) then 0
    else
      BudgetStep(loc, d);
      1 + Steps(Add(loc, d), d)
  }

  /** With the board empty apart from `l`, a ray runs to the edge of the board. */
  lemma {:induction false} RayAlone(b: Board, l: Location, st: Stamp, d: Location, k0: int)
    requires ValidLoc(l) && d != Origin && k0 >= 1 && Alone(b, l)
    ensures |Ray(b, l, st, Along(l, d, k0), d)| == Steps(Along(l, d, k0), d)
    decreases Budget(Along(l, d, k0), d)
  {
    var loc := Along(l, d, k0);
    if ValidLoc(loc) {
      AlongSucc(l, d, k0);
      BudgetStep(loc, d);
      assert loc != l by {
        assert Scale(d, k0) != Origin;
      }
      RayAlone(b, l, st, d, k0 + 1);
    }
  }

  /** A unit step along one axis. */
  predicate AxisStep(d: Location) {
    d in [Location(1, 0, 0), Location(-1, 0, 0), Location(0, 1, 0),
          Location(0, -1, 0), Location(0, 0, 1), Location(0, 0, -1)]
  }

  /** Along an axis the cells left on the board are exactly the walk's budget. */
  lemma {:induction false} StepsAxis(loc: Location, d: Location)
    requires AxisStep(d)
    ensures Steps(loc, d) == Budget(loc, d)
    decreases Budget(loc, d)
  {
    if ValidLoc(loc) {
      BudgetStep(loc, d);
      StepsAxis(Add(loc, d), d);
    }
  }

  /** The total budget of the rays from `l` in the given directions. */
  function RayBudgets(l: Location, dirs: seq<Location>): nat
    decreases |dirs|
  {
    if dirs == [] then 0 else Budget(Add(l, dirs[0]), dirs[0]) + RayBudgets(l, dirs[1..])
  }

  /** With the board empty apart from `l`, axis rays together reach every cell
      up to the edges. */
  lemma {:induction false} SlidesAlone(b: Board, l: Location, st: Stamp, dirs: seq<Location>)
    requires ValidLoc(l) && Alone(b, l) && NonZero(dirs)
    requires forall d :: d in dirs ==> AxisStep(d)
    ensures |Slides(b, l, st, dirs)| == RayBudgets(l, dirs)
    decreases |dirs|
  {
    if dirs != [] {
      var d := dirs[0];
      assert d in dirs;
      assert Along(l, d, 1) == Add(l, d);
      RayAlone(b, l, st, d, 1);
      StepsAxis(Add(l, d), d);
      assert forall d' :: d' in dirs[1..] ==> d' in dirs;
      SlidesAlone(b, l, st, dirs[1..]);
    }
  }

  /** A rook's moves are the rays along the mirrored rook seeds. */
  lemma RookDispatch(b: Board, l: Location, c: Color)
    requires ValidLoc(l) && At(b, l) == Piece((c, Rook))
    ensures NonZero(Mirrored(RookSeeds))
    ensures PieceMoves(b, l) == Slides(b, l, (c, Rook), Mirrored(RookSeeds))
  {
    MirroredNonZero(RookSeeds);
    assert At(b, l).piece.1 == Rook;
  }

  /** The rook's directions are the six axis steps, and their rays from any cell
      cover 21 cells up to the edges. */
  lemma RookBudgets(l: Location)
    requires ValidLoc(l)
    ensures forall d :: d in Mirrored(RookSeeds) ==> AxisStep(d)
    ensures RayBudgets(l, Mirrored(RookSeeds)) == 21
  {
    var dirs := Mirrored(RookSeeds);
    assert dirs == [Location(1, 0, 0), Location(0, 0, 1), Location(0, 1, 0),
                    Location(-1, 0, 0), Location(0, 0, -1), Location(0, -1, 0)];
    assert RayBudgets(l, dirs[5..]) == l.y;
    assert RayBudgets(l, dirs[4..]) == l.z + l.y;
    assert RayBudgets(l, dirs[3..]) == l.x + l.z + l.y;
    assert RayBudgets(l, dirs[2..]) == 7 + l.x + l.z;
    assert RayBudgets(l, dirs[1..]) == 14 + l.x;
  }

  /** A rook alone on the board has 21 moves wherever it stands: seven cells
      along each axis. */
  lemma RookAloneCount(b: Board, l: Location, c: Color)
    requires ValidLoc(l) && Alone(b, l) && At(b, l) == Piece((c, Rook))
    ensures |PieceMoves(b, l)| == 21
  {
    RookDispatch(b, l, c);
    RookBudgets(l);
    SlidesAlone(b, l, (c, Rook), Mirrored(RookSeeds));
  }

  /** `t` and `l` agree on two of their three coordinates. */
  predicate SharesTwo(t: Location, l: Location) {
    (t.x == l.x && t.y == l.y) || (t.x == l.x && t.z == l.z) || (t.y == l.y && t.z == l.z)
  }

  /** Strictly between two coordinates in 0..7 of a unit walk, coordinates stay in 0..7. */
  lemma UnitBetween(a: int, s: int, j: int, k: int)
    requires s == 1 || s == -1
    requires 0 <= a <= 7 && 0 <= a + s * k <= 7 && 1 <= j < k
    ensures 0 <= a + s * j <= 7 && s * j != 0
  {
    if s == 1 {
      assert s * j == j && s * k == k;
    } else {
      assert s * j == -j && s * k == -k;
    }
  }

  /** The cells strictly between two cells of the board on one axis line are on
      the board, and none of them is the first. */
  lemma AxisBetween(l: Location, d: Location, j: int, k: int)
    requires AxisStep(d) && ValidLoc(l) && ValidLoc(Along(l, d, k)) && 1 <= j < k
    ensures ValidLoc(Along(l, d, j)) && Along(l, d, j) != l
  {
    var p, q := Along(l, d, j), Along(l, d, k);
    if d.x != 0 {
      assert d.y == 0 && d.z == 0;
      UnitBetween(l.x, d.x, j, k);
    } else if d.y != 0 {
      assert d.z == 0;
      UnitBetween(l.y, d.y, j, k);
    } else {
      UnitBetween(l.z, d.z, j, k);
    }
  }

  /** On a board empty apart from `l`, every cell on the board along an axis from
      `l` is a slide target. */
  lemma AxisTarget(b: Board, l: Location, c: Color, d: Location, k: int)
    requires ValidLoc(l) && Alone(b, l) && AxisStep(d) && k >= 1 && ValidLoc(Along(l, d, k))
    ensures SlideTarget(b, l, d, k, c)
  {
    forall j | 1 <= j < k
      ensures ValidLoc(Along(l, d, j)) && At(b, Along(l, d, j)) == Empty
    {
      AxisBetween(l, d, j, k);
    }
    assert Scale(d, k) != Origin;
  }

  /** The axis step from `l` towards a distinct cell `t` sharing two coordinates with it. */
  function AxisToward(l: Location, t: Location): (d: Location)
    requires SharesTwo(t, l) && t != l
    ensures AxisStep(d) && d in Mirrored(RookSeeds)
    ensures exists k :: k >= 1 && t == Along(l, d, k)
  {
    var rook := Mirrored(RookSeeds);
    assert rook == [Location(1, 0, 0), Location(0, 0, 1), Location(0, 1, 0),
                    Location(-1, 0, 0), Location(0, 0, -1), Location(0, -1, 0)];
    if t.x > l.x then
      assert t == Along(l, Location(1, 0, 0), t.x - l.x);
      Location(1, 0, 0)
    else if t.x < l.x then
      assert t == Along(l, Location(-1, 0, 0), l.x - t.x);
      Location(-1, 0, 0)
    else if t.y > l.y then
      assert t == Along(l, Location(0, 1, 0), t.y - l.y);
      Location(0, 1, 0)
    else if t.y < l.y then
      assert t == Along(l, Location(0, -1, 0), l.y - t.y);
      Location(0, -1, 0)
    else if t.z > l.z then
      assert t == Along(l, Location(0, 0, 1), t.z - l.z);
      Location(0, 0, 1)
    else
      assert t == Along(l, Location(0, 0, -1), l.z - t.z);
      Location(0, 0, -1)
  }

  /** A cell a non-zero number of axis steps away differs from `l` on one axis only. */
  lemma AxisLine(l: Location, d: Location, k: int)
    requires AxisStep(d) && k != 0
    ensures SharesTwo(Along(l, d, k), l) && Along(l, d, k) != l
  {
    assert Scale(d, k) != Origin;
    if d.x != 0 {
      assert d.y == 0 && d.z == 0;
    } else if d.y != 0 {
      assert d.z == 0;
    }
  }

  /** A rook alone on the board reaches exactly the other cells that share two of
      its three coordinates: it varies one axis at a time over the whole board. */
  lemma RookAloneTargets(b: Board, l: Location, c: Color, t: Location)
    requires ValidLoc(l) && Alone(b, l) && At(b, l) == Piece((c, Rook))
    ensures Move(l, t, (c, Rook)) in PieceMoves(b, l) <==> ValidLoc(t) && t != l && SharesTwo(t, l)
  {
    SlidingExact(b, l, t);
    RookBudgets(l);
    var rook := Mirrored(RookSeeds);
    if exists d, k :: d in rook && SlideTarget(b, l, d, k, c) && t == Along(l, d, k) {
      var d, k :| d in rook && SlideTarget(b, l, d, k, c) && t == Along(l, d, k);
      AxisLine(l, d, k);
    }
    if ValidLoc(t) && t != l && SharesTwo(t, l) {
      var d := AxisToward(l, t);
      var k :| k >= 1 && t == Along(l, d, k);
      AxisTarget(b, l, c, d, k);
    }
  }
}
