/** The pawn: its straight walk is exactly the run of empty cells ahead of it,
    two cells for an unmoved pawn and one for a moved one; it captures only onto
    the opponent's pieces; White advances towards +y/+z and Black towards -y/-z. */
module PawnProofs {
  import opened Geometry
  import opened Pieces
  import opened Boards
  import opened MoveGen

  /** The first `k` cells along `o` from `l` are all on the board and empty. */
  ghost predicate StepsClear(b: Board, l: Location, o: Location, k: int) {
    forall j :: 1 <= j <= k ==> ValidLoc(Along(l, o, j)) && At(b, Along(l, o, j)) == Empty
  }

  /** Every destination of the walk from its `k0`-th cell onwards is the k-th cell
      for some k in k0..maxd, with the first k cells clear. */
  lemma {:induction false} PawnWalkSound(b: Board, l: Location, st: Stamp, o: Location, k0: int, maxd: int, t: Location)
    requires ValidLoc(l) && k0 >= 1 && StepsClear(b, l, o, k0 - 1)
    requires Move(l, t, st) in PawnWalk(b, l, st, Along(l, o, k0), o, k0, maxd)
    ensures exists k :: k0 <= k <= maxd && StepsClear(b, l, o, k) && t == Along(l, o, k)
    decreases maxd - k0
  {
    var loc := Along(l, o, k0);
    assert StepsClear(b, l, o, k0);
    if t != loc {
      AlongSucc(l, o, k0);
      PawnWalkSound(b, l, st, o, k0 + 1, maxd, t);
    }
  }

  /** The walk from its `k0`-th cell onwards reaches the k-th cell whenever the
      first k cells are clear and k is within reach. */
  lemma {:induction false} PawnWalkComplete(b: Board, l: Location, st: Stamp, o: Location, k0: int, maxd: int, k: int)
    requires ValidLoc(l) && 1 <= k0 <= k <= maxd && StepsClear(b, l, o, k)
    ensures Move(l, Along(l, o, k), st) in PawnWalk(b, l, st, Along(l, o, k0), o, k0, maxd)
    decreases k - k0
  {
    assert ValidLoc(Along(l, o, k0)) && At(b, Along(l, o, k0)) == Empty;
    if k0 < k {
      AlongSucc(l, o, k0);
      PawnWalkComplete(b, l, st, o, k0 + 1, maxd, k);
    }
  }

  /** The straight walk along `o` reaches `t` iff `t` is the k-th cell along `o`
      for some k in 1..maxd and the first k cells are all on the board and empty. */
  lemma PawnWalkExact(b: Board, l: Location, st: Stamp, o: Location, maxd: int, t: Location)
    requires ValidLoc(l)
    ensures Move(l, t, st) in PawnWalk(b, l, st, Add(l, o), o, 1, maxd) <==>
      exists k :: 1 <= k <= maxd && StepsClear(b, l, o, k) && t == Along(l, o, k)
  {
    assert Along(l, o, 1) == Add(l, o);
    if Move(l, t, st) in PawnWalk(b, l, st, Add(l, o), o, 1, maxd) {
      PawnWalkSound(b, l, st, o, 1, maxd, t);
    }
    if exists k :: 1 <= k <= maxd && StepsClear(b, l, o, k) && t == Along(l, o, k) {
      var k :| 1 <= k <= maxd && StepsClear(b, l, o, k) && t == Along(l, o, k);
      PawnWalkComplete(b, l, st, o, 1, maxd, k);
    }
  }

  /** A straight pawn move of `st` from `l` to `t`: along one of its steps, at most
      its reach, over empty cells only. */
  ghost predicate PawnAdvance(b: Board, l: Location, st: Stamp, t: Location) {
    exists o, k :: o in PawnSteps(st) && 1 <= k <= PawnReach(st) && StepsClear(b, l, o, k) && t == Along(l, o, k)
  }

  /** A pawn capture of `st` from `l` onto `t`: a capture offset away, on the board,
      onto a piece of the opposing side. */
  predicate PawnCapture(b: Board, l: Location, st: Stamp, t: Location) {
    Diff(t, l) in PawnCaptureOffsets(st) && ValidLoc(t) && HeldByOpponent(At(b, t), st.0)
  }

  lemma PawnDispatch(b: Board, l: Location)
    requires ValidLoc(l) && At(b, l).Piece? && At(b, l).piece.1.Pawn?
    ensures PieceMoves(b, l) == PawnMoves(b, l)
  {
  }

  /** The pawn generator reaches `t` iff `t` is a straight advance or a capture
      for the stamp of the source cell. */
  lemma PawnMovesExact(b: Board, l: Location, t: Location)
    requires ValidLoc(l)
    ensures var st := SourceStamp(At(b, l));
      Move(l, t, st) in PawnMoves(b, l) <==> PawnAdvance(b, l, st, t) || PawnCapture(b, l, st, t)
  {
    var st := SourceStamp(At(b, l));
    var steps := PawnSteps(st);
    var m := Move(l, t, st);
    var w0 := PawnWalk(b, l, st, Add(l, steps[0]), steps[0], 1, PawnReach(st));
    var w1 := PawnWalk(b, l, st, Add(l, steps[1]), steps[1], 1, PawnReach(st));
    var cs := PawnCaptures(b, l, st, PawnCaptureOffsets(st));
    assert m in PawnMoves(b, l) <==> m in w0 || m in w1 || m in cs;
    PawnWalkExact(b, l, st, steps[0], PawnReach(st), t);
    PawnWalkExact(b, l, st, steps[1], PawnReach(st), t);
    if PawnAdvance(b, l, st, t) {
      var o, k :| o in steps && 1 <= k <= PawnReach(st) && StepsClear(b, l, o, k) && t == Along(l, o, k);
      assert o == steps[0] || o == steps[1];
    }
    if m in w0 {
      assert steps[0] in steps;
    }
    if m in w1 {
      assert steps[1] in steps;
    }
    if PawnCapture(b, l, st, t) {
      assert Add(l, Diff(t, l)) == t;
    }
  }

  /** A pawn on `l` reaches `t` iff `t` is a straight advance or a capture. */
  lemma PawnExact(b: Board, l: Location, t: Location)
    requires ValidLoc(l) && At(b, l).Piece? && At(b, l).piece.1.Pawn?
    ensures var st := At(b, l).piece;
      Move(l, t, st) in PieceMoves(b, l) <==> PawnAdvance(b, l, st, t) || PawnCapture(b, l, st, t)
  {
    PawnDispatch(b, l);
    PawnMovesExact(b, l, t);
  }

  // ---------------------------------------------------------------------------
  // Consequences for each side

  /** The direction a side's pawns advance in: +1 for White, -1 for Black. */
  function Forward(c: Color): int {
    if c == White then 1 else -1
  }

  /** A pawn's straight steps and capture offsets, written out: White's as listed,
      Black's the same vectors negated. */
  lemma PawnOffsetTable(c: Color, moved: bool)
    ensures PawnSteps((c, Pawn(moved))) ==
      [Location(0, Forward(c), 0), Location(0, 0, Forward(c))]
    ensures PawnCaptureOffsets((c, Pawn(moved))) ==
      [Location(-Forward(c), Forward(c), 0), Location(Forward(c), Forward(c), 0),
       Location(Forward(c), 0, Forward(c)), Location(-Forward(c), 0, Forward(c)),
       Location(-Forward(c), Forward(c), Forward(c)), Location(Forward(c), Forward(c), Forward(c))]
  {
  }

  /** `t` lies forward of `l` for side `c`: not behind along y or z, ahead along one. */
  predicate AheadOf(t: Location, l: Location, c: Color) {
    var f := Forward(c);
    f * (t.y - l.y) >= 0 && f * (t.z - l.z) >= 0 && f * (t.y - l.y) + f * (t.z - l.z) > 0
  }

  lemma AdvanceAhead(l: Location, c: Color, moved: bool, o: Location, k: int)
    requires o in PawnSteps((c, Pawn(moved))) && k >= 1
    ensures AheadOf(Along(l, o, k), l, c)
  {
    PawnOffsetTable(c, moved);
    if c == White {
      assert o == Location(0, 1, 0) || o == Location(0, 0, 1);
    } else {
      assert o == Location(0, -1, 0) || o == Location(0, 0, -1);
    }
  }

  lemma CaptureAhead(l: Location, c: Color, moved: bool, t: Location)
    requires Diff(t, l) in PawnCaptureOffsets((c, Pawn(moved)))
    ensures AheadOf(t, l, c)
  {
    PawnOffsetTable(c, moved);
  }

  /** Every pawn move goes forward for its side: never backwards along y or z and
      strictly forward along at least one of them. */
  lemma PawnForward(b: Board, l: Location, m: Move)
    requires ValidLoc(l) && At(b, l).Piece? && At(b, l).piece.1.Pawn?
    requires m in PieceMoves(b, l)
    ensures AheadOf(m.to, l, At(b, l).piece.0)
  {
    var st := At(b, l).piece;
    PawnExact(b, l, m.to);
    assert m == Move(l, m.to, st);
    if PawnAdvance(b, l, st, m.to) {
      var o, k :| o in PawnSteps(st) && 1 <= k <= PawnReach(st) && StepsClear(b, l, o, k) && m.to == Along(l, o, k);
      AdvanceAhead(l, st.0, st.1.moved, o, k);
    } else {
      CaptureAhead(l, st.0, st.1.moved, m.to);
    }
  }

  /** The k-th cell along a step keeps x and moves `k` cells forward along y or z. */
  lemma AdvanceStraight(l: Location, c: Color, moved: bool, o: Location, k: int)
    requires o in PawnSteps((c, Pawn(moved)))
    ensures o == Location(0, Forward(c), 0) || o == Location(0, 0, Forward(c))
    ensures o == Location(0, Forward(c), 0) ==> Along(l, o, k) == Location(l.x, l.y + Forward(c) * k, l.z)
    ensures o == Location(0, 0, Forward(c)) ==> Along(l, o, k) == Location(l.x, l.y, l.z + Forward(c) * k)
  {
    PawnOffsetTable(c, moved);
  }

  /** A pawn stamp: the colour and moved flag of a pawn. */
  predicate IsPawn(st: Stamp) {
    st.1.Pawn?
  }

  /** The straight-or-capture split, on the move predicates alone. */
  lemma TargetKinds(b: Board, l: Location, st: Stamp, t: Location)
    requires ValidLoc(l) && IsPawn(st) && (PawnAdvance(b, l, st, t) || PawnCapture(b, l, st, t))
    ensures ValidLoc(t)
    ensures t.x == l.x ==> At(b, t) == Empty
    ensures t.x != l.x ==> HeldByOpponent(At(b, t), st.0)
  {
    if PawnAdvance(b, l, st, t) {
      var o, k :| o in PawnSteps(st) && 1 <= k <= PawnReach(st) && StepsClear(b, l, o, k) && t == Along(l, o, k);
      AdvanceStraight(l, st.0, st.1.moved, o, k);
    } else {
      PawnOffsetTable(st.0, st.1.moved);
    }
  }

  /** A pawn move that keeps x lands on an empty cell; one that changes x
      captures an opposing piece. */
  lemma PawnStraightOrCapture(b: Board, l: Location, t: Location)
    requires ValidLoc(l) && At(b, l).Piece? && At(b, l).piece.1.Pawn?
    requires Move(l, t, At(b, l).piece) in PieceMoves(b, l)
    ensures t.x == l.x ==> At(b, t) == Empty
    ensures t.x != l.x ==> HeldByOpponent(At(b, t), At(b, l).piece.0)
  {
    PawnExact(b, l, t);
    TargetKinds(b, l, At(b, l).piece, t);
  }

  /** A capture offset is never a straight advance. */
  lemma CaptureNotAdvance(b: Board, l: Location, st: Stamp, t: Location)
    requires IsPawn(st) && Diff(t, l) in PawnCaptureOffsets(st)
    ensures !PawnAdvance(b, l, st, t)
  {
    PawnOffsetTable(st.0, st.1.moved);
    if PawnAdvance(b, l, st, t) {
      var o, k :| o in PawnSteps(st) && 1 <= k <= PawnReach(st) && StepsClear(b, l, o, k) && t == Along(l, o, k);
      AdvanceStraight(l, st.0, st.1.moved, o, k);
    }
  }

  /** Onto a capture offset a pawn moves iff the cell is on the board and holds an
      opposing piece: it never moves diagonally onto an empty cell. */
  lemma PawnCaptureExact(b: Board, l: Location, t: Location)
    requires ValidLoc(l) && At(b, l).Piece? && At(b, l).piece.1.Pawn?
    requires Diff(t, l) in PawnCaptureOffsets(At(b, l).piece)
    ensures Move(l, t, At(b, l).piece) in PieceMoves(b, l) <==>
      ValidLoc(t) && HeldByOpponent(At(b, t), At(b, l).piece.0)
  {
    PawnExact(b, l, t);
    CaptureNotAdvance(b, l, At(b, l).piece, t);
  }

  /** The k-th cell along a step is a pawn target iff it is a straight advance of
      exactly k cells. */
  lemma StepTarget(b: Board, l: Location, st: Stamp, o: Location, k: int)
    requires IsPawn(st) && o in PawnSteps(st)
    ensures PawnAdvance(b, l, st, Along(l, o, k)) || PawnCapture(b, l, st, Along(l, o, k)) <==>
      1 <= k <= PawnReach(st) && StepsClear(b, l, o, k)
  {
    var t := Along(l, o, k);
    AdvanceStraight(l, st.0, st.1.moved, o, k);
    if PawnAdvance(b, l, st, t) {
      var o', k' :| o' in PawnSteps(st) && 1 <= k' <= PawnReach(st) && StepsClear(b, l, o', k') && t == Along(l, o', k');
      AdvanceStraight(l, st.0, st.1.moved, o', k');
      assert o' == o && k' == k;
    } else if PawnCapture(b, l, st, t) {
      PawnOffsetTable(st.0, st.1.moved);
    }
  }

  /** Along one of its steps a pawn reaches the k-th cell iff k is within its
      reach and the first k cells are on the board and empty. */
  lemma PawnStepExact(b: Board, l: Location, o: Location, k: int)
    requires ValidLoc(l) && At(b, l).Piece? && At(b, l).piece.1.Pawn?
    requires o in PawnSteps(At(b, l).piece)
    ensures Move(l, Along(l, o, k), At(b, l).piece) in PieceMoves(b, l) <==>
      1 <= k <= PawnReach(At(b, l).piece) && StepsClear(b, l, o, k)
  {
    PawnExact(b, l, Along(l, o, k));
    StepTarget(b, l, At(b, l).piece, o, k);
  }

  /** Two cells are clear exactly when the first and the second are on the board and empty. */
  lemma TwoClear(b: Board, l: Location, o: Location)
    ensures StepsClear(b, l, o, 2) <==>
      ValidLoc(Along(l, o, 1)) && At(b, Along(l, o, 1)) == Empty &&
      ValidLoc(Along(l, o, 2)) && At(b, Along(l, o, 2)) == Empty
  {
  }

  /** An unmoved pawn steps two cells ahead iff both cells are on the board and empty. */
  lemma PawnDoubleStep(b: Board, l: Location, c: Color, o: Location)
    requires ValidLoc(l) && At(b, l) == Piece((c, Pawn(false)))
    requires o in PawnSteps((c, Pawn(false)))
    ensures Move(l, Along(l, o, 2), (c, Pawn(false))) in PieceMoves(b, l) <==>
      ValidLoc(Along(l, o, 1)) && At(b, Along(l, o, 1)) == Empty &&
      ValidLoc(Along(l, o, 2)) && At(b, Along(l, o, 2)) == Empty
  {
    PawnStepExact(b, l, o, 2);
    TwoClear(b, l, o);
  }

  /** A pawn that has moved never steps two cells, but still steps one cell onto an
      empty cell ahead. */
  lemma PawnMovedSingleStep(b: Board, l: Location, c: Color, o: Location)
    requires ValidLoc(l) && At(b, l) == Piece((c, Pawn(true)))
    requires o in PawnSteps((c, Pawn(true)))
    ensures Move(l, Along(l, o, 2), (c, Pawn(true))) !in PieceMoves(b, l)
    ensures Move(l, Along(l, o, 1), (c, Pawn(true))) in PieceMoves(b, l) <==>
      ValidLoc(Along(l, o, 1)) && At(b, Along(l, o, 1)) == Empty
  {
    PawnStepExact(b, l, o, 2);
    PawnStepExact(b, l, o, 1);
  }
}
