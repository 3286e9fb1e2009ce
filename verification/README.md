# chess3d rule engine in Dafny

This project models the rule engine of chess3d, a chess variant played on an
8×8×8 lattice. That engine is `src/chess3d/src/lib.rs` of the Rust repository.
The model covers these parts of it:

- Locations are integer triples, with component-wise addition and scaling by an
  integer.
- A cell is either empty or holds a piece. A piece is a side (Black or White)
  and a kind. The pawn kind carries a "has moved" flag.
- The board is 512 cells plus a running flag.
- The fixed starting position.
- One move generator per piece kind, and the dispatch `piece_moves` over the
  occupant of a cell.
- `execute_move` and `update_board`.

Boards and moves are immutable values, and every operation is a function or a
method that returns a new board.

Modules:

- `Geometry`: locations, `+` and `*` on them, the board-range predicate, and
  the flat cell index.
- `Pieces`: sides, kinds, cells and move records.
- `Boards`: the board, `at`/`set`, the piece count, and `Board::new`.
- `MoveGen`: the offset tables and the generators for each piece kind.
- `StartProofs`: properties of the starting position.
- `SlidingProofs`: properties of the rook, bishop and queen.
- `LeapProofs`: properties of the knight and king.
- `PawnProofs`: properties of the pawn.
- `Execution`: executing a move and replacing a board.

Some modelling choices:

- The Rust board is a nested `[[[BoardState; 8]; 8]; 8]` indexed `[x][y][z]`.
  Here it is a flat sequence of 512 cells at position `64x + 8y + z`, and
  `Geometry.IndexInjective` proves that mapping one-to-one.
- `at` and `set` cast each component to `usize` and index without checking,
  so an out-of-range location panics. The model states this as a `requires`
  that the location lies on the board.
- Each generator is a recursive function that returns the moves in the order
  the Rust loops push them.
- A sliding walk stops because each step uses up part of a finite budget: the
  number of steps left before the board edge along each axis.
- The pawn walk stops after at most `max_distance` cells.

The server executes every move it receives without checking whose turn it is
or who owns the piece (`src/chess-server/src/main.rs:55-60`). This model follows the code:
`ExecuteMove` checks nothing about the move.

## Model

| member | source | states |
|---|---|---|
| `Geometry.AddLaws` | src/chess3d/src/lib.rs:46-56 | locations under `+` form a group: the origin is the identity, addition is commutative, associative and cancellative, and adding the mirror image gives the origin |
| `Geometry.Scale` | src/chess3d/src/lib.rs:58-77 | scaling by 1 is the identity and scaling by 0 gives the origin; the result is the origin iff the factor is 0 or the vector is the origin |
| `Geometry.NegInvolution` | src/chess3d/src/lib.rs:58-68 | multiplying by -1 twice gives back the offset, and only the origin is its own mirror image |
| `Geometry.IndexInjective` | src/chess3d/src/lib.rs:163-170 | distinct on-board locations address distinct cells, so a write at one location never touches another |
| `Geometry.IndexLocOf` | src/chess3d/src/lib.rs:121-124 | the flat index of an on-board location decodes back to that location (x outermost, z innermost) |
| `Geometry.AlongInjective` | src/chess3d/src/lib.rs:363-376 | along a non-zero direction, different step counts reach different cells |
| `Geometry.BudgetStep` | src/chess3d/src/lib.rs:363-377 | a step in a non-zero direction from an on-board cell strictly lowers the steps left to the edge, so the sliding `while` loop terminates |
| `Boards.Set` | src/chess3d/src/lib.rs:168-170 | after a write, the written cell holds the new content, every other on-board cell is unchanged, and the running flag is kept |
| `Boards.SetCount` | src/chess3d/src/lib.rs:168-170 | after a write, the piece count changes by the occupancy of the new content minus that of the replaced content |
| `Boards.PlaceBackRank` | src/chess3d/src/lib.rs:137-154 | the eight back-rank writes, done in source order, put Rook, Knight, Bishop, Queen, King, Bishop, Knight, Rook at x = 0..7 of one row and touch nothing else |
| `Boards.NewBoard` | src/chess3d/src/lib.rs:127-161 | building the board by the sequence of writes in `lib.rs` gives exactly the closed-form starting position |
| `StartProofs.StartPieceCount` | src/chess3d/src/lib.rs:127-161 | the starting board is running and holds exactly 32 pieces |
| `StartProofs.StartOccupancy` | src/chess3d/src/lib.rs:129-154 | a cell is occupied iff it lies on rows (y,z) = (0,0), (1,0), (6,7) or (7,7); White owns exactly the z = 0 rows; pawns stand exactly on y = 1 and y = 6, unmoved |
| `StartProofs.StartSymmetric` | src/chess3d/src/lib.rs:129-154 | (x,y,z) holds White kind k iff (x,7-y,7-z) holds Black kind k |
| `StartProofs.StartKings` | src/chess3d/src/lib.rs:137-154 | each side has exactly one king, at (4,0,0) for White and (4,7,7) for Black |
| `MoveGen.NegatedMembers` | src/chess3d/src/lib.rs:205-211 | an offset is in the negated table exactly when its mirror image is in the original table |
| `MoveGen.MirroredMembers` | src/chess3d/src/lib.rs:350-354 | an offset is in the mirrored table exactly when it or its mirror image is a seed |
| `MoveGen.Leaps` | src/chess3d/src/lib.rs:277-293 | a kept move leaves the source, lands on the board one listed offset away and not on the mover's own side; every such offset is kept; there are no more moves than offsets |
| `MoveGen.PawnCaptures` | src/chess3d/src/lib.rs:231-246 | a capture is kept iff its target is on the board, one capture offset away, and holds a piece of the other side |
| `MoveGen.PieceMoves` | src/chess3d/src/lib.rs:429-445 | an empty source has no moves; every move starts at the source, ends elsewhere on the board (each component in 0..7, as `location_is_valid` checks), carries the source piece, and never lands on the mover's own side |
| `SlidingProofs.RayExact` | src/chess3d/src/lib.rs:363-377 | a sliding walk reaches `t` iff `t` is k steps along the direction with every cell before it on the board and empty, and `t` itself empty or held by the opponent |
| `SlidingProofs.RayStopsAtPiece` | src/chess3d/src/lib.rs:366-374 | nothing beyond the first occupied cell of a walk is ever a destination |
| `SlidingProofs.SlidesExact` | src/chess3d/src/lib.rs:362-378 | the moves of a set of walks are exactly the slide targets along any of the directions |
| `SlidingProofs.MirroredClosed` | src/chess3d/src/lib.rs:350-354 | a mirrored direction set contains the negation of each of its directions |
| `SlidingProofs.SlidingExact` | src/chess3d/src/lib.rs:299-382 | a rook, bishop or queen reaches `t` iff `t` is a slide target along one of its mirrored seeds, and its direction set is closed under negation |
| `SlidingProofs.RookAloneCount` | src/chess3d/src/lib.rs:336-382 | a rook alone on the board has exactly 21 moves, wherever it stands |
| `SlidingProofs.RookAloneTargets` | src/chess3d/src/lib.rs:336-382 | a rook alone on the board reaches exactly the other cells that share two of its three coordinates |
| `SlidingProofs.RookBudgets` | src/chess3d/src/lib.rs:336-348 | the rook's six directions are the axis steps, and from any cell they leave 21 cells before the edges |
| `LeapProofs.KnightOffsets` | src/chess3d/src/lib.rs:250-273 | an offset is a knight offset iff it moves at most two cells per axis, three cells in total, with at least one axis unchanged |
| `LeapProofs.KnightOffsetsDistinct` | src/chess3d/src/lib.rs:250-273 | the knight has 24 offsets and no two are equal |
| `LeapProofs.KingOffsets` | src/chess3d/src/lib.rs:384-408 | an offset is a king offset iff it is a non-zero single step that keeps at least one axis unchanged |
| `LeapProofs.KingOffsetsDistinct` | src/chess3d/src/lib.rs:384-408 | the king has 18 offsets and no two are equal |
| `LeapProofs.KnightExact` | src/chess3d/src/lib.rs:250-297 | a knight reaches `t` iff `t` is a knight offset away, on the board, and not held by its own side; moves are stamped as a knight of the mover's side |
| `LeapProofs.KingExact` | src/chess3d/src/lib.rs:384-427 | a king reaches `t` iff `t` is a king offset away, on the board, and empty or held by the opponent |
| `LeapProofs.LeapsAll` | src/chess3d/src/lib.rs:277-293 | when every offset lands on the board and not on the mover's side, the i-th move goes to the i-th offset |
| `LeapProofs.MirroredDistinct` | src/chess3d/src/lib.rs:271-273 | mirroring distinct seeds that all point forward yields distinct offsets |
| `LeapProofs.KnightAloneCount` | src/chess3d/src/lib.rs:250-297 | a knight alone on the board, at least two cells from every face, has 24 moves to 24 distinct cells |
| `LeapProofs.KingAloneCount` | src/chess3d/src/lib.rs:384-427 | a king alone on the board, off every face, has 18 moves to 18 distinct cells |
| `PawnProofs.PawnWalkExact` | src/chess3d/src/lib.rs:218-230 | a straight walk reaches `t` iff `t` is k cells ahead for some k in 1..max_distance, with all of the first k cells on the board and empty |
| `PawnProofs.PawnMovesExact` | src/chess3d/src/lib.rs:180-248 | the pawn generator reaches `t` iff `t` is a straight advance within reach or a capture onto the other side |
| `PawnProofs.PawnExact` | src/chess3d/src/lib.rs:429-434 | a pawn found by the dispatch reaches exactly its advances and its captures |
| `PawnProofs.PawnOffsetTable` | src/chess3d/src/lib.rs:186-211 | White steps along +y and +z and captures along the six listed vectors; Black uses the same vectors negated |
| `PawnProofs.PawnForward` | src/chess3d/src/lib.rs:186-211 | every pawn move goes forward for its side: never backward in y or z, and strictly forward in at least one |
| `PawnProofs.PawnStraightOrCapture` | src/chess3d/src/lib.rs:218-246 | a pawn move that keeps x lands on an empty cell, and one that changes x captures an opposing piece |
| `PawnProofs.PawnCaptureExact` | src/chess3d/src/lib.rs:231-246 | onto a capture offset a pawn moves iff the target is on the board and holds an opposing piece, so it never moves diagonally onto an empty cell |
| `PawnProofs.PawnStepExact` | src/chess3d/src/lib.rs:198-230 | along a step a pawn reaches the k-th cell iff k is at most its reach (2 unmoved, 1 moved) and the first k cells are on the board and empty |
| `PawnProofs.PawnDoubleStep` | src/chess3d/src/lib.rs:198-230 | an unmoved pawn steps two cells iff both cells are on the board and empty |
| `PawnProofs.PawnMovedSingleStep` | src/chess3d/src/lib.rs:198-230 | a moved pawn never steps two cells, and steps one cell iff that cell is on the board and empty |
| `Execution.AfterMove` | src/chess3d/src/lib.rs:450-453 | marking a piece as moved keeps its side and kind, sets the pawn flag, and changes nothing else |
| `Execution.ExecuteMove` | src/chess3d/src/lib.rs:447-455 | only the from and to cells change; `from` becomes empty; `to` gets the former `from` content, or a moved pawn of the stamped side when the stamp is an unmoved pawn; the running flag is kept |
| `Execution.ExecuteGenerated` | src/chess3d/src/lib.rs:447-455 | executing a generated move empties the source, puts the piece (pawn marked as moved) on the destination, leaves every other cell alone, and lowers the piece count by the number of pieces captured |
| `Execution.ExecuteCount` | src/chess3d/src/lib.rs:447-455 | a capture removes exactly one piece; any other generated move keeps the count |
| `Execution.PawnFirstMove` | src/chess3d/src/lib.rs:447-455 | after an unmoved pawn's first move, it stands on the destination as a moved pawn and never steps two cells again |
| `Execution.UpdateBoard` | src/chess3d/src/lib.rs:457-464 | every cell and the running flag (as `is_running` reports it) are those of the other board |
| `Execution.UpdateBoardCopies` | src/chess3d/src/lib.rs:457-460 | after an update the board equals the other board, and nothing of the old board survives |

## Left out

- The server (`src/chess-server`), the networking helpers (`src/chess3d-common`) and both clients (`src/chess-net-client`, `src/console-player`) are left out. They are TCP I/O, threads, locks, JSON serialisation and terminal UI.
- The server's lack of turn and ownership checks is not modelled as a property, because the server is left out. It is recorded above only as the reason `ExecuteMove` checks nothing.
- `Pieces::character` and the `Display` impls (lib.rs:467-508) are left out. They are text rendering for the UI.
- The `isize` width of coordinates is not modelled. Coordinates are unbounded integers, and every value the generators compute stays within a few cells of the board, far from overflow.
- `Location::new`, `From<(isize, isize, isize)>`, `Move::new`, `Move::from` and `Move::to` are plain construction and field access. They are modelled as the datatype constructors and destructors, with no separate members.
- `location_is_valid` and `is_running` are modelled as the predicate `Geometry.ValidLoc` and the function `Boards.IsRunning`, and have no rows of their own. The first is what `PieceMoves` guarantees of every destination. The second is what `StartPieceCount`, `ExecuteMove` and `UpdateBoard` state about the running flag.
- Nothing in the engine ever clears the running flag, and the model does not invent a way to clear it.
- `pawn_moves`, `king_moves` and `queen_rook_bishop_moves` fall back to the stamp of an unmoved White pawn when the source cell is empty, while `knight_moves` returns no moves for an empty source cell. The model keeps that fallback (`Pieces.SourceStamp`). It is never reached through `piece_moves`, which returns no moves for an empty source.
- The generator functions `MoveGen.Ray`, `MoveGen.Slides`, `MoveGen.QueenRookBishopMoves` and `MoveGen.PawnWalk` have no rows of their own. Their contracts state only soundness, and the exact characterisations are the lemmas `RayExact`, `SlidesExact`, `SlidingExact` and `PawnWalkExact`.
- `Boards.At`, `MoveGen.KnightMoves`, `MoveGen.KingMoves`, `MoveGen.QueenMoves`, `MoveGen.BishopMoves`, `MoveGen.RookMoves` and `MoveGen.PawnMoves` have no rows of their own. `At` is characterised through `Boards.Set` and `Geometry.IndexInjective`; the generators by `KnightExact`, `KingExact`, `SlidingExact` and `PawnMovesExact`.
- `Geometry.Add`, `MoveGen.Negated` and `MoveGen.Mirrored` have no rows of their own. Their contracts only fix the result position by position, and their laws are the lemmas `AddLaws`, `NegatedMembers` and `MirroredMembers`.
- `ExecuteMove` is modelled exactly as written for any move on the board, including a move not produced by the generator. Its properties for generated moves are stated separately, in `ExecuteGenerated`.
