# Checkers move rules in Dafny

A model of the move-rule engine of a console checkers game written in C++.
The model covers:

- the 8×8 board of optional pieces, its starting position and its text picture;
- the game-over scan;
- the one-step move rule of a Pawn and of a Queen;
- the recursive longest-capture-chain search, which moves pieces on the shared board and then undoes the moves;
- the execution of one capture step;
- the parsing of coordinate characters;
- the forced-capture turn logic of the human player;
- the stand-alone move applier.

The board is a class over an `array2<Option<Piece>>`.
`Board.Cells()` is its value view: a `Grid` of rows, where `g[x][y]` is row x, column y.
Imperative code stays imperative:

- the board's loops;
- the search's move and undo around the recursive call;
- the capture step;
- the two scans of the turn logic;
- the restoring loop.

Each of these is a method proved equal to a function on grids.
The properties the code promises are lemmas about those functions.

Files:

- `pieces.dfy`: pieces and cells.
- `squares.dfy`: the square object.
- `boards.dfy`: the board, its starting position, the game-over scan and piece counts.
- `render.dfy`: the board picture.
- `pawn.dfy`: the Pawn rule, the capture search and the capture step.
- `queen.dfy`: the Queen rule.
- `rules.dfy`: dispatch on the kind of piece.
- `move.dfy`: `Move::makeMove`.
- `humanplayer.dfy`: `convertCoordinate` and `HumanPlayer::makeMove`.
- `outcomes.dfy`: the error kinds.

Conventions:

- Exceptions become `Err` results. The board keeps the changes made before the throw.
- Console input becomes parameters.
- A Pawn's `isWhite` argument to `canMove` means "moves towards higher rows". The turn logic passes `!isWhitePlayerTurn`, so white moves towards row 0.

## Model

| member | source | states |
|---|---|---|
| Pieces.Piece.SetWhite | Piece.cpp:18-20 | after setWhite(b) the piece reports colour b and keeps its kind; setting the colour it already has changes nothing |
| Pieces.SetWhiteTwice | Piece.cpp:18-20 | of two setWhite calls, only the second one matters |
| Squares.Square.constructor | Square.cpp:10 | the square stores the given x, y and piece |
| Squares.Square.GetX | Square.cpp:23-25 | returns the stored row |
| Squares.Square.GetY | Square.cpp:31-33 | returns the stored column |
| Squares.Square.GetPiece | Square.cpp:39-41 | returns the stored piece |
| Squares.Square.SetPiece | Square.cpp:47-49 | replaces the piece and leaves x and y alone |
| Squares.SetThenGet | Square.cpp:10-49 | reading a square gives back the piece most recently set and the coordinates it was built with |
| Boards.Board.constructor | Board.cpp:7-14 | a fresh 8×8 board whose 64 cells are all empty |
| Boards.Board.GetSquare | Board.cpp:72-74 | for in-bounds (x, y), returns the slot reporting coordinates (x, y) and the piece at row x, column y |
| Boards.Board.GameCreation | Board.cpp:76-110 | the board becomes the starting position: black Pawns on rows 0-2 and white Pawns on rows 5-7, on the cells whose column parity differs from the row parity; rows 3-4 are empty |
| Boards.InitialCounts | Board.cpp:76-110 | the starting position has 12 pieces of each colour, and rows 3 and 4 are empty |
| Boards.InitialNotOver | Board.cpp:38-110 | the starting position has pieces of both colours, so the game-over scan reports no winner |
| Boards.Board.CheckGameOver | Board.cpp:38-70 | whitePiecesLeft and blackPiecesLeft tell whether a piece of each colour is on the board; the result is true iff one colour is missing; the phase becomes GameOver exactly then; no cell changes |
| Boards.SeenBeforeIff | Board.cpp:43-60 | after scanning a prefix of the cells in row order, the flag of a colour is set iff a piece of that colour lies in the scanned prefix |
| Boards.HasColourIffCount | Board.cpp:38-70 | a colour is present iff its piece count is positive |
| Boards.Board.UpdateSquare | Board.cpp:156-168 | cell (x, y) takes the given content and no other cell changes |
| Boards.Board.PromoteQueen | Board.cpp:170-190 | the board becomes the promoted grid; no cell other than (x, y) changes |
| Boards.PromotedCells | Board.cpp:170-190 | cell (x, y) becomes a Queen of the pawn's colour iff the piece is a Pawn and either it is white on row 0 or black on row 7; otherwise the board is unchanged |
| Boards.CountAfterSet | Board.cpp:156-163 | overwriting one cell changes a colour's count by exactly the change at that cell |
| Rendering.Render | Board.cpp:112-154 | the text written is the picture of the board's grid |
| Rendering.RenderedLength | Board.cpp:114-152 | the picture always has 257 characters: 2 header lines, 8 row lines of 22 characters, 2 footer lines |
| Rendering.RenderedAt | Board.cpp:116-149 | row i's line begins and ends with the digit i+1, and carries the glyph of cell (i, j) followed by a bar at a fixed offset |
| Rendering.GlyphRoundTrip | Board.cpp:124-145 | W/B/w/b/space name exactly one kind of cell each: reading the glyph back gives the cell |
| Rendering.RenderedDeterminesGrid | Board.cpp:112-154 | the picture loses nothing: the grid can be read back from it, and two grids with the same picture are equal |
| Pawn.CanMoveIff | Pawn.cpp:38-71 | canMove holds iff the end is on the board and empty, one row forward for the colour given and one column to either side |
| Pawn.CanMoveRefusesOccupied | Pawn.cpp:50-52 | an occupied end square is refused whatever the geometry |
| Pawn.CountCapturingMoves | Pawn.cpp:132-190 | after the search every cell holds what it held before, and the result is the longest jump-chain length |
| Pawn.TryDirection | Pawn.cpp:145-186 | one direction of the search: performs the jump if available, recurses, undoes it exactly, and yields 1 + the deeper chain or 0 |
| Pawn.JumpUndone | Pawn.cpp:178-181 | the three undo writes restore the grid exactly |
| Pawn.JumpCells | Pawn.cpp:166-170 | a simulated jump empties the jumped square and copies the mover to the landing square; the origin stays occupied |
| Pawn.JumpLowersCapturable | Pawn.cpp:158-173 | each jump removes exactly one of the pieces the search can still jump, whatever the moving piece's colour (the termination measure) |
| Pawn.BestOfIsMax | Pawn.cpp:145-176 | the running maximum bounds every direction seen so far and equals one of them, or is 0 |
| Pawn.ChainLengthZeroIff | Pawn.cpp:138-189 | the search returns 0 iff no diagonal neighbour holds a piece of the other colour with an empty on-board square beyond it |
| Pawn.ChainLengthIsLongest | Pawn.cpp:166-176 | every available jump gives at most the result minus one; a positive result is 1 + the chain after some available jump, searched on the board with the jumped piece removed and the mover also on the landing square |
| Pawn.ChainLengthBound | Pawn.cpp:169-173 | the result never exceeds the number of pieces of the other colour |
| Pawn.SimulateCaptureSpec | Pawn.cpp:87-120 | a step succeeds iff the end is two rows and two columns away and the midpoint holds a piece of the other colour; on success the end holds the piece, the start and the midpoint are empty, the midpoint is appended to the record, and nothing else changes; on failure only the start is emptied and the record is unchanged |
| Pawn.SimulateAgreesWithSearch | Pawn.cpp:87-120 | wherever the search sees a jump the step succeeds and leaves the search's jumped grid with the origin emptied; a successful step onto an empty square is a jump the search sees |
| Pawn.SimulateAndValidateCapturingMoves | Pawn.cpp:87-120 | the success flag, the new board and the new record are those of the capture step |
| Pawn.SingleJumpPosition | Pawn.cpp:132-190 | white Pawn on (5,1) and black Pawn on (4,2): the search for white returns 1 |
| Pawn.DoubleJumpPosition | Pawn.cpp:132-190 | with another black Pawn on (2,4) the search returns 2 |
| Queen.CanMoveIff | Queen.cpp:22-50 | canMove holds iff the end is on the board, empty and one diagonal step away in any direction; the colour argument makes no difference |
| Queen.CanMoveOneStepOnly | Queen.cpp:41-46 | any displacement other than one diagonal step, e.g. a two-square move, is refused |
| Queen.PawnStepIsQueenStep | Queen.cpp:41-46 | a Queen step is exactly a Pawn step of one colour or the other |
| Queen.CountCapturingMoves | Queen.cpp:71-118 | the board is unchanged afterwards and the result equals the Pawn's search for the same board, square and colour |
| Queen.SimulateAndValidateCapturingMoves | Queen.cpp:134-168 | the same capture step as the Pawn's: on success the end holds the piece, the start and the midpoint are empty and the midpoint is recorded; a failed step empties the start |
| Rules.CanMove | Pawn.cpp:38-71 | an accepted move of either kind of piece is one diagonal step onto an empty on-board square |
| Rules.CountCapturingMoves | Queen.cpp:71-118 | either kind of piece leaves the board unchanged and returns the same chain length |
| Move.MakeMove | Move.cpp:8-73 | the result and the new board are those of the move function on the old board |
| Move.MakeMoveErrors | Move.cpp:26-39 | the errors come in order (empty start, wrong colour, refused destination); each is raised exactly when its check is the first to fail, and none changes the board |
| Move.MakeMoveAccepted | Move.cpp:41-72 | an accepted move is one diagonal step onto an empty square; the start ends empty; the end holds the piece, or a Queen of the side to move when a Pawn reaches its promotion row; nothing is captured and no other cell changes |
| Move.PawnMovesForward | Move.cpp:37-39 | a Pawn moves one row towards row 0 on white's turn and towards row 7 on black's turn |
| Move.MakeMoveKeepsCounts | Move.cpp:41-72 | an accepted move changes neither colour's piece count |
| HumanPlayer.ConvertCoordinate | HumanPlayer.cpp:21-35 | the result is a value iff the character is in '1'-'8', 'a'-'h' or 'A'-'H', and every value returned is in 0..7 |
| HumanPlayer.ConvertCoordinateExact | HumanPlayer.cpp:21-35 | the characters mapped to n are exactly the digit n+1 and the n-th lower- and upper-case letters |
| HumanPlayer.LabelsConvertBack | HumanPlayer.cpp:21-35 | the row numbers and column letters of the board picture convert back to the indices they label |
| HumanPlayer.ParseRequest | HumanPlayer.cpp:73-81 | a request parses iff all four characters convert; the start is (row of startY, column of startX) and the end likewise, all on the board |
| HumanPlayer.ScanMaxIsMax | HumanPlayer.cpp:49-59 | after any prefix of the scan, the running maximum bounds the chain of every piece of the side to move seen so far and equals one of them, or is 0 |
| HumanPlayer.MaxCaptureIsMax | HumanPlayer.cpp:47-59 | the scan's maximum is the largest chain over the pieces of the side to move, or 0 when there is none |
| HumanPlayer.ScanMaxCapture | HumanPlayer.cpp:47-59 | the scan returns that maximum and leaves the board unchanged |
| HumanPlayer.SecondScan | HumanPlayer.cpp:89-103 | canCapture ends true iff it was true already, or some piece of the side to move is on the board and the chain from the selected square is positive and at least the maximum; the board is unchanged |
| HumanPlayer.MakeMove | HumanPlayer.cpp:43-134 | the result and the new board are those of the opening function: the scans, the conversions, the empty-start check, and the quiet move or promotion |
| HumanPlayer.OpeningErrors | HumanPlayer.cpp:73-110 | a bad character gives InvalidCoordinate and an empty start gives EmptyStart, in that order; a refused destination only happens with no capture available; no error changes the board |
| HumanPlayer.OpeningStartsChain | HumanPlayer.cpp:129-134 | the chain starts on the selected square with no captures and the scan's maximum as target, so the loop runs iff that maximum is positive; with a capture available no quiet move is made |
| HumanPlayer.QuietMove | HumanPlayer.cpp:106-127 | with no capture available and the second scan silent (see HumanPlayer.SkippedQuietMove for the other case), the move is made iff canMove, called with the colour of the side not to move, accepts it; the start empties; the end receives the piece, or on the promotion row a Queen of the side to move when the Pawn is of that side (nothing otherwise); other cells are unchanged |
| HumanPlayer.OpponentPawnVanishes | HumanPlayer.cpp:113-121 | a Pawn of the other side moved onto the mover's promotion row disappears: that side loses a piece without any capture |
| HumanPlayer.SkippedQuietMove | HumanPlayer.cpp:89-106 | with no capture available the second scan fires only for a start square not holding the mover's piece, and the turn then changes nothing |
| HumanPlayer.SetAllCells | HumanPlayer.cpp:167-169 | after the restoring loop exactly the recorded cells hold the new content |
| HumanPlayer.RestoreCaptured | HumanPlayer.cpp:167-169 | the loop writes the content to every recorded cell in order and to no other cell |
| HumanPlayer.CaptureStep | HumanPlayer.cpp:134-176 | the result and the new board are those of one loop iteration, run only while fewer captures than the maximum are done |
| HumanPlayer.StepKeepsChain | HumanPlayer.cpp:134-176 | a step keeps the chain's origin, piece and target; the count rises by at most one and never passes the target |
| HumanPlayer.StepErrorsAndQueen | HumanPlayer.cpp:143-156 | a bad character or a start other than the tracked square is an error that leaves the board unchanged; a Queen's step changes nothing |
| HumanPlayer.StepSucceeds | HumanPlayer.cpp:156-164 | a successful Pawn step increments the count, records the jumped square and tracks the end square; the piece lands on the end, the start and the jumped square empty, other cells are unchanged |
| HumanPlayer.StepFails | HumanPlayer.cpp:165-171 | after a failed step, every recorded cell holds a Pawn of the other side, the origin holds a Pawn of the side to move, the tracked square empties, the record is cleared, and the count and tracked square are kept |
| HumanPlayer.StepFailsGrid | HumanPlayer.cpp:165-171 | a Pawn step that is not a two-square diagonal move fails with exactly that rollback |
| HumanPlayer.RollbackGrid | HumanPlayer.cpp:165-171 | a jump of an opposing Pawn followed by the failure rollback restores the grid exactly |
| HumanPlayer.RollbackRestoresOneCapture | HumanPlayer.cpp:156-171 | a one-capture chain of a Pawn over an opposing Pawn, followed by a step from the landing square that fails for any reason (wrong shape, or no opposing piece to jump), leaves the board exactly as before the chain |

## Left out

- main.cpp, Player, HumanPlayer's constructor and ComputerPlayer are not part of this model. They cover the game loop, turn swapping, move timing, names and a stub that exits.
- StartState, GameOverState, `Board::setState`, `Board::displayState` and `Board::clearConsole` only print or clear the console. The board's state object is reduced to the `Phase` value set by `CheckGameOver`.
- All printing is left out, including the `Game Over!` line, the board printout inside the capture step and the prompts. Console reads are parameters.
- Raw `new`/`delete` are not modelled. Cells are value slots, so the re-allocation of squares in `GameCreation` and the deletion in `promoteQueen` have no counterpart. The board holds the cells directly; the `Square` class is modelled on its own.
- The default `Square()` constructor leaves its fields uninitialised. It is not modelled.
- Null-square branches are not modelled. Squares always exist, so the null checks in `getSquare` callers and `operator<<`, and the throw in `updateSquare`, cannot fire.
- Pieces are values, not shared objects. `Piece::setWhite` is not called by the core, and its effect is the value `Piece.SetWhite`. `isWhite` and `getType` are the datatype's field and constructor tag.
- `Move::makeMove`'s capture branch (Move.cpp:46-54) is unreachable, because `canMove` only accepts one-square steps. `Move.MakeMove` proves at that point that the move is not a two-square step, and does not model the branch's effect.
- The unused `maxCapturingMoves` parameter of `simulateAndValidateCapturingMoves` is dropped.
- The capture `while` loop of `HumanPlayer::makeMove` is modelled one iteration at a time. Its termination depends on console input. For a Queen it never ends, because only the Pawn branch advances.
- HumanPlayer.RollbackRestoresOneCapture: proved for a chain of one capture. Longer chains are described cell by cell by HumanPlayer.StepFails.
- Exceptions are modelled as error kinds. Their message strings are not.
- Integer widths need no modelling: every coordinate is in 0..7 or one step outside. C++ division truncates, but `(start + end) / 2` only divides non-negative sums, where truncation and Dafny's division agree.

## Quirks of the code

These are behaviours of the code as written, which the model keeps.

- A capture step does not check that the landing square is empty (Pawn.cpp:98-119).
- A failed step does not give back the board exactly (HumanPlayer.cpp:165-171):
  - it puts Pawns, not the captured pieces, back on the recorded squares, so captured Queens return as Pawns;
  - it does not reset the capture count or the tracked square.
- With a capture available there is no error: the quiet move is simply not made (HumanPlayer.cpp:106).
- Nothing forces the selected piece to be one that achieves the maximum, and the turn logic never checks that the selected piece belongs to the side to move (HumanPlayer.cpp:84-87, 129-134).
- No promotion happens at the end of a capture chain. Promotion is tested only in the quiet-move branch (HumanPlayer.cpp:113).
- The second scan is not only a printout (HumanPlayer.cpp:89-103). With no capture available, selecting a piece of the other side that could jump that side's own pieces makes the turn do nothing (HumanPlayer.SkippedQuietMove).
- The chain search keeps the origin occupied while it recurses (Pawn.cpp:169-170, Pawn.JumpCells).
