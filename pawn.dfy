/** Pawn.cpp: the one-step move rule of a Pawn, the longest-capture-chain
    search (countCapturingMoves) and the execution of one capture step
    (simulateAndValidateCapturingMoves).

    The search and the step do not depend on the kind of the moving piece;
    Queen.cpp holds textual copies of both, and the Queen module calls the
    members defined here. */
module Pawn {
  import opened Pieces
  import opened Boards

  function Abs(n: int): nat
  {
    if n < 0 then -n else n
  }

  /** std::max */
  function Max(a: int, b: int): int
  {
    if a < b then b else a
  }

  // ---------------------------------------------------------------------
  // canMove

  /** Pawn::canMove: the end square is on the board and empty, one row
      towards higher rows when isWhite holds (towards lower rows otherwise)
      and one column to either side.  Only the coordinates of the start
      square are consulted. */
  function CanMove(start: Slot, end: Slot, isWhite: bool): bool
  {
    if !InBounds(end.x, end.y) then false
    else if end.piece.Some? then false
    else end.x - start.x == (if isWhite then 1 else -1) && Abs(end.y - start.y) == 1 && end.piece.None?
  }

  /** The two squares a Pawn may step to, before bounds and occupancy. */
  function Steps(sx: int, sy: int, isWhite: bool): set<Pos>
  {
    var f := if isWhite then 1 else -1;
    {Pos(sx + f, sy - 1), Pos(sx + f, sy + 1)}
  }

  /** canMove accepts exactly the in-bounds, empty squares among Steps. */
  lemma CanMoveIff(start: Slot, end: Slot, isWhite: bool)
    ensures CanMove(start, end, isWhite)
        <==> Pos(end.x, end.y) in Steps(start.x, start.y, isWhite) && InBounds(end.x, end.y) && end.piece == None
  {
  }

  /** An occupied end square is refused whatever the geometry. */
  lemma CanMoveRefusesOccupied(start: Slot, end: Slot, isWhite: bool)
    requires end.piece.Some?
    ensures !CanMove(start, end, isWhite)
  {
  }

  // ---------------------------------------------------------------------
  // The capture-chain search (countCapturingMoves) on the value grid

  /** Row step of the i-th direction tried: possibleEndX = {x+1, x-1, x+1, x-1}. */
  function DirX(d: int): int
    requires 0 <= d < 4
  {
    if d == 0 || d == 2 then 1 else -1
  }

  /** Column step of the i-th direction tried: possibleEndY = {y+1, y-1, y-1, y+1}. */
  function DirY(d: int): int
    requires 0 <= d < 4
  {
    if d == 0 || d == 3 then 1 else -1
  }

  /** In direction d from (x, y): the neighbour holds a piece whose colour is
      not `isWhite`, and the square beyond it is on the board and empty. */
  predicate CanJump(g: Grid, x: int, y: int, isWhite: bool, d: int)
    requires WellFormed(g) && 0 <= d < 4
  {
    var ex := x + DirX(d);
    var ey := y + DirY(d);
    InBounds(ex, ey) && HoldsColour(g[ex][ey], !isWhite)
    && InBounds(ex + DirX(d), ey + DirY(d)) && g[ex + DirX(d)][ey + DirY(d)].None?
  }

  /** The simulated jump of the search: the jumped square is emptied and the
      piece on the start square is copied to the landing square.  The start
      square is NOT emptied (Pawn.cpp:169-170), so during the recursion the
      origin stays occupied. */
  function Jump(g: Grid, x: int, y: int, d: int): (r: Grid)
    requires WellFormed(g) && InBounds(x, y) && 0 <= d < 4
    requires InBounds(x + 2 * DirX(d), y + 2 * DirY(d))
    ensures WellFormed(r)
  {
    var ex := x + DirX(d);
    var ey := y + DirY(d);
    Set(Set(g, ex, ey, None), ex + DirX(d), ey + DirY(d), g[x][y])
  }

  /** Pieces the search from row x could ever jump: pieces whose colour is
      not `isWhite` on rows whose parity differs from x's.  Every jumped
      square lies on such a row and every landing square does not, so each
      level of the search lowers this by one whatever the moving piece is. */
  function Capturable(g: Grid, isWhite: bool, x: int): nat
  {
    CountOnRows(g, !isWhite, (x + 1) % 2)
  }

  lemma JumpLowersCapturable(g: Grid, x: int, y: int, isWhite: bool, d: int)
    requires WellFormed(g) && InBounds(x, y) && 0 <= d < 4 && CanJump(g, x, y, isWhite, d)
    ensures Capturable(Jump(g, x, y, d), isWhite, x + 2 * DirX(d)) == Capturable(g, isWhite, x) - 1
  {
    var ex, ey := x + DirX(d), y + DirY(d);
    var lx, ly := ex + DirX(d), ey + DirY(d);
    var parity := (x + 1) % 2;
    assert ex % 2 == parity && lx % 2 != parity && (lx + 1) % 2 == parity;
    CountAfterSet(g, ex, ey, None, !isWhite, parity);
    CountAfterSet(Set(g, ex, ey, None), lx, ly, g[x][y], !isWhite, parity);
  }

  /** countCapturingMoves: the length of the longest chain of jumps from
      (x, y), the maximum over the four directions. */
  function ChainLength(g: Grid, x: int, y: int, isWhite: bool): nat
    requires WellFormed(g) && InBounds(x, y)
    decreases Capturable(g, isWhite, x), 2, 0
  {
    BestOf(g, x, y, isWhite, 4)
  }

  /** The running maximum after the first k directions of the loop. */
  function BestOf(g: Grid, x: int, y: int, isWhite: bool, k: int): nat
    requires WellFormed(g) && InBounds(x, y) && 0 <= k <= 4
    decreases Capturable(g, isWhite, x), 1, k
  {
    if k == 0 then 0
    else Max(BestOf(g, x, y, isWhite, k - 1), DirLength(g, x, y, isWhite, k - 1))
  }

  /** movesInThisDirection: 1 + the chain from the landing square on the
      jumped grid, or nothing when direction d offers no jump. */
  function DirLength(g: Grid, x: int, y: int, isWhite: bool, d: int): nat
    requires WellFormed(g) && InBounds(x, y) && 0 <= d < 4
    decreases Capturable(g, isWhite, x), 0, 0
  {
    if CanJump(g, x, y, isWhite, d) then
      JumpLowersCapturable(g, x, y, isWhite, d);
      1 + ChainLength(Jump(g, x, y, d), x + 2 * DirX(d), y + 2 * DirY(d), isWhite)
    else 0
  }

  /** A direction among the first k whose length the running maximum
      takes, the latest one on a tie. */
  function BestDir(g: Grid, x: int, y: int, isWhite: bool, k: int): int
    requires WellFormed(g) && InBounds(x, y) && 0 <= k <= 4
  {
    if k == 0 then 0
    else if DirLength(g, x, y, isWhite, k - 1) >= BestOf(g, x, y, isWhite, k - 1) then k - 1
    else BestDir(g, x, y, isWhite, k - 1)
  }

  /** The running maximum bounds every direction seen so far and, unless it
      is 0, is the length of one of them. */
  lemma {:induction false} BestOfIsMax(g: Grid, x: int, y: int, isWhite: bool, k: int)
    requires WellFormed(g) && InBounds(x, y) && 0 <= k <= 4
    ensures forall d :: 0 <= d < k ==> DirLength(g, x, y, isWhite, d) <= BestOf(g, x, y, isWhite, k)
    ensures BestOf(g, x, y, isWhite, k) == 0
         || (0 <= BestDir(g, x, y, isWhite, k) < k
             && BestOf(g, x, y, isWhite, k) == DirLength(g, x, y, isWhite, BestDir(g, x, y, isWhite, k)))
  {
    if k > 0 {
      BestOfIsMax(g, x, y, isWhite, k - 1);
      var best := BestOf(g, x, y, isWhite, k);
      assert best == Max(BestOf(g, x, y, isWhite, k - 1), DirLength(g, x, y, isWhite, k - 1));
      forall d | 0 <= d < k
        ensures DirLength(g, x, y, isWhite, d) <= best
      {
      }
    }
  }

  /** The search finds nothing exactly when no direction offers a jump. */
  lemma ChainLengthZeroIff(g: Grid, x: int, y: int, isWhite: bool)
    requires WellFormed(g) && InBounds(x, y)
    ensures ChainLength(g, x, y, isWhite) == 0 <==> forall d :: 0 <= d < 4 ==> !CanJump(g, x, y, isWhite, d)
  {
    BestOfIsMax(g, x, y, isWhite, 4);
    forall d | 0 <= d < 4
      ensures DirLength(g, x, y, isWhite, d) == 0 <==> !CanJump(g, x, y, isWhite, d)
    {
    }
  }

  /** The search result is 1 + the longest chain after some available jump,
      and no available jump leads to a longer chain. */
  lemma ChainLengthIsLongest(g: Grid, x: int, y: int, isWhite: bool)
    requires WellFormed(g) && InBounds(x, y)
    ensures forall d :: 0 <= d < 4 && CanJump(g, x, y, isWhite, d) ==>
              ChainLength(g, x, y, isWhite) >= 1 + ChainLength(Jump(g, x, y, d), x + 2 * DirX(d), y + 2 * DirY(d), isWhite)
    ensures ChainLength(g, x, y, isWhite) > 0 ==>
              exists d :: 0 <= d < 4 && CanJump(g, x, y, isWhite, d)
                && ChainLength(g, x, y, isWhite) == 1 + ChainLength(Jump(g, x, y, d), x + 2 * DirX(d), y + 2 * DirY(d), isWhite)
  {
    BestOfIsMax(g, x, y, isWhite, 4);
    forall d | 0 <= d < 4 && CanJump(g, x, y, isWhite, d)
      ensures ChainLength(g, x, y, isWhite) >= 1 + ChainLength(Jump(g, x, y, d), x + 2 * DirX(d), y + 2 * DirY(d), isWhite)
    {
      assert DirLength(g, x, y, isWhite, d) == 1 + ChainLength(Jump(g, x, y, d), x + 2 * DirX(d), y + 2 * DirY(d), isWhite);
    }
    if ChainLength(g, x, y, isWhite) > 0 {
      var d := BestDir(g, x, y, isWhite, 4);
      assert CanJump(g, x, y, isWhite, d);
    }
  }

  /** Each level of the search removes one capturable piece, so the chain is
      never longer than the number of pieces of the other colour. */
  lemma {:induction false} ChainLengthBound(g: Grid, x: int, y: int, isWhite: bool)
    requires WellFormed(g) && InBounds(x, y)
    ensures ChainLength(g, x, y, isWhite) <= Capturable(g, isWhite, x)
    ensures ChainLength(g, x, y, isWhite) <= PieceCount(g, !isWhite)
    decreases Capturable(g, isWhite, x)
  {
    forall d | 0 <= d < 4
      ensures DirLength(g, x, y, isWhite, d) <= Capturable(g, isWhite, x)
    {
      if CanJump(g, x, y, isWhite, d) {
        JumpLowersCapturable(g, x, y, isWhite, d);
        ChainLengthBound(Jump(g, x, y, d), x + 2 * DirX(d), y + 2 * DirY(d), isWhite);
      }
    }
    BestOfIsMax(g, x, y, isWhite, 4);
    assert (x + 1) % 2 == 0 || (x + 1) % 2 == 1;
  }

  /** The simulated jump of the search: the jumped square empties, the
      landing square receives the start square's piece, and the start square
      keeps it. */
  lemma JumpCells(g: Grid, x: int, y: int, isWhite: bool, d: int)
    requires WellFormed(g) && InBounds(x, y) && 0 <= d < 4 && CanJump(g, x, y, isWhite, d)
    ensures Jump(g, x, y, d)[x + DirX(d)][y + DirY(d)] == None
    ensures Jump(g, x, y, d)[x + 2 * DirX(d)][y + 2 * DirY(d)] == g[x][y]
    ensures Jump(g, x, y, d)[x][y] == g[x][y]
  {
  }

  // ---------------------------------------------------------------------
  // countCapturingMoves on the board object

  /** Pawn::countCapturingMoves: tries the four directions, performs each
      available jump on the shared board, recurses from the landing square
      and undoes the jump.  The board is left exactly as it was and the
      result is the longest chain length. */
  method CountCapturingMoves(b: Board, x: int, y: int, isWhite: bool) returns (n: nat)
    requires b.Valid() && InBounds(x, y)
    modifies b.tab
    ensures b.Cells() == old(b.Cells())
    ensures n == ChainLength(old(b.Cells()), x, y, isWhite)
    decreases Capturable(b.Cells(), isWhite, x), 1
  {
    ghost var g := b.Cells();
    n := 0;
    var i := 0;
    while i < 4
      invariant 0 <= i <= 4
      invariant b.Cells() == g
      invariant n == BestOf(g, x, y, isWhite, i)
    {
      var moves := TryDirection(b, x, y, isWhite, i);
      n := Max(n, moves);
      i := i + 1;
    }
  }

  /** One iteration of the loop of countCapturingMoves: the jump in
      direction d, when there is one, performed, searched from and undone;
      the result is movesInThisDirection, or 0 when no jump is available. */
  method TryDirection(b: Board, x: int, y: int, isWhite: bool, d: int) returns (moves: nat)
    requires b.Valid() && InBounds(x, y) && 0 <= d < 4
    modifies b.tab
    ensures b.Cells() == old(b.Cells())
    ensures moves == DirLength(old(b.Cells()), x, y, isWhite, d)
    decreases Capturable(b.Cells(), isWhite, x), 0
  {
    ghost var g := b.Cells();
    moves := 0;
    var endX, endY := x + DirX(d), y + DirY(d);
    if 0 <= endX < 8 && 0 <= endY < 8 {
      var capturedPiece := b.tab[endX, endY];
      if capturedPiece.Some? && capturedPiece.value.white != isWhite {
        var behindX, behindY := endX + (endX - x), endY + (endY - y);
        assert behindX == endX + DirX(d) && behindY == endY + DirY(d);
        if 0 <= behindX < 8 && 0 <= behindY < 8 && b.tab[behindX, behindY].None? {
          assert CanJump(g, x, y, isWhite, d);
          var currentPiece := b.tab[x, y];
          // perform the move
          b.UpdateSquare(endX, endY, None);
          b.UpdateSquare(behindX, behindY, currentPiece);
          assert b.Cells() == Jump(g, x, y, d);
          JumpLowersCapturable(g, x, y, isWhite, d);
          var deeper := CountCapturingMoves(b, behindX, behindY, isWhite);
          moves := 1 + deeper;
          // undo the move
          ghost var jumped := b.Cells();
          b.UpdateSquare(behindX, behindY, None);
          b.UpdateSquare(endX, endY, capturedPiece);
          b.UpdateSquare(x, y, currentPiece);
          assert b.Cells() == Set(Set(Set(jumped, behindX, behindY, None), endX, endY, g[endX][endY]), x, y, g[x][y]);
          JumpUndone(g, x, y, isWhite, d);
        }
      }
    }
  }

  /** Undoing a simulated jump as the search does restores the grid. */
  lemma JumpUndone(g: Grid, x: int, y: int, isWhite: bool, d: int)
    requires WellFormed(g) && InBounds(x, y) && 0 <= d < 4 && CanJump(g, x, y, isWhite, d)
    ensures var ex := x + DirX(d);
            var ey := y + DirY(d);
            Set(Set(Set(Jump(g, x, y, d), ex + DirX(d), ey + DirY(d), None), ex, ey, g[ex][ey]), x, y, g[x][y]) == g
  {
    var ex := x + DirX(d);
    var ey := y + DirY(d);
    var r := Set(Set(Set(Jump(g, x, y, d), ex + DirX(d), ey + DirY(d), None), ex, ey, g[ex][ey]), x, y, g[x][y]);
    GridExt(r, g);
  }

  // ---------------------------------------------------------------------
  // One executed capture step (simulateAndValidateCapturingMoves)

  /** The outcome of a capture step: success, the new grid and the list of
      captured squares (the vector passed by reference in the source). */
  datatype Capture = Capture(ok: bool, grid: Grid, captured: seq<Pos>)

  /** simulateAndValidateCapturingMoves on the value grid.  The step is taken
      when the midpoint holds a piece whose colour is not `isWhite` and the
      end square is two rows and two columns away; the end square is not
      checked to be empty.  A refused step empties the start square. */
  function SimulateCapture(g: Grid, sx: int, sy: int, isWhite: bool, captured: seq<Pos>, ex: int, ey: int, piece: Piece): (c: Capture)
    requires WellFormed(g) && InBounds(sx, sy) && InBounds(ex, ey)
    ensures WellFormed(c.grid)
  {
    var mx := (sx + ex) / 2;
    var my := (sy + ey) / 2;
    if HoldsColour(g[mx][my], !isWhite) && Abs(ex - sx) == 2 && Abs(ey - sy) == 2 then
      Capture(true, Set(Set(Set(g, ex, ey, Some(piece)), sx, sy, None), mx, my, None), captured + [Pos(mx, my)])
    else
      Capture(false, Set(g, sx, sy, None), captured)
  }

  /** A capture step succeeds exactly on a two-square diagonal move over a
      piece whose colour is not `isWhite`; on success the piece stands on
      the end square, the start and the jumped square are empty and the
      jumped square is recorded; on failure only the start square changes
      (it is emptied) and nothing is recorded. */
  lemma SimulateCaptureSpec(g: Grid, sx: int, sy: int, isWhite: bool, captured: seq<Pos>, ex: int, ey: int, piece: Piece)
    requires WellFormed(g) && InBounds(sx, sy) && InBounds(ex, ey)
    ensures var c := SimulateCapture(g, sx, sy, isWhite, captured, ex, ey, piece);
      && (c.ok <==> exists d :: 0 <= d < 4 && ex == sx + 2 * DirX(d) && ey == sy + 2 * DirY(d)
                                 && HoldsColour(g[sx + DirX(d)][sy + DirY(d)], !isWhite))
      && (c.ok ==> var mx := (sx + ex) / 2; var my := (sy + ey) / 2;
                   && c.grid[ex][ey] == Some(piece) && c.grid[sx][sy] == None && c.grid[mx][my] == None
                   && c.captured == captured + [Pos(mx, my)]
                   && forall i, j :: 0 <= i < 8 && 0 <= j < 8 && (i, j) != (ex, ey) && (i, j) != (sx, sy) && (i, j) != (mx, my)
                        ==> c.grid[i][j] == g[i][j])
      && (!c.ok ==> c.grid == Set(g, sx, sy, None) && c.captured == captured)
  {
    SimulateCaptureOkIff(g, sx, sy, isWhite, captured, ex, ey, piece);
    if SimulateCapture(g, sx, sy, isWhite, captured, ex, ey, piece).ok {
      SimulateCaptureCells(g, sx, sy, isWhite, captured, ex, ey, piece);
    }
  }

  /** When a capture step succeeds, in terms of the four diagonal
      directions. */
  lemma SimulateCaptureOkIff(g: Grid, sx: int, sy: int, isWhite: bool, captured: seq<Pos>, ex: int, ey: int, piece: Piece)
    requires WellFormed(g) && InBounds(sx, sy) && InBounds(ex, ey)
    ensures SimulateCapture(g, sx, sy, isWhite, captured, ex, ey, piece).ok
        <==> exists d :: 0 <= d < 4 && ex == sx + 2 * DirX(d) && ey == sy + 2 * DirY(d)
                         && HoldsColour(g[sx + DirX(d)][sy + DirY(d)], !isWhite)
  {
    forall d | 0 <= d < 4 && ex == sx + 2 * DirX(d) && ey == sy + 2 * DirY(d)
      ensures (sx + ex) / 2 == sx + DirX(d) && (sy + ey) / 2 == sy + DirY(d)
      ensures Abs(ex - sx) == 2 && Abs(ey - sy) == 2
    {
    }
    if SimulateCapture(g, sx, sy, isWhite, captured, ex, ey, piece).ok {
      var d := if ex > sx then (if ey > sy then 0 else 2) else (if ey > sy then 3 else 1);
      assert ex == sx + 2 * DirX(d) && ey == sy + 2 * DirY(d);
    }
  }

  /** The cells a successful capture step leaves. */
  lemma SimulateCaptureCells(g: Grid, sx: int, sy: int, isWhite: bool, captured: seq<Pos>, ex: int, ey: int, piece: Piece)
    requires WellFormed(g) && InBounds(sx, sy) && InBounds(ex, ey)
    requires SimulateCapture(g, sx, sy, isWhite, captured, ex, ey, piece).ok
    ensures var c := SimulateCapture(g, sx, sy, isWhite, captured, ex, ey, piece);
      var mx := (sx + ex) / 2; var my := (sy + ey) / 2;
      && c.grid[ex][ey] == Some(piece) && c.grid[sx][sy] == None && c.grid[mx][my] == None
      && c.captured == captured + [Pos(mx, my)]
      && forall i, j :: 0 <= i < 8 && 0 <= j < 8 && (i, j) != (ex, ey) && (i, j) != (sx, sy) && (i, j) != (mx, my)
           ==> c.grid[i][j] == g[i][j]
  {
    var mx, my := (sx + ex) / 2, (sy + ey) / 2;
    assert mx != sx && mx != ex;
  }

  /** The executed step and the search agree: wherever the search sees a
      jump, the step succeeds, and the grid it leaves is the search's jumped
      grid with the start square emptied (the search keeps the origin
      occupied, the step does not).  Conversely a successful step onto an
      empty square is a jump the search also sees. */
  lemma SimulateAgreesWithSearch(g: Grid, sx: int, sy: int, isWhite: bool, captured: seq<Pos>, d: int, piece: Piece)
    requires WellFormed(g) && InBounds(sx, sy) && 0 <= d < 4
    requires InBounds(sx + 2 * DirX(d), sy + 2 * DirY(d))
    requires g[sx][sy] == Some(piece)
    ensures var c := SimulateCapture(g, sx, sy, isWhite, captured, sx + 2 * DirX(d), sy + 2 * DirY(d), piece);
      && (CanJump(g, sx, sy, isWhite, d) ==> c.ok && c.grid == Set(Jump(g, sx, sy, d), sx, sy, None))
      && (c.ok && g[sx + 2 * DirX(d)][sy + 2 * DirY(d)] == None ==> CanJump(g, sx, sy, isWhite, d))
  {
    var ex, ey := sx + 2 * DirX(d), sy + 2 * DirY(d);
    var c := SimulateCapture(g, sx, sy, isWhite, captured, ex, ey, piece);
    assert (sx + ex) / 2 == sx + DirX(d) && (sy + ey) / 2 == sy + DirY(d);
    if CanJump(g, sx, sy, isWhite, d) {
      GridExt(c.grid, Set(Jump(g, sx, sy, d), sx, sy, None));
    }
  }

  /** Pawn::simulateAndValidateCapturingMoves on the board object.  The
      source's maxCapturingMoves parameter is unused and omitted; the board
      printout on success is left out. */
  method SimulateAndValidateCapturingMoves(b: Board, sx: int, sy: int, isWhite: bool, captured: seq<Pos>, ex: int, ey: int, piece: Piece)
    returns (ok: bool, captured': seq<Pos>)
    requires b.Valid() && InBounds(sx, sy) && InBounds(ex, ey)
    modifies b.tab
    ensures Capture(ok, b.Cells(), captured') == SimulateCapture(old(b.Cells()), sx, sy, isWhite, captured, ex, ey, piece)
  {
    ghost var g := b.Cells();
    var behindX, behindY := (sx + ex) / 2, (sy + ey) / 2;
    var behind := b.tab[behindX, behindY];
    captured' := captured;
    if behind.Some? && behind.value.white != isWhite {
      if Abs(ex - sx) == 2 && Abs(ey - sy) == 2 {
        captured' := captured + [Pos(behindX, behindY)];
        b.tab[ex, ey] := Some(piece);
        b.tab[sx, sy] := None;
        b.tab[behindX, behindY] := None;
        GridExt(b.Cells(), SimulateCapture(g, sx, sy, isWhite, captured, ex, ey, piece).grid);
        return true, captured';
      }
    }
    b.tab[sx, sy] := None;
    GridExt(b.Cells(), SimulateCapture(g, sx, sy, isWhite, captured, ex, ey, piece).grid);
    ok := false;
  }

  // ---------------------------------------------------------------------
  // Two worked positions

  /** A white Pawn on (5, 1) and a black Pawn on (4, 2): searching for white,
      the one jump lands on (3, 3) and the chain has length 1. */
  lemma SingleJumpPosition()
    ensures ChainLength(Set(Set(EmptyGrid(), 5, 1, Some(Pawn(true))), 4, 2, Some(Pawn(false))), 5, 1, true) == 1
  {
    var g := Set(Set(EmptyGrid(), 5, 1, Some(Pawn(true))), 4, 2, Some(Pawn(false)));
    assert !CanJump(g, 5, 1, true, 0) && !CanJump(g, 5, 1, true, 1) && !CanJump(g, 5, 1, true, 2);
    assert CanJump(g, 5, 1, true, 3);
    var h := Jump(g, 5, 1, 3);
    forall d | 0 <= d < 4
      ensures !CanJump(h, 3, 3, true, d)
    {
    }
    ChainLengthZeroIff(h, 3, 3, true);
    assert DirLength(g, 5, 1, true, 3) == 1;
  }

  /** The same position with a second black Pawn on (2, 4): the chain goes
      on from (3, 3) to (1, 5) and has length 2. */
  lemma DoubleJumpPosition()
    ensures ChainLength(Set(Set(Set(EmptyGrid(), 5, 1, Some(Pawn(true))), 4, 2, Some(Pawn(false))), 2, 4, Some(Pawn(false))), 5, 1, true) == 2
  {
    var g := Set(Set(Set(EmptyGrid(), 5, 1, Some(Pawn(true))), 4, 2, Some(Pawn(false))), 2, 4, Some(Pawn(false)));
    assert !CanJump(g, 5, 1, true, 0) && !CanJump(g, 5, 1, true, 1) && !CanJump(g, 5, 1, true, 2);
    assert CanJump(g, 5, 1, true, 3);
    SecondLeg(Jump(g, 5, 1, 3));
    assert DirLength(g, 5, 1, true, 3) == 2;
    assert BestOf(g, 5, 1, true, 3) == 0;
  }

  /** The grid after the first jump of DoubleJumpPosition: white on (5, 1)
      (the search keeps the origin) and (3, 3), black on (2, 4). */
  lemma SecondLeg(h: Grid)
    requires WellFormed(h)
    requires forall i, j :: InBounds(i, j) ==>
      h[i][j] == if (i, j) == (5, 1) || (i, j) == (3, 3) then Some(Pawn(true))
                 else if (i, j) == (2, 4) then Some(Pawn(false)) else None
    ensures ChainLength(h, 3, 3, true) == 1
  {
    assert !CanJump(h, 3, 3, true, 0) && !CanJump(h, 3, 3, true, 1) && !CanJump(h, 3, 3, true, 2);
    assert CanJump(h, 3, 3, true, 3);
    var k := Jump(h, 3, 3, 3);
    forall d | 0 <= d < 4
      ensures !CanJump(k, 1, 5, true, d)
    {
    }
    ChainLengthZeroIff(k, 1, 5, true);
    assert DirLength(h, 3, 3, true, 3) == 1;
    assert DirLength(h, 3, 3, true, 0) == 0 && DirLength(h, 3, 3, true, 1) == 0 && DirLength(h, 3, 3, true, 2) == 0;
    assert BestOf(h, 3, 3, true, 1) == 0;
    assert BestOf(h, 3, 3, true, 2) == 0;
    assert BestOf(h, 3, 3, true, 3) == 0;
  }
}
