/** Queen.cpp: the one-step move rule of a Queen, and its copies of the
    capture-chain search and of the capture step.

    Queen::countCapturingMoves and Queen::simulateAndValidateCapturingMoves
    have the same bodies as the Pawn versions; they are modelled by calling
    the Pawn members, so both pieces provably compute the same thing. */
module Queen {
  import opened Pieces
  import opened Boards
  import Pawn

  /** Queen::canMove: the end square is on the board, one row and one column
      away in any of the four diagonal directions, and empty.  The colour
      argument is computed into forwardDirection and never used. */
  function CanMove(start: Slot, end: Slot, isWhite: bool): (r: bool)
    ensures r ==> InBounds(end.x, end.y) && end.piece.None?
  {
    if !InBounds(end.x, end.y) then false
    else Pawn.Abs(end.x - start.x) == 1 && Pawn.Abs(end.y - start.y) == 1 && end.piece.None?
  }

  /** The four diagonal neighbours, before bounds and occupancy. */
  function Neighbours(sx: int, sy: int): set<Pos>
  {
    {Pos(sx + 1, sy + 1), Pos(sx - 1, sy - 1), Pos(sx + 1, sy - 1), Pos(sx - 1, sy + 1)}
  }

  /** canMove accepts exactly the in-bounds, empty diagonal neighbours, and
      the colour passed in makes no difference. */
  lemma CanMoveIff(start: Slot, end: Slot, isWhite: bool)
    ensures CanMove(start, end, isWhite)
        <==> Pos(end.x, end.y) in Neighbours(start.x, start.y) && InBounds(end.x, end.y) && end.piece == None
    ensures CanMove(start, end, isWhite) == CanMove(start, end, !isWhite)
  {
    if Pos(end.x, end.y) in Neighbours(start.x, start.y) {
      assert Pawn.Abs(end.x - start.x) == 1 && Pawn.Abs(end.y - start.y) == 1;
    }
  }

  /** A Queen never moves further than one square: a move of two or more
      rows or columns is refused, so is a move along a row or a column. */
  lemma CanMoveOneStepOnly(start: Slot, end: Slot, isWhite: bool)
    requires Pawn.Abs(end.x - start.x) != 1 || Pawn.Abs(end.y - start.y) != 1
    ensures !CanMove(start, end, isWhite)
  {
  }

  /** Every step a Pawn of either colour may take, a Queen may take too; the
      Queen may also take the step in the other row direction. */
  lemma PawnStepIsQueenStep(start: Slot, end: Slot, isWhite: bool)
    ensures Pawn.CanMove(start, end, isWhite) ==> CanMove(start, end, isWhite)
    ensures CanMove(start, end, isWhite) <==> Pawn.CanMove(start, end, true) || Pawn.CanMove(start, end, false)
  {
  }

  /** Queen::countCapturingMoves: the same search as the Pawn's; it leaves
      the board as it was and returns the same chain length. */
  method CountCapturingMoves(b: Board, x: int, y: int, isWhite: bool) returns (n: nat)
    requires b.Valid() && InBounds(x, y)
    modifies b.tab
    ensures b.Cells() == old(b.Cells())
    ensures n == Pawn.ChainLength(old(b.Cells()), x, y, isWhite)
  {
    n := Pawn.CountCapturingMoves(b, x, y, isWhite);
  }

  /** Queen::simulateAndValidateCapturingMoves: the same step as the
      Pawn's. */
  method SimulateAndValidateCapturingMoves(b: Board, sx: int, sy: int, isWhite: bool, captured: seq<Pos>, ex: int, ey: int, piece: Piece)
    returns (ok: bool, captured': seq<Pos>)
    requires b.Valid() && InBounds(sx, sy) && InBounds(ex, ey)
    modifies b.tab
    ensures Pawn.Capture(ok, b.Cells(), captured') == Pawn.SimulateCapture(old(b.Cells()), sx, sy, isWhite, captured, ex, ey, piece)
  {
    ok, captured' := Pawn.SimulateAndValidateCapturingMoves(b, sx, sy, isWhite, captured, ex, ey, piece);
  }
}
