/** The virtual calls piece->canMove, piece->countCapturingMoves and
    piece->simulateAndValidateCapturingMoves: dispatch on the kind of the
    piece to the Pawn or the Queen member. */
module Rules {
  import opened Pieces
  import opened Boards
  import Pawn
  import Queen

  /** piece->canMove(board, start, end, isWhite). */
  function CanMove(piece: Piece, start: Slot, end: Slot, isWhite: bool): (r: bool)
    ensures r ==> InBounds(end.x, end.y) && end.piece == None
                  && Pawn.Abs(end.x - start.x) == 1 && Pawn.Abs(end.y - start.y) == 1
    ensures piece.Pawn? ==> (r <==> Pawn.CanMove(start, end, isWhite))
    ensures piece.Queen? ==> (r <==> Queen.CanMove(start, end, isWhite))
  {
    match piece
    case Pawn(_) => Pawn.CanMove(start, end, isWhite)
    case Queen(_) => Queen.CanMove(start, end, isWhite)
  }

  /** The promotion test of the turn logic: the moved piece is a Pawn and
      the end row is row 0 on white's turn, row 7 on black's turn.  Unlike
      Board::promoteQueen it looks at the side to move, not at the colour of
      the piece. */
  predicate PromotesOn(piece: Piece, turn: bool, ex: int)
  {
    piece.Pawn? && ((turn && ex == 0) || (!turn && ex == 7))
  }

  /** piece->countCapturingMoves(board, square, isWhite): both kinds compute
      the same chain length and leave the board as it was. */
  method CountCapturingMoves(piece: Piece, b: Board, x: int, y: int, isWhite: bool) returns (n: nat)
    requires b.Valid() && InBounds(x, y)
    modifies b.tab
    ensures b.Cells() == old(b.Cells())
    ensures n == Pawn.ChainLength(old(b.Cells()), x, y, isWhite)
  {
    if piece.Pawn? {
      n := Pawn.CountCapturingMoves(b, x, y, isWhite);
    } else {
      n := Queen.CountCapturingMoves(b, x, y, isWhite);
    }
  }
}
