/** Move.cpp: Move::makeMove, the stand-alone move applier.  The four
    integers read from the console are parameters; getSquare does no bounds
    check, so they must be on the board. */
module Move {
  import opened Pieces
  import opened Boards
  import opened Outcomes
  import Pawn
  import Rules

  /** The result of a move together with the board it leaves. */
  datatype Outcome = Outcome(result: Result<()>, grid: Grid)

  /** Move::makeMove on the value grid. */
  function MakeMoveSpec(g: Grid, turn: bool, sx: int, sy: int, ex: int, ey: int): (o: Outcome)
    requires WellFormed(g) && InBounds(sx, sy) && InBounds(ex, ey)
    ensures WellFormed(o.grid)
  {
    var cell := g[sx][sy];
    if cell.None? then Outcome(Err(EmptyStart), g)
    else if cell.value.white != turn then Outcome(Err(NotYourTurn), g)
    else if !Rules.CanMove(cell.value, SlotAt(g, sx, sy), SlotAt(g, ex, ey), !turn) then Outcome(Err(IllegalDestination), g)
    else
      var moved := Set(Set(g, ex, ey, cell), sx, sy, None);
      if Rules.PromotesOn(cell.value, turn, ex) then
        PromotedCells(Set(moved, sx, sy, None), ex, ey, cell.value);
        Outcome(Ok(()), Promoted(Set(moved, sx, sy, None), ex, ey, cell.value))
      else
        Outcome(Ok(()), Set(Set(moved, sx, sy, None), ex, ey, cell))
  }

  /** Move::makeMove. */
  method MakeMove(b: Board, turn: bool, sx: int, sy: int, ex: int, ey: int) returns (r: Result<()>)
    requires b.Valid() && InBounds(sx, sy) && InBounds(ex, ey)
    modifies b.tab
    ensures Outcome(r, b.Cells()) == MakeMoveSpec(old(b.Cells()), turn, sx, sy, ex, ey)
  {
    var cell := b.tab[sx, sy];
    if cell.None? {
      return Err(EmptyStart);
    }
    var piece := cell.value;
    if piece.white != turn {
      return Err(NotYourTurn);
    }
    if !Rules.CanMove(piece, b.GetSquare(sx, sy), b.GetSquare(ex, ey), !turn) {
      return Err(IllegalDestination);
    }
    b.UpdateSquare(ex, ey, Some(piece));
    b.UpdateSquare(sx, sy, None);
    // The capture branch of Move.cpp:46-54 is never taken: canMove has
    // already refused every move that is not a one-square step.
    assert !(Pawn.Abs(ex - sx) == 2 && Pawn.Abs(ey - sy) == 2);
    if piece.Pawn? {
      if (turn && ex == 0) || (!turn && ex == 7) {
        b.UpdateSquare(sx, sy, None);
        b.PromoteQueen(ex, ey, piece);
        return Ok(());
      }
    }
    b.UpdateSquare(sx, sy, None);
    b.UpdateSquare(ex, ey, Some(piece));
    r := Ok(());
  }

  /** The checks come in the source's order, each error names the first one
      that fails, and a refused move leaves the board as it was. */
  lemma MakeMoveErrors(g: Grid, turn: bool, sx: int, sy: int, ex: int, ey: int)
    requires WellFormed(g) && InBounds(sx, sy) && InBounds(ex, ey)
    ensures var o := MakeMoveSpec(g, turn, sx, sy, ex, ey);
      && (o.result.Err? ==> o.grid == g)
      && (o.result == Err(EmptyStart) <==> g[sx][sy].None?)
      && (o.result == Err(NotYourTurn) <==> g[sx][sy].Some? && g[sx][sy].value.white != turn)
      && (o.result == Err(IllegalDestination) <==>
            HoldsColour(g[sx][sy], turn) && !Rules.CanMove(g[sx][sy].value, SlotAt(g, sx, sy), SlotAt(g, ex, ey), !turn))
      && (o.result.Ok? <==> HoldsColour(g[sx][sy], turn) && Rules.CanMove(g[sx][sy].value, SlotAt(g, sx, sy), SlotAt(g, ex, ey), !turn))
  {
  }

  /** An accepted move is one diagonal step onto an empty square; afterwards
      the start is empty, the end holds the moved piece (a Queen of the side
      to move when a Pawn reached its promotion row), and no other cell
      changes: in particular nothing is captured. */
  lemma MakeMoveAccepted(g: Grid, turn: bool, sx: int, sy: int, ex: int, ey: int)
    requires WellFormed(g) && InBounds(sx, sy) && InBounds(ex, ey)
    requires MakeMoveSpec(g, turn, sx, sy, ex, ey).result.Ok?
    ensures var h := MakeMoveSpec(g, turn, sx, sy, ex, ey).grid;
      && Pawn.Abs(ex - sx) == 1 && Pawn.Abs(ey - sy) == 1 && g[ex][ey] == None
      && h[sx][sy] == None
      && h[ex][ey] == (if Rules.PromotesOn(g[sx][sy].value, turn, ex) then Some(Queen(turn)) else g[sx][sy])
      && forall i, j :: InBounds(i, j) && (i, j) != (sx, sy) && (i, j) != (ex, ey) ==> h[i][j] == g[i][j]
  {
    var cell := g[sx][sy];
    var moved := Set(Set(g, ex, ey, cell), sx, sy, None);
    if Rules.PromotesOn(cell.value, turn, ex) {
      PromotedCells(Set(moved, sx, sy, None), ex, ey, cell.value);
    }
  }

  /** A Pawn moves one row towards row 0 on white's turn and towards row 7
      on black's turn. */
  lemma PawnMovesForward(g: Grid, turn: bool, sx: int, sy: int, ex: int, ey: int)
    requires WellFormed(g) && InBounds(sx, sy) && InBounds(ex, ey)
    requires g[sx][sy].Some? && g[sx][sy].value.Pawn?
    requires MakeMoveSpec(g, turn, sx, sy, ex, ey).result.Ok?
    ensures ex == sx + (if turn then -1 else 1)
  {
  }

  /** A move neither creates nor removes pieces of either colour. */
  lemma MakeMoveKeepsCounts(g: Grid, turn: bool, sx: int, sy: int, ex: int, ey: int, white: bool)
    requires WellFormed(g) && InBounds(sx, sy) && InBounds(ex, ey)
    requires MakeMoveSpec(g, turn, sx, sy, ex, ey).result.Ok?
    ensures PieceCount(MakeMoveSpec(g, turn, sx, sy, ex, ey).grid, white) == PieceCount(g, white)
  {
    var cell := g[sx][sy];
    var h := MakeMoveSpec(g, turn, sx, sy, ex, ey).grid;
    var end := h[ex][ey];
    MakeMoveAccepted(g, turn, sx, sy, ex, ey);
    var relocated := Set(Set(g, ex, ey, end), sx, sy, None);
    GridExt(h, relocated);
    assert HoldsColour(end, white) == HoldsColour(cell, white);
    forall parity | 0 <= parity < 2
      ensures CountOnRows(relocated, white, parity)
           == CountOnRows(g, white, parity)
            + (if ex % 2 == parity then Indicator(HoldsColour(cell, white)) else 0)
            - (if sx % 2 == parity then Indicator(HoldsColour(cell, white)) else 0)
    {
      CountAfterSet(g, ex, ey, end, white, parity);
      CountAfterSet(Set(g, ex, ey, end), sx, sy, None, white, parity);
    }
    assert sx % 2 != ex % 2;
  }
}
