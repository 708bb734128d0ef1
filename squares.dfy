/** Square.cpp: a mutable cell object with fixed coordinates and a piece slot. */
module Squares {
  import opened Pieces

  class Square {
    var x: int
    var y: int
    var piece: Cell

    /** Square(xCoord, yCoord, p) */
    constructor (xCoord: int, yCoord: int, p: Cell)
      ensures x == xCoord && y == yCoord && piece == p
    {
      x, y, piece := xCoord, yCoord, p;
    }

    method GetX() returns (r: int)
      ensures r == x
    {
      r := x;
    }

    method GetY() returns (r: int)
      ensures r == y
    {
      r := y;
    }

    method GetPiece() returns (p: Cell)
      ensures p == piece
    {
      p := piece;
    }

    /** SetPiece replaces the piece and never the coordinates. */
    method SetPiece(p: Cell)
      modifies this
      ensures piece == p
      ensures x == old(x) && y == old(y)
    {
      piece := p;
    }
  }

  /** What a caller observes: the last piece set is the one read back, and
      the coordinates are those given to the constructor. */
  method SetThenGet(x: int, y: int, first: Cell, second: Cell) returns (s: Square, got: Cell, gx: int, gy: int)
    ensures got == second && gx == x && gy == y
  {
    s := new Square(x, y, first);
    s.SetPiece(second);
    got := s.GetPiece();
    gx := s.GetX();
    gy := s.GetY();
  }
}
