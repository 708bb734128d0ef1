/** Piece.cpp: a piece is a value carrying its kind (Pawn.cpp / Queen.cpp)
    and its colour.  The C++ constructor `Piece(bool)` is the datatype
    constructor and `isWhite()` is the `white` field. */
module Pieces {

  datatype Option<T> = None | Some(value: T)

  datatype Piece = Pawn(white: bool) | Queen(white: bool)
  {
    /** Piece::setWhite: the same kind of piece with the colour replaced. */
    function SetWhite(b: bool): (r: Piece)
      ensures r.white == b
      ensures r.Pawn? == this.Pawn?
      ensures this.white == b ==> r == this
    {
      match this
      case Pawn(_) => Pawn(b)
      case Queen(_) => Queen(b)
    }
  }

  /** A board cell: empty, or holding exactly one piece. */
  type Cell = Option<Piece>

  /** The cell holds a piece of colour `white`. */
  predicate HoldsColour(c: Cell, white: bool)
  {
    c.Some? && c.value.white == white
  }

  /** Setting the colour twice keeps only the second colour. */
  lemma SetWhiteTwice(p: Piece, a: bool, b: bool)
    ensures p.SetWhite(a).SetWhite(b) == p.SetWhite(b)
  {
  }
}
