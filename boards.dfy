/** Board.cpp: the fixed 8x8 grid of cells.

    The C++ board is `Square* tab[8][8]`, each square owning an optional
    `Piece*`.  Here a cell is a value slot `Option<Piece>` in an `array2`,
    and `Grid` is the value view of the whole array (rows first: `g[x][y]`
    is the cell at row x, column y, as `tab[x][y]`).  The raw allocation,
    re-allocation and deletion of squares and pieces carry no behaviour and
    are not modelled. */
module Boards {
  import opened Pieces

  type Grid = seq<seq<Cell>>

  /** A coordinate: x is the row (first index of tab), y the column. */
  datatype Pos = Pos(x: int, y: int)

  /** The game state object of the board, reduced to which of the two
      states it is in (StartState / GameOverState only print). */
  datatype Phase = Running | GameOver

  /** What getSquare hands back: a square reporting its coordinates and piece. */
  datatype Slot = Slot(x: int, y: int, piece: Cell)

  predicate InBounds(x: int, y: int)
  {
    0 <= x < 8 && 0 <= y < 8
  }

  predicate WellFormed(g: Grid)
  {
    |g| == 8 && forall i :: 0 <= i < 8 ==> |g[i]| == 8
  }

  /** The grid with the single cell (x, y) replaced by c. */
  function Set(g: Grid, x: int, y: int, c: Cell): (r: Grid)
    requires WellFormed(g) && InBounds(x, y)
    ensures WellFormed(r)
    ensures forall i, j :: 0 <= i < 8 && 0 <= j < 8 ==> r[i][j] == if i == x && j == y then c else g[i][j]
  {
    g[x := g[x][y := c]]
  }

  /** getSquare on the value grid. */
  function SlotAt(g: Grid, x: int, y: int): (s: Slot)
    requires WellFormed(g) && InBounds(x, y)
    ensures s.x == x && s.y == y && s.piece == g[x][y]
  {
    Slot(x, y, g[x][y])
  }

  /** Two well-formed grids that agree on every cell are equal. */
  lemma GridExt(a: Grid, b: Grid)
    requires WellFormed(a) && WellFormed(b)
    requires forall i, j :: 0 <= i < 8 && 0 <= j < 8 ==> a[i][j] == b[i][j]
    ensures a == b
  {
    forall i | 0 <= i < 8
      ensures a[i] == b[i]
    {
      assert forall j :: 0 <= j < 8 ==> a[i][j] == b[i][j];
    }
  }

  /** Writing a cell twice keeps the second value. */
  lemma SetSet(g: Grid, x: int, y: int, a: Cell, b: Cell)
    requires WellFormed(g) && InBounds(x, y)
    ensures Set(Set(g, x, y, a), x, y, b) == Set(g, x, y, b)
  {
    GridExt(Set(Set(g, x, y, a), x, y, b), Set(g, x, y, b));
  }

  /** Writes to two different cells commute. */
  lemma SetSwap(g: Grid, x: int, y: int, a: Cell, x': int, y': int, b: Cell)
    requires WellFormed(g) && InBounds(x, y) && InBounds(x', y') && (x, y) != (x', y')
    ensures Set(Set(g, x, y, a), x', y', b) == Set(Set(g, x', y', b), x, y, a)
  {
    GridExt(Set(Set(g, x, y, a), x', y', b), Set(Set(g, x', y', b), x, y, a));
  }

  /** Writing a cell's own content changes nothing. */
  lemma SetSame(g: Grid, x: int, y: int)
    requires WellFormed(g) && InBounds(x, y)
    ensures Set(g, x, y, g[x][y]) == g
  {
    GridExt(Set(g, x, y, g[x][y]), g);
  }

  function EmptyGrid(): (g: Grid)
    ensures WellFormed(g)
    ensures forall i, j :: InBounds(i, j) ==> g[i][j] == None
  {
    seq(8, i => seq(8, j => None))
  }

  /** The cell GameCreation puts at (i, j): black pawns on rows 0-2 and white
      pawns on rows 5-7, on the squares whose column parity differs from the
      row parity; everything else empty. */
  function InitialCell(i: int, j: int): Cell
  {
    if j % 2 == i % 2 then None
    else if 0 <= i < 3 then Some(Pawn(false))
    else if 5 <= i < 8 then Some(Pawn(true))
    else None
  }

  function InitialGrid(): (g: Grid)
    ensures WellFormed(g)
  {
    seq(8, i => seq(8, j => InitialCell(i, j)))
  }

  /** A Pawn that reaches the far row of its colour: row 0 for white, row 7
      for black. */
  predicate ReachesFarRow(piece: Piece, x: int)
  {
    piece.Pawn? && (if piece.white then x == 0 else x == 7)
  }

  /** Board::promoteQueen on the value grid. */
  function Promoted(g: Grid, x: int, y: int, piece: Piece): Grid
    requires WellFormed(g) && InBounds(x, y)
  {
    if ReachesFarRow(piece, x) then Set(g, x, y, Some(Queen(piece.white))) else g
  }

  lemma PromotedCells(g: Grid, x: int, y: int, piece: Piece)
    requires WellFormed(g) && InBounds(x, y)
    ensures WellFormed(Promoted(g, x, y, piece))
    ensures Promoted(g, x, y, piece)[x][y] == if ReachesFarRow(piece, x) then Some(Queen(piece.white)) else g[x][y]
    ensures forall i, j :: 0 <= i < 8 && 0 <= j < 8 && (i, j) != (x, y) ==> Promoted(g, x, y, piece)[i][j] == g[i][j]
  {
  }

  // ---------------------------------------------------------------------
  // Counting and presence of colours

  /** Number of pieces of the given colour in a row. */
  function RowCount(row: seq<Cell>, white: bool): nat
  {
    if row == [] then 0
    else RowCount(row[..|row| - 1], white) + (if HoldsColour(row[|row| - 1], white) then 1 else 0)
  }

  /** Number of pieces of the given colour on the rows i with i % 2 == parity. */
  function CountOnRows(g: Grid, white: bool, parity: int): nat
  {
    if g == [] then 0
    else CountOnRows(g[..|g| - 1], white, parity) + (if (|g| - 1) % 2 == parity then RowCount(g[|g| - 1], white) else 0)
  }

  /** Number of pieces of the given colour on the whole grid. */
  function PieceCount(g: Grid, white: bool): nat
  {
    CountOnRows(g, white, 0) + CountOnRows(g, white, 1)
  }

  function Indicator(b: bool): int
  {
    if b then 1 else 0
  }

  lemma {:induction false} RowCountSet(row: seq<Cell>, y: int, c: Cell, white: bool)
    requires 0 <= y < |row|
    ensures RowCount(row[y := c], white) == RowCount(row, white) - Indicator(HoldsColour(row[y], white)) + Indicator(HoldsColour(c, white))
    decreases |row|
  {
    var n := |row| - 1;
    var r' := row[y := c];
    if y < n {
      assert r'[..n] == row[..n][y := c];
      RowCountSet(row[..n], y, c, white);
    } else {
      assert r'[..n] == row[..n];
    }
  }

  lemma {:induction false} CountOnRowsSet(g: Grid, x: int, y: int, c: Cell, white: bool, parity: int)
    requires 0 <= x < |g| && 0 <= y < |g[x]|
    ensures CountOnRows(g[x := g[x][y := c]], white, parity)
         == CountOnRows(g, white, parity)
          + (if x % 2 == parity then Indicator(HoldsColour(c, white)) - Indicator(HoldsColour(g[x][y], white)) else 0)
    decreases |g|
  {
    var n := |g| - 1;
    var g' := g[x := g[x][y := c]];
    if x < n {
      assert g'[..n] == g[..n][x := g[..n][x][y := c]];
      CountOnRowsSet(g[..n], x, y, c, white, parity);
    } else {
      assert g'[..n] == g[..n];
      RowCountSet(g[x], y, c, white);
    }
  }

  /** Replacing one cell changes a colour-and-parity count by exactly the
      change at that cell. */
  lemma CountAfterSet(g: Grid, x: int, y: int, c: Cell, white: bool, parity: int)
    requires WellFormed(g) && InBounds(x, y)
    ensures CountOnRows(Set(g, x, y, c), white, parity)
         == CountOnRows(g, white, parity)
          + (if x % 2 == parity then Indicator(HoldsColour(c, white)) - Indicator(HoldsColour(g[x][y], white)) else 0)
  {
    CountOnRowsSet(g, x, y, c, white, parity);
  }

  /** The grid holds at least one piece of the given colour. */
  predicate HasColour(g: Grid, white: bool)
    requires WellFormed(g)
  {
    exists i, j :: 0 <= i < 8 && 0 <= j < 8 && HoldsColour(g[i][j], white)
  }

  lemma {:induction false} RowCountPositive(row: seq<Cell>, white: bool)
    ensures RowCount(row, white) > 0 <==> exists j :: 0 <= j < |row| && HoldsColour(row[j], white)
    decreases |row|
  {
    if row != [] {
      var n := |row| - 1;
      RowCountPositive(row[..n], white);
      if RowCount(row[..n], white) > 0 {
        var j :| 0 <= j < n && HoldsColour(row[..n][j], white);
        assert HoldsColour(row[j], white);
      }
      if exists j :: 0 <= j < |row| && HoldsColour(row[j], white) {
        var j :| 0 <= j < |row| && HoldsColour(row[j], white);
        if j < n {
          assert HoldsColour(row[..n][j], white);
        }
      }
    }
  }

  lemma {:induction false} CountOnRowsPositive(g: Grid, white: bool, parity: int)
    ensures CountOnRows(g, white, parity) > 0
        <==> exists i, j :: 0 <= i < |g| && i % 2 == parity && 0 <= j < |g[i]| && HoldsColour(g[i][j], white)
    decreases |g|
  {
    if g != [] {
      var n := |g| - 1;
      CountOnRowsPositive(g[..n], white, parity);
      RowCountPositive(g[n], white);
      if CountOnRows(g[..n], white, parity) > 0 {
        var i, j :| 0 <= i < n && i % 2 == parity && 0 <= j < |g[..n][i]| && HoldsColour(g[..n][i][j], white);
        assert HoldsColour(g[i][j], white);
      }
      if exists i, j :: 0 <= i < |g| && i % 2 == parity && 0 <= j < |g[i]| && HoldsColour(g[i][j], white) {
        var i, j :| 0 <= i < |g| && i % 2 == parity && 0 <= j < |g[i]| && HoldsColour(g[i][j], white);
        if i < n {
          assert HoldsColour(g[..n][i][j], white);
        }
      }
    }
  }

  /** A colour is present exactly when its piece count is positive. */
  lemma HasColourIffCount(g: Grid, white: bool)
    requires WellFormed(g)
    ensures HasColour(g, white) <==> PieceCount(g, white) > 0
  {
    CountOnRowsPositive(g, white, 0);
    CountOnRowsPositive(g, white, 1);
    if HasColour(g, white) {
      var i, j :| 0 <= i < 8 && 0 <= j < 8 && HoldsColour(g[i][j], white);
      assert i % 2 == 0 || i % 2 == 1;
    }
  }

  /** Whether a piece of the colour was met among the cells scanned so far,
      scanning row by row: all of rows 0..r-1 and columns 0..c-1 of row r. */
  function SeenBefore(g: Grid, white: bool, r: int, c: int): bool
    requires WellFormed(g)
    requires (0 <= r < 8 && 0 <= c <= 8) || (r == 8 && c == 0)
    decreases r, c
  {
    if c == 0 then (if r == 0 then false else SeenBefore(g, white, r - 1, 8))
    else SeenBefore(g, white, r, c - 1) || HoldsColour(g[r][c - 1], white)
  }

  lemma {:induction false} SeenBeforeIff(g: Grid, white: bool, r: int, c: int)
    requires WellFormed(g)
    requires (0 <= r < 8 && 0 <= c <= 8) || (r == 8 && c == 0)
    ensures SeenBefore(g, white, r, c)
        <==> exists i, j :: 0 <= i < 8 && 0 <= j < 8 && (i < r || (i == r && j < c)) && HoldsColour(g[i][j], white)
    decreases r, c
  {
    if c == 0 {
      if r > 0 {
        SeenBeforeIff(g, white, r - 1, 8);
      }
    } else {
      SeenBeforeIff(g, white, r, c - 1);
    }
  }

  // ---------------------------------------------------------------------
  // The board object

  class Board {
    const tab: array2<Cell>
    var whitePiecesLeft: bool
    var blackPiecesLeft: bool
    var phase: Phase

    predicate Valid()
    {
      tab.Length0 == 8 && tab.Length1 == 8
    }

    /** The value view of the array. */
    ghost function Cells(): (g: Grid)
      reads tab
      requires Valid()
      ensures WellFormed(g)
      ensures forall i, j :: 0 <= i < 8 && 0 <= j < 8 ==> g[i][j] == tab[i, j]
    {
      seq(8, i requires 0 <= i < 8 reads tab => seq(8, j requires 0 <= j < 8 reads tab => tab[i, j]))
    }

    /** Board(): 64 empty squares.  The C++ constructor leaves the game state
        pointer unset; the model starts it as Running. */
    constructor ()
      ensures Valid() && fresh(tab)
      ensures Cells() == EmptyGrid()
      ensures phase == Running
    {
      var t := new Cell[8, 8];
      var i := 0;
      while i < 8
        invariant 0 <= i <= 8
        invariant forall p, q :: 0 <= p < i && 0 <= q < 8 ==> t[p, q] == None
      {
        var j := 0;
        while j < 8
          invariant 0 <= j <= 8
          invariant forall p, q :: 0 <= p < i && 0 <= q < 8 ==> t[p, q] == None
          invariant forall q :: 0 <= q < j ==> t[i, q] == None
        {
          t[i, j] := None;
          j := j + 1;
        }
        i := i + 1;
      }
      tab := t;
      phase := Running;
      new;
      GridExt(Cells(), EmptyGrid());
    }

    /** Board::getSquare: no bounds check in the source, so the bounds are
        the caller's obligation. */
    function GetSquare(x: int, y: int): (s: Slot)
      reads tab
      requires Valid() && InBounds(x, y)
      ensures s == SlotAt(Cells(), x, y)
    {
      Slot(x, y, tab[x, y])
    }

    /** Board::GameCreation: fills the three bands of rows. */
    method GameCreation()
      requires Valid()
      modifies tab
      ensures Cells() == InitialGrid()
    {
      var i := 0;
      while i < 3
        invariant 0 <= i <= 3
        invariant forall p, q :: 0 <= p < i && 0 <= q < 8 ==> tab[p, q] == InitialCell(p, q)
      {
        var j := 0;
        while j < 8
          invariant 0 <= j <= 8
          invariant forall p, q :: 0 <= p < i && 0 <= q < 8 ==> tab[p, q] == InitialCell(p, q)
          invariant forall q :: 0 <= q < j ==> tab[i, q] == InitialCell(i, q)
        {
          if j % 2 == i % 2 {
            tab[i, j] := None;
          } else {
            tab[i, j] := Some(Pawn(false));
          }
          j := j + 1;
        }
        i := i + 1;
      }
      while i < 5
        invariant 3 <= i <= 5
        invariant forall p, q :: 0 <= p < i && 0 <= q < 8 ==> tab[p, q] == InitialCell(p, q)
      {
        var j := 0;
        while j < 8
          invariant 0 <= j <= 8
          invariant forall p, q :: 0 <= p < i && 0 <= q < 8 ==> tab[p, q] == InitialCell(p, q)
          invariant forall q :: 0 <= q < j ==> tab[i, q] == InitialCell(i, q)
        {
          tab[i, j] := None;
          j := j + 1;
        }
        i := i + 1;
      }
      while i < 8
        invariant 5 <= i <= 8
        invariant forall p, q :: 0 <= p < i && 0 <= q < 8 ==> tab[p, q] == InitialCell(p, q)
      {
        var j := 0;
        while j < 8
          invariant 0 <= j <= 8
          invariant forall p, q :: 0 <= p < i && 0 <= q < 8 ==> tab[p, q] == InitialCell(p, q)
          invariant forall q :: 0 <= q < j ==> tab[i, q] == InitialCell(i, q)
        {
          if j % 2 == i % 2 {
            tab[i, j] := None;
          } else {
            tab[i, j] := Some(Pawn(true));
          }
          j := j + 1;
        }
        i := i + 1;
      }
      GridExt(Cells(), InitialGrid());
    }

    /** Board::CheckGameOver: scans all 64 cells for each colour; the game is
        over when a colour is missing. */
    method CheckGameOver() returns (over: bool)
      requires Valid()
      modifies this
      ensures whitePiecesLeft == HasColour(Cells(), true)
      ensures blackPiecesLeft == HasColour(Cells(), false)
      ensures over == (!whitePiecesLeft || !blackPiecesLeft)
      ensures phase == if over then GameOver else old(phase)
    {
      whitePiecesLeft := false;
      blackPiecesLeft := false;
      ghost var g := Cells();
      var i := 0;
      while i < 8
        invariant 0 <= i <= 8
        invariant whitePiecesLeft == SeenBefore(g, true, i, 0)
        invariant blackPiecesLeft == SeenBefore(g, false, i, 0)
        invariant phase == old(phase)
      {
        var j := 0;
        while j < 8
          invariant 0 <= j <= 8
          invariant whitePiecesLeft == SeenBefore(g, true, i, j)
          invariant blackPiecesLeft == SeenBefore(g, false, i, j)
          invariant phase == old(phase)
        {
          var cell := tab[i, j];
          if cell.Some? {
            if cell.value.white {
              whitePiecesLeft := true;
            } else {
              blackPiecesLeft := true;
            }
          }
          j := j + 1;
        }
        i := i + 1;
      }
      SeenBeforeIff(g, true, 8, 0);
      SeenBeforeIff(g, false, 8, 0);
      if !whitePiecesLeft || !blackPiecesLeft {
        phase := GameOver;
        over := true;
      } else {
        over := false;
      }
    }

    /** Board::updateSquare: the square is never null, so the source's throw
        is unreachable. */
    method UpdateSquare(x: int, y: int, piece: Cell)
      requires Valid() && InBounds(x, y)
      modifies tab
      ensures Cells() == Set(old(Cells()), x, y, piece)
    {
      tab[x, y] := piece;
      GridExt(Cells(), Set(old(Cells()), x, y, piece));
    }

    /** Board::promoteQueen */
    method PromoteQueen(x: int, y: int, piece: Piece)
      requires Valid() && InBounds(x, y)
      modifies tab
      ensures Cells() == Promoted(old(Cells()), x, y, piece)
    {
      if piece.Pawn? {
        if piece.white {
          if x == 0 {
            tab[x, y] := Some(Queen(true));
          }
        } else {
          if x == 7 {
            tab[x, y] := Some(Queen(false));
          }
        }
      }
      GridExt(Cells(), Promoted(old(Cells()), x, y, piece));
    }
  }

  // ---------------------------------------------------------------------
  // Properties of the starting position

  lemma InitialRows(i: int)
    requires 0 <= i < 8
    ensures InitialGrid()[i] == if 3 <= i < 5 then seq(8, j => None)
                                else if i % 2 == 0 then seq(8, j => if j % 2 == 0 then None else Some(Pawn(i >= 5)))
                                else seq(8, j => if j % 2 == 1 then None else Some(Pawn(i >= 5)))
  {
    var expected := if 3 <= i < 5 then seq(8, j => None)
                    else if i % 2 == 0 then seq(8, j => if j % 2 == 0 then None else Some(Pawn(i >= 5)))
                    else seq(8, j => if j % 2 == 1 then None else Some(Pawn(i >= 5)));
    assert forall j :: 0 <= j < 8 ==> InitialGrid()[i][j] == expected[j];
  }

  /** After GameCreation each side has twelve pieces: black on rows 0-2,
      white on rows 5-7, rows 3 and 4 empty. */
  lemma InitialCounts()
    ensures PieceCount(InitialGrid(), true) == 12
    ensures PieceCount(InitialGrid(), false) == 12
    ensures forall j :: 0 <= j < 8 ==> InitialGrid()[3][j] == None && InitialGrid()[4][j] == None
  {
    InitialCountsBy(true);
    InitialCountsBy(false);
  }

  lemma {:induction false} RowCountAppend(a: seq<Cell>, b: seq<Cell>, white: bool)
    ensures RowCount(a + b, white) == RowCount(a, white) + RowCount(b, white)
    decreases |b|
  {
    if b != [] {
      var n := |b| - 1;
      assert (a + b)[..|a + b| - 1] == a + b[..n];
      RowCountAppend(a, b[..n], white);
    } else {
      assert a + b == a;
    }
  }

  lemma RowCountPair(a: Cell, b: Cell, white: bool)
    ensures RowCount([a, b], white) == Indicator(HoldsColour(a, white)) + Indicator(HoldsColour(b, white))
  {
    assert [a, b][..1] == [a];
    assert [a][..0] == [];
    assert RowCount([a], white) == Indicator(HoldsColour(a, white));
  }

  lemma CountOnRowsStep(g: Grid, k: int, white: bool, parity: int)
    requires 0 < k <= |g|
    ensures CountOnRows(g[..k], white, parity)
         == CountOnRows(g[..k - 1], white, parity) + (if (k - 1) % 2 == parity then RowCount(g[k - 1], white) else 0)
  {
    assert g[..k][..k - 1] == g[..k - 1];
  }

  /** An eight-row count unrolled into its rows. */
  lemma CountOnEightRows(g: Grid, white: bool, parity: int)
    requires |g| == 8
    ensures CountOnRows(g, white, parity)
         == (if 0 == parity then RowCount(g[0], white) + RowCount(g[2], white) + RowCount(g[4], white) + RowCount(g[6], white) else 0)
          + (if 1 == parity then RowCount(g[1], white) + RowCount(g[3], white) + RowCount(g[5], white) + RowCount(g[7], white) else 0)
  {
    CountOnRowsStep(g, 1, white, parity);
    CountOnRowsStep(g, 2, white, parity);
    CountOnRowsStep(g, 3, white, parity);
    CountOnRowsStep(g, 4, white, parity);
    CountOnRowsStep(g, 5, white, parity);
    CountOnRowsStep(g, 6, white, parity);
    CountOnRowsStep(g, 7, white, parity);
    CountOnRowsStep(g, 8, white, parity);
    assert g[..0] == [];
    assert g[..8] == g;
  }

  /** Twelve pieces of a colour on the starting position. */
  lemma InitialCountsBy(white: bool)
    ensures PieceCount(InitialGrid(), white) == 12
  {
    var g := InitialGrid();
    InitialRowCounts(white);
    var r0, r1, r2, r3 := RowCount(g[0], white), RowCount(g[1], white), RowCount(g[2], white), RowCount(g[3], white);
    var r4, r5, r6, r7 := RowCount(g[4], white), RowCount(g[5], white), RowCount(g[6], white), RowCount(g[7], white);
    assert r3 == 0 && r4 == 0;
    assert white ==> r0 == r1 == r2 == 0 && r5 == r6 == r7 == 4;
    assert !white ==> r0 == r1 == r2 == 4 && r5 == r6 == r7 == 0;
    CountOnEightRows(g, white, 0);
    CountOnEightRows(g, white, 1);
  }

  lemma InitialRowCounts(white: bool)
    ensures forall i :: 0 <= i < 8 ==> RowCount(InitialGrid()[i], white) == if (white && 5 <= i) || (!white && i < 3) then 4 else 0
  {
    forall i | 0 <= i < 8
      ensures RowCount(InitialGrid()[i], white) == if (white && 5 <= i) || (!white && i < 3) then 4 else 0
    {
      InitialRowCount(i, white);
    }
  }

  /** Four pieces of the row's band colour on each row outside rows 3-4. */
  lemma InitialRowCount(i: int, white: bool)
    requires 0 <= i < 8
    ensures RowCount(InitialGrid()[i], white) == if (white && 5 <= i) || (!white && i < 3) then 4 else 0
  {
    var row := InitialGrid()[i];
    InitialRows(i);
    if 3 <= i < 5 {
      assert row == [None, None, None, None, None, None, None, None];
      RowCountFourPairs(None, None, white);
    } else if i % 2 == 0 {
      var p := Some(Pawn(i >= 5));
      assert row == [None, p, None, p, None, p, None, p];
      RowCountFourPairs(None, p, white);
    } else {
      var p := Some(Pawn(i >= 5));
      assert row == [p, None, p, None, p, None, p, None];
      RowCountFourPairs(p, None, white);
    }
  }

  /** A row made of four copies of the pair [a, b]. */
  lemma RowCountFourPairs(a: Cell, b: Cell, white: bool)
    ensures RowCount([a, b, a, b, a, b, a, b], white) == 4 * (Indicator(HoldsColour(a, white)) + Indicator(HoldsColour(b, white)))
  {
    var p := [a, b];
    RowCountPair(a, b, white);
    RowCountAppend(p, p, white);
    RowCountAppend(p + p, p, white);
    RowCountAppend(p + p + p, p, white);
    assert [a, b, a, b, a, b, a, b] == p + p + p + p;
  }

  /** The starting position is not a finished game. */
  lemma InitialNotOver()
    ensures HasColour(InitialGrid(), true) && HasColour(InitialGrid(), false)
  {
    InitialCounts();
    HasColourIffCount(InitialGrid(), true);
    HasColourIffCount(InitialGrid(), false);
  }
}
