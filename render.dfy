/** Board.cpp, operator<<: the text picture of the board.

    Two header lines (column letters and a rule), one line per row, and two
    footer lines (a rule and the column letters again).  A row line is the
    1-based row number, " |", then for each column its glyph followed by
    "|", then a space, the row number again and a newline. */
module Rendering {
  import opened Pieces
  import opened Boards

  const ColumnLetters: string := "   A B C D E F G H  \n"
  const Rule: string := "  +---------------+\n"
  const ColumnLettersBelow: string := "   A B C D E F G H \n"

  /** Where the first row line starts. */
  const RowsStart: int := 41

  /** The decimal printout of i + 1, a single digit for the rows 0..7. */
  function Digit(i: int): char
    requires 0 <= i < 8
  {
    ('1' as int + i) as char
  }

  /** W / B for a white / black Queen, w / b for a white / black Pawn, a
      space for an empty square. */
  function Glyph(c: Cell): char
  {
    match c
    case None => ' '
    case Some(Queen(w)) => if w then 'W' else 'B'
    case Some(Pawn(w)) => if w then 'w' else 'b'
  }

  /** Reads a glyph back; any other character reads as an empty square. */
  function ParseGlyph(ch: char): Cell
  {
    if ch == 'W' then Some(Queen(true))
    else if ch == 'B' then Some(Queen(false))
    else if ch == 'w' then Some(Pawn(true))
    else if ch == 'b' then Some(Pawn(false))
    else None
  }

  /** No two cells share a glyph: reading the glyph back gives the cell. */
  lemma GlyphRoundTrip(c: Cell)
    ensures ParseGlyph(Glyph(c)) == c
  {
  }

  /** The glyph-and-bar pairs of a row, column by column. */
  function RowCells(row: seq<Cell>): (s: string)
    ensures |s| == 2 * |row|
  {
    if |row| == 0 then "" else RowCells(row[..|row| - 1]) + [Glyph(row[|row| - 1]), '|']
  }

  function RowLine(g: Grid, i: int): (s: string)
    requires WellFormed(g) && 0 <= i < 8
    ensures |s| == 22
  {
    [Digit(i), ' ', '|'] + RowCells(g[i]) + [' ', Digit(i), '\n']
  }

  /** The row lines of rows 0..n-1. */
  function Rows(g: Grid, n: int): (s: string)
    requires WellFormed(g) && 0 <= n <= 8
    ensures |s| == 22 * n
  {
    if n == 0 then "" else Rows(g, n - 1) + RowLine(g, n - 1)
  }

  function Rendered(g: Grid): string
    requires WellFormed(g)
  {
    ColumnLetters + Rule + Rows(g, 8) + Rule + ColumnLettersBelow
  }

  /** Position of the glyph of cell (i, j) in the picture. */
  function GlyphOffset(i: int, j: int): int
  {
    RowsStart + 22 * i + 3 + 2 * j
  }

  lemma {:induction false} RowCellsAt(row: seq<Cell>, j: int)
    requires 0 <= j < |row|
    ensures RowCells(row)[2 * j] == Glyph(row[j])
    ensures RowCells(row)[2 * j + 1] == '|'
    decreases |row|
  {
    var init := row[..|row| - 1];
    if j < |row| - 1 {
      RowCellsAt(init, j);
      assert init[j] == row[j];
    }
  }

  lemma {:induction false} RowsAt(g: Grid, n: int, i: int, k: int)
    requires WellFormed(g) && 0 <= i < n <= 8 && 0 <= k < 22
    ensures Rows(g, n)[22 * i + k] == RowLine(g, i)[k]
    decreases n
  {
    if i < n - 1 {
      RowsAt(g, n - 1, i, k);
    }
  }

  /** The picture always has 257 characters. */
  lemma RenderedLength(g: Grid)
    requires WellFormed(g)
    ensures |Rendered(g)| == 257
  {
  }

  /** Row i's line starts and ends with its 1-based number, and carries the
      glyph of cell (i, j) at GlyphOffset(i, j), each followed by a bar. */
  lemma RenderedAt(g: Grid, i: int, j: int)
    requires WellFormed(g) && InBounds(i, j)
    ensures Rendered(g)[RowsStart + 22 * i] == Digit(i)
    ensures Rendered(g)[RowsStart + 22 * i + 20] == Digit(i)
    ensures Rendered(g)[GlyphOffset(i, j)] == Glyph(g[i][j])
    ensures Rendered(g)[GlyphOffset(i, j) + 1] == '|'
  {
    var r := Rendered(g);
    var prefix := ColumnLetters + Rule;
    assert |prefix| == RowsStart;
    assert r == prefix + Rows(g, 8) + (Rule + ColumnLettersBelow);
    RowsAt(g, 8, i, 0);
    RowsAt(g, 8, i, 20);
    RowsAt(g, 8, i, 3 + 2 * j);
    RowsAt(g, 8, i, 4 + 2 * j);
    RowCellsAt(g[i], j);
  }

  /** The picture loses nothing: reading the glyphs back gives the grid, so
      two grids with the same picture are the same grid. */
  lemma RenderedDeterminesGrid(g: Grid, h: Grid)
    requires WellFormed(g) && WellFormed(h)
    ensures forall i, j :: InBounds(i, j) ==> ParseGlyph(Rendered(g)[GlyphOffset(i, j)]) == g[i][j]
    ensures Rendered(g) == Rendered(h) ==> g == h
  {
    forall i, j | InBounds(i, j)
      ensures ParseGlyph(Rendered(g)[GlyphOffset(i, j)]) == g[i][j]
      ensures ParseGlyph(Rendered(h)[GlyphOffset(i, j)]) == h[i][j]
    {
      RenderedAt(g, i, j);
      RenderedAt(h, i, j);
      GlyphRoundTrip(g[i][j]);
      GlyphRoundTrip(h[i][j]);
    }
    if Rendered(g) == Rendered(h) {
      GridExt(g, h);
    }
  }

  /** operator<<: appends the picture to the stream cell by cell. */
  method Render(b: Board) returns (s: string)
    requires b.Valid()
    ensures s == Rendered(b.Cells())
  {
    ghost var g := b.Cells();
    s := ColumnLetters;
    s := s + Rule;
    var i := 0;
    while i < 8
      invariant 0 <= i <= 8
      invariant s == ColumnLetters + Rule + Rows(g, i)
    {
      s := s + [Digit(i), ' ', '|'];
      var j := 0;
      while j < 8
        invariant 0 <= j <= 8
        invariant s == ColumnLetters + Rule + Rows(g, i) + [Digit(i), ' ', '|'] + RowCells(g[i][..j])
      {
        assert g[i][..j + 1][..j] == g[i][..j];
        s := s + [Glyph(b.tab[i, j]), '|'];
        j := j + 1;
      }
      assert g[i][..8] == g[i];
      s := s + [' ', Digit(i), '\n'];
      i := i + 1;
    }
    s := s + Rule;
    s := s + ColumnLettersBelow;
  }
}
