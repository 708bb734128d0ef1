/** HumanPlayer.cpp: coordinate parsing and the forced-capture turn logic of
    HumanPlayer::makeMove.

    The console reads become parameters: the four characters of the opening
    request (column then row of the start, column then row of the end), and
    the four characters of each capture step.  An exception thrown by the
    source becomes an `Err` result; the board keeps whatever changes were
    made before the throw.  The capture `while` loop is modelled one
    iteration at a time (CaptureStep): the source loops on console input
    and, for a Queen, never leaves it. */
module HumanPlayer {
  import opened Pieces
  import opened Boards
  import opened Outcomes
  import Pawn
  import Rules
  import Rendering

  // ---------------------------------------------------------------------
  // convertCoordinate

  /** HumanPlayer::convertCoordinate: '1'-'8', 'a'-'h' and 'A'-'H' map to
      0-7; any other character is an error. */
  function ConvertCoordinate(c: char): (r: Result<int>)
    ensures r.Ok? <==> ('1' <= c <= '8' || 'a' <= c <= 'h' || 'A' <= c <= 'H')
    ensures r.Ok? ==> 0 <= r.value < 8
    ensures r.Err? ==> r.error == InvalidCoordinate
  {
    if '1' <= c <= '8' then Ok(c as int - '1' as int)
    else if 'a' <= c <= 'h' then Ok(c as int - 'a' as int)
    else if 'A' <= c <= 'H' then Ok(c as int - 'A' as int)
    else Err(InvalidCoordinate)
  }

  /** Each index 0-7 is named by exactly three characters: a digit, a lower
      case and an upper case letter. */
  lemma ConvertCoordinateExact(c: char, n: int)
    requires 0 <= n < 8
    ensures ConvertCoordinate(c) == Ok(n)
        <==> c == ('1' as int + n) as char || c == ('a' as int + n) as char || c == ('A' as int + n) as char
  {
  }

  /** The labels of the board picture read back as the indices they label:
      the row number of row i gives i, the column letter above column j
      gives j. */
  lemma LabelsConvertBack(g: Grid, i: int, j: int)
    requires WellFormed(g) && InBounds(i, j)
    ensures ConvertCoordinate(Rendering.Rendered(g)[Rendering.RowsStart + 22 * i]) == Ok(i)
    ensures ConvertCoordinate(Rendering.Rendered(g)[3 + 2 * j]) == Ok(j)
  {
    Rendering.RenderedAt(g, i, j);
    var header := Rendering.ColumnLetters;
    assert Rendering.Rendered(g)[3 + 2 * j] == header[3 + 2 * j];
    assert header[3 + 2 * j] == ('A' as int + j) as char by {
      if j == 0 {} else if j == 1 {} else if j == 2 {} else if j == 3 {}
      else if j == 4 {} else if j == 5 {} else if j == 6 {} else {}
    }
  }

  /** The four converted coordinates of a request: row then column of the
      start, row then column of the end. */
  datatype Request = Request(sx: int, sy: int, ex: int, ey: int)

  /** The conversions of makeMove: the start square is
      getSquare(convert(startY), convert(startX)), likewise the end. */
  function ParseRequest(startX: char, startY: char, endX: char, endY: char): (r: Result<Request>)
    ensures r.Ok? <==>
      && ConvertCoordinate(startX).Ok? && ConvertCoordinate(startY).Ok?
      && ConvertCoordinate(endX).Ok? && ConvertCoordinate(endY).Ok?
    ensures r.Ok? ==> InBounds(r.value.sx, r.value.sy) && InBounds(r.value.ex, r.value.ey)
    ensures r.Ok? ==>
      && ConvertCoordinate(startY) == Ok(r.value.sx) && ConvertCoordinate(startX) == Ok(r.value.sy)
      && ConvertCoordinate(endY) == Ok(r.value.ex) && ConvertCoordinate(endX) == Ok(r.value.ey)
    ensures r.Err? ==> r.error == InvalidCoordinate
  {
    var sr := ConvertCoordinate(startY);
    var sc := ConvertCoordinate(startX);
    var er := ConvertCoordinate(endY);
    var ec := ConvertCoordinate(endX);
    if sr.Err? || sc.Err? || er.Err? || ec.Err? then Err(InvalidCoordinate)
    else Ok(Request(sr.value, sc.value, er.value, ec.value))
  }

  // ---------------------------------------------------------------------
  // The maximum-capture scan (HumanPlayer.cpp:47-59)

  /** The running maximum of the scan after all of rows 0..r-1 and columns
      0..c-1 of row r: the longest chain over the cells met so far that hold
      a piece of the side to move. */
  function ScanMax(g: Grid, turn: bool, r: int, c: int): nat
    requires WellFormed(g)
    requires (0 <= r < 8 && 0 <= c <= 8) || (r == 8 && c == 0)
    decreases r, c
  {
    if c == 0 then (if r == 0 then 0 else ScanMax(g, turn, r - 1, 8))
    else
      var prev := ScanMax(g, turn, r, c - 1);
      if HoldsColour(g[r][c - 1], turn) then Pawn.Max(prev, Pawn.ChainLength(g, r, c - 1, turn)) else prev
  }

  /** maxCapturingMoves once the scan is over. */
  function MaxCapture(g: Grid, turn: bool): nat
    requires WellFormed(g)
  {
    ScanMax(g, turn, 8, 0)
  }

  lemma {:induction false} ScanMaxIsMax(g: Grid, turn: bool, r: int, c: int)
    requires WellFormed(g)
    requires (0 <= r < 8 && 0 <= c <= 8) || (r == 8 && c == 0)
    ensures forall i, j :: 0 <= i < 8 && 0 <= j < 8 && (i < r || (i == r && j < c)) && HoldsColour(g[i][j], turn)
              ==> Pawn.ChainLength(g, i, j, turn) <= ScanMax(g, turn, r, c)
    ensures ScanMax(g, turn, r, c) == 0
         || exists i, j :: 0 <= i < 8 && 0 <= j < 8 && (i < r || (i == r && j < c)) && HoldsColour(g[i][j], turn)
              && Pawn.ChainLength(g, i, j, turn) == ScanMax(g, turn, r, c)
    decreases r, c
  {
    if c == 0 {
      if r > 0 {
        ScanMaxIsMax(g, turn, r - 1, 8);
      }
    } else {
      ScanMaxIsMax(g, turn, r, c - 1);
      var m := ScanMax(g, turn, r, c);
      if m != 0 && m != ScanMax(g, turn, r, c - 1) {
        assert HoldsColour(g[r][c - 1], turn) && Pawn.ChainLength(g, r, c - 1, turn) == m;
      }
    }
  }

  /** The scan finds the longest chain any piece of the side to move can
      make, and 0 when there is none. */
  lemma MaxCaptureIsMax(g: Grid, turn: bool)
    requires WellFormed(g)
    ensures forall i, j :: InBounds(i, j) && HoldsColour(g[i][j], turn)
              ==> Pawn.ChainLength(g, i, j, turn) <= MaxCapture(g, turn)
    ensures MaxCapture(g, turn) == 0
         || exists i, j :: InBounds(i, j) && HoldsColour(g[i][j], turn)
              && Pawn.ChainLength(g, i, j, turn) == MaxCapture(g, turn)
  {
    ScanMaxIsMax(g, turn, 8, 0);
  }

  /** The scan loop of makeMove: every piece of the side to move is asked for
      its longest chain; the board is left as it was. */
  method ScanMaxCapture(b: Board, turn: bool) returns (m: nat)
    requires b.Valid()
    modifies b.tab
    ensures b.Cells() == old(b.Cells())
    ensures m == MaxCapture(old(b.Cells()), turn)
  {
    ghost var g := b.Cells();
    m := 0;
    var row := 0;
    while row < 8
      invariant 0 <= row <= 8
      invariant b.Cells() == g
      invariant m == ScanMax(g, turn, row, 0)
    {
      var col := 0;
      while col < 8
        invariant 0 <= col <= 8
        invariant b.Cells() == g
        invariant m == ScanMax(g, turn, row, col)
      {
        var square := b.GetSquare(row, col);
        if square.piece.Some? && square.piece.value.white == turn {
          var capturingMoves := Rules.CountCapturingMoves(square.piece.value, b, row, col, turn);
          m := Pawn.Max(m, capturingMoves);
        }
        col := col + 1;
      }
      row := row + 1;
    }
  }

  // ---------------------------------------------------------------------
  // The second scan (HumanPlayer.cpp:89-103)

  /** The condition under which the second scan sets canCapture: some piece
      of the side to move is on the board, and the chain from the selected
      start square (searched for the side to move, whatever stands there)
      is positive and at least the maximum. */
  predicate SecondScanHit(g: Grid, turn: bool, sx: int, sy: int, m: int)
    requires WellFormed(g) && InBounds(sx, sy)
  {
    var n := Pawn.ChainLength(g, sx, sy, turn);
    HasColour(g, turn) && n >= m && n > 0
  }

  /** The second scan loop: for every piece of the side to move it searches
      again, but from the selected start square, and raises canCapture when
      that chain is positive and reaches the maximum.  The board is left as
      it was. */
  method SecondScan(b: Board, turn: bool, sx: int, sy: int, m: int, canCapture0: bool) returns (canCapture: bool)
    requires b.Valid() && InBounds(sx, sy)
    modifies b.tab
    ensures b.Cells() == old(b.Cells())
    ensures canCapture == (canCapture0 || SecondScanHit(old(b.Cells()), turn, sx, sy, m))
  {
    ghost var g := b.Cells();
    ghost var hit := Pawn.ChainLength(g, sx, sy, turn) >= m && Pawn.ChainLength(g, sx, sy, turn) > 0;
    canCapture := canCapture0;
    var row := 0;
    while row < 8
      invariant 0 <= row <= 8
      invariant b.Cells() == g
      invariant canCapture == (canCapture0 || (SeenBefore(g, turn, row, 0) && hit))
    {
      var col := 0;
      while col < 8
        invariant 0 <= col <= 8
        invariant b.Cells() == g
        invariant canCapture == (canCapture0 || (SeenBefore(g, turn, row, col) && hit))
      {
        var square := b.GetSquare(row, col);
        if square.piece.Some? && square.piece.value.white == turn {
          var maxCapturing := Rules.CountCapturingMoves(square.piece.value, b, sx, sy, turn);
          if maxCapturing >= m && maxCapturing > 0 {
            canCapture := true;
          }
        }
        col := col + 1;
      }
      row := row + 1;
    }
    SeenBeforeIff(g, turn, 8, 0);
  }

  // ---------------------------------------------------------------------
  // The opening of a turn: scans, checks and the quiet move

  /** The state the capture loop works on: the square the turn started from
      (startSquare), the square the next step must start from
      (startSquarePawn), the selected piece, the captured squares recorded
      so far, the number of completed captures and the number required. */
  datatype Chain = Chain(origin: Pos, tracked: Pos, piece: Piece, captured: seq<Pos>, count: nat, max: nat)

  predicate ValidChain(c: Chain)
  {
    && InBounds(c.origin.x, c.origin.y)
    && InBounds(c.tracked.x, c.tracked.y)
    && forall k :: 0 <= k < |c.captured| ==> InBounds(c.captured[k].x, c.captured[k].y)
  }

  /** A result of the turn logic with the board it leaves. */
  datatype Outcome = Outcome(result: Result<Chain>, grid: Grid)

  /** makeMove up to the capture loop, on the value grid.  With a positive
      maximum nothing is moved and the chain must be played; with a zero
      maximum the quiet move (or the promotion) is made, unless the second
      scan raised canCapture, in which case nothing happens at all. */
  function Opening(g: Grid, turn: bool, startX: char, startY: char, endX: char, endY: char): (o: Outcome)
    requires WellFormed(g)
    ensures WellFormed(o.grid)
  {
    var m := MaxCapture(g, turn);
    var req := ParseRequest(startX, startY, endX, endY);
    if req.Err? then Outcome(Err(req.error), g)
    else
      var q := req.value;
      var cell := g[q.sx][q.sy];
      if cell.None? then Outcome(Err(EmptyStart), g)
      else
        var piece := cell.value;
        var chain := Chain(Pos(q.sx, q.sy), Pos(q.sx, q.sy), piece, [], 0, m);
        if m > 0 || SecondScanHit(g, turn, q.sx, q.sy, m) then Outcome(Ok(chain), g)
        else if !Rules.CanMove(piece, SlotAt(g, q.sx, q.sy), SlotAt(g, q.ex, q.ey), !turn) then
          Outcome(Err(IllegalDestination), g)
        else if Rules.PromotesOn(piece, turn, q.ex) then
          PromotedCells(Set(g, q.sx, q.sy, None), q.ex, q.ey, piece);
          Outcome(Ok(chain), Promoted(Set(g, q.sx, q.sy, None), q.ex, q.ey, piece))
        else
          Outcome(Ok(chain), Set(Set(g, q.ex, q.ey, cell), q.sx, q.sy, None))
  }

  /** HumanPlayer::makeMove up to the capture loop.  On success it returns
      the state the capture loop starts from. */
  method MakeMove(b: Board, turn: bool, startX: char, startY: char, endX: char, endY: char) returns (r: Result<Chain>)
    requires b.Valid()
    modifies b.tab
    ensures Outcome(r, b.Cells()) == Opening(old(b.Cells()), turn, startX, startY, endX, endY)
  {
    var maxCapturingMoves := ScanMaxCapture(b, turn);
    var canCapture := maxCapturingMoves > 0;
    var req := ParseRequest(startX, startY, endX, endY);
    if req.Err? {
      return Err(req.error);
    }
    var sx, sy, ex, ey := req.value.sx, req.value.sy, req.value.ex, req.value.ey;
    var startSquare := b.GetSquare(sx, sy);
    var endSquare := b.GetSquare(ex, ey);
    if startSquare.piece.None? {
      return Err(EmptyStart);
    }
    var piece := startSquare.piece.value;
    canCapture := SecondScan(b, turn, sx, sy, maxCapturingMoves, canCapture);
    var chain := Chain(Pos(sx, sy), Pos(sx, sy), piece, [], 0, maxCapturingMoves);
    if !canCapture {
      if !Rules.CanMove(piece, startSquare, endSquare, !turn) {
        return Err(IllegalDestination);
      }
      if Rules.PromotesOn(piece, turn, ex) {
        b.UpdateSquare(sx, sy, None);
        b.PromoteQueen(ex, ey, piece);
        return Ok(chain);
      }
      b.UpdateSquare(ex, ey, Some(piece));
      b.UpdateSquare(sx, sy, None);
    }
    r := Ok(chain);
  }

  // ---------------------------------------------------------------------
  // One iteration of the capture loop (HumanPlayer.cpp:134-176)

  /** The cells of ps all set to c, in the order of ps. */
  function SetAll(g: Grid, ps: seq<Pos>, c: Cell): (r: Grid)
    requires WellFormed(g)
    requires forall k :: 0 <= k < |ps| ==> InBounds(ps[k].x, ps[k].y)
    ensures WellFormed(r)
    decreases |ps|
  {
    if |ps| == 0 then g
    else
      var last := ps[|ps| - 1];
      Set(SetAll(g, ps[..|ps| - 1], c), last.x, last.y, c)
  }

  /** Exactly the listed cells hold c afterwards; every other cell keeps its
      content. */
  lemma {:induction false} SetAllCells(g: Grid, ps: seq<Pos>, c: Cell)
    requires WellFormed(g)
    requires forall k :: 0 <= k < |ps| ==> InBounds(ps[k].x, ps[k].y)
    ensures forall i, j :: InBounds(i, j) ==> SetAll(g, ps, c)[i][j] == if Pos(i, j) in ps then c else g[i][j]
    decreases |ps|
  {
    if |ps| > 0 {
      var init := ps[..|ps| - 1];
      SetAllCells(g, init, c);
      forall i, j | InBounds(i, j)
        ensures Pos(i, j) in ps <==> Pos(i, j) in init || Pos(i, j) == ps[|ps| - 1]
      {
        assert ps == init + [ps[|ps| - 1]];
      }
    }
  }

  /** The restoring loop over capturedPawnPositions. */
  method RestoreCaptured(b: Board, ps: seq<Pos>, c: Cell)
    requires b.Valid()
    requires forall k :: 0 <= k < |ps| ==> InBounds(ps[k].x, ps[k].y)
    modifies b.tab
    ensures b.Cells() == SetAll(old(b.Cells()), ps, c)
  {
    ghost var g := b.Cells();
    var k := 0;
    while k < |ps|
      invariant 0 <= k <= |ps|
      invariant b.Cells() == SetAll(g, ps[..k], c)
    {
      assert ps[..k + 1][..k] == ps[..k];
      b.UpdateSquare(ps[k].x, ps[k].y, c);
      k := k + 1;
    }
    assert ps[..|ps|] == ps;
  }

  /** One iteration of the capture loop on the value grid.  A step not
      starting on the tracked square is an error.  For a Queen nothing
      happens.  For a Pawn, a successful capture step counts and moves the
      tracked square to the step's end; a failed one puts a Pawn of the
      other colour on every recorded square, clears the record and puts a
      Pawn of the side to move on the square the turn started from; the
      count and the tracked square are kept. */
  function Step(g: Grid, turn: bool, chain: Chain, startX: char, startY: char, endX: char, endY: char): (o: Outcome)
    requires WellFormed(g) && ValidChain(chain)
    ensures WellFormed(o.grid)
  {
    var req := ParseRequest(startX, startY, endX, endY);
    if req.Err? then Outcome(Err(req.error), g)
    else
      var q := req.value;
      if Pos(q.sx, q.sy) != chain.tracked then Outcome(Err(NotFromTrackedSquare), g)
      else if chain.piece.Queen? then Outcome(Ok(chain), g)
      else
        var c := Pawn.SimulateCapture(g, q.sx, q.sy, turn, chain.captured, q.ex, q.ey, chain.piece);
        if c.ok then
          Outcome(Ok(chain.(captured := c.captured, count := chain.count + 1, tracked := Pos(q.ex, q.ey))), c.grid)
        else
          var restored := SetAll(c.grid, chain.captured, Some(Pawn(!turn)));
          Outcome(Ok(chain.(captured := [])), Set(restored, chain.origin.x, chain.origin.y, Some(Pawn(turn))))
  }

  /** One iteration of the capture loop of HumanPlayer::makeMove; it runs only
      while fewer captures than the maximum are done. */
  method CaptureStep(b: Board, turn: bool, chain: Chain, startX: char, startY: char, endX: char, endY: char)
    returns (r: Result<Chain>)
    requires b.Valid() && ValidChain(chain) && chain.count < chain.max
    modifies b.tab
    ensures Outcome(r, b.Cells()) == Step(old(b.Cells()), turn, chain, startX, startY, endX, endY)
  {
    var req := ParseRequest(startX, startY, endX, endY);
    if req.Err? {
      return Err(req.error);
    }
    var sx, sy, ex, ey := req.value.sx, req.value.sy, req.value.ex, req.value.ey;
    if Pos(sx, sy) != chain.tracked {
      return Err(NotFromTrackedSquare);
    }
    r := Ok(chain);
    if chain.piece.Pawn? {
      var ok, captured := Pawn.SimulateAndValidateCapturingMoves(b, sx, sy, turn, chain.captured, ex, ey, chain.piece);
      if ok {
        r := Ok(chain.(captured := captured, count := chain.count + 1, tracked := Pos(ex, ey)));
      } else {
        RestoreCaptured(b, captured, Some(Pawn(!turn)));
        b.UpdateSquare(chain.origin.x, chain.origin.y, Some(Pawn(turn)));
        r := Ok(chain.(captured := []));
      }
    }
  }

  // ---------------------------------------------------------------------
  // Properties of the opening

  /** Errors come from a bad coordinate character or an empty start square
      (checked in that order), or from a refused quiet move; none of them
      changes the board. */
  lemma OpeningErrors(g: Grid, turn: bool, startX: char, startY: char, endX: char, endY: char)
    requires WellFormed(g)
    ensures var o := Opening(g, turn, startX, startY, endX, endY);
      var req := ParseRequest(startX, startY, endX, endY);
      && (o.result.Err? ==> o.grid == g)
      && (o.result == Err(InvalidCoordinate) <==> req.Err?)
      && (o.result == Err(EmptyStart) <==> req.Ok? && g[req.value.sx][req.value.sy].None?)
      && (o.result == Err(IllegalDestination) ==> MaxCapture(g, turn) == 0)
  {
  }

  /** A turn that gets past the checks hands the capture loop a chain that
      starts on the selected square with nothing captured and the scan's
      maximum as its target, so the loop runs exactly when that maximum is
      positive.  While a capture is available somewhere, no quiet move is
      made: the board is untouched until the chain is played. */
  lemma OpeningStartsChain(g: Grid, turn: bool, startX: char, startY: char, endX: char, endY: char)
    requires WellFormed(g)
    requires Opening(g, turn, startX, startY, endX, endY).result.Ok?
    ensures var o := Opening(g, turn, startX, startY, endX, endY);
      var q := ParseRequest(startX, startY, endX, endY).value;
      var chain := o.result.value;
      && ValidChain(chain)
      && chain.origin == chain.tracked == Pos(q.sx, q.sy)
      && g[q.sx][q.sy] == Some(chain.piece)
      && chain.captured == [] && chain.count == 0
      && chain.max == MaxCapture(g, turn)
      && (chain.count < chain.max <==> MaxCapture(g, turn) > 0)
      && (MaxCapture(g, turn) > 0 ==> o.grid == g)
  {
  }

  /** With no capture available and the second scan silent, the quiet move is
      made exactly when canMove (called with the colour of the side NOT to
      move) accepts it.  The start square empties; the end square receives
      the piece, or, when a Pawn reaches the promotion row of the side to
      move, a Queen of the side to move if the Pawn is of that side and
      nothing at all otherwise (Board::promoteQueen refuses a Pawn of the
      other colour on that row).  No other cell changes. */
  lemma QuietMove(g: Grid, turn: bool, startX: char, startY: char, endX: char, endY: char)
    requires WellFormed(g)
    requires ParseRequest(startX, startY, endX, endY).Ok?
    requires var q := ParseRequest(startX, startY, endX, endY).value;
      && g[q.sx][q.sy].Some?
      && MaxCapture(g, turn) == 0 && !SecondScanHit(g, turn, q.sx, q.sy, 0)
    ensures var o := Opening(g, turn, startX, startY, endX, endY);
      var q := ParseRequest(startX, startY, endX, endY).value;
      var piece := g[q.sx][q.sy].value;
      && (o.result.Ok? <==> Rules.CanMove(piece, SlotAt(g, q.sx, q.sy), SlotAt(g, q.ex, q.ey), !turn))
      && (o.result.Ok? ==>
            && o.grid[q.sx][q.sy] == None
            && o.grid[q.ex][q.ey] == (if !Rules.PromotesOn(piece, turn, q.ex) then Some(piece)
                                      else if piece.white == turn then Some(Queen(turn))
                                      else None)
            && forall i, j :: InBounds(i, j) && (i, j) != (q.sx, q.sy) && (i, j) != (q.ex, q.ey) ==> o.grid[i][j] == g[i][j])
  {
    var q := ParseRequest(startX, startY, endX, endY).value;
    var piece := g[q.sx][q.sy].value;
    if Rules.CanMove(piece, SlotAt(g, q.sx, q.sy), SlotAt(g, q.ex, q.ey), !turn) && Rules.PromotesOn(piece, turn, q.ex) {
      PromotedCells(Set(g, q.sx, q.sy, None), q.ex, q.ey, piece);
    }
  }

  /** The quiet move takes a piece of either colour: a Pawn of the other
      side that reaches the promotion row of the side to move leaves the
      board, so that side loses a piece without any capture. */
  lemma OpponentPawnVanishes(g: Grid, turn: bool, startX: char, startY: char, endX: char, endY: char)
    requires WellFormed(g)
    requires ParseRequest(startX, startY, endX, endY).Ok?
    requires var q := ParseRequest(startX, startY, endX, endY).value;
      && g[q.sx][q.sy] == Some(Pawn(!turn))
      && MaxCapture(g, turn) == 0 && !SecondScanHit(g, turn, q.sx, q.sy, 0)
      && Rules.CanMove(Pawn(!turn), SlotAt(g, q.sx, q.sy), SlotAt(g, q.ex, q.ey), !turn)
      && Rules.PromotesOn(Pawn(!turn), turn, q.ex)
    ensures var o := Opening(g, turn, startX, startY, endX, endY);
      && o.result.Ok?
      && PieceCount(o.grid, !turn) == PieceCount(g, !turn) - 1
      && PieceCount(o.grid, turn) == PieceCount(g, turn)
  {
    var q := ParseRequest(startX, startY, endX, endY).value;
    var o := Opening(g, turn, startX, startY, endX, endY);
    QuietMove(g, turn, startX, startY, endX, endY);
    GridExt(o.grid, Set(g, q.sx, q.sy, None));
    forall white: bool, parity | 0 <= parity < 2
      ensures CountOnRows(o.grid, white, parity)
           == CountOnRows(g, white, parity) - (if q.sx % 2 == parity then Indicator(HoldsColour(g[q.sx][q.sy], white)) else 0)
    {
      CountAfterSet(g, q.sx, q.sy, None, white, parity);
    }
    assert q.sx % 2 == 0 || q.sx % 2 == 1;
  }

  /** When no capture is available, the second scan fires only for a start
      square not holding a piece of the side to move (from which a chain
      over that side's own pieces exists); the turn then does nothing. */
  lemma SkippedQuietMove(g: Grid, turn: bool, startX: char, startY: char, endX: char, endY: char)
    requires WellFormed(g)
    requires ParseRequest(startX, startY, endX, endY).Ok?
    requires var q := ParseRequest(startX, startY, endX, endY).value;
      g[q.sx][q.sy].Some? && MaxCapture(g, turn) == 0 && SecondScanHit(g, turn, q.sx, q.sy, 0)
    ensures var q := ParseRequest(startX, startY, endX, endY).value;
      !HoldsColour(g[q.sx][q.sy], turn)
    ensures var o := Opening(g, turn, startX, startY, endX, endY);
      o.result.Ok? && o.grid == g
  {
    MaxCaptureIsMax(g, turn);
  }

  // ---------------------------------------------------------------------
  // Properties of a capture step

  /** A step keeps the chain well formed, its origin, piece and target, and
      a step taken while the loop runs never takes the count past the
      target. */
  lemma StepKeepsChain(g: Grid, turn: bool, chain: Chain, startX: char, startY: char, endX: char, endY: char)
    requires WellFormed(g) && ValidChain(chain)
    requires Step(g, turn, chain, startX, startY, endX, endY).result.Ok?
    ensures var c := Step(g, turn, chain, startX, startY, endX, endY).result.value;
      && ValidChain(c)
      && c.origin == chain.origin && c.piece == chain.piece && c.max == chain.max
      && chain.count <= c.count <= chain.count + 1
      && (chain.count < chain.max ==> c.count <= c.max)
  {
    var q := ParseRequest(startX, startY, endX, endY).value;
    if chain.piece.Pawn? {
      Pawn.SimulateCaptureSpec(g, q.sx, q.sy, turn, chain.captured, q.ex, q.ey, chain.piece);
    }
  }

  /** A step fails on a bad character or when it does not start on the
      tracked square; the board is then unchanged.  A Queen's step does
      nothing at all, so a Queen's chain never advances. */
  lemma StepErrorsAndQueen(g: Grid, turn: bool, chain: Chain, startX: char, startY: char, endX: char, endY: char)
    requires WellFormed(g) && ValidChain(chain)
    ensures var o := Step(g, turn, chain, startX, startY, endX, endY);
      var req := ParseRequest(startX, startY, endX, endY);
      && (o.result.Err? ==> o.grid == g)
      && (o.result == Err(InvalidCoordinate) <==> req.Err?)
      && (o.result == Err(NotFromTrackedSquare) <==> req.Ok? && Pos(req.value.sx, req.value.sy) != chain.tracked)
      && (chain.piece.Queen? && o.result.Ok? ==> o == Outcome(Ok(chain), g))
  {
  }

  /** Step for a Pawn once the request has parsed and starts on the tracked
      square: the capture step, followed on failure by the rollback. */
  lemma StepOfPawn(g: Grid, turn: bool, chain: Chain, startX: char, startY: char, endX: char, endY: char)
    requires WellFormed(g) && ValidChain(chain) && chain.piece.Pawn?
    requires ParseRequest(startX, startY, endX, endY).Ok?
    requires var q := ParseRequest(startX, startY, endX, endY).value;
      Pos(q.sx, q.sy) == chain.tracked
    ensures var q := ParseRequest(startX, startY, endX, endY).value;
      var c := Pawn.SimulateCapture(g, q.sx, q.sy, turn, chain.captured, q.ex, q.ey, chain.piece);
      Step(g, turn, chain, startX, startY, endX, endY)
        == if c.ok then Outcome(Ok(chain.(captured := c.captured, count := chain.count + 1, tracked := Pos(q.ex, q.ey))), c.grid)
           else Outcome(Ok(chain.(captured := [])),
                        Set(SetAll(c.grid, chain.captured, Some(Pawn(!turn))), chain.origin.x, chain.origin.y, Some(Pawn(turn))))
  {
  }

  /** A successful Pawn step jumps two squares diagonally over a piece not
      of the side to move: the count goes up by one, the jumped square is
      recorded and the end square becomes the tracked square; the piece
      stands on the end square, the start and the jumped square are empty
      and nothing else changes. */
  lemma StepSucceeds(g: Grid, turn: bool, chain: Chain, startX: char, startY: char, endX: char, endY: char)
    requires WellFormed(g) && ValidChain(chain) && chain.piece.Pawn?
    requires ParseRequest(startX, startY, endX, endY).Ok?
    requires var q := ParseRequest(startX, startY, endX, endY).value;
      && Pos(q.sx, q.sy) == chain.tracked
      && Pawn.Abs(q.ex - q.sx) == 2 && Pawn.Abs(q.ey - q.sy) == 2
      && HoldsColour(g[(q.sx + q.ex) / 2][(q.sy + q.ey) / 2], !turn)
    ensures var o := Step(g, turn, chain, startX, startY, endX, endY);
      var q := ParseRequest(startX, startY, endX, endY).value;
      var mid := Pos((q.sx + q.ex) / 2, (q.sy + q.ey) / 2);
      && o.result == Ok(chain.(captured := chain.captured + [mid], count := chain.count + 1, tracked := Pos(q.ex, q.ey)))
      && o.grid[q.ex][q.ey] == Some(chain.piece)
      && o.grid[q.sx][q.sy] == None && o.grid[mid.x][mid.y] == None
      && forall i, j :: InBounds(i, j) && (i, j) != (q.sx, q.sy) && (i, j) != (q.ex, q.ey) && (i, j) != (mid.x, mid.y)
           ==> o.grid[i][j] == g[i][j]
  {
    var q := ParseRequest(startX, startY, endX, endY).value;
    StepOfPawn(g, turn, chain, startX, startY, endX, endY);
    Pawn.SimulateCaptureOkIff(g, q.sx, q.sy, turn, chain.captured, q.ex, q.ey, chain.piece);
    Pawn.SimulateCaptureCells(g, q.sx, q.sy, turn, chain.captured, q.ex, q.ey, chain.piece);
  }

  /** A failed Pawn step empties the square it started from, puts a Pawn of
      the other side on every recorded square and a Pawn of the side to
      move on the square the turn started from, and clears the record; the
      count and the tracked square stay as they were. */
  lemma StepFails(g: Grid, turn: bool, chain: Chain, startX: char, startY: char, endX: char, endY: char)
    requires WellFormed(g) && ValidChain(chain) && chain.piece.Pawn?
    requires ParseRequest(startX, startY, endX, endY).Ok?
    requires var q := ParseRequest(startX, startY, endX, endY).value;
      && Pos(q.sx, q.sy) == chain.tracked
      && !(Pawn.Abs(q.ex - q.sx) == 2 && Pawn.Abs(q.ey - q.sy) == 2
           && HoldsColour(g[(q.sx + q.ex) / 2][(q.sy + q.ey) / 2], !turn))
    ensures var o := Step(g, turn, chain, startX, startY, endX, endY);
      && o.result == Ok(chain.(captured := []))
      && o.grid[chain.origin.x][chain.origin.y] == Some(Pawn(turn))
      && (forall i, j :: InBounds(i, j) && Pos(i, j) != chain.origin && Pos(i, j) in chain.captured
            ==> o.grid[i][j] == Some(Pawn(!turn)))
      && (chain.tracked != chain.origin && chain.tracked !in chain.captured ==>
            o.grid[chain.tracked.x][chain.tracked.y] == None)
      && (forall i, j :: InBounds(i, j) && Pos(i, j) != chain.origin && Pos(i, j) !in chain.captured && Pos(i, j) != chain.tracked
            ==> o.grid[i][j] == g[i][j])
  {
    var q := ParseRequest(startX, startY, endX, endY).value;
    StepOfPawn(g, turn, chain, startX, startY, endX, endY);
    SetAllCells(Set(g, q.sx, q.sy, None), chain.captured, Some(Pawn(!turn)));
  }

  /** The first step of a chain, jumping an opposing Pawn from the origin
      onto an empty square: the chain now records that one capture and
      tracks the landing square. */
  predicate OneJump(g: Grid, turn: bool, chain: Chain, sX: char, sY: char, eX: char, eY: char)
    requires WellFormed(g) && ValidChain(chain)
  {
    && chain.piece == Pawn(turn) && chain.captured == [] && chain.tracked == chain.origin
    && g[chain.origin.x][chain.origin.y] == Some(Pawn(turn))
    && ParseRequest(sX, sY, eX, eY).Ok?
    && var q := ParseRequest(sX, sY, eX, eY).value;
      && Pos(q.sx, q.sy) == chain.tracked
      && Pawn.Abs(q.ex - q.sx) == 2 && Pawn.Abs(q.ey - q.sy) == 2
      && g[(q.sx + q.ex) / 2][(q.sy + q.ey) / 2] == Some(Pawn(!turn))
      && g[q.ex][q.ey] == None
  }

  /** Rollback of a one-capture chain: a Pawn of the side to move jumps an
      opposing Pawn, the next step entered starts on the landing square but
      fails (for its shape or for want of an opposing piece to jump), and
      the board is back exactly as it was before the jump. */
  lemma RollbackRestoresOneCapture(g: Grid, turn: bool, chain: Chain,
                                   sX: char, sY: char, eX: char, eY: char,
                                   s2X: char, s2Y: char, e2X: char, e2Y: char)
    requires WellFormed(g) && ValidChain(chain)
    requires OneJump(g, turn, chain, sX, sY, eX, eY)
    requires ParseRequest(s2X, s2Y, e2X, e2Y).Ok?
    requires var q := ParseRequest(sX, sY, eX, eY).value;
      var q2 := ParseRequest(s2X, s2Y, e2X, e2Y).value;
      var o := Step(g, turn, chain, sX, sY, eX, eY);
      && Pos(q2.sx, q2.sy) == Pos(q.ex, q.ey)
      && !Pawn.SimulateCapture(o.grid, q2.sx, q2.sy, turn, o.result.value.captured, q2.ex, q2.ey, Pawn(turn)).ok
    ensures var o := Step(g, turn, chain, sX, sY, eX, eY);
      && o.result.Ok? && ValidChain(o.result.value)
      && var o2 := Step(o.grid, turn, o.result.value, s2X, s2Y, e2X, e2Y);
        && o2.result.Ok? && o2.grid == g && o2.result.value.captured == []
  {
    var q := ParseRequest(sX, sY, eX, eY).value;
    var e := Pos(q.ex, q.ey);
    var jump := Pawn.SimulateCapture(g, q.sx, q.sy, turn, [], q.ex, q.ey, Pawn(turn));
    OneJumpStep(g, turn, chain, sX, sY, eX, eY);
    RollbackGrid(g, turn, chain.origin, e);
    var c1 := chain.(captured := jump.captured, count := chain.count + 1, tracked := e);
    StepOfPawn(jump.grid, turn, c1, s2X, s2Y, e2X, e2Y);
  }

  /** The first step of RollbackRestoresOneCapture succeeds: the chain
      records the jumped square and tracks the landing square, and the board
      is the capture step's. */
  lemma OneJumpStep(g: Grid, turn: bool, chain: Chain, sX: char, sY: char, eX: char, eY: char)
    requires WellFormed(g) && ValidChain(chain)
    requires OneJump(g, turn, chain, sX, sY, eX, eY)
    ensures var q := ParseRequest(sX, sY, eX, eY).value;
      var jump := Pawn.SimulateCapture(g, q.sx, q.sy, turn, [], q.ex, q.ey, Pawn(turn));
      var c1 := chain.(captured := jump.captured, count := chain.count + 1, tracked := Pos(q.ex, q.ey));
      && ValidChain(c1)
      && Step(g, turn, chain, sX, sY, eX, eY) == Outcome(Ok(c1), jump.grid)
  {
    var q := ParseRequest(sX, sY, eX, eY).value;
    RollbackGrid(g, turn, chain.origin, Pos(q.ex, q.ey));
  }

  /** A Pawn step that is not a two-square diagonal move fails, as a whole
      grid: landing square emptied, record restored, origin refilled. */
  lemma StepFailsGrid(g: Grid, turn: bool, chain: Chain, startX: char, startY: char, endX: char, endY: char)
    requires WellFormed(g) && ValidChain(chain) && chain.piece.Pawn?
    requires ParseRequest(startX, startY, endX, endY).Ok?
    requires var q := ParseRequest(startX, startY, endX, endY).value;
      && Pos(q.sx, q.sy) == chain.tracked
      && !(Pawn.Abs(q.ex - q.sx) == 2 && Pawn.Abs(q.ey - q.sy) == 2)
    ensures Step(g, turn, chain, startX, startY, endX, endY)
         == Outcome(Ok(chain.(captured := [])),
                    Set(SetAll(Set(g, chain.tracked.x, chain.tracked.y, None), chain.captured, Some(Pawn(!turn))),
                        chain.origin.x, chain.origin.y, Some(Pawn(turn))))
  {
  }

  /** The board part of RollbackRestoresOneCapture: the jump, then the failed
      step's emptying of the landing square, the restoring of the captured
      square and the Pawn put back on the origin. */
  lemma RollbackGrid(g: Grid, turn: bool, o: Pos, e: Pos)
    requires WellFormed(g) && InBounds(o.x, o.y) && InBounds(e.x, e.y)
    requires Pawn.Abs(e.x - o.x) == 2 && Pawn.Abs(e.y - o.y) == 2
    requires g[o.x][o.y] == Some(Pawn(turn)) && g[e.x][e.y] == None
    requires g[(o.x + e.x) / 2][(o.y + e.y) / 2] == Some(Pawn(!turn))
    ensures var jump := Pawn.SimulateCapture(g, o.x, o.y, turn, [], e.x, e.y, Pawn(turn));
      && jump.ok && jump.captured == [Pos((o.x + e.x) / 2, (o.y + e.y) / 2)]
      && Set(SetAll(Set(jump.grid, e.x, e.y, None), jump.captured, Some(Pawn(!turn))), o.x, o.y, Some(Pawn(turn))) == g
  {
    var m := Pos((o.x + e.x) / 2, (o.y + e.y) / 2);
    var P, B, N := Some(Pawn(turn)), Some(Pawn(!turn)), None;
    var jump := Pawn.SimulateCapture(g, o.x, o.y, turn, [], e.x, e.y, Pawn(turn));
    assert jump.grid == Set(Set(Set(g, e.x, e.y, P), o.x, o.y, N), m.x, m.y, N);
    assert [m][..0] == [];
    assert SetAll(Set(jump.grid, e.x, e.y, N), [m], B) == Set(Set(jump.grid, e.x, e.y, N), m.x, m.y, B);
    assert m != o && m != e && o != e;
    var A := Set(Set(g, e.x, e.y, P), o.x, o.y, N);
    calc {
      Set(Set(Set(Set(A, m.x, m.y, N), e.x, e.y, N), m.x, m.y, B), o.x, o.y, P);
      { SetSwap(A, m.x, m.y, N, e.x, e.y, N); }
      Set(Set(Set(Set(A, e.x, e.y, N), m.x, m.y, N), m.x, m.y, B), o.x, o.y, P);
      { SetSet(Set(A, e.x, e.y, N), m.x, m.y, N, B); }
      Set(Set(Set(A, e.x, e.y, N), m.x, m.y, B), o.x, o.y, P);
      { SetSwap(Set(g, e.x, e.y, P), o.x, o.y, N, e.x, e.y, N);
        SetSet(g, e.x, e.y, P, N);
        SetSame(g, e.x, e.y); }
      Set(Set(Set(g, o.x, o.y, N), m.x, m.y, B), o.x, o.y, P);
      { SetSwap(Set(g, o.x, o.y, N), m.x, m.y, B, o.x, o.y, P);
        SetSet(g, o.x, o.y, N, P);
        SetSame(g, o.x, o.y); }
      Set(g, m.x, m.y, B);
      { SetSame(g, m.x, m.y); }
      g;
    }
  }
}
