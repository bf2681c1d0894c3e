/** The board geometry and the movement rules of the six chess pieces
    (the `IMovingStrategy` subclasses of chess.cpp).

    Coordinates keep the source's order: column before row, and the board is
    indexed `grid[row][col]`. Row 0 is Black's back rank, row 7 White's. */
module ChessRules {
  import opened Wrappers

  /** Colour as the source stores it: 0 is White, 1 is Black. */
  type Color = c: int | 0 <= c <= 1

  const White: Color := 0
  const Black: Color := 1

  datatype PieceKind = Pawn | Rook | Knight | Bishop | Queen | King

  /** A piece. `tag` stands for the identity of the heap object the source
      allocates for it: two pieces of the same kind and colour are still two pieces. */
  datatype Piece = Piece(kind: PieceKind, color: Color, tag: nat)

  /** The 8x8 board of optional occupants, as `grid[row][col]`. */
  type Grid = seq<seq<Option<Piece>>>

  predicate IsBoard(g: Grid) {
    |g| == 8 && forall r :: 0 <= r < 8 ==> |g[r]| == 8
  }

  predicate OnBoard(col: int, row: int) {
    0 <= col < 8 && 0 <= row < 8
  }

  function Abs(x: int): nat {
    if x < 0 then -x else x
  }

  function Min(a: int, b: int): int {
    if a < b then a else b
  }

  function Max(a: int, b: int): int {
    if a < b then b else a
  }

  /** `x` lies strictly between `a` and `b`. */
  predicate StrictlyBetween(a: int, x: int, b: int) {
    Min(a, b) < x < Max(a, b)
  }

  /** Square (col, row) lies strictly between source and destination of a move
      along a file or a rank. */
  predicate StraightBetween(srcCol: int, srcRow: int, destCol: int, destRow: int, col: int, row: int) {
    || (col == srcCol && srcCol == destCol && StrictlyBetween(srcRow, row, destRow))
    || (row == srcRow && srcRow == destRow && StrictlyBetween(srcCol, col, destCol))
  }

  /** Square (col, row) lies strictly between source and destination of a move
      along a diagonal. */
  predicate DiagonalBetween(srcCol: int, srcRow: int, destCol: int, destRow: int, col: int, row: int) {
    && StrictlyBetween(srcCol, col, destCol)
    && StrictlyBetween(srcRow, row, destRow)
    && Abs(col - srcCol) == Abs(row - srcRow)
  }

  /** What every strategy may assume: both squares on the board and a piece
      on the source (the strategies dereference `board[srr][src]`). */
  predicate MoveOnBoard(g: Grid, srcCol: int, srcRow: int, destCol: int, destRow: int) {
    IsBoard(g) && OnBoard(srcCol, srcRow) && OnBoard(destCol, destRow) && g[srcRow][srcCol].Some?
  }

  /** The destination is empty or holds a piece of the other colour. */
  predicate CanLand(g: Grid, srcCol: int, srcRow: int, destCol: int, destRow: int)
    requires MoveOnBoard(g, srcCol, srcRow, destCol, destRow)
  {
    g[destRow][destCol].None? || g[destRow][destCol].value.color != g[srcRow][srcCol].value.color
  }

  predicate StraightPathClear(g: Grid, srcCol: int, srcRow: int, destCol: int, destRow: int)
    requires IsBoard(g)
  {
    forall col, row :: 0 <= col < 8 && 0 <= row < 8 && StraightBetween(srcCol, srcRow, destCol, destRow, col, row) ==> g[row][col].None?
  }

  predicate DiagonalPathClear(g: Grid, srcCol: int, srcRow: int, destCol: int, destRow: int)
    requires IsBoard(g)
  {
    forall col, row :: 0 <= col < 8 && 0 <= row < 8 && DiagonalBetween(srcCol, srcRow, destCol, destRow, col, row) ==> g[row][col].None?
  }

  /** Rook: along a file or a rank, nothing in between, and not onto its own colour. */
  predicate RookLegal(g: Grid, srcCol: int, srcRow: int, destCol: int, destRow: int)
    requires MoveOnBoard(g, srcCol, srcRow, destCol, destRow)
  {
    && (srcCol == destCol || srcRow == destRow)
    && StraightPathClear(g, srcCol, srcRow, destCol, destRow)
    && CanLand(g, srcCol, srcRow, destCol, destRow)
  }

  /** Bishop: along a diagonal, nothing in between, and not onto its own colour. */
  predicate BishopLegal(g: Grid, srcCol: int, srcRow: int, destCol: int, destRow: int)
    requires MoveOnBoard(g, srcCol, srcRow, destCol, destRow)
  {
    && Abs(destCol - srcCol) == Abs(destRow - srcRow)
    && DiagonalPathClear(g, srcCol, srcRow, destCol, destRow)
    && CanLand(g, srcCol, srcRow, destCol, destRow)
  }

  /** Queen: a legal rook move or a legal bishop move. */
  predicate QueenLegal(g: Grid, srcCol: int, srcRow: int, destCol: int, destRow: int)
    requires MoveOnBoard(g, srcCol, srcRow, destCol, destRow)
  {
    RookLegal(g, srcCol, srcRow, destCol, destRow) || BishopLegal(g, srcCol, srcRow, destCol, destRow)
  }

  /** Knight: two squares one way and one the other; nothing in between is looked at. */
  predicate KnightLegal(g: Grid, srcCol: int, srcRow: int, destCol: int, destRow: int)
    requires MoveOnBoard(g, srcCol, srcRow, destCol, destRow)
  {
    var dr, dc := Abs(destRow - srcRow), Abs(destCol - srcCol);
    ((dr == 2 && dc == 1) || (dr == 1 && dc == 2)) && CanLand(g, srcCol, srcRow, destCol, destRow)
  }

  /** King: at most one square in each direction, not onto its own colour. */
  predicate KingLegal(g: Grid, srcCol: int, srcRow: int, destCol: int, destRow: int)
    requires MoveOnBoard(g, srcCol, srcRow, destCol, destRow)
  {
    Abs(destRow - srcRow) <= 1 && Abs(destCol - srcCol) <= 1 && CanLand(g, srcCol, srcRow, destCol, destRow)
  }

  /** The row a pawn of this colour advances by: White moves toward row 0, Black toward row 7. */
  function Direction(color: Color): int {
    if color == White then -1 else 1
  }

  /** Pawn, with the source's three cases. The two-step case tests for row 1
      or row 6 whatever the pawn's colour (see PawnDoubleStepOnlyFromHomeRank). */
  predicate PawnLegal(g: Grid, srcCol: int, srcRow: int, destCol: int, destRow: int)
    requires MoveOnBoard(g, srcCol, srcRow, destCol, destRow)
  {
    var mover := g[srcRow][srcCol].value;
    var dir := Direction(mover.color);
    || (destCol == srcCol && destRow == srcRow + dir && g[destRow][destCol].None?)
    || (&& destCol == srcCol && destRow == srcRow + 2 * dir
        && g[srcRow + dir][srcCol].None? && g[destRow][destCol].None?
        && (srcRow == 1 || srcRow == 6))
    || (&& Abs(destCol - srcCol) == 1 && destRow == srcRow + dir
        && g[destRow][destCol].Some? && g[destRow][destCol].value.color != mover.color)
  }

  /** The strategy of a piece kind: what `isValidMove` answers. */
  predicate Legal(kind: PieceKind, g: Grid, srcCol: int, srcRow: int, destCol: int, destRow: int)
    requires MoveOnBoard(g, srcCol, srcRow, destCol, destRow)
  {
    match kind
    case Pawn => PawnLegal(g, srcCol, srcRow, destCol, destRow)
    case Rook => RookLegal(g, srcCol, srcRow, destCol, destRow)
    case Knight => KnightLegal(g, srcCol, srcRow, destCol, destRow)
    case Bishop => BishopLegal(g, srcCol, srcRow, destCol, destRow)
    case Queen => QueenLegal(g, srcCol, srcRow, destCol, destRow)
    case King => KingLegal(g, srcCol, srcRow, destCol, destRow)
  }

  // ---------------------------------------------------------------------------
  // The scans, as the source runs them

  /** rookMove::isValidMove: the file scan and the rank scan, then the destination test. */
  method RookIsValidMove(g: Grid, srcCol: int, srcRow: int, destCol: int, destRow: int) returns (ok: bool)
    requires MoveOnBoard(g, srcCol, srcRow, destCol, destRow)
    ensures ok == RookLegal(g, srcCol, srcRow, destCol, destRow)
  {
    if srcCol - destCol != 0 && srcRow - destRow != 0 {
      return false;
    }
    if srcCol - destCol == 0 {
      var i := Min(srcRow, destRow) + 1;
      while i < Max(srcRow, destRow)
        invariant Min(srcRow, destRow) < i <= Max(srcRow, destRow) + 1
        invariant forall row :: Min(srcRow, destRow) < row < i ==> g[row][srcCol].None?
      {
        if g[i][srcCol].Some? {
          assert StraightBetween(srcCol, srcRow, destCol, destRow, srcCol, i);
          return false;
        }
        i := i + 1;
      }
    }
    if srcRow - destRow == 0 {
      var i := Min(srcCol, destCol) + 1;
      while i < Max(srcCol, destCol)
        invariant Min(srcCol, destCol) < i <= Max(srcCol, destCol) + 1
        invariant forall col :: Min(srcCol, destCol) < col < i ==> g[srcRow][col].None?
      {
        if g[srcRow][i].Some? {
          assert StraightBetween(srcCol, srcRow, destCol, destRow, i, srcRow);
          return false;
        }
        i := i + 1;
      }
    }
    if g[destRow][destCol].Some? && g[destRow][destCol].value.color == g[srcRow][srcCol].value.color {
      return false;
    }
    return true;
  }

  /** The step of a diagonal scan toward `dest`, as the source computes it. */
  function DiagonalStep(start: int, dest: int): int {
    if dest > start then 1 else -1
  }

  /** The diagonal scan shared by BishopMove and QueenMove, with the source's
      stop condition `r != desr && c != desc`, on a true diagonal of length at
      least one. On such a diagonal both coordinates reach the destination on
      the same step, so the scan visits exactly the squares strictly between. */
  method DiagonalScan(g: Grid, srcCol: int, srcRow: int, destCol: int, destRow: int) returns (clear: bool)
    requires MoveOnBoard(g, srcCol, srcRow, destCol, destRow)
    requires Abs(destCol - srcCol) == Abs(destRow - srcRow) > 0
    ensures clear == DiagonalPathClear(g, srcCol, srcRow, destCol, destRow)
  {
    var n := Abs(destCol - srcCol);
    var dr, dc := DiagonalStep(srcRow, destRow), DiagonalStep(srcCol, destCol);
    var r, c := srcRow + dr, srcCol + dc;
    ghost var k: int := 1;
    while r != destRow && c != destCol
      invariant 1 <= k <= n
      invariant r == (if dr == 1 then srcRow + k else srcRow - k)
      invariant c == (if dc == 1 then srcCol + k else srcCol - k)
      invariant forall col, row :: OnBoard(col, row) && DiagonalBetween(srcCol, srcRow, destCol, destRow, col, row) && Abs(col - srcCol) < k ==> g[row][col].None?
      decreases n - k
    {
      if g[r][c].Some? {
        assert DiagonalBetween(srcCol, srcRow, destCol, destRow, c, r);
        return false;
      }
      r, c, k := r + dr, c + dc, k + 1;
    }
    return true;
  }

  /** BishopMove::isValidMove. The null move (source equals destination) is
      rejected here; the source's scan never stops on it (see Findings). */
  method BishopIsValidMove(g: Grid, srcCol: int, srcRow: int, destCol: int, destRow: int) returns (ok: bool)
    requires MoveOnBoard(g, srcCol, srcRow, destCol, destRow)
    ensures ok == BishopLegal(g, srcCol, srcRow, destCol, destRow)
  {
    if Abs(destCol - srcCol) != Abs(destRow - srcRow) {
      return false;
    }
    if destCol == srcCol {
      return false;
    }
    var clear := DiagonalScan(g, srcCol, srcRow, destCol, destRow);
    if !clear {
      return false;
    }
    return g[destRow][destCol].None? || g[destRow][destCol].value.color != g[srcRow][srcCol].value.color;
  }

  /** The straight-line scan of QueenMove: one step toward the destination
      in each coordinate that differs, until both coordinates have reached it. */
  method QueenStraightScan(g: Grid, srcCol: int, srcRow: int, destCol: int, destRow: int) returns (clear: bool)
    requires MoveOnBoard(g, srcCol, srcRow, destCol, destRow)
    requires (srcCol == destCol) != (srcRow == destRow)
    ensures clear == StraightPathClear(g, srcCol, srcRow, destCol, destRow)
  {
    var rowDir := if srcRow == destRow then 0 else (if destRow > srcRow then 1 else -1);
    var colDir := if srcCol == destCol then 0 else (if destCol > srcCol then 1 else -1);
    var r, c := srcRow + rowDir, srcCol + colDir;
    ghost var k: int := 1;
    ghost var n := Abs(destRow - srcRow) + Abs(destCol - srcCol);
    while r != destRow || c != destCol
      invariant 1 <= k <= n
      invariant r == srcRow + (if rowDir == 1 then k else if rowDir == -1 then -k else 0)
      invariant c == srcCol + (if colDir == 1 then k else if colDir == -1 then -k else 0)
      invariant forall col, row :: 0 <= col < 8 && 0 <= row < 8 && StraightBetween(srcCol, srcRow, destCol, destRow, col, row) && Abs(col - srcCol) + Abs(row - srcRow) < k ==> g[row][col].None?
      decreases n - k
    {
      if g[r][c].Some? {
        assert StraightBetween(srcCol, srcRow, destCol, destRow, c, r);
        return false;
      }
      r, c, k := r + rowDir, c + colDir, k + 1;
    }
    return true;
  }

  /** QueenMove::isValidMove: the diagonal branch when |Δrow| = |Δcol|, else the
      straight branch with its own scan, which stops when both coordinates
      have reached the destination. */
  method QueenIsValidMove(g: Grid, srcCol: int, srcRow: int, destCol: int, destRow: int) returns (ok: bool)
    requires MoveOnBoard(g, srcCol, srcRow, destCol, destRow)
    ensures ok == QueenLegal(g, srcCol, srcRow, destCol, destRow)
  {
    var dr, dc := Abs(destRow - srcRow), Abs(destCol - srcCol);
    if dr == dc {
      if dr == 0 {
        return false;
      }
      var clear := DiagonalScan(g, srcCol, srcRow, destCol, destRow);
      if !clear {
        return false;
      }
      return g[destRow][destCol].None? || g[destRow][destCol].value.color != g[srcRow][srcCol].value.color;
    }
    if srcCol == destCol || srcRow == destRow {
      var clear := QueenStraightScan(g, srcCol, srcRow, destCol, destRow);
      if !clear {
        return false;
      }
      return g[destRow][destCol].None? || g[destRow][destCol].value.color != g[srcRow][srcCol].value.color;
    }
    return false;
  }

  /** The strategy dispatch: `movingPiece->getMovingStrategy()->isValidMove(...)`. */
  method IsValidMove(kind: PieceKind, g: Grid, srcCol: int, srcRow: int, destCol: int, destRow: int) returns (ok: bool)
    requires MoveOnBoard(g, srcCol, srcRow, destCol, destRow)
    ensures ok == Legal(kind, g, srcCol, srcRow, destCol, destRow)
  {
    match kind
    case Pawn => ok := PawnLegal(g, srcCol, srcRow, destCol, destRow);
    case Rook => ok := RookIsValidMove(g, srcCol, srcRow, destCol, destRow);
    case Knight => ok := KnightLegal(g, srcCol, srcRow, destCol, destRow);
    case Bishop => ok := BishopIsValidMove(g, srcCol, srcRow, destCol, destRow);
    case Queen => ok := QueenIsValidMove(g, srcCol, srcRow, destCol, destRow);
    case King => ok := KingLegal(g, srcCol, srcRow, destCol, destRow);
  }

  // ---------------------------------------------------------------------------
  // The diagonal scan exactly as the source writes it

  datatype ScanOutcome = Clear | Blocked | OffBoard | Unfinished

  /** The loop `while (r != desr && c != desc) { if (board[r][c]) return false; r += dr; c += dc; }`
      of BishopMove and QueenMove, from the square (col, row) it is about to
      test: `Clear` when the stop condition is met, `Blocked` on an occupied
      square, `OffBoard` when it would read a square outside the board, and
      `Unfinished` when `fuel` steps did not settle it. */
  function DiagonalScanAsWritten(g: Grid, col: int, row: int, dc: int, dr: int, destCol: int, destRow: int, fuel: nat): ScanOutcome
    requires IsBoard(g)
    decreases fuel
  {
    if !(row != destRow && col != destCol) then Clear
    else if !OnBoard(col, row) then OffBoard
    else if g[row][col].Some? then Blocked
    else if fuel == 0 then Unfinished
    else DiagonalScanAsWritten(g, col + dc, row + dr, dc, dr, destCol, destRow, fuel - 1)
  }

  /** A square `k` steps from `start` in direction `step` (which is 1 or -1). */
  function Toward(start: int, k: int, step: int): int {
    if step == 1 then start + k else start - k
  }

  /** Every square strictly between, at least `k` steps from the source, is empty. */
  predicate ClearFrom(g: Grid, srcCol: int, srcRow: int, destCol: int, destRow: int, k: int)
    requires IsBoard(g)
  {
    forall col, row :: 0 <= col < 8 && 0 <= row < 8 && DiagonalBetween(srcCol, srcRow, destCol, destRow, col, row) && Abs(col - srcCol) >= k ==> g[row][col].None?
  }

  /** The squares strictly between on a true diagonal are the ones `k` steps
      away, for 0 < k < n, one per step. */
  lemma DiagonalSquareAt(srcCol: int, srcRow: int, destCol: int, destRow: int, k: int, col: int, row: int)
    requires Abs(destCol - srcCol) == Abs(destRow - srcRow)
    requires 0 < k < Abs(destCol - srcCol)
    ensures DiagonalBetween(srcCol, srcRow, destCol, destRow, Toward(srcCol, k, DiagonalStep(srcCol, destCol)), Toward(srcRow, k, DiagonalStep(srcRow, destRow)))
    ensures DiagonalBetween(srcCol, srcRow, destCol, destRow, col, row) && Abs(col - srcCol) == k ==>
      col == Toward(srcCol, k, DiagonalStep(srcCol, destCol)) && row == Toward(srcRow, k, DiagonalStep(srcRow, destRow))
  {
  }

  lemma {:induction false} ScanAsWrittenFrom(g: Grid, srcCol: int, srcRow: int, destCol: int, destRow: int, k: int)
    requires MoveOnBoard(g, srcCol, srcRow, destCol, destRow)
    requires Abs(destCol - srcCol) == Abs(destRow - srcRow) > 0
    requires 1 <= k <= Abs(destCol - srcCol)
    ensures
      var dc, dr := DiagonalStep(srcCol, destCol), DiagonalStep(srcRow, destRow);
      DiagonalScanAsWritten(g, Toward(srcCol, k, dc), Toward(srcRow, k, dr), dc, dr, destCol, destRow, Abs(destCol - srcCol) - k)
        == if ClearFrom(g, srcCol, srcRow, destCol, destRow, k) then Clear else Blocked
    decreases Abs(destCol - srcCol) - k
  {
    var n := Abs(destCol - srcCol);
    var dc, dr := DiagonalStep(srcCol, destCol), DiagonalStep(srcRow, destRow);
    var col, row := Toward(srcCol, k, dc), Toward(srcRow, k, dr);
    var scan := DiagonalScanAsWritten(g, col, row, dc, dr, destCol, destRow, n - k);
    if k == n {
      assert col == destCol;
      assert scan == Clear;
    } else {
      DiagonalSquareAt(srcCol, srcRow, destCol, destRow, k, col, row);
      assert row != destRow && col != destCol && OnBoard(col, row);
      if g[row][col].Some? {
        assert scan == Blocked;
        assert !ClearFrom(g, srcCol, srcRow, destCol, destRow, k);
      } else {
        ScanAsWrittenFrom(g, srcCol, srcRow, destCol, destRow, k + 1);
        assert Toward(srcCol, k + 1, dc) == col + dc && Toward(srcRow, k + 1, dr) == row + dr;
        assert scan == DiagonalScanAsWritten(g, col + dc, row + dr, dc, dr, destCol, destRow, n - (k + 1));
        forall c, r | 0 <= c < 8 && 0 <= r < 8 && DiagonalBetween(srcCol, srcRow, destCol, destRow, c, r) && Abs(c - srcCol) == k
          ensures g[r][c].None?
        {
          DiagonalSquareAt(srcCol, srcRow, destCol, destRow, k, c, r);
        }
        assert ClearFrom(g, srcCol, srcRow, destCol, destRow, k) == ClearFrom(g, srcCol, srcRow, destCol, destRow, k + 1);
      }
    }
  }

  /** On a true diagonal of length at least one, the source's stop condition
      `r != desr && c != desc` behaves as "stop once either coordinate reaches
      the destination": the scan never leaves the board and reports exactly
      whether every square strictly between is empty. */
  lemma StopConditionAgreesOnDiagonals(g: Grid, srcCol: int, srcRow: int, destCol: int, destRow: int)
    requires MoveOnBoard(g, srcCol, srcRow, destCol, destRow)
    requires Abs(destCol - srcCol) == Abs(destRow - srcRow) > 0
    ensures
      var dc, dr := DiagonalStep(srcCol, destCol), DiagonalStep(srcRow, destRow);
      DiagonalScanAsWritten(g, srcCol + dc, srcRow + dr, dc, dr, destCol, destRow, Abs(destCol - srcCol) - 1)
        == if DiagonalPathClear(g, srcCol, srcRow, destCol, destRow) then Clear else Blocked
  {
    ScanAsWrittenFrom(g, srcCol, srcRow, destCol, destRow, 1);
    assert ClearFrom(g, srcCol, srcRow, destCol, destRow, 1) == DiagonalPathClear(g, srcCol, srcRow, destCol, destRow);
  }

  /** The null move of a bishop or queen standing on column 0: both steps are
      -1, the stop condition holds on the first step, and that step reads
      column -1, outside the board. */
  lemma NullDiagonalMoveLeavesBoard(g: Grid, row: int)
    requires IsBoard(g) && OnBoard(0, row)
    ensures DiagonalStep(0, 0) == -1 && DiagonalStep(row, row) == -1
    ensures DiagonalScanAsWritten(g, 0 - 1, row - 1, -1, -1, 0, row, 8) == OffBoard
  {
  }

  // ---------------------------------------------------------------------------
  // Properties of the rules

  /** No piece may stay where it is: the destination then holds the mover's own colour. */
  lemma LegalMoveIsNotNull(kind: PieceKind, g: Grid, col: int, row: int)
    requires MoveOnBoard(g, col, row, col, row)
    ensures !Legal(kind, g, col, row, col, row)
  {
    assert !CanLand(g, col, row, col, row);
  }

  /** A legal move lands on an empty square or on a piece of the other colour. */
  lemma LegalMoveLandsOnOpponentOrEmpty(kind: PieceKind, g: Grid, srcCol: int, srcRow: int, destCol: int, destRow: int)
    requires MoveOnBoard(g, srcCol, srcRow, destCol, destRow)
    requires Legal(kind, g, srcCol, srcRow, destCol, destRow)
    ensures CanLand(g, srcCol, srcRow, destCol, destRow)
  {
  }

  function Place(g: Grid, col: int, row: int, p: Piece): (h: Grid)
    requires IsBoard(g) && OnBoard(col, row)
    ensures IsBoard(h) && h[row][col] == Some(p)
    ensures forall c, r :: 0 <= c < 8 && 0 <= r < 8 && (c != col || r != row) ==> h[r][c] == g[r][c]
  {
    g[row := g[row][col := Some(p)]]
  }

  /** Any piece put on a square strictly between makes a rook move illegal. */
  lemma InteriorPieceBlocksRook(g: Grid, srcCol: int, srcRow: int, destCol: int, destRow: int, col: int, row: int, p: Piece)
    requires MoveOnBoard(g, srcCol, srcRow, destCol, destRow) && OnBoard(col, row)
    requires StraightBetween(srcCol, srcRow, destCol, destRow, col, row)
    ensures MoveOnBoard(Place(g, col, row, p), srcCol, srcRow, destCol, destRow)
    ensures !RookLegal(Place(g, col, row, p), srcCol, srcRow, destCol, destRow)
  {
    var h: Grid := Place(g, col, row, p);
    assert h[row][col].Some?;
  }

  /** Any piece put on a square strictly between makes a bishop move illegal. */
  lemma InteriorPieceBlocksBishop(g: Grid, srcCol: int, srcRow: int, destCol: int, destRow: int, col: int, row: int, p: Piece)
    requires MoveOnBoard(g, srcCol, srcRow, destCol, destRow) && OnBoard(col, row)
    requires DiagonalBetween(srcCol, srcRow, destCol, destRow, col, row)
    ensures MoveOnBoard(Place(g, col, row, p), srcCol, srcRow, destCol, destRow)
    ensures !BishopLegal(Place(g, col, row, p), srcCol, srcRow, destCol, destRow)
  {
    var h: Grid := Place(g, col, row, p);
    assert h[row][col].Some?;
  }

  /** Any piece put on a square strictly between, on the line of the move,
      makes a queen move illegal. */
  lemma InteriorPieceBlocksQueen(g: Grid, srcCol: int, srcRow: int, destCol: int, destRow: int, col: int, row: int, p: Piece)
    requires MoveOnBoard(g, srcCol, srcRow, destCol, destRow) && OnBoard(col, row)
    requires StraightBetween(srcCol, srcRow, destCol, destRow, col, row) || DiagonalBetween(srcCol, srcRow, destCol, destRow, col, row)
    ensures MoveOnBoard(Place(g, col, row, p), srcCol, srcRow, destCol, destRow)
    ensures !QueenLegal(Place(g, col, row, p), srcCol, srcRow, destCol, destRow)
  {
    var h: Grid := Place(g, col, row, p);
    assert h[row][col].Some?;
  }

  /** A knight jumps: only its own square and its destination decide the move. */
  lemma KnightIgnoresOtherSquares(g: Grid, h: Grid, srcCol: int, srcRow: int, destCol: int, destRow: int)
    requires MoveOnBoard(g, srcCol, srcRow, destCol, destRow) && MoveOnBoard(h, srcCol, srcRow, destCol, destRow)
    requires g[srcRow][srcCol] == h[srcRow][srcCol] && g[destRow][destCol] == h[destRow][destCol]
    ensures KnightLegal(g, srcCol, srcRow, destCol, destRow) == KnightLegal(h, srcCol, srcRow, destCol, destRow)
  {
  }

  /** The rank a pawn of this colour starts on. */
  function HomeRank(color: Color): int {
    if color == White then 6 else 1
  }

  /** The pawn rule stated per colour: one step forward onto an empty square,
      two steps forward from the home rank over and onto empty squares, or
      one step diagonally forward onto a piece of the other colour. */
  predicate PawnRule(g: Grid, srcCol: int, srcRow: int, destCol: int, destRow: int)
    requires MoveOnBoard(g, srcCol, srcRow, destCol, destRow)
  {
    var color := g[srcRow][srcCol].value.color;
    var forward := Direction(color);
    || (destCol == srcCol && destRow - srcRow == forward && g[destRow][destCol].None?)
    || (&& destCol == srcCol && srcRow == HomeRank(color) && destRow - srcRow == 2 * forward
        && g[srcRow + forward][srcCol].None? && g[destRow][destCol].None?)
    || (&& Abs(destCol - srcCol) == 1 && destRow - srcRow == forward
        && g[destRow][destCol].Some? && g[destRow][destCol].value.color != color)
  }

  /** The colour-blind test `srr == 1 || srr == 6` is the home-rank rule once
      the destination is on the board: a two-step move from the other colour's
      home rank would leave the board. */
  lemma PawnDoubleStepOnlyFromHomeRank(g: Grid, srcCol: int, srcRow: int, destCol: int, destRow: int)
    requires MoveOnBoard(g, srcCol, srcRow, destCol, destRow)
    ensures PawnLegal(g, srcCol, srcRow, destCol, destRow) <==> PawnRule(g, srcCol, srcRow, destCol, destRow)
  {
  }
}
