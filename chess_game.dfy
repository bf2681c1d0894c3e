/** The board, the per-colour rosters and the turn state machine of chess.cpp
    (`Board`, `Player` and `Game`). */
module ChessGame {
  import opened Wrappers
  import opened ChessRules

  // ---------------------------------------------------------------------------
  // The initial layout

  /** The back-rank order, column by column. */
  function BackRank(col: int): PieceKind
    requires 0 <= col < 8
  {
    [Rook, Knight, Bishop, Queen, King, Bishop, Knight, Rook][col]
  }

  /** The identity of the piece the setup creates on (col, row). */
  function Tag(col: int, row: int): nat
    requires OnBoard(col, row)
  {
    8 * row + col
  }

  /** What the setup puts on (col, row): Black's back rank on row 0 and pawns
      on row 1, White's pawns on row 6 and back rank on row 7. */
  function InitialSquare(col: int, row: int): Option<Piece>
    requires OnBoard(col, row)
  {
    if row == 0 then Some(Piece(BackRank(col), Black, Tag(col, row)))
    else if row == 1 then Some(Piece(Pawn, Black, Tag(col, row)))
    else if row == 6 then Some(Piece(Pawn, White, Tag(col, row)))
    else if row == 7 then Some(Piece(BackRank(col), White, Tag(col, row)))
    else None
  }

  function InitialGrid(): (g: Grid)
    ensures IsBoard(g)
    ensures forall col, row :: 0 <= col < 8 && 0 <= row < 8 ==> g[row][col] == InitialSquare(col, row)
  {
    seq(8, row requires 0 <= row < 8 => seq(8, col requires 0 <= col < 8 => InitialSquare(col, row)))
  }

  /** The pieces the setup puts on an occupied row, in column order. */
  function RankPieces(row: int): (s: seq<Piece>)
    requires row == 0 || row == 1 || row == 6 || row == 7
    ensures |s| == 8
    ensures forall col :: 0 <= col < 8 ==> Some(s[col]) == InitialSquare(col, row)
  {
    seq(8, col requires 0 <= col < 8 => InitialSquare(col, row).value)
  }

  /** The first of the two rows a colour starts on. */
  function FirstRow(color: Color): int {
    if color == White then 6 else 0
  }

  /** The roster the game builds for a colour from the initial board, in the
      row-major order of its construction loop. */
  function InitialRoster(color: Color): (s: seq<Piece>)
    ensures |s| == 16
  {
    RankPieces(FirstRow(color)) + RankPieces(FirstRow(color) + 1)
  }

  // ---------------------------------------------------------------------------
  // Board contents and rosters

  /** No piece stands on two squares. */
  ghost predicate Distinct(g: Grid)
    requires IsBoard(g)
  {
    forall c1, r1, c2, r2 ::
      OnBoard(c1, r1) && OnBoard(c2, r2) && g[r1][c1].Some? && g[r1][c1] == g[r2][c2] ==> c1 == c2 && r1 == r2
  }

  /** Piece `p` stands somewhere on the board. */
  ghost predicate OnGrid(g: Grid, p: Piece)
    requires IsBoard(g)
  {
    exists col, row :: OnBoard(col, row) && g[row][col] == Some(p)
  }

  predicate NoDuplicates(s: seq<Piece>) {
    forall i, j :: 0 <= i < j < |s| ==> s[i] != s[j]
  }

  /** `pieces` lists, once each, exactly the pieces of colour `color` on the board. */
  ghost predicate IsRoster(pieces: seq<Piece>, g: Grid, color: Color)
    requires IsBoard(g)
  {
    NoDuplicates(pieces) && forall p :: p in pieces <==> p.color == color && OnGrid(g, p)
  }

  /** The board once the piece on the source stands on the destination and
      the source is empty; every other square keeps its occupant. */
  function Moved(g: Grid, srcCol: int, srcRow: int, destCol: int, destRow: int): (h: Grid)
    requires IsBoard(g) && OnBoard(srcCol, srcRow) && OnBoard(destCol, destRow)
    ensures IsBoard(h)
  {
    seq(8, row requires 0 <= row < 8 => seq(8, col requires 0 <= col < 8 =>
      if col == destCol && row == destRow then g[srcRow][srcCol]
      else if col == srcCol && row == srcRow then None
      else g[row][col]))
  }

  /** `s` without its first occurrence of `x`: std::find followed by erase. */
  function RemoveFirst(s: seq<Piece>, x: Piece): seq<Piece> {
    if s == [] then []
    else if s[0] == x then s[1..]
    else [s[0]] + RemoveFirst(s[1..], x)
  }

  /** std::find: the first index of `x` in `s`, or |s| when `x` does not occur. */
  method Find(s: seq<Piece>, x: Piece) returns (i: nat)
    ensures i <= |s|
    ensures i < |s| ==> s[i] == x
    ensures forall j :: 0 <= j < i ==> s[j] != x
  {
    i := 0;
    while i < |s| && s[i] != x
      invariant i <= |s|
      invariant forall j :: 0 <= j < i ==> s[j] != x
    {
      i := i + 1;
    }
  }

  /** Erasing at the index `Find` returns removes the first occurrence. */
  lemma {:induction false} EraseAtFind(s: seq<Piece>, x: Piece, i: nat)
    requires i <= |s| && (i < |s| ==> s[i] == x)
    requires forall j :: 0 <= j < i ==> s[j] != x
    ensures RemoveFirst(s, x) == if i < |s| then s[..i] + s[i + 1..] else s
  {
    if s != [] && s[0] != x {
      EraseAtFind(s[1..], x, i - 1);
      if i < |s| {
        assert s[1..][..i - 1] == s[1..i];
        assert s[1..][i..] == s[i + 1..];
        assert [s[0]] + s[1..i] == s[..i];
      } else {
        assert [s[0]] + s[1..] == s;
      }
    }
  }

  /** Removing from a roster without duplicates drops exactly `x`, once,
      and only if it was there. */
  lemma {:induction false} RemoveFirstFromDistinct(s: seq<Piece>, x: Piece)
    requires NoDuplicates(s)
    ensures NoDuplicates(RemoveFirst(s, x))
    ensures forall y :: y in RemoveFirst(s, x) <==> y in s && y != x
    ensures |RemoveFirst(s, x)| == if x in s then |s| - 1 else |s|
  {
    if s != [] && s[0] != x {
      assert NoDuplicates(s[1..]);
      RemoveFirstFromDistinct(s[1..], x);
      assert s[0] !in s[1..];
      assert forall y :: y in s <==> y == s[0] || y in s[1..];
    } else if s != [] {
      assert NoDuplicates(s[1..]);
      assert forall y :: y in s <==> y == s[0] || y in s[1..];
    }
  }

  lemma MovedIsDistinct(g: Grid, srcCol: int, srcRow: int, destCol: int, destRow: int)
    requires IsBoard(g) && OnBoard(srcCol, srcRow) && OnBoard(destCol, destRow)
    requires Distinct(g) && (srcCol != destCol || srcRow != destRow)
    ensures Distinct(Moved(g, srcCol, srcRow, destCol, destRow))
  {
    var h: Grid := Moved(g, srcCol, srcRow, destCol, destRow);
    forall c1: int, r1: int, c2: int, r2: int | OnBoard(c1, r1) && OnBoard(c2, r2) && h[r1][c1].Some? && h[r1][c1] == h[r2][c2]
      ensures c1 == c2 && r1 == r2
    {
    }
  }

  /** After a move, a piece is on the board exactly when it was before and
      was not the one standing on the destination. */
  lemma OnGridAfterMove(g: Grid, srcCol: int, srcRow: int, destCol: int, destRow: int, p: Piece)
    requires IsBoard(g) && OnBoard(srcCol, srcRow) && OnBoard(destCol, destRow)
    requires Distinct(g) && (srcCol != destCol || srcRow != destRow) && g[srcRow][srcCol].Some?
    ensures OnGrid(Moved(g, srcCol, srcRow, destCol, destRow), p) <==> OnGrid(g, p) && g[destRow][destCol] != Some(p)
  {
    var h: Grid := Moved(g, srcCol, srcRow, destCol, destRow);
    if OnGrid(h, p) {
      var col, row :| OnBoard(col, row) && h[row][col] == Some(p);
      if col == destCol && row == destRow {
        assert g[srcRow][srcCol] == Some(p);
      } else {
        assert g[row][col] == Some(p);
      }
    }
    if OnGrid(g, p) && g[destRow][destCol] != Some(p) {
      var col, row :| OnBoard(col, row) && g[row][col] == Some(p);
      if col == srcCol && row == srcRow {
        assert h[destRow][destCol] == Some(p);
      } else {
        assert h[row][col] == Some(p);
      }
    }
  }

  /** A move keeps a roster exact once the captured piece, if it has the
      roster's colour, is removed from it. */
  lemma RosterAfterMove(pieces: seq<Piece>, g: Grid, color: Color, srcCol: int, srcRow: int, destCol: int, destRow: int)
    requires IsBoard(g) && OnBoard(srcCol, srcRow) && OnBoard(destCol, destRow)
    requires Distinct(g) && (srcCol != destCol || srcRow != destRow) && g[srcRow][srcCol].Some?
    requires IsRoster(pieces, g, color)
    ensures
      var captured := g[destRow][destCol];
      var after := if captured.Some? && captured.value.color == color then RemoveFirst(pieces, captured.value) else pieces;
      && IsRoster(after, Moved(g, srcCol, srcRow, destCol, destRow), color)
      && |after| == if captured.Some? && captured.value.color == color then |pieces| - 1 else |pieces|
  {
    var captured := g[destRow][destCol];
    var h: Grid := Moved(g, srcCol, srcRow, destCol, destRow);
    forall p: Piece
      ensures OnGrid(h, p) <==> OnGrid(g, p) && captured != Some(p)
    {
      OnGridAfterMove(g, srcCol, srcRow, destCol, destRow, p);
    }
    if captured.Some? && captured.value.color == color {
      RemoveFirstFromDistinct(pieces, captured.value);
      assert OnGrid(g, captured.value);
    }
  }

  /** The colour-ordered pieces of row `row`, columns 0 to j-1. */
  function RowPieces(g: Grid, row: int, color: Color, j: int): seq<Piece>
    requires IsBoard(g) && 0 <= row < 8 && 0 <= j <= 8
  {
    if j == 0 then [] else
      RowPieces(g, row, color, j - 1)
      + (if g[row][j - 1].Some? && g[row][j - 1].value.color == color then [g[row][j - 1].value] else [])
  }

  /** The pieces of colour `color` on rows 0 to i-1, in row-major order. */
  function BoardPieces(g: Grid, color: Color, i: int): seq<Piece>
    requires IsBoard(g) && 0 <= i <= 8
  {
    if i == 0 then [] else BoardPieces(g, color, i - 1) + RowPieces(g, i - 1, color, 8)
  }

  lemma {:induction false} RowPiecesAll(g: Grid, row: int, color: Color, j: int)
    requires IsBoard(g) && 0 <= row < 8 && 0 <= j <= 8
    requires forall col :: 0 <= col < j ==> g[row][col].Some? && g[row][col].value.color == color
    ensures |RowPieces(g, row, color, j)| == j
    ensures forall col :: 0 <= col < j ==> Some(RowPieces(g, row, color, j)[col]) == g[row][col]
  {
    if j > 0 {
      RowPiecesAll(g, row, color, j - 1);
    }
  }

  lemma {:induction false} RowPiecesNone(g: Grid, row: int, color: Color, j: int)
    requires IsBoard(g) && 0 <= row < 8 && 0 <= j <= 8
    requires forall col :: 0 <= col < j ==> g[row][col].None? || g[row][col].value.color != color
    ensures RowPieces(g, row, color, j) == []
  {
    if j > 0 {
      RowPiecesNone(g, row, color, j - 1);
    }
  }

  /** Rows from..i-1 hold no piece of `color`, so they add nothing. */
  lemma {:induction false} BoardPiecesSkip(g: Grid, color: Color, from: int, i: int)
    requires IsBoard(g) && 0 <= from <= i <= 8
    requires forall col, row :: 0 <= col < 8 && from <= row < i ==> g[row][col].None? || g[row][col].value.color != color
    ensures BoardPieces(g, color, i) == BoardPieces(g, color, from)
  {
    if i > from {
      BoardPiecesSkip(g, color, from, i - 1);
      RowPiecesNone(g, i - 1, color, 8);
    }
  }

  /** A row the colour starts on contributes its whole rank. */
  lemma InitialRowPieces(color: Color, row: int)
    requires row == FirstRow(color) || row == FirstRow(color) + 1
    ensures RowPieces(InitialGrid(), row, color, 8) == RankPieces(row)
  {
    var g: Grid := InitialGrid();
    RowPiecesAll(g, row, color, 8);
  }

  /** On the initial board, only a colour's own two rows hold its pieces. */
  lemma InitialSquareOwner(color: Color, col: int, row: int)
    requires OnBoard(col, row)
    ensures InitialGrid()[row][col].Some? && InitialGrid()[row][col].value.color == color
      ==> row == FirstRow(color) || row == FirstRow(color) + 1
  {
  }

  /** The rows before and after the colour's own two contribute nothing. */
  lemma InitialOtherRows(color: Color)
    ensures BoardPieces(InitialGrid(), color, 8) == BoardPieces(InitialGrid(), color, FirstRow(color) + 2)
    ensures BoardPieces(InitialGrid(), color, FirstRow(color)) == []
  {
    var g: Grid := InitialGrid();
    var r0 := FirstRow(color);
    forall col, row | 0 <= col < 8 && 0 <= row < 8
      ensures g[row][col].Some? && g[row][col].value.color == color ==> r0 <= row <= r0 + 1
    {
      InitialSquareOwner(color, col, row);
    }
    BoardPiecesSkip(g, color, r0 + 2, 8);
    BoardPiecesSkip(g, color, 0, r0);
  }

  /** The construction loop collects exactly the initial roster of each colour. */
  lemma InitialBoardPieces(color: Color)
    ensures BoardPieces(InitialGrid(), color, 8) == InitialRoster(color)
  {
    var g: Grid := InitialGrid();
    var r0 := FirstRow(color);
    InitialOtherRows(color);
    InitialRowPieces(color, r0);
    InitialRowPieces(color, r0 + 1);
    assert BoardPieces(g, color, r0 + 1) == RankPieces(r0);
    assert BoardPieces(g, color, r0 + 2) == RankPieces(r0) + RankPieces(r0 + 1);
  }

  /** The initial board has no piece on two squares: the tag 8*row+col tells them apart. */
  lemma InitialGridDistinct()
    ensures Distinct(InitialGrid())
  {
    var g: Grid := InitialGrid();
    forall c1: int, r1: int, c2: int, r2: int | OnBoard(c1, r1) && OnBoard(c2, r2) && g[r1][c1].Some? && g[r1][c1] == g[r2][c2]
      ensures c1 == c2 && r1 == r2
    {
      assert g[r1][c1].value.tag == 8 * r1 + c1;
      assert g[r2][c2].value.tag == 8 * r2 + c2;
    }
  }

  /** Each initial roster lists the pieces of its colour on the initial board, once each. */
  lemma InitialRosterExact(color: Color)
    ensures IsRoster(InitialRoster(color), InitialGrid(), color)
  {
    var g: Grid := InitialGrid();
    var s := InitialRoster(color);
    var r0 := FirstRow(color);
    assert forall i :: 0 <= i < 8 ==> Some(s[i]) == g[r0][i];
    assert forall i :: 8 <= i < 16 ==> Some(s[i]) == g[r0 + 1][i - 8];
    assert forall i :: 0 <= i < 16 ==> s[i].tag == 8 * r0 + i;
    forall p: Piece | p in s
      ensures p.color == color && OnGrid(g, p)
    {
      var i :| 0 <= i < 16 && s[i] == p;
      if i < 8 {
        assert g[r0][i] == Some(p);
      } else {
        assert g[r0 + 1][i - 8] == Some(p);
      }
    }
    forall p: Piece | p.color == color && OnGrid(g, p)
      ensures p in s
    {
      var col, row :| OnBoard(col, row) && g[row][col] == Some(p);
      if row == r0 {
        assert s[col] == p;
      } else {
        assert row == r0 + 1;
        assert s[col + 8] == p;
      }
    }
  }

  /** Setting up an empty board yields the initial board. */
  lemma SetUpFromEmpty(before: Grid, after: Grid)
    requires IsBoard(before) && IsBoard(after)
    requires forall col, row :: OnBoard(col, row) ==> before[row][col].None?
    requires forall col, row :: OnBoard(col, row) ==>
      after[row][col] == if 2 <= row <= 5 then before[row][col] else InitialSquare(col, row)
    ensures after == InitialGrid()
  {
    forall row | 0 <= row < 8
      ensures after[row] == InitialGrid()[row]
    {
    }
  }

  // ---------------------------------------------------------------------------
  // The classes

  /** Board: the 8x8 grid of optional pieces. */
  class Board {
    var grid: Grid

    ghost predicate Valid()
      reads this
    {
      IsBoard(grid) && Distinct(grid)
    }

    /** Board(): eight rows of eight empty squares. */
    constructor ()
      ensures Valid()
      ensures forall col, row :: OnBoard(col, row) ==> grid[row][col].None?
    {
      grid := seq(8, _ => seq(8, _ => None));
    }

    /** Board::initializeBoard: pawns on rows 1 and 6, then the back ranks on
        rows 0 and 7; rows 2 to 5 are left as they were. */
    method InitializeBoard()
      requires IsBoard(grid)
      modifies this
      ensures IsBoard(grid)
      ensures forall col, row :: OnBoard(col, row) ==>
        grid[row][col] == if 2 <= row <= 5 then old(grid)[row][col] else InitialSquare(col, row)
    {
      for i := 0 to 8
        invariant IsBoard(grid)
        invariant forall col, row :: OnBoard(col, row) ==>
          grid[row][col] == if (row == 1 || row == 6) && col < i then InitialSquare(col, row) else old(grid)[row][col]
      {
        grid := grid[1 := grid[1][i := Some(Piece(Pawn, Black, Tag(i, 1)))]];
        grid := grid[6 := grid[6][i := Some(Piece(Pawn, White, Tag(i, 6)))]];
      }
      for i := 0 to 8
        invariant IsBoard(grid)
        invariant forall col, row :: OnBoard(col, row) ==>
          grid[row][col] == if row == 1 || row == 6 || ((row == 0 || row == 7) && col < i) then InitialSquare(col, row) else old(grid)[row][col]
      {
        grid := grid[0 := grid[0][i := Some(Piece(BackRank(i), Black, Tag(i, 0)))]];
        grid := grid[7 := grid[7][i := Some(Piece(BackRank(i), White, Tag(i, 7)))]];
      }
    }

    /** Board::getPieceAt: the occupant of an on-board square; no piece for
        any coordinate off the board, which is never read. */
    function GetPieceAt(row: int, col: int): (p: Option<Piece>)
      reads this
      requires IsBoard(grid)
      ensures OnBoard(col, row) ==> p == grid[row][col]
      ensures !OnBoard(col, row) ==> p == None
    {
      if 0 <= row < 8 && 0 <= col < 8 then grid[row][col] else None
    }

    /** The `makeMove` the six strategies share: a legal move puts the mover on
        the destination, empties the source and returns the former occupant of
        the destination; an illegal one changes nothing and returns no piece. */
    method MakeMove(kind: PieceKind, srcCol: int, srcRow: int, destCol: int, destRow: int) returns (captured: Option<Piece>)
      requires Valid() && MoveOnBoard(grid, srcCol, srcRow, destCol, destRow)
      modifies this
      ensures Valid()
      ensures Legal(kind, old(grid), srcCol, srcRow, destCol, destRow) ==>
        grid == Moved(old(grid), srcCol, srcRow, destCol, destRow) && captured == old(grid)[destRow][destCol]
      ensures !Legal(kind, old(grid), srcCol, srcRow, destCol, destRow) ==> grid == old(grid) && captured == None
    {
      var ok := IsValidMove(kind, grid, srcCol, srcRow, destCol, destRow);
      if ok {
        ghost var g := grid;
        captured := grid[destRow][destCol];
        grid := grid[destRow := grid[destRow][destCol := grid[srcRow][srcCol]]];
        grid := grid[srcRow := grid[srcRow][srcCol := None]];
        if srcCol == destCol && srcRow == destRow {
          LegalMoveIsNotNull(kind, g, srcCol, srcRow);
          assert false;
        }
        assert grid == Moved(g, srcCol, srcRow, destCol, destRow) by {
          var h := Moved(g, srcCol, srcRow, destCol, destRow);
          forall row | 0 <= row < 8
            ensures grid[row] == h[row]
          {
          }
        }
        MovedIsDistinct(g, srcCol, srcRow, destCol, destRow);
      } else {
        captured := None;
      }
    }
  }

  /** Player: a colour and its roster of living pieces. */
  class Player {
    const color: Color
    var pieces: seq<Piece>

    constructor (clr: Color)
      ensures color == clr && pieces == []
    {
      color := clr;
      pieces := [];
    }

    /** Player::addPiece appends to the roster. */
    method AddPiece(piece: Piece)
      modifies this
      ensures pieces == old(pieces) + [piece]
    {
      pieces := pieces + [piece];
    }

    /** Player::removePiece erases the first occurrence, if any. */
    method RemovePiece(piece: Piece)
      modifies this
      ensures pieces == RemoveFirst(old(pieces), piece)
    {
      var i := Find(pieces, piece);
      EraseAtFind(pieces, piece, i);
      if i < |pieces| {
        pieces := pieces[..i] + pieces[i + 1..];
      }
    }
  }

  /** The moves `executeMove` carries out: a piece stands on the on-board
      source, it has the colour whose turn it is, and its strategy accepts the move. */
  predicate Accepts(g: Grid, turn: Color, srcCol: int, srcRow: int, destCol: int, destRow: int)
    requires IsBoard(g) && OnBoard(destCol, destRow)
  {
    && OnBoard(srcCol, srcRow)
    && g[srcRow][srcCol].Some?
    && g[srcRow][srcCol].value.color == turn
    && Legal(g[srcRow][srcCol].value.kind, g, srcCol, srcRow, destCol, destRow)
  }

  /** Game: the board, both players and whose turn it is. */
  class Game {
    const board: Board
    const whitePlayer: Player
    const blackPlayer: Player
    var currentTurn: Color

    /** Each roster lists exactly the living pieces of its colour. */
    ghost predicate Valid()
      reads this, board, whitePlayer, blackPlayer
    {
      && board.Valid()
      && whitePlayer != blackPlayer
      && whitePlayer.color == White && blackPlayer.color == Black
      && IsRoster(whitePlayer.pieces, board.grid, White)
      && IsRoster(blackPlayer.pieces, board.grid, Black)
    }

    /** Game(): the standard layout, each roster filled from it in row-major
        order, and White to move. */
    constructor ()
      ensures Valid()
      ensures fresh(board) && fresh(whitePlayer) && fresh(blackPlayer)
      ensures board.grid == InitialGrid()
      ensures whitePlayer.pieces == InitialRoster(White) && blackPlayer.pieces == InitialRoster(Black)
      ensures currentTurn == White
    {
      board := new Board();
      whitePlayer := new Player(White);
      blackPlayer := new Player(Black);
      currentTurn := White;
      new;
      ghost var empty := board.grid;
      board.InitializeBoard();
      SetUpFromEmpty(empty, board.grid);
      ghost var g := board.grid;
      for i := 0 to 8
        invariant board.grid == g && currentTurn == White
        invariant whitePlayer.pieces == BoardPieces(g, White, i)
        invariant blackPlayer.pieces == BoardPieces(g, Black, i)
      {
        for j := 0 to 8
          invariant board.grid == g && currentTurn == White
          invariant whitePlayer.pieces == BoardPieces(g, White, i) + RowPieces(g, i, White, j)
          invariant blackPlayer.pieces == BoardPieces(g, Black, i) + RowPieces(g, i, Black, j)
        {
          var piece := board.GetPieceAt(i, j);
          if piece.Some? {
            if piece.value.color == 0 {
              whitePlayer.AddPiece(piece.value);
            } else {
              blackPlayer.AddPiece(piece.value);
            }
          }
        }
      }
      InitialBoardPieces(White);
      InitialBoardPieces(Black);
      InitialGridDistinct();
      InitialRosterExact(White);
      InitialRosterExact(Black);
    }

    /** Game::executeMove. It refuses, changing nothing, when the source is
        off the board or empty, holds the other colour's piece, or the piece's
        strategy rejects the move. Otherwise the move is made, the captured
        piece (always the opponent's) leaves its roster, and the turn passes. */
    method ExecuteMove(srcCol: int, srcRow: int, destCol: int, destRow: int) returns (ok: bool)
      requires Valid()
      requires OnBoard(destCol, destRow)
      modifies this, board, whitePlayer, blackPlayer
      ensures Valid()
      ensures ok == Accepts(old(board.grid), old(currentTurn), srcCol, srcRow, destCol, destRow)
      ensures !ok ==> && board.grid == old(board.grid) && currentTurn == old(currentTurn)
                      && whitePlayer.pieces == old(whitePlayer.pieces) && blackPlayer.pieces == old(blackPlayer.pieces)
      ensures ok ==> && board.grid == Moved(old(board.grid), srcCol, srcRow, destCol, destRow)
                     && currentTurn == 1 - old(currentTurn)
      ensures ok ==>
        var captured := old(board.grid)[destRow][destCol];
        && (captured.Some? ==> captured.value.color != old(currentTurn))
        && whitePlayer.pieces == (if captured.Some? && captured.value.color == White then RemoveFirst(old(whitePlayer.pieces), captured.value) else old(whitePlayer.pieces))
        && blackPlayer.pieces == (if captured.Some? && captured.value.color == Black then RemoveFirst(old(blackPlayer.pieces), captured.value) else old(blackPlayer.pieces))
      ensures |whitePlayer.pieces| + |blackPlayer.pieces|
        == old(|whitePlayer.pieces| + |blackPlayer.pieces|) - (if ok && old(board.grid)[destRow][destCol].Some? then 1 else 0)
    {
      ghost var g := board.grid;
      var movingPiece := board.GetPieceAt(srcRow, srcCol);
      if movingPiece.None? || movingPiece.value.color != currentTurn {
        return false;
      }
      var valid := IsValidMove(movingPiece.value.kind, board.grid, srcCol, srcRow, destCol, destRow);
      if !valid {
        return false;
      }
      if srcCol == destCol && srcRow == destRow {
        LegalMoveIsNotNull(movingPiece.value.kind, g, srcCol, srcRow);
        assert false;
      }
      LegalMoveLandsOnOpponentOrEmpty(movingPiece.value.kind, g, srcCol, srcRow, destCol, destRow);
      RosterAfterMove(whitePlayer.pieces, g, White, srcCol, srcRow, destCol, destRow);
      RosterAfterMove(blackPlayer.pieces, g, Black, srcCol, srcRow, destCol, destRow);
      var captured := board.MakeMove(movingPiece.value.kind, srcCol, srcRow, destCol, destRow);
      if captured.Some? {
        if captured.value.color == 0 {
          whitePlayer.RemovePiece(captured.value);
        } else {
          blackPlayer.RemovePiece(captured.value);
        }
      }
      currentTurn := 1 - currentTurn;
      ok := true;
    }
  }
}
