/** The playfield view: the board with the falling piece drawn on top. */
module TetrisBoard {
  import opened Wrappers
  import opened Tetris

  /** The display board: a copy of the board with the current piece's type
      written into the cells it covers; piece cells above the top or
      outside the grid are skipped by bounds checks, so any piece can be
      drawn. */
  method DisplayBoard(board: Board, piece: Option<Piece>) returns (display: Board)
    requires IsBoard(board)
    ensures IsBoard(display)
    ensures piece.None? ==> display == board
    ensures piece.Some? ==> display == Overlay(board, piece.value)
  {
    display := board;
    if piece.Some? {
      var p := piece.value;
      for y := 0 to |p.shape|
        invariant IsBoard(display)
        invariant forall row, col :: 0 <= row < BoardHeight && 0 <= col < BoardWidth ==>
          display[row][col] == if CoveredBefore(p, row, col, y, 0) then Some(p.kind) else board[row][col]
      {
        for x := 0 to |p.shape[y]|
          invariant IsBoard(display)
          invariant forall row, col :: 0 <= row < BoardHeight && 0 <= col < BoardWidth ==>
            display[row][col] == if CoveredBefore(p, row, col, y, x) then Some(p.kind) else board[row][col]
        {
          if p.shape[y][x] != 0 && p.position.y + y >= 0 {
            var boardY, boardX := p.position.y + y, p.position.x + x;
            if boardY < BoardHeight && boardX >= 0 && boardX < BoardWidth {
              display := display[boardY := display[boardY][boardX := Some(p.kind)]];
            }
          }
        }
      }
      BoardsEqual(display, Overlay(board, p));
    }
  }

  /** For a piece that fits, which every current piece of the game does,
      the view differs from the board in exactly the cells the piece
      covers, and each of them shows the piece's type. */
  lemma ViewChangesExactlyCovered(board: Board, p: Piece)
    requires IsBoard(board) && !Collides(board, p, 0, 0)
    ensures forall row, col :: 0 <= row < BoardHeight && 0 <= col < BoardWidth ==>
      (Overlay(board, p)[row][col] != board[row][col] <==> Covers(p, row, col))
    ensures forall row, col :: 0 <= row < BoardHeight && 0 <= col < BoardWidth && Covers(p, row, col) ==>
      Overlay(board, p)[row][col] == Some(p.kind)
  {
    forall row, col | 0 <= row < BoardHeight && 0 <= col < BoardWidth && Covers(p, row, col)
      ensures board[row][col].None?
    {
      var y, x := row - p.position.y, col - p.position.x;
      assert !Blocked(board, p.position.x + x + 0, p.position.y + y + 0);
    }
  }

  /** The piece the game shows is always drawn over empty cells. */
  lemma GameViewDrawsOnEmptyCells(s: GameState)
    requires Inv(s) && s.currentPiece.Some?
    ensures forall row, col :: 0 <= row < BoardHeight && 0 <= col < BoardWidth && Covers(s.currentPiece.value, row, col) ==>
      s.board[row][col].None? && Overlay(s.board, s.currentPiece.value)[row][col] == Some(s.currentPiece.value.kind)
  {
    ViewChangesExactlyCovered(s.board, s.currentPiece.value);
  }
}
