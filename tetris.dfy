/** The single-player simulation of the `useTetris` hook: a fixed 10 x 20
    board, the seven piece shapes, collision, merging, line clearing,
    rotation, scoring, and the game-state commands.

    Board helpers that the hook writes with loops are methods proved equal
    to a specification function; the commands, which the hook writes as
    `prev => ({ ...prev, ... })` updates, are functions over a GameState
    value. The random piece choices are parameters. */
module Tetris {
  import opened Wrappers

  const BoardWidth: nat := 10
  const BoardHeight: nat := 20

  datatype PieceType = I | O | T | S | Z | J | L

  /** A board cell: None is an empty cell, Some(t) a locked block of type t. */
  type Cell = Option<PieceType>
  type Row = seq<Cell>
  /** Row 0 is the top row. */
  type Board = seq<Row>
  /** A piece matrix; a non-zero entry is a filled cell. */
  type Shape = seq<seq<int>>

  datatype Position = Position(x: int, y: int)

  datatype Piece = Piece(kind: PieceType, shape: Shape, position: Position)

  /** The rotation-0 matrix of each piece type. */
  function ShapeOf(t: PieceType): Shape
  {
    match t
    case I => [[1, 1, 1, 1]]
    case O => [[1, 1], [1, 1]]
    case T => [[0, 1, 0], [1, 1, 1]]
    case S => [[0, 1, 1], [1, 1, 0]]
    case Z => [[1, 1, 0], [0, 1, 1]]
    case J => [[1, 0, 0], [1, 1, 1]]
    case L => [[0, 0, 1], [1, 1, 1]]
  }

  // ================================================================ board

  predicate IsBoard(b: Board)
  {
    |b| == BoardHeight && forall r :: 0 <= r < |b| ==> |b[r]| == BoardWidth
  }

  function EmptyRow(): Row
  {
    seq(BoardWidth, _ => None)
  }

  function EmptyRows(n: nat): (rows: seq<Row>)
    ensures |rows| == n
    ensures forall i :: 0 <= i < n ==> |rows[i]| == BoardWidth
    ensures forall i, c :: 0 <= i < n && 0 <= c < BoardWidth ==> rows[i][c] == None
  {
    seq(n, _ => EmptyRow())
  }

  function CreateEmptyBoard(): (b: Board)
    ensures IsBoard(b)
    ensures forall r, c :: 0 <= r < BoardHeight && 0 <= c < BoardWidth ==> b[r][c] == None
    ensures NoFullRows(b)
  {
    var b := EmptyRows(BoardHeight);
    assert forall r :: 0 <= r < |b| ==> b[r][0] == None;
    b
  }

  /** Two boards with the same cells are the same board. */
  lemma BoardsEqual(a: Board, b: Board)
    requires IsBoard(a) && IsBoard(b)
    requires forall r, c :: 0 <= r < BoardHeight && 0 <= c < BoardWidth ==> a[r][c] == b[r][c]
    ensures a == b
  {
    forall r | 0 <= r < BoardHeight ensures a[r] == b[r] {
      assert forall c :: 0 <= c < BoardWidth ==> a[r][c] == b[r][c];
    }
  }

  // =============================================================== shapes

  predicate IsMatrix(m: Shape)
  {
    |m| >= 1 && |m[0]| >= 1 && forall r :: 0 <= r < |m| ==> |m[r]| == |m[0]|
  }

  predicate HasFilled(m: Shape)
  {
    exists r, c | 0 <= r < |m| && 0 <= c < |m[r]| :: m[r][c] != 0
  }

  /** The shapes a piece can take: a rectangular matrix of at most 4 x 4
      with a filled cell. Every entry of ShapeOf is one, and rotation keeps
      the property. */
  predicate WellShaped(m: Shape)
  {
    IsMatrix(m) && |m| <= 4 && |m[0]| <= 4 && HasFilled(m)
  }

  lemma ShapeOfWellShaped(t: PieceType)
    ensures WellShaped(ShapeOf(t))
  {
    var m := ShapeOf(t);
    assert m[1 % |m|][1] != 0;
  }

  // ============================================================ collision

  /** Whether the absolute cell (x, y) is unavailable to a piece: outside
      the walls, below the floor, or an occupied visible cell. Rows above
      the board (y < 0) are only checked against the walls. */
  predicate Blocked(board: Board, x: int, y: int)
    requires IsBoard(board)
  {
    x < 0 || x >= BoardWidth || y >= BoardHeight || (y >= 0 && board[y][x].Some?)
  }

  /** checkCollision(board, piece, {x: dx, y: dy}): some filled cell of the
      shape, moved by the piece position and the offset, is blocked. */
  predicate Collides(board: Board, p: Piece, dx: int, dy: int)
    requires IsBoard(board)
    ensures Collides(board, p, dx, dy) ==> HasFilled(p.shape)
  {
    exists y, x | 0 <= y < |p.shape| && 0 <= x < |p.shape[y]| ::
      p.shape[y][x] != 0 && Blocked(board, p.position.x + x + dx, p.position.y + y + dy)
  }

  /** The nested-loop scan with early return of checkCollision. */
  method CheckCollision(board: Board, p: Piece, dx: int, dy: int) returns (hit: bool)
    requires IsBoard(board)
    ensures hit == Collides(board, p, dx, dy)
  {
    for y := 0 to |p.shape|
      invariant forall yy, xx :: 0 <= yy < y && 0 <= xx < |p.shape[yy]| ==>
        !(p.shape[yy][xx] != 0 && Blocked(board, p.position.x + xx + dx, p.position.y + yy + dy))
    {
      for x := 0 to |p.shape[y]|
        invariant forall yy, xx :: 0 <= yy < y && 0 <= xx < |p.shape[yy]| ==>
          !(p.shape[yy][xx] != 0 && Blocked(board, p.position.x + xx + dx, p.position.y + yy + dy))
        invariant forall xx :: 0 <= xx < x ==>
          !(p.shape[y][xx] != 0 && Blocked(board, p.position.x + xx + dx, p.position.y + y + dy))
      {
        if p.shape[y][x] != 0 {
          var newX := p.position.x + x + dx;
          var newY := p.position.y + y + dy;
          if newX < 0 || newX >= BoardWidth || newY >= BoardHeight {
            assert Blocked(board, newX, newY);
            return true;
          }
          if newY >= 0 && board[newY][newX].Some? {
            assert Blocked(board, newX, newY);
            return true;
          }
        }
      }
    }
    return false;
  }

  function Shifted(p: Piece, dx: int, dy: int): Piece
  {
    p.(position := Position(p.position.x + dx, p.position.y + dy))
  }

  /** Testing a piece at an offset is testing the moved piece in place. */
  lemma CollidesShifted(board: Board, p: Piece, dx: int, dy: int)
    requires IsBoard(board)
    ensures Collides(board, Shifted(p, dx, dy), 0, 0) == Collides(board, p, dx, dy)
  {
    var q := Shifted(p, dx, dy);
    forall y, x | 0 <= y < |p.shape| && 0 <= x < |p.shape[y]|
      ensures (p.shape[y][x] != 0 && Blocked(board, q.position.x + x + 0, q.position.y + y + 0)) ==
              (p.shape[y][x] != 0 && Blocked(board, p.position.x + x + dx, p.position.y + y + dy))
    {
      assert q.position.x + x + 0 == p.position.x + x + dx;
      assert q.position.y + y + 0 == p.position.y + y + dy;
    }
  }

  /** A shape with a filled cell collides once it is moved to or below the floor. */
  lemma FloorBlocks(board: Board, p: Piece, dy: int)
    requires IsBoard(board) && HasFilled(p.shape)
    ensures p.position.y + dy >= BoardHeight ==> Collides(board, p, 0, dy)
  {
    var r, c :| 0 <= r < |p.shape| && 0 <= c < |p.shape[r]| && p.shape[r][c] != 0;
    if p.position.y + dy >= BoardHeight {
      assert Blocked(board, p.position.x + c + 0, p.position.y + r + dy);
    }
  }

  /** A piece that fits has its anchor row above the floor. */
  lemma FitsAboveFloor(board: Board, p: Piece)
    requires IsBoard(board) && HasFilled(p.shape) && !Collides(board, p, 0, 0)
    ensures p.position.y < BoardHeight
  {
    FloorBlocks(board, p, 0);
  }

  // =============================================================== merge

  /** Whether the board cell (row, col) lies under a filled cell of the piece. */
  predicate Covers(p: Piece, row: int, col: int)
  {
    var y := row - p.position.y;
    var x := col - p.position.x;
    0 <= y < |p.shape| && 0 <= x < |p.shape[y]| && p.shape[y][x] != 0
  }

  /** The board with the piece's type written into every board cell the
      piece covers; all other cells as on `board`. Targets outside the grid
      have no cell and are dropped. */
  function Overlay(board: Board, p: Piece): (r: Board)
    requires IsBoard(board)
    ensures IsBoard(r)
  {
    seq(BoardHeight, row requires 0 <= row < BoardHeight =>
      seq(BoardWidth, col requires 0 <= col < BoardWidth =>
        if Covers(p, row, col) then Some(p.kind) else board[row][col]))
  }

  /** Covered by one of the cells the merge loops have visited before (y, x). */
  predicate CoveredBefore(p: Piece, row: int, col: int, y: int, x: int)
  {
    var yy := row - p.position.y;
    var xx := col - p.position.x;
    0 <= yy < |p.shape| && 0 <= xx < |p.shape[yy]| && p.shape[yy][xx] != 0 &&
    (yy < y || (yy == y && xx < x))
  }

  /** mergePieceToBoard: a copy of the board with the piece written into
      its filled cells in visible rows. The source indexes the copy without
      bounds checks, so the piece must fit; every caller passes a piece
      that does. The input is a value and is left as it was. */
  method MergePieceToBoard(board: Board, p: Piece) returns (merged: Board)
    requires IsBoard(board)
    requires !Collides(board, p, 0, 0)
    ensures merged == Overlay(board, p)
  {
    merged := board;
    for y := 0 to |p.shape|
      invariant IsBoard(merged)
      invariant forall row, col :: 0 <= row < BoardHeight && 0 <= col < BoardWidth ==>
        merged[row][col] == if CoveredBefore(p, row, col, y, 0) then Some(p.kind) else board[row][col]
    {
      for x := 0 to |p.shape[y]|
        invariant IsBoard(merged)
        invariant forall row, col :: 0 <= row < BoardHeight && 0 <= col < BoardWidth ==>
          merged[row][col] == if CoveredBefore(p, row, col, y, x) then Some(p.kind) else board[row][col]
      {
        if p.shape[y][x] != 0 && p.position.y + y >= 0 {
          var ty, tx := p.position.y + y, p.position.x + x;
          assert !Blocked(board, p.position.x + x + 0, p.position.y + y + 0);
          merged := merged[ty := merged[ty][tx := Some(p.kind)]];
        }
      }
    }
    BoardsEqual(merged, Overlay(board, p));
  }

  /** A piece that has just been merged cannot be placed where it was: its
      cells are occupied now (for a piece with a filled cell in a visible row). */
  lemma MergedCollides(board: Board, p: Piece)
    requires IsBoard(board) && !Collides(board, p, 0, 0)
    requires exists y, x | 0 <= y < |p.shape| && 0 <= x < |p.shape[y]| :: p.shape[y][x] != 0 && p.position.y + y >= 0
    ensures Collides(Overlay(board, p), p, 0, 0)
  {
    var y, x :| 0 <= y < |p.shape| && 0 <= x < |p.shape[y]| && p.shape[y][x] != 0 && p.position.y + y >= 0;
    var row, col := p.position.y + y, p.position.x + x;
    assert !Blocked(board, p.position.x + x + 0, p.position.y + y + 0);
    assert Covers(p, row, col);
    assert Blocked(Overlay(board, p), p.position.x + x + 0, p.position.y + y + 0);
  }

  // =========================================================== rotation

  function RotatedRows(m: Shape, cols: nat): Shape
    requires forall r :: 0 <= r < |m| ==> |m[r]| == cols
  {
    seq(cols, c requires 0 <= c < cols => seq(|m|, j requires 0 <= j < |m| => m[|m| - 1 - j][c]))
  }

  /** The matrix turned a quarter clockwise: an r x c matrix becomes c x r
      (RotatedCell says where each entry goes). */
  function Rotated(m: Shape): (rot: Shape)
    requires IsMatrix(m)
    ensures IsMatrix(rot) && |rot| == |m[0]| && |rot[0]| == |m|
  {
    RotatedRows(m, |m[0]|)
  }

  /** Entry (i, c) of the matrix lands at (c, rows - 1 - i). */
  lemma RotatedCell(m: Shape, i: int, c: int)
    requires IsMatrix(m) && 0 <= i < |m| && 0 <= c < |m[0]|
    ensures Rotated(m)[c][|m| - 1 - i] == m[i][c]
  {
  }

  /** rotateMatrix: fill a c x r matrix of zeros cell by cell. */
  method RotateMatrix(m: Shape) returns (rotated: Shape)
    requires IsMatrix(m)
    ensures rotated == Rotated(m)
  {
    var rows := |m|;
    var cols := |m[0]|;
    rotated := seq(cols, _ => seq(rows, _ => 0));
    for r := 0 to rows
      invariant |rotated| == cols && forall c :: 0 <= c < cols ==> |rotated[c]| == rows
      invariant forall c, j :: 0 <= c < cols && 0 <= j < rows ==>
        rotated[c][j] == if rows - 1 - j < r then m[rows - 1 - j][c] else 0
    {
      for c := 0 to cols
        invariant |rotated| == cols && forall c' :: 0 <= c' < cols ==> |rotated[c']| == rows
        invariant forall c', j :: 0 <= c' < cols && 0 <= j < rows ==>
          rotated[c'][j] == if rows - 1 - j < r || (rows - 1 - j == r && c' < c) then m[rows - 1 - j][c'] else 0
      {
        rotated := rotated[c := rotated[c][rows - 1 - r := m[r][c]]];
      }
    }
    forall c | 0 <= c < cols ensures rotated[c] == Rotated(m)[c] {
      assert forall j :: 0 <= j < rows ==> rotated[c][j] == Rotated(m)[c][j];
    }
  }

  /** The number of filled cells of a row and of a matrix. */
  function RowCount(row: seq<int>): nat
  {
    if |row| == 0 then 0 else (if row[0] != 0 then 1 else 0) + RowCount(row[1..])
  }

  function FilledCount(m: Shape): nat
  {
    if |m| == 0 then 0 else RowCount(m[0]) + FilledCount(m[1..])
  }

  lemma {:induction false} FilledCountSnoc(m: Shape, row: seq<int>)
    ensures FilledCount(m + [row]) == FilledCount(m) + RowCount(row)
  {
    if |m| > 0 {
      assert (m + [row])[1..] == m[1..] + [row];
      FilledCountSnoc(m[1..], row);
    }
  }

  lemma {:induction false} FilledCountColumns(a: seq<int>, b: Shape)
    requires |a| == |b|
    ensures FilledCount(seq(|a|, c requires 0 <= c < |a| => [a[c]] + b[c])) == RowCount(a) + FilledCount(b)
  {
    var m := seq(|a|, c requires 0 <= c < |a| => [a[c]] + b[c]);
    if |a| > 0 {
      var m' := seq(|a[1..]|, c requires 0 <= c < |a[1..]| => [a[1..][c]] + b[1..][c]);
      assert m[1..] == m';
      assert m[0] == [a[0]] + b[0];
      assert m[0][1..] == b[0];
      FilledCountColumns(a[1..], b[1..]);
    }
  }

  function NoCells(n: nat): Shape
  {
    seq(n, _ => [])
  }

  lemma {:induction false} FilledCountNoCells(n: nat)
    ensures FilledCount(NoCells(n)) == 0
  {
    if n > 0 {
      assert NoCells(n)[1..] == NoCells(n - 1);
      FilledCountNoCells(n - 1);
    }
  }

  lemma {:induction false} RotatedRowsCount(m: Shape, cols: nat)
    requires forall r :: 0 <= r < |m| ==> |m[r]| == cols
    ensures FilledCount(RotatedRows(m, cols)) == FilledCount(m)
    decreases |m|
  {
    if |m| == 0 {
      assert RotatedRows(m, cols) == NoCells(cols);
      FilledCountNoCells(cols);
    } else {
      var last := m[|m| - 1];
      var init := m[..|m| - 1];
      var rest := RotatedRows(init, cols);
      assert RotatedRows(m, cols) == seq(|last|, c requires 0 <= c < |last| => [last[c]] + rest[c]) by {
        forall c | 0 <= c < cols
          ensures RotatedRows(m, cols)[c] == [last[c]] + rest[c]
        {
          assert forall j :: 0 < j < |m| ==> RotatedRows(m, cols)[c][j] == ([last[c]] + rest[c])[j];
        }
      }
      FilledCountColumns(last, rest);
      RotatedRowsCount(init, cols);
      assert m == init + [last];
      FilledCountSnoc(init, last);
    }
  }

  /** Rotation neither adds nor removes filled cells. */
  lemma RotatedKeepsCount(m: Shape)
    requires IsMatrix(m)
    ensures FilledCount(Rotated(m)) == FilledCount(m)
  {
    RotatedRowsCount(m, |m[0]|);
  }

  /** Two rotations turn the matrix upside down and mirror it. */
  lemma RotatedTwice(m: Shape)
    requires IsMatrix(m)
    ensures IsMatrix(Rotated(m))
    ensures |Rotated(Rotated(m))| == |m| && |Rotated(Rotated(m))[0]| == |m[0]|
    ensures forall i, k :: 0 <= i < |m| && 0 <= k < |m[0]| ==>
      Rotated(Rotated(m))[i][k] == m[|m| - 1 - i][|m[0]| - 1 - k]
  {
    var r1 := Rotated(m);
    var r2 := Rotated(r1);
    forall i, k | 0 <= i < |m| && 0 <= k < |m[0]|
      ensures r2[i][k] == m[|m| - 1 - i][|m[0]| - 1 - k]
    {
      RotatedCell(m, |m| - 1 - i, |m[0]| - 1 - k);
      RotatedCell(r1, |m[0]| - 1 - k, i);
    }
  }

  /** Four rotations give back the original matrix. */
  lemma RotatedFourTimes(m: Shape)
    requires IsMatrix(m)
    ensures IsMatrix(Rotated(Rotated(m))) && Rotated(Rotated(Rotated(Rotated(m)))) == m
  {
    RotatedTwice(m);
    var h := Rotated(Rotated(m));
    RotatedTwice(h);
    var h2 := Rotated(Rotated(h));
    forall i | 0 <= i < |m| ensures h2[i] == m[i] {
      forall k | 0 <= k < |m[0]| ensures h2[i][k] == m[i][k] {
        var i2, k2 := |m| - 1 - i, |m[0]| - 1 - k;
        assert h2[i][k] == h[i2][k2];
        assert h[i2][k2] == m[|m| - 1 - i2][|m[0]| - 1 - k2];
      }
    }
  }

  /** The shape of a rotated piece is still a piece shape. */
  lemma RotatedWellShaped(m: Shape)
    requires WellShaped(m)
    ensures WellShaped(Rotated(m))
  {
    var r, c :| 0 <= r < |m| && 0 <= c < |m[r]| && m[r][c] != 0;
    RotatedCell(m, r, c);
  }

  // ========================================================= line clear

  /** `row.some(cell => cell === null)` is false: no empty cell. */
  predicate IsFull(row: Row)
  {
    forall c :: 0 <= c < |row| ==> row[c].Some?
  }

  predicate NoFullRows(b: Board)
  {
    forall r :: 0 <= r < |b| ==> !IsFull(b[r])
  }

  function CountFull(b: Board): nat
  {
    if |b| == 0 then 0 else (if IsFull(b[0]) then 1 else 0) + CountFull(b[1..])
  }

  /** board.filter(row => row.some(cell => cell === null)): the rows that
      are not full, in their original order. */
  function Kept(b: Board): (k: Board)
    ensures |k| + CountFull(b) == |b|
    ensures NoFullRows(k)
    ensures forall i :: 0 <= i < |k| ==> k[i] in b
  {
    if |b| == 0 then []
    else (if IsFull(b[0]) then [] else [b[0]]) + Kept(b[1..])
  }

  /** The kept rows padded at the top with empty rows back to full height. */
  function ClearedBoard(b: Board): (r: Board)
    requires IsBoard(b)
    ensures |r| == BoardHeight == |Kept(b)| + CountFull(b)
    ensures forall i :: 0 <= i < CountFull(b) ==> r[i] == EmptyRow()
    ensures r[CountFull(b)..] == Kept(b)
  {
    EmptyRows(BoardHeight - |Kept(b)|) + Kept(b)
  }

  /** clearLines: filter, then unshift empty rows until the board is 20 rows high. */
  method ClearLines(board: Board) returns (newBoard: Board, linesCleared: nat)
    requires IsBoard(board)
    ensures newBoard == ClearedBoard(board)
    ensures linesCleared == CountFull(board)
  {
    newBoard := Kept(board);
    linesCleared := BoardHeight - |newBoard|;
    while |newBoard| < BoardHeight
      invariant |Kept(board)| <= |newBoard| <= BoardHeight
      invariant newBoard == EmptyRows(|newBoard| - |Kept(board)|) + Kept(board)
      decreases BoardHeight - |newBoard|
    {
      assert [EmptyRow()] + EmptyRows(|newBoard| - |Kept(board)|) == EmptyRows(|newBoard| + 1 - |Kept(board)|);
      newBoard := [EmptyRow()] + newBoard;
    }
  }

  /** What clearing leaves: a 20 x 10 board with no full row, as many empty
      rows at the top as there were full rows, and below them the rows that
      were not full, in order. */
  lemma ClearedBoardSpec(b: Board)
    requires IsBoard(b)
    ensures IsBoard(ClearedBoard(b))
    ensures NoFullRows(ClearedBoard(b))
    ensures CountFull(b) == BoardHeight - |Kept(b)|
    ensures forall r :: 0 <= r < CountFull(b) ==> ClearedBoard(b)[r] == EmptyRow()
    ensures ClearedBoard(b)[CountFull(b)..] == Kept(b)
  {
    var k := Kept(b);
    var cb := ClearedBoard(b);
    forall i | 0 <= i < |k| ensures |k[i]| == BoardWidth {
      var j :| 0 <= j < |b| && b[j] == k[i];
    }
    forall r | 0 <= r < |cb| ensures !IsFull(cb[r]) {
      if r < BoardHeight - |k| {
        assert cb[r] == EmptyRow();
        assert cb[r][0] == None;
      } else {
        assert cb[r] == k[r - (BoardHeight - |k|)];
      }
    }
  }

  /** Filtering distributes over concatenation: rows keep their relative order. */
  lemma {:induction false} KeptAppend(a: Board, b: Board)
    ensures Kept(a + b) == Kept(a) + Kept(b)
  {
    if |a| > 0 {
      assert (a + b)[1..] == a[1..] + b;
      KeptAppend(a[1..], b);
    } else {
      assert a + b == b;
    }
  }

  /** A board without full rows is kept as it is. */
  lemma {:induction false} KeptNoFull(b: Board)
    requires NoFullRows(b)
    ensures Kept(b) == b
  {
    if |b| > 0 {
      KeptNoFull(b[1..]);
    }
  }

  /** Full rows can only be where the rows in [lo, hi) are: no more than
      that window holds. */
  lemma {:induction false} CountFullWithin(b: Board, lo: int, hi: int)
    requires forall r :: 0 <= r < |b| && !(lo <= r < hi) ==> !IsFull(b[r])
    ensures CountFull(b) <= if hi - (if lo > 0 then lo else 0) > 0 then hi - (if lo > 0 then lo else 0) else 0
  {
    if |b| > 0 {
      CountFullWithin(b[1..], lo - 1, hi - 1);
    }
  }

  /** A lock clears at most 4 lines: only the rows under the piece (at most
      4) can have become full. */
  function LinesClearedBy(board: Board, p: Piece): (n: nat)
    requires IsBoard(board) && NoFullRows(board) && |p.shape| <= 4
    ensures n == CountFull(Overlay(board, p))
    ensures n <= 4
  {
    var merged := Overlay(board, p);
    assert forall r :: 0 <= r < |merged| && !(p.position.y <= r < p.position.y + |p.shape|) ==> merged[r] == board[r];
    CountFullWithin(merged, p.position.y, p.position.y + |p.shape|);
    CountFull(merged)
  }

  // ============================================================== score

  /** calculateScore: points[lines] * (level + 1), with points [0, 40, 100, 300, 1200]. */
  function CalculateScore(lines: nat, level: nat): (points: nat)
    requires lines <= 4
    ensures lines == 0 <==> points == 0
    ensures points >= [0, 40, 100, 300, 1200][lines]
  {
    [0, 40, 100, 300, 1200][lines] * (level + 1)
  }

  /** More lines at the same level earn strictly more. */
  lemma ScoreIncreasesWithLines(a: nat, b: nat, level: nat)
    requires a < b <= 4
    ensures CalculateScore(a, level) < CalculateScore(b, level)
  {
    var pa, pb := [0, 40, 100, 300, 1200][a], [0, 40, 100, 300, 1200][b];
    assert pa < pb;
    assert pa * (level + 1) < pb * (level + 1) by {
      assert (pb - pa) * (level + 1) > 0;
    }
  }

  /** The auto-drop period in milliseconds: max(100, 1000 - 100 * level). */
  function DropInterval(level: nat): (ms: nat)
    ensures 100 <= ms <= 1000
    ensures level <= 9 ==> ms == 1000 - 100 * level
    ensures level >= 9 ==> ms == 100
  {
    if 1000 - level * 100 > 100 then 1000 - level * 100 else 100
  }

  lemma DropIntervalNonIncreasing(a: nat, b: nat)
    requires a <= b
    ensures DropInterval(b) <= DropInterval(a)
  {
  }

  // ========================================================= game state

  /** The spawn rule of getRandomPiece for a chosen type: centred by the
      width of the first row, top row 0. */
  function Spawn(t: PieceType): (p: Piece)
    ensures p.kind == t && p.shape == ShapeOf(t) && p.position.y == 0
  {
    Piece(t, ShapeOf(t), Position((BoardWidth - |ShapeOf(t)[0]|) / 2, 0))
  }

  /** A spawned piece is centred: the free columns to its right are as
      many as to its left, or one more. */
  lemma SpawnCentred(t: PieceType)
    ensures var p := Spawn(t);
      var right := BoardWidth - p.position.x - |p.shape[0]|;
      0 <= p.position.x <= right <= p.position.x + 1
  {
  }

  /** Every piece spawns inside the walls, so it fits on an empty board. */
  lemma SpawnFitsEmptyBoard(t: PieceType)
    ensures WellShaped(Spawn(t).shape)
    ensures !Collides(CreateEmptyBoard(), Spawn(t), 0, 0)
    ensures Spawn(t).position == Position(if t == O then 4 else 3, 0)
  {
    ShapeOfWellShaped(t);
  }

  datatype GameState = GameState(
    board: Board,
    currentPiece: Option<Piece>,
    nextPiece: Piece,
    score: nat,
    level: nat,
    lines: nat,
    isPlaying: bool,
    isGameOver: bool,
    isPaused: bool)

  predicate PieceFits(board: Board, p: Piece)
    requires IsBoard(board)
  {
    WellShaped(p.shape) && !Collides(board, p, 0, 0)
  }

  /** What the hook keeps true of every state it produces: a 20 x 10 board
      without full rows, an active piece that fits exactly while playing,
      a spawn-position next piece, game over only when not playing, and
      the level derived from the line count. */
  predicate Inv(s: GameState)
  {
    && IsBoard(s.board)
    && NoFullRows(s.board)
    && (s.currentPiece.Some? ==> PieceFits(s.board, s.currentPiece.value))
    && s.nextPiece == Spawn(s.nextPiece.kind)
    && (s.isPlaying <==> s.currentPiece.Some?)
    && (s.isGameOver ==> !s.isPlaying)
    && s.level == s.lines / 10
  }

  /** The state before the first startGame (the useState initialiser). */
  function InitialState(next: PieceType): (s: GameState)
    ensures Inv(s) && !s.isPlaying && !s.isGameOver && !s.isPaused
    ensures s.board == CreateEmptyBoard() && s.currentPiece.None? && s.nextPiece == Spawn(next)
    ensures s.score == 0 && s.level == 0 && s.lines == 0
  {
    GameState(CreateEmptyBoard(), None, Spawn(next), 0, 0, 0, false, false, false)
  }

  function StartGame(first: PieceType, next: PieceType): (s: GameState)
    ensures Inv(s) && s.isPlaying && !s.isPaused && !s.isGameOver
    ensures s.score == 0 && s.level == 0 && s.lines == 0 && s.board == CreateEmptyBoard()
    ensures s.currentPiece == Some(Spawn(first)) && s.nextPiece == Spawn(next)
  {
    SpawnFitsEmptyBoard(first);
    GameState(CreateEmptyBoard(), Some(Spawn(first)), Spawn(next), 0, 0, 0, true, false, false)
  }

  /** A started game is the initial state of its next piece with the
      first piece active and playing: nothing of an earlier game survives. */
  lemma StartGameIsFreshState(first: PieceType, next: PieceType)
    ensures StartGame(first, next) == InitialState(next).(currentPiece := Some(Spawn(first)), isPlaying := true)
  {
  }

  /** Flips isPaused whatever the other flags are; nothing else changes. */
  function TogglePause(s: GameState): (r: GameState)
    requires Inv(s)
    ensures Inv(r)
    ensures r.isPaused != s.isPaused && r.(isPaused := s.isPaused) == s
  {
    s.(isPaused := !s.isPaused)
  }

  /** The guard every move command starts with. */
  predicate CanAct(s: GameState)
  {
    s.currentPiece.Some? && !s.isPaused && s.isPlaying
  }

  /** The shared body of moveLeft (dx = -1) and moveRight (dx = 1). */
  function Shift(s: GameState, dx: int): (r: GameState)
    requires Inv(s) && (dx == -1 || dx == 1)
    ensures Inv(r)
    ensures r == s.(currentPiece := r.currentPiece)
    ensures r != s <==> CanAct(s) && !Collides(s.board, s.currentPiece.value, dx, 0)
    ensures r != s ==> r.currentPiece == Some(Shifted(s.currentPiece.value, dx, 0))
  {
    if !CanAct(s) then s
    else
      var p := s.currentPiece.value;
      if !Collides(s.board, p, dx, 0) then
        CollidesShifted(s.board, p, dx, 0);
        assert Shifted(p, dx, 0) != p;
        s.(currentPiece := Some(Shifted(p, dx, 0)))
      else s
  }

  function MoveLeft(s: GameState): (r: GameState)
    requires Inv(s)
    ensures Inv(r)
    ensures r == s.(currentPiece := r.currentPiece)
    ensures r != s <==> CanAct(s) && !Collides(s.board, s.currentPiece.value, -1, 0)
    ensures r != s ==> r.currentPiece.value.position.x == s.currentPiece.value.position.x - 1
    ensures r != s ==> r.currentPiece == Some(Shifted(s.currentPiece.value, -1, 0))
  {
    Shift(s, -1)
  }

  function MoveRight(s: GameState): (r: GameState)
    requires Inv(s)
    ensures Inv(r)
    ensures r == s.(currentPiece := r.currentPiece)
    ensures r != s <==> CanAct(s) && !Collides(s.board, s.currentPiece.value, 1, 0)
    ensures r != s ==> r.currentPiece.value.position.x == s.currentPiece.value.position.x + 1
    ensures r != s ==> r.currentPiece == Some(Shifted(s.currentPiece.value, 1, 0))
  {
    Shift(s, 1)
  }

  /** rotate: the rotated matrix at the same position, kept only if it
      fits; no wall kicks are tried. */
  function Rotate(s: GameState): (r: GameState)
    requires Inv(s)
    ensures Inv(r)
    ensures r == s.(currentPiece := r.currentPiece)
    ensures r != s ==>
      CanAct(s) && r.currentPiece == Some(s.currentPiece.value.(shape := Rotated(s.currentPiece.value.shape)))
    ensures CanAct(s) && !Collides(s.board, s.currentPiece.value.(shape := Rotated(s.currentPiece.value.shape)), 0, 0)
      ==> r.currentPiece == Some(s.currentPiece.value.(shape := Rotated(s.currentPiece.value.shape)))
  {
    if !CanAct(s) then s
    else
      var p := s.currentPiece.value;
      RotatedWellShaped(p.shape);
      var rotated := p.(shape := Rotated(p.shape));
      if !Collides(s.board, rotated, 0, 0) then s.(currentPiece := Some(rotated)) else s
  }

  /** Lock a landed piece: merge, clear, score, and either spawn the next
      piece or end the game when it does not fit on the cleared board. */
  function Lock(s: GameState, landed: Piece, bonus: nat, drawn: PieceType): (r: GameState)
    requires Inv(s) && s.currentPiece.Some? && PieceFits(s.board, landed)
    ensures Inv(r)
    ensures r.board == ClearedBoard(Overlay(s.board, landed))
    ensures r.score == s.score + CalculateScore(LinesClearedBy(s.board, landed), s.level) + bonus
    ensures r.lines == s.lines + LinesClearedBy(s.board, landed) && r.level == r.lines / 10
    ensures r.isGameOver <==> Collides(r.board, s.nextPiece, 0, 0)
    ensures r.isGameOver ==> !r.isPlaying && r.currentPiece.None? && r.nextPiece == s.nextPiece
    ensures !r.isGameOver ==> r.isPlaying && r.currentPiece == Some(s.nextPiece) && r.nextPiece == Spawn(drawn)
    ensures r.isPaused == s.isPaused
  {
    var merged := Overlay(s.board, landed);
    var linesCleared := LinesClearedBy(s.board, landed);
    var cleared := ClearedBoard(merged);
    ClearedBoardSpec(merged);
    ShapeOfWellShaped(s.nextPiece.kind);
    var newScore := s.score + CalculateScore(linesCleared, s.level) + bonus;
    var newLines := s.lines + linesCleared;
    if Collides(cleared, s.nextPiece, 0, 0) then
      s.(board := cleared, currentPiece := None, score := newScore, lines := newLines,
         level := newLines / 10, isPlaying := false, isGameOver := true)
    else
      s.(board := cleared, currentPiece := Some(s.nextPiece), nextPiece := Spawn(drawn),
         score := newScore, lines := newLines, level := newLines / 10)
  }

  /** moveDown: one row down if that fits, otherwise lock the piece where
      it is (no drop bonus). */
  function MoveDown(s: GameState, drawn: PieceType): (r: GameState)
    requires Inv(s)
    ensures Inv(r)
    ensures !CanAct(s) ==> r == s
    ensures CanAct(s) && !Collides(s.board, s.currentPiece.value, 0, 1) ==>
      r == s.(currentPiece := Some(Shifted(s.currentPiece.value, 0, 1)))
    ensures CanAct(s) && Collides(s.board, s.currentPiece.value, 0, 1) ==>
      r == Lock(s, s.currentPiece.value, 0, drawn)
  {
    if !CanAct(s) then s
    else
      var p := s.currentPiece.value;
      if !Collides(s.board, p, 0, 1) then
        CollidesShifted(s.board, p, 0, 1);
        s.(currentPiece := Some(Shifted(p, 0, 1)))
      else Lock(s, p, 0, drawn)
  }

  /** The hard-drop distance counted from `d`: the largest r >= d such that
      the offsets d + 1 .. r are all free. */
  function DropDistFrom(board: Board, p: Piece, d: nat): (r: nat)
    requires IsBoard(board) && HasFilled(p.shape)
    requires p.position.y + d < BoardHeight
    ensures r >= d
    ensures forall k :: d < k <= r ==> !Collides(board, p, 0, k)
    ensures Collides(board, p, 0, r + 1)
    decreases BoardHeight - p.position.y - d
  {
    FloorBlocks(board, p, d + 1);
    if Collides(board, p, 0, d + 1) then d
    else DropDistFrom(board, p, d + 1)
  }

  /** dropDistance of hardDrop. */
  function DropDist(board: Board, p: Piece): (d: nat)
    requires IsBoard(board) && PieceFits(board, p)
    ensures forall k :: 0 <= k <= d ==> !Collides(board, p, 0, k)
    ensures Collides(board, p, 0, d + 1)
  {
    FitsAboveFloor(board, p);
    DropDistFrom(board, p, 0)
  }

  /** Only one distance has all offsets up to it free and the next one blocked. */
  lemma DropDistUnique(board: Board, p: Piece, d: nat)
    requires IsBoard(board) && PieceFits(board, p)
    requires forall k :: 0 < k <= d ==> !Collides(board, p, 0, k)
    requires Collides(board, p, 0, d + 1)
    ensures d == DropDist(board, p)
  {
  }

  /** Where a hard drop puts the piece:
      straight below, still fitting, and unable to move one row further. */
  function Landing(board: Board, p: Piece): (q: Piece)
    requires IsBoard(board) && PieceFits(board, p)
    ensures PieceFits(board, q) && Collides(board, q, 0, 1)
    ensures q == Shifted(p, 0, DropDist(board, p))
  {
    var d := DropDist(board, p);
    CollidesShifted(board, p, 0, d);
    CollidesShifted(board, Shifted(p, 0, d), 0, 1);
    assert Shifted(Shifted(p, 0, d), 0, 1) == Shifted(p, 0, d + 1);
    CollidesShifted(board, p, 0, d + 1);
    Shifted(p, 0, d)
  }

  /** hardDrop as a state function: drop by DropDist, lock, and add
      2 points per row dropped. */
  function HardDropped(s: GameState, drawn: PieceType): (r: GameState)
    requires Inv(s)
    ensures Inv(r)
    ensures !CanAct(s) ==> r == s
    ensures CanAct(s) ==>
      r == Lock(s, Landing(s.board, s.currentPiece.value), 2 * DropDist(s.board, s.currentPiece.value), drawn)
  {
    if !CanAct(s) then s
    else
      var p := s.currentPiece.value;
      Lock(s, Landing(s.board, p), 2 * DropDist(s.board, p), drawn)
  }

  /** The dropDistance loop of hardDrop: probe one more row until it collides. */
  method DropDistance(board: Board, p: Piece) returns (dropDistance: nat)
    requires IsBoard(board) && PieceFits(board, p)
    ensures dropDistance == DropDist(board, p)
  {
    FitsAboveFloor(board, p);
    dropDistance := 0;
    var blocked := CheckCollision(board, p, 0, dropDistance + 1);
    while !blocked
      invariant p.position.y + dropDistance < BoardHeight
      invariant blocked == Collides(board, p, 0, dropDistance + 1)
      invariant forall k :: 0 < k <= dropDistance ==> !Collides(board, p, 0, k)
      decreases BoardHeight - p.position.y - dropDistance
    {
      FloorBlocks(board, p, dropDistance + 1);
      dropDistance := dropDistance + 1;
      blocked := CheckCollision(board, p, 0, dropDistance + 1);
    }
    DropDistUnique(board, p, dropDistance);
  }

  /** The locking steps both moveDown and hardDrop run, with the board
      helpers: merge, clear lines, score, and the spawn-or-game-over test. */
  method LockPiece(s: GameState, landed: Piece, bonus: nat, drawn: PieceType) returns (r: GameState)
    requires Inv(s) && s.currentPiece.Some? && PieceFits(s.board, landed)
    ensures r == Lock(s, landed, bonus, drawn)
  {
    var newBoard := MergePieceToBoard(s.board, landed);
    var clearedBoard, linesCleared := ClearLines(newBoard);
    assert clearedBoard == Lock(s, landed, bonus, drawn).board;
    assert linesCleared == LinesClearedBy(s.board, landed);
    var newScore := s.score + CalculateScore(linesCleared, s.level) + bonus;
    var newLines := s.lines + linesCleared;
    var newLevel := newLines / 10;
    var gameOver := CheckCollision(clearedBoard, s.nextPiece, 0, 0);
    if gameOver {
      r := s.(board := clearedBoard, currentPiece := None, score := newScore, lines := newLines,
              level := newLevel, isPlaying := false, isGameOver := true);
    } else {
      r := s.(board := clearedBoard, currentPiece := Some(s.nextPiece), nextPiece := Spawn(drawn),
              score := newScore, lines := newLines, level := newLevel);
    }
  }

  /** hardDrop as the hook writes it: the distance loop, then the lock with
      2 points per row dropped. */
  method HardDrop(s: GameState, drawn: PieceType) returns (r: GameState)
    requires Inv(s)
    ensures r == HardDropped(s, drawn)
  {
    if s.currentPiece.None? || s.isPaused || !s.isPlaying {
      return s;
    }
    var p := s.currentPiece.value;
    var dropDistance := DropDistance(s.board, p);
    var dropped := Shifted(p, 0, dropDistance);
    assert dropped == Landing(s.board, p);
    r := LockPiece(s, dropped, dropDistance * 2, drawn);
  }

  /** The auto-drop interval while the game runs; no timer otherwise. */
  function AutoDropInterval(s: GameState): (ms: Option<nat>)
    ensures ms.Some? <==> s.isPlaying && !s.isPaused
    ensures ms.Some? ==> ms.value == DropInterval(s.level)
  {
    if !s.isPlaying || s.isPaused then None else Some(DropInterval(s.level))
  }

  // ==================================================== command sequences

  datatype Command =
    | StartGameCmd(first: PieceType, next: PieceType)
    | TogglePauseCmd
    | MoveLeftCmd
    | MoveRightCmd
    | RotateCmd
    | MoveDownCmd(drawn: PieceType)
    | HardDropCmd(drawn: PieceType)

  function Step(s: GameState, c: Command): (r: GameState)
    requires Inv(s)
    ensures Inv(r)
  {
    match c
    case StartGameCmd(first, next) => StartGame(first, next)
    case TogglePauseCmd => TogglePause(s)
    case MoveLeftCmd => MoveLeft(s)
    case MoveRightCmd => MoveRight(s)
    case RotateCmd => Rotate(s)
    case MoveDownCmd(drawn) => MoveDown(s, drawn)
    case HardDropCmd(drawn) => HardDropped(s, drawn)
  }

  /** The hook's own keydown listener: nothing unless playing; then the
      four arrow keys, space and p / P, compared exactly, become the move,
      drop, rotate, hard-drop and pause commands. */
  function RawKeyCommand(isPlaying: bool, key: string, drawn: PieceType): (c: Option<Command>)
    ensures !isPlaying ==> c.None?
    ensures isPlaying && (key == "p" || key == "P") ==> c == Some(TogglePauseCmd)
    ensures isPlaying && key == " " ==> c == Some(HardDropCmd(drawn))
    ensures isPlaying && key == "ArrowLeft" ==> c == Some(MoveLeftCmd)
    ensures isPlaying && key == "ArrowRight" ==> c == Some(MoveRightCmd)
    ensures isPlaying && key == "ArrowDown" ==> c == Some(MoveDownCmd(drawn))
    ensures isPlaying && key == "ArrowUp" ==> c == Some(RotateCmd)
    ensures c.Some? <==> isPlaying && key in {"ArrowLeft", "ArrowRight", "ArrowDown", "ArrowUp", " ", "p", "P"}
  {
    if !isPlaying then None
    else if key == "ArrowLeft" then Some(MoveLeftCmd)
    else if key == "ArrowRight" then Some(MoveRightCmd)
    else if key == "ArrowDown" then Some(MoveDownCmd(drawn))
    else if key == "ArrowUp" then Some(RotateCmd)
    else if key == " " then Some(HardDropCmd(drawn))
    else if key == "p" || key == "P" then Some(TogglePauseCmd)
    else None
  }

  /** The state after a sequence of commands; the invariant holds throughout. */
  function Run(s: GameState, cs: seq<Command>): (r: GameState)
    requires Inv(s)
    ensures Inv(r)
    decreases |cs|
  {
    if |cs| == 0 then s else Run(Step(s, cs[0]), cs[1..])
  }

  /** From a started game, whatever commands follow, the active piece
      never overlaps the board or leaves it, and the board stays 20 x 10. */
  lemma ActivePieceNeverCollides(first: PieceType, next: PieceType, cs: seq<Command>)
    ensures IsBoard(Run(StartGame(first, next), cs).board)
    ensures Run(StartGame(first, next), cs).currentPiece.Some? ==>
      !Collides(Run(StartGame(first, next), cs).board, Run(StartGame(first, next), cs).currentPiece.value, 0, 0)
  {
  }

  predicate NoRestart(cs: seq<Command>)
  {
    forall i :: 0 <= i < |cs| ==> !cs[i].StartGameCmd?
  }

  /** No command but startGame lowers the score or the line count. */
  lemma StepScoreMonotone(s: GameState, c: Command)
    requires Inv(s) && !c.StartGameCmd?
    ensures Step(s, c).score >= s.score && Step(s, c).lines >= s.lines
  {
    match c
    case TogglePauseCmd =>
    case MoveLeftCmd =>
    case MoveRightCmd =>
    case RotateCmd =>
    case MoveDownCmd(drawn) =>
    case HardDropCmd(drawn) =>
  }

  /** Score and lines never decrease between restarts. */
  lemma {:induction false} ScoreNeverDecreases(s: GameState, cs: seq<Command>)
    requires Inv(s) && NoRestart(cs)
    ensures Run(s, cs).score >= s.score && Run(s, cs).lines >= s.lines
    decreases |cs|
  {
    if |cs| > 0 {
      var t := Step(s, cs[0]);
      StepScoreMonotone(s, cs[0]);
      assert NoRestart(cs[1..]) by {
        forall i | 0 <= i < |cs[1..]| ensures !cs[1..][i].StartGameCmd? {
          assert cs[1..][i] == cs[i + 1];
        }
      }
      ScoreNeverDecreases(t, cs[1..]);
    }
  }

  /** Game over is terminal: until the next startGame nothing but the
      pause flag can change. */
  lemma {:induction false} GameOverIsTerminal(s: GameState, cs: seq<Command>)
    requires Inv(s) && s.isGameOver && NoRestart(cs)
    ensures Run(s, cs).(isPaused := s.isPaused) == s
    decreases |cs|
  {
    if |cs| > 0 {
      var t := Step(s, cs[0]);
      assert t.(isPaused := s.isPaused) == s;
      assert NoRestart(cs[1..]) by {
        forall i | 0 <= i < |cs[1..]| ensures !cs[1..][i].StartGameCmd? {
          assert cs[1..][i] == cs[i + 1];
        }
      }
      GameOverIsTerminal(t, cs[1..]);
      assert Run(s, cs) == Run(t, cs[1..]);
    }
  }
}
