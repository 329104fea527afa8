/** The seven piece kinds, their shape matrices, the 90-degree rotation, the
    collision test and the ghost-drop projection of tetris-pieces.js. */
module Pieces {
  import opened Board

  datatype Kind = I | O | T | S | Z | J | L

  /** The catalog's kinds in declaration order; a spawn picks one of them. */
  const Kinds: seq<Kind> := [I, O, T, S, Z, J, L]

  /** A shape matrix: which cells of the piece's bounding box are occupied. */
  type Shape = seq<seq<bool>>

  function ShapeOf(k: Kind): (s: Shape)
    ensures IsSquare(s)
  {
    match k
    case I => [[false, false, false, false],
               [true,  true,  true,  true ],
               [false, false, false, false],
               [false, false, false, false]]
    case O => [[true, true],
               [true, true]]
    case T => [[false, true,  false],
               [true,  true,  true ],
               [false, false, false]]
    case S => [[false, true,  true ],
               [true,  true,  false],
               [false, false, false]]
    case Z => [[true,  true,  false],
               [false, true,  true ],
               [false, false, false]]
    case J => [[true,  false, false],
               [true,  true,  true ],
               [false, false, false]]
    case L => [[false, false, true ],
               [true,  true,  true ],
               [false, false, false]]
  }

  /** The side of the kind's bounding box. */
  function Size(k: Kind): nat {
    match k
    case I => 4
    case O => 2
    case _ => 3
  }

  function ColorOf(k: Kind): Rgb {
    match k
    case I => 0x00f5ff
    case O => 0xffff00
    case T => 0x800080
    case S => 0x00ff00
    case Z => 0xff0000
    case J => 0x0000ff
    case L => 0xff7f00
  }

  // ---------------------------------------------------------------------
  // Matrices and counting occupied cells

  /** At least one row, and every row as wide as the first. */
  predicate IsMatrix(m: Shape) {
    |m| > 0 && forall r :: 0 <= r < |m| ==> |m[r]| == |m[0]|
  }

  predicate IsSquare(m: Shape) {
    |m| > 0 && forall r :: 0 <= r < |m| ==> |m[r]| == |m|
  }

  function Bit(b: bool): nat {
    if b then 1 else 0
  }

  /** Occupied cells of one row, counted from the right end. */
  function RowCells(row: seq<bool>): nat {
    if row == [] then 0 else RowCells(row[..|row| - 1]) + Bit(row[|row| - 1])
  }

  /** Occupied cells of a matrix, counted from the bottom row. */
  function CellCount(m: Shape): nat {
    if m == [] then 0 else CellCount(m[..|m| - 1]) + RowCells(m[|m| - 1])
  }

  function Column(m: Shape, i: nat): (col: seq<bool>)
    requires forall r :: 0 <= r < |m| ==> i < |m[r]|
  {
    seq(|m|, r requires 0 <= r < |m| => m[r][i])
  }

  function Reversed(s: seq<bool>): seq<bool> {
    seq(|s|, k requires 0 <= k < |s| => s[|s| - 1 - k])
  }

  /** The 90-degree clockwise rotation: row i of the result is column i of
      m read from the bottom up. */
  function Rotate(m: Shape): (r: Shape)
    requires IsMatrix(m)
    ensures |r| == |m[0]|
    ensures forall i :: 0 <= i < |r| ==> |r[i]| == |m|
    ensures forall i, j :: 0 <= i < |r| && 0 <= j < |m| ==> r[i][j] == m[|m| - 1 - j][i]
  {
    seq(|m[0]|, i requires 0 <= i < |m[0]| => Reversed(Column(m, i)))
  }

  /** Rotating a square matrix gives a square matrix of the same size. */
  lemma RotateSquare(m: Shape)
    requires IsSquare(m)
    ensures IsMatrix(m) && IsSquare(Rotate(m)) && |Rotate(m)| == |m|
  {
  }

  /** A half turn reads the matrix backwards in both directions. */
  lemma RotateTwice(m: Shape)
    requires IsMatrix(m) && |m[0]| > 0
    ensures IsMatrix(Rotate(m)) && IsMatrix(Rotate(Rotate(m)))
    ensures |Rotate(Rotate(m))| == |m| && |Rotate(Rotate(m))[0]| == |m[0]|
    ensures forall i, j :: 0 <= i < |m| && 0 <= j < |m[0]| ==>
              Rotate(Rotate(m))[i][j] == m[|m| - 1 - i][|m[0]| - 1 - j]
  {
    var r1 := Rotate(m);
    assert IsMatrix(r1) && |r1[0]| == |m|;
  }

  /** Four quarter turns are the identity. */
  lemma RotateFour(m: Shape)
    requires IsMatrix(m) && |m[0]| > 0
    ensures Rotate(Rotate(Rotate(Rotate(m)))) == m
  {
    var n, w := |m|, |m[0]|;
    RotateTwice(m);
    var r2 := Rotate(Rotate(m));
    RotateTwice(r2);
    var r4 := Rotate(Rotate(r2));
    forall i, j | 0 <= i < n && 0 <= j < w ensures r4[i][j] == m[i][j] {
      assert r4[i][j] == r2[n - 1 - i][w - 1 - j];
    }
    SameMatrix(r4, m);
  }

  /** Two matrices of the same dimensions with the same cells are equal. */
  lemma SameMatrix(a: Shape, b: Shape)
    requires IsMatrix(b) && |a| == |b| && forall i :: 0 <= i < |a| ==> |a[i]| == |b[0]|
    requires forall i, j :: 0 <= i < |b| && 0 <= j < |b[0]| ==> a[i][j] == b[i][j]
    ensures a == b
  {
    forall i | 0 <= i < |a| ensures a[i] == b[i] {
      assert |a[i]| == |b[i]|;
    }
  }

  /** The O piece is unchanged by rotation. */
  lemma RotateFixesO()
    ensures Rotate(ShapeOf(O)) == ShapeOf(O)
  {
    var m := ShapeOf(O);
    var r := Rotate(m);
    assert |r| == 2 && |r[0]| == 2 && |r[1]| == 2;
    assert r[0][0] == m[1][0] && r[0][1] == m[0][0];
    assert r[1][0] == m[1][1] && r[1][1] == m[0][1];
    assert r[0] == m[0] && r[1] == m[1];
  }

  lemma {:induction false} RowCellsCons(b: bool, s: seq<bool>)
    ensures RowCells([b] + s) == Bit(b) + RowCells(s)
  {
    if s != [] {
      var t := [b] + s;
      assert t[..|t| - 1] == [b] + s[..|s| - 1];
      RowCellsCons(b, s[..|s| - 1]);
    }
  }

  lemma {:induction false} RowCellsReversed(s: seq<bool>)
    ensures RowCells(Reversed(s)) == RowCells(s)
  {
    if s != [] {
      var last := |s| - 1;
      assert Reversed(s) == [s[last]] + Reversed(s[..last]);
      RowCellsCons(s[last], Reversed(s[..last]));
      RowCellsReversed(s[..last]);
    }
  }

  /** Occupied cells of the first w columns, column by column. */
  function ColumnCells(m: Shape, w: nat): nat
    requires forall r :: 0 <= r < |m| ==> w <= |m[r]|
  {
    if w == 0 then 0 else ColumnCells(m, w - 1) + RowCells(Column(m, w - 1))
  }

  /** Adding a bottom row adds its first w cells to the column count. */
  lemma {:induction false} ColumnCellsSnoc(m: Shape, row: seq<bool>, w: nat)
    requires forall r :: 0 <= r < |m| ==> w <= |m[r]|
    requires w <= |row|
    ensures ColumnCells(m + [row], w) == ColumnCells(m, w) + RowCells(row[..w])
  {
    if w > 0 {
      ColumnCellsSnoc(m, row, w - 1);
      var col := Column(m + [row], w - 1);
      assert col[..|col| - 1] == Column(m, w - 1);
      assert row[..w][..w - 1] == row[..w - 1];
    }
  }

  /** Counting by columns gives the same as counting by rows. */
  lemma {:induction false} ColumnCellsCount(m: Shape, w: nat)
    requires forall r :: 0 <= r < |m| ==> |m[r]| == w
    ensures ColumnCells(m, w) == CellCount(m)
  {
    if m == [] {
      if w > 0 {
        ColumnCellsCount(m, w - 1);
      }
    } else {
      var front := m[..|m| - 1];
      ColumnCellsCount(front, w);
      assert m == front + [m[|m| - 1]];
      ColumnCellsSnoc(front, m[|m| - 1], w);
      assert m[|m| - 1][..w] == m[|m| - 1];
    }
  }

  lemma {:induction false} RotatePrefixCount(m: Shape, k: nat)
    requires IsMatrix(m) && k <= |m[0]|
    ensures CellCount(Rotate(m)[..k]) == ColumnCells(m, k)
  {
    if k > 0 {
      RotatePrefixCount(m, k - 1);
      assert Rotate(m)[..k][..k - 1] == Rotate(m)[..k - 1];
      assert Rotate(m)[k - 1] == Reversed(Column(m, k - 1));
      RowCellsReversed(Column(m, k - 1));
    }
  }

  /** Rotation preserves the number of occupied cells. */
  lemma RotatePreservesCells(m: Shape)
    requires IsMatrix(m)
    ensures CellCount(Rotate(m)) == CellCount(m)
  {
    RotatePrefixCount(m, |m[0]|);
    assert Rotate(m)[..|m[0]|] == Rotate(m);
    ColumnCellsCount(m, |m[0]|);
  }

  /** Some occupied cell of a matrix with a non-zero count. */
  lemma {:induction false} OccupiedCell(m: Shape) returns (i: nat, j: nat)
    requires CellCount(m) > 0
    ensures i < |m| && j < |m[i]| && m[i][j]
  {
    var last := |m| - 1;
    if RowCells(m[last]) > 0 {
      i := last;
      j := OccupiedInRow(m[last]);
    } else {
      i, j := OccupiedCell(m[..last]);
    }
  }

  lemma {:induction false} OccupiedInRow(row: seq<bool>) returns (j: nat)
    requires RowCells(row) > 0
    ensures j < |row| && row[j]
  {
    var last := |row| - 1;
    if row[last] {
      j := last;
    } else {
      j := OccupiedInRow(row[..last]);
    }
  }

  /** The shape has an occupied cell. */
  predicate Occupied(m: Shape) {
    exists i, j :: 0 <= i < |m| && 0 <= j < |m[i]| && m[i][j]
  }

  lemma CountedOccupied(m: Shape)
    requires CellCount(m) > 0
    ensures Occupied(m)
  {
    var i, j := OccupiedCell(m);
  }

  /** Rotation moves the occupied cell at (i, j) to (j, |m| - 1 - i). */
  lemma RotateOccupied(m: Shape)
    requires IsMatrix(m) && Occupied(m)
    ensures Occupied(Rotate(m))
  {
    var i, j :| 0 <= i < |m| && 0 <= j < |m[i]| && m[i][j];
    assert Rotate(m)[j][|m| - 1 - i];
  }

  lemma {:induction false} RowCellsTake(row: seq<bool>, k: nat)
    requires 0 < k <= |row|
    ensures RowCells(row[..k]) == RowCells(row[..k - 1]) + Bit(row[k - 1])
  {
    assert row[..k][..k - 1] == row[..k - 1];
  }

  lemma {:induction false} CellCountTake(m: Shape, k: nat)
    requires 0 < k <= |m|
    ensures CellCount(m[..k]) == CellCount(m[..k - 1]) + RowCells(m[k - 1])
  {
    assert m[..k][..k - 1] == m[..k - 1];
  }

  /** The count of a row of at most four cells, written out. */
  lemma RowCellsSmall(row: seq<bool>)
    requires |row| <= 4
    ensures RowCells(row) == (if |row| > 0 then Bit(row[0]) else 0) + (if |row| > 1 then Bit(row[1]) else 0)
                           + (if |row| > 2 then Bit(row[2]) else 0) + (if |row| > 3 then Bit(row[3]) else 0)
  {
    var n := |row|;
    assert row[..n] == row;
    if n > 0 { RowCellsTake(row, n); }
    if n > 1 { RowCellsTake(row, n - 1); }
    if n > 2 { RowCellsTake(row, n - 2); }
    if n > 3 { RowCellsTake(row, n - 3); }
  }

  /** The count of a matrix of at most four rows, written out. */
  lemma CellCountSmall(m: Shape)
    requires |m| <= 4
    ensures CellCount(m) == (if |m| > 0 then RowCells(m[0]) else 0) + (if |m| > 1 then RowCells(m[1]) else 0)
                          + (if |m| > 2 then RowCells(m[2]) else 0) + (if |m| > 3 then RowCells(m[3]) else 0)
  {
    var n := |m|;
    assert m[..n] == m;
    if n > 0 { CellCountTake(m, n); }
    if n > 1 { CellCountTake(m, n - 1); }
    if n > 2 { CellCountTake(m, n - 2); }
    if n > 3 { CellCountTake(m, n - 3); }
  }

  /** Every catalog shape is square (I is 4x4, O is 2x2, the rest 3x3) and
      has exactly four occupied cells. */
  lemma CatalogShapes(k: Kind)
    ensures IsSquare(ShapeOf(k))
    ensures |ShapeOf(k)| == Size(k)
    ensures CellCount(ShapeOf(k)) == 4 && Occupied(ShapeOf(k))
  {
    var m := ShapeOf(k);
    CellCountSmall(m);
    RowCellsSmall(m[0]);
    RowCellsSmall(m[1]);
    if |m| > 2 { RowCellsSmall(m[2]); }
    if |m| > 3 { RowCellsSmall(m[3]); }
    CountedOccupied(m);
  }

  /** The catalog holds exactly the seven kinds, each once. */
  lemma CatalogKinds()
    ensures |Kinds| == 7
    ensures forall k: Kind :: k in Kinds
    ensures forall a, b :: 0 <= a < b < |Kinds| ==> Kinds[a] != Kinds[b]
  {
    forall k: Kind ensures k in Kinds {
      match k
      case I => assert Kinds[0] == k;
      case O => assert Kinds[1] == k;
      case T => assert Kinds[2] == k;
      case S => assert Kinds[3] == k;
      case Z => assert Kinds[4] == k;
      case J => assert Kinds[5] == k;
      case L => assert Kinds[6] == k;
    }
  }

  // ---------------------------------------------------------------------
  // Collision

  /** Where an occupied shape cell may land: inside the columns, above the
      floor, and on an empty cell, except that a row above the top of the
      board (row < 0) is never looked up. */
  predicate Free(board: Grid, col: int, row: int)
    requires IsBoard(board)
  {
    0 <= col < Width && row < Height && (row < 0 || board[row][col] == Empty)
  }

  /** The shape placed with its top-left corner at column x, row y collides
      with nothing. */
  predicate Fits(board: Grid, shape: Shape, x: int, y: int)
    requires IsBoard(board)
  {
    forall i, j :: 0 <= i < |shape| && 0 <= j < |shape[i]| && shape[i][j] ==> Free(board, x + j, y + i)
  }

  /** Every occupied cell lies within the columns and above the floor. */
  predicate InBounds(shape: Shape, x: int, y: int) {
    forall i, j :: 0 <= i < |shape| && 0 <= j < |shape[i]| && shape[i][j] ==> 0 <= x + j < Width && y + i < Height
  }

  /** The collision test: scans the shape row by row and stops at the first
      occupied cell that lands outside the columns, below the floor, or on a
      non-empty cell of the board. It changes nothing. */
  method CanMoveTo(newX: int, newY: int, shape: Shape, board: Grid) returns (ok: bool)
    requires IsBoard(board)
    ensures ok <==> Fits(board, shape, newX, newY)
  {
    for sy := 0 to |shape|
      invariant forall i, j :: 0 <= i < sy && 0 <= j < |shape[i]| && shape[i][j] ==> Free(board, newX + j, newY + i)
    {
      for sx := 0 to |shape[sy]|
        invariant forall j :: 0 <= j < sx && shape[sy][j] ==> Free(board, newX + j, newY + sy)
      {
        if shape[sy][sx] {
          var boardX, boardY := newX + sx, newY + sy;
          if boardX < 0 || boardX >= Width || boardY >= Height || (boardY >= 0 && board[boardY][boardX] != Empty) {
            return false;
          }
        }
      }
    }
    return true;
  }

  /** A position that fits keeps every occupied cell on the board's columns
      and above its floor. */
  lemma FitsInBounds(board: Grid, shape: Shape, x: int, y: int)
    requires IsBoard(board) && Fits(board, shape, x, y)
    ensures InBounds(shape, x, y)
  {
  }

  /** On the empty board only the walls and the floor block a shape. */
  lemma FitsEmptyBoard(shape: Shape, x: int, y: int)
    ensures Fits(EmptyBoard(), shape, x, y) <==> InBounds(shape, x, y)
  {
  }

  /** A shape with an occupied cell fits only above the floor. */
  lemma FitsAboveFloor(board: Grid, shape: Shape, x: int, y: int)
    requires IsBoard(board) && Occupied(shape) && Fits(board, shape, x, y)
    ensures y < Height
  {
    var i, j :| 0 <= i < |shape| && 0 <= j < |shape[i]| && shape[i][j];
    assert Free(board, x + j, y + i);
  }

  // ---------------------------------------------------------------------
  // Ghost drop

  /** The row a piece comes to rest on when dropped straight down from row y. */
  function LandingRow(board: Grid, shape: Shape, x: int, y: int): int
    requires IsBoard(board) && Occupied(shape)
    decreases Height - y
  {
    if Fits(board, shape, x, y + 1) then
      FitsAboveFloor(board, shape, x, y + 1);
      LandingRow(board, shape, x, y + 1)
    else y
  }

  /** The landing row is at or below the start, every row passed on the way
      down fits, and the row below it does not. */
  lemma {:induction false} LandingRowSpec(board: Grid, shape: Shape, x: int, y: int)
    requires IsBoard(board) && Occupied(shape)
    ensures y <= LandingRow(board, shape, x, y)
    ensures forall r :: y < r <= LandingRow(board, shape, x, y) ==> Fits(board, shape, x, r)
    ensures !Fits(board, shape, x, LandingRow(board, shape, x, y) + 1)
    decreases Height - y
  {
    if Fits(board, shape, x, y + 1) {
      FitsAboveFloor(board, shape, x, y + 1);
      LandingRowSpec(board, shape, x, y + 1);
    }
  }

  /** Those three facts determine the landing row. */
  lemma {:induction false} LandingRowUnique(board: Grid, shape: Shape, x: int, y: int, g: int)
    requires IsBoard(board) && Occupied(shape)
    requires y <= g && !Fits(board, shape, x, g + 1)
    requires forall r :: y < r <= g ==> Fits(board, shape, x, r)
    ensures g == LandingRow(board, shape, x, y)
    decreases g - y
  {
    if y < g {
      assert Fits(board, shape, x, y + 1);
      LandingRowUnique(board, shape, x, y + 1, g);
    }
  }

  // ---------------------------------------------------------------------
  // Pieces

  /** The saved (and compared) value of a piece. */
  datatype PieceState = PieceState(kind: Kind, shape: Shape, color: Rgb, x: int, y: int)

  /** A new piece is centred: floor((Width - width) / 2). */
  function SpawnX(shape: Shape): int
    requires |shape| > 0
  {
    (Width - |shape[0]|) / 2
  }

  /** A freshly spawned piece of kind k: a copy of the catalog entry at the
      centred column of the top row. */
  function Spawned(k: Kind): PieceState {
    PieceState(k, ShapeOf(k), ColorOf(k), SpawnX(ShapeOf(k)), 0)
  }

  /** What holds of every piece in play: its colour is its kind's, its shape
      is a square of its kind's size with an occupied cell, and it lies on
      the board's columns, at or below the top and above the floor. */
  predicate PieceOk(p: PieceState) {
    && p.color == ColorOf(p.kind)
    && IsSquare(p.shape) && |p.shape| == Size(p.kind) && Occupied(p.shape)
    && 0 <= p.y && InBounds(p.shape, p.x, p.y)
  }

  /** O spawns at column 4 and every other kind at column 3, on row 0. */
  lemma SpawnedOk(k: Kind)
    ensures PieceOk(Spawned(k))
    ensures Spawned(k).x == (if k == O then 4 else 3) && Spawned(k).y == 0
  {
    CatalogShapes(k);
  }

  /** A piece moved or rotated to a position where it fits is still a piece
      in play. */
  lemma MovedOk(board: Grid, p: PieceState, shape: Shape, x: int, y: int)
    requires IsBoard(board) && PieceOk(p) && 0 <= y && Fits(board, shape, x, y)
    requires shape == p.shape || shape == Rotate(p.shape)
    ensures PieceOk(p.(shape := shape, x := x, y := y))
  {
    if shape != p.shape {
      RotateSquare(p.shape);
      RotateOccupied(p.shape);
    }
  }

  /** A falling piece: the game moves and rotates it by assigning its fields. */
  class Piece {
    var kind: Kind
    var shape: Shape
    var color: Rgb
    var x: int
    var y: int

    /** The kind is chosen by the caller (uniformly at random in the game). */
    constructor (kind: Kind)
      ensures State() == Spawned(kind)
    {
      this.kind := kind;
      shape := ShapeOf(kind);
      color := ColorOf(kind);
      x := (Width - |ShapeOf(kind)[0]|) / 2;
      y := 0;
    }

    function State(): PieceState
      reads this
    {
      PieceState(kind, shape, color, x, y)
    }

    /** The preview row: drop the shape one row at a time while it fits. */
    method GhostPosition(board: Grid) returns (ghostY: int)
      requires IsBoard(board) && Occupied(shape)
      ensures y <= ghostY
      ensures forall r :: y < r <= ghostY ==> Fits(board, shape, x, r)
      ensures !Fits(board, shape, x, ghostY + 1)
      ensures ghostY == LandingRow(board, shape, x, y)
    {
      ghostY := y;
      var more := CanMoveTo(x, ghostY + 1, shape, board);
      while more
        invariant y <= ghostY
        invariant forall r :: y < r <= ghostY ==> Fits(board, shape, x, r)
        invariant more <==> Fits(board, shape, x, ghostY + 1)
        decreases Height - ghostY
      {
        FitsAboveFloor(board, shape, x, ghostY + 1);
        ghostY := ghostY + 1;
        more := CanMoveTo(x, ghostY + 1, shape, board);
      }
      LandingRowUnique(board, shape, x, y, ghostY);
    }
  }
}
