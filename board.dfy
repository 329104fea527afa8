/** The playing field of the game: a fixed grid of 20 rows of 10 cells, and
    the row compaction that the line-clear pass performs on it, stated as
    functions on values together with the properties the game relies on. */
module Board {

  const Width := 10
  const Height := 20

  /** A CSS colour "#rrggbb", held as its 24-bit value 0xrrggbb. */
  newtype Rgb = x: int | 0 <= x < 0x100_0000

  /** A board cell: 0 in the source, or the colour of the piece that was
      locked there. */
  datatype Cell = Empty | Block(color: Rgb)

  type Row = seq<Cell>
  type Grid = seq<Row>

  /** Every board the game holds has exactly Height rows of Width cells. */
  predicate IsBoard(b: Grid) {
    |b| == Height && forall r :: 0 <= r < |b| ==> |b[r]| == Width
  }

  function EmptyRow(): Row {
    seq(Width, c => Empty)
  }

  function EmptyRows(n: nat): Grid {
    seq(n, r => EmptyRow())
  }

  /** The board a game starts with and is reset to on restart. */
  function EmptyBoard(): (b: Grid)
    ensures IsBoard(b) && NoFullRow(b)
  {
    assert EmptyRow()[0] == Empty;
    EmptyRows(Height)
  }

  /** The empty board holds no block. */
  lemma EmptyBoardBlocks()
    ensures Blocks(EmptyBoard()) == 0
  {
    EmptyRowsBlocks(Height);
  }

  /** A row is full when none of its cells is empty. */
  predicate IsFull(row: Row) {
    forall c :: 0 <= c < |row| ==> row[c].Block?
  }

  predicate NoFullRow(b: Grid) {
    forall r {:trigger IsFull(b[r])} :: 0 <= r < |b| ==> !IsFull(b[r])
  }

  /** The number of full rows. */
  function FullRows(rows: Grid): (n: nat)
    ensures n <= |rows|
    ensures n == 0 <== NoFullRow(rows)
  {
    if rows == [] then 0
    else (if IsFull(rows[0]) then 1 else 0) + FullRows(rows[1..])
  }

  /** The rows that survive a line clear, in their original order. */
  function Kept(rows: Grid): (k: Grid)
    ensures |k| == |rows| - FullRows(rows)
    ensures NoFullRow(k)
    ensures forall row :: row in k ==> row in rows
  {
    if rows == [] then []
    else (if IsFull(rows[0]) then [] else [rows[0]]) + Kept(rows[1..])
  }

  /** The board after the line-clear pass: every full row removed and as
      many empty rows inserted at the top. */
  function Cleared(b: Grid): Grid {
    EmptyRows(FullRows(b)) + Kept(b)
  }

  /** The number of non-empty cells of a row, and of a board. */
  function RowBlocks(row: Row): nat {
    if row == [] then 0
    else (if row[0].Block? then 1 else 0) + RowBlocks(row[1..])
  }

  function Blocks(b: Grid): nat {
    if b == [] then 0 else RowBlocks(b[0]) + Blocks(b[1..])
  }

  // ---------------------------------------------------------------------
  // Counting and filtering over concatenations

  lemma {:induction false} FullRowsAppend(a: Grid, c: Grid)
    ensures FullRows(a + c) == FullRows(a) + FullRows(c)
  {
    if a == [] {
      assert a + c == c;
    } else {
      assert (a + c)[1..] == a[1..] + c;
      FullRowsAppend(a[1..], c);
    }
  }

  /** Filtering distributes over concatenation: a line clear never reorders
      the rows it keeps. */
  lemma {:induction false} KeptAppend(a: Grid, c: Grid)
    ensures Kept(a + c) == Kept(a) + Kept(c)
  {
    if a == [] {
      assert a + c == c;
    } else {
      assert (a + c)[1..] == a[1..] + c;
      KeptAppend(a[1..], c);
    }
  }

  /** A non-full row is kept exactly when it is in the input. */
  lemma {:induction false} KeptMembers(rows: Grid, row: Row)
    ensures row in Kept(rows) <==> row in rows && !IsFull(row)
  {
    if rows != [] {
      KeptMembers(rows[1..], row);
      assert rows == [rows[0]] + rows[1..];
    }
  }

  lemma {:induction false} KeptNoFull(rows: Grid)
    requires NoFullRow(rows)
    ensures Kept(rows) == rows
  {
    if rows != [] {
      KeptNoFull(rows[1..]);
    }
  }

  /** The rows from p - 1 on, examined one row further up than those from p. */
  lemma KeptStep(rows: Grid, p: nat)
    requires 0 < p <= |rows|
    ensures Kept(rows[p - 1..]) == (if IsFull(rows[p - 1]) then [] else [rows[p - 1]]) + Kept(rows[p..])
    ensures FullRows(rows[p - 1..]) == (if IsFull(rows[p - 1]) then 1 else 0) + FullRows(rows[p..])
  {
    assert rows[p - 1..][1..] == rows[p..];
  }

  lemma {:induction false} BlocksAppend(a: Grid, c: Grid)
    ensures Blocks(a + c) == Blocks(a) + Blocks(c)
  {
    if a == [] {
      assert a + c == c;
    } else {
      assert (a + c)[1..] == a[1..] + c;
      BlocksAppend(a[1..], c);
    }
  }

  lemma {:induction false} FullRowBlocks(row: Row)
    requires IsFull(row)
    ensures RowBlocks(row) == |row|
  {
    if row != [] {
      FullRowBlocks(row[1..]);
    }
  }

  lemma {:induction false} EmptyRowBlocks(row: Row)
    requires forall c :: 0 <= c < |row| ==> row[c] == Empty
    ensures RowBlocks(row) == 0
  {
    if row != [] {
      EmptyRowBlocks(row[1..]);
    }
  }

  lemma {:induction false} EmptyRowsBlocks(n: nat)
    ensures Blocks(EmptyRows(n)) == 0
  {
    if n > 0 {
      assert EmptyRows(n)[1..] == EmptyRows(n - 1);
      EmptyRowBlocks(EmptyRow());
      EmptyRowsBlocks(n - 1);
    }
  }

  /** Each removed row takes exactly its Width blocks with it. */
  lemma {:induction false} KeptBlocks(rows: Grid)
    requires forall r :: 0 <= r < |rows| ==> |rows[r]| == Width
    ensures Blocks(Kept(rows)) + Width * FullRows(rows) == Blocks(rows)
  {
    if rows != [] {
      KeptBlocks(rows[1..]);
      var head := if IsFull(rows[0]) then [] else [rows[0]];
      BlocksAppend(head, Kept(rows[1..]));
      if IsFull(rows[0]) {
        FullRowBlocks(rows[0]);
      } else {
        assert Blocks(head) == RowBlocks(rows[0]) by {
          assert head[1..] == [];
        }
      }
    }
  }

  // ---------------------------------------------------------------------
  // Properties of the line clear

  /** Clearing keeps the board at Height rows of Width cells, leaves no full
      row, puts exactly FullRows(b) empty rows on top and the surviving rows,
      in order, below them. */
  lemma ClearedShape(b: Grid)
    requires IsBoard(b)
    ensures IsBoard(Cleared(b))
    ensures NoFullRow(Cleared(b))
    ensures forall r :: 0 <= r < FullRows(b) ==> Cleared(b)[r] == EmptyRow()
    ensures Cleared(b)[FullRows(b)..] == Kept(b)
  {
    var c := Cleared(b);
    var n := FullRows(b);
    forall r | 0 <= r < |c|
      ensures |c[r]| == Width && !IsFull(c[r])
    {
      if r < n {
        assert c[r] == EmptyRow();
        assert !c[r][0].Block?;
      } else {
        assert c[r] == Kept(b)[r - n];
        assert c[r] in Kept(b);
        KeptMembers(b, c[r]);
        var i :| 0 <= i < |b| && b[i] == c[r];
      }
    }
  }

  /** The number of blocks drops by exactly Width per cleared row. */
  lemma ClearedBlocks(b: Grid)
    requires IsBoard(b)
    ensures Blocks(Cleared(b)) == Blocks(b) - Width * FullRows(b)
  {
    BlocksAppend(EmptyRows(FullRows(b)), Kept(b));
    EmptyRowsBlocks(FullRows(b));
    KeptBlocks(b);
  }

  /** A board with no full row is left as it is; hence clearing twice is the
      same as clearing once. */
  lemma ClearedNoFull(b: Grid)
    requires NoFullRow(b)
    ensures Cleared(b) == b
  {
    KeptNoFull(b);
    assert EmptyRows(0) == [];
  }

  lemma ClearedIdempotent(b: Grid)
    requires IsBoard(b)
    ensures Cleared(Cleared(b)) == Cleared(b)
  {
    ClearedShape(b);
    ClearedNoFull(Cleared(b));
  }

  /** When every full row of b lies in rows lo..hi-1, at most hi - lo rows
      can be cleared. */
  lemma {:induction false} FullRowsWithin(b: Grid, lo: nat, hi: nat)
    requires lo <= hi <= |b|
    requires forall r :: 0 <= r < |b| && IsFull(b[r]) ==> lo <= r < hi
    ensures FullRows(b) <= hi - lo
  {
    if hi == 0 {
      assert NoFullRow(b) by {
        forall r | 0 <= r < |b| ensures !IsFull(b[r]) {}
      }
    } else {
      var rest, lo' := b[1..], if lo > 0 then lo - 1 else 0;
      forall r | 0 <= r < |rest| && IsFull(rest[r]) ensures lo' <= r < hi - 1 {
        assert rest[r] == b[r + 1];
      }
      FullRowsWithin(rest, lo', hi - 1);
    }
  }
}
