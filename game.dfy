/** The game controller of game-logic.js: the state of one session, the
    movement commands, gravity, locking, line clearing with scoring, spawning
    and game over, restart, pause, and the undo history.

    The effect of every command is first stated as a function on Snapshot
    values (the record the undo history stores), and what the game promises
    is proved about those functions; the methods of TetrisGame change the
    object's fields and are proved to have exactly that effect. */
module Game {
  import opened Board
  import opened Pieces
  import History

  // ---------------------------------------------------------------------
  // Scoring, level and gravity

  /** Points for k rows cleared by one lock, before multiplying by the level. */
  function LineScore(k: nat): nat
    requires k <= 4
  {
    [0, 100, 300, 500, 800][k]
  }

  /** The level reached after clearing `lines` rows in all. */
  function LevelFor(lines: int): int {
    lines / 10 + 1
  }

  /** Milliseconds between two gravity steps at a level: 50 less per level,
      but never below 50. */
  function IntervalFor(level: int): int {
    var t := 1000 - (level - 1) * 50;
    if t < 50 then 50 else t
  }

  /** Levels never go down as lines accumulate, and gravity never slows down:
      the interval stays between 50 and 1000 ms. */
  lemma SpeedMonotone(lines: nat, more: nat)
    ensures 1 <= LevelFor(lines) <= LevelFor(lines + more)
    ensures 50 <= IntervalFor(LevelFor(lines + more)) <= IntervalFor(LevelFor(lines)) <= 1000
  {
  }

  // ---------------------------------------------------------------------
  // Snapshots

  /** Everything saveGameState copies: the board, both pieces, and the score,
      level, lines, drop timer and drop interval. */
  datatype Snapshot = Snapshot(
    board: Grid,
    current: PieceState,
    next: PieceState,
    score: int,
    level: int,
    lines: int,
    dropTime: int,
    dropInterval: int)

  /** What every command needs of a state: a board of the right size with no
      full row left on it, and two pieces in play. */
  predicate Playable(s: Snapshot) {
    IsBoard(s.board) && NoFullRow(s.board) && PieceOk(s.current) && PieceOk(s.next)
  }

  /** The counters agree with each other: the level follows from the lines
      and the drop interval from the level. */
  predicate StatsOk(s: Snapshot) {
    && s.score >= 0 && s.lines >= 0 && s.dropTime >= 0
    && s.level == LevelFor(s.lines)
    && s.dropInterval == IntervalFor(s.level)
  }

  /** A state between two commands. */
  predicate Settled(s: Snapshot) {
    Playable(s) && StatsOk(s)
  }

  /** The state of a new session, and of a restarted one. */
  function Fresh(first: Kind, second: Kind): (s: Snapshot)
    ensures Settled(s)
    ensures s.score == 0 && s.level == 1 && s.dropInterval == 1000
  {
    SpawnedOk(first);
    SpawnedOk(second);
    Snapshot(EmptyBoard(), Spawned(first), Spawned(second), 0, 1, 0, 0, 1000)
  }

  /** A new or restarted game starts with no block on the board, no line
      cleared and the two given kinds in play and queued. */
  lemma FreshEmpty(first: Kind, second: Kind)
    ensures Blocks(Fresh(first, second).board) == 0 && Fresh(first, second).lines == 0
    ensures Fresh(first, second).current == Spawned(first) && Fresh(first, second).next == Spawned(second)
  {
    EmptyBoardBlocks();
  }

  // ---------------------------------------------------------------------
  // Locking a piece into the board

  /** The occupied shape cell of p that lands on board cell (r, c), if any. */
  predicate Covers(p: PieceState, r: int, c: int) {
    0 <= r - p.y < |p.shape| && 0 <= c - p.x < |p.shape[r - p.y]| && p.shape[r - p.y][c - p.x]
  }

  /** The board with the piece's colour written into every cell under one of
      its occupied cells; rows above the board are dropped. */
  function Placed(board: Grid, p: PieceState): Grid {
    seq(|board|, r requires 0 <= r < |board| =>
      seq(|board[r]|, c requires 0 <= c < |board[r]| =>
        if Covers(p, r, c) then Block(p.color) else board[r][c]))
  }

  /** Locking a piece into a board without full rows leaves at most four
      full rows: only the rows the piece spans can have become full. This is
      what keeps the score-table index in range. */
  lemma PlacedAtMostFour(board: Grid, p: PieceState)
    requires IsBoard(board) && NoFullRow(board) && PieceOk(p)
    ensures IsBoard(Placed(board, p))
    ensures FullRows(Placed(board, p)) <= 4
  {
    var placed := Placed(board, p);
    var lo := if p.y < Height then p.y else Height;
    var hi := if p.y + |p.shape| < Height then p.y + |p.shape| else Height;
    forall r | 0 <= r < |placed| && !(lo <= r < hi)
      ensures !IsFull(placed[r])
    {
      assert placed[r] == board[r];
    }
    FullRowsWithin(placed, lo, hi);
  }

  /** clearLines: remove the full rows and, when there were any, add
      LineScore(k) times the level before the clear to the score, add k to
      the lines, then recompute the level and the drop interval. */
  function AfterClear(s: Snapshot): Snapshot
    requires FullRows(s.board) <= 4
  {
    var k := FullRows(s.board);
    if k == 0 then s.(board := Cleared(s.board))
    else
      var lines := s.lines + k;
      var level := LevelFor(lines);
      s.(board := Cleared(s.board),
         score := s.score + LineScore(k) * s.level,
         lines := lines,
         level := level,
         dropInterval := IntervalFor(level))
  }

  /** What a line clear guarantees: the board keeps its dimensions and has no
      full row, it loses Width blocks per cleared row, the lines grow by the
      number of rows cleared, the points are paid at the level before the
      clear, and the pieces and the drop timer are untouched. A board with
      no full row is left as it is, counters included. */
  lemma AfterClearOk(s: Snapshot)
    requires IsBoard(s.board) && FullRows(s.board) <= 4
    ensures IsBoard(AfterClear(s).board) && NoFullRow(AfterClear(s).board)
    ensures Blocks(AfterClear(s).board) == Blocks(s.board) - Width * FullRows(s.board)
    ensures AfterClear(s).lines == s.lines + FullRows(s.board)
    ensures AfterClear(s).score == s.score + LineScore(FullRows(s.board)) * s.level
    ensures AfterClear(s).current == s.current && AfterClear(s).next == s.next
    ensures AfterClear(s).dropTime == s.dropTime
    ensures NoFullRow(s.board) ==> AfterClear(s) == s
  {
    ClearedShape(s.board);
    ClearedBlocks(s.board);
    if NoFullRow(s.board) {
      ClearedNoFull(s.board);
    }
  }

  /** A line clear keeps the counters consistent, and neither the score nor
      the level ever falls. */
  lemma AfterClearStats(s: Snapshot)
    requires FullRows(s.board) <= 4 && StatsOk(s)
    ensures StatsOk(AfterClear(s))
    ensures s.score <= AfterClear(s).score && s.level <= AfterClear(s).level
    ensures AfterClear(s).dropInterval <= s.dropInterval
  {
    SpeedMonotone(s.lines, FullRows(s.board));
  }

  /** The locked branch of a step down, and the end of a hard drop: lock the
      current piece, clear lines, and promote the next piece, with a new
      piece of the given kind queued behind it. */
  function Locked(s: Snapshot, kind: Kind): Snapshot
    requires Playable(s)
  {
    PlacedAtMostFour(s.board, s.current);
    AfterClear(s.(board := Placed(s.board, s.current))).(current := s.next, next := Spawned(kind))
  }

  /** Locking keeps the state playable: the queued piece comes into play and
      a new one of the given kind is queued. */
  lemma LockedOk(s: Snapshot, kind: Kind)
    requires Playable(s)
    ensures Playable(Locked(s, kind))
    ensures Locked(s, kind).current == s.next && Locked(s, kind).next == Spawned(kind)
  {
    PlacedAtMostFour(s.board, s.current);
    AfterClearOk(s.(board := Placed(s.board, s.current)));
    SpawnedOk(kind);
  }

  /** Locking counts the rows the locked piece completed, keeps the counters
      consistent, and never lowers the score or the level. */
  lemma LockedStats(s: Snapshot, kind: Kind)
    requires Playable(s) && StatsOk(s)
    ensures Locked(s, kind).lines == s.lines + FullRows(Placed(s.board, s.current))
    ensures StatsOk(Locked(s, kind))
    ensures s.score <= Locked(s, kind).score && s.level <= Locked(s, kind).level
  {
    PlacedAtMostFour(s.board, s.current);
    AfterClearOk(s.(board := Placed(s.board, s.current)));
    AfterClearStats(s.(board := Placed(s.board, s.current)));
  }

  /** Locking takes a settled state to a settled state. */
  lemma LockedSettled(s: Snapshot, kind: Kind)
    requires Settled(s)
    ensures Settled(Locked(s, kind))
  {
    LockedOk(s, kind);
    LockedStats(s, kind);
  }

  // ---------------------------------------------------------------------
  // Moving the current piece

  /** The current piece can move one row down. */
  predicate CanFall(s: Snapshot)
    requires IsBoard(s.board)
  {
    Fits(s.board, s.current.shape, s.current.x, s.current.y + 1)
  }

  /** The current piece fits where it is: false right after a spawn that
      ends the game. */
  predicate SpawnFits(s: Snapshot)
    requires IsBoard(s.board)
  {
    Fits(s.board, s.current.shape, s.current.x, s.current.y)
  }

  /** moveDown: one row down if the piece fits there, otherwise lock it. */
  function StepDown(s: Snapshot, kind: Kind): Snapshot
    requires Playable(s)
  {
    if CanFall(s) then s.(current := s.current.(y := s.current.y + 1))
    else Locked(s, kind)
  }

  /** The undo history after a step down: one snapshot of the state before
      the step is saved exactly when the piece locks. */
  function HistoryAfterStep(h: seq<Snapshot>, s: Snapshot): seq<Snapshot>
    requires IsBoard(s.board)
  {
    if CanFall(s) then h else History.Push(h, s)
  }

  /** moveLeft (dx = -1) and moveRight (dx = 1): shift the piece only when it
      fits at the new column; there are no wall kicks. */
  function Shifted(s: Snapshot, dx: int): Snapshot
    requires IsBoard(s.board)
  {
    var p := s.current;
    if Fits(s.board, p.shape, p.x + dx, p.y) then s.(current := p.(x := p.x + dx))
    else s
  }

  /** rotate: turn the piece clockwise only when the turned shape fits where
      the piece is. */
  function Turned(s: Snapshot): Snapshot
    requires IsBoard(s.board) && IsMatrix(s.current.shape)
  {
    var p := s.current;
    var turned := Rotate(p.shape);
    if Fits(s.board, turned, p.x, p.y) then s.(current := p.(shape := turned))
    else s
  }

  /** The current piece moved straight down to row y, with 2 points for each
      row passed. */
  function Descended(s: Snapshot, y: int): Snapshot {
    s.(current := s.current.(y := y), score := s.score + 2 * (y - s.current.y))
  }

  /** The descent of a hard drop: the piece goes straight down to its landing
      row. */
  function Dropped(s: Snapshot): Snapshot
    requires Playable(s)
  {
    Descended(s, LandingRow(s.board, s.current.shape, s.current.x, s.current.y))
  }

  /** hardDrop: drop, then lock. */
  function HardDropped(s: Snapshot, kind: Kind): Snapshot
    requires Playable(s)
  {
    DroppedOk(s);
    Locked(Dropped(s), kind)
  }

  // ---------------------------------------------------------------------
  // The commands keep a state settled

  /** A step down keeps the state playable. */
  lemma StepDownOk(s: Snapshot, kind: Kind)
    requires Playable(s)
    ensures Playable(StepDown(s, kind))
  {
    if CanFall(s) {
      MovedOk(s.board, s.current, s.current.shape, s.current.x, s.current.y + 1);
    } else {
      LockedOk(s, kind);
    }
  }

  /** A shift keeps the state playable and changes nothing but the column of
      the current piece. */
  lemma ShiftedOk(s: Snapshot, dx: int)
    requires Playable(s)
    ensures Playable(Shifted(s, dx))
    ensures Shifted(s, dx) == s.(current := s.current.(x := Shifted(s, dx).current.x))
  {
    var p := s.current;
    if Fits(s.board, p.shape, p.x + dx, p.y) {
      MovedOk(s.board, p, p.shape, p.x + dx, p.y);
    }
  }

  /** A rotation keeps the state playable and changes nothing but the shape
      of the current piece. */
  lemma TurnedOk(s: Snapshot)
    requires Playable(s)
    ensures IsMatrix(s.current.shape)
    ensures Playable(Turned(s))
    ensures Turned(s) == s.(current := s.current.(shape := Turned(s).current.shape))
  {
    var p := s.current;
    RotateSquare(p.shape);
    if Fits(s.board, Rotate(p.shape), p.x, p.y) {
      MovedOk(s.board, p, Rotate(p.shape), p.x, p.y);
    }
  }

  /** The descent of a hard drop keeps the state playable. */
  lemma DroppedOk(s: Snapshot)
    requires Playable(s)
    ensures Playable(Dropped(s))
  {
    var p := s.current;
    var g := LandingRow(s.board, p.shape, p.x, p.y);
    LandingRowSpec(s.board, p.shape, p.x, p.y);
    if g > p.y {
      MovedOk(s.board, p, p.shape, p.x, g);
    } else {
      assert p.(y := g) == p;
    }
  }

  /** A hard drop keeps the state playable. */
  lemma HardDroppedOk(s: Snapshot, kind: Kind)
    requires Playable(s)
    ensures Playable(HardDropped(s, kind))
  {
    DroppedOk(s);
    LockedOk(Dropped(s), kind);
  }

  /** A step down takes a settled state to a settled state and never lowers
      the score. */
  lemma StepDownSettled(s: Snapshot, kind: Kind)
    requires Settled(s)
    ensures Settled(StepDown(s, kind)) && s.score <= StepDown(s, kind).score
  {
    StepDownOk(s, kind);
    if !CanFall(s) {
      LockedStats(s, kind);
    }
  }

  /** A hard drop takes a settled state to a settled state and never lowers
      the score. */
  lemma HardDroppedSettled(s: Snapshot, kind: Kind)
    requires Settled(s)
    ensures Settled(HardDropped(s, kind)) && s.score <= HardDropped(s, kind).score
  {
    HardDroppedOk(s, kind);
    DroppedOk(s);
    LandingRowSpec(s.board, s.current.shape, s.current.x, s.current.y);
    LockedStats(Dropped(s), kind);
  }

  /** Every command takes a settled state to a settled state: the counters
      stay consistent, and the score never falls. */
  lemma CommandsKeepSettled(s: Snapshot, kind: Kind, dx: int)
    requires Settled(s)
    ensures Settled(StepDown(s, kind)) && s.score <= StepDown(s, kind).score
    ensures Settled(Shifted(s, dx)) && Shifted(s, dx).score == s.score
    ensures Settled(Turned(s)) && Turned(s).score == s.score
    ensures Settled(HardDropped(s, kind)) && s.score <= HardDropped(s, kind).score
  {
    StepDownSettled(s, kind);
    HardDroppedSettled(s, kind);
    ShiftedOk(s, dx);
    TurnedOk(s);
  }

  // ---------------------------------------------------------------------
  // Properties of the commands

  /** A successful move left is undone by a move right, provided the piece
      fitted where it started; and the other way round. */
  lemma ShiftBack(s: Snapshot)
    requires IsBoard(s.board) && SpawnFits(s)
    ensures Shifted(s, -1) != s ==> Shifted(Shifted(s, -1), 1) == s
    ensures Shifted(s, 1) != s ==> Shifted(Shifted(s, 1), -1) == s
  {
  }

  /** Rotation requests for the O piece never change the state. */
  lemma TurnO(s: Snapshot)
    requires IsBoard(s.board) && s.current.shape == ShapeOf(O)
    ensures Turned(s) == s
  {
    RotateFixesO();
    var p := s.current;
    if Fits(s.board, Rotate(p.shape), p.x, p.y) {
      assert p.(shape := Rotate(p.shape)) == p;
    }
  }

  /** Four accepted rotations bring the piece back to where it started. */
  lemma TurnFour(s: Snapshot)
    requires Playable(s)
    requires Turned(s) != s
    requires (TurnedOk(s); Turned(Turned(s)) != Turned(s))
    requires (TurnedOk(s); TurnedOk(Turned(s)); Turned(Turned(Turned(s))) != Turned(Turned(s)))
    requires (TurnedOk(s); TurnedOk(Turned(s)); TurnedOk(Turned(Turned(s)));
              Turned(Turned(Turned(Turned(s)))) != Turned(Turned(Turned(s))))
    ensures (TurnedOk(s); TurnedOk(Turned(s)); TurnedOk(Turned(Turned(s)));
             Turned(Turned(Turned(Turned(s)))) == s)
  {
    RotateSquare(s.current.shape);
    RotateFour(s.current.shape);
  }

  /** The landing row of a hard drop is where the piece stops: it fits on
      every row on the way down and not on the row below, and the drop earns
      2 points per row. */
  lemma DroppedLands(s: Snapshot)
    requires Playable(s)
    ensures s.current.y <= Dropped(s).current.y
    ensures forall r :: s.current.y < r <= Dropped(s).current.y ==> Fits(s.board, s.current.shape, s.current.x, r)
    ensures !CanFall(Dropped(s))
    ensures Dropped(s).score == s.score + 2 * (Dropped(s).current.y - s.current.y)
  {
    LandingRowSpec(s.board, s.current.shape, s.current.x, s.current.y);
  }

  /** A hard drop of an O piece from its spawn position on the empty board
      lands with its bottom row on the floor (y = 18), earns 2 x 18 points on
      the way down and clears nothing. */
  lemma HardDropOnEmptyBoard(s: Snapshot, kind: Kind)
    requires Playable(s) && s.board == EmptyBoard() && s.current == Spawned(O)
    ensures Dropped(s).current.y == 18
    ensures HardDropped(s, kind).score == s.score + 36
    ensures HardDropped(s, kind).lines == s.lines
  {
    OLandsOnFloor();
    var d := Dropped(s);
    DroppedOk(s);
    OOnFloorNoFullRow(d.current);
  }

  /** On the empty board an O piece falls from the top row to row 18, its
      lower row on the floor. */
  lemma OLandsOnFloor()
    ensures var p := Spawned(O); Occupied(p.shape) && LandingRow(EmptyBoard(), p.shape, p.x, p.y) == 18
  {
    var p := Spawned(O);
    SpawnedOk(O);
    forall y | 0 <= y <= 18 ensures Fits(EmptyBoard(), p.shape, p.x, y) {
      FitsEmptyBoard(p.shape, p.x, y);
    }
    assert !Fits(EmptyBoard(), p.shape, p.x, 19) by {
      assert p.shape[1][0];
    }
    LandingRowUnique(EmptyBoard(), p.shape, p.x, p.y, 18);
  }

  /** An O piece alone on the floor of the empty board fills only 2 of the
      10 cells of each of its rows, so no row is full. */
  lemma OOnFloorNoFullRow(p: PieceState)
    requires p.kind == O && PieceOk(p) && p.x == SpawnX(ShapeOf(O))
    ensures NoFullRow(Placed(EmptyBoard(), p))
  {
    var placed := Placed(EmptyBoard(), p);
    forall r | 0 <= r < |placed| ensures !IsFull(placed[r]) {
      assert placed[r][0] == Empty;
    }
  }

  /** The undo history holds at most Capacity snapshots, each of them a
      settled state the game can be put back into. */
  predicate HistoryOk(h: seq<Snapshot>) {
    |h| <= History.Capacity && forall i {:trigger Settled(h[i])} :: 0 <= i < |h| ==> Settled(h[i])
  }

  /** Saving a settled state keeps the history good. */
  lemma HistoryPushOk(h: seq<Snapshot>, s: Snapshot)
    requires HistoryOk(h) && Settled(s)
    ensures HistoryOk(History.Push(h, s))
  {
    var r := History.Push(h, s);
    forall i | 0 <= i < |r| ensures Settled(r[i]) {
      if |h + [s]| > History.Capacity {
        assert r[i] == (h + [s])[i + 1];
      }
    }
  }

  /** Undoing keeps the history good and gives back a settled state. */
  lemma HistoryPopOk(h: seq<Snapshot>)
    requires HistoryOk(h) && h != []
    ensures HistoryOk(h[..|h| - 1]) && Settled(h[|h| - 1])
  {
  }

  // ---------------------------------------------------------------------
  // The line-clear scan

  /** The board part-way through the bottom-up line-clear scan of `original`:
      the rows original[p..] have been examined, lc of them were full and
      have been removed, and lc empty rows have been inserted on top. */
  function Scanned(original: Grid, p: nat, lc: nat): Grid
    requires p <= |original|
  {
    EmptyRows(lc) + original[..p] + Kept(original[p..])
  }

  /** Once every row has been examined, only the inserted empty rows are
      left to look at, and none of them is full. */
  lemma ScanTop(original: Grid, lc: nat, y: int)
    requires 0 <= y < lc
    ensures Scanned(original, 0, lc)[y] == EmptyRow() && !IsFull(EmptyRow())
  {
    assert EmptyRow()[0] == Empty;
  }

  /** The scan before row p - 1: that row sits between the rows above it
      and the kept rows below. */
  lemma ScanSplit(original: Grid, p: nat, lc: nat)
    requires 0 < p <= |original|
    ensures Scanned(original, p, lc) == EmptyRows(lc) + (original[..p - 1] + [original[p - 1]]) + Kept(original[p..])
  {
    assert original[..p] == original[..p - 1] + [original[p - 1]];
  }

  /** The scan past a full row p - 1: one more empty row on top, and the
      kept rows below unchanged. */
  lemma ScanPastFull(original: Grid, p: nat, lc: nat)
    requires 0 < p <= |original| && IsFull(original[p - 1])
    ensures Scanned(original, p - 1, lc + 1) == [EmptyRow()] + EmptyRows(lc) + original[..p - 1] + Kept(original[p..])
  {
    KeptStep(original, p);
    assert [] + Kept(original[p..]) == Kept(original[p..]);
    assert [EmptyRow()] + EmptyRows(lc) == EmptyRows(lc + 1);
  }

  /** The scan meets a full row: removing it and inserting an empty row on
      top is the scan one row further up with one more row cleared. */
  lemma ScanRemove(original: Grid, p: nat, lc: nat)
    requires 0 < p <= |original| && IsFull(original[p - 1])
    ensures var b := Scanned(original, p, lc);
      && b[lc + p - 1] == original[p - 1]
      && [EmptyRow()] + b[..lc + p - 1] + b[lc + p..] == Scanned(original, p - 1, lc + 1)
      && FullRows(original[p - 1..]) == FullRows(original[p..]) + 1
  {
    ScanSplit(original, p, lc);
    ScanPastFull(original, p, lc);
    KeptStep(original, p);
    Spliced(EmptyRow(), Scanned(original, p, lc), Scanned(original, p - 1, lc + 1),
            EmptyRows(lc), original[..p - 1], original[p - 1], Kept(original[p..]));
  }

  /** Taking x out of b == e + (f + [x]) + c and putting y on top. */
  lemma Spliced<T>(y: T, b: seq<T>, b2: seq<T>, e: seq<T>, f: seq<T>, x: T, c: seq<T>)
    requires b == e + (f + [x]) + c && b2 == [y] + e + f + c
    ensures b[|e| + |f|] == x && [y] + b[..|e| + |f|] + b[|e| + |f| + 1..] == b2
  {
    var n := |e| + |f|;
    assert b[..n] == e + f;
    assert b[n + 1..] == c;
  }

  /** The scan meets a row that is not full: it stays, and the scan moves
      one row up. */
  lemma ScanKeep(original: Grid, p: nat, lc: nat)
    requires 0 < p <= |original| && !IsFull(original[p - 1])
    ensures var b := Scanned(original, p, lc);
      && b[lc + p - 1] == original[p - 1]
      && b == Scanned(original, p - 1, lc)
      && FullRows(original[p - 1..]) == FullRows(original[p..])
  {
    KeptStep(original, p);
    assert original[..p] == original[..p - 1] + [original[p - 1]];
  }

  /** One step of the scan at row y = lc + p - 1 (or above, once p is 0):
      a full row there is the next original row, and removing it advances
      the scan; a row that is not full is kept and the scan moves up. */
  lemma ScanStep(original: Grid, p: nat, lc: nat, y: int)
    requires p <= |original| && 0 <= y && y + 1 <= lc + p && (p > 0 ==> y + 1 == lc + p)
    ensures var b := Scanned(original, p, lc);
      && (IsFull(b[y]) ==>
            && p > 0
            && [EmptyRow()] + b[..y] + b[y + 1..] == Scanned(original, p - 1, lc + 1)
            && FullRows(original[p - 1..]) == FullRows(original[p..]) + 1)
      && (!IsFull(b[y]) && p > 0 ==>
            && b == Scanned(original, p - 1, lc)
            && FullRows(original[p - 1..]) == FullRows(original[p..]))
  {
    if p == 0 {
      ScanTop(original, lc, y);
    } else if IsFull(original[p - 1]) {
      ScanRemove(original, p, lc);
    } else {
      ScanKeep(original, p, lc);
    }
  }

  /** The scan is part-way through `original` with row y next to examine. */
  ghost predicate Scanning(original: Grid, rows: Grid, y: int, lc: nat, p: nat) {
    && p <= |original| && -1 <= y
    && rows == Scanned(original, p, lc)
    && lc == FullRows(original[p..])
    && y + 1 <= lc + p
    && (p > 0 ==> y + 1 == lc + p)
  }

  /** One pass of the loop body of clearLines at row y: a full row is
      spliced out and an empty row is put on top, and the same index is
      examined again, since the rows above it have moved down; a row that
      is not full is passed over. */
  method ScanRow(ghost original: Grid, rows: Grid, y: int, lc: nat, ghost p: nat)
    returns (rows': Grid, y': int, lc': nat, ghost p': nat)
    requires Scanning(original, rows, y, lc, p) && 0 <= y
    ensures Scanning(original, rows', y', lc', p')
    ensures y' + 1 + p' < y + 1 + p
  {
    ScanStep(original, p, lc, y);
    if IsFull(rows[y]) {
      rows' := [EmptyRow()] + rows[..y] + rows[y + 1..];
      y', lc', p' := y, lc + 1, p - 1;
    } else {
      rows', y', lc' := rows, y - 1, lc;
      p' := if p > 0 then p - 1 else 0;
    }
  }

  /** The row scan of clearLines: the rows are examined from the bottom up
      (see ScanRow). The result is the cleared board and the number of rows
      removed. */
  method RemoveFullRows(board: Grid) returns (rows: Grid, linesCleared: nat)
    requires IsBoard(board)
    ensures rows == Cleared(board) && linesCleared == FullRows(board)
  {
    linesCleared := 0;
    ghost var p: nat := Height;  // board[p..] has been examined
    var y := Height - 1;
    rows := board;
    assert board[p..] == [] && board[..p] == board;
    while y >= 0
      invariant Scanning(board, rows, y, linesCleared, p)
      decreases y + 1 + p
    {
      rows, y, linesCleared, p := ScanRow(board, rows, y, linesCleared, p);
    }
    assert board[..p] == [] && board[p..] == board;
  }

  /** undo's rebuilding of a saved piece: a new piece of the saved kind, with
      the saved position and shape assigned to it, gives back exactly the
      saved piece (the colour follows from the kind). */
  method RestorePiece(saved: PieceState) returns (restored: PieceState)
    requires saved.color == ColorOf(saved.kind)
    ensures restored == saved
  {
    var piece := new Piece(saved.kind);
    piece.x := saved.x;
    piece.y := saved.y;
    piece.shape := saved.shape;
    restored := piece.State();
  }

  /** spawnNewPiece's and init's `new TetrisPiece(type)`: the state of a
      freshly constructed piece. */
  method NewPiece(kind: Kind) returns (p: PieceState)
    ensures p == Spawned(kind) && PieceOk(p)
  {
    SpawnedOk(kind);
    var piece := new Piece(kind);
    p := piece.State();
  }

  // ---------------------------------------------------------------------
  // The game object

  /** The game. Its two pieces are held as values: the game never shares
      its piece objects, so moving the current piece is modelled by
      replacing it with the moved piece. */
  class TetrisGame {
    var board: Grid
    var current: PieceState
    var next: PieceState
    var score: int
    var level: int
    var lines: int
    var dropTime: int
    var dropInterval: int
    var gameRunning: bool
    var paused: bool
    var gameStates: seq<Snapshot>

    /** The state saveGameState copies. */
    function Snap(): Snapshot
      reads this
    {
      Snapshot(board, current, next, score, level, lines, dropTime, dropInterval)
    }

    /** The object invariant between commands: the state is playable and the
        history is good. */
    ghost predicate Valid()
      reads this
    {
      Settled(Snap()) && HistoryOk(gameStates)
    }

    /** A session: the constructor's fields, then init (the two kinds are the
        random choices of the two first pieces). */
    constructor (first: Kind, second: Kind)
      ensures Valid()
      ensures Snap() == Fresh(first, second)
      ensures gameRunning && !paused
      ensures gameStates == [Snap()]
    {
      board := EmptyBoard();
      score, level, lines := 0, 1, 0;
      dropTime, dropInterval := 0, 1000;
      paused := false;
      gameStates := [];
      var firstPiece := NewPiece(first);
      var secondPiece := NewPiece(second);
      current, next := firstPiece, secondPiece;
      gameRunning := true;
      new;
      assert Snap() == Fresh(first, second);
      SaveGameState();
    }

    /** init: two new pieces, running, and one snapshot saved. */
    method Init(first: Kind, second: Kind)
      requires Valid()
      modifies this
      ensures Valid()
      ensures Snap() == old(Snap()).(current := Spawned(first), next := Spawned(second))
      ensures gameRunning && paused == old(paused)
      ensures gameStates == History.Push(old(gameStates), Snap())
    {
      current := NewPiece(first);
      next := NewPiece(second);
      gameRunning := true;
      assert Snap() == old(Snap()).(current := Spawned(first), next := Spawned(second));
      SaveGameState();
    }

    /** update: gravity. Only while running and not paused: add the elapsed
        milliseconds to the drop timer and, once it exceeds the interval,
        step down and reset the timer. */
    method Update(deltaTime: nat, kind: Kind)
      requires Valid()
      modifies this
      ensures Valid()
      ensures !old(gameRunning) || old(paused) ==>
                Snap() == old(Snap()) && gameStates == old(gameStates) && gameRunning == old(gameRunning)
      ensures old(gameRunning) && !old(paused) && old(dropTime) + deltaTime <= old(dropInterval) ==>
                Snap() == old(Snap()).(dropTime := old(dropTime) + deltaTime)
                && gameStates == old(gameStates) && gameRunning
      ensures old(gameRunning) && !old(paused) && old(dropTime) + deltaTime > old(dropInterval) ==>
                var before := old(Snap()).(dropTime := old(dropTime) + deltaTime);
                && Snap() == StepDown(before, kind).(dropTime := 0)
                && gameStates == HistoryAfterStep(old(gameStates), before)
                && gameRunning == (CanFall(before) || SpawnFits(Snap()))
      ensures paused == old(paused)
    {
      if !gameRunning || paused {
        return;
      }
      dropTime := dropTime + deltaTime;
      if dropTime > dropInterval {
        ghost var before := Snap();
        MoveDown(kind);
        dropTime := 0;
        assert before == old(Snap()).(dropTime := old(dropTime) + deltaTime);
        assert Snap() == StepDown(before, kind).(dropTime := 0);
        assert gameStates == HistoryAfterStep(old(gameStates), before);
        assert gameRunning == (CanFall(before) || SpawnFits(Snap()));
      }
    }

    /** moveDown: one row down when the piece fits there; otherwise save a
        snapshot, lock the piece, clear lines and spawn the next piece. */
    method MoveDown(kind: Kind)
      requires Valid()
      modifies this
      ensures Valid()
      ensures Snap() == StepDown(old(Snap()), kind)
      ensures gameStates == HistoryAfterStep(old(gameStates), old(Snap()))
      ensures gameRunning == (old(gameRunning) && (old(CanFall(Snap())) || SpawnFits(Snap())))
      ensures paused == old(paused)
    {
      ghost var s0 := Snap();
      StepDownOk(s0, kind);
      var fits := CanMoveTo(current.x, current.y + 1, current.shape, board);
      if fits {
        current := current.(y := current.y + 1);
        assert Snap() == StepDown(s0, kind);
      } else {
        SaveGameState();
        assert gameStates == HistoryAfterStep(old(gameStates), s0);
        LockPiece(kind);
        assert Snap() == StepDown(s0, kind);
      }
    }

    /** The tail that moveDown and hardDrop share: placePiece, clearLines and
        spawnNewPiece, in that order. */
    method LockPiece(kind: Kind)
      requires Valid()
      modifies this
      ensures Valid()
      ensures Snap() == Locked(old(Snap()), kind)
      ensures gameRunning == (old(gameRunning) && SpawnFits(Snap()))
      ensures gameStates == old(gameStates) && paused == old(paused)
    {
      ghost var s0 := Snap();
      LockedSettled(s0, kind);
      PlacePiece();
      var cleared := ClearLines();
      SpawnNewPiece(kind);
      assert Snap() == Locked(s0, kind);
    }

    /** moveLeft. */
    method MoveLeft()
      requires Valid()
      modifies this`current
      ensures Valid()
      ensures Snap() == Shifted(old(Snap()), -1)
    {
      ShiftedOk(Snap(), -1);
      var fits := CanMoveTo(current.x - 1, current.y, current.shape, board);
      if fits {
        current := current.(x := current.x - 1);
      }
    }

    /** moveRight. */
    method MoveRight()
      requires Valid()
      modifies this`current
      ensures Valid()
      ensures Snap() == Shifted(old(Snap()), 1)
    {
      ShiftedOk(Snap(), 1);
      var fits := CanMoveTo(current.x + 1, current.y, current.shape, board);
      if fits {
        current := current.(x := current.x + 1);
      }
    }

    /** rotate: the turned shape is computed aside and committed only if it
        fits at the piece's position. */
    method Rotate()
      requires Valid()
      modifies this`current
      ensures Valid()
      ensures Snap() == Turned(old(Snap()))
    {
      TurnedOk(Snap());
      var rotatedShape := Pieces.Rotate(current.shape);
      var fits := CanMoveTo(current.x, current.y, rotatedShape, board);
      if fits {
        current := current.(shape := rotatedShape);
      }
    }

    /** hardDrop: save a snapshot, drop the piece (see Descend), then lock,
        clear lines and spawn. */
    method HardDrop(kind: Kind)
      requires Valid()
      modifies this
      ensures Valid()
      ensures Snap() == HardDropped(old(Snap()), kind)
      ensures gameStates == History.Push(old(gameStates), old(Snap()))
      ensures gameRunning == (old(gameRunning) && SpawnFits(Snap())) && paused == old(paused)
    {
      SaveGameState();
      ghost var start := Snap();
      Descend();
      ghost var dropped := Snap();
      LockPiece(kind);
      assert dropped == Dropped(start) && Snap() == Locked(dropped, kind);
    }

    /** The loop of hardDrop: move the piece down while it fits, 2 points
        per row. */
    method Descend()
      requires Valid()
      modifies this`current, this`score
      ensures Valid()
      ensures Snap() == Dropped(old(Snap()))
      ensures gameRunning == old(gameRunning) && paused == old(paused) && gameStates == old(gameStates)
    {
      ghost var start := Snap();
      ghost var landing := LandingRow(board, current.shape, current.x, current.y);
      LandingRowSpec(board, current.shape, current.x, current.y);
      DroppedOk(start);
      var more := CanMoveTo(current.x, current.y + 1, current.shape, board);
      while more
        invariant start.current.y <= current.y <= landing
        invariant Snap() == Descended(start, current.y)
        invariant more <==> current.y < landing
        decreases landing - current.y
      {
        current := current.(y := current.y + 1);
        score := score + 2;
        more := CanMoveTo(current.x, current.y + 1, current.shape, board);
      }
      assert Snap() == Dropped(start);
    }

    /** placePiece: write the piece's colour into the board cell under each
        occupied shape cell whose row is not above the board. */
    method PlacePiece()
      requires IsBoard(board) && NoFullRow(board) && PieceOk(current)
      modifies this`board
      ensures board == Placed(old(board), current)
      ensures IsBoard(board) && FullRows(board) <= 4
    {
      var piece := current;
      ghost var original := board;
      for sy := 0 to |piece.shape|
        invariant IsBoard(board)
        invariant forall r, c :: 0 <= r < Height && 0 <= c < Width ==>
                    board[r][c] == if Covers(piece, r, c) && r - piece.y < sy then Block(piece.color) else original[r][c]
      {
        for sx := 0 to |piece.shape[sy]|
          invariant IsBoard(board)
          invariant forall r, c :: 0 <= r < Height && 0 <= c < Width ==>
                      board[r][c] == if Covers(piece, r, c) && (r - piece.y < sy || (r - piece.y == sy && c - piece.x < sx))
                                     then Block(piece.color) else original[r][c]
        {
          if piece.shape[sy][sx] {
            var boardY, boardX := piece.y + sy, piece.x + sx;
            if boardY >= 0 {
              board := board[boardY := board[boardY][boardX := Block(piece.color)]];
            }
          }
        }
      }
      forall r | 0 <= r < Height
        ensures board[r] == Placed(original, piece)[r]
      {
        assert |board[r]| == |Placed(original, piece)[r]| == Width;
      }
      assert board == Placed(original, piece);
      PlacedAtMostFour(original, piece);
    }

    /** clearLines: remove the full rows (see RemoveFullRows), then, when
        any were removed, add their score at the current level, count them,
        and recompute the level and the drop interval. Returns the number of
        rows cleared. */
    method ClearLines() returns (linesCleared: nat)
      requires IsBoard(board) && FullRows(board) <= 4
      modifies this`board, this`score, this`lines, this`level, this`dropInterval
      ensures IsBoard(board) && NoFullRow(board)
      ensures linesCleared == FullRows(old(board))
      ensures Snap() == AfterClear(old(Snap()))
    {
      ghost var s0 := Snap();
      ClearedShape(board);
      board, linesCleared := RemoveFullRows(board);
      if linesCleared > 0 {
        lines := lines + linesCleared;
        score := score + LineScore(linesCleared) * level;
        level := LevelFor(lines);
        dropInterval := IntervalFor(level);
      }
      assert Snap() == AfterClear(s0);
    }

    /** spawnNewPiece: the queued piece becomes current, a new piece of the
        given kind is queued, and the game is over if the promoted piece does
        not fit where it is. */
    method SpawnNewPiece(kind: Kind)
      requires IsBoard(board)
      modifies this`current, this`next, this`gameRunning
      ensures current == old(next) && next == Spawned(kind)
      ensures gameRunning == (old(gameRunning) && SpawnFits(Snap()))
    {
      current := next;
      next := NewPiece(kind);
      var fits := CanMoveTo(current.x, current.y, current.shape, board);
      if !fits {
        GameOver();
      }
    }

    /** gameOver, without the sound and the page update. */
    method GameOver()
      modifies this`gameRunning
      ensures !gameRunning
    {
      gameRunning := false;
    }

    /** restart: reset the board and counters and unpause, then init. The
        undo history is kept; init saves one more snapshot onto it. */
    method Restart(first: Kind, second: Kind)
      requires Valid()
      modifies this
      ensures Valid()
      ensures Snap() == Fresh(first, second)
      ensures gameRunning && !paused
      ensures gameStates == History.Push(old(gameStates), Snap())
    {
      board := EmptyBoard();
      score := 0;
      level := 1;
      lines := 0;
      dropTime := 0;
      dropInterval := 1000;
      paused := false;
      Init(first, second);
    }

    /** togglePause: flips the flag whatever the state of the game. */
    method TogglePause()
      modifies this`paused
      ensures paused == !old(paused)
    {
      paused := !paused;
    }

    /** saveGameState: append a copy of the state, then drop the oldest copy
        if there are more than ten. */
    method SaveGameState()
      requires Valid()
      modifies this`gameStates
      ensures Valid()
      ensures Snap() == old(Snap()) && gameRunning == old(gameRunning) && paused == old(paused)
      ensures gameStates == History.Push(old(gameStates), Snap())
    {
      HistoryPushOk(gameStates, Snap());
      gameStates := gameStates + [Snap()];
      if |gameStates| > History.Capacity {
        gameStates := gameStates[1..];
      }
    }

    /** The restoring part of undo: every saved field is put back. */
    method Load(state: Snapshot)
      requires state.current.color == ColorOf(state.current.kind)
      requires state.next.color == ColorOf(state.next.kind)
      modifies this`board, this`current, this`next, this`score, this`level, this`lines, this`dropTime, this`dropInterval
      ensures Snap() == state
      ensures gameStates == old(gameStates) && gameRunning == old(gameRunning) && paused == old(paused)
    {
      board := state.board;
      current := RestorePiece(state.current);
      next := RestorePiece(state.next);
      score := state.score;
      level := state.level;
      lines := state.lines;
      dropTime := state.dropTime;
      dropInterval := state.dropInterval;
    }

    /** undo: nothing when the history is empty; otherwise pop the newest
        snapshot and restore every field it holds. The running and paused
        flags are left alone. */
    method Undo() returns (restored: bool)
      requires Valid()
      modifies this
      ensures Valid()
      ensures restored <==> old(gameStates) != []
      ensures !restored ==> Snap() == old(Snap()) && gameStates == old(gameStates)
      ensures restored ==> Snap() == old(gameStates[|gameStates| - 1])
                           && gameStates == old(gameStates[..|gameStates| - 1])
      ensures gameRunning == old(gameRunning) && paused == old(paused)
    {
      if |gameStates| == 0 {
        return false;
      }
      HistoryPopOk(gameStates);
      var state := gameStates[|gameStates| - 1];
      gameStates := gameStates[..|gameStates| - 1];
      Load(state);
      return true;
    }
  }
}
