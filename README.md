# Falling-block game engine, modelled in Dafny

This project models the game-state engine of a browser falling-block game,
written in JavaScript. It covers:

- the piece catalog and `TetrisPiece` of `tetris-pieces.js`: the seven
  shapes, spawning, the clockwise rotation, the collision test `canMoveTo`
  and the ghost-drop projection `getGhostPosition`;
- the controller `TetrisGame` of `game-logic.js`: the 20 x 10 board,
  gravity (`update`), the movement commands, locking (`placePiece`), the
  line clear with scoring, level and speed (`clearLines`), spawning and game
  over, `restart`, `togglePause`, and the ten-entry undo history
  (`saveGameState` / `undo`);
- the part of the keyboard handler of `input-handler.js` that changes the
  game: the guard that drops every key but R once the game is over, the keys
  held down, the key-to-command table, and the extra point of a soft drop.

The files are:

- `board.dfy` (module `Board`): the grid and the row compaction, as
  functions on values, with their counting lemmas.
- `pieces.dfy` (module `Pieces`): the catalog, `Rotate`, `Fits` and the loop
  method `CanMoveTo` proved against it, the landing row, and a class `Piece`
  whose fields the constructor and `GhostPosition` work on.
- `history.dfy` (module `History`): the bounded history as functions on
  sequences: push with eviction of the oldest entry, and pop.
- `game.dfy` (module `Game`): the effect of every command, stated as a
  function on `Snapshot` values (the record `saveGameState` copies), and
  the properties proved about those functions. The class `TetrisGame` has
  the source's fields, and each of its methods is proved to have exactly
  the effect of its function.
- `input.dfy` (module `Input`): the effect of each key on the game, and the
  class `InputHandler`.

A board cell is `Empty` (0 in the source) or `Block(colour)`. A colour is
the 24-bit value of the CSS string `#rrggbb`. A shape is a matrix of
booleans, since the source uses its 0/1 entries only as truth values.
Random piece kinds are parameters. The class invariant `Valid` of
`TetrisGame` has two parts. The current state is settled: the board has 20
rows of 10 cells and no full row, both pieces are pieces in play, and the
level and drop interval agree with the lines cleared. The history holds at
most ten snapshots, each of them settled in the same sense. The no-full-row part is what
keeps the index into the score table `[0, 100, 300, 500, 800]` in range. A
locked piece spans at most four rows, so at most four rows can be full
after a lock.

An O piece hard-dropped from its spawn on the empty board stops at
`y = 18` (its lower row on row 19) and earns 2 x 18 = 36 points
(`Game.HardDropOnEmptyBoard`).

## Model

| member | source | states |
|---|---|---|
| Board.EmptyBoard | tetris-game/src/js/game-logic.js:12 | the initial board has 20 rows of 10 cells and no full row |
| Board.EmptyBoardBlocks | tetris-game/src/js/game-logic.js:12 | the initial board holds no block |
| Board.FullRows | tetris-game/src/js/game-logic.js:149 | the number of full rows is at most the number of rows, and 0 when no row is full |
| Board.Kept | tetris-game/src/js/game-logic.js:148-156 | the rows that survive a clear: as many as the rows minus the full ones, none of them full, each from the input |
| Board.FullRowsAppend | tetris-game/src/js/game-logic.js:148-156 | the full rows of two stacked parts add up |
| Board.KeptAppend | tetris-game/src/js/game-logic.js:148-156 | the clear keeps rows in order: filtering distributes over concatenation |
| Board.KeptMembers | tetris-game/src/js/game-logic.js:148-156 | a row survives exactly when it was on the board and is not full |
| Board.KeptNoFull | tetris-game/src/js/game-logic.js:148-156 | with no full row, every row survives |
| Board.KeptBlocks | tetris-game/src/js/game-logic.js:148-156 | every removed row takes exactly 10 blocks with it |
| Board.ClearedShape | tetris-game/src/js/game-logic.js:148-156 | after the clear the board still has 20 rows of 10 cells and no full row; the top rows are as many empty rows as were removed, and below them come the surviving rows in their order |
| Board.ClearedBlocks | tetris-game/src/js/game-logic.js:148-156 | the clear lowers the block count by exactly 10 per removed row |
| Board.ClearedNoFull | tetris-game/src/js/game-logic.js:148-156 | a board with no full row is left unchanged |
| Board.ClearedIdempotent | tetris-game/src/js/game-logic.js:148-156 | clearing twice is the same as clearing once |
| Board.FullRowsWithin | tetris-game/src/js/game-logic.js:161 | when every full row lies in a band of rows, at most the band's height can be cleared |
| Pieces.ShapeOf | tetris-game/src/js/tetris-pieces.js:1-58 | every catalog shape is a square matrix |
| Pieces.CatalogShapes | tetris-game/src/js/tetris-pieces.js:1-58 | I is 4 x 4, O is 2 x 2 and the rest are 3 x 3; each shape has exactly four occupied cells |
| Pieces.CatalogKinds | tetris-game/src/js/tetris-pieces.js:1-58 | the catalog lists exactly the seven kinds I, O, T, S, Z, J, L, each once |
| Pieces.Rotate | tetris-game/src/js/tetris-pieces.js:70-75 | the rotation of an h x w matrix is w x h, with rotated[i][j] == shape[h-1-j][i] |
| Pieces.RotateSquare | tetris-game/src/js/tetris-pieces.js:70-75 | rotating an n x n matrix gives an n x n matrix |
| Pieces.RotateTwice | tetris-game/src/js/tetris-pieces.js:70-75 | a half turn reads the matrix backwards in both directions |
| Pieces.RotateFour | tetris-game/src/js/tetris-pieces.js:70-75 | four rotations give back the original matrix |
| Pieces.RotateFixesO | tetris-game/src/js/tetris-pieces.js:11-16 | the O shape is a fixed point of the rotation |
| Pieces.RotatePreservesCells | tetris-game/src/js/tetris-pieces.js:70-75 | rotation keeps the number of occupied cells |
| Pieces.RotateOccupied | tetris-game/src/js/tetris-pieces.js:70-75 | a shape with an occupied cell still has one after rotation |
| Pieces.CountedOccupied | tetris-game/src/js/tetris-pieces.js:1-58 | a shape with a non-zero cell count has an occupied cell |
| Pieces.CanMoveTo | tetris-game/src/js/tetris-pieces.js:85-101 | the answer is true exactly when every occupied cell lands inside the columns, above the floor, and on an empty cell or above the top row, where the board is not looked at; the board is not changed |
| Pieces.FitsInBounds | tetris-game/src/js/tetris-pieces.js:92-93 | a position that fits keeps every occupied cell on the columns and above the floor |
| Pieces.FitsEmptyBoard | tetris-game/src/js/tetris-pieces.js:92-94 | on the empty board only the walls and the floor block a shape |
| Pieces.FitsAboveFloor | tetris-game/src/js/tetris-pieces.js:93 | a shape with an occupied cell fits only above row 20, which is why the ghost drop ends |
| Pieces.LandingRowSpec | tetris-game/src/js/tetris-pieces.js:77-83 | the landing row is at or below the start, the shape fits on every row on the way down, and it does not fit one row lower |
| Pieces.LandingRowUnique | tetris-game/src/js/tetris-pieces.js:77-83 | those three facts single out the landing row |
| Pieces.SpawnedOk | tetris-game/src/js/tetris-pieces.js:60-68 | a new piece is in play; O spawns at column 4, every other kind at column 3, and every piece on row 0 |
| Pieces.MovedOk | tetris-game/src/js/game-logic.js:71-109 | a piece moved or rotated to a place where it fits is still a piece in play |
| Pieces.Piece.constructor | tetris-game/src/js/tetris-pieces.js:60-68 | a new piece has its kind's catalog shape and colour, column floor((10 - width) / 2) and row 0 |
| Pieces.Piece.GhostPosition | tetris-game/src/js/tetris-pieces.js:77-83 | the ghost row is at or below the piece, the shape fits on every row down to it and not on the row below; it is the landing row |
| History.Newest | tetris-game/src/js/game-logic.js:479-482 | the newest entries kept: at most ten |
| History.Push | tetris-game/src/js/game-logic.js:479-482 | saving onto a history of at most ten entries keeps the newest ten of the history plus the new entry |
| History.UndoAfterPush | tetris-game/src/js/game-logic.js:479-488 | the entry popped right after a push is the pushed one, and the history is as before, minus the evicted entry when it was full |
| History.PushAllNewest | tetris-game/src/js/game-logic.js:479-482 | after any number of saves the history holds exactly the newest ten snapshots |
| History.UndoDepth | tetris-game/src/js/game-logic.js:485-488 | after a sequence of saves, the j-th undo gives back the j-th newest save, for j below ten |
| Game.SpeedMonotone | tetris-game/src/js/game-logic.js:162-163 | the level starts at 1 and never falls as lines add up; the drop interval never grows and stays between 50 and 1000 ms |
| Game.Fresh | tetris-game/src/js/game-logic.js:12-19 | a new or restarted game has score 0, level 1, a 1000 ms interval, and consistent counters |
| Game.FreshEmpty | tetris-game/src/js/game-logic.js:202-212 | a new or restarted game has no block on the board, no line cleared, and the two given kinds in play and queued |
| Game.PlacedAtMostFour | tetris-game/src/js/game-logic.js:130-142 | locking a piece into a board with no full row leaves at most four full rows, so the score-table index is in range |
| Game.AfterClearOk | tetris-game/src/js/game-logic.js:144-163 | the clear leaves a 20 x 10 board with no full row and 10 blocks fewer per row removed; lines grow by the rows removed; points are paid at the level from before the clear; pieces and timer stay; with no full row nothing changes |
| Game.AfterClearStats | tetris-game/src/js/game-logic.js:158-163 | the clear keeps level and interval consistent with the lines; score and level never fall and the interval never grows |
| Game.LockedOk | tetris-game/src/js/game-logic.js:180-182 | after a lock the state is playable, the queued piece is in play and a new piece of the given kind is queued |
| Game.LockedStats | tetris-game/src/js/game-logic.js:158-163 | a lock adds the rows it completed to the lines, keeps the counters consistent and never lowers score or level |
| Game.StepDownOk | tetris-game/src/js/game-logic.js:53-69 | a step down, moved or locked, keeps the state playable |
| Game.ShiftedOk | tetris-game/src/js/game-logic.js:71-95 | a sideways move keeps the state playable |
| Game.TurnedOk | tetris-game/src/js/game-logic.js:97-109 | a rotation keeps the state playable |
| Game.DroppedOk | tetris-game/src/js/game-logic.js:113-121 | the descent of a hard drop keeps the state playable |
| Game.HardDroppedOk | tetris-game/src/js/game-logic.js:111-128 | a hard drop keeps the state playable |
| Game.LockedSettled | tetris-game/src/js/game-logic.js:63-66 | locking a settled state (playable, counters consistent) gives a settled state |
| Game.StepDownSettled | tetris-game/src/js/game-logic.js:53-69 | a step down, moved or locked, keeps the state settled and never lowers the score |
| Game.HardDroppedSettled | tetris-game/src/js/game-logic.js:111-128 | a hard drop keeps the state settled and never lowers the score |
| Game.CommandsKeepSettled | tetris-game/src/js/game-logic.js:53-128 | every movement command keeps the counters consistent; moves and rotations keep the score, and a step down or a hard drop never lowers it |
| Game.ShiftBack | tetris-game/src/js/game-logic.js:71-95 | a move left that happened is undone by a move right, and the other way round |
| Game.TurnO | tetris-game/src/js/game-logic.js:97-109 | rotating an O piece never changes the state |
| Game.TurnFour | tetris-game/src/js/game-logic.js:97-109 | four rotations that are all accepted bring the state back to where it started |
| Game.DroppedLands | tetris-game/src/js/game-logic.js:113-121 | the hard drop stops at the landing row, fits on every row on the way, cannot fall further, and earns exactly 2 points per row |
| Game.HardDropOnEmptyBoard | tetris-game/src/js/game-logic.js:111-128 | an O piece hard-dropped from its spawn on the empty board stops at row 18, earns 36 points and clears no line |
| Game.OLandsOnFloor | tetris-game/src/js/tetris-pieces.js:77-83 | on the empty board an O piece dropped from row 0 lands on row 18 |
| Game.OOnFloorNoFullRow | tetris-game/src/js/game-logic.js:130-156 | one O piece at its spawn column on the empty board completes no row |
| Game.HistoryPushOk | tetris-game/src/js/game-logic.js:455-483 | saving a settled state keeps the history at most ten entries, each settled |
| Game.HistoryPopOk | tetris-game/src/js/game-logic.js:485-488 | popping keeps the history good and gives back a settled state |
| Game.ScanTop | tetris-game/src/js/game-logic.js:148-149 | the empty rows put on top by the scan are never full |
| Game.ScanRemove | tetris-game/src/js/game-logic.js:149-153 | removing the full row at the scan position and putting an empty row on top advances the scan by one cleared row |
| Game.ScanKeep | tetris-game/src/js/game-logic.js:148-149 | a row that is not full stays, and the scan moves one row up |
| Game.ScanStep | tetris-game/src/js/game-logic.js:148-156 | one step of the scan, full or not, keeps the scan invariant and counts the full rows |
| Game.ScanRow | tetris-game/src/js/game-logic.js:149-155 | one pass of the loop body keeps the scan invariant and makes progress, re-examining the same index after a removal |
| Game.RemoveFullRows | tetris-game/src/js/game-logic.js:144-156 | the bottom-up splice-and-unshift loop yields the cleared board and counts the full rows |
| Game.RestorePiece | tetris-game/src/js/game-logic.js:491-507 | a new piece of the saved kind, with the saved position and shape assigned, equals the saved piece |
| Game.NewPiece | tetris-game/src/js/game-logic.js:182 | a new piece of the given kind is the spawned piece of that kind, in play |
| Game.TetrisGame.constructor | tetris-game/src/js/game-logic.js:6-39 | a new game is in the fresh state, running and not paused, with one snapshot saved |
| Game.TetrisGame.Init | tetris-game/src/js/game-logic.js:32-39 | init puts two new pieces in play, sets the game running, keeps board, counters and pause, and saves a snapshot |
| Game.TetrisGame.Update | tetris-game/src/js/game-logic.js:41-51 | gravity does nothing while over or paused; otherwise it adds the elapsed time, and once the timer exceeds the interval it steps down and resets the timer |
| Game.TetrisGame.MoveDown | tetris-game/src/js/game-logic.js:53-69 | one row down when the piece fits there; otherwise a snapshot is saved, the piece locks, lines clear and the next piece spawns; the game ends when that piece does not fit |
| Game.TetrisGame.LockPiece | tetris-game/src/js/game-logic.js:63-66 | place, clear and spawn: the locked state, running only while the spawned piece fits |
| Game.TetrisGame.MoveLeft | tetris-game/src/js/game-logic.js:71-82 | the piece moves one column left exactly when it fits there; nothing else changes |
| Game.TetrisGame.MoveRight | tetris-game/src/js/game-logic.js:84-95 | the piece moves one column right exactly when it fits there; nothing else changes |
| Game.TetrisGame.Rotate | tetris-game/src/js/game-logic.js:97-109 | the shape turns clockwise exactly when the turned shape fits in place; there are no wall kicks |
| Game.TetrisGame.HardDrop | tetris-game/src/js/game-logic.js:111-128 | one snapshot is saved, the piece drops to its landing row with 2 points per row, then it locks, lines clear and the next piece spawns |
| Game.TetrisGame.Descend | tetris-game/src/js/game-logic.js:113-121 | the loop leaves the piece on its landing row with 2 points per row passed |
| Game.TetrisGame.PlacePiece | tetris-game/src/js/game-logic.js:130-142 | the piece's colour is written into exactly the cells under its occupied cells, every other cell is unchanged, and at most four rows are full |
| Game.TetrisGame.ClearLines | tetris-game/src/js/game-logic.js:144-163 | afterwards no row is full and the returned count is the number of full rows before; the new state is the clear of the old one: points from the table times the old level, lines added, then level and interval recomputed, all unchanged when nothing was full |
| Game.TetrisGame.SpawnNewPiece | tetris-game/src/js/game-logic.js:180-193 | the queued piece comes into play and a new one is queued; the game stops exactly when the promoted piece does not fit |
| Game.TetrisGame.GameOver | tetris-game/src/js/game-logic.js:195-196 | the game stops running |
| Game.TetrisGame.Restart | tetris-game/src/js/game-logic.js:202-214 | the game is back in the fresh state, running and unpaused; the history is kept and one more snapshot is saved |
| Game.TetrisGame.TogglePause | tetris-game/src/js/game-logic.js:216-218 | the paused flag flips, whatever the state of the game |
| Game.TetrisGame.SaveGameState | tetris-game/src/js/game-logic.js:455-483 | a copy of the state is appended and the oldest entry dropped beyond ten; the state is unchanged |
| Game.TetrisGame.Load | tetris-game/src/js/game-logic.js:489-513 | every saved field is put back; history and flags are untouched |
| Game.TetrisGame.Undo | tetris-game/src/js/game-logic.js:485-520 | with an empty history, false and no change; otherwise the newest snapshot is popped and restored verbatim and true is returned; the running and paused flags never change |
| Input.PressedOk | tetris-game/src/js/input-handler.js:71-105 | every key press, undo and restart included, leaves a settled state (playable, counters consistent) and a good history |
| Input.PressedScore | tetris-game/src/js/input-handler.js:79-81 | only undo and restart can lower the score, and a soft drop always raises it |
| Input.LockSaves | tetris-game/src/js/input-handler.js:79-88 | a key press that locks a piece saves the state from before the press |
| Input.UndoAfterSave | tetris-game/src/js/game-logic.js:479-488 | undo in a session whose newest save is an earlier state gives that state back, with the earlier history minus the entry the save evicted |
| Input.UndoAfterLock | tetris-game/src/js/input-handler.js:79-99 | undo right after a lock restores the state from before the key press, soft-drop point included, but not the running flag; the history is as before, minus its oldest entry when the save evicted one |
| Input.InputHandler.constructor | tetris-game/src/js/input-handler.js:2-4 | a new handler holds no key |
| Input.InputHandler.HandleKeyDown | tetris-game/src/js/input-handler.js:39-56 | while the game is over every key but R is ignored; a key already held is ignored; otherwise the key is held and its command runs |
| Input.InputHandler.HandleKeyUp | tetris-game/src/js/input-handler.js:58-60 | the key is no longer held |
| Input.InputHandler.Focus | tetris-game/src/js/input-handler.js:33-34 | regaining focus forgets every held key |
| Input.InputHandler.HandleKeyPress | tetris-game/src/js/input-handler.js:71-105 | each key runs its command: arrows move, rotate or soft-drop, Space hard-drops, P pauses, R restarts only a game that is over, U undoes, M and other keys leave the game alone |
| Input.InputHandler.SoftDrop | tetris-game/src/js/input-handler.js:79-81 | moveDown, then one point, whether the piece moved or locked |

## Left out

- Drawing, the page updates, the canvas set-up and the game-over dialog are rendering only, and are not modelled.
- The sounds and the mute key do not affect the game, and are not modelled.
- The fireworks of a line clear and the list of cleared row indices that feeds them are not modelled. They are floating-point animation driven by `Math.random`.
- The random choice of a piece kind is not modelled. Each call that creates a piece takes the kind as a parameter.
- The animation-frame loop that calls `update` is not modelled. The elapsed time is a natural-number parameter.
- Key auto-repeat timers are not modelled, since they are timers outside the game state. The restart, undo, mute and volume buttons are not modelled either. A button press runs `restart` or `undo` directly, which are modelled.
- Null pieces are not modelled. Pieces are never null between commands, so a snapshot always holds both pieces.
- Game.TetrisGame: the current and next pieces are held as values in the game, so an update in place is a replacement of the value. The source never shares its piece objects, so no aliasing is lost.
- Game.TetrisGame.Valid: says nothing about how the score relates to the lines, since hard and soft drops add points of their own.
- Input.Key: every key code the handler does not react to is one value `Other`, so such keys share one held entry where the source keeps one per code. This does not affect the game.
- Pieces.PieceOk: requires a square shape with an occupied cell, not exactly four cells. The four-cell count is proved of the catalog (`Pieces.CatalogShapes`) and of rotation (`Pieces.RotatePreservesCells`).
- Game.TetrisGame.ClearLines: works on the board as a value. The in-place `splice`/`unshift` become the value operations of `Game.ScanRow`, and the loop stays the same.
- Colours are the 24-bit values of the CSS strings, not the strings themselves.
