/** The keyboard handler of input-handler.js, reduced to what it does to the
    game: which key runs which command, the guard that ignores every key but
    R once the game is over, the set of keys held down, and the one point a
    soft drop earns on top of what moveDown does. */
module Input {
  import opened Pieces
  import opened Game
  import History

  /** The event codes the handler reacts to; Other stands for every other
      key. */
  datatype Key = ArrowLeft | ArrowRight | ArrowDown | ArrowUp | Space | KeyP | KeyR | KeyU | KeyM | Other

  /** What a key press can see and change of the game: the saved state, the
      running and paused flags, and the undo history. */
  datatype Session = Session(snap: Snapshot, running: bool, paused: bool, history: seq<Snapshot>)

  predicate SessionOk(t: Session) {
    Settled(t.snap) && HistoryOk(t.history)
  }

  /** The random choices a key press may lead to: the kind queued when a
      piece locks, and the two kinds a restarted game begins with. */
  datatype Choices = Choices(kind: Kind, first: Kind, second: Kind)

  /** handleKeyPress: the effect on the session of the command each key
      runs. A soft drop is moveDown followed by one point, whether the piece
      moved or locked; R restarts only a game that is over; M (mute) and
      every other key leave the game alone. */
  function Pressed(t: Session, k: Key, c: Choices): Session
    requires SessionOk(t)
  {
    var s := t.snap;
    match k
    case ArrowLeft => t.(snap := Shifted(s, -1))
    case ArrowRight => t.(snap := Shifted(s, 1))
    case ArrowDown =>
      StepDownOk(s, c.kind);
      var n := StepDown(s, c.kind);
      Session(n.(score := n.score + 1), t.running && (CanFall(s) || SpawnFits(n)),
              t.paused, HistoryAfterStep(t.history, s))
    case ArrowUp => t.(snap := Turned(s))
    case Space =>
      HardDroppedOk(s, c.kind);
      var n := HardDropped(s, c.kind);
      Session(n, t.running && SpawnFits(n), t.paused, History.Push(t.history, s))
    case KeyP => t.(paused := !t.paused)
    case KeyR =>
      if t.running then t
      else
        var f := Fresh(c.first, c.second);
        Session(f, true, false, History.Push(t.history, f))
    case KeyU =>
      if t.history == [] then t
      else Session(t.history[|t.history| - 1], t.running, t.paused, t.history[..|t.history| - 1])
    case KeyM => t
    case Other => t
  }

  /** Every key press leaves a session the game can go on from, with
      consistent counters, undo included. */
  lemma PressedOk(t: Session, k: Key, c: Choices)
    requires SessionOk(t)
    ensures SessionOk(Pressed(t, k, c))
  {
    var s := t.snap;
    match k
    case ArrowLeft => ShiftedOk(s, -1);
    case ArrowRight => ShiftedOk(s, 1);
    case ArrowUp => TurnedOk(s);
    case ArrowDown =>
      StepDownSettled(s, c.kind);
      if !CanFall(s) {
        HistoryPushOk(t.history, s);
      }
    case Space =>
      HardDroppedSettled(s, c.kind);
      HistoryPushOk(t.history, s);
    case KeyR =>
      if !t.running {
        HistoryPushOk(t.history, Fresh(c.first, c.second));
      }
    case KeyU =>
      if t.history != [] {
        HistoryPopOk(t.history);
      }
    case KeyP =>
    case KeyM =>
    case Other =>
  }

  /** Only undo and restart can lower the score, and a soft drop always
      raises it. */
  lemma PressedScore(t: Session, k: Key, c: Choices)
    requires SessionOk(t)
    ensures k != KeyU && k != KeyR ==> t.snap.score <= Pressed(t, k, c).snap.score
    ensures k == ArrowDown ==> t.snap.score < Pressed(t, k, c).snap.score
  {
    StepDownSettled(t.snap, c.kind);
    HardDroppedSettled(t.snap, c.kind);
  }

  /** A key press that locks a piece (a hard drop, or a soft drop the piece
      could not make) saves the state from before the press, soft-drop point
      excluded, and keeps the paused flag. */
  lemma LockSaves(t: Session, k: Key, c: Choices)
    requires SessionOk(t)
    requires k == Space || (k == ArrowDown && !CanFall(t.snap))
    ensures SessionOk(Pressed(t, k, c))
    ensures Pressed(t, k, c).history == History.Push(t.history, t.snap)
    ensures Pressed(t, k, c).paused == t.paused
  {
    PressedOk(t, k, c);
  }

  /** Undo right after a key press that locked a piece puts back the state
      from before the press, and the history as it was, minus its oldest
      entry when the save evicted one. The running flag is not restored: a
      lock that ended the game leaves it over. */
  lemma UndoAfterLock(t: Session, k: Key, c: Choices)
    requires SessionOk(t)
    requires k == Space || (k == ArrowDown && !CanFall(t.snap))
    ensures SessionOk(Pressed(t, k, c))
    ensures var u := (LockSaves(t, k, c); Pressed(Pressed(t, k, c), KeyU, c));
      && u.snap == t.snap
      && u.history == (if |t.history| < History.Capacity then t.history else t.history[1..])
      && u.running == Pressed(t, k, c).running && u.paused == t.paused
  {
    LockSaves(t, k, c);
    UndoAfterSave(t, Pressed(t, k, c), c);
  }

  /** Undo in a session p whose newest save is the state of session t gives
      that state back, with t's history minus the entry the save evicted. */
  lemma UndoAfterSave(t: Session, p: Session, c: Choices)
    requires HistoryOk(t.history) && SessionOk(p)
    requires p.history == History.Push(t.history, t.snap)
    ensures var u := Pressed(p, KeyU, c);
      && u.snap == t.snap
      && u.history == (if |t.history| < History.Capacity then t.history else t.history[1..])
      && u.running == p.running && u.paused == p.paused
  {
    History.UndoAfterPush(t.history, t.snap);
  }

  /** The handler: the game it drives, and the keys currently held down. */
  class InputHandler {
    const game: TetrisGame
    var held: set<Key>

    /** The part of the game a key press works on. */
    function Observe(): Session
      reads game
    {
      Session(game.Snap(), game.gameRunning, game.paused, game.gameStates)
    }

    /** A handler starts with no key held. */
    constructor (game: TetrisGame)
      ensures this.game == game && held == {}
    {
      this.game := game;
      held := {};
    }

    /** handleKeyDown: ignored while the game is over unless the key is R,
        and ignored while the key is still held from an earlier press;
        otherwise the key is marked held and its command runs. */
    method HandleKeyDown(k: Key, c: Choices)
      requires game.Valid()
      modifies this`held, game
      ensures game.Valid()
      ensures (!old(game.gameRunning) && k != KeyR) || k in old(held) ==>
                Observe() == old(Observe()) && held == old(held)
      ensures (old(game.gameRunning) || k == KeyR) && k !in old(held) ==>
                Observe() == Pressed(old(Observe()), k, c) && held == old(held) + {k}
    {
      if !game.gameRunning && k != KeyR {
        return;
      }
      if k !in held {
        held := held + {k};
        HandleKeyPress(k, c);
      }
    }

    /** handleKeyUp: the key is no longer held. */
    method HandleKeyUp(k: Key)
      modifies this`held
      ensures held == old(held) - {k}
    {
      held := held - {k};
    }

    /** The window regaining focus forgets every held key. */
    method Focus()
      modifies this`held
      ensures held == {}
    {
      held := {};
    }

    /** handleKeyPress: run the command of the key. */
    method HandleKeyPress(k: Key, c: Choices)
      requires game.Valid()
      modifies game
      ensures game.Valid()
      ensures Observe() == Pressed(old(Observe()), k, c)
    {
      match k
      case ArrowLeft => game.MoveLeft();
      case ArrowRight => game.MoveRight();
      case ArrowDown => SoftDrop(c);
      case ArrowUp => game.Rotate();
      case Space => game.HardDrop(c.kind);
      case KeyP => game.TogglePause();
      case KeyR =>
        if !game.gameRunning {
          game.Restart(c.first, c.second);
        }
      case KeyU =>
        var _ := game.Undo();
      case KeyM =>
      case Other =>
    }

    /** The down arrow: moveDown, then one point. */
    method SoftDrop(c: Choices)
      requires game.Valid()
      modifies game
      ensures game.Valid()
      ensures Observe() == Pressed(old(Observe()), ArrowDown, c)
    {
      ghost var t := Observe();
      game.MoveDown(c.kind);
      ghost var moved := game.Snap();
      assert game.Valid();
      game.score := game.score + 1;
      assert game.Snap() == moved.(score := moved.score + 1);
      assert Observe() == Pressed(t, ArrowDown, c);
    }
  }
}
