/** The mutable game (crates/tetris-core/src/core/game_state.rs), proved against GameModel. */
module GameStateModule {
  import opened Types
  import opened Grids
  import opened Pieces
  import opened BoardModule
  import opened QueueModule
  import opened Scoring
  import opened GameModel
  import opened GameInvariant

  class GameState {
    const board: Board
    var active: Option<Tetromino>
    var hold: Option<PieceKind>
    var nextQueue: seq<PieceKind>
    const pieceQueue: PieceQueue
    var lastEvent: Option<LockEvent>
    var ids: Ids
    var tally: Tally
    var timers: Timers
    var flags: Flags

    /** Everything the game owns; the parts never change identity. */
    ghost function Footprint(): set<object> {
      {this, board.cells, pieceQueue, pieceQueue.bag, pieceQueue.rng}
    }

    /** The parts are well formed; holds even in the middle of a method. */
    ghost predicate Sound()
      reads Footprint()
    {
      board.Valid() && pieceQueue.Valid() && board.cells as object != pieceQueue.bag
    }

    ghost predicate Valid()
      reads Footprint()
    {
      Sound() && Inv(Abs())
    }

    ghost function Abs(): Game
      requires Sound()
      reads Footprint()
    {
      Game(board.Grid(), active, hold, nextQueue, pieceQueue.Abs(), lastEvent, ids, tally, timers, flags)
    }

    constructor (seed: u32)
      ensures Valid() && fresh(Footprint())
      ensures Abs() == NewGame(seed)
    {
      board := new Board();
      pieceQueue := new PieceQueue(seed);
      new;
      Open(seed);
    }

    /** An independent copy. */
    method Clone() returns (copy: GameState)
      requires Valid()
      ensures copy.Valid() && fresh(copy) && fresh(copy.Footprint())
      ensures copy.Abs() == Abs()
    {
      hide Sound, Inv, NewGame, Abs;
      copy := new GameState(0);
      assert forall o :: o in copy.Footprint() ==> fresh(o);
      assert forall o :: o in Footprint() ==> old(allocated(o));
      copy.AssignFrom(this);
    }

    /** Overwrites every field with another game's. */
    method AssignFrom(other: GameState)
      requires Sound() && other.Valid() && Footprint() !! other.Footprint()
      modifies Footprint()
      ensures Valid() && Abs() == old(other.Abs())
    {
      hide Board.Grid, PieceQueue.Abs, PieceQueue.Valid, Inv, QueueOk, Preview, NewQueue, EmptyGrid, RowsOf;
      board.CopyFrom(other.board);
      pieceQueue.CopyFrom(other.pieceQueue);
      active, hold, nextQueue, lastEvent := other.active, other.hold, other.nextQueue, other.lastEvent;
      ids, tally, timers, flags := other.ids, other.tally, other.timers, other.flags;
    }

    method Start()
      requires Valid()
      modifies Footprint()
      ensures Valid() && Abs() == GameModel.Start(old(Abs()))
    {
      hide Board.Grid, PieceQueue.Abs, PieceQueue.Valid, Inv, Spawn, Fits;
      StartInv(Abs());
      if flags.started { return; }
      flags := flags.(started := true);
      SpawnPiece();
    }

    /** Are all the piece's cells free? */
    method PieceIsValid(p: Tetromino) returns (ok: bool)
      requires Sound()
      ensures ok == Fits(board.Grid(), p)
    {
      hide Board.Grid, PieceQueue.Abs, PieceQueue.Valid, OneOfEach, Shape;
      var at := p.Cells();
      var i := 0;
      while i < 4
        invariant 0 <= i <= 4
        invariant forall k :: 0 <= k < i ==> Free(board.Grid(), at[k].0, at[k].1)
      {
        var free := board.IsValid(at[i].0, at[i].1);
        if !free { return false; }
        i := i + 1;
      }
      ok := true;
    }

    method PieceIsGrounded(p: Tetromino) returns (grounded: bool)
      requires Sound()
      ensures grounded == Grounded(board.Grid(), p)
    {
      hide Board.Grid, PieceQueue.Abs, PieceQueue.Valid, OneOfEach, Shape;
      var at := p.Cells();
      var i := 0;
      while i < 4
        invariant 0 <= i <= 4
        invariant forall k :: 0 <= k < i ==> Free(board.Grid(), at[k].0, at[k].1 + 1)
      {
        var free := board.IsValid(at[i].0, at[i].1 + 1);
        if !free { return true; }
        i := i + 1;
      }
      grounded := false;
    }

    method SpawnPiece()
      requires Sound()
      modifies Footprint()
      ensures Sound() && Abs() == Spawn(old(Abs()))
    {
      hide Fits, Front, Preview, Drawn, QueueOk;
      var kind := pieceQueue.Peek();
      var piece := Spawned(kind);
      var ok := PieceIsValid(piece);
      if !ok {
        flags := flags.(gameOver := true);
        return;
      }
      var drawn := pieceQueue.Draw();
      active := Some(piece);
      ids := ids.(piece := WrappingAdd(ids.piece, 1), active := WrappingAdd(ids.active, 1), step := 0);
      flags := flags.(canHold := true, rotatedLast := false);
      timers := timers.(lock := 0, resets := 0);
      nextQueue := pieceQueue.Peek5();
    }

    method IsGrounded() returns (grounded: bool)
      requires Sound()
      ensures grounded == OnGround(Abs())
    {
      if active.None? { return false; }
      grounded := PieceIsGrounded(active.value);
    }

    method HandleLockReset()
      requires Sound()
      modifies this
      ensures Sound() && Abs() == ResetLock(old(Abs()))
    {
      hide Grounded, QueueOk;
      var grounded := IsGrounded();
      if !grounded {
        timers := timers.(lock := 0, resets := 0);
        return;
      }
      if timers.resets < LOCK_RESET_LIMIT {
        timers := timers.(lock := 0, resets := timers.resets + 1);
      }
    }

    method TryMove(dx: int, dy: int) returns (moved: bool)
      requires Sound()
      modifies this
      ensures Sound() && (Abs(), moved) == GameModel.TryMove(old(Abs()), dx, dy)
    {
      hide Board.Grid, PieceQueue.Abs, PieceQueue.Valid, Fits, Grounded, QueueOk;
      if active.None? { return false; }
      var valid := PieceIsValid(active.value.Moved(dx, dy));
      if !valid { return false; }
      active := Some(active.value.Moved(dx, dy));
      HandleLockReset();
      if dx != 0 { flags := flags.(rotatedLast := false); }
      moved := true;
    }

    /** Tries the kicks in order and takes the first that fits. */
    method TryRotate(clockwise: bool) returns (turned: bool)
      requires Sound()
      modifies this
      ensures Sound() && (Abs(), turned) == TryTurn(old(Abs()), clockwise)
    {
      hide Board.Grid, PieceQueue.Abs, PieceQueue.Valid, Fits, Grounded, QueueOk, Kicks, Kicked;
      if active.None? || active.value.kind == O { return false; }
      var p := active.value;
      var k := 0;
      while k < 5
        invariant 0 <= k <= 5
        invariant FirstKick(board.Grid(), p, clockwise, k) == FirstKick(board.Grid(), p, clockwise, 0)
        invariant Abs() == old(Abs())
      {
        var candidate := Kicked(p, clockwise, k);
        var valid := PieceIsValid(candidate);
        if valid {
          active := Some(candidate);
          HandleLockReset();
          flags := flags.(rotatedLast := true);
          return true;
        }
        k := k + 1;
      }
      turned := false;
    }

    /** Rows the active piece can still fall. */
    method FallDistance(p: Tetromino) returns (distance: nat)
      requires Sound()
      ensures distance == DropDistance(board.Grid(), p)
    {
      hide Board.Grid, PieceQueue.Abs, PieceQueue.Valid, Fits, QueueOk;
      distance := 0;
      var canDrop := PieceIsValid(p.Moved(0, 1));
      assert p.Moved(0, 0) == p;
      while canDrop
        invariant canDrop == Fits(board.Grid(), p.Moved(0, distance + 1))
        invariant DropDistance(board.Grid(), p) == distance + DropDistance(board.Grid(), p.Moved(0, distance))
        decreases DropDistance(board.Grid(), p) - distance, canDrop
      {
        assert p.Moved(0, distance).Moved(0, 1) == p.Moved(0, distance + 1);
        distance := distance + 1;
        canDrop := PieceIsValid(p.Moved(0, distance + 1));
        assert p.Moved(0, distance).Moved(0, 1) == p.Moved(0, distance + 1);
      }
      assert p.Moved(0, distance).Moved(0, 1) == p.Moved(0, distance + 1);
    }

    method HardDrop() returns (points: u32)
      requires Valid()
      modifies Footprint()
      ensures Valid() && (Abs(), points) == Dropped(old(Abs()))
    {
      hide Board.Grid, PieceQueue.Abs, PieceQueue.Valid, Fits, QueueOk, Inv;
      hide LockDown, FixedBoard, FullRows, DropDistance;
      DropInv(Abs());
      if active.None? { return 0; }
      LandedLock(Abs());
      var distance := FallDistance(active.value);
      if distance > 0 { active := Some(active.value.Moved(0, distance)); }
      LockPiece();
      points := DropScore(if distance > U32_MAX then U32_MAX else distance, true);
    }

    method GhostY() returns (y: Option<int>)
      requires Sound()
      ensures y == GameModel.GhostY(Abs())
    {
      hide Board.Grid, PieceQueue.Abs, PieceQueue.Valid, DropDistance;
      if active.None? { return None; }
      var distance := FallDistance(active.value);
      y := Some(active.value.y + distance);
    }

    method Hold() returns (ok: bool)
      requires Valid()
      modifies Footprint()
      ensures Valid() && (Abs(), ok) == Held(old(Abs()))
    {
      hide Board.Grid, PieceQueue.Abs, PieceQueue.Valid, Fits, QueueOk, Inv, Spawn;
      HoldInv(Abs());
      if !flags.canHold { return false; }
      if active.None? { return false; }
      var currentKind := active.value.kind;
      match hold {
        case Some(holdKind) =>
          active := Some(Spawned(holdKind));
          hold := Some(currentKind);
          ids := ids.(active := WrappingAdd(ids.active, 1), step := 0);
          var valid := PieceIsValid(active.value);
          if !valid {
            flags := flags.(gameOver := true);
            active := None;
            return false;
          }
        case None =>
          hold := Some(currentKind);
          SpawnPiece();
      }
      flags := flags.(canHold := false, rotatedLast := false);
      timers := timers.(lock := 0, resets := 0);
      ok := true;
    }

    method LockPiece()
      requires Sound()
      requires active.Some? ==> |FullRows(FixedBoard(Abs()))| <= 4
      requires tally.combo <= I32_MAX
      modifies Footprint()
      ensures Sound() && Abs() == LockDown(old(Abs()))
    {
      hide Board.Grid, PieceQueue.Abs, PieceQueue.Valid, QueueOk, FixedBoard, FullRows, Settled, Spawn;
      if active.None? { return; }
      Settle();
      if !flags.gameOver { SpawnPiece(); }
    }

    /** The lock up to the event: fix, classify, clear, score. */
    method Settle()
      requires Sound() && active.Some?
      requires |FullRows(FixedBoard(Abs()))| <= 4
      requires tally.combo <= I32_MAX
      modifies Footprint()
      ensures Sound() && Abs() == Settled(old(Abs()))
    {
      hide Sound, FixedBoard, LockSpin, FixedGame, Cleared, Settled, FullRows, Fits;
      SettledInTwo(Abs());
      var locked, tspin := FixAndClassify();
      ClearAndScore(locked, tspin);
    }

    /** Fixes the piece where it is, if it fits, and classes a T by its corners. */
    method FixAndClassify() returns (locked: bool, tspin: TSpinKind)
      requires Sound() && active.Some?
      modifies Footprint()
      ensures Sound() && Abs() == FixedGame(old(Abs()))
      ensures locked == Fits(old(Abs()).board, old(Abs()).active.value) && tspin == LockSpin(old(Abs()))
    {
      hide Board.Grid, PieceQueue.Abs, PieceQueue.Valid, Fits, QueueOk, TSpin, Fixed;
      var piece := active.value;
      locked := board.LockPiece(piece);
      timers := timers.(flash := LANDING_FLASH_MS);
      active := None;
      tspin := NoSpin;
      if locked && piece.kind == T {
        tspin := DetectTSpin(piece);
      }
    }

    /** Removes the full rows, pays for them and leaves the event. */
    method ClearAndScore(locked: bool, tspin: TSpinKind)
      requires Sound() && |FullRows(Abs().board)| <= 4 && tally.combo <= I32_MAX
      modifies Footprint()
      ensures Sound() && Abs() == Cleared(old(Abs()), locked, tspin)
    {
      hide Board.Grid, PieceQueue.Abs, PieceQueue.Valid, QueueOk, Compact, FullRows, Scored;
      CompactGrid(Abs().board);
      var cleared := board.ClearFullRows();
      if locked || |cleared| > 0 {
        ids := ids.(board := WrappingAdd(ids.board, 1));
      }
      var points := ApplyLineClear(|cleared|, tspin);
      var reported := if |cleared| > 0 && tspin != NoSpin then Some(tspin) else None;
      lastEvent := Some(LockEvent(true, |cleared|, points, reported, tally.combo, tally.backToBack));
    }

    method ApplyLineClear(linesCleared: nat, tspin: TSpinKind) returns (points: u32)
      requires Sound() && linesCleared <= HEIGHT && tally.combo <= I32_MAX
      modifies this
      ensures Sound()
      ensures var (tally, reported) := Scored(old(Abs()).tally, linesCleared, tspin);
        && points == reported
        && Abs() == old(Abs()).(tally := tally,
             timers := if linesCleared == 0 then old(Abs()).timers
                       else old(Abs()).timers.(lineClear := LINE_CLEAR_PAUSE_MS, flash := LANDING_FLASH_MS))
    {
      hide QueueOk, Score, TSpinScore;
      if linesCleared == 0 {
        var tspinPoints := if tspin == NoSpin then 0 else TSpinScore(tspin, 0, tally.level);
        tally := tally.(combo := -1, backToBack := false, score := SaturatingAdd(tally.score, tspinPoints));
        return 0;
      }
      var combo := if tally.combo >= I32_MAX then I32_MAX else tally.combo + 1;
      var result := Score(linesCleared, tally.level, tspin, combo, tally.backToBack);
      tally := tally.(combo := combo, lines := SaturatingAdd(tally.lines, linesCleared));
      tally := tally.(level := tally.lines / 10, backToBack := result.qualifiesForB2b);
      tally := tally.(score := SaturatingAdd(tally.score, result.total));
      timers := timers.(lineClear := LINE_CLEAR_PAUSE_MS, flash := LANDING_FLASH_MS);
      points := result.lineClearScore;
    }

    /** How many of the listed offsets from the piece are blocked. */
    method CountBlocked(piece: Tetromino, corners: seq<(int, int)>) returns (n: nat)
      requires Sound()
      ensures n == BlockedAmong(board.Grid(), piece, corners)
    {
      n := 0;
      var i := 0;
      while i < |corners|
        invariant 0 <= i <= |corners|
        invariant n + BlockedAmong(board.Grid(), piece, corners[i..]) == BlockedAmong(board.Grid(), piece, corners)
      {
        var free := board.IsValid(piece.x + corners[i].0, piece.y + corners[i].1);
        if !free { n := n + 1; }
        i := i + 1;
      }
    }

    method DetectTSpin(piece: Tetromino) returns (kind: TSpinKind)
      requires Sound()
      ensures kind == TSpin(board.Grid(), piece, flags.rotatedLast)
    {
      hide Board.Grid, PieceQueue.Abs, PieceQueue.Valid, OneOfEach, BlockedAmong;
      if !flags.rotatedLast { return NoSpin; }
      var filled := CountBlocked(piece, [(0, 0), (2, 0), (0, 2), (2, 2)]);
      AmongFour(board.Grid(), piece);
      if filled < 3 { return NoSpin; }
      var front :=
        match piece.rotation
        case North => [(0, 0), (2, 0)]
        case East => [(2, 0), (2, 2)]
        case South => [(0, 2), (2, 2)]
        case West => [(0, 0), (0, 2)];
      AmongTwo(board.Grid(), piece, front[0], front[1]);
      var frontFilled := CountBlocked(piece, front);
      kind := if frontFilled == 2 then Full else Mini;
    }

    /** Landing flash, step counter and line-clear pause. */
    method RunClocks(elapsed: u32) returns (pausing: bool)
      requires Sound()
      modifies this
      ensures Sound() && Abs() == Clocks(old(Abs()), elapsed)
      ensures pausing == (timers.lineClear > 0)
    {
      hide Board.Grid, PieceQueue.Abs, PieceQueue.Valid, QueueOk;
      pausing := false;
      if timers.flash > 0 { timers := timers.(flash := SaturatingSub(timers.flash, elapsed)); }
      if active.Some? { ids := ids.(step := WrappingAdd(ids.step, 1)); }
      if timers.lineClear > 0 {
        timers := timers.(lineClear := SaturatingSub(timers.lineClear, elapsed));
        pausing := timers.lineClear > 0;
      }
    }

    /** Soft-drop activation and timeout. */
    method RunSoftDrop(elapsed: u32, softDrop: bool)
      requires Sound()
      modifies this
      ensures Sound() && Abs() == SoftDropClock(old(Abs()), elapsed, softDrop)
    {
      hide Board.Grid, PieceQueue.Abs, PieceQueue.Valid, QueueOk;
      if softDrop {
        flags := flags.(softDropping := true);
        timers := timers.(softDrop := SOFT_DROP_GRACE_MS);
      }
      if flags.softDropping && timers.softDrop > 0 {
        timers := timers.(softDrop := SaturatingSub(timers.softDrop, elapsed));
        if timers.softDrop == 0 { flags := flags.(softDropping := false); }
      }
    }

    /** Lock delay at the end of a tick. */
    method RunLockDelay(elapsed: u32) returns (locked: bool)
      requires Valid()
      modifies Footprint()
      ensures Sound() && (Abs(), locked) == LockDelay(old(Abs()), elapsed)
    {
      hide Board.Grid, PieceQueue.Abs, PieceQueue.Valid, Fits, Grounded, QueueOk, Inv, LockDown, FixedBoard, FullRows;
      ghost var s := Abs();
      locked := false;
      var grounded := IsGrounded();
      if grounded {
        timers := timers.(lock := SaturatingAdd(timers.lock, elapsed));
        if timers.lock >= LOCK_DELAY_MS {
          timers := timers.(lock := 0, drop := 0);
          LockReady(s, Abs());
          LockPiece();
          locked := true;
        }
      } else {
        timers := timers.(lock := 0, resets := 0);
      }
    }

    method Tick(elapsed: u32, softDrop: bool) returns (changed: bool)
      requires Valid()
      modifies Footprint()
      ensures Valid() && (Abs(), changed) == GameModel.Tick(old(Abs()), elapsed, softDrop)
    {
      hide Board.Grid, PieceQueue.Abs, PieceQueue.Valid, QueueOk, Inv, Clocks, SoftDropClock, LockDelay, Gravity;
      ghost var s := Abs();
      TickInv(s, elapsed, softDrop);
      if flags.paused || flags.gameOver || !flags.started { return false; }
      var pausing := RunClocks(elapsed);
      if pausing { return false; }
      if active.None? { return false; }
      RunSoftDrop(elapsed, softDrop);
      var interval := DropIntervalNow();
      timers := timers.(drop := SaturatingAdd(timers.drop, elapsed));
      ClocksInv(s, elapsed, softDrop);
      GravityInv(Abs(), interval);
      changed := Fall(interval);
      var locked := RunLockDelay(elapsed);
      changed := changed || locked;
    }

    function DropIntervalNow(): (ms: u32)
      reads this
      ensures 12 <= ms <= 1000
    {
      var base := DropIntervalMs(tally.level);
      if flags.softDropping then base / SOFT_DROP_MULTIPLIER else base
    }

    /** Gravity: one row for each interval the drop timer holds. */
    method Fall(interval: u32) returns (changed: bool)
      requires Sound() && interval > 0
      modifies this
      ensures Sound() && (Abs(), changed) == Gravity(old(Abs()), interval)
    {
      hide Board.Grid, PieceQueue.Abs, PieceQueue.Valid, Fits, Grounded, QueueOk;
      changed := false;
      while timers.drop >= interval
        invariant Sound()
        invariant Gravity(old(Abs()), interval) ==
          (Gravity(Abs(), interval).0, changed || Gravity(Abs(), interval).1)
        decreases timers.drop
      {
        ghost var s := Abs();
        timers := timers.(drop := timers.drop - interval);
        MoveKeepsTimer(Abs(), 0, 1);
        var moved := TryMove(0, 1);
        if !moved { continue; }
        changed := true;
      }
    }

    method TakeLastEvent() returns (event: Option<LockEvent>)
      requires Valid()
      modifies this
      ensures Valid() && event == old(lastEvent)
      ensures Abs() == old(Abs()).(lastEvent := None)
    {
      hide QueueOk, Inv;
      EventIrrelevant(Abs());
      event := lastEvent;
      lastEvent := None;
    }

    /** The rotate flag is cleared before the lock and the drop score added after it. */
    method HardDropAction()
      requires Valid()
      modifies Footprint()
      ensures Sound() && Abs() == HardDropped(old(Abs()))
    {
      hide Board.Grid, PieceQueue.Abs, PieceQueue.Valid, QueueOk, Inv, Dropped;
      ghost var s := Abs();
      flags := flags.(rotatedLast := false);
      DropReady(s, Abs());
      var dropScore := HardDrop();
      tally := tally.(score := SaturatingAdd(tally.score, dropScore));
    }

    method SoftDropAction() returns (moved: bool)
      requires Sound()
      modifies this
      ensures Sound() && moved == GameModel.TryMove(old(Abs()), 0, 1).1
      ensures Abs() == AfterSoftDrop(GameModel.TryMove(old(Abs()), 0, 1).0, moved)
    {
      hide Board.Grid, PieceQueue.Abs, PieceQueue.Valid, QueueOk, GameModel.TryMove;
      moved := TryMove(0, 1);
      if moved { tally := tally.(score := SaturatingAdd(tally.score, DropScore(1, false))); }
      flags := flags.(softDropping := true, rotatedLast := false);
      timers := timers.(softDrop := SOFT_DROP_GRACE_MS);
    }

    method ApplyAction(action: GameAction) returns (ok: bool)
      requires Valid()
      modifies Footprint()
      ensures Valid() && (Abs(), ok) == Apply(old(Abs()), action)
    {
      hide Board.Grid, PieceQueue.Valid, Fits, QueueOk, Inv;
      hide GameModel.TryMove, TryTurn, Held, HardDropped, AfterSoftDrop, RestartWith;
      ghost var s := Abs();
      ApplyInv(s, action);
      if flags.gameOver && action != Restart { return false; }
      if flags.paused && action != Pause && action != Restart { return false; }
      match action {
        case MoveLeft => ok := TryMove(-1, 0);
        case MoveRight => ok := TryMove(1, 0);
        case SoftDrop =>
          ok := SoftDropAction();
        case HardDrop =>
          HardDropAction();
          ok := true;
        case RotateCw => ok := TryRotate(true);
        case RotateCcw => ok := TryRotate(false);
        case Hold => ok := Hold();
        case Pause =>
          flags := flags.(paused := !flags.paused);
          if flags.paused {
            flags := flags.(softDropping := false);
            timers := timers.(softDrop := 0);
          }
          ok := true;
        case Restart =>
          ok := RestartWithSeed(pieceQueue.rng.state);
      }
    }

    /** `*self = Self::new(seed)`. */
    method Renew(seed: u32)
      requires Sound()
      modifies Footprint()
      ensures Sound() && Abs() == NewGame(seed)
    {
      hide Board.Grid, PieceQueue.Abs, PieceQueue.Valid, QueueOk, Preview, NewQueue, EmptyGrid, RowsOf;
      board.Clear();
      pieceQueue.Reset(seed);
      nextQueue := pieceQueue.Peek5();
      active, hold, lastEvent := None, None, None;
      ids, tally := Ids(0, 0, 0, 0, 0), Tally(0, 0, 0, -1, false);
      timers, flags := Timers(0, 0, 0, 0, 0, 0), Flags(false, false, false, true, false, false);
    }

    /** Renewed, the game keeps what every reachable game keeps. */
    method Open(seed: u32)
      requires Sound()
      modifies Footprint()
      ensures Valid() && Abs() == NewGame(seed)
    {
      hide Sound, Abs, Inv, NewGame;
      Renew(seed);
      NewGameInv(seed);
    }

    method RestartWithSeed(seed: u32) returns (ok: bool)
      requires Sound()
      modifies Footprint()
      ensures Valid() && ok && Abs() == RestartWith(old(Abs()), seed)
    {
      hide Board.Grid, PieceQueue.Abs, PieceQueue.Valid, Fits, QueueOk, Inv, NewGame, GameModel.Start;
      RestartInv(Abs(), seed);
      NewGameInv(seed);
      var nextEpisode := WrappingAdd(ids.episode, 1);
      Renew(seed);
      ids := ids.(episode := nextEpisode);
      IdsIrrelevant(NewGame(seed), Abs());
      Start();
      ok := true;
    }
  }

  /** The state right after the active piece is fixed. */
  function FixedGame(s: Game): Game
    requires s.active.Some?
  {
    s.(board := FixedBoard(s), active := None, timers := s.timers.(flash := LANDING_FLASH_MS))
  }

  /** Clearing, scoring and the event of a lock whose piece is fixed already. */
  function Cleared(s: Game, locked: bool, tspin: TSpinKind): Game {
    var n := |FullRows(s.board)|;
    var (tally, points) := Scored(s.tally, n, tspin);
    CompactGrid(s.board);
    s.(board := Compact(s.board),
       ids := if locked || n > 0 then s.ids.(board := WrappingAdd(s.ids.board, 1)) else s.ids,
       timers := if n > 0 then s.timers.(flash := LANDING_FLASH_MS, lineClear := LINE_CLEAR_PAUSE_MS) else s.timers,
       tally := tally,
       lastEvent := Some(LockEvent(
         true,
         n,
         points,
         if n > 0 && tspin != NoSpin then Some(tspin) else None,
         tally.combo,
         tally.backToBack)))
  }

  lemma SettledInTwo(s: Game)
    requires s.active.Some?
    ensures Settled(s) == Cleared(FixedGame(s), Fits(s.board, s.active.value), LockSpin(s))
    ensures FixedGame(s).board == FixedBoard(s) && FixedGame(s).tally == s.tally
  {
    hide FixedBoard, LockSpin, Compact, FullRows, Scored, Fits;
  }

  function BlockedAmong(g: Grid, p: Tetromino, corners: seq<(int, int)>): nat {
    if corners == [] then 0
    else Blocked(g, p.x + corners[0].0, p.y + corners[0].1) + BlockedAmong(g, p, corners[1..])
  }

  lemma AmongTwo(g: Grid, p: Tetromino, a: (int, int), b: (int, int))
    ensures BlockedAmong(g, p, [a, b]) == Blocked(g, p.x + a.0, p.y + a.1) + Blocked(g, p.x + b.0, p.y + b.1)
  {
    var two, one := [a, b], [b];
    assert two[1..] == one && one[1..] == [];
    assert BlockedAmong(g, p, one) == Blocked(g, p.x + b.0, p.y + b.1);
  }

  lemma AmongFour(g: Grid, p: Tetromino)
    ensures BlockedAmong(g, p, [(0, 0), (2, 0), (0, 2), (2, 2)]) ==
      Blocked(g, p.x, p.y) + Blocked(g, p.x + 2, p.y) + Blocked(g, p.x, p.y + 2) + Blocked(g, p.x + 2, p.y + 2)
  {
    var c: seq<(int, int)> := [(0, 0), (2, 0), (0, 2), (2, 2)];
    assert c[1..][1..] == [(0, 2), (2, 2)];
    AmongTwo(g, p, (0, 2), (2, 2));
  }

  lemma IdsIrrelevant(s: Game, t: Game)
    requires Inv(s) && t == s.(ids := t.ids)
    ensures Inv(t)
  {
    hide Fits, Preview, NoFullRow, QueueOk;
  }

  lemma ClocksInv(s: Game, elapsed: u32, softDrop: bool)
    requires Inv(s)
    ensures var a := SoftDropClock(Clocks(s, elapsed), elapsed, softDrop);
      Inv(a.(timers := a.timers.(drop := SaturatingAdd(a.timers.drop, elapsed))))
  {
    hide Fits, Preview, NoFullRow, QueueOk;
  }

  /** A valid game about to lock: at most four rows can fill. */
  lemma LockReady(s: Game, t: Game)
    requires Inv(s) && t.board == s.board && t.active == s.active && t.tally == s.tally
    ensures t.active.Some? ==> |FullRows(FixedBoard(t))| <= 4
    ensures t.tally.combo <= I32_MAX
  {
    hide Fits, Preview, NoFullRow, QueueOk, FullRows, Fixed;
    if s.active.Some? {
      SettledInv(s);
    }
  }

  lemma LandedLock(s: Game)
    requires Inv(s) && s.active.Some?
    ensures |FullRows(FixedBoard(Grounding(s)))| <= 4 && s.tally.combo <= I32_MAX
  {
    hide Fits, Preview, NoFullRow, QueueOk, FullRows, Fixed, Landed;
    LandedFits(s.board, s.active.value);
    AtMostFourFull(s.board, Landed(s.board, s.active.value));
  }

  lemma DropReady(s: Game, t: Game)
    requires Inv(s) && t == s.(flags := s.flags.(rotatedLast := false))
    ensures Inv(t)
  {
    hide Fits, Preview, NoFullRow, QueueOk;
  }
}
