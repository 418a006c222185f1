/**
  What every reachable game keeps: geometry, preview, timers, payment and the accounting of
  cells, locks, lines and pieces.
*/
module GameInvariant {
  import opened Types
  import opened Grids
  import opened Pieces
  import opened QueueModule
  import opened Scoring
  import opened GameModel

  ghost predicate Geometry(s: Game) {
    && NoFullRow(s.board)
    && (s.active.Some? ==> Fits(s.board, s.active.value))
    && (s.flags.started && !s.flags.gameOver ==> s.active.Some?)
    && (!s.flags.started ==> s.active.None? && !s.flags.gameOver)
  }

  ghost predicate PreviewOk(s: Game) {
    QueueOk(s.queue) && s.nextQueue == Preview(s.queue)
  }

  ghost predicate Counters(s: Game) {
    && s.timers.lock < LOCK_DELAY_MS
    && s.timers.resets <= LOCK_RESET_LIMIT
    && s.timers.lineClear <= LINE_CLEAR_PAUSE_MS
    && -1 <= s.tally.combo <= I32_MAX
    && s.tally.level == s.tally.lines / 10
  }

  /** A recorded lock that cleared rows cleared at most four and was paid for. */
  ghost predicate Paid(s: Game) {
    s.lastEvent.Some? && s.lastEvent.value.linesCleared >= 1 ==>
      s.lastEvent.value.linesCleared <= 4 && s.lastEvent.value.lineClearScore >= 40
  }

  ghost predicate Inv(s: Game) {
    Geometry(s) && PreviewOk(s) && Counters(s) && Paid(s)
  }

  // ---- preservation ----------------------------------------------------

  lemma NewGameInv(seed: u32)
    ensures Inv(NewGame(seed))
  {
    hide Fits, Preview, Front, Shuffle, OneOfEach;
    RefilledOk(Queue(seed, Kinds(), 0, seed));
    assert forall y :: 0 <= y < HEIGHT ==> EmptyGrid()[y][0].None?;
  }

  lemma SpawnInv(s: Game)
    requires NoFullRow(s.board) && s.flags.started && PreviewOk(s) && Counters(s) && Paid(s)
    requires s.active.Some? ==> Fits(s.board, s.active.value)
    ensures Inv(Spawn(s))
    ensures Spawn(s).flags.gameOver || Spawn(s).active == Some(Spawned(Front(s.queue)))
  {
    hide Fits, Preview, Front, NoFullRow, Drawn, QueueOk;
    DrawnOk(s.queue);
  }

  lemma MoveInv(s: Game, dx: int, dy: int)
    requires Inv(s)
    ensures Inv(TryMove(s, dx, dy).0)
    ensures var r := TryMove(s, dx, dy).0;
      r.board == s.board && (s.active.Some? ==> r.active.Some? && r.active.value.kind == s.active.value.kind)
  {
    hide Fits, Grounded, Preview, NoFullRow, QueueOk;
  }

  lemma TurnInv(s: Game, clockwise: bool)
    requires Inv(s)
    ensures Inv(TryTurn(s, clockwise).0)
  {
    hide Fits, Grounded, Preview, NoFullRow, QueueOk;
  }

  /** The lock itself: it succeeds, fills at most four rows, and leaves a field without full rows. */
  lemma SettledInv(s: Game)
    requires Inv(s) && s.active.Some?
    ensures var r := Settled(s);
      && NoFullRow(r.board) && PreviewOk(r) && Counters(r) && Paid(r)
      && r.lastEvent == Some(r.lastEvent.value)
      && r.active.None? && r.flags.started == s.flags.started && r.flags.gameOver == s.flags.gameOver
    ensures |FullRows(FixedBoard(s))| <= 4
  {
    var p, fixed := s.active.value, FixedBoard(s);
    AtMostFourFull(s.board, p);
    CompactGrid(fixed);
    assert p.kind == T && |FullRows(fixed)| == 3 ==> LockSpin(s) != Mini by {
      if p.kind == T && |FullRows(fixed)| == 3 { TripleIsFull(s.board, p, s.flags.rotatedLast); }
    }
    SettledPays(s);
  }

  lemma SettledPays(s: Game)
    requires s.active.Some? && Fits(s.board, s.active.value) && Counters(s) && PreviewOk(s)
    requires |FullRows(FixedBoard(s))| <= 4
    requires s.active.value.kind == T ==> |FullRows(FixedBoard(s))| <= 3
    requires s.active.value.kind == T && |FullRows(FixedBoard(s))| == 3 ==> LockSpin(s) != Mini
    ensures Paid(Settled(s)) && Counters(Settled(s)) && PreviewOk(Settled(s))
    ensures Settled(s).lastEvent.Some?
  {
    hide Fits, FixedBoard, Preview, QueueOk, Compact, FullRows, TSpin, Score, TSpinScore;
    var n := |FullRows(FixedBoard(s))|;
    CompactGrid(FixedBoard(s));
    if n >= 1 {
      var combo := if s.tally.combo >= I32_MAX then I32_MAX else s.tally.combo + 1;
      ClearPays(n, s.tally.level, LockSpin(s), combo, s.tally.backToBack);
    }
  }

  lemma LockInv(s: Game)
    requires Inv(s) && s.flags.started
    ensures Inv(LockDown(s))
  {
    hide Fits, Preview, Front, NoFullRow, QueueOk, Settled, Spawn;
    if s.active.Some? {
      SettledInv(s);
      SpawnInv(Settled(s));
    }
  }

  lemma LandedFits(g: Grid, p: Tetromino)
    requires Fits(g, p)
    ensures Fits(g, Landed(g, p))
  {
    DropDistanceMeaning(g, p);
    assert p.Moved(0, 0) == p;
  }

  lemma DropInv(s: Game)
    requires Inv(s)
    ensures Inv(Dropped(s).0)
  {
    hide Fits, Preview, Front, NoFullRow, QueueOk, LockDown, Landed, DropDistance;
    if s.active.Some? {
      LandedFits(s.board, s.active.value);
      LockInv(s.(active := Some(Landed(s.board, s.active.value))));
    }
  }

  lemma HoldInv(s: Game)
    requires Inv(s)
    ensures Inv(Held(s).0)
  {
    hide Fits, Preview, Front, NoFullRow, QueueOk, Spawn;
    if s.active.Some? && s.hold.None? {
      SpawnInv(s.(hold := Some(s.active.value.kind)));
    }
  }

  lemma StartInv(s: Game)
    requires Inv(s)
    ensures Inv(Start(s)) && Start(s).flags.started
  {
    hide Fits, Preview, Front, NoFullRow, QueueOk, Spawn;
    if !s.flags.started { SpawnInv(s.(flags := s.flags.(started := true))); }
    SpawnKeeps(s.(flags := s.flags.(started := true)));
  }

  lemma SpawnKeeps(s: Game)
    ensures var r := Spawn(s);
      && r.flags.started == s.flags.started && r.board == s.board && r.hold == s.hold
      && r.ids.episode == s.ids.episode && r.ids.board == s.ids.board && r.tally == s.tally
  {
    hide Fits, Preview, Front, Drawn;
  }

  lemma RestartInv(s: Game, seed: u32)
    ensures Inv(RestartWith(s, seed)) && RestartWith(s, seed).flags.started
  {
    hide Fits, Preview, Front, NoFullRow, QueueOk, Start, NewGame;
    NewGameInv(seed);
    StartInv(NewGame(seed).(ids := NewGame(seed).ids.(episode := WrappingAdd(s.ids.episode, 1))));
  }

  lemma {:induction false} GravityInv(s: Game, interval: u32)
    requires Inv(s) && interval > 0
    ensures var r := Gravity(s, interval).0; Inv(r) && r.board == s.board && r.flags.started == s.flags.started
    decreases s.timers.drop
  {
    hide Geometry, PreviewOk, Paid, TryMove;
    if s.timers.drop >= interval {
      var t := s.(timers := s.timers.(drop := s.timers.drop - interval));
      TimerIrrelevant(s, t);
      MoveInv(t, 0, 1);
      MoveKeeps(t, 0, 1);
      GravityInv(TryMove(t, 0, 1).0, interval);
    }
  }

  /** Inv does not look at the drop timer. */
  lemma TimerIrrelevant(s: Game, t: Game)
    requires Inv(s) && t == s.(timers := s.timers.(drop := t.timers.drop))
    ensures Inv(t)
  {
    hide Fits, Preview, NoFullRow, QueueOk;
  }

  lemma MoveKeeps(s: Game, dx: int, dy: int)
    ensures var r := TryMove(s, dx, dy).0;
      && r.timers.drop == s.timers.drop && r.board == s.board
      && r.flags.started == s.flags.started && r.flags.gameOver == s.flags.gameOver
  {
    hide Fits, Grounded;
  }

  lemma LockDelayInv(s: Game, elapsed: u32)
    requires Inv(s) && s.flags.started
    ensures Inv(LockDelay(s, elapsed).0)
  {
    hide Fits, Grounded, Preview, NoFullRow, QueueOk, LockDown;
    LockInv(s.(timers := s.timers.(lock := 0, drop := 0)));
  }

  lemma TickInv(s: Game, elapsed: u32, softDrop: bool)
    requires Inv(s)
    ensures Inv(Tick(s, elapsed, softDrop).0)
  {
    hide Fits, Grounded, Preview, NoFullRow, QueueOk, LockDelay, Gravity, Paid;
    if Runs(s) {
      var a := Clocks(s, elapsed);
      var b := SoftDropClock(a, elapsed, softDrop);
      var c := b.(timers := b.timers.(drop := SaturatingAdd(b.timers.drop, elapsed)));
      PaidIgnores(s, c);
      PaidIgnores(s, a);
      GravityInv(c, DropInterval(b));
      LockDelayInv(Gravity(c, DropInterval(b)).0, elapsed);
    }
  }

  lemma PaidIgnores(s: Game, t: Game)
    requires Paid(s) && s.lastEvent == t.lastEvent
    ensures Paid(t)
  {
  }

  lemma ApplyInv(s: Game, action: GameAction)
    requires Inv(s)
    ensures Inv(Apply(s, action).0)
  {
    hide Fits, Grounded, Preview, NoFullRow, QueueOk, Paid, TryMove, TryTurn, Held, Dropped, RestartWith;
    match action
    case MoveLeft => MoveInv(s, -1, 0);
    case MoveRight => MoveInv(s, 1, 0);
    case SoftDrop =>
      MoveInv(s, 0, 1);
      PaidIgnores(TryMove(s, 0, 1).0, AfterSoftDrop(TryMove(s, 0, 1).0, TryMove(s, 0, 1).1));
    case HardDrop =>
      var t := s.(flags := s.flags.(rotatedLast := false));
      PaidIgnores(s, t);
      DropInv(t);
      PaidIgnores(Dropped(t).0, HardDropped(s));
    case RotateCw => TurnInv(s, true);
    case RotateCcw => TurnInv(s, false);
    case Hold => HoldInv(s);
    case Pause => PaidIgnores(s, TogglePause(s));
    case Restart => RestartInv(s, s.queue.rng);
  }

  lemma StepInv(s: Game, op: Op)
    requires Inv(s)
    ensures Inv(Step(s, op))
  {
    hide Geometry, PreviewOk, Counters, Start, Apply, Tick, RestartWith;
    match op
    case Begin => StartInv(s);
    case Act(a) => ApplyInv(s, a);
    case TickBy(ms, soft) => TickInv(s, ms, soft);
    case RestartSeed(seed) => RestartInv(s, seed);
    case TakeEvent => EventIrrelevant(s);
  }

  lemma EventIrrelevant(s: Game)
    requires Inv(s)
    ensures Inv(s.(lastEvent := None))
  {
    hide Fits, Preview, NoFullRow, QueueOk;
  }

  lemma {:induction false} RunInv(s: Game, ops: seq<Op>)
    requires Inv(s)
    ensures Inv(Run(s, ops))
    decreases |ops|
  {
    hide Inv, Step;
    if ops == [] {
    } else {
      StepInv(s, ops[0]);
      RunInv(Step(s, ops[0]), ops[1..]);
    }
  }

  // ---- main results on every run ---------------------------------------

  /** States reachable from a new game by any sequence of operations. */
  ghost predicate Reachable(s: Game) {
    exists seed: u32, ops: seq<Op> :: s == Run(NewGame(seed), ops)
  }

  lemma ReachableInv(s: Game)
    requires Reachable(s)
    ensures Inv(s)
  {
    hide Inv, NewGame, Run;
    var seed: u32, ops: seq<Op> :| s == Run(NewGame(seed), ops);
    NewGameInv(seed);
    RunInv(NewGame(seed), ops);
  }

  /**
    Geometry of every reachable state: the active piece covers four free cells of the field, no
    row is full, and a started game that is not over has an active piece.
  */
  lemma ReachableGeometry(s: Game)
    requires Reachable(s)
    ensures s.active.Some? ==> forall c :: c in s.active.value.Cells() ==> Free(s.board, c.0, c.1)
    ensures forall y :: 0 <= y < HEIGHT ==> !IsFull(s.board[y])
    ensures s.flags.started && !s.flags.gameOver ==> s.active.Some?
  {
    hide Run, Preview, QueueOk, Paid, Counters;
    ReachableInv(s);
  }

  /** In a reachable state a lock always succeeds and its four-slot row buffers never overflow. */
  lemma ReachableLockSucceeds(s: Game)
    requires Reachable(s) && s.active.Some?
    ensures FixedBoard(s) == Fixed(s.board, s.active.value)
    ensures FixedBoard(Grounding(s)) == Fixed(s.board, Landed(s.board, s.active.value))
    ensures |FullRows(FixedBoard(s))| <= 4 && |FullRows(FixedBoard(Grounding(s)))| <= 4
  {
    hide Run, Preview, QueueOk, Paid, Counters, Fits, FullRows, Fixed, Landed;
    ReachableInv(s);
    LandedFits(s.board, s.active.value);
    AtMostFourFull(s.board, s.active.value);
    AtMostFourFull(s.board, Landed(s.board, s.active.value));
  }

  /** The state in which a hard drop locks. */
  function Grounding(s: Game): Game
    requires s.active.Some?
  {
    s.(active := Some(Landed(s.board, s.active.value)))
  }

  /**
    Every coordinate sum formed by moves, kicks, falls, grounding checks and corner tests in a
    reachable state stays inside the range of a signed byte.
  */
  lemma CoordinatesFitI8(s: Game, i: nat, k: nat, clockwise: bool, d: nat, dx: int, dy: int)
    requires Reachable(s) && s.active.Some?
    requires i < 4 && k < 5 && -1 <= dx <= 1 && 0 <= dy <= 1
    requires d <= DropDistance(s.board, s.active.value)
    ensures var p := s.active.value;
      var turned := Shape(p.kind, p.rotation.Turn(clockwise))[i];
      var kick := Kicks(p.kind, p.rotation, clockwise)[k];
      var mino := Shape(p.kind, p.rotation)[i];
      && -128 <= p.x + kick.0 <= 127 && -128 <= p.x + kick.0 + turned.0 <= 127
      && -128 <= p.y + kick.1 <= 127 && -128 <= p.y + kick.1 + turned.1 <= 127
      && -128 <= p.x + mino.0 <= 127 && -128 <= p.x + mino.0 + dx <= 127
      && -128 <= p.y + mino.1 + d + 1 <= 127 && -128 <= p.y + mino.1 + dy <= 127
      && 0 <= d <= 127 && -128 <= p.y + d <= 127 && -128 <= p.x + 2 <= 127 && -128 <= p.y + d + 2 <= 127
  {
    hide Run, Preview, QueueOk, Paid, Counters, Fits, NoFullRow, Kicks, Shape;
    ReachableInv(s);
    var p := s.active.value;
    FitsBox(s.board, p);
    ShapeBox(p.kind, p.rotation);
    ShapeBox(p.kind, p.rotation.Turn(clockwise));
  }

  /** The preview shown in every reachable state is the next five draws of its own queue. */
  lemma ReachablePreview(s: Game)
    requires Reachable(s)
    ensures QueueOk(s.queue) && s.nextQueue == Draws(s.queue, 5)
  {
    hide Run, Preview, QueueOk, Fits, NoFullRow, Draws;
    ReachableInv(s);
    PreviewIsNextFive(s.queue);
  }

  /**
    Every clearing lock pays: in every reachable state, locking the active piece where it is or
    where a hard drop takes it, with one row cleared or more, reports at least forty points.
  */
  lemma EveryClearingLockPays(s: Game)
    requires Reachable(s) && s.active.Some?
    ensures Settled(s).lastEvent.Some? && Settled(Grounding(s)).lastEvent.Some?
    ensures Settled(s).lastEvent.value.linesCleared >= 1 ==> Settled(s).lastEvent.value.lineClearScore >= 40
    ensures Settled(Grounding(s)).lastEvent.value.linesCleared >= 1 ==>
      Settled(Grounding(s)).lastEvent.value.lineClearScore >= 40
    ensures s.lastEvent.Some? && s.lastEvent.value.linesCleared >= 1 ==> s.lastEvent.value.lineClearScore >= 40
  {
    hide Run, Preview, QueueOk, Fits, NoFullRow, Settled, Landed;
    ReachableInv(s);
    LandedFits(s.board, s.active.value);
    PaidIgnores(s, Grounding(s));
    SettledInv(s);
    SettledInv(Grounding(s));
  }
}
