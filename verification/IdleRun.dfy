/** A session nobody plays: from every seed it ends, within a bound on locks and on ticks. */
module IdlePlay {
  import opened Types
  import opened Grids
  import opened Pieces
  import opened QueueModule
  import opened Scoring
  import opened GameModel
  import opened GameInvariant
  import opened Accounting

  /** One session step without input: a tick of 16 ms, after which the event is taken. */
  function Idle(s: Game): Game {
    Tick(s, TICK_MS, false).0.(lastEvent := None)
  }

  function IdleFor(s: Game, n: nat): Game
    decreases n
  {
    if n == 0 then s else IdleFor(Idle(s), n - 1)
  }

  const LO := 3
  const HI := 7

  /** Milliseconds until the active piece locks if nobody touches it. */
  function TimeLeft(s: Game): int
    requires s.active.Some?
  {
    if OnGround(s) then LOCK_DELAY_MS - s.timers.lock
    else 1000 * DropDistance(s.board, s.active.value) - s.timers.drop + LOCK_DELAY_MS
  }

  /** Longest fall from the spawn row, at a second a row, and one lock delay. */
  const LONGEST := 18_450

  ghost predicate Untouched(s: Game) {
    && Inv(s)
    && s.flags.started && !s.flags.paused && !s.flags.softDropping
    && InBand(s.board, LO, HI)
    && s.tally.lines == 0 && s.timers.lineClear == 0
    && s.timers.drop < 1000
    && Filled(s.board) == 4 * s.ids.board && s.ids.board <= 20
    && (!s.flags.gameOver ==> Falling(s))
  }

  /** The active piece has its spawn column and orientation and is on its way down. */
  ghost predicate Falling(s: Game) {
    && s.active.Some?
    && s.active.value.rotation == North && s.active.value.x == 3 && s.active.value.y >= 0
    && 0 < TimeLeft(s) <= LONGEST
    && (!OnGround(s) ==> s.timers.lock == 0)
  }

  lemma GroundedIffNoDrop(g: Grid, p: Tetromino)
    ensures Grounded(g, p) <==> DropDistance(g, p) == 0
    ensures !Grounded(g, p) ==> DropDistance(g, p) == 1 + DropDistance(g, p.Moved(0, 1))
  {
    hide Fits, Grounded;
    GroundedMeaning(g, p);
  }

  /** North shapes reach their second row, so a fall from row 0 is at most eighteen rows. */
  lemma FallBound(g: Grid, p: Tetromino)
    requires p.rotation == North && p.y >= 0
    ensures DropDistance(g, p) <= 18
  {
    DropDistanceMeaning(g, p);
    var d := DropDistance(g, p);
    if d > 0 {
      var q := p.Moved(0, d);
      assert Fits(g, q);
      SecondRow(p.kind);
      var i :| 0 <= i < 4 && Shape(p.kind, North)[i].1 == 1;
      assert Free(g, q.Cells()[i].0, q.Cells()[i].1);
    }
  }

  lemma SecondRow(kind: PieceKind)
    ensures exists i :: 0 <= i < 4 && Shape(kind, North)[i].1 == 1
  {
    assert Shape(kind, North)[3].1 == 1;
  }

  /** A piece that enters starts with at most LONGEST milliseconds. */
  lemma SpawnFalling(s: Game)
    requires s.flags.started && s.timers.drop == 0 && NoFullRow(s.board) && PreviewOk(s) && Counters(s) && Paid(s)
    requires s.active.None? && !s.flags.gameOver
    ensures !Spawn(s).flags.gameOver ==> Falling(Spawn(s))
    ensures Spawn(s).timers.drop == 0 && Spawn(s).timers.lineClear == s.timers.lineClear
    ensures Spawn(s).flags.paused == s.flags.paused && Spawn(s).flags.softDropping == s.flags.softDropping
  {
    hide Fits, Grounded, Front, Preview, Drawn, NoFullRow, QueueOk;
    var t := Spawn(s);
    if !t.flags.gameOver {
      FallBound(t.board, t.active.value);
      GroundedIffNoDrop(t.board, t.active.value);
    }
  }

  /** A piece in its spawn column and orientation keeps to the four middle columns. */
  lemma BandKept(g: Grid, p: Tetromino)
    requires InBand(g, LO, HI) && p.rotation == North && p.x == 3
    ensures InBand(Fixed(g, p), LO, HI)
    ensures FullRows(Fixed(g, p)) == []
  {
    ShapeBox(p.kind, North);
    var f := Fixed(g, p);
    assert InBand(f, LO, HI) by {
      forall x, y | 0 <= y < HEIGHT && 0 <= x < WIDTH && f[y][x].Some? ensures LO <= x < HI {
        if g[y][x].None? { assert (x, y) in p.Cells(); }
      }
    }
    forall y | 0 <= y < HEIGHT ensures !IsFull(f[y]) {
      assert !(LO <= 0 < HI) && f[y][0].None?;
    }
    NothingToClear(f);
  }

  lemma BandHoldsEighty(g: Grid)
    requires InBand(g, LO, HI)
    ensures Filled(g) <= 80
  {
    FilledBandFrom(g, LO, HI);
  }

  /** The lock of an untouched piece: four more cells, no row cleared, next piece or game over. */
  lemma LockUntouched(s: Game)
    requires Untouched(s) && !s.flags.gameOver && s.timers.drop == 0
    ensures var r := LockDown(s); Untouched(r) && r.ids.board == s.ids.board + 1
  {
    hide Fits, Grounded, Front, Preview, Drawn, Filled, NoFullRow;
    hide QueueOk, Paid, Fixed, InBand, FullRows, Compact, Falling;
    var p := s.active.value;
    assert p.rotation == North && p.x == 3 by { FallingPose(s); }
    BandKept(s.board, p);
    NothingCompact(Fixed(s.board, p));
    FixedCounts(s.board, p);
    BandHoldsEighty(Fixed(s.board, p));
    SettledInv(s);
    LockInv(s);
    SpawnFalling(Settled(s));
  }

  lemma FallingPose(s: Game)
    requires Falling(s)
    ensures s.active.Some? && s.active.value.rotation == North && s.active.value.x == 3
  {
    hide OnGround, DropDistance;
  }

  lemma NothingCompact(g: Grid)
    requires FullRows(g) == []
    ensures Compact(g) == g
  {
    FullRowsMeaning(g);
    NothingToClear(g);
  }

  /** Gravity in one idle tick: at most one row. */
  lemma OneRow(s: Game)
    requires s.timers.drop < 1016
    ensures Gravity(s, 1000).0 ==
      if s.timers.drop < 1000 then s else TryMove(s.(timers := s.timers.(drop := s.timers.drop - 1000)), 0, 1).0
  {
  }

  /** The state after the gravity part of an idle tick, with the time left at that point. */
  lemma AfterGravity(s: Game, c: Game)
    requires Untouched(s) && !s.flags.gameOver
    requires c == s.(timers := s.timers.(drop := s.timers.drop + 16, flash := c.timers.flash),
                     ids := s.ids.(step := c.ids.step))
    ensures var r := Gravity(c, 1000).0;
      && Untouched(r) && !r.flags.gameOver && r.board == s.board && r.ids == c.ids
      && (if OnGround(s) then OnGround(r) && TimeLeft(r) == TimeLeft(s)
          else if OnGround(r) then TimeLeft(r) == LOCK_DELAY_MS < TimeLeft(s)
          else TimeLeft(r) == TimeLeft(s) - 16)
  {
    hide Fits, Grounded, Preview, Filled, NoFullRow, QueueOk, Paid, InBand;
    var p := s.active.value;
    GroundedIffNoDrop(s.board, p);
    GroundedMeaning(s.board, p);
    PaidIgnores(s, c);
    OneRow(c);
    GravityInv(c, 1000);
    if c.timers.drop >= 1000 && !OnGround(s) {
      GroundedIffNoDrop(s.board, p.Moved(0, 1));
    }
  }

  /** One idle step: either 16 ms nearer to the lock, or the lock itself when 16 ms or less were left. */
  lemma IdleStep(s: Game)
    requires Untouched(s) && !s.flags.gameOver
    ensures var r := Idle(s);
      && Untouched(r)
      && (if TimeLeft(s) > 16
          then r.ids.board == s.ids.board && !r.flags.gameOver && TimeLeft(r) <= TimeLeft(s) - 16
          else r.ids.board == s.ids.board + 1)
  {
    hide Fits, Grounded, Preview, Filled, NoFullRow, QueueOk, Paid, InBand, Gravity, LockDown;
    var c := Clocks(s, TICK_MS);
    var c' := c.(timers := c.timers.(drop := c.timers.drop + 16));
    AfterGravity(s, c');
    var d := Gravity(c', 1000).0;
    assert DropInterval(c) == 1000;
    assert Tick(s, TICK_MS, false).0 == LockDelay(d, TICK_MS).0;
    LockDelayUntouched(d);
    EventUntouched(LockDelay(d, TICK_MS).0);
  }

  lemma LockDelayUntouched(d: Game)
    requires Untouched(d) && !d.flags.gameOver
    ensures var r := LockDelay(d, TICK_MS).0;
      && Untouched(r)
      && (if !OnGround(d) then r == d.(timers := d.timers.(resets := 0))
          else if TimeLeft(d) > 16
          then
            && r.ids.board == d.ids.board && !r.flags.gameOver && r.active == d.active
            && TimeLeft(r) == TimeLeft(d) - 16
          else r.ids.board == d.ids.board + 1)
  {
    hide Fits, Grounded, Preview, Filled, NoFullRow, QueueOk, Paid, InBand, LockDown;
    if OnGround(d) {
      var t := d.(timers := d.timers.(lock := 0, drop := 0));
      PaidIgnores(d, t);
      if TimeLeft(d) <= 16 {
        LockUntouched(t);
      } else {
        PaidIgnores(d, LockDelay(d, TICK_MS).0);
      }
    } else {
      PaidIgnores(d, LockDelay(d, TICK_MS).0);
    }
  }

  lemma EventUntouched(s: Game)
    requires Untouched(s)
    ensures Untouched(s.(lastEvent := None))
    ensures s.active.Some? ==> TimeLeft(s.(lastEvent := None)) == TimeLeft(s)
  {
    hide Fits, Grounded, Preview, Filled, NoFullRow, QueueOk, InBand;
  }

  lemma OverStays(s: Game)
    requires s.flags.gameOver
    ensures Idle(s) == s.(lastEvent := None)
  {
  }

  // ---- main results ----------------------------------------------------

  function Session(seed: u32): Game {
    Start(NewGame(seed))
  }

  lemma SessionUntouched(seed: u32)
    ensures Untouched(Session(seed)) && Session(seed).ids.board == 0
  {
    hide Fits, Preview, Front, Filled, NoFullRow, QueueOk, Spawn, Fresh;
    NewGameInv(seed);
    StartInv(NewGame(seed));
    FilledEmpty(HEIGHT);
    SpawnFalling(NewGame(seed).(flags := NewGame(seed).flags.(started := true)));
    SpawnKeeps(NewGame(seed).(flags := NewGame(seed).flags.(started := true)));
  }

  lemma {:induction false} StaysUntouched(s: Game, n: nat)
    requires Untouched(s)
    ensures Untouched(IdleFor(s, n))
    decreases n
  {
    hide Untouched, Idle;
    if n > 0 {
      IdleUntouched(s);
      StaysUntouched(Idle(s), n - 1);
    }
  }

  lemma IdleUntouched(s: Game)
    requires Untouched(s)
    ensures Untouched(Idle(s))
  {
    hide Inv, InBand, Filled, Falling, Tick;
    if s.flags.gameOver {
      OverStays(s);
      EventUntouched(s);
    } else {
      IdleStep(s);
    }
  }

  /**
    For every seed and any number of idle steps: columns 0-2 and 7-9 stay empty, no line is ever
    cleared, and there have been at most twenty locks of four cells each.
  */
  lemma IdleBand(seed: u32, n: nat)
    ensures var s := IdleFor(Session(seed), n);
      && (forall x, y :: 0 <= y < HEIGHT && 0 <= x < WIDTH && (x < 3 || x >= 7) ==> s.board[y][x].None?)
      && s.tally.lines == 0 && s.ids.board <= 20 && Filled(s.board) == 4 * s.ids.board
  {
    hide Session, IdleFor, Inv, Falling, Filled;
    SessionUntouched(seed);
    StaysUntouched(Session(seed), n);
  }

  /** The active piece locks within its time left, and so within 1154 idle steps of its spawn. */
  lemma {:induction false} LocksInTime(s: Game)
    requires Untouched(s) && !s.flags.gameOver
    ensures exists n: nat ::
      n <= (TimeLeft(s) + 15) / 16 && n <= 1154 && IdleFor(s, n).ids.board == s.ids.board + 1 &&
      (IdleFor(s, n).flags.gameOver || Untouched(IdleFor(s, n)))
    decreases TimeLeft(s)
  {
    hide Inv, InBand, Filled, OnGround, DropDistance, Idle;
    IdleStep(s);
    if TimeLeft(s) > 16 {
      LocksInTime(Idle(s));
      var m: nat :| m <= (TimeLeft(Idle(s)) + 15) / 16 && m <= 1154 &&
        IdleFor(Idle(s), m).ids.board == s.ids.board + 1 &&
        (IdleFor(Idle(s), m).flags.gameOver || Untouched(IdleFor(Idle(s), m)));
      assert IdleFor(s, m + 1) == IdleFor(Idle(s), m);
    } else {
      assert IdleFor(s, 1) == Idle(s);
    }
  }

  /** Idle steps that can still happen before the game is over. */
  ghost function StepsLeft(s: Game): int
    requires Untouched(s)
  {
    if s.flags.gameOver then 0 else (19 - s.ids.board) * 1154 + (TimeLeft(s) + 15) / 16
  }

  /** A game that goes on has room for another piece, so it has seen at most nineteen locks. */
  lemma RoomForOneMore(s: Game)
    requires Untouched(s) && !s.flags.gameOver
    ensures s.ids.board <= 19
  {
    hide Preview, Filled, NoFullRow, QueueOk, Paid, InBand, Fits, Fixed, FullRows, OnGround, DropDistance;
    var p := s.active.value;
    BandKept(s.board, p);
    FixedCounts(s.board, p);
    BandHoldsEighty(Fixed(s.board, p));
  }

  lemma {:induction false} RunsOut(s: Game, n: nat)
    requires Untouched(s) && n >= StepsLeft(s)
    ensures IdleFor(s, n).flags.gameOver
    decreases n
  {
    hide Inv, InBand, Filled, OnGround, DropDistance, Idle;
    if s.flags.gameOver {
      OverForever(s, n);
    } else {
      RoomForOneMore(s);
      IdleStep(s);
      if !Idle(s).flags.gameOver { RoomForOneMore(Idle(s)); }
      RunsOut(Idle(s), n - 1);
    }
  }

  lemma {:induction false} OverForever(s: Game, n: nat)
    requires s.flags.gameOver
    ensures IdleFor(s, n).flags.gameOver
    decreases n
  {
    hide Tick;
    if n > 0 {
      OverStays(s);
      OverForever(Idle(s), n - 1);
    }
  }

  /** Idle play ends from every seed: game over after at most twenty times 1154 steps. */
  lemma IdleEnds(seed: u32, n: nat)
    requires n >= 20 * 1154
    ensures IdleFor(Session(seed), n).flags.gameOver
  {
    hide Session, IdleFor, Inv, InBand, Filled, OnGround, DropDistance;
    SessionUntouched(seed);
    RunsOut(Session(seed), n);
  }
}
