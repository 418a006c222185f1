/**
  When a lock is a T-spin, and of which class (crates/tetris-core/src/core/game_state.rs:599-650):
  the corners beside the nose, and the last thing done to the piece, over every run.
*/
module SpinLaws {
  import opened Types
  import opened Grids
  import opened Pieces
  import opened QueueModule
  import opened GameModel
  import opened GameInvariant
  import opened LockDelayBudget
  import opened LockResets
  import opened GravityLaws

  // ---- corners and nose ------------------------------------------------

  type Place = (int, int)

  predicate Beside(a: Place, b: Place) {
    (a.0 == b.0 && (a.1 == b.1 + 1 || b.1 == a.1 + 1)) || (a.1 == b.1 && (a.0 == b.0 + 1 || b.0 == a.0 + 1))
  }

  function Corners(c: Place): set<Place> {
    {(c.0 - 1, c.1 - 1), (c.0 + 1, c.1 - 1), (c.0 - 1, c.1 + 1), (c.0 + 1, c.1 + 1)}
  }

  function BlockedOf(g: Grid, places: set<Place>): set<Place> {
    set c | c in places && !Free(g, c.0, c.1)
  }

  /** The piece has its centre, its nose, and opposite the nose the one neighbour of the centre it does not cover. */
  predicate Points(p: Tetromino, centre: Place, nose: Place, gap: Place) {
    && centre in p.Cells() && nose in p.Cells() && gap !in p.Cells()
    && Beside(centre, nose) && Beside(centre, gap)
    && nose.0 + gap.0 == 2 * centre.0 && nose.1 + gap.1 == 2 * centre.1
    && forall c :: c in p.Cells() ==> c == centre || Beside(centre, c)
  }

  function Centre(p: Tetromino): Place {
    (p.x + 1, p.y + 1)
  }

  function Nose(p: Tetromino): Place {
    match p.rotation
    case North => (p.x + 1, p.y)
    case East => (p.x + 2, p.y + 1)
    case South => (p.x + 1, p.y + 2)
    case West => (p.x, p.y + 1)
  }

  function Gap(p: Tetromino): Place {
    (2 * Centre(p).0 - Nose(p).0, 2 * Centre(p).1 - Nose(p).1)
  }

  /** Every T has exactly one centre, nose and gap. */
  lemma PointsOnce(p: Tetromino, centre: Place, nose: Place, gap: Place)
    requires p.kind == T
    ensures Points(p, centre, nose, gap) <==> centre == Centre(p) && nose == Nose(p) && gap == Gap(p)
  {
    var s := Shape(p.kind, p.rotation);
    if Points(p, centre, nose, gap) {
      assert p.Cells()[0] == centre || Beside(centre, p.Cells()[0]);
      assert p.Cells()[1] == centre || Beside(centre, p.Cells()[1]);
      assert p.Cells()[2] == centre || Beside(centre, p.Cells()[2]);
      assert p.Cells()[3] == centre || Beside(centre, p.Cells()[3]);
    }
    if centre == Centre(p) && nose == Nose(p) && gap == Gap(p) {
      assert centre == p.Cells()[1] || centre == p.Cells()[2];
      assert nose in p.Cells() by {
        assert nose == p.Cells()[0] || nose == p.Cells()[1] || nose == p.Cells()[2] || nose == p.Cells()[3];
      }
    }
  }

  lemma OneMoreCorner(g: Grid, places: set<Place>, c: Place)
    requires c !in places
    ensures |BlockedOf(g, places + {c})| == |BlockedOf(g, places)| + Blocked(g, c.0, c.1)
  {
    hide Free;
    if Free(g, c.0, c.1) {
      assert BlockedOf(g, places + {c}) == BlockedOf(g, places);
    } else {
      assert BlockedOf(g, places + {c}) == BlockedOf(g, places) + {c};
    }
  }

  lemma CountCorners(g: Grid, p: Tetromino)
    ensures |BlockedOf(g, Corners(Centre(p)))| ==
      Blocked(g, p.x, p.y) + Blocked(g, p.x + 2, p.y) + Blocked(g, p.x, p.y + 2) + Blocked(g, p.x + 2, p.y + 2)
  {
    hide BlockedOf, Blocked;
    var nw, ne, sw, se := (p.x, p.y), (p.x + 2, p.y), (p.x, p.y + 2), (p.x + 2, p.y + 2);
    OneMoreCorner(g, {}, nw);
    OneMoreCorner(g, {nw}, ne);
    OneMoreCorner(g, {nw} + {ne}, sw);
    OneMoreCorner(g, {nw} + {ne} + {sw}, se);
    assert {} + {nw} == {nw};
    assert {nw} + {ne} + {sw} + {se} == Corners(Centre(p));
    assert |BlockedOf(g, {})| == 0 by { NoCorner(g); }
  }

  lemma NoCorner(g: Grid)
    ensures BlockedOf(g, {}) == {}
  {
  }

  /**
    A T that was turned last is a spin exactly if three of the corners around its centre are blocked,
    and then Full exactly if both corners beside its nose are.
  */
  lemma SpinByNose(g: Grid, p: Tetromino, centre: Place, nose: Place, gap: Place)
    requires p.kind == T && Points(p, centre, nose, gap)
    ensures TSpin(g, p, false) == NoSpin
    ensures TSpin(g, p, true) == NoSpin <==> |BlockedOf(g, Corners(centre))| < 3
    ensures TSpin(g, p, true) == Full <==>
      && |BlockedOf(g, Corners(centre))| >= 3
      && forall c :: c in Corners(centre) && Beside(nose, c) ==> !Free(g, c.0, c.1)
  {
    hide Free, Points;
    PointsOnce(p, centre, nose, gap);
    CountCorners(g, p);
    assert forall c :: c in Corners(centre) && Beside(nose, c) <==>
      c in Corners(centre) && match p.rotation
        case North => c.1 == p.y
        case East => c.0 == p.x + 2
        case South => c.1 == p.y + 2
        case West => c.0 == p.x;
    assert (p.x, p.y) in Corners(centre) && (p.x + 2, p.y) in Corners(centre);
    assert (p.x, p.y + 2) in Corners(centre) && (p.x + 2, p.y + 2) in Corners(centre);
  }

  // ---- the last thing done ---------------------------------------------

  /** An action the game takes. */
  predicate Takes(s: Game, op: Op, action: GameAction) {
    op == Act(action) && !s.flags.paused && !s.flags.gameOver
  }

  /** A lock, hold, start or restart: another piece comes in, or the game ends. */
  predicate NewPiece(s: Game, op: Op) {
    || Restarts(op) || (op.Begin? && !s.flags.started) || Locks(s, op) || (op == Act(Hold) && Apply(s, Hold).1)
  }

  /** The last thing done to the piece was a turn that worked; falling by itself does not count. */
  predicate Turning(s: Game, op: Op, turned: bool) {
    if NewPiece(s, op) then false
    else
      match op
      case Act(RotateCw) => Apply(s, RotateCw).1 || turned
      case Act(RotateCcw) => Apply(s, RotateCcw).1 || turned
      case Act(MoveLeft) => !Apply(s, MoveLeft).1 && turned
      case Act(MoveRight) => !Apply(s, MoveRight).1 && turned
      case Act(SoftDrop) => !Takes(s, op, SoftDrop) && turned
      case _ => turned
  }

  predicate TurnedLast(s: Game, ops: seq<Op>, turned: bool)
    decreases |ops|
  {
    if ops == [] then turned else TurnedLast(Step(s, ops[0]), ops[1..], Turning(s, ops[0], turned))
  }

  predicate FlagOk(s: Game, turned: bool) {
    s.active.Some? && !s.flags.gameOver ==> s.flags.rotatedLast == turned
  }

  lemma SpawnClears(s: Game)
    ensures FlagOk(Spawn(s), false)
  {
    hide Fits, Preview, Front, Drawn;
  }

  lemma LockClears(s: Game)
    requires s.active.Some?
    ensures FlagOk(LockDown(s), false)
  {
    hide Spawn, Fits, FixedBoard, LockSpin, FullRows, Compact, Scored;
    SpawnClears(Settled(s));
  }

  lemma RestartClears(s: Game, seed: u32)
    ensures FlagOk(RestartWith(s, seed), false)
  {
    hide Spawn, Preview, Fresh;
    SpawnClears(NewGame(seed).(ids := NewGame(seed).ids.(episode := WrappingAdd(s.ids.episode, 1)),
                               flags := NewGame(seed).flags.(started := true)));
  }

  lemma HoldClears(s: Game)
    ensures Held(s).1 ==> FlagOk(Held(s).0, false)
    ensures !Held(s).1 ==> Held(s).0 == s || Held(s).0.flags.gameOver
  {
    hide Spawn, Fits;
  }

  lemma HardDropClears(s: Game, turned: bool)
    requires Inv(s) && FlagOk(s, turned)
    ensures FlagOk(Apply(s, HardDrop).0, Turning(s, Act(HardDrop), turned))
  {
    hide Inv, LockDown, Landed, DropDistance, FlagOk;
    if !s.flags.paused && !s.flags.gameOver && s.active.Some? {
      var u := Grounding(s.(flags := s.flags.(rotatedLast := false)));
      InvPiece(s);
      LandedFits(s.board, s.active.value);
      LockChangesBoardId(u);
      LockClears(u);
      ScoreIgnored(LockDown(u), Apply(s, HardDrop).0);
    } else {
      NoPieceNoFlag(Apply(s, HardDrop).0, s, turned);
    }
  }

  lemma ScoreIgnored(s: Game, t: Game)
    requires FlagOk(s, false) && t.flags == s.flags && t.active == s.active
    ensures FlagOk(t, false)
  {
  }

  lemma NoPieceNoFlag(t: Game, s: Game, turned: bool)
    requires FlagOk(s, turned) && (t == s || t.active.None?)
    ensures FlagOk(t, turned) && (t.active.None? ==> FlagOk(t, false))
  {
  }

  lemma MovesFlag(s: Game, action: GameAction, turned: bool)
    requires FlagOk(s, turned)
    requires action in {MoveLeft, MoveRight, SoftDrop, RotateCw, RotateCcw, Pause}
    ensures FlagOk(Apply(s, action).0, Turning(s, Act(action), turned))
  {
    hide Fits, Grounded, TryRotate;
  }

  lemma TickFlag(s: Game, ms: u32, soft: bool, turned: bool)
    requires Inv(s) && AirClear(s) && SoftOk(s) && FlagOk(s, turned)
    ensures FlagOk(Tick(s, ms, soft).0, Turning(s, TickBy(ms, soft), turned))
  {
    hide Inv, AirClear, SoftOk, Tick, LockDown, LocksByTick, TickRows, DropDistance, Pace;
    if Plays(s, TickBy(ms, soft)) {
      var e := TickEnds(s, ms, soft);
      if LocksByTick(s, ms, soft) {
        LockClears(e);
        LockChangesBoardId(e);
      }
    } else {
      IdleFlag(s, ms, soft);
    }
  }

  lemma IdleFlag(s: Game, ms: u32, soft: bool)
    requires !Plays(s, TickBy(ms, soft))
    ensures var t := Tick(s, ms, soft).0; t.flags == s.flags && t.active == s.active && t.ids.board == s.ids.board
  {
    hide Advance;
  }

  lemma StepFlag(s: Game, op: Op, turned: bool)
    requires Inv(s) && AirClear(s) && SoftOk(s) && FlagOk(s, turned)
    ensures FlagOk(Step(s, op), Turning(s, op, turned))
  {
    hide Inv, AirClear, SoftOk, Tick, RestartWith, Spawn, FlagOk, Held, TryMove, TryTurn, HardDropped;
    match op
    case Begin => BeginFlag(s, turned);
    case Act(HardDrop) => HardDropClears(s, turned);
    case Act(Hold) => HoldFlag(s, turned);
    case Act(Restart) => RestartClears(s, s.queue.rng);
    case Act(a) => MovesFlag(s, a, turned);
    case TickBy(ms, soft) => TickFlag(s, ms, soft, turned);
    case RestartSeed(seed) => RestartClears(s, seed);
    case TakeEvent => EventFlag(s, turned);
  }

  lemma EventFlag(s: Game, turned: bool)
    requires FlagOk(s, turned)
    ensures FlagOk(Step(s, TakeEvent), Turning(s, TakeEvent, turned))
  {
  }

  lemma BeginFlag(s: Game, turned: bool)
    requires FlagOk(s, turned)
    ensures FlagOk(Start(s), Turning(s, Begin, turned))
  {
    hide Spawn;
    SpawnClears(s.(flags := s.flags.(started := true)));
    SpawnKeeps(s.(flags := s.flags.(started := true)));
  }

  lemma HoldFlag(s: Game, turned: bool)
    requires Inv(s) && FlagOk(s, turned)
    ensures FlagOk(Apply(s, Hold).0, Turning(s, Act(Hold), turned))
  {
    hide Spawn, Fits, Inv;
    HoldClears(s);
    SpawnKeeps(s.(hold := if s.active.Some? then Some(s.active.value.kind) else None));
  }

  lemma {:induction false} FlagOverRun(s: Game, ops: seq<Op>, turned: bool)
    requires Inv(s) && AirClear(s) && SoftOk(s) && FlagOk(s, turned)
    ensures FlagOk(Run(s, ops), TurnedLast(s, ops, turned))
    decreases |ops|
  {
    hide Inv, AirClear, SoftClock, Step, Asked, FlagOk, Turning;
    if ops == [] {
    } else {
      var since :| SoftClock(s, since);
      StepInv(s, ops[0]);
      StepRule(s, ops[0]);
      SoftDropStep(s, ops[0], since);
      StepFlag(s, ops[0], turned);
      FlagOverRun(Step(s, ops[0]), ops[1..], Turning(s, ops[0], turned));
    }
  }

  /**
    Over every run, the lock of the active piece can be a spin exactly if the last thing done to it
    was a turn that worked: no step aside and no soft drop since, falling by itself allowed.
  */
  lemma SpinNeedsTurn(seed: u32, ops: seq<Op>)
    ensures var s := Run(NewGame(seed), ops);
      s.active.Some? && !s.flags.gameOver ==>
        LockSpin(s) == if s.active.value.kind == T
                       then TSpin(FixedBoard(s), s.active.value, TurnedLast(NewGame(seed), ops, false)) else NoSpin
  {
    hide Inv, AirClear, Run, NewGame, TSpin, TurnedLast;
    var s := Run(NewGame(seed), ops);
    NewGameInv(seed);
    NoPieceYet(seed);
    NotAsked(seed);
    assert FlagOk(NewGame(seed), false) by { NewFlag(seed); }
    FlagOverRun(NewGame(seed), ops, false);
    RunInv(NewGame(seed), ops);
    if s.active.Some? { InvPiece(s); }
  }

  lemma NewFlag(seed: u32)
    ensures FlagOk(NewGame(seed), false)
  {
  }
}
