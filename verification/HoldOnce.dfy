/**
  A piece can be held once (crates/tetris-core/src/core/game_state.rs:259-295, 432-475): over every
  run a hold is refused exactly between a hold and the next lock.
*/
module HoldOnce {
  import opened Types
  import opened Grids
  import opened Pieces
  import opened QueueModule
  import opened GameModel
  import opened GameInvariant
  import opened LockDelayBudget
  import opened LockResets
  import opened GravityLaws

  /** Whether a hold was made since the last lock, start or restart. */
  predicate Spending(s: Game, op: Op, spent: bool) {
    if Restarts(op) || (op.Begin? && !s.flags.started) || Locks(s, op) then false
    else (op == Act(Hold) && Apply(s, Hold).1) || spent
  }

  predicate Spent(s: Game, ops: seq<Op>, spent: bool)
    decreases |ops|
  {
    if ops == [] then spent else Spent(Step(s, ops[0]), ops[1..], Spending(s, ops[0], spent))
  }

  predicate HoldFlag(s: Game, spent: bool) {
    !s.flags.gameOver ==> s.flags.canHold == !spent
  }

  lemma SpawnAllows(s: Game)
    ensures HoldFlag(Spawn(s), false)
  {
    hide Fits, Preview, Front, Drawn;
  }

  lemma LockAllows(s: Game)
    requires s.active.Some?
    ensures HoldFlag(LockDown(s), false)
  {
    hide Spawn, Fits, FixedBoard, LockSpin, FullRows, Compact, Scored;
    SpawnAllows(Settled(s));
  }

  lemma RestartAllows(s: Game, seed: u32)
    ensures HoldFlag(RestartWith(s, seed), false)
  {
    hide Spawn, Preview, Fresh;
    SpawnAllows(NewGame(seed).(ids := NewGame(seed).ids.(episode := WrappingAdd(s.ids.episode, 1)),
                               flags := NewGame(seed).flags.(started := true)));
  }

  lemma DropFlag(s: Game, spent: bool)
    requires Inv(s) && HoldFlag(s, spent)
    ensures HoldFlag(Apply(s, HardDrop).0, Spending(s, Act(HardDrop), spent))
  {
    hide Inv, LockDown, Landed, DropDistance, Fits;
    if !s.flags.paused && !s.flags.gameOver && s.active.Some? {
      var u := Grounding(s.(flags := s.flags.(rotatedLast := false)));
      InvPiece(s);
      LandedFits(s.board, s.active.value);
      LockChangesBoardId(u);
      LockAllows(u);
    }
  }

  lemma MovesKeepFlag(s: Game, action: GameAction)
    requires action in {MoveLeft, MoveRight, SoftDrop, RotateCw, RotateCcw, Pause}
    ensures var t := Apply(s, action).0;
      t.flags.canHold == s.flags.canHold && t.flags.gameOver == s.flags.gameOver && t.ids.board == s.ids.board
  {
    hide Fits, Grounded, TryRotate;
  }

  lemma HoldUses(s: Game, spent: bool)
    requires HoldFlag(s, spent)
    ensures HoldFlag(Apply(s, Hold).0, Spending(s, Act(Hold), spent))
  {
    hide Spawn, Fits;
    SpawnKeeps(s.(hold := if s.active.Some? then Some(s.active.value.kind) else None));
  }

  lemma TickFlag(s: Game, ms: u32, soft: bool, spent: bool)
    requires Inv(s) && AirClear(s) && SoftOk(s) && HoldFlag(s, spent)
    ensures HoldFlag(Tick(s, ms, soft).0, Spending(s, TickBy(ms, soft), spent))
  {
    hide Inv, AirClear, SoftOk, Tick, LockDown, LocksByTick, TickRows, DropDistance, Pace, Fits;
    if Plays(s, TickBy(ms, soft)) {
      var e := TickEnds(s, ms, soft);
      if LocksByTick(s, ms, soft) {
        LockAllows(e);
        LockChangesBoardId(e);
      }
    } else {
      IdleTick(s, ms, soft);
    }
  }

  lemma IdleTick(s: Game, ms: u32, soft: bool)
    requires !Plays(s, TickBy(ms, soft))
    ensures var t := Tick(s, ms, soft).0; t.flags == s.flags && t.ids.board == s.ids.board
  {
    hide Advance;
  }

  lemma StepFlag(s: Game, op: Op, spent: bool)
    requires Inv(s) && AirClear(s) && SoftOk(s) && HoldFlag(s, spent)
    ensures HoldFlag(Step(s, op), Spending(s, op, spent))
  {
    hide Inv, AirClear, SoftOk, Tick, RestartWith, Spawn, Held, TryMove, TryTurn, HardDropped;
    match op
    case Begin =>
      SpawnAllows(s.(flags := s.flags.(started := true)));
    case Act(HardDrop) => DropFlag(s, spent);
    case Act(Hold) => HoldUses(s, spent);
    case Act(Restart) => RestartAllows(s, s.queue.rng);
    case Act(a) => MovesKeepFlag(s, a);
    case TickBy(ms, soft) => TickFlag(s, ms, soft, spent);
    case RestartSeed(seed) => RestartAllows(s, seed);
    case TakeEvent =>
  }

  lemma {:induction false} FlagOverRun(s: Game, ops: seq<Op>, spent: bool)
    requires Inv(s) && AirClear(s) && SoftOk(s) && HoldFlag(s, spent)
    ensures Inv(Run(s, ops)) && HoldFlag(Run(s, ops), Spent(s, ops, spent))
    decreases |ops|
  {
    hide Inv, AirClear, SoftClock, Step, Asked, HoldFlag, Spending;
    if ops == [] {
    } else {
      var since :| SoftClock(s, since);
      StepInv(s, ops[0]);
      StepRule(s, ops[0]);
      SoftDropStep(s, ops[0], since);
      StepFlag(s, ops[0], spent);
      FlagOverRun(Step(s, ops[0]), ops[1..], Spending(s, ops[0], spent));
    }
  }

  /** What a hold does while play is on, when one was made before and when not. */
  ghost predicate HoldAnswers(s: Game, spent: bool) {
    var (t, ok) := Apply(s, Hold);
    if spent then t == s && !ok
    else
      && s.active.Some? && t.hold == Some(s.active.value.kind)
      && (ok <==> s.hold.None? || Fits(s.board, Spawned(s.hold.value)))
  }

  lemma Answers(s: Game, spent: bool)
    requires Inv(s) && HoldFlag(s, spent) && Runs(s)
    ensures HoldAnswers(s, spent)
  {
    hide Fits, Preview, Drawn, NoFullRow, PreviewOk, Paid, Counters;
  }

  /**
    Over every run, while play is on: if a hold was made since the last lock, start or restart, a hold
    is refused and changes nothing; otherwise the active piece goes into the slot, and the hold reports
    success exactly if the slot was empty or the piece in it fits.
  */
  lemma HoldExactly(seed: u32, ops: seq<Op>)
    ensures var s := Run(NewGame(seed), ops);
      Runs(s) ==> HoldAnswers(s, Spent(NewGame(seed), ops, false))
  {
    hide Inv, AirClear, Run, NewGame, Spent, HoldAnswers;
    NewGameInv(seed);
    NoPieceYet(seed);
    NotAsked(seed);
    assert HoldFlag(NewGame(seed), false) by { NotHeld(seed); }
    FlagOverRun(NewGame(seed), ops, false);
    if Runs(Run(NewGame(seed), ops)) { Answers(Run(NewGame(seed), ops), Spent(NewGame(seed), ops, false)); }
  }

  lemma NotHeld(seed: u32)
    ensures HoldFlag(NewGame(seed), false)
  {
  }

  // ---- between two holds -----------------------------------------------

  function LockCount(s: Game, ops: seq<Op>): nat
    decreases |ops|
  {
    if ops == [] then 0 else (if Locks(s, ops[0]) then 1 else 0) + LockCount(Step(s, ops[0]), ops[1..])
  }

  lemma {:induction false} StaysSpent(s: Game, ops: seq<Op>)
    requires s.flags.started && LockCount(s, ops) == 0 && forall i :: 0 <= i < |ops| ==> !Restarts(ops[i])
    ensures Spent(s, ops, true)
    decreases |ops|
  {
    hide Step;
    if ops == [] {
    } else {
      StaysStarted(s, ops[0]);
      StaysSpent(Step(s, ops[0]), ops[1..]);
    }
  }

  lemma StaysStarted(s: Game, op: Op)
    requires s.flags.started && !Restarts(op)
    ensures Step(s, op).flags.started
  {
    hide Fits, Grounded, TryRotate, Gravity, LockDown, Landed, DropDistance, Spawn;
    match op
    case Act(HardDrop) => if s.active.Some? {
      LockStarted(s.(flags := s.flags.(rotatedLast := false), active := Some(Landed(s.board, s.active.value))));
    }
    case Act(Hold) => if s.active.Some? { SpawnKeeps(s.(hold := Some(s.active.value.kind))); }
    case TickBy(ms, soft) => TickStarted(s, ms, soft);
    case _ =>
  }

  lemma LockStarted(s: Game)
    ensures LockDown(s).flags.started == s.flags.started
  {
    hide Spawn, Fits, FixedBoard, LockSpin, FullRows, Compact, Scored;
    if s.active.Some? { SpawnKeeps(Settled(s)); }
  }

  lemma TickStarted(s: Game, ms: u32, soft: bool)
    requires s.flags.started
    ensures Tick(s, ms, soft).0.flags.started
  {
    hide Fits, Grounded, Gravity, LockDown, OnGround;
    var a := SoftDropClock(Clocks(s, ms), ms, soft);
    var b := a.(timers := a.timers.(drop := SaturatingAdd(a.timers.drop, ms)));
    GravityStarted(b, DropInterval(a));
    var c := Gravity(b, DropInterval(a)).0;
    LockStarted(c.(timers := c.timers.(lock := 0, drop := 0)));
  }

  lemma {:induction false} GravityStarted(s: Game, interval: u32)
    requires interval > 0
    ensures Gravity(s, interval).0.flags.started == s.flags.started
    decreases s.timers.drop
  {
    hide TryMove;
    if s.timers.drop < interval {
    } else {
      var t := s.(timers := s.timers.(drop := s.timers.drop - interval));
      MoveKeeps(t, 0, 1);
      GravityStarted(TryMove(t, 0, 1).0, interval);
    }
  }

  /**
    From every reachable state, after a hold that reports success every further hold is refused with
    the game unchanged, whatever lies between, until a piece locks or the game is restarted: between
    two holds that succeed in one episode there is a lock.
  */
  lemma HoldsApart(s: Game, ops: seq<Op>)
    requires Reachable(s) && Apply(s, Hold).1 && forall i :: 0 <= i < |ops| ==> !Restarts(ops[i])
    ensures var t := Apply(s, Hold).0;
      var u := Run(t, ops);
      && (LockCount(t, ops) == 0 ==> Apply(u, Hold) == (u, false))
      && (Apply(u, Hold).1 ==> LockCount(t, ops) >= 1)
  {
    hide Inv, AirClear, SoftClock, Run, LockCount, Spent, Reachable, SinceAsked, Held;
    ReachableSoft(s);
    var t := Apply(s, Hold).0;
    var since :| SoftClock(s, since);
    assert Step(s, Act(Hold)) == t;
    StepInv(s, Act(Hold));
    StepRule(s, Act(Hold));
    SoftDropStep(s, Act(Hold), since);
    HoldStarted(s);
    assert HoldFlag(t, true) by { HoldUsed(s); }
    if LockCount(t, ops) == 0 {
      StaysSpent(t, ops);
      FlagOverRun(t, ops, true);
      Refused(Run(t, ops));
    }
  }

  lemma HoldStarted(s: Game)
    requires Inv(s) && Apply(s, Hold).1
    ensures Apply(s, Hold).0.flags.started
  {
    hide Fits, Spawn, NoFullRow, PreviewOk, Paid, Counters;
    SpawnKeeps(s.(hold := Some(s.active.value.kind)));
  }

  lemma HoldUsed(s: Game)
    requires Apply(s, Hold).1
    ensures HoldFlag(Apply(s, Hold).0, true)
  {
    hide Fits, Spawn;
  }

  lemma Refused(s: Game)
    requires HoldFlag(s, true)
    ensures Apply(s, Hold) == (s, false)
  {
    hide Fits, Spawn;
  }

  /** After a lock, if play goes on, the piece that came in can be held. */
  lemma LockFreesHold(s: Game, op: Op)
    requires Reachable(s) && Locks(s, op) && Runs(Step(s, op))
    ensures HoldAnswers(Step(s, op), false)
  {
    hide Inv, AirClear, SoftClock, Reachable, Step, HoldAnswers, Asked, SinceAsked;
    ReachableSoft(s);
    StepInv(s, op);
    var spent := s.flags.gameOver || !s.flags.canHold;
    assert HoldFlag(s, spent);
    StepFlag(s, op, spent);
    Answers(Step(s, op), false);
  }
}
