/** Conservation over whole runs: cells against locks and lines, pieces against locks and hold. */
module Accounting {
  import opened Types
  import opened Grids
  import opened Pieces
  import opened QueueModule
  import opened GameModel
  import opened GameInvariant

  /** The board after `locks` locks and `cleared` cleared rows of the current episode. */
  ghost predicate CellsAdd(s: Game, locks: nat, cleared: nat) {
    && s.ids.board == locks % TWO_TO_32
    && s.tally.lines == (if cleared > U32_MAX then U32_MAX else cleared)
    && Filled(s.board) == 4 * locks - 10 * cleared
  }

  function Stored(hold: Option<PieceKind>): nat {
    if hold.Some? then 1 else 0
  }

  /** Pieces spawned: one per lock, one active, one in the hold slot once it is filled. */
  ghost predicate PiecesAdd(s: Game, locks: nat) {
    if !s.flags.started then s.ids.piece == 0 && s.hold.None? && locks == 0
    else s.flags.gameOver || s.ids.piece == (locks + 1 + Stored(s.hold)) % TWO_TO_32
  }

  ghost predicate Accounts(s: Game, locks: nat, cleared: nat) {
    CellsAdd(s, locks, cleared) && PiecesAdd(s, locks)
  }

  /** Accounts looks only at the board, the tally's lines, two ids, the hold slot and two flags. */
  lemma AccountsIgnores(s: Game, t: Game, locks: nat, cleared: nat)
    requires Accounts(s, locks, cleared)
    requires t.board == s.board && t.tally.lines == s.tally.lines && t.hold == s.hold
    requires t.ids.board == s.ids.board && t.ids.piece == s.ids.piece
    requires t.flags.started == s.flags.started && (t.flags.gameOver == s.flags.gameOver || t.flags.gameOver)
    requires t.flags.gameOver ==> t.flags.started
    ensures Accounts(t, locks, cleared)
  {
  }

  lemma NewGameAccounts(seed: u32)
    ensures Accounts(NewGame(seed), 0, 0)
  {
    hide Preview, Fresh;
    FilledEmpty(HEIGHT);
  }

  lemma SpawnAccounts(s: Game, locks: nat, cleared: nat)
    requires s.flags.started && CellsAdd(s, locks, cleared)
    requires s.ids.piece == (locks + Stored(s.hold)) % TWO_TO_32
    ensures Accounts(Spawn(s), locks, cleared)
  {
    hide Fits, Preview, Front, Drawn, Filled, WrappingAdd;
    CountUp(locks + Stored(s.hold));
  }

  lemma CountUp(n: nat)
    ensures WrappingAdd(n % TWO_TO_32, 1) == (n + 1) % TWO_TO_32
  {
  }

  lemma SettledAccounts(s: Game, locks: nat, cleared: nat)
    requires s.active.Some? && Fits(s.board, s.active.value)
    requires CellsAdd(s, locks, cleared)
    ensures CellsAdd(Settled(s), locks + 1, cleared + |FullRows(FixedBoard(s))|)
    ensures Settled(s).ids.piece == s.ids.piece && Settled(s).hold == s.hold && Settled(s).flags == s.flags
  {
    hide Fits, Filled, Compact, FullRows, Fixed, LockSpin, WrappingAdd;
    FixedCounts(s.board, s.active.value);
    CompactGrid(FixedBoard(s));
    CountUp(locks);
  }

  lemma LockAccounts(s: Game, locks: nat, cleared: nat)
    requires Inv(s) && s.active.Some? && s.flags.started && !s.flags.gameOver
    requires Accounts(s, locks, cleared)
    ensures Accounts(LockDown(s), locks + 1, cleared + |FullRows(FixedBoard(s))|)
  {
    hide Fits, Filled, FullRows, FixedBoard, Settled, Spawn, Preview, QueueOk, NoFullRow, Paid;
    SettledAccounts(s, locks, cleared);
    SpawnAccounts(Settled(s), locks + 1, cleared + |FullRows(FixedBoard(s))|);
  }

  lemma MoveAccounts(s: Game, dx: int, dy: int, locks: nat, cleared: nat)
    requires Accounts(s, locks, cleared)
    requires s.flags.gameOver ==> s.flags.started
    ensures Accounts(TryMove(s, dx, dy).0, locks, cleared)
  {
    hide Fits, Grounded, Accounts;
    AccountsIgnores(s, TryMove(s, dx, dy).0, locks, cleared);
  }

  lemma {:induction false} GravityAccounts(s: Game, interval: u32, locks: nat, cleared: nat)
    requires Accounts(s, locks, cleared) && interval > 0
    requires s.flags.gameOver ==> s.flags.started
    ensures Accounts(Gravity(s, interval).0, locks, cleared)
    decreases s.timers.drop
  {
    hide Accounts, TryMove;
    if s.timers.drop >= interval {
      var t := s.(timers := s.timers.(drop := s.timers.drop - interval));
      AccountsIgnores(s, t, locks, cleared);
      MoveAccounts(t, 0, 1, locks, cleared);
      MoveKeeps(t, 0, 1);
      GravityAccounts(TryMove(t, 0, 1).0, interval, locks, cleared);
    }
  }

  /** What happened to the counts: nothing, one lock, or a new episode. */
  ghost predicate Counted(t: Game, locks: nat, cleared: nat, locks': nat, cleared': nat) {
    && Accounts(t, locks', cleared')
    && ((locks' == locks && cleared' == cleared)
      || (locks' == locks + 1 && cleared <= cleared' <= cleared + 4)
      || (locks' == 0 && cleared' == 0))
  }

  lemma GravityKeepsPlaying(s: Game, interval: u32)
    requires interval > 0
    ensures var r := Gravity(s, interval).0;
      r.flags.started == s.flags.started && r.flags.gameOver == s.flags.gameOver && r.flags.paused == s.flags.paused
    decreases s.timers.drop
  {
    hide Fits, Grounded;
    if s.timers.drop >= interval {
      var t := s.(timers := s.timers.(drop := s.timers.drop - interval));
      MoveKeeps(t, 0, 1);
      GravityKeepsPlaying(TryMove(t, 0, 1).0, interval);
    }
  }

  lemma LockDelayAccounts(s: Game, elapsed: u32, locks: nat, cleared: nat) returns (locks': nat, cleared': nat)
    requires Inv(s) && s.flags.started && !s.flags.gameOver && Accounts(s, locks, cleared)
    ensures Counted(LockDelay(s, elapsed).0, locks, cleared, locks', cleared')
  {
    hide Fits, Grounded, FullRows, FixedBoard, LockDown, Preview, QueueOk, NoFullRow, Paid, Accounts;
    var t := s.(timers := s.timers.(lock := 0, drop := 0));
    locks', cleared' := locks, cleared;
    if OnGround(s) && SaturatingAdd(s.timers.lock, elapsed) >= LOCK_DELAY_MS {
      AccountsIgnores(s, t, locks, cleared);
      PaidIgnores(s, t);
      SettledInv(t);
      LockAccounts(t, locks, cleared);
      locks', cleared' := locks + 1, cleared + |FullRows(FixedBoard(t))|;
    } else {
      AccountsIgnores(s, LockDelay(s, elapsed).0, locks, cleared);
    }
  }

  lemma TickAccounts(s: Game, elapsed: u32, softDrop: bool, locks: nat, cleared: nat)
    returns (locks': nat, cleared': nat)
    requires Inv(s) && Accounts(s, locks, cleared)
    ensures Counted(Tick(s, elapsed, softDrop).0, locks, cleared, locks', cleared')
  {
    hide Fits, Grounded, Preview, QueueOk, NoFullRow, Paid, Accounts, LockDelay, Gravity;
    locks', cleared' := locks, cleared;
    if Runs(s) {
      var a := Clocks(s, elapsed);
      var b := SoftDropClock(a, elapsed, softDrop);
      var c := b.(timers := b.timers.(drop := SaturatingAdd(b.timers.drop, elapsed)));
      AccountsIgnores(s, a, locks, cleared);
      AccountsIgnores(s, c, locks, cleared);
      PaidIgnores(s, c);
      GravityAccounts(c, DropInterval(b), locks, cleared);
      GravityInv(c, DropInterval(b));
      GravityKeepsPlaying(c, DropInterval(b));
      if a.timers.lineClear == 0 && a.active.Some? {
        locks', cleared' := LockDelayAccounts(Gravity(c, DropInterval(b)).0, elapsed, locks, cleared);
      }
    }
  }

  lemma DropAccounts(s: Game, locks: nat, cleared: nat) returns (locks': nat, cleared': nat)
    requires Inv(s) && !s.flags.gameOver && Accounts(s, locks, cleared)
    ensures Counted(HardDropped(s), locks, cleared, locks', cleared')
  {
    hide Fits, Preview, QueueOk, NoFullRow, Paid, Accounts, LockDown, Landed, FullRows, FixedBoard, DropDistance;
    locks', cleared' := locks, cleared;
    var t := s.(flags := s.flags.(rotatedLast := false));
    if s.active.Some? {
      var u := Grounding(t);
      AccountsIgnores(s, u, locks, cleared);
      PaidIgnores(s, u);
      LandedFits(s.board, s.active.value);
      SettledInv(u);
      LockAccounts(u, locks, cleared);
      locks', cleared' := locks + 1, cleared + |FullRows(FixedBoard(u))|;
      LockInv(u);
      AccountsIgnores(LockDown(u), HardDropped(s), locks', cleared');
    } else {
      AccountsIgnores(s, HardDropped(s), locks, cleared);
    }
  }

  lemma HoldAccounts(s: Game, locks: nat, cleared: nat)
    requires Inv(s) && !s.flags.gameOver && Accounts(s, locks, cleared)
    ensures Accounts(Held(s).0, locks, cleared)
  {
    hide Fits, Preview, Front, QueueOk, NoFullRow, Paid, Spawn, Filled;
    if s.flags.canHold && s.active.Some? && s.hold.None? {
      var t := s.(hold := Some(s.active.value.kind));
      SpawnAccounts(t, locks, cleared);
      PaidIgnores(s, t);
      SpawnInv(t);
      AccountsIgnores(Spawn(t), AfterHold(Spawn(t)), locks, cleared);
    }
  }

  lemma RestartAccounts(s: Game, seed: u32)
    ensures Accounts(RestartWith(s, seed), 0, 0)
  {
    hide Fits, Preview, Front, Fresh, Spawn, Filled, EmptyGrid;
    NewGameAccounts(seed);
    var g := NewGame(seed);
    SpawnAccounts(g.(ids := g.ids.(episode := WrappingAdd(s.ids.episode, 1)),
                     flags := g.flags.(started := true)), 0, 0);
  }

  lemma StartAccounts(s: Game, locks: nat, cleared: nat)
    requires Inv(s) && Accounts(s, locks, cleared)
    ensures Accounts(Start(s), locks, cleared)
  {
    hide Fits, Preview, Front, Spawn, Filled, Inv;
    if !s.flags.started { SpawnAccounts(s.(flags := s.flags.(started := true)), locks, cleared); }
  }

  lemma ApplyAccounts(s: Game, action: GameAction, locks: nat, cleared: nat) returns (locks': nat, cleared': nat)
    requires Inv(s) && Accounts(s, locks, cleared)
    ensures Counted(Apply(s, action).0, locks, cleared, locks', cleared')
  {
    hide Fits, Grounded, Preview, QueueOk, NoFullRow, Paid, Accounts,
      TryMove, TryTurn, Held, HardDropped, RestartWith;
    locks', cleared' := locks, cleared;
    if action == Restart {
      RestartAccounts(s, s.queue.rng);
      locks', cleared' := 0, 0;
    } else if action == HardDrop && !s.flags.gameOver && !s.flags.paused {
      locks', cleared' := DropAccounts(s, locks, cleared);
    } else {
      match action
      case MoveLeft => MoveAccounts(s, -1, 0, locks, cleared);
      case MoveRight => MoveAccounts(s, 1, 0, locks, cleared);
      case SoftDrop =>
        MoveAccounts(s, 0, 1, locks, cleared);
        MoveInv(s, 0, 1);
        AccountsIgnores(TryMove(s, 0, 1).0, AfterSoftDrop(TryMove(s, 0, 1).0, TryMove(s, 0, 1).1), locks, cleared);
      case HardDrop =>
      case RotateCw => TurnAccounts(s, true, locks, cleared);
      case RotateCcw => TurnAccounts(s, false, locks, cleared);
      case Hold => if !s.flags.gameOver { HoldAccounts(s, locks, cleared); }
      case Pause => AccountsIgnores(s, TogglePause(s), locks, cleared);
    }
  }

  lemma TurnAccounts(s: Game, clockwise: bool, locks: nat, cleared: nat)
    requires Accounts(s, locks, cleared)
    requires s.flags.gameOver ==> s.flags.started
    ensures Accounts(TryTurn(s, clockwise).0, locks, cleared)
  {
    hide Fits, Grounded, Accounts, TryRotate;
    AccountsIgnores(s, TryTurn(s, clockwise).0, locks, cleared);
  }

  lemma StepAccounts(s: Game, op: Op, locks: nat, cleared: nat) returns (locks': nat, cleared': nat)
    requires Inv(s) && Accounts(s, locks, cleared)
    ensures Counted(Step(s, op), locks, cleared, locks', cleared')
  {
    hide Inv, Accounts, Start, Apply, Tick, RestartWith;
    locks', cleared' := locks, cleared;
    match op
    case Begin => StartAccounts(s, locks, cleared);
    case Act(a) => locks', cleared' := ApplyAccounts(s, a, locks, cleared);
    case TickBy(ms, soft) => locks', cleared' := TickAccounts(s, ms, soft, locks, cleared);
    case RestartSeed(seed) =>
      RestartAccounts(s, seed);
      locks', cleared' := 0, 0;
    case TakeEvent =>
      OverMeansStarted(s);
      AccountsIgnores(s, s.(lastEvent := None), locks, cleared);
  }

  lemma OverMeansStarted(s: Game)
    requires Inv(s)
    ensures s.flags.gameOver ==> s.flags.started
  {
    hide Fits, NoFullRow, PreviewOk, Paid, Counters;
  }

  /** Whole runs: the counts exist, and a run of n operations makes at most n locks. */
  lemma {:induction false} RunAccounts(s: Game, ops: seq<Op>, locks: nat, cleared: nat)
    returns (locks': nat, cleared': nat)
    requires Inv(s) && Accounts(s, locks, cleared)
    ensures Accounts(Run(s, ops), locks', cleared') && locks' <= locks + |ops|
    decreases |ops|
  {
    hide Inv, Accounts, Step;
    locks', cleared' := locks, cleared;
    if ops == [] {
    } else {
      var l, c := StepAccounts(s, ops[0], locks, cleared);
      StepInv(s, ops[0]);
      locks', cleared' := RunAccounts(Step(s, ops[0]), ops[1..], l, c);
    }
  }

  lemma ExactCounts(s: Game, locks: nat, cleared: nat)
    requires Accounts(s, locks, cleared) && locks + 2 < TWO_TO_32
    ensures Filled(s.board) == 4 * s.ids.board - 10 * s.tally.lines
    ensures s.flags.started && !s.flags.gameOver ==> s.ids.piece == s.ids.board + 1 + Stored(s.hold)
  {
    hide Filled;
    assert 10 * cleared <= 4 * locks;
  }

  /**
    Cell conservation: after any run of fewer than 2^32 operations, whatever its restarts, holds,
    pauses and game over, the filled cells are four per lock less ten per cleared row, and while
    play goes on one piece has been spawned per lock, one is active and one is held.
  */
  lemma Conservation(seed: u32, ops: seq<Op>)
    requires |ops| + 2 < TWO_TO_32
    ensures var s := Run(NewGame(seed), ops);
      && Filled(s.board) == 4 * s.ids.board - 10 * s.tally.lines
      && (s.flags.started && !s.flags.gameOver ==> s.ids.piece == s.ids.board + 1 + Stored(s.hold))
  {
    hide Inv, NewGame, Run, Accounts;
    NewGameInv(seed);
    NewGameAccounts(seed);
    var locks, cleared := RunAccounts(NewGame(seed), ops, 0, 0);
    ExactCounts(Run(NewGame(seed), ops), locks, cleared);
  }

  /** Without any bound the same holds of unbounded counts that the two stored ids truncate. */
  lemma ConservationUnbounded(seed: u32, ops: seq<Op>)
    ensures exists locks: nat, cleared: nat :: Accounts(Run(NewGame(seed), ops), locks, cleared)
  {
    hide Inv, NewGame, Run, Accounts;
    NewGameInv(seed);
    NewGameAccounts(seed);
    var locks, cleared := RunAccounts(NewGame(seed), ops, 0, 0);
  }

  // ---- what a hold does with the pieces --------------------------------

  /** The kinds in play: the active piece and the held one. */
  ghost function InPlay(s: Game): multiset<PieceKind> {
    (if s.active.Some? then multiset{s.active.value.kind} else multiset{})
    + (if s.hold.Some? then multiset{s.hold.value} else multiset{})
  }

  /** The piece a hold brings in: the held one, or the next of the queue when the slot is empty. */
  function Incoming(s: Game): PieceKind {
    if s.hold.Some? then s.hold.value else Front(s.queue)
  }

  /** What the step from s to t took from the queue. */
  ghost function Entered(s: Game, t: Game): multiset<PieceKind> {
    if t.queue == s.queue then multiset{} else multiset{Front(s.queue)}
  }

  lemma QueueMoves(q: PieceSource)
    ensures Advanced(q) != q
  {
  }

  lemma HoldOutcome(s: Game)
    requires Runs(s) && s.flags.canHold && s.active.Some?
    ensures var t := Apply(s, Hold).0;
      && t.hold == Some(s.active.value.kind)
      && (t.flags.gameOver <==> !Fits(s.board, Spawned(Incoming(s))))
      && (if !t.flags.gameOver then
            && t.active == Some(Spawned(Incoming(s)))
            && (if s.hold.Some? then t.queue == s.queue else t.queue != s.queue)
          else t.queue == s.queue && t.active == if s.hold.None? then s.active else None)
  {
    hide Fits, Preview, Drawn;
    QueueMoves(s.queue);
  }

  lemma TwoKinds(a: PieceKind, b: PieceKind)
    ensures multiset{a} + multiset{b} == multiset{b} + multiset{a} + multiset{}
    ensures multiset{} + multiset{a} != multiset{a} + multiset{b} + multiset{}
    ensures multiset{b} + multiset{a} == multiset{a} + multiset{} + multiset{b}
    ensures multiset{a} + multiset{a} != multiset{a} + multiset{} + multiset{}
  {
    assert |multiset{a} + multiset{b} + multiset{}| == 2 && |multiset{} + multiset{a}| == 1;
    assert |multiset{a} + multiset{a}| == 2 && |multiset{a} + multiset{} + multiset{}| == 1;
  }

  /**
    A hold that is allowed keeps the pieces, those it takes from the queue included, exactly when the
    piece it brings in fits, and otherwise ends the game: with the slot empty the active piece is
    then both active and held, with the slot taken the held piece is gone.
  */
  lemma HoldKeepsPiecesExactly(s: Game)
    requires Runs(s) && s.flags.canHold && s.active.Some?
    ensures var t := Apply(s, Hold).0;
      && (InPlay(t) == InPlay(s) + Entered(s, t) <==> Fits(s.board, Spawned(Incoming(s))))
      && (t.flags.gameOver <==> !Fits(s.board, Spawned(Incoming(s))))
      && (t.flags.gameOver && s.hold.None? ==> t.active == s.active && t.hold == Some(s.active.value.kind))
      && (t.flags.gameOver && s.hold.Some? ==> t.active.None? && t.hold == Some(s.active.value.kind))
  {
    hide Fits, Apply, Runs;
    HoldOutcome(s);
    TwoKinds(s.active.value.kind, Incoming(s));
    TwoKinds(Incoming(s), s.active.value.kind);
  }
}
