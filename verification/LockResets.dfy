/**
  How many lock-delay resets one piece can use (crates/tetris-core/src/core/game_state.rs). The
  counter is cleared whenever the piece is in the air, so the limit of fifteen binds each stretch
  on the ground and not the piece.
*/
module LockResets {
  import opened Types
  import opened Grids
  import opened Pieces
  import opened QueueModule
  import opened GameModel
  import opened GameInvariant
  import opened LockDelayBudget

  // ---- what every step does to the counter -----------------------------

  /** While the piece can still fall, lock timer and reset counter are zero. */
  predicate AirClear(s: Game) {
    s.active.Some? && !OnGround(s) ==> s.timers.resets == 0 && s.timers.lock == 0
  }

  /**
    From s to t, the same piece: a piece that stayed put keeps its counter, one that moved and rests
    used a reset while any was left, and one in the air has none used.
  */
  predicate ResetRule(s: Game, t: Game) {
    && t.active.Some?
    && (t.active == s.active ==> t.timers.resets == s.timers.resets)
    && (t.active != s.active && OnGround(t) ==>
          t.timers.resets == if s.timers.resets < LOCK_RESET_LIMIT then s.timers.resets + 1 else s.timers.resets)
    && (!OnGround(t) ==> t.timers.resets == 0)
  }

  lemma MoveRule(s: Game, dx: int, dy: int)
    requires AirClear(s) && s.active.Some? && (dx, dy) != (0, 0)
    ensures var t := TryMove(s, dx, dy).0; AirClear(t) && ResetRule(s, t)
  {
    hide Fits, Grounded;
  }

  lemma TurnRule(s: Game, clockwise: bool)
    requires AirClear(s) && s.active.Some?
    ensures var t := TryTurn(s, clockwise).0; AirClear(t) && ResetRule(s, t)
  {
    hide Fits, Grounded, FirstKick, Kicks;
  }

  lemma SpawnAir(s: Game)
    requires AirClear(s)
    ensures AirClear(Spawn(s))
  {
    hide Fits, Grounded, Preview, Front, Drawn;
  }

  lemma LockAir(s: Game)
    requires AirClear(s) || s.active.Some?
    ensures AirClear(LockDown(s))
  {
    hide Spawn, Fits, Grounded, FixedBoard, LockSpin, FullRows, Compact, Scored;
    if s.active.Some? { SpawnAir(Settled(s)); }
  }

  lemma HoldAir(s: Game)
    requires AirClear(s)
    ensures AirClear(Held(s).0)
  {
    hide Spawn, Fits, Grounded;
    SpawnAir(s.(hold := Some(if s.active.Some? then s.active.value.kind else I)));
  }

  lemma StartAir(s: Game)
    requires AirClear(s)
    ensures AirClear(Start(s))
  {
    hide Spawn, Fits, Grounded;
    SpawnAir(s.(flags := s.flags.(started := true)));
  }

  lemma RestartAir(s: Game, seed: u32)
    ensures AirClear(RestartWith(s, seed))
  {
    hide Start, Fresh, Preview;
    StartAir(NewGame(seed).(ids := NewGame(seed).ids.(episode := WrappingAdd(s.ids.episode, 1))));
  }

  /** A fall ends in the air with nothing used or, having moved, on the ground with one reset used. */
  lemma {:induction false} GravityRule(s: Game, interval: u32)
    requires AirClear(s) && s.active.Some? && interval > 0
    ensures var t := Gravity(s, interval).0; AirClear(t) && t.active.Some? && ResetRule(s, t)
    decreases s.timers.drop
  {
    hide TryMove, OnGround;
    if s.timers.drop >= interval {
      var u := s.(timers := s.timers.(drop := s.timers.drop - interval));
      GroundIgnores(s, u);
      if OnGround(s) {
        GravityOnGround(s, interval);
        GroundIgnores(s, Gravity(s, interval).0);
      } else {
        MoveRule(u, 0, 1);
        MoveKeepsTimer(u, 0, 1);
        FallMoves(u);
        GravityRule(TryMove(u, 0, 1).0, interval);
        var v := TryMove(u, 0, 1).0;
        Lower(v, interval);
        FallKeeps(v, interval);
        if Gravity(v, interval).0.active == v.active { GroundIgnores(v, Gravity(v, interval).0); }
      }
    }
  }

  lemma GroundIgnores(s: Game, t: Game)
    requires t.active == s.active && t.board == s.board
    ensures OnGround(t) == OnGround(s)
  {
  }

  lemma FallMoves(s: Game)
    requires s.active.Some? && !OnGround(s)
    ensures TryMove(s, 0, 1).0.active == Some(s.active.value.Moved(0, 1))
  {
    hide Fits, Grounded;
    GroundedMeaning(s.board, s.active.value);
  }

  /** Gravity never lifts a piece. */
  lemma {:induction false} Lower(s: Game, interval: u32)
    requires s.active.Some? && interval > 0
    ensures var t := Gravity(s, interval).0;
      && t.active.Some? && t.active.value.y >= s.active.value.y
      && (OnGround(s) ==> t.active == s.active)
    decreases s.timers.drop
  {
    hide Fits, Grounded;
    if s.timers.drop >= interval {
      var u := s.(timers := s.timers.(drop := s.timers.drop - interval));
      MoveKeepsTimer(u, 0, 1);
      if OnGround(s) { GravityOnGround(s, interval); }
      Lower(TryMove(u, 0, 1).0, interval);
    }
  }

  lemma TickRule(s: Game, elapsed: u32, softDrop: bool)
    requires AirClear(s)
    ensures var t := Tick(s, elapsed, softDrop).0;
      AirClear(t) && (s.active.Some? && Inv(s) && SamePiece(s, t) ==> ResetRule(s, t))
  {
    hide OnGround, LockDown, Gravity, Inv;
    if Runs(s) && s.active.Some? {
      var a := Clocks(s, elapsed);
      var b := SoftDropClock(a, elapsed, softDrop);
      var c := b.(timers := b.timers.(drop := SaturatingAdd(b.timers.drop, elapsed)));
      GroundIgnores(s, a);
      GroundIgnores(s, c);
      GravityRule(c, DropInterval(b));
      var d := Gravity(c, DropInterval(b)).0;
      var e := d.(timers := d.timers.(lock := 0, drop := 0));
      GroundIgnores(d, LockDelay(d, elapsed).0.(active := d.active, board := d.board));
      LockAir(e);
      if Inv(s) { LockEndsPiece(s, c, DropInterval(b), e); }
    }
  }

  /** The lock at the end of a tick changes the board id. */
  lemma LockEndsPiece(s: Game, c: Game, interval: u32, e: Game)
    requires Inv(s) && s.active.Some? && interval > 0
    requires c.board == s.board && c.active == s.active && c.ids.board == s.ids.board
    requires var d := Gravity(c, interval).0; e == d.(timers := d.timers.(lock := 0, drop := 0))
    ensures LockDown(e).ids.board != s.ids.board
  {
    hide Gravity, LockDown, Preview, QueueOk, NoFullRow, Paid;
    FallKeeps(c, interval);
    LockChangesBoardId(e);
  }

  lemma {:induction false} FallKeeps(s: Game, interval: u32)
    requires s.active.Some? && interval > 0
    ensures var t := Gravity(s, interval).0;
      && t.active.Some? && t.ids == s.ids && t.board == s.board
      && (Fits(s.board, s.active.value) ==> Fits(t.board, t.active.value))
    decreases s.timers.drop
  {
    hide Fits, Grounded;
    if s.timers.drop >= interval {
      var u := s.(timers := s.timers.(drop := s.timers.drop - interval));
      MoveKeepsTimer(u, 0, 1);
      FallKeeps(TryMove(u, 0, 1).0, interval);
    }
  }

  lemma ActRule(s: Game, action: GameAction)
    requires Inv(s) && AirClear(s)
    ensures var t := Apply(s, action).0;
      AirClear(t) && (s.active.Some? && SamePiece(s, t) ==> ResetRule(s, t))
  {
    hide Inv, TryMove, TryTurn, Held, Dropped, RestartWith, AirClear, ResetRule, OnGround;
    SameCounters(s, s, s);
    match action
    case MoveLeft => MoveAct(s, -1, 0);
    case MoveRight => MoveAct(s, 1, 0);
    case SoftDrop =>
      var (moved, ok) := TryMove(s, 0, 1);
      MoveAct(s, 0, 1);
      SameCounters(s, moved, AfterSoftDrop(moved, ok));
    case HardDrop => DropRule(s);
    case RotateCw => TurnAct(s, true);
    case RotateCcw => TurnAct(s, false);
    case Hold => HoldRule(s);
    case Pause => SameCounters(s, s, TogglePause(s));
    case Restart =>
      RestartAir(s, s.queue.rng);
      RestartEpisode(s, s.queue.rng);
  }

  /** Neither predicate looks beyond board, piece and the two counters. */
  lemma SameCounters(s: Game, t: Game, u: Game)
    requires u.board == t.board && u.active == t.active
    requires u.timers.lock == t.timers.lock && u.timers.resets == t.timers.resets
    requires AirClear(t) && (t == s || s.active.None? || ResetRule(s, t))
    ensures AirClear(u) && (s.active.Some? ==> ResetRule(s, u))
  {
    hide Grounded;
  }

  lemma MoveAct(s: Game, dx: int, dy: int)
    requires AirClear(s) && (dx, dy) != (0, 0)
    ensures var t := TryMove(s, dx, dy).0; AirClear(t) && (s.active.Some? ==> ResetRule(s, t))
  {
    hide Fits, Grounded;
    if s.active.Some? { MoveRule(s, dx, dy); }
  }

  lemma TurnAct(s: Game, clockwise: bool)
    requires AirClear(s)
    ensures var t := TryTurn(s, clockwise).0; AirClear(t) && (s.active.Some? ==> ResetRule(s, t))
  {
    hide Fits, Grounded, FirstKick;
    if s.active.Some? { TurnRule(s, clockwise); }
  }

  lemma DropRule(s: Game)
    requires Inv(s) && AirClear(s)
    ensures var t := HardDropped(s); AirClear(t) && (s.active.Some? ==> !SamePiece(s, t))
  {
    hide Fits, Grounded, LockDown, Landed, NoFullRow, Preview, QueueOk, Paid;
    if s.active.Some? {
      var u := s.(flags := s.flags.(rotatedLast := false), active := Some(Landed(s.board, s.active.value)));
      LandedFits(s.board, s.active.value);
      LockChangesBoardId(u);
      LockAir(u);
    }
  }

  lemma HoldRule(s: Game)
    requires Inv(s) && AirClear(s)
    ensures var t := Held(s).0;
      AirClear(t) && (s.active.Some? && SamePiece(s, t) ==> ResetRule(s, t))
  {
    hide Fits, Grounded, Preview, Front, Drawn, NoFullRow, QueueOk, Paid;
    HoldAir(s);
  }

  lemma StepRule(s: Game, op: Op)
    requires Inv(s) && AirClear(s)
    ensures var t := Step(s, op);
      AirClear(t) && (s.active.Some? && SamePiece(s, t) ==> ResetRule(s, t))
  {
    hide Inv, Apply, Tick, RestartWith, Start, AirClear, ResetRule, OnGround;
    match op
    case Begin =>
      StartAir(s);
      if s.active.Some? {
        StartedIfPiece(s);
        SameCounters(s, s, s);
      }
    case Act(a) => ActRule(s, a);
    case TickBy(ms, soft) => TickRule(s, ms, soft);
    case RestartSeed(seed) =>
      RestartAir(s, seed);
      RestartEpisode(s, seed);
    case TakeEvent => SameCounters(s, s, s.(lastEvent := None));
  }

  lemma StartedIfPiece(s: Game)
    requires Inv(s) && s.active.Some?
    ensures Start(s) == s
  {
    hide NoFullRow, PreviewOk, Paid, Fits, Spawn;
  }

  // ---- counting along a run --------------------------------------------

  /** The state after the first n operations of the run. */
  function At(s: Game, ops: seq<Op>, n: nat): Game
    requires n <= |ops|
  {
    Run(s, ops[..n])
  }

  lemma {:induction false} RunOneMore(s: Game, ops: seq<Op>, op: Op)
    ensures Run(s, ops + [op]) == Step(Run(s, ops), op)
    decreases |ops|
  {
    hide Step;
    if ops == [] {
      assert Run(s, [op]) == Run(Step(s, op), []);
    } else {
      assert (ops + [op])[1..] == ops[1..] + [op];
      RunOneMore(Step(s, ops[0]), ops[1..], op);
    }
  }

  lemma {:induction false} RunAppend(s: Game, a: seq<Op>, b: seq<Op>)
    ensures Run(s, a + b) == Run(Run(s, a), b)
    decreases |a|
  {
    hide Step;
    if a == [] {
      assert a + b == b;
    } else {
      assert (a + b)[1..] == a[1..] + b;
      RunAppend(Step(s, a[0]), a[1..], b);
    }
  }

  lemma AtNext(s: Game, ops: seq<Op>, n: nat)
    requires n < |ops|
    ensures At(s, ops, n + 1) == Step(At(s, ops, n), ops[n])
  {
    hide Step, Run;
    assert ops[..n + 1] == ops[..n] + [ops[n]];
    RunOneMore(s, ops[..n], ops[n]);
  }

  /** The same piece is in play all along. */
  predicate OnePiece(s: Game, ops: seq<Op>) {
    s.active.Some? && forall n :: 0 <= n < |ops| ==> SamePiece(At(s, ops, n), At(s, ops, n + 1))
  }

  /** Resets used in the first n operations: every increase of the counter. */
  function ResetsUsed(s: Game, ops: seq<Op>, n: nat): nat
    requires n <= |ops|
  {
    if n == 0 then 0
    else
      var a, b := At(s, ops, n - 1).timers.resets, At(s, ops, n).timers.resets;
      ResetsUsed(s, ops, n - 1) + (if b > a then b - a else 0)
  }

  /** The counter's values when the piece left the ground with resets used, in order. */
  function Liftoffs(s: Game, ops: seq<Op>, n: nat): seq<nat>
    requires n <= |ops|
  {
    if n == 0 then []
    else
      var a, b := At(s, ops, n - 1), At(s, ops, n);
      Liftoffs(s, ops, n - 1) + (if a.timers.resets > 0 && !OnGround(b) then [a.timers.resets] else [])
  }

  function Sum(ns: seq<nat>): nat {
    if ns == [] then 0 else Sum(ns[..|ns| - 1]) + ns[|ns| - 1]
  }

  lemma SumOneMore(ns: seq<nat>, n: nat)
    ensures Sum(ns + [n]) == Sum(ns) + n
  {
    assert (ns + [n])[..|ns|] == ns;
  }

  lemma {:induction false} StaysOk(s: Game, ops: seq<Op>, n: nat)
    requires Inv(s) && AirClear(s) && OnePiece(s, ops) && n <= |ops|
    ensures Inv(At(s, ops, n)) && AirClear(At(s, ops, n)) && At(s, ops, n).active.Some?
  {
    hide Inv, AirClear, Step, Run, SamePiece;
    if n == 0 {
      assert Run(s, []) == s by { NoSteps(s); }
    } else {
      StaysOk(s, ops, n - 1);
      AtNext(s, ops, n - 1);
      StepInv(At(s, ops, n - 1), ops[n - 1]);
      StepRule(At(s, ops, n - 1), ops[n - 1]);
      RuleHasPiece(At(s, ops, n - 1), At(s, ops, n));
    }
  }

  lemma RuleHasPiece(s: Game, t: Game)
    requires ResetRule(s, t)
    ensures t.active.Some?
  {
  }

  lemma NoSteps(s: Game)
    ensures Run(s, []) == s
  {
  }

  /** One step of the run, seen through its counts. */
  lemma CountStep(s: Game, ops: seq<Op>, n: nat)
    requires Inv(s) && AirClear(s) && OnePiece(s, ops) && n < |ops|
    ensures ResetRule(At(s, ops, n), At(s, ops, n + 1))
    ensures At(s, ops, n).timers.resets <= LOCK_RESET_LIMIT
    ensures ResetsUsed(s, ops, n) <= ResetsUsed(s, ops, n + 1) <= ResetsUsed(s, ops, n) + 1
    ensures var a, b := At(s, ops, n), At(s, ops, n + 1);
      Liftoffs(s, ops, n + 1) ==
        Liftoffs(s, ops, n) + (if a.timers.resets > 0 && !OnGround(b) then [a.timers.resets] else [])
  {
    hide Step, Run, SamePiece, Inv, OnGround;
    StaysOk(s, ops, n);
    AtNext(s, ops, n);
    StepRule(At(s, ops, n), ops[n]);
    CounterBound(At(s, ops, n));
  }

  lemma CounterBound(s: Game)
    requires Inv(s)
    ensures s.timers.resets <= LOCK_RESET_LIMIT
  {
    hide Geometry, PreviewOk, Paid;
  }

  lemma NothingYet()
    ensures Sum([]) == 0
  {
  }

  lemma NextCounts(a: Game, b: Game, used: nat, lifted: seq<nat>)
    requires ResetRule(a, b) && a.timers.resets <= LOCK_RESET_LIMIT
    ensures var x, y := a.timers.resets, b.timers.resets;
      var more := used + (if y > x then y - x else 0);
      var gone := lifted + (if x > 0 && !OnGround(b) then [x] else []);
      && more + x + Sum(lifted) == used + y + Sum(gone)
  {
    hide OnGround, Sum;
    SumOneMore(lifted, a.timers.resets);
    assert lifted + [] == lifted;
  }

  /**
    The resets a piece used are those left standing on the counter and those wiped off at its
    lift-offs. Between two lift-offs it uses at most fifteen.
  */
  lemma {:induction false} StretchLaw(s: Game, ops: seq<Op>, n: nat)
    requires Inv(s) && AirClear(s) && OnePiece(s, ops) && n <= |ops|
    ensures s.timers.resets + ResetsUsed(s, ops, n) == At(s, ops, n).timers.resets + Sum(Liftoffs(s, ops, n))
    ensures forall k :: 0 <= k < |Liftoffs(s, ops, n)| ==> 1 <= Liftoffs(s, ops, n)[k] <= LOCK_RESET_LIMIT
    ensures At(s, ops, n).timers.resets <= LOCK_RESET_LIMIT
  {
    hide Inv, AirClear, OnePiece, Step, Run, OnGround, ResetRule, Sum;
    StaysOk(s, ops, n);
    CounterBound(At(s, ops, n));
    if n == 0 {
      NoSteps(s);
      NothingYet();
      assert ops[..0] == [];
    } else {
      StretchLaw(s, ops, n - 1);
      CountStep(s, ops, n - 1);
      NextCounts(At(s, ops, n - 1), At(s, ops, n), ResetsUsed(s, ops, n - 1), Liftoffs(s, ops, n - 1));
    }
  }

  lemma {:induction false} SumPositive(ns: seq<nat>)
    requires forall k :: 0 <= k < |ns| ==> 1 <= ns[k] <= LOCK_RESET_LIMIT
    ensures |ns| <= Sum(ns) <= LOCK_RESET_LIMIT * |ns|
  {
    if ns == [] {
    } else {
      SumPositive(ns[..|ns| - 1]);
    }
  }

  /** In every reachable state a piece in the air has neither lock time nor resets standing. */
  lemma ReachableAir(s: Game)
    requires Reachable(s)
    ensures Inv(s) && AirClear(s)
  {
    hide Inv, AirClear, NewGame, Run;
    ReachableInv(s);
    var seed: u32, ops: seq<Op> :| s == Run(NewGame(seed), ops);
    NewGameInv(seed);
    assert AirClear(NewGame(seed)) by { NoPieceYet(seed); }
    RunAir(NewGame(seed), ops);
  }

  lemma NoPieceYet(seed: u32)
    ensures AirClear(NewGame(seed))
  {
  }

  lemma {:induction false} RunAir(s: Game, ops: seq<Op>)
    requires Inv(s) && AirClear(s)
    ensures AirClear(Run(s, ops))
    decreases |ops|
  {
    hide Inv, AirClear, Step;
    if ops == [] {
    } else {
      StepInv(s, ops[0]);
      StepRule(s, ops[0]);
      RunAir(Step(s, ops[0]), ops[1..]);
    }
  }

  /** The piece moved and came to rest in step n of the run. */
  predicate MovedToRest(s: Game, ops: seq<Op>, n: nat)
    requires n < |ops|
  {
    At(s, ops, n + 1).active != At(s, ops, n).active && OnGround(At(s, ops, n + 1))
  }

  /**
    Up to k lift-offs a piece uses at most fifteen resets for each stretch on the ground: fifteen in
    all as long as it never lifts off with resets standing.
  */
  lemma FifteenPerStretch(s: Game, ops: seq<Op>, n: nat)
    requires Reachable(s) && OnePiece(s, ops) && n <= |ops|
    ensures s.timers.resets + ResetsUsed(s, ops, n) <= LOCK_RESET_LIMIT * (1 + |Liftoffs(s, ops, n)|)
  {
    hide Inv, AirClear, OnePiece, Reachable;
    ReachableAir(s);
    StretchLaw(s, ops, n);
    SumPositive(Liftoffs(s, ops, n));
  }

  /**
    Once a piece has used fifteen resets since it entered, its next move that comes to rest uses
    another one exactly if it has lifted off with resets standing.
  */
  lemma SixteenthExactly(s: Game, ops: seq<Op>, n: nat)
    requires Reachable(s) && s.timers.resets == 0 && OnePiece(s, ops) && n < |ops|
    requires ResetsUsed(s, ops, n) == LOCK_RESET_LIMIT && MovedToRest(s, ops, n)
    ensures ResetsUsed(s, ops, n + 1) == LOCK_RESET_LIMIT + (if Liftoffs(s, ops, n) == [] then 0 else 1)
  {
    hide Inv, AirClear, OnePiece, Reachable, At, OnGround, Liftoffs;
    ReachableAir(s);
    StretchLaw(s, ops, n);
    SumPositive(Liftoffs(s, ops, n));
    CountStep(s, ops, n);
  }

  /** Fifteen resets used, a lift-off with resets standing behind it, and the next step moves it to rest. */
  predicate SixteenthDue(s: Game, ops: seq<Op>, n: nat)
    requires n < |ops|
  {
    ResetsUsed(s, ops, n) == LOCK_RESET_LIMIT && Liftoffs(s, ops, n) != [] && MovedToRest(s, ops, n)
  }

  /**
    The documented limit of fifteen resets per piece fails for a run exactly if, with fifteen used,
    the piece has lifted off with resets standing and then moves and comes to rest again.
  */
  lemma LimitExactly(s: Game, ops: seq<Op>)
    requires Reachable(s) && s.timers.resets == 0 && OnePiece(s, ops)
    ensures ResetsUsed(s, ops, |ops|) > LOCK_RESET_LIMIT <==>
      exists n :: 0 <= n < |ops| && SixteenthDue(s, ops, n)
  {
    hide Inv, AirClear, OnePiece, Reachable, MovedToRest, ResetsUsed, Liftoffs;
    if ResetsUsed(s, ops, |ops|) > LOCK_RESET_LIMIT { PassesFifteen(s, ops, |ops|); }
    if n :| 0 <= n < |ops| && SixteenthDue(s, ops, n) {
      SixteenthExactly(s, ops, n);
      NeverFewer(s, ops, n + 1, |ops|);
    }
  }

  lemma {:induction false} PassesFifteen(s: Game, ops: seq<Op>, n: nat)
    requires Reachable(s) && s.timers.resets == 0 && OnePiece(s, ops) && n <= |ops|
    requires ResetsUsed(s, ops, n) > LOCK_RESET_LIMIT
    ensures exists k :: 0 <= k < n && SixteenthDue(s, ops, k)
    decreases n
  {
    hide Inv, AirClear, OnePiece, Reachable, At, OnGround, Liftoffs;
    if n == 0 {
    } else if ResetsUsed(s, ops, n - 1) > LOCK_RESET_LIMIT {
      PassesFifteen(s, ops, n - 1);
    } else {
      ReachableAir(s);
      CountStep(s, ops, n - 1);
      StretchLaw(s, ops, n - 1);
      NothingYet();
      assert SixteenthDue(s, ops, n - 1);
    }
  }

  lemma {:induction false} NeverFewer(s: Game, ops: seq<Op>, m: nat, n: nat)
    requires m <= n <= |ops|
    ensures ResetsUsed(s, ops, m) <= ResetsUsed(s, ops, n)
    decreases n
  {
    hide At;
    if m == n {
    } else {
      NeverFewer(s, ops, m, n - 1);
    }
  }
}
