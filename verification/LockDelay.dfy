/** The lock-delay budget of a grounded piece, under arbitrary actions and ticks. */
module LockDelayBudget {
  import opened Types
  import opened Grids
  import opened Pieces
  import opened QueueModule
  import opened GameModel
  import opened GameInvariant

  /** Milliseconds of grounded play left: the resets not yet used, plus the current delay. */
  function Budget(s: Game): int {
    (LOCK_RESET_LIMIT - s.timers.resets) * LOCK_DELAY_MS + (LOCK_DELAY_MS - s.timers.lock)
  }

  /** The same piece is still in play in t: no lock, hold, restart or game over came between. */
  predicate SamePiece(s: Game, t: Game) {
    && t.ids.active == s.ids.active
    && t.ids.board == s.ids.board
    && t.ids.episode == s.ids.episode
    && !t.flags.gameOver
  }

  /** Milliseconds by which an operation advances play: ticks outside pauses count in full. */
  function EffectiveMs(s: Game, op: Op): nat {
    match op
    case TickBy(ms, _) => if Runs(s) && Clocks(s, ms).timers.lineClear == 0 then ms else 0
    case _ => 0
  }

  lemma {:induction false} GravityOnGround(s: Game, interval: u32)
    requires OnGround(s) && interval > 0
    ensures var r := Gravity(s, interval).0;
      r == s.(timers := s.timers.(drop := r.timers.drop))
    decreases s.timers.drop
  {
    hide Fits, Grounded;
    if s.timers.drop >= interval {
      GroundedMeaning(s.board, s.active.value);
      GravityOnGround(s.(timers := s.timers.(drop := s.timers.drop - interval)), interval);
    }
  }

  lemma LockChangesBoardId(s: Game)
    requires s.active.Some? && Fits(s.board, s.active.value)
    ensures LockDown(s).ids.board == WrappingAdd(s.ids.board, 1)
    ensures LockDown(s).ids.board != s.ids.board
  {
    hide Fits, Front, Preview, Drawn, FixedBoard, LockSpin, FullRows, Compact, Scored;
  }

  lemma TickBudget(s: Game, elapsed: u32, softDrop: bool)
    requires Inv(s) && OnGround(s)
    requires var t := Tick(s, elapsed, softDrop).0; SamePiece(s, t) && OnGround(t)
    ensures Budget(Tick(s, elapsed, softDrop).0) <= Budget(s) - EffectiveMs(s, TickBy(elapsed, softDrop))
  {
    hide Fits, Grounded, NoFullRow, Preview, QueueOk, Paid, LockDown, Gravity;
    if Runs(s) {
      var a := Clocks(s, elapsed);
      var b := SoftDropClock(a, elapsed, softDrop);
      var c := b.(timers := b.timers.(drop := SaturatingAdd(b.timers.drop, elapsed)));
      GravityOnGround(c, DropInterval(b));
      var d := Gravity(c, DropInterval(b)).0;
      LockChangesBoardId(d.(timers := d.timers.(lock := 0, drop := 0)));
    }
  }

  lemma ActBudget(s: Game, action: GameAction)
    requires Inv(s) && OnGround(s)
    requires var t := Apply(s, action).0; SamePiece(s, t) && OnGround(t)
    ensures Budget(Apply(s, action).0) <= Budget(s)
  {
    hide Fits, Grounded, NoFullRow, Preview, Front, Drawn, QueueOk, Paid, LockDown, NewGame, TryRotate;
    var p := s.active.value;
    match action
    case SoftDrop => GroundedMeaning(s.board, p);
    case HardDrop =>
      if Runs(s) {
        var u := s.(flags := s.flags.(rotatedLast := false), active := Some(Landed(s.board, p)));
        LandedFits(s.board, p);
        LockChangesBoardId(u);
      }
    case Restart =>
      RestartEpisode(s, s.queue.rng);
    case _ =>
  }

  lemma RestartEpisode(s: Game, seed: u32)
    ensures RestartWith(s, seed).ids.episode == WrappingAdd(s.ids.episode, 1) != s.ids.episode
  {
    hide Fits, Front, Preview, Drawn, Fresh;
  }

  /** One operation that leaves the piece grounded spends at least the time it took. */
  lemma StepBudget(s: Game, op: Op)
    requires Inv(s) && OnGround(s)
    requires SamePiece(s, Step(s, op)) && OnGround(Step(s, op))
    ensures Budget(Step(s, op)) <= Budget(s) - EffectiveMs(s, op)
  {
    hide OnGround, Apply, Tick, RestartWith, NoFullRow, PreviewOk, Fits, Paid;
    match op
    case Begin => StartedIfActive(s);
    case Act(a) => ActBudget(s, a);
    case TickBy(ms, soft) => TickBudget(s, ms, soft);
    case RestartSeed(seed) => RestartEpisode(s, seed);
    case TakeEvent =>
  }

  lemma StartedIfActive(s: Game)
    requires Inv(s) && OnGround(s)
    ensures s.flags.started
  {
    hide NoFullRow, PreviewOk, Paid, Fits, Grounded;
  }

  /** Along the whole run the same piece rests on something. */
  predicate StaysDown(s: Game, ops: seq<Op>)
    decreases |ops|
  {
    OnGround(s) && (ops == [] || (SamePiece(s, Step(s, ops[0])) && StaysDown(Step(s, ops[0]), ops[1..])))
  }

  function EffectiveTime(s: Game, ops: seq<Op>): nat
    decreases |ops|
  {
    if ops == [] then 0 else EffectiveMs(s, ops[0]) + EffectiveTime(Step(s, ops[0]), ops[1..])
  }

  lemma {:induction false} RunBudget(s: Game, ops: seq<Op>)
    requires Inv(s) && StaysDown(s, ops)
    ensures EffectiveTime(s, ops) + Budget(Run(s, ops)) <= Budget(s)
    ensures Inv(Run(s, ops))
    decreases |ops|
  {
    hide Inv, Step, OnGround, SamePiece, Budget, EffectiveMs;
    if ops == [] {
    } else {
      assert OnGround(Step(s, ops[0])) by {
        assert StaysDown(Step(s, ops[0]), ops[1..]);
      }
      StepBudget(s, ops[0]);
      StepInv(s, ops[0]);
      RunBudget(Step(s, ops[0]), ops[1..]);
    }
  }

  /**
    Whatever moves, rotations, soft drops, pauses and ticks are interleaved, one piece can rest
    on the stack for less than 7200 ms of play: sixteen lock delays, 450 ticks of 16 ms.
  */
  lemma GroundedPieceLocks(s: Game, ops: seq<Op>)
    requires Reachable(s) && StaysDown(s, ops)
    ensures EffectiveTime(s, ops) < 7200
  {
    hide NoFullRow, PreviewOk, Paid, Fits, Step, OnGround, StaysDown, EffectiveTime, Run;
    ReachableInv(s);
    RunBudget(s, ops);
  }
}
