/**
  Ids and clocks as counts over every run, what a pause and the end of the game freeze, and the
  episode a restart begins (crates/tetris-core/src/core/game_state.rs:259-295, 683-815).
*/
module EpisodeLaws {
  import opened Types
  import opened Grids
  import opened Pieces
  import opened QueueModule
  import opened GameModel
  import opened GameInvariant
  import opened LockDelayBudget
  import opened LockResets
  import opened GravityLaws
  import opened SpinLaws

  // ---- counts ----------------------------------------------------------

  /**
    Restarts and the seed of the last; pieces that came into play in this episode, and ticks since the last
    did; display and pause clocks.
  */
  datatype Counts = Counts(restarts: nat, seed: u32, entries: nat, ticks: nat, flash: nat, pause: nat)

  predicate Clearing(s: Game, op: Op) {
    Locks(s, op) && Step(s, op).lastEvent.Some? && Step(s, op).lastEvent.value.linesCleared > 0
  }

  function RunDown(n: nat, ms: nat): nat {
    if n < ms then 0 else n - ms
  }

  function TickMs(s: Game, op: Op): nat {
    if op.TickBy? && Runs(s) then op.elapsed else 0
  }

  function Counting(s: Game, op: Op, c: Counts): Counts {
    if Restarts(op) then Counts(c.restarts + 1, if op.RestartSeed? then op.seed else s.queue.rng, 1, 0, 0, 0)
    else
      Counts(
        c.restarts,
        c.seed,
        if NewPiece(s, op) then c.entries + 1 else c.entries,
        if NewPiece(s, op) then 0 else if op.TickBy? && Runs(s) then c.ticks + 1 else c.ticks,
        if Locks(s, op) then 120 else RunDown(c.flash, TickMs(s, op)),
        if Clearing(s, op) then 180 else RunDown(c.pause, TickMs(s, op)))
  }

  function Counted(s: Game, ops: seq<Op>, c: Counts): Counts
    decreases |ops|
  {
    if ops == [] then c else Counted(Step(s, ops[0]), ops[1..], Counting(s, ops[0], c))
  }

  ghost predicate CountsOk(s: Game, c: Counts) {
    && s.ids.episode == c.restarts % TWO_TO_32 && s.queue.episodeSeed == c.seed
    && s.timers.flash == c.flash
    && s.timers.lineClear == c.pause
    && (!s.flags.gameOver ==> s.ids.active == c.entries % TWO_TO_32 && s.ids.step == c.ticks % TWO_TO_32)
  }

  lemma CountUp(n: nat)
    ensures WrappingAdd(n % TWO_TO_32, 1) == (n + 1) % TWO_TO_32
  {
  }

  lemma SeedStays(q: PieceSource)
    ensures Advanced(q).episodeSeed == q.episodeSeed
  {
  }

  lemma SeedGiven(seed: u32)
    ensures Fresh(seed).episodeSeed == seed
  {
  }

  /** A spawn brings a piece in or ends the game. */
  lemma SpawnCounts(s: Game)
    ensures var t := Spawn(s);
      && t.ids.episode == s.ids.episode && t.ids.board == s.ids.board && t.lastEvent == s.lastEvent
      && t.queue.episodeSeed == s.queue.episodeSeed
      && t.timers.flash == s.timers.flash && t.timers.lineClear == s.timers.lineClear
      && (t.flags.gameOver || (t.ids.active == WrappingAdd(s.ids.active, 1) && t.ids.step == 0))
  {
    hide Fits, Preview, Front, Advanced;
    SeedStays(s.queue);
  }

  lemma LockCounts(e: Game)
    requires e.active.Some? && Fits(e.board, e.active.value)
    ensures var t := LockDown(e);
      && t.ids.episode == e.ids.episode && t.ids.board != e.ids.board && t.queue.episodeSeed == e.queue.episodeSeed
      && t.timers.flash == 120 && t.lastEvent.Some?
      && t.timers.lineClear == (if t.lastEvent.value.linesCleared > 0 then 180 else e.timers.lineClear)
      && (t.flags.gameOver || (t.ids.active == WrappingAdd(e.ids.active, 1) && t.ids.step == 0))
  {
    hide Spawn, Fits, FixedBoard, LockSpin, FullRows, Compact, Scored;
    LockChangesBoardId(e);
    SpawnCounts(Settled(e));
  }

  lemma RestartCounts(s: Game, seed: u32, c: Counts)
    requires CountsOk(s, c)
    ensures CountsOk(RestartWith(s, seed), Counts(c.restarts + 1, seed, 1, 0, 0, 0))
  {
    hide Spawn, Preview, Fresh;
    CountUp(c.restarts);
    SeedGiven(seed);
    SpawnCounts(NewGame(seed).(ids := NewGame(seed).ids.(episode := WrappingAdd(s.ids.episode, 1)),
                               flags := NewGame(seed).flags.(started := true)));
  }

  lemma DropCounts(s: Game, c: Counts)
    requires Inv(s) && CountsOk(s, c)
    ensures CountsOk(Apply(s, HardDrop).0, Counting(s, Act(HardDrop), c))
  {
    hide Inv, LockDown, Landed, DropDistance, Fits;
    if !s.flags.paused && !s.flags.gameOver && s.active.Some? {
      var u := Grounding(s.(flags := s.flags.(rotatedLast := false)));
      InvPiece(s);
      LandedFits(s.board, s.active.value);
      LockCounts(u);
      CountUp(c.entries);
    }
  }

  lemma HoldCounts(s: Game, c: Counts)
    requires Inv(s) && CountsOk(s, c)
    ensures CountsOk(Apply(s, Hold).0, Counting(s, Act(Hold), c))
  {
    hide Spawn, Fits, Inv;
    CountUp(c.entries);
    SpawnCounts(s.(hold := if s.active.Some? then Some(s.active.value.kind) else None));
  }

  lemma MoveCounts(s: Game, action: GameAction, c: Counts)
    requires CountsOk(s, c) && action in {MoveLeft, MoveRight, SoftDrop, RotateCw, RotateCcw, Pause}
    ensures CountsOk(Apply(s, action).0, Counting(s, Act(action), c))
  {
    hide Fits, Grounded, TryRotate;
  }

  lemma BeginCounts(s: Game, c: Counts)
    requires Inv(s) && CountsOk(s, c)
    ensures CountsOk(Start(s), Counting(s, Begin, c))
  {
    hide Spawn, Fits, NoFullRow, PreviewOk, Paid, Counters;
    CountUp(c.entries);
    SpawnCounts(s.(flags := s.flags.(started := true)));
  }

  lemma TickCounts(s: Game, ms: u32, soft: bool, c: Counts)
    requires Inv(s) && AirClear(s) && SoftOk(s) && CountsOk(s, c)
    ensures CountsOk(Tick(s, ms, soft).0, Counting(s, TickBy(ms, soft), c))
  {
    hide Inv, AirClear, SoftOk, Tick, LockDown, LocksByTick, TickRows, DropDistance, Pace, Fits;
    if Plays(s, TickBy(ms, soft)) {
      var e := TickEnds(s, ms, soft);
      if LocksByTick(s, ms, soft) { LockCounts(e); }
      CountUp(c.entries);
      CountUp(c.ticks);
    } else {
      IdleCounts(s, ms, soft, c);
    }
  }

  lemma IdleCounts(s: Game, ms: u32, soft: bool, c: Counts)
    requires Inv(s) && CountsOk(s, c) && !Plays(s, TickBy(ms, soft))
    ensures CountsOk(Tick(s, ms, soft).0, Counting(s, TickBy(ms, soft), c))
  {
    hide Advance, Fits, NoFullRow, PreviewOk, Paid, Counters;
    CountUp(c.ticks);
  }

  lemma StepCounts(s: Game, op: Op, c: Counts)
    requires Inv(s) && AirClear(s) && SoftOk(s) && CountsOk(s, c)
    ensures CountsOk(Step(s, op), Counting(s, op, c))
  {
    hide Inv, AirClear, SoftOk, Tick, RestartWith, Spawn, CountsOk, Held, TryMove, TryTurn, HardDropped;
    match op
    case Begin => BeginCounts(s, c);
    case Act(HardDrop) => DropCounts(s, c);
    case Act(Hold) => HoldCounts(s, c);
    case Act(Restart) => RestartCounts(s, s.queue.rng, c);
    case Act(a) => MoveCounts(s, a, c);
    case TickBy(ms, soft) => TickCounts(s, ms, soft, c);
    case RestartSeed(seed) => RestartCounts(s, seed, c);
    case TakeEvent => TakeCounts(s, c);
  }

  lemma TakeCounts(s: Game, c: Counts)
    requires CountsOk(s, c)
    ensures CountsOk(Step(s, TakeEvent), Counting(s, TakeEvent, c))
  {
  }

  lemma {:induction false} CountsOverRun(s: Game, ops: seq<Op>, c: Counts)
    requires Inv(s) && AirClear(s) && SoftOk(s) && CountsOk(s, c)
    ensures CountsOk(Run(s, ops), Counted(s, ops, c))
    decreases |ops|
  {
    hide Inv, AirClear, SoftClock, Step, Asked, CountsOk, Counting;
    if ops == [] {
    } else {
      var since :| SoftClock(s, since);
      StepInv(s, ops[0]);
      StepRule(s, ops[0]);
      SoftDropStep(s, ops[0], since);
      StepCounts(s, ops[0], c);
      CountsOverRun(Step(s, ops[0]), ops[1..], Counting(s, ops[0], c));
    }
  }

  /**
    Over every run: the episode id counts the restarts, and the seed shown is that of the last; while
    the game is not over the active id counts the pieces that came into play in the episode, by start,
    lock or hold, and the step number the ticks since; the pause is 180 ms from the last clearing lock
    and the landing flash 120 ms from the last lock, both run down by every tick that is taken. The ids
    wrap at the width of their fields.
  */
  lemma IdsCount(seed: u32, ops: seq<Op>)
    ensures var c := Counted(NewGame(seed), ops, Counts(0, seed, 0, 0, 0, 0));
      var s := Run(NewGame(seed), ops);
      && s.ids.episode == c.restarts % TWO_TO_32 && s.queue.episodeSeed == c.seed
      && (!s.flags.gameOver ==> s.ids.active == c.entries % TWO_TO_32 && s.ids.step == c.ticks % TWO_TO_32)
      && s.timers.flash == c.flash && s.timers.lineClear == c.pause
  {
    hide Inv, AirClear, Run, NewGame, Counted;
    NewGameInv(seed);
    NoPieceYet(seed);
    NotAsked(seed);
    assert CountsOk(NewGame(seed), Counts(0, seed, 0, 0, 0, 0)) by { NothingCounted(seed); }
    CountsOverRun(NewGame(seed), ops, Counts(0, seed, 0, 0, 0, 0));
  }

  lemma NothingCounted(seed: u32)
    ensures CountsOk(NewGame(seed), Counts(0, seed, 0, 0, 0, 0))
  {
  }

  // ---- frozen games ----------------------------------------------------

  /** Nothing but a resume, a restart or a take of the event reaches a paused game. */
  predicate Dull(op: Op) {
    op.Begin? || op.TickBy? || (op.Act? && op.action != Pause && op.action != Restart)
  }

  lemma DullStep(s: Game, op: Op)
    requires s.flags.started && (s.flags.paused || s.flags.gameOver)
    requires Dull(op) || (s.flags.gameOver && op == Act(Pause))
    ensures Step(s, op) == s
  {
  }

  /**
    A paused game stays exactly as it is under any moves and ticks, and resuming gives back the game as it
    was when it was paused, with soft drop off. A game that is over stays as it is under everything but a restart.
  */
  lemma {:induction false} Frozen(s: Game, ops: seq<Op>)
    requires s.flags.started && (s.flags.paused || s.flags.gameOver)
    requires forall i :: 0 <= i < |ops| ==> Dull(ops[i]) || (s.flags.gameOver && ops[i] == Act(Pause))
    ensures Run(s, ops) == s
    decreases |ops|
  {
    hide Step;
    if ops == [] {
    } else {
      DullStep(s, ops[0]);
      Frozen(s, ops[1..]);
    }
  }

  lemma PauseResumes(s: Game, ops: seq<Op>)
    requires Runs(s) && forall i :: 0 <= i < |ops| ==> Dull(ops[i])
    ensures Run(s, [Act(Pause)] + ops + [Act(Pause)]) ==
      s.(flags := s.flags.(softDropping := false), timers := s.timers.(softDrop := 0))
  {
    hide Run, Step;
    var t := Step(s, Act(Pause));
    assert t == TogglePause(s) by { Toggles(s); }
    RunAppend(s, [Act(Pause)] + ops, [Act(Pause)]);
    RunAppend(s, [Act(Pause)], ops);
    SingleStep(s, Act(Pause));
    Frozen(t, ops);
    SingleStep(t, Act(Pause));
    Toggles(t);
  }

  lemma Toggles(s: Game)
    requires !s.flags.gameOver
    ensures Step(s, Act(Pause)) == TogglePause(s)
  {
  }

  lemma SingleStep(s: Game, op: Op)
    ensures Run(s, [op]) == Step(s, op)
  {
    hide Step;
    assert Run(s, [op]) == Run(Step(s, op), []);
  }

  // ---- episodes repeat -------------------------------------------------

  /** The same but for the number of the episode. */
  predicate Alike(s: Game, t: Game) {
    t == s.(ids := s.ids.(episode := t.ids.episode))
  }

  lemma SpawnAlike(s: Game, t: Game)
    requires Alike(s, t)
    ensures Alike(Spawn(s), Spawn(t))
  {
    hide Fits, Preview, Front, Drawn;
  }

  lemma LockAlike(s: Game, t: Game)
    requires Alike(s, t)
    ensures Alike(LockDown(s), LockDown(t))
  {
    hide Spawn, Fits, FixedBoard, LockSpin, FullRows, Compact, Scored;
    if s.active.Some? {
      SettledAlike(s, t);
      SpawnAlike(Settled(s), Settled(t));
    }
  }

  lemma SettledAlike(s: Game, t: Game)
    requires Alike(s, t) && s.active.Some?
    ensures Alike(Settled(s), Settled(t))
  {
    hide Fits, FullRows, Compact, Scored, TSpin, Fixed;
  }

  lemma RestartAlike(s: Game, t: Game, a: u32)
    ensures Alike(RestartWith(s, a), RestartWith(t, a))
  {
    hide Spawn, Preview, Fresh;
    var g := NewGame(a).(flags := NewGame(a).flags.(started := true));
    SpawnAlike(g.(ids := g.ids.(episode := WrappingAdd(s.ids.episode, 1))),
               g.(ids := g.ids.(episode := WrappingAdd(t.ids.episode, 1))));
  }

  lemma ActAlike(s: Game, t: Game, action: GameAction)
    requires Alike(s, t)
    ensures Alike(Apply(s, action).0, Apply(t, action).0)
  {
    hide Spawn, Fits, Grounded, TryRotate, LockDown, Landed, DropDistance, RestartWith;
    match action
    case HardDrop =>
      if s.active.Some? {
        LockAlike(s.(flags := s.flags.(rotatedLast := false), active := Some(Landed(s.board, s.active.value))),
                  t.(flags := t.flags.(rotatedLast := false), active := Some(Landed(t.board, t.active.value))));
      }
    case Hold =>
      if s.active.Some? {
        SpawnAlike(s.(hold := Some(s.active.value.kind)), t.(hold := Some(t.active.value.kind)));
      }
    case Restart => RestartAlike(s, t, s.queue.rng);
    case _ =>
  }

  lemma {:induction false} GravityAlike(s: Game, t: Game, interval: u32)
    requires Alike(s, t) && interval > 0
    ensures Alike(Gravity(s, interval).0, Gravity(t, interval).0)
    decreases s.timers.drop
  {
    hide Fits, Grounded;
    if s.timers.drop < interval {
    } else {
      var a := s.(timers := s.timers.(drop := s.timers.drop - interval));
      var b := t.(timers := t.timers.(drop := t.timers.drop - interval));
      MoveKeepsTimer(a, 0, 1);
      GravityAlike(TryMove(a, 0, 1).0, TryMove(b, 0, 1).0, interval);
    }
  }

  lemma TickAlike(s: Game, t: Game, ms: u32, soft: bool)
    requires Alike(s, t)
    ensures Alike(Tick(s, ms, soft).0, Tick(t, ms, soft).0)
  {
    hide Gravity, LockDown, Grounded;
    var a, b := SoftDropClock(Clocks(s, ms), ms, soft), SoftDropClock(Clocks(t, ms), ms, soft);
    var c, d := a.(timers := a.timers.(drop := SaturatingAdd(a.timers.drop, ms))),
                b.(timers := b.timers.(drop := SaturatingAdd(b.timers.drop, ms)));
    GravityAlike(c, d, DropInterval(a));
    var e, f := Gravity(c, DropInterval(a)).0, Gravity(d, DropInterval(b)).0;
    LockAlike(e.(timers := e.timers.(lock := 0, drop := 0)), f.(timers := f.timers.(lock := 0, drop := 0)));
  }

  lemma StepAlike(s: Game, t: Game, op: Op)
    requires Alike(s, t)
    ensures Alike(Step(s, op), Step(t, op))
  {
    hide Spawn, Apply, Tick, RestartWith;
    match op
    case Begin => SpawnAlike(s.(flags := s.flags.(started := true)), t.(flags := t.flags.(started := true)));
    case Act(a) => ActAlike(s, t, a);
    case TickBy(ms, soft) => TickAlike(s, t, ms, soft);
    case RestartSeed(a) => RestartAlike(s, t, a);
    case TakeEvent =>
  }

  lemma {:induction false} RunAlike(s: Game, t: Game, ops: seq<Op>)
    requires Alike(s, t)
    ensures Alike(Run(s, ops), Run(t, ops))
    decreases |ops|
  {
    hide Step, Alike;
    if ops == [] {
    } else {
      StepAlike(s, t, ops[0]);
      RunAlike(Step(s, ops[0]), Step(t, ops[0]), ops[1..]);
    }
  }

  /**
    A restart with a seed begins the episode that seed begins in a new game: whatever was played before,
    the same operations then lead to the same game, but for the number of the episode.
  */
  lemma EpisodeRepeats(s: Game, seed: u32, ops: seq<Op>)
    ensures Alike(Run(Step(s, RestartSeed(seed)), ops), Run(Step(NewGame(seed), Begin), ops))
    ensures Alike(Run(Step(s, Act(Restart)), ops), Run(Step(NewGame(s.queue.rng), Begin), ops))
  {
    hide Run, Spawn, NewGame, Alike, RestartWith;
    RestartBegins(s, seed);
    RestartBegins(s, s.queue.rng);
    RunAlike(Step(s, RestartSeed(seed)), Step(NewGame(seed), Begin), ops);
    RunAlike(Step(s, Act(Restart)), Step(NewGame(s.queue.rng), Begin), ops);
  }

  lemma RestartBegins(s: Game, seed: u32)
    ensures Alike(RestartWith(s, seed), Start(NewGame(seed)))
  {
    hide Spawn, Preview, Fresh;
    var g := NewGame(seed).(flags := NewGame(seed).flags.(started := true));
    SpawnAlike(g.(ids := g.ids.(episode := WrappingAdd(s.ids.episode, 1))), g);
  }
}
