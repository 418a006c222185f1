/**
  How fast a piece falls (crates/tetris-core/src/core/game_state.rs:298-306, 683-754): the number of
  rows of one tick and of many, at every level, with and without soft drop.
*/
module GravityLaws {
  import opened Types
  import opened Grids
  import opened Pieces
  import opened QueueModule
  import opened Scoring
  import opened GameModel
  import opened GameInvariant
  import opened LockDelayBudget
  import opened LockResets

  function Least(a: nat, b: nat): nat {
    if a < b then a else b
  }

  function Share(n: nat, d: nat): nat
    requires d > 0
  {
    n / d
  }

  // ---- one tick --------------------------------------------------------

  function Times(d: nat, q: nat): nat {
    d * q
  }

  lemma Parts(n: nat, d: nat)
    requires d > 0
    ensures n == Times(d, n / d) + n % d
  {
  }

  lemma TimesAdds(d: nat, a: nat, b: nat)
    ensures Times(d, a + b) == Times(d, a) + Times(d, b)
  {
  }

  lemma TimesGrows(d: nat, a: nat, b: nat)
    requires a < b
    ensures Times(d, a) + d <= Times(d, b)
    ensures b == a + 1 ==> Times(d, a) + d == Times(d, b)
  {
    hide Times;
    TimesAdds(d, a, 1);
    TimesAdds(d, a + 1, b - a - 1);
    assert Times(d, 1) == d by { TimesOne(d); }
  }

  lemma TimesOne(d: nat)
    ensures Times(d, 1) == d
  {
  }

  lemma PartsUnique(d: nat, a: nat, x: nat, b: nat, y: nat)
    requires x < d && y < d && Times(d, a) + x == Times(d, b) + y
    ensures a == b && x == y
  {
    hide Times;
    if a < b { TimesGrows(d, a, b); }
    if b < a { TimesGrows(d, b, a); }
  }

  lemma OneLess(n: nat, d: nat)
    requires n >= d > 0
    ensures (n - d) / d == n / d - 1 && (n - d) % d == n % d
  {
    hide Times;
    Parts(n, d);
    Parts(n - d, d);
    TimesGrows(d, (n - d) / d, (n - d) / d + 1);
    PartsUnique(d, n / d, n % d, (n - d) / d + 1, (n - d) % d);
  }

  /** The state after falling k rows with this much left on the drop timer. */
  function Fallen(s: Game, k: nat, left: u32): Game
    requires s.active.Some?
  {
    if k == 0 then s.(timers := s.timers.(drop := left))
    else
      s.(active := Some(s.active.value.Moved(0, k)),
         timers := s.timers.(
           drop := left,
           lock := 0,
           resets := if k == DropDistance(s.board, s.active.value) then 1 else 0))
  }

  lemma NextRow(s: Game)
    requires s.active.Some? && AirClear(s)
    ensures var p := s.active.value;
      if DropDistance(s.board, p) == 0 then TryMove(s, 0, 1) == (s, false) && OnGround(s)
      else
        && DropDistance(s.board, p.Moved(0, 1)) == DropDistance(s.board, p) - 1
        && TryMove(s, 0, 1) == (Fallen(s, 1, s.timers.drop), true) && !OnGround(s)
  {
    hide Fits, Grounded;
    GroundedMeaning(s.board, s.active.value);
    GroundedMeaning(s.board, s.active.value.Moved(0, 1));
  }

  function Rows(s: Game, interval: u32): nat
    requires s.active.Some? && interval > 0
  {
    Least(DropDistance(s.board, s.active.value), Share(s.timers.drop, interval))
  }

  /** One turn of the gravity loop. */
  lemma OneInterval(s: Game, interval: u32)
    requires s.active.Some? && AirClear(s) && 0 < interval <= s.timers.drop
    ensures var t := s.(timers := s.timers.(drop := s.timers.drop - interval));
      var u := TryMove(t, 0, 1).0;
      && u.active.Some? && AirClear(u)
      && Gravity(s, interval) == (Gravity(u, interval).0, TryMove(t, 0, 1).1 || Gravity(u, interval).1)
      && u == Fallen(t, if DropDistance(s.board, s.active.value) == 0 then 0 else 1, t.timers.drop)
      && TryMove(t, 0, 1).1 == (DropDistance(s.board, s.active.value) > 0)
      && Rows(s, interval) == Rows(u, interval) + (if DropDistance(s.board, s.active.value) == 0 then 0 else 1)
      && s.timers.drop % interval == u.timers.drop % interval
  {
    hide AirClear, TryMove, OnGround, DropDistance;
    var t := s.(timers := s.timers.(drop := s.timers.drop - interval));
    assert AirClear(t) by { DropIgnored(s, t); }
    OneLess(s.timers.drop, interval);
    NextRow(t);
    FallenNone(t);
    if DropDistance(s.board, s.active.value) > 0 {
      assert AirClear(Fallen(t, 1, t.timers.drop)) by { FallenAir(t); }
    }
  }

  /** A piece falls as many rows as whole intervals have run up, but not beyond its landing. */
  lemma {:induction false} GravityExactly(s: Game, interval: u32)
    requires s.active.Some? && AirClear(s) && interval > 0
    ensures Gravity(s, interval) == (Fallen(s, Rows(s, interval), s.timers.drop % interval), Rows(s, interval) > 0)
    decreases s.timers.drop
  {
    hide AirClear, TryMove, OnGround, Rows, Fallen;
    if s.timers.drop < interval {
      NoInterval(s, interval);
    } else {
      OneInterval(s, interval);
      var t := s.(timers := s.timers.(drop := s.timers.drop - interval));
      var u := TryMove(t, 0, 1).0;
      MoveKeepsTimer(t, 0, 1);
      GravityExactly(u, interval);
      FallenOn(s, t, interval, Rows(u, interval), u.timers.drop % interval);
    }
  }

  lemma NoInterval(s: Game, interval: u32)
    requires s.active.Some? && s.timers.drop < interval
    ensures Rows(s, interval) == 0 && Gravity(s, interval) == (s, false)
    ensures Fallen(s, 0, s.timers.drop % interval) == s
  {
    hide DropDistance, TryMove;
    NoWhole(s.timers.drop, interval);
    FallenNone(s);
  }

  lemma NoWhole(n: nat, d: nat)
    requires n < d
    ensures n / d == 0 && n % d == n
  {
  }

  lemma FallenOn(s: Game, t: Game, interval: u32, k: nat, left: u32)
    requires s.active.Some? && interval > 0 && t == s.(timers := s.timers.(drop := t.timers.drop))
    requires var d := DropDistance(s.board, s.active.value);
      var u := Fallen(t, if d == 0 then 0 else 1, t.timers.drop);
      k == Rows(u, interval)
    ensures var d := DropDistance(s.board, s.active.value);
      Fallen(Fallen(t, if d == 0 then 0 else 1, t.timers.drop), k, left) ==
        Fallen(s, k + (if d == 0 then 0 else 1), left)
  {
    hide Fits;
  }

  lemma FallenNone(s: Game)
    requires s.active.Some?
    ensures Fallen(s, 0, s.timers.drop) == s
  {
  }

  lemma DropIgnored(s: Game, t: Game)
    requires AirClear(s) && t == s.(timers := s.timers.(drop := t.timers.drop))
    ensures AirClear(t)
  {
  }

  lemma FallenAir(s: Game)
    requires s.active.Some? && AirClear(s) && DropDistance(s.board, s.active.value) > 0
    ensures AirClear(Fallen(s, 1, s.timers.drop))
  {
    hide Fits, Grounded;
    NextRow(s);
    GroundedMeaning(s.board, s.active.value.Moved(0, 1));
  }

  /** The operation locks a piece: the board id moves on. */
  predicate Locks(s: Game, op: Op) {
    !Restarts(op) && Step(s, op).ids.board != s.ids.board
  }

  // ---- how long soft drop lasts ----------------------------------------

  /** An operation that lets this much time of play pass. */
  predicate Plays(s: Game, op: Op) {
    op.TickBy? && Runs(s) && s.active.Some? && s.timers.lineClear <= op.elapsed
  }

  /** Milliseconds of play since soft drop was last asked for; None while a pause or restart has ended it. */
  function Asked(s: Game, op: Op, since: Option<nat>): Option<nat> {
    match op
    case Act(SoftDrop) => if s.flags.paused || s.flags.gameOver then since else Some(0)
    case Act(Pause) => if s.flags.paused || s.flags.gameOver then since else None
    case Act(Restart) => None
    case RestartSeed(_) => None
    case TickBy(ms, soft) =>
      if !Plays(s, op) then since
      else if soft then Some(ms)
      else if since.Some? then Some(since.value + ms)
      else None
    case _ => since
  }

  function SinceAsked(s: Game, ops: seq<Op>, since: Option<nat>): Option<nat>
    decreases |ops|
  {
    if ops == [] then since else SinceAsked(Step(s, ops[0]), ops[1..], Asked(s, ops[0], since))
  }

  /** Soft drop is on for 150 ms of play after it was last asked for. */
  predicate SoftClock(s: Game, since: Option<nat>) {
    && s.timers.softDrop ==
         (if since.Some? && since.value < SOFT_DROP_GRACE_MS then SOFT_DROP_GRACE_MS - since.value else 0)
    && (s.flags.softDropping <==> since.Some? && since.value < SOFT_DROP_GRACE_MS)
  }

  /** The two fields soft drop is kept in. */
  predicate SameSoft(s: Game, t: Game) {
    t.timers.softDrop == s.timers.softDrop && t.flags.softDropping == s.flags.softDropping
  }

  lemma SpawnSoft(s: Game)
    ensures SameSoft(s, Spawn(s))
  {
    hide Fits, Preview, Front, Drawn;
  }

  lemma LockSoft(s: Game)
    ensures SameSoft(s, LockDown(s))
  {
    hide Spawn, Fits, FixedBoard, LockSpin, FullRows, Compact, Scored;
    if s.active.Some? { SpawnSoft(Settled(s)); }
  }

  lemma ActSoft(s: Game, action: GameAction)
    requires action != SoftDrop && action != Pause && action != Restart
    ensures SameSoft(s, Apply(s, action).0)
  {
    hide Spawn, Fits, Grounded, TryRotate, LockDown, Landed, DropDistance;
    match action
    case HardDrop =>
      if s.active.Some? {
        LockSoft(s.(flags := s.flags.(rotatedLast := false), active := Some(Landed(s.board, s.active.value))));
      }
    case Hold => if s.active.Some? { SpawnSoft(s.(hold := Some(s.active.value.kind))); }
    case _ =>
  }

  lemma RestartSoft(s: Game, seed: u32)
    ensures SoftClock(RestartWith(s, seed), None)
  {
    hide Spawn, Preview, Fresh;
    SpawnSoft(NewGame(seed).(ids := NewGame(seed).ids.(episode := WrappingAdd(s.ids.episode, 1)),
                             flags := NewGame(seed).flags.(started := true)));
  }

  lemma SoftDropAct(s: Game, since: Option<nat>)
    requires SoftClock(s, since)
    ensures SoftClock(Apply(s, SoftDrop).0, Asked(s, Act(SoftDrop), since))
  {
    hide TryMove;
  }

  lemma SoftDropStep(s: Game, op: Op, since: Option<nat>)
    requires Inv(s) && AirClear(s) && SoftClock(s, since)
    ensures SoftClock(Step(s, op), Asked(s, op, since))
  {
    hide Inv, AirClear, Apply, Tick, RestartWith, Spawn;
    match op
    case Begin => SpawnSoft(s.(flags := s.flags.(started := true)));
    case Act(SoftDrop) => SoftDropAct(s, since);
    case Act(Pause) => PauseSoft(s, since);
    case Act(Restart) => RestartIs(s);
    case Act(a) => ActSoft(s, a);
    case TickBy(ms, soft) => TickSoft(s, ms, soft, since);
    case RestartSeed(seed) => RestartSoft(s, seed);
    case TakeEvent =>
  }

  lemma PauseSoft(s: Game, since: Option<nat>)
    requires SoftClock(s, since)
    ensures SoftClock(Apply(s, Pause).0, Asked(s, Act(Pause), since))
  {
  }

  lemma RestartIs(s: Game)
    ensures SoftClock(Apply(s, Restart).0, None)
  {
    hide RestartWith;
    RestartSoft(s, s.queue.rng);
  }

  // ---- the tick --------------------------------------------------------

  /** Soft drop stays on through a tick that starts with time of the grace period left over. */
  predicate SoftThrough(s: Game, ms: u32, soft: bool) {
    ms < if soft then SOFT_DROP_GRACE_MS else s.timers.softDrop
  }

  /** Milliseconds a row takes. */
  function Pace(level: u32, soft: bool): (ms: u32)
    ensures 12 <= ms <= 1000
  {
    if soft then DropIntervalMs(level) / 10 else DropIntervalMs(level)
  }

  /** The state of a tick before gravity. */
  function Timed(s: Game, ms: u32, soft: bool): Game {
    var a := SoftDropClock(Clocks(s, ms), ms, soft);
    a.(timers := a.timers.(drop := SaturatingAdd(a.timers.drop, ms)))
  }

  ghost predicate SoftOk(s: Game) {
    exists since :: SoftClock(s, since)
  }

  lemma TimedFacts(s: Game, ms: u32, soft: bool)
    requires SoftOk(s) && s.timers.lineClear <= ms
    ensures var a := SoftDropClock(Clocks(s, ms), ms, soft);
      var b := Timed(s, ms, soft);
      && DropInterval(a) == Pace(s.tally.level, SoftThrough(s, ms, soft))
      && a.board == b.board == s.board && a.active == b.active == s.active
      && b.timers.lock == s.timers.lock && b.timers.resets == s.timers.resets
      && b.timers.drop == SaturatingAdd(s.timers.drop, ms) && b.timers.lineClear == 0
      && b.tally == s.tally && b.lastEvent == s.lastEvent && b.hold == s.hold && b.queue == s.queue
      && b.ids == (if s.active.Some? then s.ids.(step := WrappingAdd(s.ids.step, 1)) else s.ids)
      && b.timers.flash == SaturatingSub(s.timers.flash, ms)
      && b.flags == s.flags.(softDropping := SoftThrough(s, ms, soft))
      && b.timers.softDrop ==
           (if SoftThrough(s, ms, soft) then (if soft then SOFT_DROP_GRACE_MS else s.timers.softDrop) - ms else 0)
  {
    hide DropIntervalMs;
  }

  /** A tick of play: the piece falls, then rests, locks or keeps falling. */
  lemma TickIs(s: Game, ms: u32, soft: bool)
    requires s.active.Some? && AirClear(s) && SoftOk(s) && Runs(s) && s.timers.lineClear <= ms
    ensures var b, pace := Timed(s, ms, soft), Pace(s.tally.level, SoftThrough(s, ms, soft));
      var (c, moved) := (Fallen(b, Rows(b, pace), b.timers.drop % pace), Rows(b, pace) > 0);
      Tick(s, ms, soft) == (LockDelay(c, ms).0, moved || LockDelay(c, ms).1)
  {
    hide SoftOk, AirClear, Gravity, LockDelay, Fallen, Rows, SoftDropClock;
    TimedFacts(s, ms, soft);
    var b := Timed(s, ms, soft);
    assert AirClear(b) by { SameAir(s, b); }
    GravityExactly(b, Pace(s.tally.level, SoftThrough(s, ms, soft)));
  }

  lemma SameAir(s: Game, t: Game)
    requires AirClear(s) && t.board == s.board && t.active == s.active
    requires t.timers.lock == s.timers.lock && t.timers.resets == s.timers.resets
    ensures AirClear(t)
  {
  }

  lemma TickSoft(s: Game, ms: u32, soft: bool, since: Option<nat>)
    requires Inv(s) && AirClear(s) && SoftClock(s, since)
    ensures SoftClock(Tick(s, ms, soft).0, Asked(s, TickBy(ms, soft), since))
  {
    hide Inv, AirClear, Fallen, Rows, Tick;
    if Plays(s, TickBy(ms, soft)) {
      assert SoftOk(s);
      TickIs(s, ms, soft);
      TimedFacts(s, ms, soft);
      var b, pace := Timed(s, ms, soft), Pace(s.tally.level, SoftThrough(s, ms, soft));
      var c := Fallen(b, Rows(b, pace), b.timers.drop % pace);
      FallenSoft(b, Rows(b, pace), b.timers.drop % pace);
      DelaySoft(c, ms);
    } else {
      IdleSoft(s, ms, soft);
    }
  }

  lemma IdleSoft(s: Game, ms: u32, soft: bool)
    requires !Plays(s, TickBy(ms, soft))
    ensures SameSoft(s, Tick(s, ms, soft).0)
  {
    hide Advance;
  }

  lemma FallenSoft(s: Game, k: nat, left: u32)
    requires s.active.Some?
    ensures SameSoft(s, Fallen(s, k, left))
  {
    hide DropDistance;
  }

  lemma DelaySoft(s: Game, ms: u32)
    ensures SameSoft(s, LockDelay(s, ms).0)
  {
    hide Grounded, LockDown;
    LockSoft(s.(timers := s.timers.(lock := 0, drop := 0)));
  }

  // ---- main results ----------------------------------------------------

  lemma {:induction false} SoftOverRun(s: Game, ops: seq<Op>, since: Option<nat>)
    requires Inv(s) && AirClear(s) && SoftClock(s, since)
    ensures SoftClock(Run(s, ops), SinceAsked(s, ops, since))
    decreases |ops|
  {
    hide Inv, AirClear, SoftClock, Step, Asked;
    if ops == [] {
    } else {
      StepInv(s, ops[0]);
      StepRule(s, ops[0]);
      SoftDropStep(s, ops[0], since);
      SoftOverRun(Step(s, ops[0]), ops[1..], Asked(s, ops[0], since));
    }
  }

  /**
    Over every run soft drop is on exactly if it was asked for, by the action or by a tick, and less
    than 150 ms of play have passed since, with no pause and no restart between.
  */
  lemma SoftDropLasts(seed: u32, ops: seq<Op>)
    ensures var since := SinceAsked(NewGame(seed), ops, None);
      var s := Run(NewGame(seed), ops);
      && (s.flags.softDropping <==> since.Some? && since.value < 150)
      && s.timers.softDrop == (if since.Some? && since.value < 150 then 150 - since.value else 0)
  {
    hide Inv, AirClear, Run, NewGame;
    NewGameInv(seed);
    NoPieceYet(seed);
    assert SoftClock(NewGame(seed), None) by { NotAsked(seed); }
    SoftOverRun(NewGame(seed), ops, None);
  }

  lemma NotAsked(seed: u32)
    ensures SoftClock(NewGame(seed), None)
  {
  }

  lemma ReachableSoft(s: Game)
    requires Reachable(s)
    ensures Inv(s) && AirClear(s) && SoftOk(s)
  {
    hide Inv, AirClear, SoftClock, Run, NewGame, SinceAsked;
    ReachableAir(s);
    var seed: u32, ops: seq<Op> :| s == Run(NewGame(seed), ops);
    NewGameInv(seed);
    NoPieceYet(seed);
    NotAsked(seed);
    SoftOverRun(NewGame(seed), ops, None);
  }

  /** The pace at a level: a row a second at first, faster by every level to the ninth, tenfold in soft drop. */
  lemma PaceByLevel(a: u32, b: u32)
    requires a < b
    ensures Pace(0, false) == 1000 && Pace(9, false) == 120
    ensures b <= 9 ==> Pace(b, false) < Pace(a, false)
    ensures a >= 9 ==> Pace(b, false) == Pace(a, false)
    ensures Pace(a, true) == Pace(a, false) / 10
  {
    hide DropIntervalMs;
    GravitySpeedsUp(a, b);
  }

  lemma FallsKeepFit(g: Grid, p: Tetromino, k: nat)
    requires Fits(g, p) && k <= DropDistance(g, p)
    ensures Fits(g, p.Moved(0, k))
    ensures Grounded(g, p.Moved(0, k)) <==> k == DropDistance(g, p)
  {
    hide Fits, Grounded;
    DropDistanceMeaning(g, p);
    GroundedMeaning(g, p.Moved(0, k));
    assert p.Moved(0, 0) == p;
    assert p.Moved(0, k).Moved(0, 1) == p.Moved(0, k + 1);
  }

  /** Milliseconds counted towards the next rows in a tick. */
  function RunUp(s: Game, ms: u32): u32 {
    SaturatingAdd(s.timers.drop, ms)
  }

  /** Rows the active piece falls in a tick. */
  function TickRows(s: Game, ms: u32, soft: bool): nat
    requires s.active.Some?
  {
    Least(DropDistance(s.board, s.active.value), Share(RunUp(s, ms), Pace(s.tally.level, SoftThrough(s, ms, soft))))
  }

  /** A tick locks the piece if it ends on the ground with 450 ms of lock delay run up. */
  predicate LocksByTick(s: Game, ms: u32, soft: bool)
    requires s.active.Some?
  {
    TickRows(s, ms, soft) == DropDistance(s.board, s.active.value) && s.timers.lock + ms >= LOCK_DELAY_MS
  }

  /** The state in which a tick locks its piece. */
  ghost predicate AboutToLock(s: Game, ms: u32, soft: bool, e: Game)
    requires s.active.Some?
  {
    && e.active == Some(s.active.value.Moved(0, TickRows(s, ms, soft)))
    && e.board == s.board && e.tally == s.tally && e.hold == s.hold && e.queue == s.queue
    && e.ids == s.ids.(step := WrappingAdd(s.ids.step, 1)) && e.timers.lineClear == 0
    && e.flags == s.flags.(softDropping := SoftThrough(s, ms, soft))
    && e.timers.drop == 0 && e.timers.lock == 0
    && Fits(e.board, e.active.value)
  }

  /** What a tick that does not lock leaves. */
  ghost predicate TickedOn(s: Game, ms: u32, soft: bool, t: Game)
    requires s.active.Some?
  {
    var rows, room := TickRows(s, ms, soft), DropDistance(s.board, s.active.value);
    && t.active == Some(s.active.value.Moved(0, rows))
    && t.board == s.board && t.tally == s.tally && t.hold == s.hold && t.queue == s.queue
    && t.ids == s.ids.(step := WrappingAdd(s.ids.step, 1)) && t.timers.flash == SaturatingSub(s.timers.flash, ms)
    && t.flags == s.flags.(softDropping := SoftThrough(s, ms, soft))
    && t.timers.drop == RunUp(s, ms) % Pace(s.tally.level, SoftThrough(s, ms, soft))
    && t.timers.lock == (if rows == room then s.timers.lock + ms else 0)
    && t.timers.resets == (if rows < room then 0 else if rows > 0 then 1 else s.timers.resets)
    && t.timers.lineClear == 0 && t.lastEvent == s.lastEvent
  }

  lemma TickEnds(s: Game, ms: u32, soft: bool) returns (e: Game)
    requires Inv(s) && AirClear(s) && SoftOk(s) && Runs(s) && s.active.Some? && s.timers.lineClear <= ms
    ensures var t := Tick(s, ms, soft);
      && t.1 == (TickRows(s, ms, soft) > 0 || LocksByTick(s, ms, soft))
      && if LocksByTick(s, ms, soft) then AboutToLock(s, ms, soft, e) && t.0 == LockDown(e)
         else TickedOn(s, ms, soft, t.0)
  {
    hide Inv, SoftOk, AirClear, DropDistance, Fits, Grounded, Timed, LockDown, Pace, SoftThrough, Tick;
    var b, pace := Timed(s, ms, soft), Pace(s.tally.level, SoftThrough(s, ms, soft));
    TimedFacts(s, ms, soft);
    TickIs(s, ms, soft);
    var c := Fallen(b, Rows(b, pace), b.timers.drop % pace);
    InvPiece(s);
    FallsKeepFit(s.board, s.active.value, Rows(b, pace));
    if Rows(b, pace) > 0 { InTheAir(s); }
    assert s.active.value.Moved(0, 0) == s.active.value;
    e := c.(timers := c.timers.(lock := 0, drop := 0));
  }

  lemma InvPiece(s: Game)
    requires Inv(s) && s.active.Some?
    ensures Fits(s.board, s.active.value) && s.timers.lock < LOCK_DELAY_MS
  {
    hide Fits, NoFullRow, PreviewOk, Paid;
  }

  lemma InTheAir(s: Game)
    requires AirClear(s) && s.active.Some? && DropDistance(s.board, s.active.value) > 0
    ensures s.timers.lock == 0
  {
    hide Fits, Grounded;
    GroundedMeaning(s.board, s.active.value);
  }

  lemma LockLeaves(e: Game)
    requires e.active.Some? && Fits(e.board, e.active.value)
    ensures var t := LockDown(e);
      && t.board == Compact(Fixed(e.board, e.active.value))
      && t.ids.board == WrappingAdd(e.ids.board, 1) && t.timers.drop == e.timers.drop
      && t.timers.flash == LANDING_FLASH_MS
      && t.timers.lineClear ==
           if FullRows(Fixed(e.board, e.active.value)) != [] then LINE_CLEAR_PAUSE_MS else e.timers.lineClear
  {
    hide Fits, Front, Preview, Drawn, LockSpin, FullRows, Compact, Scored, Fixed;
    CompactGrid(FixedBoard(e));
  }

  /**
    The law of a tick of play. The piece falls as many rows as whole intervals have run up on the
    drop timer, but not beyond its landing row, and the remainder stays on the timer; the interval is
    that of the level, a tenth of it while soft drop is on. The piece then locks exactly if it rests
    and its lock delay, which starts with the landing, has run up to 450 ms. The tick reports a change
    exactly if the piece fell or locked.
  */
  lemma TickFalls(s: Game, ms: u32, soft: bool)
    requires Reachable(s) && Runs(s) && s.timers.lineClear <= ms
    ensures s.active.Some?
    ensures var p, room := s.active.value, DropDistance(s.board, s.active.value);
      var total := if s.timers.drop + ms > U32_MAX then U32_MAX else s.timers.drop + ms;
      var softOn := ms < (if soft then 150 else s.timers.softDrop);
      var interval := if softOn then DropIntervalMs(s.tally.level) / 10 else DropIntervalMs(s.tally.level);
      var rows := if room < total / interval then room else total / interval;
      var locks := rows == room && s.timers.lock + ms >= 450;
      var (t, changed) := Tick(s, ms, soft);
      && (changed <==> rows > 0 || locks)
      && (if locks then
            && t.board == Compact(Fixed(s.board, p.Moved(0, rows)))
            && t.ids.board == WrappingAdd(s.ids.board, 1) && t.timers.drop == 0
            && t.timers.lineClear == (if FullRows(Fixed(s.board, p.Moved(0, rows))) != [] then 180 else 0)
          else
            && t.active == Some(p.Moved(0, rows)) && t.board == s.board && t.ids.board == s.ids.board
            && t.tally == s.tally && t.timers.drop == total % interval
            && t.timers.lock == (if rows == room then s.timers.lock + ms else 0)
            && t.flags.softDropping == softOn)
  {
    hide Reachable, Inv, SoftOk, AirClear, DropDistance, Fits, Fixed, Compact, FullRows, Tick, DropIntervalMs, LockDown;
    ReachableSoft(s);
    HasPiece(s);
    var e := TickEnds(s, ms, soft);
    assert LOCK_DELAY_MS == 450;
    if LocksByTick(s, ms, soft) { LockLeaves(e); }
  }

  lemma HasPiece(s: Game)
    requires Inv(s) && Runs(s)
    ensures s.active.Some?
  {
    hide Fits, NoFullRow, PreviewOk, Paid, Counters;
  }

  /** Outside play a tick moves nothing: it only lets the pause after a clear run down. */
  lemma TickOutsidePlay(s: Game, ms: u32, soft: bool)
    requires !Runs(s) || s.timers.lineClear > ms
    ensures var (t, changed) := Tick(s, ms, soft);
      && !changed && t.active == s.active && t.board == s.board && t.tally == s.tally && t.flags == s.flags
      && t.ids.board == s.ids.board && t.timers.drop == s.timers.drop && t.timers.lock == s.timers.lock
      && t.timers.resets == s.timers.resets && t.timers.softDrop == s.timers.softDrop
      && t.timers.lineClear == if Runs(s) then s.timers.lineClear - ms else s.timers.lineClear
  {
    hide Advance;
  }

  // ---- many ticks ------------------------------------------------------

  function TotalMs(times: seq<u32>): nat {
    if times == [] then 0 else times[0] + TotalMs(times[1..])
  }

  function Ticks(times: seq<u32>, soft: bool): seq<Op> {
    seq(|times|, i requires 0 <= i < |times| => TickBy(times[i], soft))
  }

  lemma CarryOver(d: nat, a: nat, b: nat)
    requires d > 0
    ensures (a + b) / d == a / d + (a % d + b) / d
    ensures (a + b) % d == (a % d + b) % d
  {
    hide Times;
    Parts(a, d);
    Parts(a % d + b, d);
    Parts(a + b, d);
    TimesAdds(d, a / d, (a % d + b) / d);
    PartsUnique(d, (a + b) / d, (a + b) % d, a / d + (a % d + b) / d, (a % d + b) % d);
  }

  /** Nothing but falling is ahead: play is on, with soft drop held throughout or off. */
  ghost predicate Falling(s: Game, soft: bool) {
    && Inv(s) && AirClear(s) && SoftOk(s) && Runs(s) && s.active.Some? && s.timers.lineClear == 0
    && (!soft ==> s.timers.softDrop == 0)
  }

  lemma LessRoom(g: Grid, p: Tetromino, k: nat)
    requires k <= DropDistance(g, p)
    ensures DropDistance(g, p.Moved(0, k)) == DropDistance(g, p) - k
  {
    hide Fits;
    DropDistanceMeaning(g, p);
    var q := p.Moved(0, k);
    forall j | 0 <= j ensures q.Moved(0, j) == p.Moved(0, k + j) {
    }
    DropDistanceUnique(g, q, DropDistance(g, p) - k);
  }

  /** From s to t the piece fell by the time run up, with the remainder kept. */
  ghost predicate FellBy(s: Game, t: Game, time: nat, pace: nat)
    requires pace > 0
  {
    && s.active.Some? && t.active == Some(s.active.value.Moved(0, time / pace))
    && t.board == s.board && t.tally == s.tally && t.timers.drop == time % pace
    && DropDistance(t.board, t.active.value) == DropDistance(s.board, s.active.value) - time / pace
  }

  lemma FallsOn(s: Game, ms: u32, soft: bool)
    requires Falling(s, soft) && (soft ==> ms < SOFT_DROP_GRACE_MS)
    requires s.timers.drop + ms <= U32_MAX
    requires (s.timers.drop + ms) / Pace(s.tally.level, soft) < DropDistance(s.board, s.active.value)
    ensures var t := Step(s, TickBy(ms, soft));
      Falling(t, soft) && FellBy(s, t, s.timers.drop + ms, Pace(s.tally.level, soft))
  {
    hide Inv, AirClear, DropDistance, Pace, Tick;
    var e := TickEnds(s, ms, soft);
    StepInv(s, TickBy(ms, soft));
    StepRule(s, TickBy(ms, soft));
    var since :| SoftClock(s, since);
    TickSoft(s, ms, soft, since);
    assert SoftThrough(s, ms, soft) == soft;
    LessRoom(s.board, s.active.value, TickRows(s, ms, soft));
  }

  lemma FellOn(s: Game, t: Game, u: Game, time: nat, rest: nat, pace: nat)
    requires pace > 0 && FellBy(s, t, time, pace) && FellBy(t, u, t.timers.drop + rest, pace)
    ensures FellBy(s, u, time + rest, pace)
  {
    hide DropDistance;
    CarryOver(pace, time, rest);
  }

  lemma RoomLeft(s: Game, t: Game, time: nat, rest: nat, pace: nat)
    requires pace > 0 && FellBy(s, t, time, pace)
    requires (time + rest) / pace < DropDistance(s.board, s.active.value)
    ensures (t.timers.drop + rest) / pace < DropDistance(t.board, t.active.value)
  {
    hide DropDistance;
    CarryOver(pace, time, rest);
  }

  lemma Monotone(d: nat, a: nat, b: nat)
    requires d > 0 && a <= b
    ensures a / d <= b / d && b % d < d
  {
    CarryOver(d, a, b - a);
  }

  /**
    However play time is cut into ticks, a piece has fallen as many rows as whole intervals have
    passed, as long as that leaves it in the air, and the drop timer holds the remainder.
  */
  lemma {:induction false} FallsByTime(s: Game, times: seq<u32>, soft: bool)
    requires Falling(s, soft) && times != [] && (soft ==> forall i :: 0 <= i < |times| ==> times[i] < 150)
    requires s.timers.drop + TotalMs(times) <= U32_MAX
    requires (s.timers.drop + TotalMs(times)) / Pace(s.tally.level, soft) < DropDistance(s.board, s.active.value)
    ensures var t := Run(s, Ticks(times, soft));
      Falling(t, soft) && FellBy(s, t, s.timers.drop + TotalMs(times), Pace(s.tally.level, soft))
    decreases |times|
  {
    hide Falling, Step, Pace, DropDistance, TotalMs, Run, FellBy;
    var pace := Pace(s.tally.level, soft);
    var first, rest := s.timers.drop + times[0], TotalMs(times[1..]);
    var ops := Ticks(times, soft);
    FallingHasPiece(s, soft);
    FirstMs(times);
    Monotone(pace, first, first + rest);
    FallsOn(s, times[0], soft);
    assert ops[0] == TickBy(times[0], soft) && ops[1..] == Ticks(times[1..], soft);
    RunFirst(s, ops);
    var t := Step(s, ops[0]);
    if |times| == 1 {
      NoMs(times[1..]);
      assert ops[1..] == [];
      NoSteps(t);
    } else {
      FallingHasPiece(t, soft);
      SamePace(s, t, first, pace);
      RoomLeft(s, t, first, rest, pace);
      FallsByTime(t, times[1..], soft);
      FellOn(s, t, Run(t, ops[1..]), first, rest, pace);
    }
  }

  lemma SamePace(s: Game, t: Game, time: nat, pace: nat)
    requires pace > 0 && FellBy(s, t, time, pace)
    ensures t.tally == s.tally && t.timers.drop <= time
  {
    hide DropDistance;
    Parts(time, pace);
  }

  lemma FallingHasPiece(s: Game, soft: bool)
    requires Falling(s, soft)
    ensures s.active.Some?
  {
  }

  lemma FirstMs(times: seq<u32>)
    requires times != []
    ensures TotalMs(times) == times[0] + TotalMs(times[1..])
  {
  }

  lemma NoMs(times: seq<u32>)
    requires times == []
    ensures TotalMs(times) == 0
  {
  }

  lemma RunFirst(s: Game, ops: seq<Op>)
    requires ops != []
    ensures Run(s, ops) == Run(Step(s, ops[0]), ops[1..])
  {
    hide Step;
  }

  /** The same from every reachable state of play, for time that does not bring the piece down. */
  lemma ReachableFall(s: Game, times: seq<u32>, soft: bool)
    requires Reachable(s) && Runs(s) && s.timers.lineClear == 0
    requires if soft then forall i :: 0 <= i < |times| ==> times[i] < 150 else !s.flags.softDropping
    requires times != [] && s.timers.drop + TotalMs(times) <= U32_MAX
    ensures s.active.Some?
    ensures var time, p := s.timers.drop + TotalMs(times), s.active.value;
      var interval := if soft then DropIntervalMs(s.tally.level) / 10 else DropIntervalMs(s.tally.level);
      time / interval < DropDistance(s.board, p) ==>
        var t := Run(s, Ticks(times, soft));
        t.active == Some(p.Moved(0, time / interval)) && t.board == s.board && t.timers.drop == time % interval
  {
    hide Inv, AirClear, Reachable, DropDistance, Run, DropIntervalMs;
    ReachableSoft(s);
    HasPiece(s);
    var time := s.timers.drop + TotalMs(times);
    if time / Pace(s.tally.level, soft) < DropDistance(s.board, s.active.value) { FallsByTime(s, times, soft); }
  }
}
