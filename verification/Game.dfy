/**
  The game as a value and its transitions as functions: what each method of GameState
  (crates/tetris-core/src/core/game_state.rs) computes.
*/
module GameModel {
  import opened Types
  import opened Grids
  import opened Pieces
  import opened QueueModule
  import opened Scoring

  type PieceSource = q: Queue | QueueShape(q) witness Queue(0, Kinds(), 0, 0)

  datatype Ids = Ids(board: u32, episode: u32, piece: u32, active: u32, step: u32)

  datatype Tally = Tally(score: u32, level: u32, lines: u32, combo: int, backToBack: bool)

  /** Milliseconds, and the number of lock-delay resets used. */
  datatype Timers = Timers(drop: u32, lock: u32, resets: nat, lineClear: u32, flash: u32, softDrop: u32)

  datatype Flags = Flags(
    paused: bool,
    gameOver: bool,
    started: bool,
    canHold: bool,
    rotatedLast: bool,
    softDropping: bool)

  /** The fields of GameState, grouped. */
  datatype Game = Game(
    board: Grid,
    active: Option<Tetromino>,
    hold: Option<PieceKind>,
    nextQueue: seq<PieceKind>,
    queue: PieceSource,
    lastEvent: Option<LockEvent>,
    ids: Ids,
    tally: Tally,
    timers: Timers,
    flags: Flags)

  function Fresh(seed: u32): PieceSource {
    NewQueue(seed)
  }

  function Advanced(q: PieceSource): PieceSource {
    Drawn(q)
  }

  function NewGame(seed: u32): Game {
    Game(EmptyGrid(), None, None, Preview(Fresh(seed)), Fresh(seed), None,
         Ids(0, 0, 0, 0, 0), Tally(0, 0, 0, -1, false), Timers(0, 0, 0, 0, 0, 0),
         Flags(false, false, false, true, false, false))
  }

  /** `spawn_piece`: the head of the queue enters, or the game is over and the queue untouched. */
  function Spawn(s: Game): Game {
    var piece := Spawned(Front(s.queue));
    if !Fits(s.board, piece) then s.(flags := s.flags.(gameOver := true))
    else
      s.(queue := Advanced(s.queue),
         active := Some(piece),
         ids := s.ids.(piece := WrappingAdd(s.ids.piece, 1), active := WrappingAdd(s.ids.active, 1), step := 0),
         timers := s.timers.(lock := 0, resets := 0),
         flags := s.flags.(canHold := true, rotatedLast := false),
         nextQueue := Preview(Advanced(s.queue)))
  }

  function Start(s: Game): Game {
    if s.flags.started then s else Spawn(s.(flags := s.flags.(started := true)))
  }

  predicate OnGround(s: Game) {
    s.active.Some? && Grounded(s.board, s.active.value)
  }

  /** `handle_lock_reset`. */
  function ResetLock(s: Game): Game {
    s.(timers :=
         if !OnGround(s) then s.timers.(lock := 0, resets := 0)
         else if s.timers.resets < LOCK_RESET_LIMIT then s.timers.(lock := 0, resets := s.timers.resets + 1)
         else s.timers)
  }

  function TryMove(s: Game, dx: int, dy: int): (Game, bool) {
    if s.active.None? || !Fits(s.board, s.active.value.Moved(dx, dy)) then (s, false)
    else
      (ResetLock(s.(active := Some(s.active.value.Moved(dx, dy)),
                    flags := if dx != 0 then s.flags.(rotatedLast := false) else s.flags)), true)
  }

  function TryTurn(s: Game, clockwise: bool): (Game, bool) {
    if s.active.None? || s.active.value.kind == O then (s, false)
    else
      match TryRotate(s.board, s.active.value, clockwise)
      case None => (s, false)
      case Some(p) => (ResetLock(s.(active := Some(p), flags := s.flags.(rotatedLast := true))), true)
  }

  /** `apply_line_clear` on the tally: also returns the points reported with the lock event. */
  function Scored(t: Tally, n: nat, tspin: TSpinKind): (Tally, u32)
    requires n <= HEIGHT
  {
    if n == 0 then
      (t.(combo := -1,
          backToBack := false,
          score := SaturatingAdd(t.score, if tspin == NoSpin then 0 else TSpinScore(tspin, 0, t.level))), 0)
    else
      var combo := if t.combo >= I32_MAX then I32_MAX else t.combo + 1;
      var r := Score(n, t.level, tspin, combo, t.backToBack);
      var lines := SaturatingAdd(t.lines, n);
      (Tally(SaturatingAdd(t.score, r.total), lines / 10, lines, combo, r.qualifiesForB2b), r.lineClearScore)
  }

  /** The field right after the active piece is fixed, before rows are removed. */
  function FixedBoard(s: Game): Grid
    requires s.active.Some?
  {
    if Fits(s.board, s.active.value) then Fixed(s.board, s.active.value) else s.board
  }

  /** T-spin class of the lock about to happen. */
  function LockSpin(s: Game): TSpinKind
    requires s.active.Some?
  {
    var p := s.active.value;
    if Fits(s.board, p) && p.kind == T then TSpin(FixedBoard(s), p, s.flags.rotatedLast) else NoSpin
  }

  /** The lock itself, up to but not including the spawn of the next piece. */
  function Settled(s: Game): Game
    requires s.active.Some?
  {
    var n := |FullRows(FixedBoard(s))|;
    var (tally, points) := Scored(s.tally, n, LockSpin(s));
    CompactGrid(FixedBoard(s));
    s.(board := Compact(FixedBoard(s)),
       active := None,
       ids := if Fits(s.board, s.active.value) || n > 0 then s.ids.(board := WrappingAdd(s.ids.board, 1)) else s.ids,
       timers := if n > 0 then s.timers.(flash := LANDING_FLASH_MS, lineClear := LINE_CLEAR_PAUSE_MS)
                 else s.timers.(flash := LANDING_FLASH_MS),
       tally := tally,
       lastEvent := Some(LockEvent(
         true,
         n,
         points,
         if n > 0 && LockSpin(s) != NoSpin then Some(LockSpin(s)) else None,
         tally.combo,
         tally.backToBack)))
  }

  /** `lock_piece`. */
  function LockDown(s: Game): Game {
    if s.active.None? then s
    else if Settled(s).flags.gameOver then Settled(s)
    else Spawn(Settled(s))
  }

  /** `hard_drop`: the state after the lock and the points for the rows dropped. */
  function Dropped(s: Game): (Game, u32) {
    if s.active.None? then (s, 0)
    else
      var d := DropDistance(s.board, s.active.value);
      (LockDown(s.(active := Some(Landed(s.board, s.active.value)))),
       DropScore(if d > U32_MAX then U32_MAX else d, true))
  }

  /** `ghost_y`. */
  function GhostY(s: Game): Option<int> {
    if s.active.None? then None else Some(Landed(s.board, s.active.value).y)
  }

  /** `hold`. */
  function Held(s: Game): (Game, bool) {
    if !s.flags.canHold || s.active.None? then (s, false)
    else
      var kind := s.active.value.kind;
      match s.hold
      case Some(other) =>
        var a := s.(hold := Some(kind),
                    ids := s.ids.(active := WrappingAdd(s.ids.active, 1), step := 0));
        if !Fits(s.board, Spawned(other)) then (a.(active := None, flags := s.flags.(gameOver := true)), false)
        else (AfterHold(a.(active := Some(Spawned(other)))), true)
      case None => (AfterHold(Spawn(s.(hold := Some(kind)))), true)
  }

  function AfterHold(s: Game): Game {
    s.(timers := s.timers.(lock := 0, resets := 0), flags := s.flags.(canHold := false, rotatedLast := false))
  }

  // ---- time ------------------------------------------------------------

  function DropInterval(s: Game): (ms: u32)
    ensures 12 <= ms <= 1000
  {
    if s.flags.softDropping then DropIntervalMs(s.tally.level) / SOFT_DROP_MULTIPLIER
    else DropIntervalMs(s.tally.level)
  }

  /** Landing flash, step counter and line-clear pause. */
  function Clocks(s: Game, elapsed: u32): Game {
    s.(timers := s.timers.(
         flash := SaturatingSub(s.timers.flash, elapsed),
         lineClear := SaturatingSub(s.timers.lineClear, elapsed)),
       ids := if s.active.Some? then s.ids.(step := WrappingAdd(s.ids.step, 1)) else s.ids)
  }

  function SoftDropClock(s: Game, elapsed: u32, softDrop: bool): Game {
    var timer := if softDrop then SOFT_DROP_GRACE_MS else s.timers.softDrop;
    if (softDrop || s.flags.softDropping) && timer > 0 then
      var left := SaturatingSub(timer, elapsed);
      s.(timers := s.timers.(softDrop := left), flags := s.flags.(softDropping := left != 0))
    else s
  }

  /** Takes one interval off the drop timer and tries to fall one row, while the timer lasts. */
  function Gravity(s: Game, interval: u32): (Game, bool)
    requires interval > 0
    decreases s.timers.drop
  {
    if s.timers.drop < interval then (s, false)
    else
      var t := s.(timers := s.timers.(drop := s.timers.drop - interval));
      MoveKeepsTimer(t, 0, 1);
      var (a, moved) := TryMove(t, 0, 1);
      var (b, more) := Gravity(a, interval);
      (b, moved || more)
  }

  lemma MoveKeepsTimer(s: Game, dx: int, dy: int)
    ensures TryMove(s, dx, dy).0.timers.drop == s.timers.drop
  {
    hide Fits, Grounded;
  }

  /** Lock delay at the end of a tick. */
  function LockDelay(s: Game, elapsed: u32): (Game, bool) {
    if OnGround(s) then
      var timer := SaturatingAdd(s.timers.lock, elapsed);
      if timer >= LOCK_DELAY_MS then (LockDown(s.(timers := s.timers.(lock := 0, drop := 0))), true)
      else (s.(timers := s.timers.(lock := timer)), false)
    else (s.(timers := s.timers.(lock := 0, resets := 0)), false)
  }

  /** Soft-drop clock, gravity and lock delay: the part of a tick that moves the piece. */
  function Advance(s: Game, elapsed: u32, softDrop: bool): (Game, bool) {
    var a := SoftDropClock(s, elapsed, softDrop);
    var b := a.(timers := a.timers.(drop := SaturatingAdd(a.timers.drop, elapsed)));
    var (c, moved) := Gravity(b, DropInterval(a));
    var (d, locked) := LockDelay(c, elapsed);
    (d, moved || locked)
  }

  predicate Runs(s: Game) {
    !s.flags.paused && !s.flags.gameOver && s.flags.started
  }

  /** `tick`. */
  function Tick(s: Game, elapsed: u32, softDrop: bool): (Game, bool) {
    if !Runs(s) then (s, false)
    else
      var a := Clocks(s, elapsed);
      if a.timers.lineClear > 0 || a.active.None? then (a, false) else Advance(a, elapsed, softDrop)
  }

  // ---- actions ---------------------------------------------------------

  function RestartWith(s: Game, seed: u32): Game {
    var g := NewGame(seed);
    Start(g.(ids := g.ids.(episode := WrappingAdd(s.ids.episode, 1))))
  }

  /** What a soft-drop action leaves behind besides the move itself. */
  function AfterSoftDrop(s: Game, moved: bool): Game {
    s.(tally := if moved then s.tally.(score := SaturatingAdd(s.tally.score, DropScore(1, false))) else s.tally,
       timers := s.timers.(softDrop := SOFT_DROP_GRACE_MS),
       flags := s.flags.(softDropping := true, rotatedLast := false))
  }

  function TogglePause(s: Game): Game {
    if s.flags.paused then s.(flags := s.flags.(paused := false))
    else s.(flags := s.flags.(paused := true, softDropping := false), timers := s.timers.(softDrop := 0))
  }

  /** The hard-drop action: the rotate flag goes first, the drop score comes last. */
  function HardDropped(s: Game): Game {
    var (a, points) := Dropped(s.(flags := s.flags.(rotatedLast := false)));
    a.(tally := a.tally.(score := SaturatingAdd(a.tally.score, points)))
  }

  /** `apply_action`. */
  function Apply(s: Game, action: GameAction): (Game, bool) {
    if s.flags.gameOver && action != Restart then (s, false)
    else if s.flags.paused && action != Pause && action != Restart then (s, false)
    else
      match action
      case MoveLeft => TryMove(s, -1, 0)
      case MoveRight => TryMove(s, 1, 0)
      case SoftDrop =>
        var (a, moved) := TryMove(s, 0, 1);
        (AfterSoftDrop(a, moved), moved)
      case HardDrop => (HardDropped(s), true)
      case RotateCw => TryTurn(s, true)
      case RotateCcw => TryTurn(s, false)
      case Hold => Held(s)
      case Pause => (TogglePause(s), true)
      case Restart => (RestartWith(s, s.queue.rng), true)
  }

  // ---- runs ------------------------------------------------------------

  /** Everything a caller of the core can do to a game. */
  datatype Op =
    | Begin
    | Act(action: GameAction)
    | TickBy(elapsed: u32, softDrop: bool)
    | RestartSeed(seed: u32)
    | TakeEvent

  predicate Restarts(op: Op) {
    op.RestartSeed? || op == Act(Restart)
  }

  function Step(s: Game, op: Op): Game {
    match op
    case Begin => Start(s)
    case Act(a) => Apply(s, a).0
    case TickBy(ms, soft) => Tick(s, ms, soft).0
    case RestartSeed(seed) => RestartWith(s, seed)
    case TakeEvent => s.(lastEvent := None)
  }

  function Run(s: Game, ops: seq<Op>): Game
    decreases |ops|
  {
    if ops == [] then s else Run(Step(s, ops[0]), ops[1..])
  }
}
