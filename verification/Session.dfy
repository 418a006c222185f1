/** The session: one authoritative step and its cached snapshot (crates/tetris-session/src/engine/session.rs). */
module Sessions {
  import opened Types
  import opened Grids
  import opened Pieces
  import opened QueueModule
  import opened GameModel
  import opened GameInvariant
  import opened GameStateModule
  import opened Placing
  import opened Snapshots
  import opened IdlePlay
  import LockDelayBudget

  datatype Command =
    | Actions(actions: seq<GameAction>, restartSeed: Option<u32>)
    | PlaceAt(x: int, rotation: Rotation, useHold: bool)

  datatype StepInput = StepInput(remote: seq<Command>, local: seq<GameAction>)

  /** Capacities of the fixed-size buffers and the width of x. */
  predicate CommandOk(c: Command) {
    match c
    case Actions(actions, _) => |actions| <= 32
    case PlaceAt(x, _, _) => -128 <= x < 128
  }

  predicate InputOk(input: StepInput) {
    |input.remote| <= 32 && |input.local| <= 64 && forall i :: 0 <= i < |input.remote| ==> CommandOk(input.remote[i])
  }

  datatype Transition = Transition(outcomes: seq<Outcome>, events: seq<LockEvent>, changed: bool)

  datatype Store = Store(snapshot: Snapshot, boardId: Option<u32>)

  datatype Session = Session(game: Game, store: Store, logicalStep: u64)

  // ---- specification ---------------------------------------------------

  /** Actions of one command; a supplied seed is used up by the first restart. */
  function ApplyActions(s: Game, actions: seq<GameAction>, seed: Option<u32>): Game
    decreases |actions|
  {
    if actions == [] then s
    else if actions[0] == Restart && seed.Some? then ApplyActions(RestartWith(s, seed.value), actions[1..], None)
    else ApplyActions(Apply(s, actions[0]).0, actions[1..], seed)
  }

  function ApplyCommand(s: Game, c: Command): (Game, Outcome) {
    match c
    case Actions(actions, seed) => (ApplyActions(s, actions, seed), Accepted)
    case PlaceAt(x, rotation, useHold) => (
      match Place(s, x, rotation, useHold)
      case Ok(t) => (t, Accepted)
      case Err(e) => (s, Rejected(e)))
  }

  function ApplyCommands(s: Game, cs: seq<Command>): (r: (Game, seq<Outcome>))
    ensures |r.1| == |cs|
    decreases |cs|
  {
    if cs == [] then (s, [])
    else
      var (a, outcome) := ApplyCommand(s, cs[0]);
      var (b, rest) := ApplyCommands(a, cs[1..]);
      (b, [outcome] + rest)
  }

  /** The game of a step just before its event is taken. */
  function Played(s: Game, input: StepInput): Game {
    Tick(RunActions(ApplyCommands(s, input.remote).0, input.local), TICK_MS, false).0
  }

  /** `refresh`: the board part only when the board id differs, the rest always. */
  function Refresh(store: Store, s: Game): Store {
    Store(WithMeta(if store.boardId != Some(s.ids.board) then WithBoard(store.snapshot, s) else store.snapshot, s),
          Some(s.ids.board))
  }

  function Opened(s: Game): Session {
    Session(s, Refresh(Store(Blank(), None), s), 0)
  }

  /** `SessionRuntime::new`. */
  function NewSession(seed: u32): Session {
    Opened(IdlePlay.Session(seed))
  }

  /** `transition`. */
  function StepSession(x: Session, input: StepInput): (Session, Transition) {
    var played := Played(x.game, input);
    var events := if played.lastEvent.Some? then [played.lastEvent.value] else [];
    var game := played.(lastEvent := None);
    var store := Refresh(x.store, game);
    (Session(game, store, (x.logicalStep + 1) % TWO_TO_64),
     Transition(ApplyCommands(x.game, input.remote).1, events, store.snapshot != x.store.snapshot || events != []))
  }

  function RunSession(x: Session, inputs: seq<StepInput>): Session
    decreases |inputs|
  {
    if inputs == [] then x else RunSession(StepSession(x, inputs[0]).0, inputs[1..])
  }

  // ---- every session game is a reachable game --------------------------

  lemma {:induction false} ActionsInv(s: Game, actions: seq<GameAction>, seed: Option<u32>)
    requires Inv(s)
    ensures Inv(ApplyActions(s, actions, seed))
    decreases |actions|
  {
    hide Inv, Apply, RestartWith;
    if actions == [] {
    } else {
      ApplyInv(s, actions[0]);
      if actions[0] == Restart && seed.Some? {
        RestartInv(s, seed.value);
        ActionsInv(RestartWith(s, seed.value), actions[1..], None);
      } else {
        ActionsInv(Apply(s, actions[0]).0, actions[1..], seed);
      }
    }
  }

  lemma {:induction false} RunActionsInv(s: Game, actions: seq<GameAction>)
    requires Inv(s)
    ensures Inv(RunActions(s, actions))
    decreases |actions|
  {
    hide Inv, Apply;
    if actions == [] {
    } else {
      ApplyInv(s, actions[0]);
      RunActionsInv(Apply(s, actions[0]).0, actions[1..]);
    }
  }

  lemma CommandInv(s: Game, c: Command)
    requires Inv(s) && CommandOk(c)
    ensures Inv(ApplyCommand(s, c).0)
  {
    hide Inv, Place;
    match c
    case Actions(actions, seed) => ActionsInv(s, actions, seed);
    case PlaceAt(x, rotation, useHold) =>
      if Place(s, x, rotation, useHold).Ok? {
        var cw, turns, right, shifts := PlaceRefinesActions(s, x, rotation, useHold);
        RunActionsInv(s, Plan(useHold, cw, turns, right, shifts) + [HardDrop]);
      }
  }

  lemma {:induction false} CommandsInv(s: Game, cs: seq<Command>)
    requires Inv(s) && forall i :: 0 <= i < |cs| ==> CommandOk(cs[i])
    ensures Inv(ApplyCommands(s, cs).0)
    decreases |cs|
  {
    hide Inv, ApplyCommand;
    if cs == [] {
    } else {
      CommandInv(s, cs[0]);
      CommandsInv(ApplyCommand(s, cs[0]).0, cs[1..]);
    }
  }

  lemma PlayedInv(s: Game, input: StepInput)
    requires Inv(s) && InputOk(input)
    ensures Inv(Played(s, input)) && Inv(Played(s, input).(lastEvent := None))
  {
    hide Inv, Tick;
    CommandsInv(s, input.remote);
    var a := ApplyCommands(s, input.remote).0;
    RunActionsInv(a, input.local);
    TickInv(RunActions(a, input.local), TICK_MS, false);
    EventIrrelevant(Played(s, input));
  }

  // ---- how the board id follows the board ------------------------------

  /** Up to n locks lie between s and t: the id counts them and, with none, the board is the same. */
  ghost predicate LocksBetween(s: Game, t: Game, n: nat) {
    exists k: nat :: LocksExactly(s, t, k) && k <= n
  }

  ghost predicate LocksExactly(s: Game, t: Game, k: nat) {
    t.ids.board == (s.ids.board + k) % TWO_TO_32 && (k == 0 ==> t.board == s.board)
  }

  lemma SameBoard(s: Game, t: Game)
    requires t.board == s.board && t.ids.board == s.ids.board
    ensures LocksBetween(s, t, 0)
  {
    assert LocksExactly(s, t, 0);
  }

  lemma LocksTrans(s: Game, t: Game, u: Game, m: nat, n: nat)
    requires LocksBetween(s, t, m) && LocksBetween(t, u, n)
    ensures LocksBetween(s, u, m + n)
  {
    var j: nat :| LocksExactly(s, t, j) && j <= m;
    var k: nat :| LocksExactly(t, u, k) && k <= n;
    CountOn(s.ids.board, j, k);
    assert LocksExactly(s, u, j + k);
  }

  lemma CountOn(a: nat, j: nat, k: nat)
    ensures ((a + j) % TWO_TO_32 + k) % TWO_TO_32 == (a + (j + k)) % TWO_TO_32
  {
  }

  lemma LocksWeaken(s: Game, t: Game, m: nat, n: nat)
    requires LocksBetween(s, t, m) && m <= n
    ensures LocksBetween(s, t, n)
  {
    var j: nat :| LocksExactly(s, t, j) && j <= m;
    assert LocksExactly(s, t, j) && j <= n;
  }

  lemma LockCounts(s: Game)
    requires Inv(s) && s.active.Some?
    ensures LocksBetween(s, LockDown(s), 1)
  {
    hide Inv, LockDown;
    InvFits(s);
    LockDelayBudget.LockChangesBoardId(s);
    assert LocksExactly(s, LockDown(s), 1);
  }

  lemma {:induction false} GravitySameBoard(s: Game, interval: u32)
    requires interval > 0
    ensures Gravity(s, interval).0.board == s.board && Gravity(s, interval).0.ids == s.ids
    decreases s.timers.drop
  {
    hide Fits, Grounded;
    if s.timers.drop >= interval {
      var t := s.(timers := s.timers.(drop := s.timers.drop - interval));
      MoveKeeps(t, 0, 1);
      GravitySameBoard(TryMove(t, 0, 1).0, interval);
    }
  }

  lemma TickLocks(s: Game, elapsed: u32, softDrop: bool)
    requires Inv(s)
    ensures LocksBetween(s, Tick(s, elapsed, softDrop).0, 1)
  {
    hide Inv, Gravity, LockDown, LocksBetween, OnGround;
    SameBoard(s, s);
    LocksWeaken(s, s, 0, 1);
    if Runs(s) {
      var a := Clocks(s, elapsed);
      var b := SoftDropClock(a, elapsed, softDrop);
      var c := b.(timers := b.timers.(drop := SaturatingAdd(b.timers.drop, elapsed)));
      var d := Gravity(c, DropInterval(b)).0;
      GravitySameBoard(c, DropInterval(b));
      ClocksInv(s, elapsed, softDrop);
      GravityInv(c, DropInterval(b));
      var e := d.(timers := d.timers.(lock := 0, drop := 0));
      var t := Tick(s, elapsed, softDrop).0;
      if t == LockDown(e) && e.active.Some? {
        TimersIrrelevant(d, e);
        LockCounts(e);
        SameBoard(s, e);
        LocksTrans(s, e, t, 0, 1);
      } else {
        LockNothing(e);
        SameBoard(s, t);
        LocksWeaken(s, t, 0, 1);
      }
    }
  }

  lemma LockNothing(s: Game)
    ensures s.active.None? ==> LockDown(s) == s
  {
    hide Settled, Spawn;
  }

  lemma TimersIrrelevant(s: Game, t: Game)
    requires Inv(s) && t == s.(timers := s.timers.(lock := 0, drop := 0))
    ensures Inv(t)
  {
    hide Fits, Preview, NoFullRow, QueueOk;
  }

  lemma ActionLocks(s: Game, action: GameAction)
    requires Inv(s) && action != Restart
    ensures LocksBetween(s, Apply(s, action).0, 1)
  {
    hide Inv, Fits, Grounded, Front, Preview, Drawn, LockDown, Landed, TryRotate, LocksBetween;
    SameBoard(s, s);
    var t := Apply(s, action).0;
    if action == HardDrop && Runs(s) && s.active.Some? {
      var u := Grounding(s.(flags := s.flags.(rotatedLast := false)));
      DropReady(s, s.(flags := s.flags.(rotatedLast := false)));
      GroundingInv(s.(flags := s.flags.(rotatedLast := false)));
      LockCounts(u);
      SameBoard(s, u);
      LocksTrans(s, u, LockDown(u), 0, 1);
      SameBoard(LockDown(u), t);
      LocksTrans(s, LockDown(u), t, 1, 0);
    } else {
      QuietAction(s, action);
      SameBoard(s, t);
      LocksWeaken(s, t, 0, 1);
    }
  }

  lemma GroundingInv(s: Game)
    requires Inv(s) && s.active.Some?
    ensures Inv(Grounding(s))
  {
    hide Fits, Preview, NoFullRow, QueueOk, Landed;
    LandedFits(s.board, s.active.value);
  }

  /** Actions that lock nothing leave the board and its id alone. */
  lemma QuietAction(s: Game, action: GameAction)
    requires Inv(s) && action != Restart && (action == HardDrop ==> !Runs(s) || s.active.None?)
    ensures Apply(s, action).0.board == s.board && Apply(s, action).0.ids.board == s.ids.board
  {
    hide Fits, Grounded, Front, Preview, Drawn, NoFullRow, QueueOk, TryRotate;
    StartedIfPiece(s);
  }

  lemma {:induction false} RunActionsLocks(s: Game, actions: seq<GameAction>)
    requires Inv(s) && Restart !in actions
    ensures LocksBetween(s, RunActions(s, actions), |actions|)
    decreases |actions|
  {
    hide Inv, Apply, LocksBetween;
    SameBoard(s, s);
    if actions == [] {
    } else {
      var t := Apply(s, actions[0]).0;
      ApplyInv(s, actions[0]);
      ActionLocks(s, actions[0]);
      RunActionsLocks(t, actions[1..]);
      LocksTrans(s, t, RunActions(s, actions), 1, |actions| - 1);
    }
  }

  lemma {:induction false} ActionsAsRun(s: Game, actions: seq<GameAction>, seed: Option<u32>)
    requires Restart !in actions
    ensures ApplyActions(s, actions, seed) == RunActions(s, actions)
    decreases |actions|
  {
    hide Apply, RestartWith;
    if actions != [] { ActionsAsRun(Apply(s, actions[0]).0, actions[1..], seed); }
  }

  predicate NoRestart(c: Command) {
    c.Actions? ==> Restart !in c.actions
  }

  lemma PlanHasNoRestart(useHold: bool, clockwise: bool, turns: nat, right: bool, shifts: nat)
    ensures Restart !in Plan(useHold, clockwise, turns, right, shifts) + [HardDrop]
  {
  }

  lemma PlaceLocks(s: Game, x: int, rotation: Rotation, useHold: bool)
    requires Inv(s) && -128 <= x < 128 && Place(s, x, rotation, useHold).Ok?
    ensures LocksBetween(s, Place(s, x, rotation, useHold).value, 32)
  {
    hide Inv, Place, LocksBetween, Plan, Fits, RunActions, GhostY, Landed, Fixed, Compact, Shape;
    var cw, turns, right, shifts := PlaceRefinesActions(s, x, rotation, useHold);
    var plan := Plan(useHold, cw, turns, right, shifts);
    PlanHasNoRestart(useHold, cw, turns, right, shifts);
    PlanLength(useHold, cw, turns, right, shifts);
    RunActionsLocks(s, plan + [HardDrop]);
    LocksWeaken(s, RunActions(s, plan + [HardDrop]), |plan| + 1, 32);
  }

  lemma CommandLocks(s: Game, c: Command)
    requires Inv(s) && CommandOk(c) && NoRestart(c)
    ensures LocksBetween(s, ApplyCommand(s, c).0, 32)
  {
    hide Inv, Place, LocksBetween;
    SameBoard(s, s);
    LocksWeaken(s, s, 0, 32);
    match c
    case Actions(actions, seed) =>
      ActionsAsRun(s, actions, seed);
      RunActionsLocks(s, actions);
      LocksWeaken(s, ApplyCommand(s, c).0, |actions|, 32);
    case PlaceAt(x, rotation, useHold) =>
      if Place(s, x, rotation, useHold).Ok? { PlaceLocks(s, x, rotation, useHold); }
  }

  lemma PlanLength(useHold: bool, clockwise: bool, turns: nat, right: bool, shifts: nat)
    ensures |Plan(useHold, clockwise, turns, right, shifts)| <= 1 + turns + shifts
  {
  }

  lemma {:induction false} CommandsLocks(s: Game, cs: seq<Command>)
    requires Inv(s) && forall i :: 0 <= i < |cs| ==> CommandOk(cs[i]) && NoRestart(cs[i])
    ensures LocksBetween(s, ApplyCommands(s, cs).0, 32 * |cs|)
    decreases |cs|
  {
    hide Inv, ApplyCommand, LocksBetween, CommandOk, NoRestart;
    SameBoard(s, s);
    if cs == [] {
    } else {
      var t := ApplyCommand(s, cs[0]).0;
      CommandInv(s, cs[0]);
      CommandLocks(s, cs[0]);
      CommandsLocks(t, cs[1..]);
      LocksTrans(s, t, ApplyCommands(s, cs).0, 32, 32 * (|cs| - 1));
    }
  }

  /** No command and no local action of the step restarts the game. */
  predicate RestartFree(input: StepInput) {
    Restart !in input.local && forall i :: 0 <= i < |input.remote| ==> NoRestart(input.remote[i])
  }

  lemma StepLocks(s: Game, input: StepInput)
    requires Inv(s) && InputOk(input) && RestartFree(input)
    ensures LocksBetween(s, Played(s, input), 1089)
  {
    hide Inv, LocksBetween, Tick, CommandOk, NoRestart;
    var a := ApplyCommands(s, input.remote).0;
    var b := RunActions(a, input.local);
    CommandsInv(s, input.remote);
    CommandsLocks(s, input.remote);
    RunActionsInv(a, input.local);
    RunActionsLocks(a, input.local);
    TickLocks(b, TICK_MS, false);
    LocksTrans(s, a, b, 32 * |input.remote|, |input.local|);
    LocksTrans(s, b, Played(s, input), 32 * |input.remote| + |input.local|, 1);
    LocksWeaken(s, Played(s, input), 32 * |input.remote| + |input.local| + 1, 1089);
  }

  // ---- coherence of the cache ------------------------------------------

  /** The stored snapshot is a fresh snapshot of the game. */
  ghost predicate Coherent(x: Session) {
    x.store.snapshot == SnapshotOf(x.game) && x.store.boardId == Some(x.game.ids.board)
  }

  lemma OpenedCoherent(s: Game)
    ensures Coherent(Opened(s))
  {
    hide GridCodes, BoardHash, GhostY;
  }

  /**
    Exactly when a step keeps the cache coherent, restarts included: the board id it ends with
    differs from the cached one, or the board it ends with is the cached one.
  */
  lemma CoherentExactly(x: Session, input: StepInput)
    requires Coherent(x)
    ensures Coherent(StepSession(x, input).0) <==>
      Played(x.game, input).ids.board != x.game.ids.board ||
      GridCodes(Played(x.game, input).board) == GridCodes(x.game.board)
  {
    hide Played, GridCodes, BoardHash, GhostY, ApplyCommands;
  }

  /** A step without restart keeps the cache coherent. */
  lemma StepCoherent(x: Session, input: StepInput)
    requires Coherent(x) && Inv(x.game) && InputOk(input) && RestartFree(input)
    ensures Coherent(StepSession(x, input).0) && Inv(StepSession(x, input).0.game)
  {
    hide Coherent, Inv, Played, ApplyCommands, GridCodes, InputOk, RestartFree;
    StepLocks(x.game, input);
    PlayedInv(x.game, input);
    CoherentExactly(x, input);
    var k: nat :| LocksExactly(x.game, Played(x.game, input), k) && k <= 1089;
  }

  /** Over any run of steps without restart, however long, the stored snapshot is the game's own. */
  lemma {:induction false} CacheAgrees(x: Session, inputs: seq<StepInput>)
    requires Coherent(x) && Inv(x.game)
    requires forall i :: 0 <= i < |inputs| ==> InputOk(inputs[i]) && RestartFree(inputs[i])
    ensures RunSession(x, inputs).store.snapshot == SnapshotOf(RunSession(x, inputs).game)
    decreases |inputs|
  {
    hide Inv, StepSession, InputOk, RestartFree, SnapshotOf;
    if inputs == [] {
    } else {
      StepCoherent(x, inputs[0]);
      CacheAgrees(StepSession(x, inputs[0]).0, inputs[1..]);
    }
  }

  // ---- the cache over runs with restarts -------------------------------

  /** The stored board is this game's, under the id cached. */
  predicate Stores(store: Store, s: Game) {
    WithBoard(store.snapshot, s) == store.snapshot && store.boardId == Some(s.ids.board)
  }

  /**
    The game whose board was copied last: that of the last step to end with another board id than
    the cached one, or the given one while there is none.
  */
  function LastCopied(x: Session, inputs: seq<StepInput>, copied: Game): Game
    decreases |inputs|
  {
    if inputs == [] then copied
    else
      var y := StepSession(x, inputs[0]).0;
      LastCopied(y, inputs[1..], if y.game.ids.board != x.game.ids.board then y.game else copied)
  }

  lemma StepStores(x: Session, input: StepInput, copied: Game)
    requires Stores(x.store, copied) && x.store.boardId == Some(x.game.ids.board)
    ensures var y := StepSession(x, input).0;
      && Stores(y.store, if y.game.ids.board != x.game.ids.board then y.game else copied)
      && y.store.boardId == Some(y.game.ids.board)
      && WithMeta(y.store.snapshot, y.game) == y.store.snapshot
  {
    hide Played, GridCodes, BoardHash, GhostY, ApplyCommands;
  }

  /** The stored board is the one copied last, whatever restarts lie between. */
  lemma {:induction false} StoredIsLastCopied(x: Session, inputs: seq<StepInput>, copied: Game)
    requires Stores(x.store, copied) && x.store.boardId == Some(x.game.ids.board)
    requires WithMeta(x.store.snapshot, x.game) == x.store.snapshot
    ensures var y := RunSession(x, inputs);
      && Stores(y.store, LastCopied(x, inputs, copied)) && y.store.boardId == Some(y.game.ids.board)
      && WithMeta(y.store.snapshot, y.game) == y.store.snapshot
    decreases |inputs|
  {
    hide Stores, StepSession, WithMeta;
    if inputs == [] {
    } else {
      StepStores(x, inputs[0], copied);
      var y := StepSession(x, inputs[0]).0;
      StoredIsLastCopied(y, inputs[1..], if y.game.ids.board != x.game.ids.board then y.game else copied);
    }
  }

  /** A store up to date but for the board is coherent exactly if the boards agree. */
  lemma StoredAgrees(x: Session, copied: Game)
    requires Stores(x.store, copied) && x.store.boardId == Some(x.game.ids.board)
    requires WithMeta(x.store.snapshot, x.game) == x.store.snapshot
    ensures Coherent(x) <==> GridCodes(copied.board) == GridCodes(x.game.board)
  {
    hide GridCodes, BoardHash, GhostY;
  }

  lemma OpenedStores(s: Game)
    ensures var x := Opened(s);
      && Stores(x.store, s) && x.store.boardId == Some(s.ids.board) && WithMeta(x.store.snapshot, s) == x.store.snapshot
  {
    hide GridCodes, BoardHash, GhostY;
  }

  /**
    Over any run of a session, restarts included, the cache agrees with the game exactly if the board
    copied last is the game's.
  */
  lemma CoherentOverRuns(seed: u32, inputs: seq<StepInput>)
    ensures var x := NewSession(seed);
      Coherent(RunSession(x, inputs)) <==>
        GridCodes(LastCopied(x, inputs, x.game).board) == GridCodes(RunSession(x, inputs).game.board)
  {
    hide Stores, StepSession, WithMeta, Coherent, GridCodes, RunSession, LastCopied, IdlePlay.Session;
    var x := NewSession(seed);
    OpenedStores(x.game);
    StoredIsLastCopied(x, inputs, x.game);
    StoredAgrees(RunSession(x, inputs), LastCopied(x, inputs, x.game));
  }

  /** However stale, the cache is coherent again after a step that ends with another board id. */
  lemma NextIdHeals(x: Session, input: StepInput)
    requires x.store.boardId != Some(Played(x.game, input).ids.board)
    ensures Coherent(StepSession(x, input).0)
  {
    hide Played, GridCodes, BoardHash, GhostY, ApplyCommands;
  }
}
