/** The session object, its idle runs, and the one way its cache goes stale. */
module SessionRuntimes {
  import opened Types
  import opened Grids
  import opened Pieces
  import opened QueueModule
  import opened GameModel
  import opened GameInvariant
  import opened BoardModule
  import opened GameStateModule
  import opened Placing
  import opened Snapshots
  import opened IdlePlay
  import opened Sessions

  // ---- sessions without input ------------------------------------------

  const NO_INPUT: StepInput := StepInput([], [])

  function Nothing(n: nat): seq<StepInput> {
    seq(n, _ => NO_INPUT)
  }

  lemma {:induction false} IdleSession(x: Session, n: nat)
    ensures RunSession(x, Nothing(n)).game == IdleFor(x.game, n)
    decreases n
  {
    hide Tick, Refresh;
    if n > 0 {
      assert Nothing(n)[1..] == Nothing(n - 1);
      IdleSession(StepSession(x, NO_INPUT).0, n - 1);
    }
  }

  /**
    A session opened with any seed and fed only empty inputs fills nothing outside columns 3-6,
    clears no line, locks at most twenty pieces, and is over after 23080 steps at the latest.
  */
  lemma IdleSessionEnds(seed: u32, n: nat)
    ensures var s := RunSession(NewSession(seed), Nothing(n)).game;
      && (forall x, y :: 0 <= y < HEIGHT && 0 <= x < WIDTH && (x < 3 || x >= 7) ==> s.board[y][x].None?)
      && s.tally.lines == 0 && s.ids.board <= 20
      && (n >= 20 * 1154 ==> s.flags.gameOver)
  {
    hide RunSession, IdleFor, IdlePlay.Session;
    IdleSession(NewSession(seed), n);
    IdleBand(seed, n);
    if n >= 20 * 1154 { IdleEnds(seed, n); }
  }

  // ---- a stale cache, from every seed ----------------------------------

  lemma {:induction false} GravityLock(s: Game, interval: u32)
    requires interval > 0
    ensures Gravity(s, interval).0.timers.lock <= s.timers.lock
    decreases s.timers.drop
  {
    hide Fits, Grounded;
    if s.timers.drop >= interval {
      GravityLock(TryMove(s.(timers := s.timers.(drop := s.timers.drop - interval)), 0, 1).0, interval);
    }
  }

  lemma QuietTick(s: Game)
    requires s.flags.gameOver || s.timers.lock < 400
    ensures Tick(s, TICK_MS, false).0.board == s.board && Tick(s, TICK_MS, false).0.ids.board == s.ids.board
  {
    hide OnGround, Gravity, LockDown;
    var a := SoftDropClock(Clocks(s, TICK_MS), TICK_MS, false);
    var b := a.(timers := a.timers.(drop := SaturatingAdd(a.timers.drop, TICK_MS)));
    GravitySameBoard(b, DropInterval(a));
    GravityLock(b, DropInterval(a));
  }

  /** A North piece near the spawn column fills no row of an empty field. */
  lemma EmptyFieldLock(p: Tetromino)
    requires p.rotation == North && 2 <= p.x <= 3
    ensures FullRows(Fixed(EmptyGrid(), p)) == []
  {
    ShapeBox(p.kind, North);
    var f := Fixed(EmptyGrid(), p);
    forall y | 0 <= y < HEIGHT ensures !IsFull(f[y]) {
      assert f[y][9].None?;
    }
    NothingToClear(f);
  }

  lemma EmptyFieldFits(p: Tetromino)
    requires p.rotation == North && 2 <= p.x <= 3 && p.y == 0
    ensures Fits(EmptyGrid(), p)
  {
    ShapeBox(p.kind, North);
    SmallHeight(p.kind);
  }

  lemma SmallHeight(kind: PieceKind)
    ensures forall i :: 0 <= i < 4 ==> Shape(kind, North)[i].1 <= 1
  {
  }

  /** First piece of an episode, hard dropped on the empty field, and the tick that follows. */
  lemma FirstDrop(s: Game, p: Tetromino)
    requires Inv(s) && Runs(s) && s.board == EmptyGrid() && s.ids.board == 0 && s.active == Some(p)
    requires p.rotation == North && 2 <= p.x <= 3 && p.y == 0
    ensures var t := Tick(Apply(s, HardDrop).0, TICK_MS, false).0;
      t.ids.board == 1 && t.board == Fixed(EmptyGrid(), Landed(EmptyGrid(), p))
  {
    hide Inv, Fits, Front, Preview, Drawn, FullRows, Scored, Fixed, Compact, LockSpin, DropDistance, EmptyGrid, Tick;
    var q := Landed(EmptyGrid(), p);
    EmptyFieldFits(p);
    LandedFits(EmptyGrid(), p);
    EmptyFieldLock(q);
    NothingCompact(Fixed(EmptyGrid(), q));
    HardDropFixes(s);
    var u := Grounding(s.(flags := s.flags.(rotatedLast := false)));
    var t := Apply(s, HardDrop).0;
    assert t.ids == LockDown(u).ids && t.timers == LockDown(u).timers;
    assert t.ids.board == 1;
    LockTimer(u);
    QuietTick(t);
  }

  lemma LockTimer(s: Game)
    requires s.active.Some?
    ensures LockDown(s).timers.lock == 0 || LockDown(s).flags.gameOver
  {
    hide Fits, Front, Preview, Drawn, Settled;
  }

  lemma CodeAt(p: Tetromino, x: int, y: int)
    requires InBounds(x, y)
    ensures GridCodes(Fixed(EmptyGrid(), p))[y][x] == if (x, y) in p.Cells() then KindCode(p.kind) else 0
  {
    hide Shape;
  }

  lemma LeftmostMino(kind: PieceKind) returns (i: nat)
    ensures i < 4 && forall j :: 0 <= j < 4 ==> Shape(kind, North)[i].0 <= Shape(kind, North)[j].0
  {
    ShapeBox(kind, North);
    MinDxMeaning(Shape(kind, North));
    i :| i < 4 && Shape(kind, North)[i].0 == MinDx(Shape(kind, North));
  }

  /** Falling keeps the columns. */
  lemma Columns(p: Tetromino)
    ensures forall j :: 0 <= j < 4 ==>
              Landed(EmptyGrid(), p).Cells()[j].0 == p.x + Shape(p.kind, p.rotation)[j].0
  {
    hide Shape, DropDistance;
  }

  /** The same piece dropped one column further left leaves a visibly different field. */
  lemma DropsDiffer(kind: PieceKind)
    ensures var p := Spawned(kind);
      GridCodes(Fixed(EmptyGrid(), Landed(EmptyGrid(), p))) !=
      GridCodes(Fixed(EmptyGrid(), Landed(EmptyGrid(), p.Moved(-1, 0))))
  {
    hide Fits, DropDistance, Shape, Fixed, GridCodes, EmptyGrid, Landed, Tetromino.Cells;
    var p := Spawned(kind);
    var i := LeftmostMino(kind);
    Columns(p);
    Columns(p.Moved(-1, 0));
    var right, left := Landed(EmptyGrid(), p), Landed(EmptyGrid(), p.Moved(-1, 0));
    EmptyFieldFits(p.Moved(-1, 0));
    LandedFits(EmptyGrid(), p.Moved(-1, 0));
    var (x, y) := left.Cells()[i];
    MinoFree(left, i);
    forall j | 0 <= j < 4 ensures right.Cells()[j].0 != x {
    }
    assert (x, y) !in right.Cells() && (x, y) in left.Cells();
    CodeAt(right, x, y);
    CodeAt(left, x, y);
  }

  lemma MinoFree(p: Tetromino, i: nat)
    requires Fits(EmptyGrid(), p) && i < 4
    ensures InBounds(p.Cells()[i].0, p.Cells()[i].1)
  {
    assert Free(EmptyGrid(), p.Cells()[i].0, p.Cells()[i].1);
  }

  /** A just opened or restarted game: the first piece at its spawn place on the empty field. */
  lemma Beginning(s: Game, seed: u32, s0: Game)
    requires s == IdlePlay.Session(seed) || s == RestartWith(s0, seed)
    ensures Inv(s) && Runs(s) && s.board == EmptyGrid() && s.ids.board == 0
    ensures s.active == Some(Spawned(Front(Fresh(seed))))
  {
    hide Inv, Fits, Preview, Front, Drawn, Fresh, EmptyGrid;
    NewGameInv(seed);
    StartInv(NewGame(seed));
    RestartInv(s0, seed);
    EmptyFieldFits(Spawned(Front(Fresh(seed))));
  }

  lemma LeftOnEmpty(s: Game, p: Tetromino)
    requires Inv(s) && Runs(s) && s.board == EmptyGrid() && s.ids.board == 0 && s.active == Some(p)
    requires p.rotation == North && p.x == 3 && p.y == 0
    ensures var t := Apply(s, MoveLeft).0;
      Inv(t) && Runs(t) && t.board == EmptyGrid() && t.ids.board == 0 && t.active == Some(p.Moved(-1, 0))
  {
    hide Inv, Fits, Grounded, EmptyGrid;
    EmptyFieldFits(p.Moved(-1, 0));
    ApplyInv(s, MoveLeft);
  }

  const DROP: StepInput := StepInput([], [HardDrop])

  function RestartAndDrop(seed: u32): StepInput {
    StepInput([Actions([Restart, MoveLeft, HardDrop], Some(seed))], [])
  }

  lemma DropPlayed(s: Game)
    ensures Played(s, DROP) == Tick(Apply(s, HardDrop).0, TICK_MS, false).0
  {
    hide Apply, Tick;
    OneAction(s, HardDrop);
  }

  lemma RestartPlayed(s: Game, seed: u32)
    ensures Played(s, RestartAndDrop(seed)) ==
      Tick(Apply(Apply(RestartWith(s, seed), MoveLeft).0, HardDrop).0, TICK_MS, false).0
  {
    hide Apply, Tick, RestartWith;
    var actions := [Restart, MoveLeft, HardDrop];
    var r := RestartWith(s, seed);
    var c := Actions(actions, Some(seed));
    assert actions[1..] == [MoveLeft, HardDrop];
    assert [MoveLeft, HardDrop][1..] == [HardDrop];
    OneAction(Apply(r, MoveLeft).0, HardDrop);
    ActionsAsRun(r, [MoveLeft, HardDrop], None);
    assert RunActions(r, [MoveLeft, HardDrop]) == RunActions(Apply(r, MoveLeft).0, [HardDrop]);
    assert ApplyCommand(s, c).0 == Apply(Apply(r, MoveLeft).0, HardDrop).0;
    assert RestartAndDrop(seed).remote[1..] == [];
    assert ApplyCommands(ApplyCommand(s, c).0, []).0 == ApplyCommand(s, c).0;
    assert ApplyCommands(s, RestartAndDrop(seed).remote).0 == ApplyCommand(s, c).0;
    assert RunActions(ApplyCommand(s, c).0, []) == ApplyCommand(s, c).0;
  }

  /**
    The cache can go stale, and does so from every seed: lock the first piece in one step, then
    restart with the same seed and lock it one column to the left in the next. Both boards carry
    id 1, so the second is never copied into the stored snapshot.
  */
  lemma StaleFromEverySeed(seed: u32)
    ensures var x := RunSession(NewSession(seed), [DROP, RestartAndDrop(seed)]);
      !Coherent(x) && x.store.snapshot != SnapshotOf(x.game)
  {
    hide Inv, Fits, Coherent, Played, EmptyGrid, GridCodes, IdlePlay.Session, RestartWith, Fixed, Landed, Apply, Tick,
      Refresh, Runs;
    var x0 := NewSession(seed);
    var kind := Front(Fresh(seed));
    var p := Spawned(kind);
    OpenedCoherent(x0.game);
    Beginning(x0.game, seed, x0.game);
    DropPlayed(x0.game);
    FirstDrop(x0.game, p);
    var x1 := StepSession(x0, DROP).0;
    CoherentExactly(x0, DROP);
    var r := RestartWith(x1.game, seed);
    Beginning(r, seed, x1.game);
    LeftOnEmpty(r, p);
    RestartPlayed(x1.game, seed);
    FirstDrop(Apply(r, MoveLeft).0, p.Moved(-1, 0));
    DropsDiffer(kind);
    CoherentExactly(x1, RestartAndDrop(seed));
    var x2 := StepSession(x1, RestartAndDrop(seed)).0;
    TwoSteps(x0, DROP, RestartAndDrop(seed));
    RefreshedId(x1, RestartAndDrop(seed));
  }

  lemma TwoSteps(x: Sessions.Session, a: StepInput, b: StepInput)
    ensures RunSession(x, [a, b]) == StepSession(StepSession(x, a).0, b).0
  {
    hide StepSession;
    assert [a, b][1..] == [b] && [b][1..] == [];
    var y := StepSession(x, a).0;
    assert RunSession(y, [b]) == RunSession(StepSession(y, b).0, []);
  }

  /** After any step the cached id is the game's, so incoherence shows in the snapshot itself. */
  lemma RefreshedId(x: Sessions.Session, input: StepInput)
    ensures var y := StepSession(x, input).0;
      y.store.boardId == Some(y.game.ids.board) && (!Coherent(y) <==> y.store.snapshot != SnapshotOf(y.game))
  {
    hide Played, GridCodes, BoardHash, GhostY;
  }

  // ---- implementation --------------------------------------------------

  class SnapshotStore {
    var snapshot: Snapshot
    var boardId: Option<u32>

    ghost function Abs(): Store
      reads this
    {
      Store(snapshot, boardId)
    }

    constructor (game: GameState)
      requires game.Valid()
      ensures Abs() == Sessions.Refresh(Store(Blank(), None), game.Abs())
    {
      snapshot := Blank();
      boardId := None;
      new;
      Refresh(game);
    }

    method Refresh(game: GameState)
      requires game.Valid() && this !in game.Footprint()
      modifies this
      ensures Abs() == Sessions.Refresh(old(Abs()), game.Abs())
    {
      hide Inv, Board.Grid, WithBoard, WithMeta;
      if boardId != Some(game.ids.board) {
        snapshot := SnapshotBoardInto(game, snapshot);
        boardId := Some(game.ids.board);
      }
      snapshot := SnapshotMetaInto(game, snapshot);
    }
  }

  /** Applies one command to the game and reports its outcome. */
  method ApplyGameCommand(game: GameState, command: Command) returns (outcome: Outcome)
    requires game.Valid() && CommandOk(command)
    modifies game.Footprint()
    ensures game.Valid() && (game.Abs(), outcome) == ApplyCommand(old(game.Abs()), command)
  {
    hide GameState.Abs, GameState.Sound, Inv, Apply, RestartWith, Place;
    match command
    case Actions(actions, restartSeed) =>
      var seed := restartSeed;
      var i := 0;
      assert actions[0..] == actions;
      while i < |actions|
        invariant 0 <= i <= |actions| && game.Valid()
        invariant ApplyActions(game.Abs(), actions[i..], seed) == ApplyActions(old(game.Abs()), actions, restartSeed)
      {
        assert actions[i..][1..] == actions[i + 1..];
        if actions[i] == Restart && seed.Some? {
          var _ := game.RestartWithSeed(seed.value);
          seed := None;
        } else {
          var _ := game.ApplyAction(actions[i]);
        }
        i := i + 1;
      }
      assert actions[i..] == [];
      outcome := Accepted;
    case PlaceAt(x, rotation, useHold) =>
      outcome := ApplyPlace(game, x, rotation, useHold);
  }

  class SessionRuntime {
    const game: GameState
    const snapshots: SnapshotStore
    var logicalStep: u64

    ghost function Footprint(): set<object> {
      {this, snapshots} + game.Footprint()
    }

    ghost predicate Valid()
      reads Footprint()
    {
      game.Valid() && this !in game.Footprint() && snapshots !in game.Footprint()
    }

    ghost function Abs(): Sessions.Session
      requires Valid()
      reads Footprint()
    {
      Session(game.Abs(), snapshots.Abs(), logicalStep)
    }

    /** Takes over a game and a snapshot store just built for it. */
    constructor (game: GameState, snapshots: SnapshotStore)
      requires game.Valid() && snapshots !in game.Footprint()
      ensures this.game == game && this.snapshots == snapshots && logicalStep == 0
    {
      this.game, this.snapshots, logicalStep := game, snapshots, 0;
    }

    /** Applies one complete input and advances exactly one logical transition. */
    method Transition(input: StepInput) returns (t: Transition)
      requires Valid() && InputOk(input)
      modifies Footprint()
      ensures Valid() && (Abs(), t) == StepSession(old(Abs()), input)
    {
      hide GameState.Abs, GameState.Sound, Inv, Played, ApplyCommands, Sessions.Refresh, InputOk;
      var before := snapshots.snapshot;
      var outcomes, event := PlayStep(game, input);
      var events := if event.Some? then [event.value] else [];
      logicalStep := (logicalStep + 1) % TWO_TO_64;
      snapshots.Refresh(game);
      t := Sessions.Transition(outcomes, events, snapshots.snapshot != before || events != []);
    }
  }

  /** Remote commands, then local actions, then one tick, then the event is taken. */
  method PlayStep(game: GameState, input: StepInput) returns (outcomes: seq<Outcome>, event: Option<LockEvent>)
    requires game.Valid() && InputOk(input)
    modifies game.Footprint()
    ensures game.Valid()
    ensures game.Abs() == Played(old(game.Abs()), input).(lastEvent := None)
    ensures event == Played(old(game.Abs()), input).lastEvent
    ensures outcomes == ApplyCommands(old(game.Abs()), input.remote).1
  {
    hide GameState.Abs, GameState.Sound, Inv, ApplyCommands, Tick, CommandOk;
    outcomes := ApplyRemote(game, input.remote);
    ApplyLocal(game, input.local);
    var _ := game.Tick(TICK_MS, false);
    EventIs(game);
    event := game.TakeLastEvent();
  }

  /** `SessionRuntime::new`. */
  method OpenSession(seed: u32) returns (session: SessionRuntime)
    ensures session.Valid() && fresh(session.Footprint())
    ensures session.Abs() == NewSession(seed)
  {
    hide GameState.Abs, GameState.Sound, Inv, NewGame, Start, Sessions.Refresh;
    var game := OpenGame(seed);
    var snapshots := new SnapshotStore(game);
    session := new SessionRuntime(game, snapshots);
  }

  /** A started game. */
  method OpenGame(seed: u32) returns (game: GameState)
    ensures game.Valid() && fresh(game.Footprint())
    ensures game.Abs() == IdlePlay.Session(seed)
  {
    hide GameState.Abs, GameState.Sound, Inv, NewGame, Start;
    game := new GameState(seed);
    game.Start();
  }

  /** Remote commands, in order, with their outcomes. */
  method ApplyRemote(game: GameState, remote: seq<Command>) returns (outcomes: seq<Outcome>)
    requires game.Valid() && forall i :: 0 <= i < |remote| ==> CommandOk(remote[i])
    modifies game.Footprint()
    ensures game.Valid() && (game.Abs(), outcomes) == ApplyCommands(old(game.Abs()), remote)
  {
    hide GameState.Abs, GameState.Sound, Inv, ApplyCommand, CommandOk;
    outcomes := [];
    var i := 0;
    assert remote[0..] == remote;
    while i < |remote|
      invariant 0 <= i <= |remote| && game.Valid()
      invariant ApplyCommands(old(game.Abs()), remote).0 == ApplyCommands(game.Abs(), remote[i..]).0
      invariant ApplyCommands(old(game.Abs()), remote).1 == outcomes + ApplyCommands(game.Abs(), remote[i..]).1
    {
      assert remote[i..][1..] == remote[i + 1..];
      var outcome := ApplyGameCommand(game, remote[i]);
      outcomes := outcomes + [outcome];
      i := i + 1;
    }
    assert remote[i..] == [];
    assert outcomes + [] == outcomes;
  }

  method ApplyLocal(game: GameState, local: seq<GameAction>)
    requires game.Valid()
    modifies game.Footprint()
    ensures game.Valid() && game.Abs() == RunActions(old(game.Abs()), local)
  {
    hide GameState.Abs, GameState.Sound, Inv, Apply;
    var i := 0;
    assert local[0..] == local;
    while i < |local|
      invariant 0 <= i <= |local| && game.Valid()
      invariant RunActions(game.Abs(), local[i..]) == RunActions(old(game.Abs()), local)
    {
      assert local[i..][1..] == local[i + 1..];
      var _ := game.ApplyAction(local[i]);
      i := i + 1;
    }
    assert local[i..] == [];
  }

  lemma EventIs(game: GameState)
    requires game.Sound()
    ensures game.Abs().lastEvent == game.lastEvent
  {
  }
}
