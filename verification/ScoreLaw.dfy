/**
  What a game's tally and lock events say, over every run: functions of the deeds of the episode,
  its locks and its soft-drop steps (crates/tetris-core/src/core/game_state.rs:478-596, 757-803).
*/
module ScoreLaws {
  import opened Types
  import opened Grids
  import opened Pieces
  import opened QueueModule
  import opened Scoring
  import opened GameModel
  import opened GameInvariant
  import opened LockDelayBudget
  import opened LockResets
  import opened GravityLaws

  // ---- deeds and what they are worth -----------------------------------

  /** A lock: rows it cleared, its spin, rows it was hard-dropped; or one row of soft drop by action. */
  datatype Deed = Locked(rows: nat, spin: TSpinKind, dropped: nat) | Stepped

  function Lines(ds: seq<Deed>): nat {
    if ds == [] then 0
    else
      var d := ds[|ds| - 1];
      Lines(ds[..|ds| - 1]) + (if d.Locked? then d.rows else 0)
  }

  /** Clearing locks in a row up to now. */
  function Chain(ds: seq<Deed>): nat {
    if ds == [] then 0
    else
      var d := ds[|ds| - 1];
      if d.Stepped? then Chain(ds[..|ds| - 1])
      else if d.rows == 0 then 0
      else Chain(ds[..|ds| - 1]) + 1
  }

  /** Four rows at once, or a full spin. */
  predicate Difficult(rows: nat, spin: TSpinKind) {
    rows > 0 && (spin == Full || (spin == NoSpin && rows == 4))
  }

  /** The last lock was a difficult clear. */
  predicate Streak(ds: seq<Deed>) {
    if ds == [] then false
    else
      var d := ds[|ds| - 1];
      if d.Stepped? then Streak(ds[..|ds| - 1]) else Difficult(d.rows, d.spin)
  }

  /** Points of a clear at level 0. */
  function Worth(rows: nat, spin: TSpinKind): nat {
    match spin
    case NoSpin =>
      if rows == 1 then 40 else if rows == 2 then 100 else if rows == 3 then 300 else if rows == 4 then 1200 else 0
    case Mini => if rows == 1 then 200 else if rows == 2 then 400 else 0
    case Full => if rows == 1 then 800 else if rows == 2 then 1200 else if rows == 3 then 1600 else 0
  }

  /** Points of a spin that clears nothing, at level 0. */
  function SpinWorth(spin: TSpinKind): nat {
    match spin case NoSpin => 0 case Mini => 100 case Full => 400
  }

  /** Points reported for a clear after these deeds: half as much again when it continues a streak. */
  function Reported(ds: seq<Deed>, rows: nat, spin: TSpinKind): nat {
    var plain := Worth(rows, spin) * (Lines(ds) / 10 + 1);
    if Streak(ds) && Difficult(rows, spin) then plain + plain / 2 else plain
  }

  function SpinPay(ds: seq<Deed>, spin: TSpinKind): nat {
    SpinWorth(spin) * (Lines(ds) / 10 + 1)
  }

  /** Points of one deed after the deeds before it. */
  function Points(ds: seq<Deed>, d: Deed): nat {
    match d
    case Stepped => 1
    case Locked(rows, spin, dropped) =>
      2 * dropped +
      if rows == 0 then SpinPay(ds, spin)
      else Reported(ds, rows, spin) + 50 * Chain(ds)
  }

  function Earned(ds: seq<Deed>): nat {
    if ds == [] then 0 else Earned(ds[..|ds| - 1]) + Points(ds[..|ds| - 1], ds[|ds| - 1])
  }

  function AtMost(n: nat): u32 {
    if n > U32_MAX then U32_MAX else n
  }

  /** The tally these deeds amount to. */
  function TallyOf(ds: seq<Deed>): Tally
    requires Lines(ds) <= U32_MAX
  {
    Tally(AtMost(Earned(ds)), Lines(ds) / 10, Lines(ds), Chain(ds) - 1, Streak(ds))
  }

  /** The event a lock leaves. */
  function EventOf(ds: seq<Deed>, rows: nat, spin: TSpinKind): LockEvent {
    LockEvent(true, AtMost(rows), if rows == 0 then 0 else AtMost(Reported(ds, rows, spin)),
              if rows > 0 && spin != NoSpin then Some(spin) else None,
              if rows == 0 then -1 else Chain(ds), Difficult(rows, spin))
  }

  /** Below this many lines no single payment reaches the width of the score. */
  const MANY: nat := 8_000_000

  lemma ReportFits(ds: seq<Deed>, rows: nat, spin: TSpinKind)
    requires Lines(ds) < MANY
    ensures 0 <= Reported(ds, rows, spin) <= 2400 * (MANY / 10)
    ensures Worth(rows, spin) * (Lines(ds) / 10 + 1) <= 1600 * (MANY / 10)
  {
    hide Lines;
    var level := Lines(ds) / 10;
    assert Worth(rows, spin) <= 1600 && level + 1 <= MANY / 10;
    Products(Worth(rows, spin), 1600, level + 1, MANY / 10);
  }

  lemma Products(a: nat, b: nat, c: nat, d: nat)
    requires a <= b && c <= d
    ensures 0 <= a * c <= b * d
  {
    assert a * c <= b * c;
    assert b * c <= b * d;
  }

  lemma {:induction false} ChainBound(ds: seq<Deed>)
    ensures Chain(ds) <= Lines(ds)
  {
    if ds == [] {
    } else {
      ChainBound(ds[..|ds| - 1]);
    }
  }

  lemma OneMoreDeed(ds: seq<Deed>, d: Deed)
    ensures var es := ds + [d];
      && Earned(es) == Earned(ds) + Points(ds, d)
      && Lines(es) == Lines(ds) + (if d.Locked? then d.rows else 0)
      && Chain(es) == (if d.Stepped? then Chain(ds) else if d.rows == 0 then 0 else Chain(ds) + 1)
      && (Streak(es) <==> if d.Stepped? then Streak(ds) else Difficult(d.rows, d.spin))
  {
    hide Points, Difficult;
    assert (ds + [d])[..|ds|] == ds;
  }

  // ---- the payment -----------------------------------------------------

  lemma LineScoreIs(rows: nat, level: u32)
    requires 1 <= rows <= 4 && level < MANY / 10
    ensures LineScore(rows, level) == Worth(rows, NoSpin) * (level + 1)
  {
    Products(Worth(rows, NoSpin), 1600, level + 1, MANY / 10);
  }

  lemma SpinScoreIs(spin: TSpinKind, rows: nat, level: u32)
    requires spin != NoSpin && rows <= 4 && level < MANY / 10
    ensures TSpinScore(spin, rows, level) == (if rows == 0 then SpinWorth(spin) else Worth(rows, spin)) * (level + 1)
  {
    Products(if rows == 0 then SpinWorth(spin) else Worth(rows, spin), 1600, level + 1, MANY / 10);
  }

  lemma ClearIs(ds: seq<Deed>, rows: nat, spin: TSpinKind)
    requires Lines(ds) < MANY && 1 <= rows <= 4 && Chain(ds) <= MANY
    ensures var r := Score(rows, Lines(ds) / 10, spin, Chain(ds), Streak(ds));
      && r.lineClearScore == Reported(ds, rows, spin)
      && r.total == Reported(ds, rows, spin) + 50 * Chain(ds)
      && (r.qualifiesForB2b <==> Difficult(rows, spin))
  {
    hide Lines, Chain, Streak, LineScore, TSpinScore, Worth;
    ReportFits(ds, rows, spin);
    if spin == NoSpin { LineScoreIs(rows, Lines(ds) / 10); } else { SpinScoreIs(spin, rows, Lines(ds) / 10); }
    HalfAgain(Worth(rows, spin) * (Lines(ds) / 10 + 1));
  }

  lemma HalfAgain(n: nat)
    requires n <= 1600 * (MANY / 10)
    ensures ApplyB2b(n) == n + n / 2
  {
  }

  /** One lock's payment, before the points for rows dropped. */
  lemma ScoredIs(ds: seq<Deed>, rows: nat, spin: TSpinKind)
    requires Lines(ds) + rows < MANY && rows <= 4
    ensures var es := ds + [Locked(rows, spin, 0)];
      && Lines(es) <= U32_MAX
      && Scored(TallyOf(ds), rows, spin) == (TallyOf(es), if rows == 0 then 0 else Reported(ds, rows, spin))
  {
    hide Lines, Chain, Streak, Earned, Reported, Score, TSpinScore, SpinPay, Scored;
    OneMoreDeed(ds, Locked(rows, spin, 0));
    ChainBound(ds);
    if rows == 0 {
      ScoredNone(ds, spin);
    } else {
      ScoredSome(ds, rows, spin);
    }
  }

  lemma ScoredNone(ds: seq<Deed>, spin: TSpinKind)
    requires Lines(ds) < MANY
    ensures SpinPay(ds, spin) <= U32_MAX
    ensures Scored(TallyOf(ds), 0, spin) ==
      (Tally(AtMost(Earned(ds) + SpinPay(ds, spin)), Lines(ds) / 10, Lines(ds), -1, false), 0)
  {
    hide Lines, Chain, Streak, Earned, TSpinScore, SpinPay;
    SpinPayIs(ds, spin);
  }

  lemma SpinPayIs(ds: seq<Deed>, spin: TSpinKind)
    requires Lines(ds) < MANY
    ensures SpinPay(ds, spin) <= U32_MAX
    ensures (if spin == NoSpin then 0 else TSpinScore(spin, 0, Lines(ds) / 10)) == SpinPay(ds, spin)
  {
    hide Lines;
    Products(SpinWorth(spin), 400, Lines(ds) / 10 + 1, MANY / 10);
    if spin != NoSpin { SpinScoreIs(spin, 0, Lines(ds) / 10); }
  }

  lemma ScoredSome(ds: seq<Deed>, rows: nat, spin: TSpinKind)
    requires Lines(ds) + rows < MANY && 1 <= rows <= 4 && Chain(ds) <= Lines(ds)
    ensures Reported(ds, rows, spin) <= U32_MAX
    ensures Scored(TallyOf(ds), rows, spin) ==
      (Tally(AtMost(Earned(ds) + Reported(ds, rows, spin) + 50 * Chain(ds)), (Lines(ds) + rows) / 10,
             Lines(ds) + rows, Chain(ds), Difficult(rows, spin)), Reported(ds, rows, spin))
  {
    hide Lines, Chain, Streak, Earned, Reported, Score, Difficult;
    ReportFits(ds, rows, spin);
    ClearIs(ds, rows, spin);
  }

  // ---- deeds of a run --------------------------------------------------

  /** The deed of locking this piece. */
  function LockDeed(s: Game, p: Tetromino, turned: bool, dropped: nat): Deed {
    var f := Fixed(s.board, p);
    Locked(|FullRows(f)|, if p.kind == T then TSpin(f, p, turned) else NoSpin, dropped)
  }

  /** What an operation does that counts: a lock by hard drop or tick, or a soft-drop step. */
  function DeedOf(s: Game, op: Op): Option<Deed> {
    match op
    case Act(HardDrop) =>
      if !s.flags.paused && !s.flags.gameOver && s.active.Some? then
        Some(LockDeed(s, Landed(s.board, s.active.value), false, DropDistance(s.board, s.active.value)))
      else None
    case Act(SoftDrop) =>
      if !s.flags.paused && !s.flags.gameOver && s.active.Some? && Fits(s.board, s.active.value.Moved(0, 1)) then
        Some(Stepped)
      else None
    case TickBy(ms, soft) =>
      if Plays(s, op) && LocksByTick(s, ms, soft) then
        Some(LockDeed(s, s.active.value.Moved(0, TickRows(s, ms, soft)), s.flags.rotatedLast, 0))
      else None
    case _ => None
  }

  function Onward(ds: seq<Deed>, s: Game, op: Op): seq<Deed> {
    if Restarts(op) then [] else if DeedOf(s, op).Some? then ds + [DeedOf(s, op).value] else ds
  }

  /** The deeds of the current episode after the run. */
  function Deeds(s: Game, ops: seq<Op>, ds: seq<Deed>): seq<Deed>
    decreases |ops|
  {
    if ops == [] then ds else Deeds(Step(s, ops[0]), ops[1..], Onward(ds, s, ops[0]))
  }

  /** The event left behind: that of the last lock, unless it was taken. */
  function Telling(told: Option<LockEvent>, ds: seq<Deed>, s: Game, op: Op): Option<LockEvent> {
    if Restarts(op) || op.TakeEvent? then None
    else
      match DeedOf(s, op)
      case Some(Locked(rows, spin, _)) => Some(EventOf(ds, rows, spin))
      case _ => told
  }

  function Told(s: Game, ops: seq<Op>, ds: seq<Deed>, told: Option<LockEvent>): Option<LockEvent>
    decreases |ops|
  {
    if ops == [] then told
    else Told(Step(s, ops[0]), ops[1..], Onward(ds, s, ops[0]), Telling(told, ds, s, ops[0]))
  }

  ghost predicate Kept(s: Game, ds: seq<Deed>, told: Option<LockEvent>) {
    Lines(ds) < MANY ==> s.tally == TallyOf(ds) && s.lastEvent == told
  }

  predicate SameTally(s: Game, t: Game) {
    t.tally == s.tally && t.lastEvent == s.lastEvent
  }

  lemma SpawnPays(s: Game)
    ensures SameTally(s, Spawn(s))
  {
    hide Fits, Preview, Front, Drawn;
  }

  /** A lock pays for its deed, the rows dropped aside. */
  lemma LockPays(e: Game, ds: seq<Deed>, turned: bool)
    requires e.active.Some? && Fits(e.board, e.active.value) && turned == e.flags.rotatedLast
    requires var d := LockDeed(e, e.active.value, turned, 0);
      Lines(ds) + d.rows < MANY && d.rows <= 4 && e.tally == TallyOf(ds)
    ensures var d := LockDeed(e, e.active.value, turned, 0);
      && Lines(ds + [d]) <= U32_MAX && LockDown(e).tally == TallyOf(ds + [d])
      && LockDown(e).lastEvent == Some(EventOf(ds, d.rows, d.spin))
  {
    hide Fits, Spawn, FullRows, Compact, TSpin, Fixed, TallyOf, Scored, Reported, Lines;
    var d := LockDeed(e, e.active.value, turned, 0);
    ScoredIs(ds, d.rows, d.spin);
    CompactGrid(FixedBoard(e));
    SpawnPays(Settled(e));
    SettledTells(e, ds, d);
  }

  lemma SettledTells(e: Game, ds: seq<Deed>, d: Deed)
    requires e.active.Some? && Fits(e.board, e.active.value) && d == LockDeed(e, e.active.value, e.flags.rotatedLast, 0)
    requires Lines(ds) < MANY && d.rows <= 4 && Lines(ds + [d]) <= U32_MAX
    requires Scored(e.tally, d.rows, d.spin) ==
      (TallyOf(ds + [d]), if d.rows == 0 then 0 else Reported(ds, d.rows, d.spin))
    ensures Settled(e).tally == TallyOf(ds + [d])
    ensures Settled(e).lastEvent == Some(EventOf(ds, d.rows, d.spin))
  {
    hide Fits, FullRows, Compact, TSpin, Fixed, Scored, Reported, Lines, Chain, Streak, Earned, Difficult;
    CompactGrid(FixedBoard(e));
    OneMoreDeed(ds, d);
    ReportFits(ds, d.rows, d.spin);
  }

  lemma AtMostFour(s: Game, p: Tetromino)
    requires Inv(s)
    ensures |FullRows(Fixed(s.board, p))| <= 4
  {
    hide Fits, FullRows, Fixed, PreviewOk, Paid;
    AtMostFourFull(s.board, p);
  }

  lemma LinesGrow(ds: seq<Deed>, d: Deed)
    ensures Lines(ds) <= Lines(ds + [d])
  {
    OneMoreDeed(ds, d);
  }

  lemma DroppedToo(ds: seq<Deed>, rows: nat, spin: TSpinKind, dropped: nat)
    requires Lines(ds) + rows < MANY && dropped <= 100
    ensures var es, fs := ds + [Locked(rows, spin, 0)], ds + [Locked(rows, spin, dropped)];
      && Lines(es) == Lines(fs) == Lines(ds) + rows
      && TallyOf(fs) == TallyOf(es).(score := SaturatingAdd(TallyOf(es).score, DropScore(dropped, true)))
  {
    hide Lines, Chain, Streak, Earned, Reported, SpinWorth;
    OneMoreDeed(ds, Locked(rows, spin, 0));
    OneMoreDeed(ds, Locked(rows, spin, dropped));
  }

  lemma DropKept(s: Game, ds: seq<Deed>, told: Option<LockEvent>)
    requires Inv(s) && Kept(s, ds, told)
    ensures Kept(Apply(s, HardDrop).0, Onward(ds, s, Act(HardDrop)), Telling(told, ds, s, Act(HardDrop)))
  {
    hide Inv, Fits, LockDown, DropDistance, FullRows, TSpin, Fixed, TallyOf, EventOf, Lines;
    if !s.flags.paused && !s.flags.gameOver && s.active.Some? {
      var u := Grounding(s.(flags := s.flags.(rotatedLast := false)));
      var p := u.active.value;
      InvPiece(s);
      LandedFits(s.board, s.active.value);
      AtMostFour(s, p);
      DropShort(s.board, s.active.value);
      var d := LockDeed(s, p, false, 0);
      OneMoreDeed(ds, DeedOf(s, Act(HardDrop)).value);
      if Lines(Onward(ds, s, Act(HardDrop))) < MANY {
        LockPays(u, ds, false);
        DroppedToo(ds, d.rows, d.spin, DropDistance(s.board, s.active.value));
      }
    }
  }

  lemma DropShort(g: Grid, p: Tetromino)
    requires Fits(g, p)
    ensures DropDistance(g, p) <= 23
  {
    FitsBox(g, p);
  }

  lemma TickKept(s: Game, ms: u32, soft: bool, ds: seq<Deed>, told: Option<LockEvent>)
    requires Inv(s) && AirClear(s) && SoftOk(s) && Kept(s, ds, told)
    ensures var op := TickBy(ms, soft); Kept(Tick(s, ms, soft).0, Onward(ds, s, op), Telling(told, ds, s, op))
  {
    hide Inv, AirClear, SoftOk, Tick, LockDown, LocksByTick, TickRows, DropDistance, Pace, Fits, FullRows, TSpin, Fixed;
    hide TallyOf, EventOf, Lines;
    var op := TickBy(ms, soft);
    if Plays(s, op) {
      var e := TickEnds(s, ms, soft);
      if LocksByTick(s, ms, soft) {
        var d := DeedOf(s, op).value;
        AtMostFour(s, e.active.value);
        OneMoreDeed(ds, d);
        if Lines(ds + [d]) < MANY { LockPays(e, ds, s.flags.rotatedLast); }
      }
    } else {
      IdleKept(s, ms, soft);
    }
  }

  lemma IdleKept(s: Game, ms: u32, soft: bool)
    requires !Plays(s, TickBy(ms, soft))
    ensures SameTally(s, Tick(s, ms, soft).0)
  {
    hide Advance;
  }

  lemma SoftKept(s: Game, ds: seq<Deed>, told: Option<LockEvent>)
    requires Kept(s, ds, told)
    ensures Kept(Apply(s, SoftDrop).0, Onward(ds, s, Act(SoftDrop)), Telling(told, ds, s, Act(SoftDrop)))
  {
    hide Fits, Grounded, Lines, Chain, Streak, Earned;
    OneMoreDeed(ds, Stepped);
  }

  lemma OtherKept(s: Game, action: GameAction)
    requires action !in {SoftDrop, HardDrop, Restart}
    ensures SameTally(s, Apply(s, action).0)
  {
    hide Fits, Grounded, Spawn, TryRotate;
    if s.active.Some? { SpawnPays(s.(hold := Some(s.active.value.kind))); }
  }

  lemma RestartKept(s: Game, seed: u32)
    ensures RestartWith(s, seed).tally == TallyOf([]) && RestartWith(s, seed).lastEvent == None
  {
    hide Spawn, Preview, Fresh;
    SpawnPays(NewGame(seed).(ids := NewGame(seed).ids.(episode := WrappingAdd(s.ids.episode, 1)),
                             flags := NewGame(seed).flags.(started := true)));
  }

  lemma StillKept(s: Game, t: Game, op: Op, ds: seq<Deed>, told: Option<LockEvent>)
    requires Kept(s, ds, told) && SameTally(s, t)
    requires !Restarts(op) && !op.TakeEvent? && DeedOf(s, op).None?
    ensures Kept(t, Onward(ds, s, op), Telling(told, ds, s, op))
  {
    hide Lines, TallyOf, DeedOf;
  }

  lemma StepKept(s: Game, op: Op, ds: seq<Deed>, told: Option<LockEvent>)
    requires Inv(s) && AirClear(s) && SoftOk(s) && Kept(s, ds, told)
    ensures Kept(Step(s, op), Onward(ds, s, op), Telling(told, ds, s, op))
  {
    hide Inv, AirClear, SoftOk, Tick, RestartWith, Spawn, Held, TryMove, TryTurn, HardDropped, Lines, TallyOf, EventOf;
    hide LockDeed, LocksByTick, Plays, Fits;
    match op
    case Begin =>
      SpawnPays(s.(flags := s.flags.(started := true)));
      StillKept(s, Step(s, op), op, ds, told);
    case Act(HardDrop) => DropKept(s, ds, told);
    case Act(SoftDrop) => SoftKept(s, ds, told);
    case Act(Restart) => RestartKept(s, s.queue.rng);
    case Act(a) =>
      OtherKept(s, a);
      StillKept(s, Step(s, op), op, ds, told);
    case TickBy(ms, soft) => TickKept(s, ms, soft, ds, told);
    case RestartSeed(seed) => RestartKept(s, seed);
    case TakeEvent =>
  }

  lemma {:induction false} KeptOverRun(s: Game, ops: seq<Op>, ds: seq<Deed>, told: Option<LockEvent>)
    requires Inv(s) && AirClear(s) && SoftOk(s) && Kept(s, ds, told)
    ensures Kept(Run(s, ops), Deeds(s, ops, ds), Told(s, ops, ds, told))
    decreases |ops|
  {
    hide Inv, AirClear, SoftClock, Step, Asked, Kept, Onward, Telling;
    if ops == [] {
    } else {
      var since :| SoftClock(s, since);
      StepInv(s, ops[0]);
      StepRule(s, ops[0]);
      SoftDropStep(s, ops[0], since);
      StepKept(s, ops[0], ds, told);
      KeptOverRun(Step(s, ops[0]), ops[1..], Onward(ds, s, ops[0]), Telling(told, ds, s, ops[0]));
    }
  }

  /**
    The tally is the history of the episode, over every run in which it has fewer than eight million
    lines: the score is what the deeds earned, up to the width of the field; the lines are those
    cleared and the level a tenth of them; the combo counts the clearing locks in a row from zero; and
    a streak stands exactly if the last lock was a difficult clear.
  */
  lemma TallyIsHistory(seed: u32, ops: seq<Op>)
    ensures var ds := Deeds(NewGame(seed), ops, []);
      var t := Run(NewGame(seed), ops).tally;
      Lines(ds) < MANY ==>
        && t.score == (if Earned(ds) > U32_MAX then U32_MAX else Earned(ds))
        && t.lines == Lines(ds) && t.level == Lines(ds) / 10
        && t.combo == Chain(ds) - 1 && t.backToBack == Streak(ds)
  {
    hide Inv, AirClear, Run, NewGame, Lines, Chain, Streak, Earned, Deeds, Told;
    NewGameInv(seed);
    NoPieceYet(seed);
    NotAsked(seed);
    assert Kept(NewGame(seed), [], None) by { NothingDone(seed); }
    KeptOverRun(NewGame(seed), ops, [], None);
  }

  /**
    The event waiting is that of the last lock since the last take or restart: its rows, the points
    of its clear with the streak it continued, its spin if it cleared, and combo and streak after it.
  */
  lemma EventIsLastLock(seed: u32, ops: seq<Op>)
    ensures Lines(Deeds(NewGame(seed), ops, [])) < MANY ==>
      Run(NewGame(seed), ops).lastEvent == Told(NewGame(seed), ops, [], None)
  {
    hide Inv, AirClear, Run, NewGame, Lines, Chain, Streak, Earned, Deeds, Told;
    NewGameInv(seed);
    NoPieceYet(seed);
    NotAsked(seed);
    assert Kept(NewGame(seed), [], None) by { NothingDone(seed); }
    KeptOverRun(NewGame(seed), ops, [], None);
  }

  lemma NothingDone(seed: u32)
    ensures Kept(NewGame(seed), [], None)
  {
  }
}
