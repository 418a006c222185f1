/**
  One piece can be kept in play for ever (crates/tetris-core/src/core/game_state.rs): turned up and
  back on a flat floor it leaves the ground and loses its count of lock-delay resets.
*/
module Stalling {
  import opened Types
  import opened Grids
  import opened Pieces
  import opened QueueModule
  import opened GameModel
  import opened GameInvariant
  import opened LockDelayBudget
  import opened LockResets

  // ---- counting one operation more -------------------------------------

  lemma {:induction false} UsedOfPrefix(s: Game, a: seq<Op>, b: seq<Op>, n: nat)
    requires n <= |a|
    ensures At(s, a + b, n) == At(s, a, n) && ResetsUsed(s, a + b, n) == ResetsUsed(s, a, n)
  {
    hide Run;
    assert (a + b)[..n] == a[..n];
    if n == 0 {
    } else {
      UsedOfPrefix(s, a, b, n - 1);
    }
  }

  lemma {:induction false} TimeOneMore(s: Game, ops: seq<Op>, op: Op)
    ensures EffectiveTime(s, ops + [op]) == EffectiveTime(s, ops) + EffectiveMs(Run(s, ops), op)
    decreases |ops|
  {
    hide Step, EffectiveMs;
    if ops == [] {
      assert ([] + [op])[1..] == [];
    } else {
      assert (ops + [op])[1..] == ops[1..] + [op];
      TimeOneMore(Step(s, ops[0]), ops[1..], op);
    }
  }

  lemma Extended(s: Game, ops: seq<Op>, op: Op)
    requires OnePiece(s, ops) && SamePiece(Run(s, ops), Step(Run(s, ops), op))
    ensures var more := ops + [op];
      var a, b := Run(s, ops), Step(Run(s, ops), op);
      && OnePiece(s, more) && Run(s, more) == b
      && EffectiveTime(s, more) == EffectiveTime(s, ops) + EffectiveMs(a, op)
      && ResetsUsed(s, more, |more|) ==
           ResetsUsed(s, ops, |ops|) +
           (if b.timers.resets > a.timers.resets then b.timers.resets - a.timers.resets else 0)
  {
    hide Run, Step, SamePiece, EffectiveMs, EffectiveTime;
    RunOneMore(s, ops, op);
    TimeOneMore(s, ops, op);
    var more := ops + [op];
    assert ops[..|ops|] == ops && more[..|more|] == more;
    forall n | 0 <= n < |more|
      ensures SamePiece(At(s, more, n), At(s, more, n + 1))
    {
      UsedOfPrefix(s, ops, [op], n);
      if n < |ops| { UsedOfPrefix(s, ops, [op], n + 1); }
    }
    UsedOfPrefix(s, ops, [op], |ops|);
  }

  // ---- on the empty field ----------------------------------------------

  /** Play is on over the empty field with this piece, outside a line-clear pause. */
  ghost predicate Poised(s: Game, p: Tetromino) {
    Inv(s) && Runs(s) && s.board == EmptyGrid() && s.active == Some(p) && s.timers.lineClear == 0
  }

  /** The row at which an upright piece of this kind stands on the floor. */
  function FloorRow(kind: PieceKind): int {
    if kind == I then 16 else 17
  }

  function Flat(kind: PieceKind, y: int): Tetromino {
    Tetromino(kind, North, 3, y)
  }

  function Upright(kind: PieceKind): Tetromino {
    Tetromino(kind, West, 3, FloorRow(kind))
  }

  /** Upright it rests on the floor; flat at the same place it does not. */
  lemma FloorFacts(kind: PieceKind, y: nat)
    requires kind != O && y <= FloorRow(kind)
    ensures Fits(EmptyGrid(), Flat(kind, y)) && !Grounded(EmptyGrid(), Flat(kind, y))
    ensures Fits(EmptyGrid(), Upright(kind)) && Grounded(EmptyGrid(), Upright(kind))
  {
    var up := Upright(kind);
    assert !Free(EmptyGrid(), up.Cells()[3].0, up.Cells()[3].1 + 1);
  }

  /** Turning in place is the first choice of both turns. */
  lemma TurnsInPlace(kind: PieceKind)
    requires kind != O
    ensures TryRotate(EmptyGrid(), Upright(kind), true) == Some(Flat(kind, FloorRow(kind)))
    ensures TryRotate(EmptyGrid(), Flat(kind, FloorRow(kind)), false) == Some(Upright(kind))
  {
    hide Fits, Grounded;
    FloorFacts(kind, FloorRow(kind));
  }

  lemma SoftDropped(s: Game, kind: PieceKind, y: nat)
    requires kind != O && Poised(s, Flat(kind, y)) && y < FloorRow(kind)
    ensures Poised(Step(s, Act(SoftDrop)), Flat(kind, y + 1))
  {
    hide Fits, Grounded, Inv;
    StepInv(s, Act(SoftDrop));
    FloorFacts(kind, y + 1);
  }

  lemma {:induction false} FallsTo(s: Game, kind: PieceKind, y: nat) returns (ops: seq<Op>)
    requires kind != O && Poised(s, Flat(kind, 0)) && y <= FloorRow(kind)
    ensures Poised(Run(s, ops), Flat(kind, y)) && |ops| == y
    decreases y
  {
    hide Poised, Step;
    if y == 0 {
      ops := [];
      NoSteps(s);
    } else {
      var before := FallsTo(s, kind, y - 1);
      ops := before + [Act(SoftDrop)];
      RunOneMore(s, before, Act(SoftDrop));
      SoftDropped(Run(s, before), kind, y - 1);
    }
  }

  /** The piece has just been stood up on the floor. */
  ghost predicate Standing(s: Game, kind: PieceKind) {
    kind != O && Poised(s, Upright(kind)) && s.timers.lock == 0
  }

  lemma StandsUp(s: Game, kind: PieceKind)
    requires kind != O && Poised(s, Flat(kind, FloorRow(kind))) && s.timers.resets == 0
    ensures var t := Step(s, Act(RotateCcw)); Standing(t, kind) && SamePiece(s, t) && t.timers.resets == 1
  {
    hide Fits, Grounded, Inv, TryRotate;
    StepInv(s, Act(RotateCcw));
    FloorFacts(kind, FloorRow(kind));
    TurnsInPlace(kind);
  }

  lemma LiesDown(s: Game, kind: PieceKind)
    requires kind != O && Poised(s, Upright(kind))
    ensures var t := Step(s, Act(RotateCw));
      && Poised(t, Flat(kind, FloorRow(kind))) && SamePiece(s, t) && t.timers.resets == 0
  {
    hide Fits, Grounded, Inv, TryRotate;
    StepInv(s, Act(RotateCw));
    FloorFacts(kind, FloorRow(kind));
    TurnsInPlace(kind);
  }

  lemma Waits(s: Game, kind: PieceKind)
    requires Standing(s, kind)
    ensures var t := Step(s, TickBy(TICK_MS, false));
      && Poised(t, Upright(kind)) && SamePiece(s, t)
      && EffectiveMs(s, TickBy(TICK_MS, false)) == TICK_MS
  {
    hide Fits, Grounded, Inv, LockDown, Gravity;
    StepInv(s, TickBy(TICK_MS, false));
    FloorFacts(kind, FloorRow(kind));
    var a := Clocks(s, TICK_MS);
    var b := SoftDropClock(a, TICK_MS, false);
    var c := b.(timers := b.timers.(drop := SaturatingAdd(b.timers.drop, TICK_MS)));
    GravityOnGround(c, DropInterval(b));
  }

  // ---- for ever --------------------------------------------------------

  /** Each round of a tick, a turn down and a turn up takes 16 ms of play and one more reset. */
  lemma {:induction false} Stalls(s: Game, kind: PieceKind, n: nat) returns (ops: seq<Op>)
    requires kind != O && Standing(s, kind)
    ensures Standing(Run(s, ops), kind) && OnePiece(s, ops)
    ensures EffectiveTime(s, ops) == TICK_MS * n && ResetsUsed(s, ops, |ops|) >= n
    decreases n
  {
    hide Standing, Poised, Step, SamePiece, EffectiveMs, OnePiece, Run, ResetsUsed, EffectiveTime;
    if n == 0 {
      ops := [];
      NoSteps(s);
      Started(s, kind);
    } else {
      var before := Stalls(s, kind, n - 1);
      var wait, down, up := TickBy(TICK_MS, false), Act(RotateCw), Act(RotateCcw);
      Waits(Run(s, before), kind);
      Extended(s, before, wait);
      LiesDown(Run(s, before + [wait]), kind);
      Extended(s, before + [wait], down);
      StandsUp(Run(s, before + [wait] + [down]), kind);
      Extended(s, before + [wait] + [down], up);
      ops := before + [wait] + [down] + [up];
      NoTime(down);
      NoTime(up);
    }
  }

  lemma NoTime(op: Op)
    requires op.Act?
    ensures forall s: Game :: EffectiveMs(s, op) == 0
  {
  }

  lemma Started(s: Game, kind: PieceKind)
    requires Standing(s, kind)
    ensures OnePiece(s, []) && EffectiveTime(s, []) == 0 && ResetsUsed(s, [], 0) == 0
  {
    hide Inv, At;
  }

  lemma KindsDiffer(bag: seq<PieceKind>)
    requires |bag| == 7 && OneOfEach(bag)
    ensures bag[0] != bag[1]
  {
    assert bag == [bag[0], bag[1]] + bag[2..];
    assert multiset(bag) == multiset([bag[0], bag[1]]) + multiset(bag[2..]);
    assert multiset(Kinds())[bag[0]] <= 1 by { assert Kinds() == [I, O, T, S, Z, J, L]; }
  }

  lemma SpawnFits(kind: PieceKind)
    ensures Fits(EmptyGrid(), Flat(kind, 0))
  {
  }

  lemma Opening(seed: u32)
    ensures var s := Step(NewGame(seed), Begin);
      && Poised(s, Flat(Fresh(seed).bag[0], 0)) && s.flags.canHold && s.hold.None?
      && s.queue == Advanced(Fresh(seed)) && Fresh(seed).index == 0 && OneOfEach(Fresh(seed).bag)
  {
    hide Fits, Inv, Preview, OneOfEach, Shuffle;
    NewGameInv(seed);
    StepInv(NewGame(seed), Begin);
    SpawnFits(Fresh(seed).bag[0]);
    RefilledOk(Queue(seed, Kinds(), 0, seed));
  }

  /** A first hold on the empty field brings in the second piece of the bag. */
  lemma HeldOnce(s: Game, q: PieceSource)
    requires q.index == 0 && s.queue == Advanced(q) && s.flags.canHold && s.hold.None?
    requires exists p :: Poised(s, p)
    ensures Poised(Step(s, Act(Hold)), Flat(q.bag[1], 0))
  {
    hide Fits, Inv, Preview, Shuffle;
    var p :| Poised(s, p);
    StepInv(s, Act(Hold));
    SpawnFits(q.bag[1]);
  }

  /** From every seed a piece that is no O gets to its spawn place on the empty field. */
  lemma FirstTurnable(seed: u32) returns (ops: seq<Op>, kind: PieceKind)
    ensures kind != O && Poised(Run(NewGame(seed), ops), Flat(kind, 0)) && |ops| <= 2
  {
    hide Inv, Step, NewGame, Poised, OneOfEach, Fresh, Advanced;
    var s := Step(NewGame(seed), Begin);
    Opening(seed);
    kind := Fresh(seed).bag[0];
    ops := [Begin];
    NoSteps(NewGame(seed));
    RunOneMore(NewGame(seed), [], Begin);
    assert [] + [Begin] == [Begin];
    if kind == O {
      HeldOnce(s, Fresh(seed));
      KindsDiffer(Fresh(seed).bag);
      kind := Fresh(seed).bag[1];
      RunOneMore(NewGame(seed), [Begin], Act(Hold));
      ops := [Begin] + [Act(Hold)];
    }
  }

  /**
    From every seed some piece can be kept on the ground for as long as one likes: for every n
    there is a run of that one piece, never locking, that takes at least n milliseconds of play
    outside pauses and uses at least n resets, so the sixteenth and every later one.
  */
  lemma StallsFromEverySeed(seed: u32, n: nat) returns (before: seq<Op>, ops: seq<Op>)
    ensures var s := Run(NewGame(seed), before);
      && Reachable(s) && OnGround(s) && OnePiece(s, ops) && |before| <= 20
      && OnGround(Run(s, ops)) && Runs(Run(s, ops))
      && EffectiveTime(s, ops) >= n && ResetsUsed(s, ops, |ops|) >= n
  {
    hide Inv, Step, NewGame, Poised, OneOfEach, OnePiece, Run, ResetsUsed, EffectiveTime, OnGround, Runs, Standing;
    var first, kind := FirstTurnable(seed);
    var fall := FallsTo(Run(NewGame(seed), first), kind, FloorRow(kind));
    RunAppend(NewGame(seed), first, fall);
    before := first + fall + [Act(RotateCcw)];
    RunOneMore(NewGame(seed), first + fall, Act(RotateCcw));
    FlatInAir(NewGame(seed), first + fall, seed, kind);
    StandsUp(Run(NewGame(seed), first + fall), kind);
    var s := Run(NewGame(seed), before);
    ReachedBy(seed, before);
    ops := Stalls(s, kind, n);
    StandingRests(s, kind);
    StandingRests(Run(s, ops), kind);
  }

  lemma FlatInAir(s: Game, ops: seq<Op>, seed: u32, kind: PieceKind)
    requires s == NewGame(seed) && kind != O && Poised(Run(s, ops), Flat(kind, FloorRow(kind)))
    ensures Run(s, ops).timers.resets == 0
  {
    hide Inv, Run, NewGame, Grounded, Reachable;
    ReachedBy(seed, ops);
    ReachableAir(Run(s, ops));
    FloorFacts(kind, FloorRow(kind));
  }

  lemma ReachedBy(seed: u32, ops: seq<Op>)
    ensures Reachable(Run(NewGame(seed), ops))
  {
    hide Run, NewGame;
  }

  lemma StandingRests(s: Game, kind: PieceKind)
    requires Standing(s, kind)
    ensures OnGround(s) && Runs(s)
  {
    hide Inv, Fits, Grounded;
    FloorFacts(kind, 0);
  }
}
