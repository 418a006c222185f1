/**
  Two reachable games in which a hold is allowed but the piece it would bring in does not fit
  (crates/tetris-core/src/core/game_state.rs): a tower built from the pieces of seed 240.
*/
module HoldBlocked {
  import opened Types
  import opened Grids
  import opened Pieces
  import opened QueueModule
  import opened GameModel
  import opened GameInvariant
  import opened Accounting
  import opened LockResets

  // ---- towers ----------------------------------------------------------

  /**
    Nothing lies above row top, the tower reaches it in column c (or is empty), and column 0 stays
    free, so no row is full.
  */
  ghost predicate Tower(g: Grid, top: nat, c: int) {
    && top <= HEIGHT
    && (forall x, y :: InBounds(x, y) && y < top ==> g[y][x].None?)
    && (top < HEIGHT ==> 0 <= c < WIDTH && g[top][c].Some?)
    && (forall y :: 0 <= y < HEIGHT ==> g[y][0].None?)
  }

  lemma NoTower()
    ensures Tower(EmptyGrid(), HEIGHT, 0)
  {
  }

  lemma StampedCell(g: Grid, p: Tetromino, x: int, y: int)
    requires InBounds(x, y)
    ensures Fixed(g, p)[y][x] == if (x, y) in p.Cells() then Some(p.kind) else g[y][x]
  {
  }

  /** The piece reaches from its row lo to its row hi, has mino b at the foot and mino a at the top. */
  predicate Spans(p: Tetromino, lo: nat, hi: nat, a: nat, b: nat) {
    && p.x == 3 && a < 4 && b < 4 && hi <= 3
    && Shape(p.kind, p.rotation)[a].1 == lo && Shape(p.kind, p.rotation)[b].1 == hi
    && forall i :: 0 <= i < 4 ==> lo <= Shape(p.kind, p.rotation)[i].1 <= hi
  }

  lemma AboveTower(g: Grid, top: nat, c: int, p: Tetromino)
    requires Tower(g, top, c) && p.x == 3 && p.y >= 0
    requires forall i :: 0 <= i < 4 ==> p.y + Shape(p.kind, p.rotation)[i].1 < top
    ensures Fits(g, p)
  {
    ShapeBox(p.kind, p.rotation);
  }

  /** A piece whose foot stands over the tower's top lands on it and becomes its new top. */
  lemma Lands(g: Grid, top: nat, c: int, p: Tetromino, lo: nat, hi: nat, a: nat, b: nat)
    requires Tower(g, top, c) && p.y == 0 && Spans(p, lo, hi, a, b) && hi < top
    requires top < HEIGHT ==> 3 + Shape(p.kind, p.rotation)[b].0 == c
    ensures Fits(g, p) && Landed(g, p) == p.Moved(0, top - 1 - hi) && Fits(g, Landed(g, p))
  {
    hide Fits;
    var d := top - 1 - hi;
    AboveTower(g, top, c, p);
    forall k | 1 <= k <= d
      ensures Fits(g, p.Moved(0, k))
    {
      AboveTower(g, top, c, p.Moved(0, k));
    }
    assert !Fits(g, p.Moved(0, d + 1)) by { Blocks(g, top, c, p.Moved(0, d + 1), b); }
    DropDistanceUnique(g, p, d);
    AboveTower(g, top, c, p.Moved(0, d));
  }

  lemma Blocks(g: Grid, top: nat, c: int, p: Tetromino, b: nat)
    requires Tower(g, top, c) && b < 4 && p.y + Shape(p.kind, p.rotation)[b].1 == top
    requires top < HEIGHT ==> p.x + Shape(p.kind, p.rotation)[b].0 == c
    ensures !Fits(g, p)
  {
    assert !Free(g, p.Cells()[b].0, p.Cells()[b].1);
  }

  lemma CellRange(p: Tetromino, lo: nat, hi: nat, a: nat, b: nat)
    requires Spans(p, lo, hi, a, b)
    ensures a < 4
    ensures forall c :: c in p.Cells() ==> 3 <= c.0 <= 6 && p.y + lo <= c.1 <= p.y + hi
    ensures (3 + Shape(p.kind, p.rotation)[a].0, p.y + lo) in p.Cells()
  {
    hide Shape;
    ShapeBox(p.kind, p.rotation);
    assert p.Cells()[a] == (3 + Shape(p.kind, p.rotation)[a].0, p.y + lo);
  }

  lemma Grows(g: Grid, top: nat, c: int, p: Tetromino, lo: nat, hi: nat, a: nat, b: nat)
    requires Tower(g, top, c) && Spans(p, lo, hi, a, b) && p.y >= 0 && p.y + hi == top - 1
    ensures Tower(Fixed(g, p), p.y + lo, 3 + Shape(p.kind, p.rotation)[a].0)
    ensures FullRows(Fixed(g, p)) == [] && Compact(Fixed(g, p)) == Fixed(g, p)
  {
    hide Fixed, Shape, FullRows, Compact, Spans, Tetromino.Cells;
    CellRange(p, lo, hi, a, b);
    var h, newTop, x0 := Fixed(g, p), p.y + lo, 3 + Shape(p.kind, p.rotation)[a].0;
    forall x, y | InBounds(x, y) && y < newTop
      ensures h[y][x].None?
    {
      StampedCell(g, p, x, y);
    }
    forall y | 0 <= y < HEIGHT
      ensures h[y][0].None?
    {
      StampedCell(g, p, 0, y);
    }
    StampedCell(g, p, x0, newTop);
    NotFull(h);
  }

  lemma NotFull(g: Grid)
    requires forall y :: 0 <= y < HEIGHT ==> g[y][0].None?
    ensures FullRows(g) == [] && Compact(g) == g
  {
    forall y | 0 <= y < HEIGHT
      ensures !IsFull(g[y])
    {
      assert g[y][0].None?;
    }
    NothingToClear(g);
  }

  /** The piece, about to drop, lands on the tower's top, and the next one can then come in. */
  ghost predicate Settles(g: Grid, top: nat, c: int, p: Tetromino, lo: nat, hi: nat, a: nat, b: nat, next: PieceKind) {
    && Spans(p, lo, hi, a, b) && p.y == 0 && hi < top
    && (top < HEIGHT ==> 3 + Shape(p.kind, p.rotation)[b].0 == c)
    && Fits(Fixed(g, p.Moved(0, top - 1 - hi)), Spawned(next))
  }

  lemma SettlesOn(g: Grid, top: nat, c: int, p: Tetromino, lo: nat, hi: nat, a: nat, b: nat, next: PieceKind)
    requires Tower(g, top, c) && Settles(g, top, c, p, lo, hi, a, b, next)
    ensures Fits(g, p) && Fits(g, Landed(g, p)) && hi < top
    ensures var h := Fixed(g, Landed(g, p));
      && h == Fixed(g, p.Moved(0, top - 1 - hi))
      && Tower(h, top - 1 - hi + lo, 3 + Shape(p.kind, p.rotation)[a].0)
      && FullRows(h) == [] && Compact(h) == h && Fits(h, Spawned(next))
  {
    hide Fits, Tower, Fixed, FullRows, Compact, Shape, Landed;
    Lands(g, top, c, p, lo, hi, a, b);
    Grows(g, top, c, p.Moved(0, top - 1 - hi), lo, hi, a, b);
  }

  // ---- play ------------------------------------------------------------

  /** Play is on, the tower stands so high, and this piece has just come in. */
  ghost predicate Building(s: Game, top: nat, c: int, kind: PieceKind) {
    Inv(s) && Runs(s) && Tower(s.board, top, c) && s.active == Some(Spawned(kind))
  }

  /** The lock of a piece where it hard-drops, with the next piece fitting. */
  lemma DropsOn(s: Game, p: Tetromino)
    requires Inv(s) && Runs(s) && s.active == Some(p) && Fits(s.board, Landed(s.board, p))
    requires var h := Fixed(s.board, Landed(s.board, p));
      FullRows(h) == [] && Compact(h) == h && Fits(h, Spawned(Front(s.queue)))
    ensures var t := Step(s, Act(HardDrop));
      && Inv(t) && Runs(t) && t.board == Fixed(s.board, Landed(s.board, p))
      && t.active == Some(Spawned(Front(s.queue))) && t.queue == Advanced(s.queue)
      && t.hold == s.hold && t.flags.canHold
  {
    hide Inv, Fits, Grounded, Front, Preview, Drawn, Landed, Fixed, FullRows, Compact, Scored, LockSpin;
    StepInv(s, Act(HardDrop));
  }

  lemma Turns(s: Game, kind: PieceKind)
    requires Inv(s) && Runs(s) && kind != O && s.active == Some(Spawned(kind))
    requires Fits(s.board, Spawned(kind).(rotation := East))
    ensures var t := Step(s, Act(RotateCw));
      && Inv(t) && Runs(t) && t.board == s.board && t.queue == s.queue && t.hold == s.hold
      && t.active == Some(Spawned(kind).(rotation := East))
  {
    hide Inv, Fits, Grounded, Kicks, Preview;
    StepInv(s, Act(RotateCw));
    assert Kicked(Spawned(kind), true, 0) == Spawned(kind).(rotation := East);
  }

  /** One piece more on the tower, as it comes. */
  lemma Lays(s: Game, top: nat, c: int, kind: PieceKind, lo: nat, hi: nat, a: nat, b: nat)
    requires Building(s, top, c, kind)
    requires Settles(s.board, top, c, Spawned(kind), lo, hi, a, b, Front(s.queue))
    ensures hi < top
    ensures var t := Step(s, Act(HardDrop));
      && Building(t, top - 1 - hi + lo, 3 + Shape(kind, North)[a].0, Front(s.queue))
      && t.board == Fixed(s.board, Spawned(kind).Moved(0, top - 1 - hi))
      && t.queue == Advanced(s.queue) && t.hold == s.hold && t.flags.canHold
  {
    hide Inv, Fits, Runs, Tower, Front, Advanced, Step, Shape, Fixed, FullRows, Compact, Landed, Settles;
    SettlesOn(s.board, top, c, Spawned(kind), lo, hi, a, b, Front(s.queue));
    DropsOn(s, Spawned(kind));
  }

  /** One piece more on the tower, turned first. */
  lemma LaysTurned(s: Game, top: nat, c: int, kind: PieceKind, lo: nat, hi: nat, a: nat, b: nat)
    requires Building(s, top, c, kind) && kind != O
    requires Settles(s.board, top, c, Spawned(kind).(rotation := East), lo, hi, a, b, Front(s.queue))
    ensures hi < top
    ensures var t := Step(Step(s, Act(RotateCw)), Act(HardDrop));
      && Building(t, top - 1 - hi + lo, 3 + Shape(kind, East)[a].0, Front(s.queue))
      && t.board == Fixed(s.board, Spawned(kind).(rotation := East).Moved(0, top - 1 - hi))
      && t.queue == Advanced(s.queue) && t.hold == s.hold && t.flags.canHold
  {
    hide Inv, Fits, Runs, Tower, Front, Advanced, Step, Shape, Fixed, FullRows, Compact, Landed, Settles;
    var p := Spawned(kind).(rotation := East);
    SettlesOn(s.board, top, c, p, lo, hi, a, b, Front(s.queue));
    Turns(s, kind);
    DropsOn(Step(s, Act(RotateCw)), p);
  }

  /** Below row 2 the tower leaves room for every piece to come in. */
  lemma Enters(g: Grid, top: nat, c: int, kind: PieceKind)
    requires Tower(g, top, c) && top >= 2
    ensures Fits(g, Spawned(kind))
  {
  }

  lemma SettlesLow(g: Grid, top: nat, c: int, p: Tetromino, lo: nat, hi: nat, a: nat, b: nat, next: PieceKind)
    requires Tower(g, top, c) && Spans(p, lo, hi, a, b) && p.y == 0 && hi < top
    requires top < HEIGHT ==> 3 + Shape(p.kind, p.rotation)[b].0 == c
    requires top - 1 - hi + lo >= 2
    ensures Settles(g, top, c, p, lo, hi, a, b, next)
  {
    hide Fits, Tower, Fixed, FullRows, Compact, Shape;
    var q := p.Moved(0, top - 1 - hi);
    Grows(g, top, c, q, lo, hi, a, b);
    Enters(Fixed(g, q), q.y + lo, 3 + Shape(p.kind, p.rotation)[a].0, next);
  }

  // ---- the pieces of seed 240 ------------------------------------------

  const SEED: u32 := 240
  const BAG: seq<PieceKind> := [O, J, S, L, T, Z, I]
  const NEXT_BAG: seq<PieceKind> := [S, J, Z, T, O, L, I]
  const RNG: u32 := 311022582
  const NEXT_RNG: u32 := 397225804

  lemma ShuffledOnce(s: seq<PieceKind>, i: nat, state: u32, next: u32, j: nat, t: seq<PieceKind>)
    requires 0 < i < |s| && next == NextState(state) && j == next % (i + 1) && t == Swapped(s, i, j)
    ensures Shuffled(s, i, state) == Shuffled(t, i - 1, next)
  {
  }

  lemma FirstBag()
    ensures Shuffle(Kinds(), SEED) == (BAG, RNG)
  {
    hide Shuffled;
    ShuffledOnce(Kinds(), 6, 240, 1413390223, 0, [L, O, T, S, Z, J, I]);
    ShuffledOnce([L, O, T, S, Z, J, I], 5, 1413390223, 203884450, 4, [L, O, T, S, J, Z, I]);
    ShuffledOnce([L, O, T, S, J, Z, I], 4, 203884450, 642179737, 2, [L, O, J, S, T, Z, I]);
    ShuffledOnce([L, O, J, S, T, Z, I], 3, 642179737, 2369940260, 0, [S, O, J, L, T, Z, I]);
    ShuffledOnce([S, O, J, L, T, Z, I], 2, 2369940260, 1443019827, 0, [J, O, S, L, T, Z, I]);
    ShuffledOnce([J, O, S, L, T, Z, I], 1, 1443019827, 311022582, 0, BAG);
    ShuffledAll(BAG, RNG);
  }

  lemma SecondBag()
    ensures Shuffle(Kinds(), RNG) == (NEXT_BAG, NEXT_RNG)
  {
    hide Shuffled;
    ShuffledOnce(Kinds(), 6, 311022582, 3404249821, 0, [L, O, T, S, Z, J, I]);
    ShuffledOnce([L, O, T, S, Z, J, I], 5, 3404249821, 2219409048, 0, [J, O, T, S, Z, L, I]);
    ShuffledOnce([J, O, T, S, Z, L, I], 4, 2219409048, 2574446871, 1, [J, Z, T, S, O, L, I]);
    ShuffledOnce([J, Z, T, S, O, L, I], 3, 2574446871, 1586715530, 2, [J, Z, S, T, O, L, I]);
    ShuffledOnce([J, Z, S, T, O, L, I], 2, 1586715530, 2967311713, 1, [J, S, Z, T, O, L, I]);
    ShuffledOnce([J, S, Z, T, O, L, I], 1, 2967311713, 397225804, 0, NEXT_BAG);
    ShuffledAll(NEXT_BAG, NEXT_RNG);
  }

  lemma ShuffledAll(s: seq<PieceKind>, state: u32)
    requires |s| > 0
    ensures Shuffled(s, 0, state) == (s, state)
  {
  }

  /** The queue with k pieces of the first bag drawn. */
  function Taken(k: nat): PieceSource
    requires k <= 7
  {
    Queue(SEED, BAG, k, RNG)
  }

  lemma FirstSeven(k: nat)
    requires k < 7
    ensures Fresh(SEED) == Taken(0) && Front(Taken(k)) == BAG[k] && Advanced(Taken(k)) == Taken(k + 1)
  {
    FirstBag();
  }

  lemma ThenNext()
    ensures Front(Taken(7)) == S && Front(Advanced(Taken(7))) == J
  {
    SecondBag();
  }

  // ---- building --------------------------------------------------------

  const PAIR: seq<Op> := [Act(RotateCw), Act(HardDrop)]

  lemma PairRuns(s: Game)
    ensures Run(s, PAIR) == Step(Step(s, Act(RotateCw)), Act(HardDrop))
  {
    hide Step;
    NoSteps(s);
    RunOneMore(s, [], Act(RotateCw));
    RunOneMore(s, [Act(RotateCw)], Act(HardDrop));
    assert [] + [Act(RotateCw)] == [Act(RotateCw)] && [Act(RotateCw)] + [Act(HardDrop)] == PAIR;
  }

  /** L, T and Z, each turned, on a tower that stands at row 14 in column 4. */
  lemma UpToFive(s: Game)
    requires Building(s, 14, 4, L) && s.queue == Taken(4)
    ensures var t := Run(s, PAIR + PAIR + PAIR); Building(t, 5, 5, I) && t.queue == Taken(7) && t.hold == s.hold
  {
    hide Inv, Runs, Tower, Fits, Step, Fixed, Front, Advanced, Settles, Run;
    FirstSeven(4);
    FirstSeven(5);
    FirstSeven(6);
    PairRuns(s);
    SettlesLow(s.board, 14, 4, Spawned(L).(rotation := East), 0, 2, 0, 2, T);
    LaysTurned(s, 14, 4, L, 0, 2, 0, 2);
    var a := Run(s, PAIR);
    PairRuns(a);
    SettlesLow(a.board, 11, 4, Spawned(T).(rotation := East), 0, 2, 0, 3, Z);
    LaysTurned(a, 11, 4, T, 0, 2, 0, 3);
    var b := Run(a, PAIR);
    PairRuns(b);
    SettlesLow(b.board, 8, 4, Spawned(Z).(rotation := East), 0, 2, 0, 3, I);
    LaysTurned(b, 8, 4, Z, 0, 2, 0, 3);
    RunAppend(s, PAIR, PAIR);
    RunAppend(s, PAIR + PAIR, PAIR);
  }

  /** An upright I on top leaves room for an S to come in, but not for a J or an O. */
  lemma LastRow(g: Grid)
    requires Tower(g, 5, 5)
    ensures var h := Fixed(g, Spawned(I).(rotation := East).Moved(0, 1));
      Fits(h, Spawned(S)) && !Fits(h, Spawned(J)) && !Fits(h, Spawned(O))
  {
    hide Fixed;
    var p := Spawned(I).(rotation := East).Moved(0, 1);
    var h := Fixed(g, p);
    assert p.Cells() == [(5, 1), (5, 2), (5, 3), (5, 4)];
    forall x, y | InBounds(x, y) && y < 2
      ensures h[y][x] == if x == 5 && y == 1 then Some(I) else None
    {
      StampedCell(g, p, x, y);
    }
    assert !Free(h, Spawned(J).Cells()[3].0, Spawned(J).Cells()[3].1);
    assert !Free(h, Spawned(O).Cells()[3].0, Spawned(O).Cells()[3].1);
  }

  lemma TopsOut(s: Game)
    requires Building(s, 5, 5, I) && s.queue == Taken(7)
    ensures var t := Run(s, PAIR);
      && Inv(t) && Runs(t) && t.active == Some(Spawned(S)) && Front(t.queue) == J
      && t.hold == s.hold && t.flags.canHold
      && !Fits(t.board, Spawned(J)) && !Fits(t.board, Spawned(O))
  {
    hide Inv, Runs, Tower, Fits, Step, Fixed, Front, Advanced, Run;
    ThenNext();
    PairRuns(s);
    LastRow(s.board);
    LaysTurned(s, 5, 5, I, 0, 3, 0, 3);
  }

  const TURNED: seq<Op> := PAIR + PAIR + PAIR + PAIR

  lemma Finishes(s: Game)
    requires Building(s, 14, 4, L) && s.queue == Taken(4)
    ensures var t := Run(s, TURNED);
      && Inv(t) && Runs(t) && t.active == Some(Spawned(S)) && Front(t.queue) == J
      && t.hold == s.hold && t.flags.canHold
      && !Fits(t.board, Spawned(J)) && !Fits(t.board, Spawned(O))
  {
    hide Inv, Runs, Tower, Fits, Front, Run, Building;
    UpToFive(s);
    RunAppend(s, PAIR + PAIR + PAIR, PAIR);
    TopsOut(Run(s, PAIR + PAIR + PAIR));
  }

  lemma Opened()
    ensures var s := Step(NewGame(SEED), Begin);
      Building(s, HEIGHT, 0, O) && s.queue == Taken(1) && s.flags.canHold && s.hold.None?
  {
    hide Fits, Inv, Preview, Fresh, Front, Advanced, Tower, EmptyGrid;
    FirstSeven(0);
    NewGameInv(SEED);
    StepInv(NewGame(SEED), Begin);
    NoTower();
    Enters(EmptyGrid(), HEIGHT, 0, O);
  }

  /** The first hold of the game puts the O away and brings the J in. */
  lemma PutAway(s: Game)
    requires Building(s, HEIGHT, 0, O) && s.queue == Taken(1) && s.flags.canHold && s.hold.None?
    ensures var t := Step(s, Act(Hold));
      Building(t, HEIGHT, 0, J) && t.queue == Taken(2) && t.hold == Some(O)
  {
    hide Fits, Inv, Preview, Front, Advanced, Tower, Runs;
    FirstSeven(1);
    StepInv(s, Act(Hold));
    Enters(s.board, HEIGHT, 0, J);
    HoldRuns(s);
  }

  lemma HoldRuns(s: Game)
    requires Runs(s) && s.active.Some? && s.flags.canHold && s.hold.None? && Fits(s.board, Spawned(Front(s.queue)))
    ensures var t := Step(s, Act(Hold));
      && Runs(t) && t.board == s.board && t.active == Some(Spawned(Front(s.queue)))
      && t.queue == Advanced(s.queue) && t.hold == Some(s.active.value.kind)
  {
    hide Fits, Preview, Front, Advanced;
  }

  // ---- the two games ---------------------------------------------------

  const SLOT_EMPTY: seq<Op> := [Begin, Act(HardDrop), Act(HardDrop), Act(HardDrop)] + TURNED

  const SLOT_FILLED: seq<Op> := [Begin, Act(Hold)] + PAIR + PAIR + TURNED

  /** A hold is allowed, but the piece it would bring in does not fit. */
  ghost predicate HoldFails(s: Game) {
    Runs(s) && s.flags.canHold && s.active.Some? && !Fits(s.board, Spawned(Incoming(s)))
  }

  lemma FourSteps(s: Game, a: Op, b: Op, c: Op, d: Op)
    ensures Run(s, [a, b]) == Step(Step(s, a), b)
    ensures Run(s, [a, b, c, d]) == Step(Step(Step(Step(s, a), b), c), d)
  {
    hide Step;
    NoSteps(s);
    RunOneMore(s, [], a);
    RunOneMore(s, [a], b);
    RunOneMore(s, [a, b], c);
    RunOneMore(s, [a, b, c], d);
    assert [] + [a] == [a] && [a] + [b] == [a, b] && [a, b] + [c] == [a, b, c];
    assert [a, b, c] + [d] == [a, b, c, d];
  }

  /** In a game of seed 240 the hold slot is empty and the next piece, a J, does not fit. */
  lemma FailsWithEmptySlot()
    ensures var s := Run(NewGame(SEED), SLOT_EMPTY);
      && Reachable(s) && HoldFails(s) && s.hold.None?
      && (var t := Apply(s, Hold).0; t.flags.gameOver && t.active == s.active && t.hold == Some(s.active.value.kind))
  {
    hide Inv, Runs, Tower, Fits, Step, Fixed, Front, Advanced, Settles, Run, NewGame, Apply;
    var drop := Act(HardDrop);
    FirstSeven(1);
    FirstSeven(2);
    FirstSeven(3);
    Opened();
    var s := Step(NewGame(SEED), Begin);
    SettlesLow(s.board, HEIGHT, 0, Spawned(O), 0, 1, 0, 2, J);
    Lays(s, HEIGHT, 0, O, 0, 1, 0, 2);
    var a := Step(s, drop);
    SettlesLow(a.board, 18, 4, Spawned(J), 0, 1, 0, 2, S);
    Lays(a, 18, 4, J, 0, 1, 0, 2);
    var b := Step(a, drop);
    SettlesLow(b.board, 16, 3, Spawned(S), 0, 1, 0, 2, L);
    Lays(b, 16, 3, S, 0, 1, 0, 2);
    FourSteps(NewGame(SEED), Begin, drop, drop, drop);
    Finishes(Step(b, drop));
    RunAppend(NewGame(SEED), [Begin, drop, drop, drop], TURNED);
    FailedHold(SLOT_EMPTY);
  }

  /** In another the slot holds an O, which does not fit. */
  lemma FailsWithFilledSlot()
    ensures var s := Run(NewGame(SEED), SLOT_FILLED);
      && Reachable(s) && HoldFails(s) && s.hold == Some(O)
      && (var t := Apply(s, Hold).0; t.flags.gameOver && t.active.None? && t.hold == Some(s.active.value.kind))
  {
    hide Inv, Runs, Tower, Fits, Step, Fixed, Front, Advanced, Settles, Run, NewGame, Apply;
    FirstSeven(2);
    FirstSeven(3);
    Opened();
    var s := Step(NewGame(SEED), Begin);
    PutAway(s);
    var a := Step(s, Act(Hold));
    SettlesLow(a.board, HEIGHT, 0, Spawned(J).(rotation := East), 0, 2, 1, 3, S);
    LaysTurned(a, HEIGHT, 0, J, 0, 2, 1, 3);
    PairRuns(a);
    var b := Run(a, PAIR);
    SettlesLow(b.board, 17, 5, Spawned(S).(rotation := East), 0, 2, 0, 3, L);
    LaysTurned(b, 17, 5, S, 0, 2, 0, 3);
    PairRuns(b);
    Finishes(Run(b, PAIR));
    FourSteps(NewGame(SEED), Begin, Act(Hold), Begin, Begin);
    RunAppend(NewGame(SEED), [Begin, Act(Hold)], PAIR);
    RunAppend(NewGame(SEED), [Begin, Act(Hold)] + PAIR, PAIR);
    RunAppend(NewGame(SEED), [Begin, Act(Hold)] + PAIR + PAIR, TURNED);
    FailedHold(SLOT_FILLED);
  }

  lemma FailedHold(ops: seq<Op>)
    requires HoldFails(Run(NewGame(SEED), ops))
    ensures var s := Run(NewGame(SEED), ops);
      var t := Apply(s, Hold).0;
      && Reachable(s) && t.flags.gameOver && t.hold == Some(s.active.value.kind)
      && t.active == if s.hold.None? then s.active else None
  {
    hide Run, NewGame, Fits, Apply;
    HoldKeepsPiecesExactly(Run(NewGame(SEED), ops));
  }
}
