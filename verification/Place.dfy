/** Transactional placement (crates/tetris-session/src/engine/place.rs). */
module Placing {
  import opened Types
  import opened Grids
  import opened Pieces
  import opened QueueModule
  import opened GameModel
  import opened GameInvariant
  import opened GameStateModule

  datatype PlaceError = HoldUnavailable | RotationBlocked | XOutOfBounds | XBlocked | NotPlayable | NoActive

  datatype Outcome = Accepted | Rejected(error: PlaceError)

  // ---- specification ---------------------------------------------------

  function RotationIndex(r: Rotation): int {
    match r
    case North => 0
    case East => 1
    case South => 2
    case West => 3
  }

  /** n times the same action, each of which must report success. */
  function Repeat(s: Game, action: GameAction, n: nat): Option<Game>
    decreases n
  {
    if n == 0 then Some(s)
    else if !Apply(s, action).1 then None
    else Repeat(Apply(s, action).0, action, n - 1)
  }

  function TurnAction(clockwise: bool): GameAction {
    if clockwise then RotateCw else RotateCcw
  }

  /** Quarter turns from one orientation to another in the given direction. */
  function TurnsNeeded(from: Rotation, to: Rotation, clockwise: bool): (n: nat)
    ensures n <= 3
  {
    (if clockwise then RotationIndex(to) - RotationIndex(from) else RotationIndex(from) - RotationIndex(to)) % 4
  }

  /** The direction tried first: the shorter one, clockwise on a tie. */
  function FirstDirection(from: Rotation, to: Rotation): bool {
    TurnsNeeded(from, to, true) <= TurnsNeeded(from, to, false)
  }

  /** The two rotation plans in order. */
  function Rotated(s: Game, target: Rotation): Option<Game>
    requires s.active.Some?
  {
    var from := s.active.value.rotation;
    var first := FirstDirection(from, target);
    var a := Repeat(s, TurnAction(first), TurnsNeeded(from, target, first));
    if a.Some? then a else Repeat(s, TurnAction(!first), TurnsNeeded(from, target, !first))
  }

  /** Smallest of 127 and the mino columns of a shape. */
  function MinDx(shape: seq<(int, int)>): int {
    if shape == [] then 127
    else
      var m, d := MinDx(shape[..|shape| - 1]), shape[|shape| - 1].0;
      if d < m then d else m
  }

  /** Largest of -128 and the mino columns of a shape. */
  function MaxDx(shape: seq<(int, int)>): int {
    if shape == [] then -128
    else
      var m, d := MaxDx(shape[..|shape| - 1]), shape[|shape| - 1].0;
      if d > m then d else m
  }

  /** The bound test as computed: both sums are signed-byte sums and may wrap. */
  predicate OutOfBounds(p: Tetromino, targetX: int) {
    var shape := Shape(p.kind, p.rotation);
    WrapI8(targetX + MinDx(shape)) < 0 || WrapI8(targetX + MaxDx(shape)) >= WIDTH
  }

  /** Sideways steps by a signed-byte distance; negating the least value leaves it negative. */
  function Slid(s: Game, dx: int): Option<Game> {
    if dx > 0 then Repeat(s, MoveRight, dx)
    else if dx < 0 then Repeat(s, MoveLeft, if WrapI8(-dx) < 0 then 0 else WrapI8(-dx))
    else Some(s)
  }

  /** The last leg: bounds, sideways moves, hard drop. */
  function SlideAndDrop(b: Game, targetX: int): Result<Game, PlaceError>
    requires b.active.Some?
  {
    if OutOfBounds(b.active.value, targetX) then Err(XOutOfBounds)
    else
      match Slid(b, WrapI8(targetX - b.active.value.x))
      case None => Err(XBlocked)
      case Some(c) =>
        var (d, ok) := Apply(c, HardDrop);
        if ok then Ok(d) else Err(if d.active.None? then NoActive else NotPlayable)
  }

  /** `apply_place`: the new game, or the error, in which case the game is left as it was. */
  function Place(s: Game, targetX: int, target: Rotation, useHold: bool): Result<Game, PlaceError> {
    if s.flags.paused || s.flags.gameOver then Err(NotPlayable)
    else
      var (a, held) := if useHold then Apply(s, Hold) else (s, true);
      if !held then Err(HoldUnavailable)
      else if a.active.None? then Err(NoActive)
      else
        match Rotated(a, target)
        case None => Err(RotationBlocked)
        case Some(b) =>
          if b.active.None? then Err(NoActive)
          else if b.active.value.rotation != target then Err(RotationBlocked)
          else SlideAndDrop(b, targetX)
  }

  // ---- ordinary actions ------------------------------------------------

  /** Actions applied one after another. */
  function RunActions(s: Game, actions: seq<GameAction>): Game
    decreases |actions|
  {
    if actions == [] then s else RunActions(Apply(s, actions[0]).0, actions[1..])
  }

  function Copies(action: GameAction, n: nat): seq<GameAction> {
    seq(n, _ => action)
  }

  lemma {:induction false} RunActionsAppend(s: Game, a: seq<GameAction>, b: seq<GameAction>)
    ensures RunActions(s, a + b) == RunActions(RunActions(s, a), b)
    decreases |a|
  {
    hide Apply;
    if a == [] {
      assert a + b == b;
    } else {
      RunActionsAppend(Apply(s, a[0]).0, a[1..], b);
      assert (a + b)[1..] == a[1..] + b;
    }
  }

  lemma {:induction false} RepeatRuns(s: Game, action: GameAction, n: nat)
    requires Repeat(s, action, n).Some?
    ensures Repeat(s, action, n).value == RunActions(s, Copies(action, n))
    decreases n
  {
    hide Apply;
    if n > 0 {
      RepeatRuns(Apply(s, action).0, action, n - 1);
      assert Copies(action, n)[1..] == Copies(action, n - 1);
    }
  }

  /** A turn that succeeds changes orientation and place only; which kick it used does not matter. */
  lemma TurnOnce(s: Game, clockwise: bool)
    requires Inv(s) && s.active.Some? && Apply(s, TurnAction(clockwise)).1
    ensures var t := Apply(s, TurnAction(clockwise)).0;
      && Inv(t) && t.board == s.board && t.active.Some? && Runs(s) == Runs(t)
      && t.active.value.kind == s.active.value.kind
      && t.active.value.rotation == s.active.value.rotation.Turn(clockwise)
      && t.hold == s.hold
  {
    hide Fits, Grounded, Preview, NoFullRow, QueueOk, Paid, FirstKick, Kicks;
    ApplyInv(s, TurnAction(clockwise));
  }

  lemma {:induction false} TurnsArrive(s: Game, clockwise: bool, n: nat, target: Rotation)
    requires Inv(s) && s.active.Some? && Repeat(s, TurnAction(clockwise), n).Some?
    requires n == TurnsNeeded(s.active.value.rotation, target, clockwise)
    ensures var t := Repeat(s, TurnAction(clockwise), n).value;
      && Inv(t) && t.board == s.board && t.active.Some? && t.active.value.rotation == target
      && t.active.value.kind == s.active.value.kind && t.hold == s.hold && Runs(t) == Runs(s)
    decreases n
  {
    hide Inv, Apply;
    if n > 0 {
      TurnOnce(s, clockwise);
      TurnsArrive(Apply(s, TurnAction(clockwise)).0, clockwise, n - 1, target);
    }
  }

  function Signed(right: bool, n: int): int {
    if right then n else -n
  }

  /** t is s with its piece dx columns to the right. */
  ghost predicate Shifted(s: Game, t: Game, dx: int) {
    && Inv(t) && t.board == s.board && t.hold == s.hold
    && s.active.Some? && t.active == Some(s.active.value.Moved(dx, 0))
    && Runs(t) == Runs(s)
  }

  lemma MoveOnce(s: Game, right: bool)
    requires Inv(s) && s.active.Some? && Apply(s, MoveAction(right)).1
    ensures Shifted(s, Apply(s, MoveAction(right)).0, Signed(right, 1))
  {
    hide Fits, Grounded, Preview, NoFullRow, QueueOk, Paid;
    ApplyInv(s, MoveAction(right));
  }

  function MoveAction(right: bool): GameAction {
    if right then MoveRight else MoveLeft
  }

  lemma {:induction false} MovesArrive(s: Game, right: bool, n: nat)
    requires Inv(s) && s.active.Some? && Repeat(s, MoveAction(right), n).Some?
    ensures Shifted(s, Repeat(s, MoveAction(right), n).value, Signed(right, n))
    decreases n
  {
    hide Inv, Apply;
    if n > 0 {
      MoveOnce(s, right);
      MovesArrive(Apply(s, MoveAction(right)).0, right, n - 1);
    }
  }

  lemma InvFits(s: Game)
    requires Inv(s) && s.active.Some?
    ensures Fits(s.board, s.active.value) && -3 <= s.active.value.x <= 9 && -3 <= s.active.value.y <= 19
  {
    hide Fits, Preview, NoFullRow, QueueOk, Paid, Counters;
    FitsBox(s.board, s.active.value);
  }

  /** A slide that succeeds moved by the true distance to the target: the byte never wrapped. */
  lemma SlideArrives(s: Game, targetX: int) returns (right: bool, n: nat)
    requires Inv(s) && s.active.Some? && -128 <= targetX < 128
    requires Slid(s, WrapI8(targetX - s.active.value.x)).Some?
    requires !OutOfBounds(s.active.value, targetX)
    ensures n <= 12 && Repeat(s, MoveAction(right), n).Some?
    ensures var t := Slid(s, WrapI8(targetX - s.active.value.x)).value;
      && t == Repeat(s, MoveAction(right), n).value
      && Inv(t) && t.board == s.board && t.hold == s.hold
      && t.active == Some(s.active.value.(x := targetX)) && Runs(t) == Runs(s)
      && targetX == s.active.value.x + Signed(right, n)
  {
    hide Inv, Apply, Repeat;
    var dx := WrapI8(targetX - s.active.value.x);
    InvFits(s);
    right := dx > 0;
    n := if dx >= 0 then dx else if WrapI8(-dx) < 0 then 0 else WrapI8(-dx);
    assert dx == 0 ==> Repeat(s, MoveAction(right), n) == Some(s) by { RepeatZero(s, MoveAction(right)); }
    assert dx == -128 ==> Repeat(s, MoveAction(right), n) == Some(s) by { RepeatZero(s, MoveAction(right)); }
    MovesArrive(s, right, n);
    InvFits(Repeat(s, MoveAction(right), n).value);
    if dx == -128 { LeastDistance(s, targetX); }
  }

  lemma RepeatZero(s: Game, action: GameAction)
    ensures Repeat(s, action, 0) == Some(s)
  {
  }

  /** The bound test rules out a distance of -128, whose negation would overflow. */
  lemma LeastDistance(s: Game, targetX: int)
    requires Inv(s) && s.active.Some? && -128 <= targetX < 128
    requires !OutOfBounds(s.active.value, targetX)
    ensures WrapI8(targetX - s.active.value.x) != -128
  {
    hide Inv, MinDx;
    InvFits(s);
    var p := s.active.value;
    MinDxMeaning(Shape(p.kind, p.rotation));
    ShapeBox(p.kind, p.rotation);
    var m := MinDx(Shape(p.kind, p.rotation));
    var i :| 0 <= i < 4 && Shape(p.kind, p.rotation)[i].0 == m;
    assert Free(s.board, p.Cells()[i].0, p.Cells()[i].1);
    assert p.x + m >= 0 && 0 <= m <= 3;
  }

  lemma {:induction false} MinDxMeaning(shape: seq<(int, int)>)
    requires shape != [] && forall i :: 0 <= i < |shape| ==> 0 <= shape[i].0 <= 3
    ensures exists i :: 0 <= i < |shape| && shape[i].0 == MinDx(shape)
    ensures forall i :: 0 <= i < |shape| ==> MinDx(shape) <= shape[i].0
  {
    var n := |shape| - 1;
    if n == 0 {
      assert MinDx(shape[..0]) == 127;
      assert shape[0].0 == MinDx(shape);
    } else {
      MinDxMeaning(shape[..n]);
      var j :| 0 <= j < n && shape[..n][j].0 == MinDx(shape[..n]);
      assert shape[if shape[n].0 < MinDx(shape[..n]) then n else j].0 == MinDx(shape);
    }
  }

  lemma {:induction false} MaxDxMeaning(shape: seq<(int, int)>)
    requires shape != [] && forall i :: 0 <= i < |shape| ==> 0 <= shape[i].0 <= 3
    ensures exists i :: 0 <= i < |shape| && shape[i].0 == MaxDx(shape)
  {
    var n := |shape| - 1;
    if n == 0 {
      assert MaxDx(shape[..0]) == -128;
      assert shape[0].0 == MaxDx(shape);
    } else {
      MaxDxMeaning(shape[..n]);
      var j :| 0 <= j < n && shape[..n][j].0 == MaxDx(shape[..n]);
      assert shape[if shape[n].0 > MaxDx(shape[..n]) then n else j].0 == MaxDx(shape);
    }
  }

  lemma HoldKeepsBoard(s: Game)
    requires Inv(s)
    ensures Inv(Apply(s, Hold).0) && Apply(s, Hold).0.board == s.board
  {
    hide Inv, Fits, Front, Preview, Drawn;
    ApplyInv(s, Hold);
    SpawnKeeps(s.(hold := if s.active.Some? then Some(s.active.value.kind) else s.hold));
  }

  /** What a hard drop that reports success did: the piece is fixed on its ghost row. */
  lemma HardDropFixes(c: Game)
    requires Inv(c) && c.active.Some? && Apply(c, HardDrop).1
    ensures var landed := Landed(c.board, c.active.value);
      && Fits(c.board, landed)
      && GhostY(c) == Some(landed.y)
      && Apply(c, HardDrop).0.board == Compact(Fixed(c.board, landed))
  {
    hide Inv, Fits, Front, Preview, Drawn, FullRows, Scored, Fixed, Compact, LockSpin, DropDistance, Spawn;
    InvFits(c);
    LandedFits(c.board, c.active.value);
    var u := Grounding(c.(flags := c.flags.(rotatedLast := false)));
    SpawnKeeps(Settled(u));
    CompactGrid(FixedBoard(u));
  }

  /** The actions a successful placement amounts to. */
  function Plan(useHold: bool, clockwise: bool, turns: nat, right: bool, shifts: nat): seq<GameAction> {
    (if useHold then [Hold] else []) + Copies(TurnAction(clockwise), turns) + Copies(MoveAction(right), shifts)
  }

  lemma RotatedArrives(a: Game, target: Rotation) returns (clockwise: bool, turns: nat)
    requires Inv(a) && a.active.Some? && Rotated(a, target).Some?
    ensures turns <= 3 && Repeat(a, TurnAction(clockwise), turns) == Rotated(a, target)
    ensures var b := Rotated(a, target).value;
      Inv(b) && b.board == a.board && b.active.Some? && b.active.value.rotation == target
      && b.active.value.kind == a.active.value.kind && b.hold == a.hold && Runs(b) == Runs(a)
  {
    hide Inv, Apply, Repeat;
    var from := a.active.value.rotation;
    var first := FirstDirection(from, target);
    clockwise := if Repeat(a, TurnAction(first), TurnsNeeded(from, target, first)).Some? then first else !first;
    turns := TurnsNeeded(from, target, clockwise);
    TurnsArrive(a, clockwise, turns, target);
  }

  /**
    A successful placement is a run of ordinary actions: a hold if asked, at most three turns one
    way, at most twelve steps sideways, a hard drop. Before the drop the piece has the requested
    orientation and column on the unchanged field, and it is fixed on its ghost row there, for
    every signed-byte target.
  */
  lemma PlaceRefinesActions(s: Game, targetX: int, target: Rotation, useHold: bool)
    returns (clockwise: bool, turns: nat, right: bool, shifts: nat)
    requires Inv(s) && -128 <= targetX < 128 && Place(s, targetX, target, useHold).Ok?
    ensures turns <= 3 && shifts <= 12
    ensures var t := Place(s, targetX, target, useHold).value;
      var c := RunActions(s, Plan(useHold, clockwise, turns, right, shifts));
      && t == RunActions(s, Plan(useHold, clockwise, turns, right, shifts) + [HardDrop])
      && c.board == s.board
      && c.active.Some? && c.active.value.rotation == target && c.active.value.x == targetX
      && Fits(s.board, Landed(s.board, c.active.value))
      && GhostY(c) == Some(Landed(s.board, c.active.value).y)
      && t.board == Compact(Fixed(s.board, Landed(s.board, c.active.value)))
      && c.active.value.kind ==
           (if !useHold then s.active.value.kind else RunActions(s, [Hold]).active.value.kind)
  {
    hide Inv, Fits, Apply, Repeat, Slid, Rotated, OutOfBounds, Landed, Fixed, Compact, GhostY;
    var a := if useHold then Apply(s, Hold).0 else s;
    if useHold { HoldKeepsBoard(s); }
    clockwise, turns := RotatedArrives(a, target);
    var b := Rotated(a, target).value;
    right, shifts := SlideArrives(b, targetX);
    var c := Slid(b, WrapI8(targetX - b.active.value.x)).value;
    RepeatRuns(a, TurnAction(clockwise), turns);
    RepeatRuns(b, MoveAction(right), shifts);
    var first := if useHold then [Hold] else [];
    var second, third := Copies(TurnAction(clockwise), turns), Copies(MoveAction(right), shifts);
    OneAction(s, Hold);
    OneAction(c, HardDrop);
    RunActionsAppend(s, first, second);
    RunActionsAppend(s, first + second, third);
    RunActionsAppend(s, first + second + third, [HardDrop]);
    HardDropFixes(c);
  }

  /** Every column between the piece and the target lets the piece through. */
  ghost predicate PathClear(g: Grid, p: Tetromino, targetX: int) {
    forall c :: (p.x <= c <= targetX || targetX <= c <= p.x) ==> Fits(g, p.(x := c))
  }

  /** n sideways actions all succeed exactly when the n positions passed are free. */
  lemma {:induction false} MovesIff(s: Game, right: bool, n: nat)
    requires Inv(s) && Runs(s) && s.active.Some?
    ensures Repeat(s, MoveAction(right), n).Some? <==>
      forall k :: 1 <= k <= n ==> Fits(s.board, s.active.value.Moved(Signed(right, k), 0))
    decreases n
  {
    hide Inv, Fits, Apply;
    if n > 0 {
      MoveRefused(s, right);
      var p := s.active.value;
      if Apply(s, MoveAction(right)).1 {
        MoveOnce(s, right);
        var t := Apply(s, MoveAction(right)).0;
        MovesIff(t, right, n - 1);
        forall k | 1 <= k <= n - 1
          ensures p.Moved(Signed(right, k + 1), 0) == t.active.value.Moved(Signed(right, k), 0)
        {
        }
        if Repeat(t, MoveAction(right), n - 1).Some? {
          forall k | 1 <= k <= n ensures Fits(s.board, p.Moved(Signed(right, k), 0)) {
            assert k > 1 ==> Fits(t.board, t.active.value.Moved(Signed(right, k - 1), 0));
          }
        } else {
          var k :| 1 <= k <= n - 1 && !Fits(t.board, t.active.value.Moved(Signed(right, k), 0));
          assert !Fits(s.board, p.Moved(Signed(right, k + 1), 0));
        }
      } else {
        assert !Fits(s.board, p.Moved(Signed(right, 1), 0));
      }
    }
  }

  lemma MoveRefused(s: Game, right: bool)
    requires Inv(s) && Runs(s) && s.active.Some?
    ensures Apply(s, MoveAction(right)).1 <==> Fits(s.board, s.active.value.Moved(Signed(right, 1), 0))
  {
    hide Inv, Fits, Grounded;
  }

  /** A reachable target column passes the bound test, whose byte sums do not wrap for it. */
  lemma InsideTarget(g: Grid, p: Tetromino, targetX: int)
    requires Fits(g, p.(x := targetX))
    ensures !OutOfBounds(p, targetX)
  {
    hide MinDx, MaxDx, Shape;
    var q, shape := p.(x := targetX), Shape(p.kind, p.rotation);
    ShapeBox(p.kind, p.rotation);
    MinDxMeaning(shape);
    MaxDxMeaning(shape);
    var i :| 0 <= i < 4 && shape[i].0 == MinDx(shape);
    var j :| 0 <= j < 4 && shape[j].0 == MaxDx(shape);
    assert Free(g, q.Cells()[i].0, q.Cells()[i].1) && Free(g, q.Cells()[j].0, q.Cells()[j].1);
    FitsBox(g, q);
  }

  /**
    The bound test rejects exactly the columns at which some mino would leave the field, except those
    near 127 at which the greater of its two byte sums wraps.
  */
  lemma OutOfBoundsExactly(p: Tetromino, targetX: int)
    requires -128 <= targetX < 128
    ensures var lo, hi := MinDx(Shape(p.kind, p.rotation)), MaxDx(Shape(p.kind, p.rotation));
      && 0 <= lo <= hi <= 3
      && (OutOfBounds(p, targetX) <==>
            !(-lo <= targetX <= WIDTH - 1 - hi) && !(128 - hi <= targetX <= 127 - lo))
  {
    hide MinDx, MaxDx, Shape;
    ShapeBox(p.kind, p.rotation);
    MinDxMeaning(Shape(p.kind, p.rotation));
    MaxDxMeaning(Shape(p.kind, p.rotation));
  }

  /**
    Which error a target column outside the field gets: XOutOfBounds, or XBlocked where the bound
    test's sum wraps.
  */
  lemma TargetErrorExactly(b: Game, targetX: int)
    requires Inv(b) && b.active.Some? && -128 <= targetX < 128
    ensures var p := b.active.value;
      var lo, hi := MinDx(Shape(p.kind, p.rotation)), MaxDx(Shape(p.kind, p.rotation));
      var wraps := 128 - hi <= targetX <= 127 - lo;
      && (SlideAndDrop(b, targetX) == Err(XOutOfBounds) <==> !(-lo <= targetX <= WIDTH - 1 - hi) && !wraps)
      && (wraps ==> SlideAndDrop(b, targetX) == Err(XBlocked))
  {
    hide Inv, Fits, Apply, Repeat, OutOfBounds, WrapI8, MinDx, MaxDx, Shape, Slid;
    var p := b.active.value;
    OutOfBoundsExactly(p, targetX);
    if !OutOfBounds(p, targetX) && targetX >= 100 && Slid(b, WrapI8(targetX - p.x)).Some? {
      var right, n := SlideArrives(b, targetX);
      InvFits(Slid(b, WrapI8(targetX - p.x)).value);
      assert false;
    }
  }

  /** The last leg succeeds exactly when play goes on and the way to the target is clear. */
  lemma SlideIff(b: Game, targetX: int)
    requires Inv(b) && b.active.Some? && -128 <= targetX < 128
    ensures SlideAndDrop(b, targetX).Ok? <==> Runs(b) && PathClear(b.board, b.active.value, targetX)
  {
    hide Inv, Fits, Apply, Repeat, OutOfBounds, WrapI8, Runs;
    var p := b.active.value;
    if SlideAndDrop(b, targetX).Ok? {
      var right, n := SlideArrives(b, targetX);
      DropNeedsPlay(Slid(b, WrapI8(targetX - p.x)).value);
      MovesIff(b, right, n);
      InvFits(b);
      forall c | p.x <= c <= targetX || targetX <= c <= p.x ensures Fits(b.board, p.(x := c)) {
        var k := if right then c - p.x else p.x - c;
        assert p.(x := c) == p.Moved(Signed(right, k), 0);
        assert p.(x := p.x) == p;
      }
    } else if Runs(b) && PathClear(b.board, p, targetX) {
      assert Fits(b.board, p.(x := targetX));
      InsideTarget(b.board, p, targetX);
      InvFits(b);
      FitsBox(b.board, p.(x := targetX));
      SlideSucceeds(b, targetX);
    }
  }

  lemma SlideSucceeds(b: Game, targetX: int)
    requires Inv(b) && Runs(b) && b.active.Some? && -12 <= targetX - b.active.value.x <= 12
    requires PathClear(b.board, b.active.value, targetX) && !OutOfBounds(b.active.value, targetX)
    ensures SlideAndDrop(b, targetX).Ok?
  {
    hide Inv, Fits, Apply, Repeat, OutOfBounds, Runs;
    var p := b.active.value;
    var right := targetX > p.x;
    var n: nat := if right then targetX - p.x else p.x - targetX;
    forall k | 1 <= k <= n ensures Fits(b.board, p.Moved(Signed(right, k), 0)) {
      assert p.Moved(Signed(right, k), 0) == p.(x := p.x + Signed(right, k));
    }
    MovesIff(b, right, n);
    MovesArrive(b, right, n);
    RepeatZero(b, MoveAction(right));
    var c := Repeat(b, MoveAction(right), n).value;
    assert Slid(b, WrapI8(targetX - p.x)) == Some(c);
    DropNeedsPlay(c);
  }

  lemma DropNeedsPlay(c: Game)
    requires Inv(c) && c.active.Some?
    ensures Apply(c, HardDrop).1 <==> Runs(c)
  {
    hide HardDropped, Fits, Preview, QueueOk, NoFullRow;
  }

  /**
    Exactly when a placement succeeds: play is on, a requested hold works and does not end the
    game, one of the two rotation plans works, and every column on the way to the target is free.
  */
  lemma PlaceSucceedsExactly(s: Game, targetX: int, target: Rotation, useHold: bool)
    requires Inv(s) && -128 <= targetX < 128
    ensures Place(s, targetX, target, useHold).Ok? <==>
      && Runs(s) && (useHold ==> Apply(s, Hold).1)
      && (var a := if useHold then Apply(s, Hold).0 else s;
          && Runs(a) && a.active.Some? && Rotated(a, target).Some?
          && Rotated(a, target).value.active.Some?
          && PathClear(s.board, Rotated(a, target).value.active.value, targetX))
  {
    hide Inv, Fits, Apply, Rotated, SlideAndDrop, PathClear;
    var a := if useHold then Apply(s, Hold).0 else s;
    if useHold { HoldKeepsBoard(s); }
    StartedIfPiece(s);
    StartedIfPiece(a);
    HoldNeedsPiece(s);
    if a.active.Some? && Rotated(a, target).Some? {
      var clockwise, turns := RotatedArrives(a, target);
      SlideIff(Rotated(a, target).value, targetX);
    }
  }

  lemma StartedIfPiece(s: Game)
    requires Inv(s)
    ensures s.active.Some? ==> s.flags.started
  {
    hide NoFullRow, PreviewOk, Paid, Fits;
  }

  lemma HoldNeedsPiece(s: Game)
    requires Inv(s)
    ensures Apply(s, Hold).1 ==> Runs(s)
  {
    hide NoFullRow, PreviewOk, Paid, Fits, Spawn;
  }

  lemma OneAction(s: Game, action: GameAction)
    ensures RunActions(s, [action]) == Apply(s, action).0
  {
  }

  lemma SoftDropOnce(s: Game)
    requires Inv(s) && Runs(s) && s.active.Some?
    ensures var (t, moved) := Apply(s, SoftDrop);
      && Inv(t) && Runs(t) && t.board == s.board
      && moved == (DropDistance(s.board, s.active.value) > 0)
      && (moved ==> t.active == Some(s.active.value.Moved(0, 1)))
      && (moved ==> DropDistance(s.board, t.active.value) == DropDistance(s.board, s.active.value) - 1)
  {
    hide Fits, Grounded, Preview, NoFullRow, QueueOk, Paid;
    ApplyInv(s, SoftDrop);
    MoveKeeps(s, 0, 1);
  }

  /**
    The ghost row is the deepest row that repeated soft drops reach: each of the first k drops
    moves one row through free cells, and after the last the next one is refused.
  */
  lemma {:induction false} SoftDropsReachGhost(s: Game, k: nat)
    requires Inv(s) && Runs(s) && s.active.Some? && k == DropDistance(s.board, s.active.value)
    ensures Repeat(s, SoftDrop, k).Some?
    ensures var t := Repeat(s, SoftDrop, k).value;
      && t.active == Some(Landed(s.board, s.active.value))
      && GhostY(s) == Some(t.active.value.y)
      && !Apply(t, SoftDrop).1
    decreases k
  {
    hide Inv, Apply;
    SoftDropOnce(s);
    if k > 0 {
      SoftDropsReachGhost(Apply(s, SoftDrop).0, k - 1);
    }
  }

  // ---- implementation --------------------------------------------------

  /** n times the same action, stopping at the first refusal. */
  method RepeatAction(state: GameState, action: GameAction, n: nat) returns (ok: bool)
    requires state.Valid()
    modifies state.Footprint()
    ensures state.Valid()
    ensures ok == Repeat(old(state.Abs()), action, n).Some?
    ensures ok ==> state.Abs() == Repeat(old(state.Abs()), action, n).value
  {
    hide GameState.Abs, GameState.Sound, Inv, Apply;
    var i := 0;
    while i < n
      invariant 0 <= i <= n && state.Valid()
      invariant Repeat(old(state.Abs()), action, n) == Repeat(state.Abs(), action, n - i)
    {
      var done := state.ApplyAction(action);
      if !done { return false; }
      i := i + 1;
    }
    ok := true;
  }

  /** Least and greatest mino column. */
  method Extent(shape: seq<(int, int)>) returns (minDx: int, maxDx: int)
    ensures minDx == MinDx(shape) && maxDx == MaxDx(shape)
  {
    minDx, maxDx := 127, -128;
    var i := 0;
    while i < |shape|
      invariant 0 <= i <= |shape|
      invariant minDx == MinDx(shape[..i]) && maxDx == MaxDx(shape[..i])
    {
      assert shape[..i + 1][..i] == shape[..i];
      var dx := shape[i].0;
      minDx := if dx < minDx then dx else minDx;
      maxDx := if dx > maxDx then dx else maxDx;
      i := i + 1;
    }
    assert shape[..i] == shape;
  }

  /** Both rotation plans in turn, each from a copy of the same state. */
  method RotateToTarget(state: GameState, target: Rotation) returns (rotated: bool)
    requires state.Valid() && state.active.Some?
    modifies state.Footprint()
    ensures state.Valid()
    ensures rotated == Rotated(old(state.Abs()), target).Some?
    ensures rotated ==> state.Abs() == Rotated(old(state.Abs()), target).value
  {
    hide GameState.Abs, GameState.Sound, Inv, Repeat;
    var from := state.active.value.rotation;
    assert from == state.Abs().active.value.rotation by { ActiveIs(state); }
    var first := FirstDirection(from, target);
    var snapshot := state.Clone();
    var attempt := 0;
    rotated := false;
    while attempt < 2 && !rotated
      invariant 0 <= attempt <= 2
      invariant state.Valid() && snapshot.Valid() && fresh(snapshot.Footprint())
      invariant snapshot.Abs() == old(state.Abs())
      invariant !rotated && attempt >= 1 ==>
        Repeat(old(state.Abs()), TurnAction(first), TurnsNeeded(from, target, first)).None?
      invariant !rotated && attempt == 2 ==>
        Repeat(old(state.Abs()), TurnAction(!first), TurnsNeeded(from, target, !first)).None?
      invariant rotated ==> Rotated(old(state.Abs()), target) == Some(state.Abs())
      decreases 2 - attempt
    {
      var clockwise := if attempt == 0 then first else !first;
      state.AssignFrom(snapshot);
      rotated := RepeatAction(state, TurnAction(clockwise), TurnsNeeded(from, target, clockwise));
      attempt := attempt + 1;
    }
  }

  lemma ActiveIs(state: GameState)
    requires state.Sound()
    ensures state.Abs().active == state.active
    ensures state.Abs().flags == state.flags
  {
  }

  method SlideThenDrop(state: GameState, targetX: int) returns (r: Outcome)
    requires state.Valid() && state.active.Some? && -128 <= targetX < 128
    requires state.Abs().active.Some?
    modifies state.Footprint()
    ensures state.Valid()
    ensures var spec := SlideAndDrop(old(state.Abs()), targetX);
      if r.Accepted? then spec == Ok(state.Abs()) else spec == Err(r.error)
  {
    hide GameState.Abs, GameState.Sound, Inv, Apply, Repeat, Shape;
    ActiveIs(state);
    var active := state.active.value;
    var minDx, maxDx := Extent(Shape(active.kind, active.rotation));
    if WrapI8(targetX + minDx) < 0 || WrapI8(targetX + maxDx) >= WIDTH { return Rejected(XOutOfBounds); }
    var dx := WrapI8(targetX - active.x);
    if dx > 0 {
      var moved := RepeatAction(state, MoveRight, dx);
      if !moved { return Rejected(XBlocked); }
    } else if dx < 0 {
      var moved := RepeatAction(state, MoveLeft, if WrapI8(-dx) < 0 then 0 else WrapI8(-dx));
      if !moved { return Rejected(XBlocked); }
    }
    var dropped := state.ApplyAction(HardDrop);
    if !dropped {
      ActiveIs(state);
      return Rejected(if state.active.None? then NoActive else NotPlayable);
    }
    r := Accepted;
  }

  method ApplyPlaceInPlace(state: GameState, targetX: int, target: Rotation, useHold: bool) returns (r: Outcome)
    requires state.Valid() && -128 <= targetX < 128
    modifies state.Footprint()
    ensures state.Valid()
    ensures var spec := Place(old(state.Abs()), targetX, target, useHold);
      if r.Accepted? then spec == Ok(state.Abs()) else spec == Err(r.error)
  {
    hide GameState.Abs, GameState.Sound, Inv, Apply, Repeat, Rotated, SlideAndDrop;
    ActiveIs(state);
    if state.flags.paused || state.flags.gameOver { return Rejected(NotPlayable); }
    if useHold {
      var held := state.ApplyAction(Hold);
      if !held { return Rejected(HoldUnavailable); }
    }
    ActiveIs(state);
    if state.active.None? { return Rejected(NoActive); }
    var rotated := RotateToTarget(state, target);
    if !rotated { return Rejected(RotationBlocked); }
    ActiveIs(state);
    if state.active.None? { return Rejected(NoActive); }
    var active := state.active.value;
    if active.rotation != target { return Rejected(RotationBlocked); }
    r := SlideThenDrop(state, targetX);
  }

  /** Works on a copy and commits it only on success: an error leaves the game untouched. */
  method ApplyPlace(state: GameState, targetX: int, target: Rotation, useHold: bool) returns (r: Outcome)
    requires state.Valid() && -128 <= targetX < 128
    modifies state.Footprint()
    ensures state.Valid()
    ensures var spec := Place(old(state.Abs()), targetX, target, useHold);
      match r
      case Accepted => spec == Ok(state.Abs())
      case Rejected(e) => spec == Err(e) && state.Abs() == old(state.Abs())
  {
    hide GameState.Abs, GameState.Sound, Inv, Place;
    var candidate := state.Clone();
    r := ApplyPlaceInPlace(candidate, targetX, target, useHold);
    if r.Accepted? { state.AssignFrom(candidate); }
  }
}
