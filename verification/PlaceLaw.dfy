/**
  Which answer a placement gets, and which way it turns the piece
  (crates/tetris-session/src/engine/place.rs:50-157).
*/
module PlaceLaws {
  import opened Types
  import opened Grids
  import opened Pieces
  import opened QueueModule
  import opened GameModel
  import opened GameInvariant
  import opened Placing

  // ---- the way it turns ------------------------------------------------

  /** An orientation after n quarter turns. */
  function Turned(r: Rotation, clockwise: bool, n: nat): Rotation
    decreases n
  {
    if n == 0 then r else Turned(r.Turn(clockwise), clockwise, n - 1)
  }

  /** n quarter turns lead from one orientation to the other, and no way is shorter; of two turns, clockwise ones. */
  predicate Short(from: Rotation, to: Rotation, clockwise: bool, n: nat) {
    Turned(from, clockwise, n) == to && (n <= 1 || (n == 2 && clockwise))
  }

  lemma TurnsAre(from: Rotation, to: Rotation, clockwise: bool, n: nat)
    requires n <= 3
    ensures Turned(from, clockwise, n) == to <==> TurnsNeeded(from, to, clockwise) == n
  {
    var a := from.Turn(clockwise);
    var b := a.Turn(clockwise);
    var c := b.Turn(clockwise);
    assert Turned(c, clockwise, 0) == c && Turned(b, clockwise, 0) == b && Turned(a, clockwise, 0) == a;
    assert Turned(b, clockwise, 1) == c && Turned(a, clockwise, 1) == b;
    assert Turned(a, clockwise, 2) == c;
  }

  lemma ShortFirst(from: Rotation, to: Rotation, clockwise: bool, n: nat)
    requires Short(from, to, clockwise, n)
    ensures n == TurnsNeeded(from, to, clockwise)
    ensures n > 0 ==> FirstDirection(from, to) == clockwise && TurnsNeeded(from, to, !clockwise) == 4 - n
    ensures n == 0 ==> forall c :: TurnsNeeded(from, to, c) == 0
  {
    TurnsAre(from, to, clockwise, n);
  }

  /**
    A placement turns the shorter way, clockwise when both ways take two turns, if every turn of it
    works; otherwise it tries the other way round from the start; and without turns nothing is tried.
  */
  lemma TurnsShorterWay(a: Game, target: Rotation, clockwise: bool, n: nat)
    requires a.active.Some? && Short(a.active.value.rotation, target, clockwise, n)
    ensures var there := Repeat(a, TurnAction(clockwise), n);
      Rotated(a, target) ==
        if there.Some? then there else Repeat(a, TurnAction(!clockwise), 4 - n)
    ensures n == 0 ==> Rotated(a, target) == Some(a)
  {
    hide Apply, Repeat;
    ShortFirst(a.active.value.rotation, target, clockwise, n);
    if n == 0 {
      RepeatZero(a, TurnAction(clockwise));
      RepeatZero(a, TurnAction(!clockwise));
    }
  }

  lemma ShortExists(from: Rotation, to: Rotation) returns (clockwise: bool, n: nat)
    ensures Short(from, to, clockwise, n)
  {
    clockwise := FirstDirection(from, to);
    n := TurnsNeeded(from, to, clockwise);
    TurnsAre(from, to, clockwise, n);
    if n == 3 || (n == 2 && !clockwise) { TurnsAre(from, to, !clockwise, 4 - n); }
  }

  // ---- the answer ------------------------------------------------------

  /** No piece, hold spent, or the piece in the slot does not fit. */
  predicate HoldRefused(s: Game) {
    s.active.None? || !s.flags.canHold || (s.hold.Some? && !Fits(s.board, Spawned(s.hold.value)))
  }

  lemma HoldRefusedExactly(s: Game)
    requires !s.flags.paused && !s.flags.gameOver
    ensures Apply(s, Hold).1 <==> !HoldRefused(s)
  {
    hide Fits, Spawn;
  }

  /** The target column is inside for this piece, or so near 127 that the bound test wraps. */
  predicate ColumnPasses(p: Tetromino, targetX: int) {
    var lo, hi := MinDx(Shape(p.kind, p.rotation)), MaxDx(Shape(p.kind, p.rotation));
    -lo <= targetX <= WIDTH - 1 - hi || 128 - hi <= targetX <= 127 - lo
  }

  /** The state in which a placement starts to turn. */
  function ToTurn(s: Game, useHold: bool): Game {
    if useHold then Apply(s, Hold).0 else s
  }

  /** The error of a placement that fails, the first that applies. */
  ghost function ErrorOf(s: Game, targetX: int, target: Rotation, useHold: bool): PlaceError {
    var a := ToTurn(s, useHold);
    if s.flags.paused || s.flags.gameOver then NotPlayable
    else if useHold && HoldRefused(s) then HoldUnavailable
    else if a.active.None? then NoActive
    else if Rotated(a, target).None? then RotationBlocked
    else
      var b := Rotated(a, target).value;
      if b.active.None? then NoActive
      else if !ColumnPasses(b.active.value, targetX) then XOutOfBounds
      else if a.flags.gameOver && targetX == b.active.value.x then NotPlayable
      else XBlocked
  }

  lemma SlideErrors(b: Game, targetX: int)
    requires Inv(b) && b.active.Some? && !b.flags.paused && -128 <= targetX < 128 && SlideAndDrop(b, targetX).Err?
    ensures SlideAndDrop(b, targetX) == Err(
      if !ColumnPasses(b.active.value, targetX) then XOutOfBounds
      else if b.flags.gameOver && targetX == b.active.value.x then NotPlayable
      else XBlocked)
  {
    hide Inv, Fits, Apply, Repeat, WrapI8, OutOfBounds, MinDx, MaxDx, Shape;
    var p := b.active.value;
    OutOfBoundsExactly(p, targetX);
    InvFits(b);
    StartedIfPiece(b);
    if !OutOfBounds(p, targetX) {
      var dx := WrapI8(targetX - p.x);
      ZeroDistance(targetX, p.x);
      if dx != 0 && Slid(b, dx).Some? {
        var right, n := SlideArrives(b, targetX);
        var c := Slid(b, dx).value;
        DropNeedsPlay(c);
        if b.flags.gameOver { NothingWhenOver(b, MoveAction(right), n); }
      } else if dx == 0 {
        DropNeedsPlay(b);
        DropWhenOver(b);
      }
    }
  }

  lemma ZeroDistance(targetX: int, x: int)
    requires -128 <= targetX < 128 && -3 <= x <= 9
    ensures WrapI8(targetX - x) == 0 <==> targetX == x
  {
  }

  lemma NothingWhenOver(b: Game, action: GameAction, n: nat)
    requires b.flags.gameOver && action != Restart
    ensures Repeat(b, action, n).Some? ==> n == 0
  {
  }

  lemma DropWhenOver(b: Game)
    ensures b.flags.gameOver ==> Apply(b, HardDrop) == (b, false)
  {
  }

  lemma HeldInv(s: Game, useHold: bool)
    requires Inv(s)
    ensures Inv(ToTurn(s, useHold)) && ToTurn(s, useHold).flags.paused == s.flags.paused
  {
    hide Inv, Fits, Spawn;
    ApplyInv(s, Hold);
    HoldNotPaused(s);
  }

  lemma HoldNotPaused(s: Game)
    ensures Apply(s, Hold).0.flags.paused == s.flags.paused
  {
    hide Fits, Preview, Front, Drawn;
  }

  lemma {:induction false} TurnsKeepOver(a: Game, clockwise: bool, n: nat)
    requires Repeat(a, TurnAction(clockwise), n).Some?
    ensures var b := Repeat(a, TurnAction(clockwise), n).value;
      b.flags.gameOver == a.flags.gameOver && b.flags.paused == a.flags.paused
    decreases n
  {
    hide Apply;
    if n == 0 {
    } else {
      TurnKeepsOver(a, clockwise);
      TurnsKeepOver(Apply(a, TurnAction(clockwise)).0, clockwise, n - 1);
    }
  }

  lemma TurnKeepsOver(a: Game, clockwise: bool)
    ensures var b := Apply(a, TurnAction(clockwise)).0;
      b.flags.gameOver == a.flags.gameOver && b.flags.paused == a.flags.paused
  {
    hide Fits, Grounded, TryRotate;
  }

  /**
    Every placement that fails gets the first error that applies: play is off; the hold is refused; there
    is no piece; neither way of turning works; the column is out of bounds; the way is blocked, or the
    hold has ended the game over the very column asked for.
  */
  lemma PlaceErrorExactly(s: Game, targetX: int, target: Rotation, useHold: bool)
    requires Inv(s) && -128 <= targetX < 128 && Place(s, targetX, target, useHold).Err?
    ensures Place(s, targetX, target, useHold).error == ErrorOf(s, targetX, target, useHold)
  {
    hide Inv, Fits, Apply, Rotated, SlideAndDrop, ColumnPasses, HoldRefused;
    var a := ToTurn(s, useHold);
    if !s.flags.paused && !s.flags.gameOver {
      HoldRefusedExactly(s);
      HeldInv(s, useHold);
      if a.active.Some? && Rotated(a, target).Some? && !(useHold && HoldRefused(s)) {
        var clockwise, turns := RotatedArrives(a, target);
        TurnsKeepOver(a, clockwise, turns);
        var b := Rotated(a, target).value;
        SlideErrors(b, targetX);
      }
    }
  }
}
