/**
  What moves and turns do to a piece in play (crates/tetris-core/src/core/game_state.rs:309-375,
  pieces.rs): where it goes, when it is refused, and how its shape turns.
*/
module MoveLaws {
  import opened Types
  import opened Grids
  import opened Pieces
  import opened QueueModule
  import opened GameModel
  import opened GameInvariant
  import opened GravityLaws

  /** Side of the square a kind turns in. */
  function BoxSide(kind: PieceKind): int {
    if kind == I then 4 else 3
  }

  /** A cell of the box after a quarter turn of the box. */
  function TurnedCell(c: (int, int), side: int, clockwise: bool): (int, int) {
    if clockwise then (side - 1 - c.1, c.0) else (c.1, side - 1 - c.0)
  }

  /**
    The four orientations of a kind are quarter turns of one shape in its box; an O looks the same in
    all of them.
  */
  lemma ShapeTurns(kind: PieceKind, rotation: Rotation, clockwise: bool)
    ensures var a, b := Shape(kind, rotation), Shape(kind, rotation.Turn(clockwise));
      if kind == O then a == b
      else
        && (forall i :: 0 <= i < 4 ==> TurnedCell(a[i], BoxSide(kind), clockwise) in b)
        && (forall i :: 0 <= i < 4 ==> TurnedCell(b[i], BoxSide(kind), !clockwise) in a)
  {
    if kind != O {
      TurnsInto(kind, rotation, clockwise);
      TurnsInto(kind, rotation.Turn(clockwise), !clockwise);
    }
  }

  lemma TurnsInto(kind: PieceKind, rotation: Rotation, clockwise: bool)
    requires kind != O
    ensures forall i :: 0 <= i < 4 ==>
      TurnedCell(Shape(kind, rotation)[i], BoxSide(kind), clockwise) in Shape(kind, rotation.Turn(clockwise))
  {
    var a, b, n := Shape(kind, rotation), Shape(kind, rotation.Turn(clockwise)), BoxSide(kind);
    forall i | 0 <= i < 4
      ensures TurnedCell(a[i], n, clockwise) in b
    {
      var c := TurnedCell(a[i], n, clockwise);
      assert c == b[0] || c == b[1] || c == b[2] || c == b[3];
    }
  }

  /** Columns and rows an action moves by. */
  function Shift(action: GameAction): (int, int) {
    match action
    case MoveLeft => (-1, 0)
    case MoveRight => (1, 0)
    case _ => (0, 1)
  }

  /**
    In play a move one column aside or one row down works exactly if the place is free, and then only
    moves the piece; refused, a step aside changes nothing at all and a soft drop leaves piece and
    score. A step down scores one point.
  */
  lemma MovesExactly(s: Game, action: GameAction)
    requires Reachable(s) && Runs(s) && action in {MoveLeft, MoveRight, SoftDrop}
    ensures s.active.Some?
    ensures var p := s.active.value.Moved(Shift(action).0, Shift(action).1);
      var (t, moved) := Apply(s, action);
      && (moved <==> Fits(s.board, p))
      && t.active == Some(if moved then p else s.active.value)
      && (!moved && action != SoftDrop ==> t == s)
      && t.board == s.board && t.hold == s.hold && t.queue == s.queue && t.ids == s.ids
      && t.tally == (if moved && action == SoftDrop
                     then s.tally.(score := if s.tally.score == U32_MAX then U32_MAX else s.tally.score + 1)
                     else s.tally)
  {
    hide Fits, Grounded, Reachable, NoFullRow, PreviewOk, Paid, Counters;
    ReachableInv(s);
  }

  function TurnBy(clockwise: bool): GameAction {
    if clockwise then RotateCw else RotateCcw
  }

  /**
    In play a turn works exactly if the piece is no O and one of its five kicks fits; it takes the first
    that does, and refused it changes nothing.
  */
  lemma TurnsExactly(s: Game, clockwise: bool)
    requires Reachable(s) && Runs(s)
    ensures s.active.Some?
    ensures var p := s.active.value;
      var (t, turned) := Apply(s, TurnBy(clockwise));
      && (turned <==> p.kind != O && exists k :: 0 <= k < 5 && Fits(s.board, Kicked(p, clockwise, k)))
      && (!turned ==> t == s)
      && (turned ==>
            && t.board == s.board && t.hold == s.hold && t.queue == s.queue && t.ids == s.ids && t.tally == s.tally
            && exists k :: 0 <= k < 5 && t.active == Some(Kicked(p, clockwise, k))
                 && Fits(s.board, Kicked(p, clockwise, k))
                 && forall j :: 0 <= j < k ==> !Fits(s.board, Kicked(p, clockwise, j)))
  {
    hide Fits, Grounded, Kicked, Reachable, NoFullRow, PreviewOk, Paid, Counters;
    ReachableInv(s);
    var k := FirstKick(s.board, s.active.value, clockwise, 0);
    if k < 5 { assert Fits(s.board, Kicked(s.active.value, clockwise, k)); }
  }
}
