/** Tetromino shapes, kick tables and rotation (crates/tetris-core/src/core/pieces.rs). */
module Pieces {
  import opened Types
  import opened Grids

  /** Mino offsets from the piece origin. */
  function Shape(kind: PieceKind, rotation: Rotation): (s: seq<(int, int)>)
    ensures |s| == 4
  {
    match kind
    case I => (
      match rotation
      case North => [(0, 1), (1, 1), (2, 1), (3, 1)]
      case East => [(2, 0), (2, 1), (2, 2), (2, 3)]
      case South => [(0, 2), (1, 2), (2, 2), (3, 2)]
      case West => [(1, 0), (1, 1), (1, 2), (1, 3)])
    case O => [(1, 0), (2, 0), (1, 1), (2, 1)]
    case T => (
      match rotation
      case North => [(1, 0), (0, 1), (1, 1), (2, 1)]
      case East => [(1, 0), (1, 1), (2, 1), (1, 2)]
      case South => [(0, 1), (1, 1), (2, 1), (1, 2)]
      case West => [(1, 0), (0, 1), (1, 1), (1, 2)])
    case S => (
      match rotation
      case North => [(1, 0), (2, 0), (0, 1), (1, 1)]
      case East => [(1, 0), (1, 1), (2, 1), (2, 2)]
      case South => [(1, 1), (2, 1), (0, 2), (1, 2)]
      case West => [(0, 0), (0, 1), (1, 1), (1, 2)])
    case Z => (
      match rotation
      case North => [(0, 0), (1, 0), (1, 1), (2, 1)]
      case East => [(2, 0), (1, 1), (2, 1), (1, 2)]
      case South => [(0, 1), (1, 1), (1, 2), (2, 2)]
      case West => [(1, 0), (0, 1), (1, 1), (0, 2)])
    case J => (
      match rotation
      case North => [(0, 0), (0, 1), (1, 1), (2, 1)]
      case East => [(1, 0), (2, 0), (1, 1), (1, 2)]
      case South => [(0, 1), (1, 1), (2, 1), (2, 2)]
      case West => [(1, 0), (1, 1), (0, 2), (1, 2)])
    case L => (
      match rotation
      case North => [(2, 0), (0, 1), (1, 1), (2, 1)]
      case East => [(1, 0), (1, 1), (1, 2), (2, 2)]
      case South => [(0, 1), (1, 1), (2, 1), (0, 2)]
      case West => [(0, 0), (1, 0), (1, 1), (1, 2)])
  }

  /** A piece at a place on the field. */
  datatype Tetromino = Tetromino(kind: PieceKind, rotation: Rotation, x: int, y: int) {
    function Moved(dx: int, dy: int): Tetromino {
      this.(x := x + dx, y := y + dy)
    }

    /** The four positions the piece covers. */
    function Cells(): (cells: seq<(int, int)>)
      ensures |cells| == 4
    {
      var s := Shape(kind, rotation);
      [(x + s[0].0, y + s[0].1), (x + s[1].0, y + s[1].1), (x + s[2].0, y + s[2].1), (x + s[3].0, y + s[3].1)]
    }
  }

  function Spawned(kind: PieceKind): Tetromino {
    Tetromino(kind, North, 3, 0)
  }

  /** Every mino lies on an empty in-bounds cell: `Tetromino::is_valid`. */
  predicate Fits(g: Grid, p: Tetromino) {
    forall i :: 0 <= i < 4 ==> Free(g, p.Cells()[i].0, p.Cells()[i].1)
  }

  /** Something lies directly below some mino: `Tetromino::is_grounded`. */
  predicate Grounded(g: Grid, p: Tetromino) {
    exists i :: 0 <= i < 4 && !Free(g, p.Cells()[i].0, p.Cells()[i].1 + 1)
  }

  lemma GroundedMeaning(g: Grid, p: Tetromino)
    ensures Grounded(g, p) <==> !Fits(g, p.Moved(0, 1))
  {
    var a, b := p.Cells(), p.Moved(0, 1).Cells();
    assert forall i :: 0 <= i < 4 ==> b[i] == (a[i].0, a[i].1 + 1);
  }

  /** The four offsets are distinct and lie in the 4x4 box; vertical extent of a T is three. */
  lemma ShapeBox(kind: PieceKind, rotation: Rotation)
    ensures forall i :: 0 <= i < 4 ==>
      0 <= Shape(kind, rotation)[i].0 <= 3 && 0 <= Shape(kind, rotation)[i].1 <= 3
    ensures kind == T ==> forall i :: 0 <= i < 4 ==> Shape(kind, rotation)[i].1 <= 2
    ensures Distinct(Shape(kind, rotation))
  {
  }

  /** A piece that fits has its origin near the field. */
  lemma FitsBox(g: Grid, p: Tetromino)
    requires Fits(g, p)
    ensures -3 <= p.x < WIDTH && -3 <= p.y < HEIGHT
  {
    ShapeBox(p.kind, p.rotation);
    assert Free(g, p.Cells()[0].0, p.Cells()[0].1);
  }

  lemma CellsDistinct(p: Tetromino)
    ensures Distinct(p.Cells())
  {
    ShapeBox(p.kind, p.rotation);
  }

  // ---- kicks -----------------------------------------------------------

  const O_KICKS: seq<seq<(int, int)>> := [
    [(0, 0), (0, 0), (0, 0), (0, 0), (0, 0)], [(0, 0), (0, 0), (0, 0), (0, 0), (0, 0)],
    [(0, 0), (0, 0), (0, 0), (0, 0), (0, 0)], [(0, 0), (0, 0), (0, 0), (0, 0), (0, 0)],
    [(0, 0), (0, 0), (0, 0), (0, 0), (0, 0)], [(0, 0), (0, 0), (0, 0), (0, 0), (0, 0)],
    [(0, 0), (0, 0), (0, 0), (0, 0), (0, 0)], [(0, 0), (0, 0), (0, 0), (0, 0), (0, 0)]]

  const JLSTZ_KICKS: seq<seq<(int, int)>> := [
    [(0, 0), (-1, 0), (-1, 1), (0, -2), (-1, -2)],
    [(0, 0), (1, 0), (1, 1), (0, -2), (1, -2)],
    [(0, 0), (1, 0), (1, -1), (0, 2), (1, 2)],
    [(0, 0), (1, 0), (1, -1), (0, 2), (1, 2)],
    [(0, 0), (-1, 0), (-1, 1), (0, -2), (-1, -2)],
    [(0, 0), (1, 0), (1, 1), (0, -2), (1, -2)],
    [(0, 0), (-1, 0), (-1, -1), (0, 2), (-1, 2)],
    [(0, 0), (-1, 0), (-1, -1), (0, 2), (-1, 2)]]

  const I_KICKS: seq<seq<(int, int)>> := [
    [(0, 0), (-2, 0), (1, 0), (-2, -1), (1, 2)],
    [(0, 0), (-1, 0), (2, 0), (-1, 2), (2, -1)],
    [(0, 0), (2, 0), (-1, 0), (2, 1), (-1, -2)],
    [(0, 0), (-1, 0), (2, 0), (-1, 2), (2, -1)],
    [(0, 0), (1, 0), (-2, 0), (1, -2), (-2, 1)],
    [(0, 0), (2, 0), (-1, 0), (2, 1), (-1, -2)],
    [(0, 0), (-2, 0), (1, 0), (-2, -1), (1, 2)],
    [(0, 0), (1, 0), (-2, 0), (1, -2), (-2, 1)]]

  function KickIndex(from: Rotation, clockwise: bool): (i: nat)
    ensures i < 8
  {
    match (from, clockwise)
    case (North, true) => 0
    case (North, false) => 1
    case (East, false) => 2
    case (East, true) => 3
    case (South, false) => 4
    case (South, true) => 5
    case (West, false) => 6
    case (West, true) => 7
  }

  function Kicks(kind: PieceKind, from: Rotation, clockwise: bool): (kicks: seq<(int, int)>)
    ensures |kicks| == 5
    ensures kicks[0] == (0, 0)
    ensures forall i :: 0 <= i < 5 ==> -2 <= kicks[i].0 <= 2 && -2 <= kicks[i].1 <= 2
  {
    var table := match kind case O => O_KICKS case I => I_KICKS case _ => JLSTZ_KICKS;
    table[KickIndex(from, clockwise)]
  }

  /** p turned and displaced by kick number i. */
  function Kicked(p: Tetromino, clockwise: bool, i: nat): Tetromino
    requires i < 5
  {
    var k := Kicks(p.kind, p.rotation, clockwise)[i];
    Tetromino(p.kind, p.rotation.Turn(clockwise), p.x + k.0, p.y + k.1)
  }

  /** Index of the first kick from i on that fits, 5 when none does. */
  function FirstKick(g: Grid, p: Tetromino, clockwise: bool, i: nat): (r: nat)
    requires i <= 5
    ensures i <= r <= 5
    ensures forall k :: i <= k < r ==> !Fits(g, Kicked(p, clockwise, k))
    ensures r < 5 ==> Fits(g, Kicked(p, clockwise, r))
    decreases 5 - i
  {
    if i == 5 || Fits(g, Kicked(p, clockwise, i)) then i else FirstKick(g, p, clockwise, i + 1)
  }

  /** The rotated piece, or None when all five kicks are blocked: `try_rotate`. */
  function TryRotate(g: Grid, p: Tetromino, clockwise: bool): Option<Tetromino> {
    var k := FirstKick(g, p, clockwise, 0);
    if k == 5 then None else Some(Kicked(p, clockwise, k))
  }

  /** In every table kick number i of the opposite turn is the negative of kick number i. */
  lemma KicksOpposite(kind: PieceKind, from: Rotation, clockwise: bool, i: nat)
    requires i < 5
    ensures var k, l := Kicks(kind, from, clockwise)[i], Kicks(kind, from.Turn(clockwise), !clockwise)[i];
      k.0 + l.0 == 0 && k.1 + l.1 == 0
  {
  }

  /** Kick number i of the opposite turn undoes kick number i, in every table. */
  lemma KicksCancel(p: Tetromino, clockwise: bool, i: nat)
    requires i < 5
    ensures Kicked(Kicked(p, clockwise, i), !clockwise, i) == p
  {
    hide Kicks;
    KicksOpposite(p.kind, p.rotation, clockwise, i);
  }

  /** Different kicks of one list displace differently, except for the O, which never kicks. */
  lemma KicksDiffer(p: Tetromino, clockwise: bool, i: nat, j: nat)
    requires i < j < 5
    ensures if p.kind == O then Kicked(p, clockwise, i) == Kicked(p, clockwise, j)
      else Kicked(p, clockwise, i) != Kicked(p, clockwise, j)
  {
  }

  /**
    Rotation is never a trap. From a piece that fits, whatever kick a successful turn used, the
    opposite turn succeeds too, with a kick no later in its list; it restores the exact piece if
    and only if no earlier kick of the way back fits, so always after a turn in place.
  */
  lemma RotationIsUndoable(g: Grid, p: Tetromino, clockwise: bool)
    requires Fits(g, p)
    requires TryRotate(g, p, clockwise).Some?
    ensures
      var there, used := TryRotate(g, p, clockwise).value, FirstKick(g, p, clockwise, 0);
      var back := TryRotate(g, there, !clockwise);
      && back.Some?
      && back.value.rotation == p.rotation
      && FirstKick(g, there, !clockwise, 0) <= used
      && (back.value == p <==> FirstKick(g, there, !clockwise, 0) == used)
      && (used == 0 ==> back.value == p)
  {
    var used := FirstKick(g, p, clockwise, 0);
    var there := Kicked(p, clockwise, used);
    var back := FirstKick(g, there, !clockwise, 0);
    KicksCancel(p, clockwise, used);
    assert back <= used && p.rotation == there.rotation.Turn(!clockwise);
    if used > 0 { KicksDiffer(p, clockwise, 0, used); }
    if back < used { KicksDiffer(there, !clockwise, back, used); }
  }

  // ---- falling ---------------------------------------------------------

  /** Rows p can fall before something lies below it. */
  function DropDistance(g: Grid, p: Tetromino): (d: nat)
    ensures Fits(g, p) ==> p.y + d < HEIGHT
    decreases HEIGHT - p.y
  {
    if Fits(g, p.Moved(0, 1)) then
      FitsBox(g, p.Moved(0, 1));
      1 + DropDistance(g, p.Moved(0, 1))
    else
      (if Fits(g, p) then FitsBox(g, p); 0 else 0)
  }

  function Landed(g: Grid, p: Tetromino): Tetromino {
    p.Moved(0, DropDistance(g, p))
  }

  /** The fall stops on the first row that blocks, having passed only through free rows. */
  lemma {:induction false} DropDistanceMeaning(g: Grid, p: Tetromino)
    ensures forall k :: 1 <= k <= DropDistance(g, p) ==> Fits(g, p.Moved(0, k))
    ensures !Fits(g, p.Moved(0, DropDistance(g, p) + 1))
    decreases DropDistance(g, p)
  {
    var q := p.Moved(0, 1);
    if Fits(g, q) {
      DropDistanceMeaning(g, q);
      forall k | 1 <= k <= DropDistance(g, p) ensures Fits(g, p.Moved(0, k)) {
        assert k > 1 ==> q.Moved(0, k - 1) == p.Moved(0, k);
      }
      assert q.Moved(0, DropDistance(g, q) + 1) == p.Moved(0, DropDistance(g, p) + 1);
    }
  }

  lemma {:induction false} DropDistanceUnique(g: Grid, p: Tetromino, d: nat)
    requires forall k :: 1 <= k <= d ==> Fits(g, p.Moved(0, k))
    requires !Fits(g, p.Moved(0, d + 1))
    ensures d == DropDistance(g, p)
  {
    DropDistanceMeaning(g, p);
    var e := DropDistance(g, p);
    assert d < e ==> Fits(g, p.Moved(0, d + 1));
    assert e < d ==> Fits(g, p.Moved(0, e + 1));
  }

  // ---- locking ---------------------------------------------------------

  /** The field with the piece fixed on it. */
  function Fixed(g: Grid, p: Tetromino): Grid {
    Stamp(g, p.Cells(), p.kind)
  }

  lemma FixedCounts(g: Grid, p: Tetromino)
    requires Fits(g, p)
    ensures Filled(Fixed(g, p)) == Filled(g) + 4
  {
    CellsDistinct(p);
    FilledStamp(g, p.Cells(), p.kind);
  }

  /** Only rows the piece reaches can have become full. */
  lemma NewFullRow(g: Grid, p: Tetromino, y: nat)
    requires NoFullRow(g)
    requires y in FullRows(Fixed(g, p))
    ensures p.y <= y <= p.y + 3 && y < HEIGHT
    ensures p.kind == T ==> y <= p.y + 2
  {
    FullRowsMeaning(Fixed(g, p));
    var x :| 0 <= x < WIDTH && g[y][x].None?;
    assert Fixed(g, p)[y][x].Some?;
    assert (x, y) in p.Cells();
    ShapeBox(p.kind, p.rotation);
  }

  /** At most four rows fill at once, at most three under a T. */
  lemma AtMostFourFull(g: Grid, p: Tetromino)
    requires NoFullRow(g)
    ensures |FullRows(Fixed(g, p))| <= 4
    ensures p.kind == T ==> |FullRows(Fixed(g, p))| <= 3
  {
    var ys := FullRows(Fixed(g, p));
    FullRowsMeaning(Fixed(g, p));
    forall y | y in ys ensures p.y <= y < p.y + (if p.kind == T then 3 else 4) {
      NewFullRow(g, p, y);
    }
    AscendingBound(ys, p.y, p.y + (if p.kind == T then 3 else 4));
  }

  // ---- T-spins ---------------------------------------------------------

  function Blocked(g: Grid, x: int, y: int): nat {
    if Free(g, x, y) then 0 else 1
  }

  /** T-spin class of a T locked on g after a rotation: `t_spin_kind`. */
  function TSpin(g: Grid, p: Tetromino, rotatedLast: bool): TSpinKind {
    if !rotatedLast then NoSpin
    else
      var nw, ne := Blocked(g, p.x, p.y), Blocked(g, p.x + 2, p.y);
      var sw, se := Blocked(g, p.x, p.y + 2), Blocked(g, p.x + 2, p.y + 2);
      if nw + ne + sw + se < 3 then NoSpin
      else
        var front :=
          match p.rotation
          case North => nw + ne
          case East => ne + se
          case South => sw + se
          case West => nw + sw;
        if front == 2 then Full else Mini
  }

  /** A T that fills three rows has all four of its corners blocked, so a spin is never Mini. */
  lemma TripleIsFull(g: Grid, p: Tetromino, rotatedLast: bool)
    requires NoFullRow(g) && p.kind == T
    requires |FullRows(Fixed(g, p))| == 3
    ensures TSpin(Fixed(g, p), p, rotatedLast) == if rotatedLast then Full else NoSpin
  {
    var f := Fixed(g, p);
    var ys := FullRows(f);
    FullRowsMeaning(f);
    forall y | y in ys ensures p.y <= y <= p.y + 2 {
      NewFullRow(g, p, y);
    }
    assert ys[0] in ys && ys[1] in ys && ys[2] in ys;
    assert ys[0] == p.y && ys[2] == p.y + 2;
    assert !Free(f, p.x, p.y) && !Free(f, p.x + 2, p.y);
    assert !Free(f, p.x, p.y + 2) && !Free(f, p.x + 2, p.y + 2);
  }
}
