/** The mutable board over one flat array (crates/tetris-core/src/core/board.rs). */
module BoardModule {
  import opened Types
  import opened Grids
  import opened Pieces

  const BOARD_SIZE: int := WIDTH * HEIGHT

  /** Row-major reading of a flat cell sequence. */
  function RowsOf(cells: seq<Cell>): (g: Grid)
    requires |cells| == BOARD_SIZE
    ensures forall x, y :: InBounds(x, y) ==> g[y][x] == cells[y * WIDTH + x]
  {
    seq(HEIGHT, y requires 0 <= y < HEIGHT => cells[y * WIDTH..(y + 1) * WIDTH])
  }

  lemma RowsOfIs(cells: seq<Cell>, g: Grid)
    requires |cells| == BOARD_SIZE
    requires forall x, y :: InBounds(x, y) ==> cells[y * WIDTH + x] == g[y][x]
    ensures RowsOf(cells) == g
  {
    forall y | 0 <= y < HEIGHT ensures RowsOf(cells)[y] == g[y] {
      assert forall x :: 0 <= x < WIDTH ==> RowsOf(cells)[y][x] == g[y][x];
    }
  }

  /** One row removed: everything above it moves down, an empty row enters on top. */
  function Without(rows: seq<Row>, y: nat): seq<Row>
    requires y < |rows|
  {
    [EmptyRow()] + rows[..y] + rows[y + 1..]
  }

  /** The flat form of removing row y: the first y rows move up by WIDTH positions. */
  lemma ShiftedRows(was: seq<Cell>, now: seq<Cell>, y: nat)
    requires |was| == |now| == BOARD_SIZE && y < HEIGHT
    requires forall i :: 0 <= i < WIDTH ==> now[i].None?
    requires forall i :: WIDTH <= i < (y + 1) * WIDTH ==> now[i] == was[i - WIDTH]
    requires forall i :: (y + 1) * WIDTH <= i < BOARD_SIZE ==> now[i] == was[i]
    ensures RowsOf(now) == Without(RowsOf(was), y)
  {
    var target := Without(RowsOf(was), y);
    forall r | 0 <= r < HEIGHT ensures RowsOf(now)[r] == target[r] {
      forall c | 0 <= c < WIDTH ensures now[r * WIDTH + c] == target[r][c] {
        if r == 0 {
        } else if r <= y {
          assert target[r] == RowsOf(was)[r - 1];
          assert now[r * WIDTH + c] == was[(r - 1) * WIDTH + c];
        } else {
          assert target[r] == RowsOf(was)[r];
        }
      }
      assert forall c :: 0 <= c < WIDTH ==> RowsOf(now)[r][c] == target[r][c];
    }
  }

  /** A full row below compacted rows adds one empty row on top of them. */
  lemma CompactFull(rows: seq<Row>, y: nat)
    requires y < |rows| && IsFull(rows[y])
    ensures Compact(rows[..y + 1]) == [EmptyRow()] + Compact(rows[..y])
    ensures FullRows(rows[..y + 1]) == FullRows(rows[..y]) + [y]
  {
    hide IsFull, EmptyRow;
    assert rows[..y + 1][..y] == rows[..y];
    assert EmptyRows(|FullRows(rows[..y])| + 1) == [EmptyRow()] + EmptyRows(|FullRows(rows[..y])|);
    assert Kept(rows[..y + 1]) == Kept(rows[..y]) + [];
  }

  /**
    Removing the next full row of a field whose first m rows are already compacted compacts
    the first y + 1 rows.
  */
  lemma CompactStep(rows: seq<Row>, m: nat, y: nat)
    requires m <= y < |rows| && IsFull(rows[y])
    requires forall k :: m <= k < y ==> !IsFull(rows[k])
    ensures Without(Compact(rows[..m]) + rows[m..], y) == Compact(rows[..y + 1]) + rows[y + 1..]
    ensures FullRows(rows[..y + 1]) == FullRows(rows[..m]) + [y]
  {
    hide IsFull, FullRows, Kept, Compact, EmptyRow;
    CompactSkip(rows, m, y);
    CompactFull(rows, y);
    assert Compact(rows[..m]) + rows[m..] == Compact(rows[..y]) + rows[y..];
    assert (Compact(rows[..y]) + rows[y..])[..y] == Compact(rows[..y]);
    assert (Compact(rows[..y]) + rows[y..])[y + 1..] == rows[y + 1..];
  }

  lemma {:induction false} CompactSkip(rows: seq<Row>, m: nat, y: nat)
    requires m <= y <= |rows|
    requires forall k :: m <= k < y ==> !IsFull(rows[k])
    ensures Compact(rows[..y]) == Compact(rows[..m]) + rows[m..y]
    ensures FullRows(rows[..y]) == FullRows(rows[..m])
    decreases y
  {
    if m < y {
      CompactSkip(rows, m, y - 1);
      assert rows[..y][..y - 1] == rows[..y - 1];
      assert FullRows(rows[..y]) == FullRows(rows[..y - 1]) + [];
      var top, mid, last := EmptyRows(|FullRows(rows[..y])|), Kept(rows[..y - 1]), [rows[y - 1]];
      assert top + (mid + last) == (top + mid) + last;
      assert rows[m..y] == rows[m..y - 1] + last;
    } else {
      assert rows[m..y] == [];
    }
  }

  /** m is the row just below the i-th full row. */
  ghost predicate Reached(g: Grid, i: nat, m: nat) {
    && i <= |FullRows(g)|
    && m == if i == 0 then 0 else FullRows(g)[i - 1] + 1
  }

  /** The field once the full rows among its first m rows are gone. */
  ghost function Clearing(g: Grid, m: nat): seq<Row>
    requires m <= HEIGHT
  {
    Compact(g[..m]) + g[m..]
  }

  /** Between consecutive entries of the list of full rows no row is full. */
  lemma NoFullBetween(g: Grid, i: nat, m: nat)
    requires Reached(g, i, m)
    ensures m <= HEIGHT
    ensures i < |FullRows(g)| ==> m <= FullRows(g)[i] < HEIGHT && IsFull(g[FullRows(g)[i]])
    ensures forall k :: m <= k < (if i < |FullRows(g)| then FullRows(g)[i] else HEIGHT) ==> !IsFull(g[k])
  {
    hide FullRows, IsFull;
    FullRowsMeaning(g);
    var ys := FullRows(g);
    if i > 0 { assert ys[i - 1] in ys; }
    if i < |ys| { assert ys[i] in ys; }
    forall k | m <= k < (if i < |ys| then ys[i] else HEIGHT) ensures k !in ys {
      forall j | 0 <= j < |ys| ensures ys[j] != k {
      }
    }
  }

  lemma ClearingEnds(g: Grid)
    ensures Clearing(g, 0) == g
  {
  }

  lemma ClearingStep(g: Grid, i: nat, m: nat)
    requires Reached(g, i, m) && i < |FullRows(g)|
    ensures m <= FullRows(g)[i] < HEIGHT
    ensures Clearing(g, FullRows(g)[i] + 1) == Without(Clearing(g, m), FullRows(g)[i])
  {
    NoFullBetween(g, i, m);
    CompactStep(g, m, FullRows(g)[i]);
  }

  lemma ClearingDone(g: Grid, m: nat)
    requires Reached(g, |FullRows(g)|, m)
    ensures m <= HEIGHT && Clearing(g, m) == Compact(g)
  {
    NoFullBetween(g, |FullRows(g)|, m);
    CompactSkip(g, m, HEIGHT);
    assert g[..HEIGHT] == g;
  }

  class Board {
    const cells: array<Cell>

    ghost predicate Valid() {
      cells.Length == BOARD_SIZE
    }

    ghost function Grid(): Grid
      requires Valid()
      reads cells
    {
      RowsOf(cells[..])
    }

    constructor ()
      ensures Valid() && fresh(cells)
      ensures Grid() == EmptyGrid()
    {
      cells := new Cell[BOARD_SIZE](_ => None);
      new;
      RowsOfIs(cells[..], EmptyGrid());
    }

    /** Flat index of a position, None out of bounds. */
    function Index(x: int, y: int): (r: Option<nat>)
      ensures r.Some? <==> InBounds(x, y)
      ensures r.Some? ==> r.value < BOARD_SIZE
    {
      if x < 0 || x >= WIDTH || y < 0 || y >= HEIGHT then None else Some(y * WIDTH + x)
    }

    method IsValid(x: int, y: int) returns (ok: bool)
      requires Valid()
      ensures ok == Free(Grid(), x, y)
    {
      var i := Index(x, y);
      ok := i.Some? && cells[i.value].None?;
    }

    method Set(x: int, y: int, cell: Cell) returns (ok: bool)
      requires Valid()
      modifies cells
      ensures ok == InBounds(x, y)
      ensures Grid() == if ok then SetCell(old(Grid()), x, y, cell) else old(Grid())
    {
      var i := Index(x, y);
      match i
      case None => ok := false;
      case Some(k) =>
        ghost var was := Grid();
        cells[k] := cell;
        RowsOfIs(cells[..], SetCell(was, x, y, cell));
        ok := true;
    }

    method Clear()
      requires Valid()
      modifies cells
      ensures Grid() == EmptyGrid()
    {
      forall i | 0 <= i < cells.Length { cells[i] := None; }
      RowsOfIs(cells[..], EmptyGrid());
    }

    /** Copies another board's contents. */
    method CopyFrom(other: Board)
      requires Valid() && other.Valid()
      modifies cells
      ensures Grid() == old(other.Grid())
    {
      ghost var was := other.Grid();
      forall i | 0 <= i < cells.Length { cells[i] := other.cells[i]; }
      RowsOfIs(cells[..], was);
    }

    method IsRowFull(y: nat) returns (full: bool)
      requires Valid()
      ensures full == (y < HEIGHT && IsFull(Grid()[y]))
    {
      if y >= HEIGHT { return false; }
      var x := 0;
      while x < WIDTH
        invariant 0 <= x <= WIDTH
        invariant forall k :: 0 <= k < x ==> Grid()[y][k].Some?
      {
        if cells[y * WIDTH + x].None? {
          assert Grid()[y][x].None?;
          return false;
        }
        assert Grid()[y][x].Some?;
        x := x + 1;
      }
      full := true;
    }

    /** Shifts rows 0..y down by one with an overlap-safe copy and empties the top row. */
    method ClearRow(y: nat) returns (n: nat)
      requires Valid()
      modifies cells
      ensures n == if y < HEIGHT then 1 else 0
      ensures Grid() == if y < HEIGHT then Without(old(Grid()), y) else old(Grid())
    {
      if y >= HEIGHT { return 0; }
      hide RowsOf, Without;
      var start := y * WIDTH;
      forall i | 0 <= i < start { cells[i + WIDTH] := cells[i]; }
      var x := 0;
      while x < WIDTH
        invariant 0 <= x <= WIDTH
        invariant forall i :: 0 <= i < x ==> cells[i].None?
        invariant forall i :: WIDTH <= i < start + WIDTH ==> cells[i] == old(cells[i - WIDTH])
        invariant forall i :: start + WIDTH <= i < BOARD_SIZE ==> cells[i] == old(cells[i])
      {
        cells[x] := None;
        x := x + 1;
      }
      ShiftedRows(old(cells[..]), cells[..], y);
      n := 1;
    }

    /** First pass of clear_full_rows: the full rows, top to bottom. */
    method FindFullRows() returns (fullRows: seq<nat>)
      requires Valid()
      ensures fullRows == FullRows(Grid())
    {
      fullRows := [];
      var y := 0;
      while y < HEIGHT
        invariant 0 <= y <= HEIGHT
        invariant fullRows == FullRows(Grid()[..y])
      {
        var full := IsRowFull(y);
        assert Grid()[..y + 1][..y] == Grid()[..y];
        if full { fullRows := fullRows + [y]; }
        y := y + 1;
      }
      assert Grid()[..HEIGHT] == Grid();
    }

    /**
      Removes every full row, top to bottom, in place. The result lists the full rows of the
      original field in ascending order and the field becomes its stable compaction. The two
      four-slot buffers panic beyond four full rows, which is the caller's obligation.
    */
    method ClearFullRows() returns (cleared: seq<nat>)
      requires Valid()
      requires |FullRows(Grid())| <= 4
      modifies cells
      ensures cleared == FullRows(old(Grid()))
      ensures Grid() == Compact(old(Grid()))
    {
      hide Compact, FullRows, IsFull, Clearing, Without, RowsOf;
      ghost var g := Grid();
      var fullRows := FindFullRows();
      cleared := [];
      ghost var m: nat := 0;
      var i: nat := 0;
      ClearingEnds(g);
      while i < |fullRows|
        invariant i <= |fullRows|
        invariant cleared == fullRows[..i]
        invariant Reached(g, i, m) && m <= HEIGHT
        invariant Grid() == Clearing(g, m)
      {
        ClearingStep(g, i, m);
        var _ := ClearRow(fullRows[i]);
        cleared := cleared + [fullRows[i]];
        m := fullRows[i] + 1;
        i := i + 1;
      }
      ClearingDone(g, m);
    }

    /** Locks a piece when all its cells are free, otherwise changes nothing. */
    method LockPiece(p: Tetromino) returns (ok: bool)
      requires Valid()
      modifies cells
      ensures ok == Fits(old(Grid()), p)
      ensures Grid() == if ok then Fixed(old(Grid()), p) else old(Grid())
    {
      ghost var g := Grid();
      var at := p.Cells();
      var i := 0;
      while i < 4
        invariant 0 <= i <= 4 && Grid() == g
        invariant forall k :: 0 <= k < i ==> Free(g, at[k].0, at[k].1)
      {
        var valid := IsValid(at[i].0, at[i].1);
        if !valid { return false; }
        i := i + 1;
      }
      StampNothing(g, p.kind);
      i := 0;
      while i < 4
        invariant 0 <= i <= 4
        invariant Grid() == Stamp(g, at[..i], p.kind)
      {
        assert at[..i + 1] == at[..i] + [(at[i].0, at[i].1)];
        StampSnoc(g, at[..i], at[i].0, at[i].1, p.kind);
        var done := Set(at[i].0, at[i].1, Some(p.kind));
        if !done { return false; }
        i := i + 1;
      }
      assert at[..4] == at;
      ok := true;
    }
  }
}
