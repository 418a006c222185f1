/**
  The playing field as a value: twenty rows of ten cells, top row first. This is the
  specification of the flat array in crates/tetris-core/src/core/board.rs.
*/
module Grids {
  import opened Types

  type Cell = Option<PieceKind>
  type Row = seq<Cell>

  const WIDTH := 10
  const HEIGHT := 20

  ghost predicate IsGrid(g: seq<Row>) {
    |g| == HEIGHT && forall y :: 0 <= y < HEIGHT ==> |g[y]| == WIDTH
  }

  type Grid = g: seq<Row> | IsGrid(g)
    witness seq(HEIGHT, _ => seq(WIDTH, _ => Option<PieceKind>.None))

  function EmptyRow(): (r: Row)
    ensures |r| == WIDTH
  {
    seq(WIDTH, _ => None)
  }

  function EmptyRows(n: nat): (rows: seq<Row>)
    ensures |rows| == n
  {
    seq(n, _ => EmptyRow())
  }

  function EmptyGrid(): Grid {
    EmptyRows(HEIGHT)
  }

  predicate InBounds(x: int, y: int) {
    0 <= x < WIDTH && 0 <= y < HEIGHT
  }

  /** In bounds and empty: `Board::is_valid`. */
  predicate Free(g: Grid, x: int, y: int) {
    InBounds(x, y) && g[y][x].None?
  }

  // ---- counting filled cells -------------------------------------------

  function RowCount(r: Row): nat {
    if r == [] then 0 else (if r[0].Some? then 1 else 0) + RowCount(r[1..])
  }

  function Filled(g: seq<Row>): nat {
    if g == [] then 0 else RowCount(g[0]) + Filled(g[1..])
  }

  lemma {:induction false} RowCountFill(r: Row, x: nat, kind: PieceKind)
    requires x < |r| && r[x].None?
    ensures RowCount(r[x := Some(kind)]) == RowCount(r) + 1
  {
    if x > 0 {
      RowCountFill(r[1..], x - 1, kind);
      assert r[x := Some(kind)][1..] == r[1..][x - 1 := Some(kind)];
    } else {
      assert r[x := Some(kind)][1..] == r[1..];
    }
  }

  lemma {:induction false} FilledReplace(g: seq<Row>, y: nat, r: Row)
    requires y < |g|
    ensures Filled(g[y := r]) == Filled(g) - RowCount(g[y]) + RowCount(r)
  {
    if y > 0 {
      FilledReplace(g[1..], y - 1, r);
      assert g[y := r][1..] == g[1..][y - 1 := r];
    } else {
      assert g[y := r][1..] == g[1..];
    }
  }

  lemma {:induction false} FilledAppend(a: seq<Row>, b: seq<Row>)
    ensures Filled(a + b) == Filled(a) + Filled(b)
  {
    if a == [] {
      assert a + b == b;
    } else {
      FilledAppend(a[1..], b);
      assert (a + b)[1..] == a[1..] + b;
    }
  }

  lemma {:induction false} RowCountEmpty(r: Row)
    requires forall x :: 0 <= x < |r| ==> r[x].None?
    ensures RowCount(r) == 0
  {
    if r != [] { RowCountEmpty(r[1..]); }
  }

  lemma {:induction false} FilledEmpty(n: nat)
    ensures Filled(EmptyRows(n)) == 0
  {
    RowCountEmpty(EmptyRow());
    if n > 0 {
      FilledEmpty(n - 1);
      assert EmptyRows(n)[1..] == EmptyRows(n - 1);
    }
  }

  /** A row whose filled cells all lie in columns lo..hi holds at most hi - lo of them. */
  lemma {:induction false} RowCountBand(r: Row, lo: int, hi: int)
    requires lo <= hi
    requires forall x :: 0 <= x < |r| && r[x].Some? ==> lo <= x < hi
    ensures RowCount(r) <= hi - lo
  {
    if r == [] {
    } else if r[0].Some? {
      forall x | 0 <= x < |r[1..]| && r[1..][x].Some? ensures 0 <= x < hi - 1 {
        assert r[x + 1].Some?;
      }
      RowCountBand(r[1..], 0, hi - 1);
    } else {
      forall x | 0 <= x < |r[1..]| && r[1..][x].Some? ensures lo - 1 <= x < hi - 1 {
        assert r[x + 1].Some?;
      }
      RowCountBand(r[1..], lo - 1, hi - 1);
    }
  }

  /** Every filled cell of g lies in columns lo..hi. */
  ghost predicate InBand(g: Grid, lo: int, hi: int) {
    forall x, y :: 0 <= y < HEIGHT && 0 <= x < WIDTH && g[y][x].Some? ==> lo <= x < hi
  }

  lemma {:induction false} FilledBandFrom(rows: seq<Row>, lo: int, hi: int)
    requires lo <= hi
    requires forall y, x :: 0 <= y < |rows| && 0 <= x < |rows[y]| && rows[y][x].Some? ==> lo <= x < hi
    ensures Filled(rows) <= (hi - lo) * |rows|
  {
    if rows == [] {
    } else {
      RowCountBand(rows[0], lo, hi);
      forall y, x | 0 <= y < |rows[1..]| && 0 <= x < |rows[1..][y]| && rows[1..][y][x].Some? ensures lo <= x < hi {
        assert rows[y + 1][x].Some?;
      }
      FilledBandFrom(rows[1..], lo, hi);
      assert (hi - lo) * |rows| == (hi - lo) * (|rows| - 1) + (hi - lo);
    }
  }

  // ---- full rows and their removal -------------------------------------

  predicate IsFull(r: Row) {
    forall x :: 0 <= x < |r| ==> r[x].Some?
  }

  predicate NoFullRow(g: Grid) {
    forall y :: 0 <= y < HEIGHT ==> !IsFull(g[y])
  }

  /** Indices of the full rows, top to bottom. */
  function FullRows(rows: seq<Row>): (ys: seq<nat>)
    ensures |ys| <= |rows|
  {
    if rows == [] then []
    else
      var n := |rows| - 1;
      FullRows(rows[..n]) + (if IsFull(rows[n]) then [n] else [])
  }

  /** The rows that stay, in their original order. */
  function Kept(rows: seq<Row>): (kept: seq<Row>)
    ensures |kept| + |FullRows(rows)| == |rows|
  {
    if rows == [] then []
    else
      var n := |rows| - 1;
      Kept(rows[..n]) + (if IsFull(rows[n]) then [] else [rows[n]])
  }

  /** Stable compaction: one empty row on top for each full row, then the others. */
  function Compact(rows: seq<Row>): (r: seq<Row>)
    ensures |r| == |rows|
  {
    EmptyRows(|FullRows(rows)|) + Kept(rows)
  }

  ghost predicate Ascending(ys: seq<nat>) {
    forall i, j :: 0 <= i < j < |ys| ==> ys[i] < ys[j]
  }

  lemma FullRowsLast(rows: seq<Row>, y: nat)
    requires rows != []
    ensures var n := |rows| - 1;
      y in FullRows(rows) <==> y in FullRows(rows[..n]) || (y == n && IsFull(rows[n]))
    ensures var n := |rows| - 1;
      FullRows(rows) == FullRows(rows[..n]) + (if IsFull(rows[n]) then [n] else [])
  {
    hide IsFull;
  }

  lemma {:induction false} FullRowsMeaning(rows: seq<Row>)
    ensures Ascending(FullRows(rows))
    ensures forall y :: y in FullRows(rows) <==> 0 <= y < |rows| && IsFull(rows[y])
  {
    hide IsFull, FullRows;
    if rows == [] {
      NoFullRows();
    } else {
      var n := |rows| - 1;
      FullRowsMeaning(rows[..n]);
      var before := FullRows(rows[..n]);
      forall y: nat ensures y in FullRows(rows) <==> 0 <= y < |rows| && IsFull(rows[y]) {
        FullRowsLast(rows, y);
        if y < n { assert rows[..n][y] == rows[y]; }
      }
      FullRowsLast(rows, 0);
      forall i | 0 <= i < |before| ensures before[i] < n {
        assert before[i] in before;
      }
    }
  }

  lemma NoFullRows()
    ensures FullRows([]) == []
  {
  }

  lemma {:induction false} KeptMeaning(rows: seq<Row>)
    ensures forall r :: r in Kept(rows) <==> r in rows && !IsFull(r)
  {
    if rows == [] {
    } else {
      var n := |rows| - 1;
      KeptMeaning(rows[..n]);
      assert rows == rows[..n] + [rows[n]];
    }
  }

  lemma {:induction false} NothingToClear(rows: seq<Row>)
    requires forall y :: 0 <= y < |rows| ==> !IsFull(rows[y])
    ensures FullRows(rows) == [] && Kept(rows) == rows && Compact(rows) == rows
  {
    if rows == [] {
    } else {
      var n := |rows| - 1;
      NothingToClear(rows[..n]);
      assert rows == rows[..n] + [rows[n]];
    }
  }

  lemma {:induction false} RowCountFull(r: Row)
    requires IsFull(r)
    ensures RowCount(r) == |r|
  {
    if r != [] { RowCountFull(r[1..]); }
  }

  lemma {:induction false} FilledKept(rows: seq<Row>)
    requires forall y :: 0 <= y < |rows| ==> |rows[y]| == WIDTH
    ensures Filled(Kept(rows)) == Filled(rows) - WIDTH * |FullRows(rows)|
  {
    if rows == [] {
    } else {
      var n := |rows| - 1;
      FilledKept(rows[..n]);
      assert rows == rows[..n] + [rows[n]];
      FilledAppend(rows[..n], [rows[n]]);
      FilledAppend(Kept(rows[..n]), [rows[n]]);
      assert Kept(rows[..n]) + [] == Kept(rows[..n]);
      if IsFull(rows[n]) { RowCountFull(rows[n]); }
    }
  }

  /** Clearing keeps the field well formed, leaves no full row and removes ten cells per row. */
  lemma CompactGrid(g: Grid)
    ensures IsGrid(Compact(g))
    ensures NoFullRow(Compact(g))
    ensures Filled(Compact(g)) == Filled(g) - WIDTH * |FullRows(g)|
  {
    KeptMeaning(g);
    var c, k := Compact(g), |FullRows(g)|;
    forall y | 0 <= y < HEIGHT ensures |c[y]| == WIDTH && !IsFull(c[y]) {
      if y < k {
        assert c[y] == EmptyRow() && c[y][0].None?;
      } else {
        assert c[y] == Kept(g)[y - k] && c[y] in Kept(g) && c[y] in g;
      }
    }
    FilledKept(g);
    FilledEmpty(k);
    FilledAppend(EmptyRows(k), Kept(g));
  }

  /** An ascending list of numbers from lo..hi has at most hi - lo entries. */
  lemma {:induction false} AscendingBound(ys: seq<nat>, lo: int, hi: int)
    requires lo <= hi && Ascending(ys)
    requires forall y :: y in ys ==> lo <= y < hi
    ensures |ys| <= hi - lo
  {
    if ys == [] {
    } else {
      var n := |ys| - 1;
      assert ys[n] in ys;
      forall y | y in ys[..n] ensures lo <= y < ys[n] {
        assert y in ys;
      }
      AscendingBound(ys[..n], lo, ys[n]);
    }
  }

  // ---- stamping cells --------------------------------------------------

  /** g with every listed position filled with kind. */
  function Stamp(g: Grid, cells: seq<(int, int)>, kind: PieceKind): Grid {
    seq(HEIGHT, y requires 0 <= y < HEIGHT =>
      seq(WIDTH, x requires 0 <= x < WIDTH =>
        if (x, y) in cells then Some(kind) else g[y][x]))
  }

  ghost predicate Distinct(cells: seq<(int, int)>) {
    forall i, j :: 0 <= i < j < |cells| ==> cells[i] != cells[j]
  }

  function SetCell(g: Grid, x: int, y: int, c: Cell): Grid
    requires InBounds(x, y)
  {
    g[y := g[y][x := c]]
  }

  lemma StampSnoc(g: Grid, cells: seq<(int, int)>, x: int, y: int, kind: PieceKind)
    requires InBounds(x, y)
    ensures Stamp(g, cells + [(x, y)], kind) == SetCell(Stamp(g, cells, kind), x, y, Some(kind))
  {
    var a, b := Stamp(g, cells + [(x, y)], kind), SetCell(Stamp(g, cells, kind), x, y, Some(kind));
    forall r | 0 <= r < HEIGHT ensures a[r] == b[r] {
      forall c | 0 <= c < WIDTH ensures a[r][c] == b[r][c] {
        assert (c, r) in cells + [(x, y)] <==> (c, r) in cells || (c, r) == (x, y);
      }
    }
  }

  lemma StampNothing(g: Grid, kind: PieceKind)
    ensures Stamp(g, [], kind) == g
  {
    var a := Stamp(g, [], kind);
    forall y | 0 <= y < HEIGHT ensures a[y] == g[y] {
      assert forall x :: 0 <= x < WIDTH ==> a[y][x] == g[y][x];
    }
  }

  /** Stamping k distinct free cells fills exactly k more cells. */
  lemma {:induction false} FilledStamp(g: Grid, cells: seq<(int, int)>, kind: PieceKind)
    requires Distinct(cells)
    requires forall c :: c in cells ==> Free(g, c.0, c.1)
    ensures Filled(Stamp(g, cells, kind)) == Filled(g) + |cells|
  {
    if cells == [] {
      StampNothing(g, kind);
    } else {
      var n := |cells| - 1;
      var (x, y) := cells[n];
      assert cells[n] in cells;
      FilledStamp(g, cells[..n], kind);
      var before := Stamp(g, cells[..n], kind);
      assert cells == cells[..n] + [(x, y)];
      StampSnoc(g, cells[..n], x, y, kind);
      assert (x, y) !in cells[..n];
      RowCountFill(before[y], x, kind);
      FilledReplace(before, y, before[y][x := Some(kind)]);
    }
  }
}
