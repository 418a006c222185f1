/**
  The frame buffer and the renderer that changes it in place
  (crates/tetris-terminal/src/term/fb.rs, renderer.rs), proved to send the code of module Rendering.
*/
module Renderers {
  import opened Types
  import opened Rendering

  // ---- indexing --------------------------------------------------------

  /** Cells in n rows. */
  function Lines(n: nat, width: nat): nat {
    n * width
  }

  function Area(width: nat, height: nat): nat {
    Lines(height, width)
  }

  function Index(width: nat, x: nat, y: nat): nat {
    Lines(y, width) + x
  }

  lemma LinesSplit(a: nat, b: nat, width: nat)
    ensures Lines(a + b, width) == Lines(a, width) + Lines(b, width)
    ensures b > 0 ==> Lines(b, width) >= width
    ensures Lines(1, width) == width
  {
  }

  lemma RowFits(width: nat, height: nat, y: nat)
    requires y < height
    ensures Index(width, 0, y) + width == Index(width, 0, y + 1) <= Area(width, height)
  {
  }

  /** No place of another row shares an index with row y. */
  lemma RowsApart(width: nat, x: nat, y: nat, r: nat)
    requires x < width && r != y
    ensures Index(width, x, y) < Index(width, 0, r) || Index(width, 0, r) + width <= Index(width, x, y)
  {
    hide Lines;
    if y < r { LinesSplit(y, r - y, width); } else { LinesSplit(r, y - r, width); }
  }

  function RowAt(cells: seq<Cell>, width: nat, height: nat, y: nat): (row: seq<Cell>)
    requires |cells| == Area(width, height) && y < height
    ensures |row| == width
  {
    RowFits(width, height, y);
    cells[Index(width, 0, y)..Index(width, 0, y) + width]
  }

  ghost function FrameOf(cells: seq<Cell>, width: nat, height: nat): (f: Frame)
    requires |cells| == Area(width, height)
    ensures FrameOk(f) && f.width == width && f.height == height
    ensures forall y :: 0 <= y < height ==> f.rows[y] == RowAt(cells, width, height, y)
  {
    Frame(width, height, seq(height, y requires 0 <= y < height => RowAt(cells, width, height, y)))
  }

  lemma CellAt(cells: seq<Cell>, width: nat, height: nat, x: nat, y: nat)
    requires |cells| == Area(width, height) && x < width && y < height
    ensures Index(width, x, y) < |cells| && cells[Index(width, x, y)] == FrameOf(cells, width, height).rows[y][x]
  {
    RowFits(width, height, y);
  }

  function Put(f: Frame, x: nat, y: nat, cell: Cell): Frame
    requires FrameOk(f)
  {
    if x < f.width && y < f.height then f.(rows := f.rows[y := f.rows[y][x := cell]]) else f
  }

  lemma PutAt(cells: seq<Cell>, width: nat, height: nat, x: nat, y: nat, cell: Cell)
    requires |cells| == Area(width, height) && x < width && y < height
    ensures Index(width, x, y) < |cells|
    ensures FrameOf(cells[Index(width, x, y) := cell], width, height) == Put(FrameOf(cells, width, height), x, y, cell)
  {
    RowFits(width, height, y);
    var i := Index(width, x, y);
    var f, g := FrameOf(cells[i := cell], width, height), Put(FrameOf(cells, width, height), x, y, cell);
    hide Index, Area, Lines;
    forall r | 0 <= r < height
      ensures f.rows[r] == g.rows[r]
    {
      RowFits(width, height, r);
      if r != y { RowsApart(width, x, y, r); } else { SameRow(width, x, y); }
    }
    assert f.rows == g.rows;
  }

  lemma SameRow(width: nat, x: nat, y: nat)
    ensures Index(width, x, y) == Index(width, 0, y) + x
  {
  }

  function Uniform(n: nat, cell: Cell): (s: seq<Cell>)
    ensures |s| == n && forall i :: 0 <= i < n ==> s[i] == cell
  {
    seq(n, _ => cell)
  }

  /** A frame of one cell throughout. */
  ghost predicate Plain(f: Frame, cell: Cell)
    requires FrameOk(f)
  {
    forall x, y :: 0 <= x < f.width && 0 <= y < f.height ==> f.rows[y][x] == cell
  }

  lemma UniformPlain(width: nat, height: nat, cell: Cell)
    ensures Plain(FrameOf(Uniform(Area(width, height), cell), width, height), cell)
  {
    hide Area, Index;
    forall y | 0 <= y < height
      ensures RowAt(Uniform(Area(width, height), cell), width, height, y) == Uniform(width, cell)
    {
      RowFits(width, height, y);
    }
  }

  class FrameBuffer {
    var width: nat
    var height: nat
    var cells: seq<Cell>

    ghost predicate Valid()
      reads this
    {
      |cells| == Area(width, height)
    }

    ghost function Abs(): (f: Frame)
      requires Valid()
      reads this
      ensures FrameOk(f) && f.width == width && f.height == height
    {
      FrameOf(cells, width, height)
    }

    constructor (width: nat, height: nat)
      ensures Valid() && Abs().width == width && Abs().height == height && Plain(Abs(), DEFAULT_CELL)
    {
      this.width, this.height := width, height;
      cells := Uniform(Area(width, height), DEFAULT_CELL);
      new;
      UniformPlain(width, height, DEFAULT_CELL);
    }

    /** Keeps the flat prefix of the cells, wherever the new width puts them. */
    method Resize(width: nat, height: nat)
      requires Valid()
      modifies this
      ensures Valid() && this.width == width && this.height == height
      ensures old(this.width) == width && old(this.height) == height ==> Abs() == old(Abs())
      ensures forall i :: 0 <= i < |cells| ==> cells[i] == if i < |old(cells)| then old(cells)[i] else DEFAULT_CELL
    {
      hide Lines;
      if this.width == width && this.height == height { return; }
      this.width, this.height := width, height;
      var len := Area(width, height);
      cells := if len <= |cells| then cells[..len] else cells + Uniform(len - |cells|, DEFAULT_CELL);
    }

    method Get(x: nat, y: nat) returns (cell: Option<Cell>)
      requires Valid()
      ensures cell == if x < width && y < height then Some(Abs().rows[y][x]) else None
    {
      if x >= width || y >= height { return None; }
      CellAt(cells, width, height, x, y);
      return Some(cells[Index(width, x, y)]);
    }

    method Set(x: nat, y: nat, cell: Cell)
      requires Valid()
      modifies this`cells
      ensures Valid() && Abs() == Put(old(Abs()), x, y, cell)
    {
      hide Index, Area, FrameOf;
      if x < width && y < height {
        PutAt(cells, width, height, x, y, cell);
        cells := cells[Index(width, x, y) := cell];
      }
    }

    method Clear(cell: Cell)
      requires Valid()
      modifies this`cells
      ensures Valid() && Plain(Abs(), cell) && Abs().width == old(Abs()).width && Abs().height == old(Abs()).height
    {
      hide Area, FrameOf, Plain;
      UniformPlain(width, height, cell);
      cells := Uniform(|cells|, cell);
    }

    /** Exchanges the two buffers' contents. */
    method SwapWith(other: FrameBuffer)
      requires Valid() && other.Valid() && other != this
      modifies this, other
      ensures Valid() && other.Valid() && Abs() == old(other.Abs()) && other.Abs() == old(Abs())
    {
      hide FrameOf, Area;
      width, height, cells, other.width, other.height, other.cells :=
        other.width, other.height, other.cells, width, height, cells;
    }

    /** A cell inside the frame. */
    method CellOf(x: nat, y: nat) returns (cell: Cell)
      requires Valid() && x < width && y < height
      ensures cell == Abs().rows[y][x]
    {
      var found := Get(x, y);
      cell := found.value;
    }
  }

  // ---- encoders --------------------------------------------------------

  lemma {:induction false} CodeSnoc(style: Option<CellStyle>, cells: seq<Cell>, c: Cell)
    ensures CellsCode(style, cells + [c]) == CellsCode(style, cells) + CellCode(StyleAfter(style, cells), c)
    decreases |cells|
  {
    hide CellCode;
    if cells == [] {
      assert [] + [c] == [c] && [c][1..] == [];
    } else {
      assert (cells + [c])[0] == cells[0] && (cells + [c])[1..] == cells[1..] + [c];
      CodeSnoc(Some(cells[0].style), cells[1..], c);
      assert StyleAfter(Some(cells[0].style), cells[1..]) == StyleAfter(style, cells);
    }
  }

  method ApplyStyleInto(out: seq<Command>, style: CellStyle) returns (more: seq<Command>)
    ensures more == out + StyleCode(style)
  {
    more := out + [SetForeground(style.fg)];
    more := more + [SetBackground(style.bg)];
    more := more + [AttributeReset];
    if style.bold { more := more + [Bold]; }
    if style.dim { more := more + [Dim]; }
  }

  /** Prints len cells of a row, sending a style only where it differs from the one sent before. */
  method EncodeCells(fb: FrameBuffer, x: nat, y: nat, len: nat, style: Option<CellStyle>, out: seq<Command>)
    returns (more: seq<Command>, after: Option<CellStyle>)
    requires fb.Valid() && y < fb.height && x + len <= fb.width
    ensures var cells := fb.Abs().rows[y][x..x + len];
      more == out + CellsCode(style, cells) && after == StyleAfter(style, cells)
  {
    hide FrameBuffer.Abs, StyleCode;
    ghost var cells := fb.Abs().rows[y][x..x + len];
    more, after := out, style;
    var dx := 0;
    assert cells[..0] == [];
    while dx < len
      invariant dx <= len
      invariant more == out + CellsCode(style, cells[..dx]) && after == StyleAfter(style, cells[..dx])
    {
      var cell := fb.CellOf(x + dx, y);
      CodeSnoc(style, cells[..dx], cell);
      assert cells[..dx + 1] == cells[..dx] + [cell];
      Regroup(out, CellsCode(style, cells[..dx]), CellCode(after, cell));
      more := EncodeCell(more, after, cell);
      after := Some(cell.style);
      dx := dx + 1;
    }
    assert cells[..len] == cells;
  }

  method EncodeCell(out: seq<Command>, style: Option<CellStyle>, cell: Cell) returns (more: seq<Command>)
    ensures more == out + CellCode(style, cell)
  {
    more := out;
    if style != Some(cell.style) { more := ApplyStyleInto(more, cell.style); }
    more := more + [Print(cell.ch)];
  }

  method EncodeFullInto(fb: FrameBuffer, out: seq<Command>) returns (more: seq<Command>)
    requires fb.Valid()
    ensures more == out + FullCode(fb.Abs())
  {
    hide FrameBuffer.Abs, CellsCode;
    ghost var f := fb.Abs();
    more := out + [Command.Clear] + [MoveTo(0, 0)];
    ghost var head := more;
    var style: Option<CellStyle> := None;
    var y := 0;
    while y < fb.height
      invariant y <= fb.height
      invariant more + RowsCode(f, y, style) == head + RowsCode(f, 0, None)
    {
      ghost var before, was := more, style;
      assert f.rows[y][0..fb.width] == f.rows[y];
      more, style := EncodeCells(fb, 0, y, fb.width, style, more);
      var newRow := if y + 1 < fb.height then [NewRow] else [];
      more := more + newRow;
      RowGroup(before, CellsCode(was, f.rows[y]), newRow, RowsCode(f, y + 1, style));
      y := y + 1;
    }
    assert more + [] == more;
    more := more + [ResetColor];
    more := more + [AttributeReset];
    FullGroup(out, RowsCode(f, 0, None));
  }

  lemma RowGroup(a: seq<Command>, b: seq<Command>, c: seq<Command>, d: seq<Command>)
    ensures a + b + c + d == a + (b + c + d)
  {
  }

  lemma FullGroup(out: seq<Command>, rows: seq<Command>)
    ensures out + [Command.Clear] + [MoveTo(0, 0)] + rows + [ResetColor] + [AttributeReset]
         == out + ([Command.Clear, MoveTo(0, 0)] + rows + TAIL)
  {
  }

  method ChangedRuns(prev: FrameBuffer, next: FrameBuffer) returns (runs: seq<Run>)
    requires prev.Valid() && next.Valid()
    ensures runs == Runs(prev.Abs(), next.Abs())
  {
    if prev.width != next.width || prev.height != next.height {
      runs := WholeRowRuns(next.width, next.height, next.Abs());
    } else {
      runs := SameSizeRuns(prev, next);
    }
  }

  method WholeRowRuns(width: nat, height: nat, ghost f: Frame) returns (runs: seq<Run>)
    requires f.width == width && f.height == height
    ensures runs == WholeRows(f, 0)
  {
    runs := [];
    for y := 0 to height
      invariant runs + WholeRows(f, y) == WholeRows(f, 0)
    {
      Regroup(runs, [Run(0, y, width)], WholeRows(f, y + 1));
      runs := runs + [Run(0, y, width)];
    }
    assert runs + [] == runs;
  }

  /** The scan of one row. */
  method RowRuns(prev: FrameBuffer, next: FrameBuffer, y: nat) returns (runs: seq<Run>)
    requires prev.Valid() && next.Valid() && prev.width == next.width && prev.height == next.height && y < next.height
    ensures RunsFrom(prev.Abs(), next.Abs(), 0, y) == runs + RunsFrom(prev.Abs(), next.Abs(), 0, y + 1)
  {
    hide FrameBuffer.Abs, RunsFrom, RunEnd, ChangedFrom;
    ghost var p, n := prev.Abs(), next.Abs();
    runs := [];
    assert [] + RunsFrom(p, n, 0, y) == RunsFrom(p, n, 0, y);
    var x := 0;
    while x < next.width
      invariant x <= next.width
      invariant RunsFrom(p, n, 0, y) == runs + RunsFrom(p, n, x, y)
    {
      RunsStep(p, n, x, y);
      var a := prev.CellOf(x, y);
      var b := next.CellOf(x, y);
      if a == b {
        x := x + 1;
      } else {
        var end := FindRunEnd(prev, next, x + 1, y);
        Regroup(runs, [Run(x, y, end - x)], RunsFrom(p, n, end, y));
        runs := runs + [Run(x, y, end - x)];
        x := end;
      }
    }
    RunsStep(p, n, x, y);
  }

  method SameSizeRuns(prev: FrameBuffer, next: FrameBuffer) returns (runs: seq<Run>)
    requires prev.Valid() && next.Valid() && prev.width == next.width && prev.height == next.height
    ensures runs == RunsFrom(prev.Abs(), next.Abs(), 0, 0)
  {
    hide FrameBuffer.Abs, RunsFrom, ChangedFrom;
    ghost var p, n := prev.Abs(), next.Abs();
    runs := [];
    assert [] + RunsFrom(p, n, 0, 0) == RunsFrom(p, n, 0, 0);
    var y := 0;
    while y < next.height
      invariant y <= next.height
      invariant RunsFrom(p, n, 0, 0) == runs + RunsFrom(p, n, 0, y)
    {
      var row := RowRuns(prev, next, y);
      Regroup(runs, row, RunsFrom(p, n, 0, y + 1));
      runs := runs + row;
      y := y + 1;
    }
    RunsDone(p, n, 0, y);
    assert runs + [] == runs;
  }

  method FindRunEnd(prev: FrameBuffer, next: FrameBuffer, from: nat, y: nat) returns (x: nat)
    requires prev.Valid() && next.Valid() && prev.width == next.width && prev.height == next.height
    requires from <= next.width && y < next.height
    ensures x == RunEnd(prev.Abs(), next.Abs(), from, y)
  {
    hide FrameBuffer.Abs;
    ghost var p, n := prev.Abs(), next.Abs();
    x := from;
    while x < next.width
      invariant x <= next.width
      invariant RunEnd(p, n, x, y) == RunEnd(p, n, from, y)
    {
      var a := prev.CellOf(x, y);
      var b := next.CellOf(x, y);
      if a == b { return; }
      x := x + 1;
    }
  }

  method EncodeDiffInto(prev: FrameBuffer, next: FrameBuffer, out: seq<Command>) returns (more: seq<Command>)
    requires prev.Valid() && next.Valid()
    ensures more == out + DiffCode(prev.Abs(), next.Abs())
  {
    hide FrameBuffer.Abs, CellsCode, Runs, StyleAfter;
    ghost var n := next.Abs();
    var runs := ChangedRuns(prev, next);
    more := out;
    var style: Option<CellStyle> := None;
    var i := 0;
    assert runs[0..] == runs;
    while i < |runs|
      invariant i <= |runs|
      invariant more + RunsCode(n, runs[i..], style) == out + RunsCode(n, runs, None)
      invariant StyleOver(n, runs[i..], style) == StyleOver(n, runs, None)
    {
      ghost var before, was := more, style;
      var r := runs[i];
      assert Inside(n, r) && runs[i..][0] == r && runs[i..][1..] == runs[i + 1..];
      more := more + [MoveTo(r.x, r.y)];
      more, style := EncodeCells(next, r.x, r.y, r.len, style, more);
      Regroup(before, [MoveTo(r.x, r.y)], CellsCode(was, RunCells(n, r)));
      Regroup(before, RunCode(n, r, was), RunsCode(n, runs[i + 1..], style));
      i := i + 1;
    }
    NoCodeLeft(n, runs[i..], style, more);
    if style.Some? {
      more := more + [ResetColor];
      more := more + [AttributeReset];
    }
    Regroup(out, RunsCode(n, runs, None), if style.Some? then TAIL else []);
  }

  lemma NoCodeLeft(n: Frame, runs: seq<Run>, style: Option<CellStyle>, code: seq<Command>)
    requires FrameOk(n) && AllInside(n, runs) && runs == []
    ensures code + RunsCode(n, runs, style) == code && StyleOver(n, runs, style) == style
  {
  }

  class TerminalRenderer {
    /** Everything written so far, and how often the writer was flushed. */
    var written: seq<Command>
    var flushes: nat
    var last: FrameBuffer?
    var buf: seq<Command>

    /** The terminal at the other end, which runs everything flushed. */
    ghost var terminal: Terminal

    ghost predicate Valid()
      reads this, last
    {
      TerminalOk(terminal) && (last != null ==> last.Valid())
    }

    /** The frame the renderer believes to be on the screen. */
    ghost function LastFrame(): (f: Option<Frame>)
      requires Valid()
      reads this, last
      ensures f.Some? ==> FrameOk(f.value)
    {
      if last == null then None else Some(last.Abs())
    }

    /** The screen shows the frame the renderer believes to be on it, if any. */
    ghost predicate OnScreen()
      requires Valid()
      reads this, last
    {
      LastFrame().Some? ==> Shows(terminal, LastFrame().value)
    }

    constructor (ghost terminal: Terminal)
      requires TerminalOk(terminal)
      ensures Valid() && LastFrame() == None && written == [] && flushes == 0
      ensures this.terminal == terminal && OnScreen()
    {
      written, flushes, last, buf := [], 0, null, [];
      this.terminal := terminal;
    }

    method Invalidate()
      requires Valid()
      modifies this`last
      ensures Valid() && LastFrame() == None && OnScreen()
    {
      last := null;
    }

    /** The terminal changes, in size or contents, and the renderer is told. */
    method TerminalChanged(ghost t: Terminal)
      requires Valid() && TerminalOk(t)
      modifies this`last, this`terminal
      ensures Valid() && LastFrame() == None && terminal == t && OnScreen()
    {
      terminal := t;
      Invalidate();
    }

    method FlushBuf()
      requires TerminalOk(terminal)
      modifies this`written, this`flushes, this`terminal
      ensures written == old(written) + buf && flushes == old(flushes) + 1
      ensures terminal == Exec(old(terminal), buf)
    {
      written, flushes := written + buf, flushes + 1;
      terminal := Exec(terminal, buf);
    }

    /**
      Draws the frame and keeps its cells as the last drawn, leaving the caller the cells drawn
      before in a buffer of the same size. Nothing is flushed when there is nothing to send.
    */
    method DrawSwap(fb: FrameBuffer)
      requires Valid() && fb.Valid() && fb != last
      modifies this, fb, last
      ensures Valid() && fb.Valid() && last != null && last != fb && (last == old(last) || fresh(last))
      ensures written == old(written) + DrawCode(old(LastFrame()), old(fb.Abs()))
      ensures flushes == old(flushes) + (if DrawCode(old(LastFrame()), old(fb.Abs())) == [] then 0 else 1)
      ensures LastFrame() == Some(old(fb.Abs()))
      ensures SameSize(fb.Abs(), old(fb.Abs()))
      ensures old(LastFrame()).Some? && SameSize(old(LastFrame()).value, old(fb.Abs())) ==>
                fb.Abs() == old(LastFrame()).value
      ensures terminal == Exec(old(terminal), DrawCode(old(LastFrame()), old(fb.Abs())))
      ensures old(OnScreen()) && fb.width == terminal.width && fb.height == terminal.height ==>
                OnScreen() && Shows(terminal, old(fb.Abs()))
    {
      hide FrameOf, FullCode, DiffCode, Area, Exec, Shows, TerminalOk;
      DrawShows(terminal, LastFrame(), fb.Abs());
      ExecNone(terminal);
      var invalidated := last == null;
      var prev := last;
      if prev == null { prev := new FrameBuffer(fb.width, fb.height); }
      buf := [];
      if invalidated || prev.width != fb.width || prev.height != fb.height {
        buf := EncodeFullInto(fb, buf);
        FullSends(fb.Abs());
        FlushBuf();
        prev.Resize(fb.width, fb.height);
      } else {
        buf := EncodeDiffInto(prev, fb, buf);
        assert buf == DiffCode(prev.Abs(), fb.Abs());
        if buf != [] { FlushBuf(); }
      }
      prev.SwapWith(fb);
      last := prev;
    }
  }

  lemma FullSends(f: Frame)
    requires FrameOk(f)
    ensures FullCode(f) != [] && [] + FullCode(f) == FullCode(f)
  {
  }

  /** What DrawSwap sends takes a screen showing the last frame, or any screen after none, to the new one. */
  lemma DrawShows(t: Terminal, last: Option<Frame>, f: Frame)
    requires TerminalOk(t) && FrameOk(f) && (last.Some? ==> FrameOk(last.value))
    ensures (last.Some? ==> Shows(t, last.value)) && f.width == t.width && f.height == t.height ==>
              Shows(Exec(t, DrawCode(last, f)), f)
  {
    hide Exec, DrawCode, Shows;
    if (last.Some? ==> Shows(t, last.value)) && f.width == t.width && f.height == t.height {
      AppliedOk(Display(t, last), Draw(f));
    }
  }
}
