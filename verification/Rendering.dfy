/**
  The frame encoders (crates/tetris-terminal/src/term/renderer.rs, fb.rs) as a compiler from frames
  to terminal commands, and a small terminal that runs the commands. Line wrap is off, as the
  renderer leaves it on entry, and every glyph is one column wide.
*/
module Rendering {
  import opened Types

  // ---- frames ----------------------------------------------------------

  datatype Rgb = Rgb(r: nat, g: nat, b: nat)

  datatype CellStyle = CellStyle(fg: Rgb, bg: Rgb, bold: bool, dim: bool)

  datatype Cell = Cell(ch: char, style: CellStyle)

  const DEFAULT_STYLE := CellStyle(Rgb(220, 220, 220), Rgb(0, 0, 0), false, false)

  const DEFAULT_CELL := Cell(' ', DEFAULT_STYLE)

  datatype Frame = Frame(width: nat, height: nat, rows: seq<seq<Cell>>)

  ghost predicate FrameOk(f: Frame) {
    |f.rows| == f.height && forall y :: 0 <= y < f.height ==> |f.rows[y]| == f.width
  }

  predicate SameSize(f: Frame, g: Frame) {
    f.width == g.width && f.height == g.height
  }

  // ---- terminal --------------------------------------------------------

  datatype Command =
    | Clear
    | MoveTo(x: nat, y: nat)
    | SetForeground(color: Rgb)
    | SetBackground(color: Rgb)
    | AttributeReset
    | Bold
    | Dim
    | ResetColor
    | Print(ch: char)
    | NewRow

  /** Rendition of the cells printed next; no colour stands for the terminal's own. */
  datatype Pen = Pen(fg: Option<Rgb>, bg: Option<Rgb>, bold: bool, dim: bool)

  const PLAIN := Pen(None, None, false, false)

  datatype Shown = Shown(ch: char, pen: Pen)

  /**
    Screen contents row by row, the cursor, the pen, and the places printed to so far. Terminals differ in
    whether colours survive an attribute reset; usually they do not.
  */
  datatype Terminal = Terminal(
    width: nat,
    height: nat,
    keepsColours: bool,
    screen: seq<seq<Shown>>,
    col: nat,
    row: nat,
    pen: Pen,
    inked: seq<(nat, nat)>)

  ghost predicate TerminalOk(t: Terminal) {
    && |t.screen| == t.height
    && (forall y :: 0 <= y < t.height ==> |t.screen[y]| == t.width)
    && t.width > 0 && t.height > 0 && t.col < t.width && t.row < t.height
  }

  function BlankRow(width: nat, pen: Pen): (s: seq<Shown>)
    ensures |s| == width && forall x :: 0 <= x < width ==> s[x] == Shown(' ', pen)
  {
    seq(width, _ => Shown(' ', pen))
  }

  function BlankScreen(width: nat, height: nat, pen: Pen): (s: seq<seq<Shown>>)
    ensures |s| == height && forall y :: 0 <= y < height ==> s[y] == BlankRow(width, pen)
  {
    seq(height, _ => BlankRow(width, pen))
  }

  function Capped(n: nat, limit: nat): nat {
    if n < limit then n else if limit == 0 then 0 else limit - 1
  }

  /** One command: clearing and scrolling fill with the pen's rendition, printing stops at the last column. */
  function Do(t: Terminal, c: Command): (u: Terminal)
    requires TerminalOk(t)
    ensures TerminalOk(u) && u.width == t.width && u.height == t.height && u.keepsColours == t.keepsColours
  {
    match c
    case Clear => t.(screen := BlankScreen(t.width, t.height, t.pen))
    case MoveTo(x, y) => t.(col := Capped(x, t.width), row := Capped(y, t.height))
    case SetForeground(color) => t.(pen := t.pen.(fg := Some(color)))
    case SetBackground(color) => t.(pen := t.pen.(bg := Some(color)))
    case AttributeReset => t.(pen := if t.keepsColours then t.pen.(bold := false, dim := false) else PLAIN)
    case Bold => t.(pen := t.pen.(bold := true))
    case Dim => t.(pen := t.pen.(dim := true))
    case ResetColor => t.(pen := t.pen.(fg := None, bg := None))
    case Print(ch) =>
      t.(screen := t.screen[t.row := t.screen[t.row][t.col := Shown(ch, t.pen)]],
         inked := t.inked + [(t.col, t.row)],
         col := if t.col + 1 < t.width then t.col + 1 else t.col)
    case NewRow =>
      if t.row + 1 < t.height then t.(col := 0, row := t.row + 1)
      else t.(col := 0, screen := t.screen[1..] + [BlankRow(t.width, t.pen)])
  }

  function Exec(t: Terminal, code: seq<Command>): (u: Terminal)
    requires TerminalOk(t)
    ensures TerminalOk(u) && u.width == t.width && u.height == t.height && u.keepsColours == t.keepsColours
    decreases |code|
  {
    if code == [] then t else Exec(Do(t, code[0]), code[1..])
  }

  lemma {:induction false} ExecAppend(t: Terminal, a: seq<Command>, b: seq<Command>)
    requires TerminalOk(t)
    ensures Exec(t, a + b) == Exec(Exec(t, a), b)
    decreases |a|
  {
    hide Do;
    if a == [] {
      assert a + b == b;
    } else {
      assert (a + b)[1..] == a[1..] + b;
      ExecAppend(Do(t, a[0]), a[1..], b);
    }
  }

  // ---- encoders --------------------------------------------------------

  function StyleCode(s: CellStyle): seq<Command> {
    [SetForeground(s.fg), SetBackground(s.bg), AttributeReset]
    + (if s.bold then [Bold] else []) + (if s.dim then [Dim] else [])
  }

  /** The pen a style leaves behind: its colours may not survive the attribute reset sent after them. */
  function PenOf(s: CellStyle, keepsColours: bool): Pen {
    if keepsColours then Pen(Some(s.fg), Some(s.bg), s.bold, s.dim) else Pen(None, None, s.bold, s.dim)
  }

  function CellCode(style: Option<CellStyle>, c: Cell): seq<Command> {
    (if style == Some(c.style) then [] else StyleCode(c.style)) + [Print(c.ch)]
  }

  function CellsCode(style: Option<CellStyle>, cells: seq<Cell>): seq<Command>
    decreases |cells|
  {
    if cells == [] then [] else CellCode(style, cells[0]) + CellsCode(Some(cells[0].style), cells[1..])
  }

  function StyleAfter(style: Option<CellStyle>, cells: seq<Cell>): Option<CellStyle> {
    if cells == [] then style else Some(cells[|cells| - 1].style)
  }

  const TAIL := [ResetColor, AttributeReset]

  /** Rows of a full redraw from row y on. */
  function RowsCode(f: Frame, y: nat, style: Option<CellStyle>): seq<Command>
    requires FrameOk(f)
    decreases f.height - y
  {
    if y >= f.height then []
    else CellsCode(style, f.rows[y]) + (if y + 1 < f.height then [NewRow] else [])
         + RowsCode(f, y + 1, StyleAfter(style, f.rows[y]))
  }

  function FullCode(f: Frame): seq<Command>
    requires FrameOk(f)
  {
    [Clear, MoveTo(0, 0)] + RowsCode(f, 0, None) + TAIL
  }

  /** A stretch of cells of one row. */
  datatype Run = Run(x: nat, y: nat, len: nat)

  predicate Inside(next: Frame, r: Run) {
    r.y < next.height && r.x + r.len <= next.width
  }

  predicate AllInside(next: Frame, runs: seq<Run>) {
    forall i :: 0 <= i < |runs| ==> Inside(next, runs[i])
  }

  predicate Changed(prev: Frame, next: Frame, x: nat, y: nat)
    requires FrameOk(prev) && FrameOk(next) && SameSize(prev, next) && x < next.width && y < next.height
  {
    prev.rows[y][x] != next.rows[y][x]
  }

  /** First unchanged column of row y at or after x. */
  function RunEnd(prev: Frame, next: Frame, x: nat, y: nat): (e: nat)
    requires FrameOk(prev) && FrameOk(next) && SameSize(prev, next) && x <= next.width && y < next.height
    ensures x <= e <= next.width
    ensures e < next.width ==> !Changed(prev, next, e, y)
    ensures forall k :: x <= k < e ==> Changed(prev, next, k, y)
    decreases next.width - x
  {
    if x == next.width || !Changed(prev, next, x, y) then x else RunEnd(prev, next, x + 1, y)
  }

  /** Changed runs from column x of row y on, row by row. */
  function RunsFrom(prev: Frame, next: Frame, x: nat, y: nat): (runs: seq<Run>)
    requires FrameOk(prev) && FrameOk(next) && SameSize(prev, next) && x <= next.width
    ensures AllInside(next, runs)
    decreases next.height - y, next.width - x
  {
    if y >= next.height then []
    else if x == next.width then RunsFrom(prev, next, 0, y + 1)
    else if !Changed(prev, next, x, y) then RunsFrom(prev, next, x + 1, y)
    else
      var e := RunEnd(prev, next, x + 1, y);
      [Run(x, y, e - x)] + RunsFrom(prev, next, e, y)
  }

  /** Every row whole, for a frame of another size. */
  function WholeRows(next: Frame, y: nat): (runs: seq<Run>)
    ensures AllInside(next, runs)
    decreases next.height - y
  {
    if y >= next.height then [] else [Run(0, y, next.width)] + WholeRows(next, y + 1)
  }

  function Runs(prev: Frame, next: Frame): (runs: seq<Run>)
    requires FrameOk(prev) && FrameOk(next)
    ensures AllInside(next, runs)
  {
    if SameSize(prev, next) then RunsFrom(prev, next, 0, 0) else WholeRows(next, 0)
  }

  function RunCells(next: Frame, r: Run): (cells: seq<Cell>)
    requires FrameOk(next) && Inside(next, r)
    ensures |cells| == r.len
  {
    next.rows[r.y][r.x..r.x + r.len]
  }

  function RunCode(next: Frame, r: Run, style: Option<CellStyle>): seq<Command>
    requires FrameOk(next) && Inside(next, r)
  {
    [MoveTo(r.x, r.y)] + CellsCode(style, RunCells(next, r))
  }

  function RunsCode(next: Frame, runs: seq<Run>, style: Option<CellStyle>): seq<Command>
    requires FrameOk(next) && AllInside(next, runs)
  {
    if runs == [] then []
    else
      RunCode(next, runs[0], style) + RunsCode(next, runs[1..], StyleAfter(style, RunCells(next, runs[0])))
  }

  function StyleOver(next: Frame, runs: seq<Run>, style: Option<CellStyle>): Option<CellStyle>
    requires FrameOk(next) && AllInside(next, runs)
  {
    if runs == [] then style else StyleOver(next, runs[1..], StyleAfter(style, RunCells(next, runs[0])))
  }

  function DiffCode(prev: Frame, next: Frame): seq<Command>
    requires FrameOk(prev) && FrameOk(next)
  {
    RunsCode(next, Runs(prev, next), None) + (if StyleOver(next, Runs(prev, next), None).Some? then TAIL else [])
  }

  // ---- the runs are the maximal changed stretches ----------------------

  /** All cells of the run changed, and neither neighbour in its row did. */
  predicate Maximal(prev: Frame, next: Frame, r: Run)
    requires FrameOk(prev) && FrameOk(next) && SameSize(prev, next)
  {
    && Inside(next, r) && r.len > 0
    && (forall k :: r.x <= k < r.x + r.len ==> Changed(prev, next, k, r.y))
    && (r.x > 0 ==> !Changed(prev, next, r.x - 1, r.y))
    && (r.x + r.len < next.width ==> !Changed(prev, next, r.x + r.len, r.y))
  }

  /** The run lies at or after column x of row y. */
  predicate NotBefore(r: Run, x: nat, y: nat) {
    y < r.y || (y == r.y && x <= r.x)
  }

  /**
    The runs are maximal changed stretches at or after column x of row y, in reading order, with an
    unchanged cell or a row boundary between any two.
  */
  ghost predicate Exact(prev: Frame, next: Frame, runs: seq<Run>, x: nat, y: nat)
    requires FrameOk(prev) && FrameOk(next) && SameSize(prev, next)
  {
    && (forall i :: 0 <= i < |runs| ==> Maximal(prev, next, runs[i]) && NotBefore(runs[i], x, y))
    && (forall i, j :: 0 <= i < j < |runs| ==> NotBefore(runs[j], runs[i].x + runs[i].len + 1, runs[i].y))
  }

  lemma ExactCons(prev: Frame, next: Frame, r: Run, rest: seq<Run>)
    requires FrameOk(prev) && FrameOk(next) && SameSize(prev, next)
    requires Maximal(prev, next, r) && Exact(prev, next, rest, r.x + r.len + 1, r.y)
    ensures Exact(prev, next, [r] + rest, r.x, r.y)
  {
  }

  lemma ExactEarlier(prev: Frame, next: Frame, runs: seq<Run>, x: nat, y: nat, x': nat, y': nat)
    requires FrameOk(prev) && FrameOk(next) && SameSize(prev, next) && Exact(prev, next, runs, x, y)
    requires y' < y || (y' == y && x' <= x)
    ensures Exact(prev, next, runs, x', y')
  {
    hide Maximal;
  }

  /** The run that starts at a changed cell after an unchanged one, or at the row's start, is maximal. */
  lemma RunIsMaximal(prev: Frame, next: Frame, x: nat, y: nat)
    requires FrameOk(prev) && FrameOk(next) && SameSize(prev, next) && x < next.width && y < next.height
    requires Changed(prev, next, x, y) && (x > 0 ==> !Changed(prev, next, x - 1, y))
    ensures Maximal(prev, next, Run(x, y, RunEnd(prev, next, x + 1, y) - x))
  {
    hide Changed;
  }

  /** The run just found, before what follows it. */
  lemma RunFirst(prev: Frame, next: Frame, x: nat, y: nat, rest: seq<Run>)
    requires FrameOk(prev) && FrameOk(next) && SameSize(prev, next) && x < next.width && y < next.height
    requires Changed(prev, next, x, y) && (x > 0 ==> !Changed(prev, next, x - 1, y))
    requires Exact(prev, next, rest, RunEnd(prev, next, x + 1, y) + 1, y)
    ensures Exact(prev, next, [Run(x, y, RunEnd(prev, next, x + 1, y) - x)] + rest, x, y)
  {
    hide Changed, Exact, Maximal;
    RunIsMaximal(prev, next, x, y);
    ExactCons(prev, next, Run(x, y, RunEnd(prev, next, x + 1, y) - x), rest);
  }

  /** What follows a run: the unchanged cell after it is skipped, or the row is done. */
  lemma {:induction false} RestExact(prev: Frame, next: Frame, e: nat, y: nat)
    requires FrameOk(prev) && FrameOk(next) && SameSize(prev, next) && e <= next.width && y < next.height
    requires e < next.width ==> !Changed(prev, next, e, y)
    requires e > 0
    ensures Exact(prev, next, RunsFrom(prev, next, e, y), e + 1, y)
    decreases next.height - y, next.width - e, 0
  {
    hide Changed, Exact, RunEnd, RunsFrom;
    AfterRun(prev, next, e, y);
    if e < next.width {
      RunsFromExact(prev, next, e + 1, y);
    } else {
      RunsFromExact(prev, next, 0, y + 1);
      ExactEarlier(prev, next, RunsFrom(prev, next, 0, y + 1), 0, y + 1, e + 1, y);
    }
  }

  lemma {:induction false} RunsFromExact(prev: Frame, next: Frame, x: nat, y: nat)
    requires FrameOk(prev) && FrameOk(next) && SameSize(prev, next) && x <= next.width
    requires 0 < x < next.width && y < next.height ==> !Changed(prev, next, x - 1, y)
    ensures Exact(prev, next, RunsFrom(prev, next, x, y), x, y)
    decreases next.height - y, next.width - x, 1
  {
    hide Changed, Exact, RunsFrom, ChangedFrom;
    if y >= next.height {
      RunsDone(prev, next, x, y);
      NoRuns(prev, next, x, y);
    } else {
      RunsStep(prev, next, x, y);
      if x == next.width {
        RunsFromExact(prev, next, 0, y + 1);
        ExactEarlier(prev, next, RunsFrom(prev, next, 0, y + 1), 0, y + 1, x, y);
      } else if !Changed(prev, next, x, y) {
        RunsFromExact(prev, next, x + 1, y);
        ExactEarlier(prev, next, RunsFrom(prev, next, x + 1, y), x + 1, y, x, y);
      } else {
        var e := RunEnd(prev, next, x + 1, y);
        RestExact(prev, next, e, y);
        RunFirst(prev, next, x, y, RunsFrom(prev, next, e, y));
      }
    }
  }

  lemma NoRuns(prev: Frame, next: Frame, x: nat, y: nat)
    requires FrameOk(prev) && FrameOk(next) && SameSize(prev, next)
    ensures Exact(prev, next, [], x, y)
  {
  }

  /** Nothing starts right at the end of a run. */
  lemma AfterRun(prev: Frame, next: Frame, e: nat, y: nat)
    requires FrameOk(prev) && FrameOk(next) && SameSize(prev, next) && e <= next.width && y < next.height
    requires e < next.width ==> !Changed(prev, next, e, y)
    ensures RunsFrom(prev, next, e, y) ==
            if e < next.width then RunsFrom(prev, next, e + 1, y) else RunsFrom(prev, next, 0, y + 1)
  {
  }

  // ---- running the code ------------------------------------------------

  /** What the terminal shows for a cell: its glyph and weight, and its colours unless the reset loses them. */
  function Show(c: Cell, keepsColours: bool): Shown {
    Shown(c.ch, PenOf(c.style, keepsColours))
  }

  ghost predicate Shows(t: Terminal, f: Frame) {
    && TerminalOk(t) && FrameOk(f) && t.width == f.width && t.height == f.height
    && forall x, y :: 0 <= x < f.width && 0 <= y < f.height ==> t.screen[y][x] == Show(f.rows[y][x], t.keepsColours)
  }

  function Places(x: nat, y: nat, n: nat): (s: seq<(nat, nat)>)
    ensures |s| == n && forall i :: 0 <= i < n ==> s[i] == (x + i, y)
  {
    seq(n, i requires 0 <= i < n => (x + i, y))
  }

  predicate PenFits(t: Terminal, style: Option<CellStyle>) {
    style.Some? ==> t.pen == PenOf(style.value, t.keepsColours)
  }

  /** u is t after the cells were printed from the cursor on, and nothing else was touched. */
  ghost predicate Wrote(t: Terminal, u: Terminal, cells: seq<Cell>)
    requires TerminalOk(t) && TerminalOk(u)
  {
    && u.width == t.width && u.height == t.height && u.row == t.row && u.keepsColours == t.keepsColours
    && u.inked == t.inked + Places(t.col, t.row, |cells|)
    && (forall x, y :: 0 <= x < t.width && 0 <= y < t.height ==>
          u.screen[y][x] ==
            if y == t.row && t.col <= x < t.col + |cells| then Show(cells[x - t.col], t.keepsColours)
            else t.screen[y][x])
  }

  lemma ExecOne(t: Terminal, c: Command)
    requires TerminalOk(t)
    ensures Exec(t, [c]) == Do(t, c)
  {
  }

  lemma StyleDraws(t: Terminal, s: CellStyle)
    requires TerminalOk(t)
    ensures Exec(t, StyleCode(s)) == t.(pen := PenOf(s, t.keepsColours))
  {
    var colours := [SetForeground(s.fg), SetBackground(s.bg), AttributeReset];
    var bold := if s.bold then [Bold] else [];
    var dim := if s.dim then [Dim] else [];
    ExecAppend(t, colours + bold, dim);
    ExecAppend(t, colours, bold);
    ColoursLost(t, s.fg, s.bg);
    var u := t.(pen := if t.keepsColours then Pen(Some(s.fg), Some(s.bg), false, false) else PLAIN);
    ExecOne(u, Bold);
    ExecOne(Exec(u, bold), Dim);
  }

  /** Colours sent before an attribute reset leave no trace, unless the terminal keeps them through it. */
  lemma ColoursLost(t: Terminal, fg: Rgb, bg: Rgb)
    requires TerminalOk(t)
    ensures Exec(t, [SetForeground(fg), SetBackground(bg), AttributeReset]) ==
            t.(pen := if t.keepsColours then Pen(Some(fg), Some(bg), false, false) else PLAIN)
  {
    var a := Do(t, SetForeground(fg));
    var b := Do(a, SetBackground(bg));
    ExecOne(b, AttributeReset);
    assert [SetForeground(fg), SetBackground(bg), AttributeReset][1..] == [SetBackground(bg), AttributeReset];
    assert [SetBackground(bg), AttributeReset][1..] == [AttributeReset];
  }

  lemma PrintDraws(t: Terminal, c: Cell)
    requires TerminalOk(t)
    ensures var u := Do(t.(pen := PenOf(c.style, t.keepsColours)), Print(c.ch));
      && Wrote(t, u, [c]) && u.pen == PenOf(c.style, t.keepsColours)
      && u.col == if t.col + 1 < t.width then t.col + 1 else t.col
  {
  }

  lemma CellDraws(t: Terminal, style: Option<CellStyle>, c: Cell)
    requires TerminalOk(t) && PenFits(t, style)
    ensures var u := Exec(t, CellCode(style, c));
      && Wrote(t, u, [c]) && u.pen == PenOf(c.style, t.keepsColours)
      && u.col == if t.col + 1 < t.width then t.col + 1 else t.col
  {
    hide Exec, StyleCode, Do, Wrote;
    var head := if style == Some(c.style) then [] else StyleCode(c.style);
    var u := t.(pen := PenOf(c.style, t.keepsColours));
    ExecAppend(t, head, [Print(c.ch)]);
    StyleDraws(t, c.style);
    ExecNone(t);
    ExecOne(u, Print(c.ch));
    PrintDraws(t, c);
  }

  lemma ExecNone(t: Terminal)
    requires TerminalOk(t)
    ensures Exec(t, []) == t
  {
  }

  /** Cells that fit to the right of the cursor are printed just there. */
  lemma {:induction false} CellsDraw(t: Terminal, style: Option<CellStyle>, cells: seq<Cell>)
    requires TerminalOk(t) && PenFits(t, style) && t.col + |cells| <= t.width
    ensures var u := Exec(t, CellsCode(style, cells));
      Wrote(t, u, cells) && PenFits(u, StyleAfter(style, cells))
    decreases |cells|
  {
    hide Do, CellCode, Exec;
    if cells == [] {
      ExecNone(t);
      assert t.inked + Places(t.col, t.row, 0) == t.inked;
    } else {
      CellDraws(t, style, cells[0]);
      var u := Exec(t, CellCode(style, cells[0]));
      ExecAppend(t, CellCode(style, cells[0]), CellsCode(Some(cells[0].style), cells[1..]));
      if |cells| == 1 {
        assert cells == [cells[0]];
        ExecNone(u);
      } else {
        CellsDraw(u, Some(cells[0].style), cells[1..]);
        WroteMore(t, u, Exec(u, CellsCode(Some(cells[0].style), cells[1..])), cells);
      }
    }
  }

  lemma WroteMore(t: Terminal, u: Terminal, v: Terminal, cells: seq<Cell>)
    requires TerminalOk(t) && TerminalOk(u) && TerminalOk(v) && |cells| > 1
    requires Wrote(t, u, [cells[0]]) && u.col == t.col + 1 && Wrote(u, v, cells[1..])
    ensures Wrote(t, v, cells)
  {
  }

  /** Moving to a place inside the frame and printing the cells of a run. */
  lemma RunDraws(t: Terminal, next: Frame, r: Run, style: Option<CellStyle>)
    requires TerminalOk(t) && FrameOk(next) && Inside(next, r) && PenFits(t, style)
    requires t.width == next.width && t.height == next.height
    ensures var cells := RunCells(next, r);
      var at := t.(col := Capped(r.x, t.width), row := r.y);
      var u := Exec(t, RunCode(next, r, style));
      Wrote(at, u, cells) && PenFits(u, StyleAfter(style, cells))
  {
    var cells := RunCells(next, r);
    ExecAppend(t, [MoveTo(r.x, r.y)], CellsCode(style, cells));
    ExecOne(t, MoveTo(r.x, r.y));
    var at := t.(col := Capped(r.x, t.width), row := r.y);
    hide Exec;
    if cells == [] {
      ExecNone(at);
      assert Wrote(at, at, []) by { assert at.inked + Places(at.col, at.row, 0) == at.inked; }
    } else {
      CellsDraw(at, style, cells);
    }
  }

  // ---- diff ------------------------------------------------------------

  /** The changed places from column x of row y on, in reading order. */
  function ChangedFrom(prev: Frame, next: Frame, x: nat, y: nat): seq<(nat, nat)>
    requires FrameOk(prev) && FrameOk(next) && SameSize(prev, next) && x <= next.width
    decreases next.height - y, next.width - x
  {
    if y >= next.height then []
    else if x == next.width then ChangedFrom(prev, next, 0, y + 1)
    else (if Changed(prev, next, x, y) then [(x, y)] else []) + ChangedFrom(prev, next, x + 1, y)
  }

  lemma Regroup<T>(a: seq<T>, b: seq<T>, c: seq<T>)
    ensures a + b + c == a + (b + c)
  {
  }

  lemma Unprefixed(a: seq<(nat, nat)>)
    ensures Places(0, 0, 0) + a == a
    ensures forall x, y :: Places(x, y, 0) == Places(0, 0, 0)
  {
  }

  lemma {:induction false} ChangedStretch(prev: Frame, next: Frame, x: nat, e: nat, y: nat)
    requires FrameOk(prev) && FrameOk(next) && SameSize(prev, next) && x <= e <= next.width && y < next.height
    requires forall k :: x <= k < e ==> Changed(prev, next, k, y)
    ensures ChangedFrom(prev, next, x, y) == Places(x, y, e - x) + ChangedFrom(prev, next, e, y)
    decreases e - x
  {
    hide Changed;
    if x < e {
      ChangedStretch(prev, next, x + 1, e, y);
      assert Places(x, y, e - x) == [(x, y)] + Places(x + 1, y, e - x - 1);
      Regroup([(x, y)], Places(x + 1, y, e - x - 1), ChangedFrom(prev, next, e, y));
    } else {
      Unprefixed(ChangedFrom(prev, next, e, y));
    }
  }

  /** The screen shows next before column x of row y, and prev from there on. */
  ghost predicate Midway(t: Terminal, prev: Frame, next: Frame, x: nat, y: nat)
    requires FrameOk(prev) && FrameOk(next) && SameSize(prev, next)
  {
    && TerminalOk(t) && t.width == next.width && t.height == next.height
    && (forall c, r :: 0 <= c < next.width && 0 <= r < next.height ==>
          t.screen[r][c] ==
            Show(if r < y || (r == y && c < x) then next.rows[r][c] else prev.rows[r][c], t.keepsColours))
  }

  lemma MidwayOnward(t: Terminal, prev: Frame, next: Frame, x: nat, y: nat)
    requires FrameOk(prev) && FrameOk(next) && SameSize(prev, next) && x <= next.width && y < next.height
    requires Midway(t, prev, next, x, y)
    ensures x == next.width ==> Midway(t, prev, next, 0, y + 1)
    ensures x < next.width && !Changed(prev, next, x, y) ==> Midway(t, prev, next, x + 1, y)
  {
  }

  lemma MidwayRun(t: Terminal, u: Terminal, prev: Frame, next: Frame, r: Run)
    requires FrameOk(prev) && FrameOk(next) && SameSize(prev, next) && Inside(next, r) && TerminalOk(u)
    requires Midway(t, prev, next, r.x, r.y) && r.x < next.width
    requires Wrote(t.(col := r.x, row := r.y), u, RunCells(next, r))
    ensures Midway(u, prev, next, r.x + r.len, r.y)
    ensures u.inked == t.inked + Places(r.x, r.y, r.len)
  {
  }

  /** The recursive equations of the runs and of the changed places, side by side. */
  lemma RunsStep(prev: Frame, next: Frame, x: nat, y: nat)
    requires FrameOk(prev) && FrameOk(next) && SameSize(prev, next) && x <= next.width && y < next.height
    ensures var runs, places := RunsFrom(prev, next, x, y), ChangedFrom(prev, next, x, y);
      if x == next.width then runs == RunsFrom(prev, next, 0, y + 1) && places == ChangedFrom(prev, next, 0, y + 1)
      else if !Changed(prev, next, x, y) then
        runs == RunsFrom(prev, next, x + 1, y) && places == ChangedFrom(prev, next, x + 1, y)
      else
        var e := RunEnd(prev, next, x + 1, y);
        runs == [Run(x, y, e - x)] + RunsFrom(prev, next, e, y)
  {
    hide Changed;
  }

  lemma RunsDone(prev: Frame, next: Frame, x: nat, y: nat)
    requires FrameOk(prev) && FrameOk(next) && SameSize(prev, next) && x <= next.width && y >= next.height
    ensures RunsFrom(prev, next, x, y) == [] && ChangedFrom(prev, next, x, y) == []
    ensures forall style :: RunsCode(next, [], style) == [] && StyleOver(next, [], style) == style
  {
  }

  /** Running the code of the remaining runs completes the screen, printing on the changed places only. */
  lemma {:induction false} RunsDraw(t: Terminal, prev: Frame, next: Frame, x: nat, y: nat, style: Option<CellStyle>)
    requires FrameOk(prev) && FrameOk(next) && SameSize(prev, next) && x <= next.width
    requires TerminalOk(t) && Midway(t, prev, next, x, y) && PenFits(t, style)
    ensures var u := Exec(t, RunsCode(next, RunsFrom(prev, next, x, y), style));
      && Shows(u, next) && u.inked == t.inked + ChangedFrom(prev, next, x, y)
      && PenFits(u, StyleOver(next, RunsFrom(prev, next, x, y), style))
    decreases next.height - y, next.width - x
  {
    hide Exec, Changed, Midway, RunsFrom, ChangedFrom, RunsCode, StyleOver, Shows, RunCode;
    if y >= next.height {
      RunsDone(prev, next, x, y);
      ExecNone(t);
      Finished(t, prev, next, x, y);
      assert t.inked + [] == t.inked;
    } else {
      RunsStep(prev, next, x, y);
      if x == next.width {
        MidwayOnward(t, prev, next, x, y);
        RunsDraw(t, prev, next, 0, y + 1, style);
      } else if !Changed(prev, next, x, y) {
        MidwayOnward(t, prev, next, x, y);
        RunsDraw(t, prev, next, x + 1, y, style);
      } else {
        var e := RunEnd(prev, next, x + 1, y);
        var r, rest := Run(x, y, e - x), RunsFrom(prev, next, e, y);
        RunAdvances(t, prev, next, r, style);
        ChangedStretch(prev, next, x, e, y);
        RunsCons(next, r, rest, style);
        ExecAppend(t, RunCode(next, r, style), RunsCode(next, rest, StyleAfter(style, RunCells(next, r))));
        RunsDraw(Exec(t, RunCode(next, r, style)), prev, next, e, y, StyleAfter(style, RunCells(next, r)));
        Regroup(t.inked, Places(x, y, e - x), ChangedFrom(prev, next, e, y));
      }
    }
  }

  lemma RunsCons(next: Frame, r: Run, rest: seq<Run>, style: Option<CellStyle>)
    requires FrameOk(next) && Inside(next, r) && AllInside(next, rest)
    ensures AllInside(next, [r] + rest)
    ensures var after := StyleAfter(style, RunCells(next, r));
      && RunsCode(next, [r] + rest, style) == RunCode(next, r, style) + RunsCode(next, rest, after)
      && StyleOver(next, [r] + rest, style) == StyleOver(next, rest, after)
  {
  }

  /** One run of changed cells takes the screen from its start to its end. */
  lemma RunAdvances(t: Terminal, prev: Frame, next: Frame, r: Run, style: Option<CellStyle>)
    requires FrameOk(prev) && FrameOk(next) && SameSize(prev, next) && Inside(next, r) && r.len > 0
    requires TerminalOk(t) && Midway(t, prev, next, r.x, r.y) && PenFits(t, style)
    requires forall k :: r.x <= k < r.x + r.len ==> Changed(prev, next, k, r.y)
    ensures var u := Exec(t, RunCode(next, r, style));
      && Midway(u, prev, next, r.x + r.len, r.y) && PenFits(u, StyleAfter(style, RunCells(next, r)))
      && u.inked == t.inked + Places(r.x, r.y, r.len)
  {
    hide Exec, Changed, Wrote, Midway, RunCode;
    assert t.width == next.width && t.height == next.height by { MidwaySize(t, prev, next, r.x, r.y); }
    RunDraws(t, next, r, style);
    MidwayRun(t, Exec(t, RunCode(next, r, style)), prev, next, r);
  }

  lemma MidwaySize(t: Terminal, prev: Frame, next: Frame, x: nat, y: nat)
    requires FrameOk(prev) && FrameOk(next) && SameSize(prev, next) && Midway(t, prev, next, x, y)
    ensures t.width == next.width && t.height == next.height
  {
  }

  lemma Finished(t: Terminal, prev: Frame, next: Frame, x: nat, y: nat)
    requires FrameOk(prev) && FrameOk(next) && SameSize(prev, next) && Midway(t, prev, next, x, y) && y >= next.height
    ensures Shows(t, next)
  {
  }

  lemma TailDraws(t: Terminal)
    requires TerminalOk(t)
    ensures Exec(t, TAIL) == t.(pen := PLAIN)
  {
  }

  /**
    A diff is sound: on a terminal showing prev its code makes the screen show next, printing on the
    changed places only, each once and in reading order, and leaves the pen plain.
  */
  lemma DiffDraws(t: Terminal, prev: Frame, next: Frame)
    requires Shows(t, prev) && FrameOk(next) && SameSize(prev, next)
    ensures var u := Exec(t, DiffCode(prev, next));
      && Shows(u, next) && u.inked == t.inked + ChangedFrom(prev, next, 0, 0)
      && (t.pen == PLAIN ==> u.pen == PLAIN)
  {
    hide Exec, RunsFrom, RunsCode, StyleOver;
    assert Midway(t, prev, next, 0, 0);
    RunsDraw(t, prev, next, 0, 0, None);
    var runs := Runs(prev, next);
    var u := Exec(t, RunsCode(next, runs, None));
    var tail := if StyleOver(next, runs, None).Some? then TAIL else [];
    ExecAppend(t, RunsCode(next, runs, None), tail);
    TailDraws(u);
    ExecNone(u);
    if tail == [] {
      Unstyled(prev, next, 0, 0);
      NoCode(next);
      ExecNone(t);
    }
  }

  lemma NoCode(next: Frame)
    requires FrameOk(next)
    ensures RunsCode(next, [], None) == []
  {
  }

  /** Without a style there was nothing to print. */
  lemma {:induction false} Unstyled(prev: Frame, next: Frame, x: nat, y: nat)
    requires FrameOk(prev) && FrameOk(next) && SameSize(prev, next) && x <= next.width
    requires StyleOver(next, RunsFrom(prev, next, x, y), None).None?
    ensures RunsFrom(prev, next, x, y) == []
    decreases next.height - y, next.width - x
  {
    hide Changed;
    if y >= next.height {
    } else if x == next.width {
      Unstyled(prev, next, 0, y + 1);
    } else if !Changed(prev, next, x, y) {
      Unstyled(prev, next, x + 1, y);
    } else {
      var e := RunEnd(prev, next, x + 1, y);
      var r, rest := Run(x, y, e - x), RunsFrom(prev, next, e, y);
      RunsCons(next, r, rest, None);
      StyledStays(next, rest, Some(RunCells(next, r)[r.len - 1].style));
      assert false;
    }
  }

  lemma {:induction false} StyledStays(next: Frame, runs: seq<Run>, style: Option<CellStyle>)
    requires FrameOk(next) && AllInside(next, runs) && style.Some?
    ensures StyleOver(next, runs, style).Some?
    decreases |runs|
  {
    if runs != [] { StyledStays(next, runs[1..], StyleAfter(style, RunCells(next, runs[0]))); }
  }

  function PlacesOf(runs: seq<Run>): seq<(nat, nat)> {
    if runs == [] then [] else Places(runs[0].x, runs[0].y, runs[0].len) + PlacesOf(runs[1..])
  }

  lemma {:induction false} RunsCover(prev: Frame, next: Frame, x: nat, y: nat)
    requires FrameOk(prev) && FrameOk(next) && SameSize(prev, next) && x <= next.width
    ensures PlacesOf(RunsFrom(prev, next, x, y)) == ChangedFrom(prev, next, x, y)
    decreases next.height - y, next.width - x
  {
    hide Changed;
    if y >= next.height {
    } else if x == next.width {
      RunsCover(prev, next, 0, y + 1);
    } else if !Changed(prev, next, x, y) {
      RunsCover(prev, next, x + 1, y);
    } else {
      var e := RunEnd(prev, next, x + 1, y);
      RunsCover(prev, next, e, y);
      ChangedStretch(prev, next, x, e, y);
      assert ([Run(x, y, e - x)] + RunsFrom(prev, next, e, y))[1..] == RunsFrom(prev, next, e, y);
    }
  }

  lemma {:induction false} ChangedMembers(prev: Frame, next: Frame, x: nat, y: nat, c: nat, r: nat)
    requires FrameOk(prev) && FrameOk(next) && SameSize(prev, next) && x <= next.width
    ensures (c, r) in ChangedFrom(prev, next, x, y) <==>
            c < next.width && r < next.height && (y < r || (y == r && x <= c)) && Changed(prev, next, c, r)
    decreases next.height - y, next.width - x
  {
    hide Changed;
    if y >= next.height {
    } else if x == next.width {
      ChangedMembers(prev, next, 0, y + 1, c, r);
    } else {
      ChangedMembers(prev, next, x + 1, y, c, r);
    }
  }

  /**
    The runs written for two frames of one size are the maximal changed stretches in reading order:
    together they cover exactly the changed cells, and no two touch.
  */
  lemma RunsAreMaximal(prev: Frame, next: Frame)
    requires FrameOk(prev) && FrameOk(next) && SameSize(prev, next)
    ensures Exact(prev, next, Runs(prev, next), 0, 0)
    ensures forall x: nat, y: nat :: (x, y) in PlacesOf(Runs(prev, next)) <==>
              x < next.width && y < next.height && prev.rows[y][x] != next.rows[y][x]
  {
    hide Exact, RunsFrom, ChangedFrom, PlacesOf;
    RunsFromExact(prev, next, 0, 0);
    RunsCover(prev, next, 0, 0);
    forall x: nat, y: nat
      ensures (x, y) in PlacesOf(Runs(prev, next)) <==>
              x < next.width && y < next.height && prev.rows[y][x] != next.rows[y][x]
    {
      ChangedMembers(prev, next, 0, 0, x, y);
    }
  }

  /** Nothing is sent exactly when nothing changed. */
  lemma DiffEmptyExactly(prev: Frame, next: Frame)
    requires FrameOk(prev) && FrameOk(next) && SameSize(prev, next)
    ensures DiffCode(prev, next) == [] <==> prev == next
  {
    hide RunsFrom, ChangedFrom, PlacesOf;
    RunsAreMaximal(prev, next);
    var runs := Runs(prev, next);
    if runs == [] {
      assert PlacesOf(runs) == [] by { NoPlaces(); }
      forall y | 0 <= y < next.height
        ensures prev.rows[y] == next.rows[y]
      {
        forall x: nat | x < next.width
          ensures prev.rows[y][x] == next.rows[y][x]
        {
          assert (x, y) !in PlacesOf(runs);
        }
      }
      assert prev.rows == next.rows;
    } else {
      assert Maximal(prev, next, runs[0]);
      assert Changed(prev, next, runs[0].x, runs[0].y);
      assert RunCode(next, runs[0], None) != [];
    }
  }

  lemma NoPlaces()
    ensures PlacesOf([]) == []
  {
  }

  // ---- full redraw -----------------------------------------------------

  /** The first y rows show the frame. */
  ghost predicate RowsShown(t: Terminal, f: Frame, y: nat)
    requires FrameOk(f)
  {
    && TerminalOk(t) && t.width == f.width && t.height == f.height
    && forall c, r :: 0 <= c < f.width && 0 <= r < f.height && r < y ==>
         t.screen[r][c] == Show(f.rows[r][c], t.keepsColours)
  }

  lemma RowShown(t: Terminal, u: Terminal, f: Frame, y: nat)
    requires FrameOk(f) && y < f.height && TerminalOk(t) && TerminalOk(u)
    requires t.col == 0 && t.row == y && Wrote(t, u, f.rows[y]) && RowsShown(t, f, y)
    ensures RowsShown(u, f, y + 1)
  {
  }

  lemma SameAsFrame(t: Terminal, f: Frame, y: nat)
    requires FrameOk(f) && RowsShown(t, f, y)
    ensures TerminalOk(t) && t.width == f.width && t.height == f.height
  {
  }

  lemma WroteKeepsRow(t: Terminal, u: Terminal, cells: seq<Cell>)
    requires TerminalOk(t) && TerminalOk(u) && Wrote(t, u, cells)
    ensures u.row == t.row && u.width == t.width && u.height == t.height
  {
  }

  lemma AllShown(t: Terminal, f: Frame, y: nat)
    requires FrameOk(f) && RowsShown(t, f, y) && y >= f.height
    ensures Shows(t, f)
  {
  }

  lemma NewRowKeeps(t: Terminal, f: Frame, y: nat)
    requires FrameOk(f) && RowsShown(t, f, y) && t.row + 1 < t.height
    ensures Do(t, NewRow) == t.(col := 0, row := t.row + 1)
    ensures RowsShown(Do(t, NewRow), f, y)
  {
  }

  lemma {:induction false} RowsDraw(t: Terminal, f: Frame, y: nat, style: Option<CellStyle>)
    requires FrameOk(f) && TerminalOk(t) && RowsShown(t, f, y) && PenFits(t, style) && y <= f.height
    requires y < f.height ==> t.col == 0 && t.row == y
    ensures Shows(Exec(t, RowsCode(f, y, style)), f)
    decreases f.height - y
  {
    hide Exec, Do, CellsCode, Wrote, RowsShown, Shows;
    assert t.width == f.width && t.height == f.height by { SameAsFrame(t, f, y); }
    if y == f.height {
      ExecNone(t);
      AllShown(t, f, y);
    } else {
      var cells, after := f.rows[y], StyleAfter(style, f.rows[y]);
      CellsDraw(t, style, cells);
      var u := Exec(t, CellsCode(style, cells));
      WroteKeepsRow(t, u, cells);
      RowShown(t, u, f, y);
      var breakCode := if y + 1 < f.height then [NewRow] else [];
      ExecAppend(t, CellsCode(style, cells), breakCode);
      ExecAppend(t, CellsCode(style, cells) + breakCode, RowsCode(f, y + 1, after));
      ExecNone(u);
      ExecOne(u, NewRow);
      var v := Exec(u, breakCode);
      if y + 1 < f.height { NewRowKeeps(u, f, y + 1); }
      RowsDraw(v, f, y + 1, after);
    }
  }

  /** A full redraw makes a terminal of the frame's size show it, whatever was on the screen. */
  lemma FullDraws(t: Terminal, f: Frame)
    requires TerminalOk(t) && FrameOk(f) && t.width == f.width && t.height == f.height
    ensures var u := Exec(t, FullCode(f)); Shows(u, f) && u.pen == PLAIN
  {
    hide RowsCode;
    var body := RowsCode(f, 0, None);
    ExecAppend(t, [Clear, MoveTo(0, 0)] + body, TAIL);
    ExecAppend(t, [Clear, MoveTo(0, 0)], body);
    ExecAppend(t, [Clear], [MoveTo(0, 0)]);
    assert [Clear, MoveTo(0, 0)] == [Clear] + [MoveTo(0, 0)];
    ExecOne(t, Clear);
    ExecOne(Do(t, Clear), MoveTo(0, 0));
    var u := Exec(t, [Clear, MoveTo(0, 0)]);
    RowsDraw(u, f, 0, None);
    TailDraws(Exec(u, body));
  }

  lemma MovedShown(t: Terminal, f: Frame, y: nat)
    requires FrameOk(f) && RowsShown(t, f, y) && y < f.height
    ensures TerminalOk(t.(col := 0, row := y)) && RowsShown(t.(col := 0, row := y), f, y)
  {
  }

  lemma {:induction false} WholeDraws(t: Terminal, f: Frame, y: nat, style: Option<CellStyle>)
    requires FrameOk(f) && TerminalOk(t) && RowsShown(t, f, y) && PenFits(t, style)
    ensures Shows(Exec(t, RunsCode(f, WholeRows(f, y), style)), f)
    decreases f.height - y
  {
    hide Exec, Wrote, RowsShown, Shows, RunCode;
    SameAsFrame(t, f, y);
    if y >= f.height {
      NoCode(f);
      ExecNone(t);
      AllShown(t, f, y);
    } else {
      var r, rest := Run(0, y, f.width), WholeRows(f, y + 1);
      var after := StyleAfter(style, RunCells(f, r));
      RunsCons(f, r, rest, style);
      RunDraws(t, f, r, style);
      ExecAppend(t, RunCode(f, r, style), RunsCode(f, rest, after));
      var u := Exec(t, RunCode(f, r, style));
      assert RunCells(f, r) == f.rows[y];
      MovedShown(t, f, y);
      RowShown(t.(col := 0, row := y), u, f, y);
      WholeDraws(u, f, y + 1, after);
    }
  }

  /** A diff against a frame of another size redraws everything, whatever was on the screen. */
  lemma DiffOfOtherSizeDraws(t: Terminal, prev: Frame, next: Frame)
    requires TerminalOk(t) && FrameOk(prev) && FrameOk(next) && !SameSize(prev, next)
    requires t.width == next.width && t.height == next.height
    ensures Shows(Exec(t, DiffCode(prev, next)), next)
  {
    hide Exec, RunsCode, WholeRows, StyleOver;
    var runs := Runs(prev, next);
    var u := Exec(t, RunsCode(next, runs, None));
    WholeDraws(t, next, 0, None);
    ExecAppend(t, RunsCode(next, runs, None), if StyleOver(next, runs, None).Some? then TAIL else []);
    TailDraws(u);
    ExecNone(u);
  }

  // ---- whole sessions --------------------------------------------------

  /** What a draw sends, given the frame the renderer believes to be on the screen. */
  function DrawCode(last: Option<Frame>, f: Frame): seq<Command>
    requires (last.Some? ==> FrameOk(last.value)) && FrameOk(f)
  {
    if last.None? || !SameSize(last.value, f) then FullCode(f) else DiffCode(last.value, f)
  }

  /** Drawing; forcing a full redraw; the terminal changing size, with any contents, and then the same. */
  datatype Event = Draw(frame: Frame) | Invalidate | Resize(terminal: Terminal)

  datatype Display = Display(terminal: Terminal, last: Option<Frame>)

  ghost predicate DisplayOk(d: Display) {
    TerminalOk(d.terminal) && (d.last.Some? ==> Shows(d.terminal, d.last.value))
  }

  /** A frame drawn has the size of the terminal. */
  ghost predicate Fitting(d: Display, e: Event) {
    match e
    case Draw(f) => FrameOk(f) && f.width == d.terminal.width && f.height == d.terminal.height
    case Invalidate => true
    case Resize(t) => TerminalOk(t)
  }

  ghost function Applied(d: Display, e: Event): (r: Display)
    requires DisplayOk(d) && Fitting(d, e)
  {
    match e
    case Draw(f) => Display(Exec(d.terminal, DrawCode(d.last, f)), Some(f))
    case Invalidate => d.(last := None)
    case Resize(t) => Display(t, None)
  }

  lemma AppliedOk(d: Display, e: Event)
    requires DisplayOk(d) && Fitting(d, e)
    ensures DisplayOk(Applied(d, e))
    ensures e.Draw? ==> Shows(Applied(d, e).terminal, e.frame)
  {
    hide Exec, FullCode, DiffCode;
    if e.Draw? {
      if d.last.None? || !SameSize(d.last.value, e.frame) {
        FullDraws(d.terminal, e.frame);
      } else {
        DiffDraws(d.terminal, d.last.value, e.frame);
      }
    }
  }

  /**
    Over a frame of the same size that is on the screen a draw prints on the changed places only, each once
    and in reading order, and sends nothing exactly if the frame is the one shown.
  */
  lemma DrawsOnlyChanges(d: Display, f: Frame)
    requires DisplayOk(d) && Fitting(d, Draw(f)) && d.last.Some? && SameSize(d.last.value, f)
    ensures Applied(d, Draw(f)).terminal.inked == d.terminal.inked + ChangedFrom(d.last.value, f, 0, 0)
    ensures DrawCode(d.last, f) == [] <==> d.last.value == f
  {
    hide Exec, FullCode, DiffCode, ChangedFrom;
    DiffDraws(d.terminal, d.last.value, f);
    DiffEmptyExactly(d.last.value, f);
  }

  /** The run of events is possible from d. */
  ghost predicate Possible(d: Display, events: seq<Event>)
    requires DisplayOk(d)
    decreases |events|
  {
    events == [] || (Fitting(d, events[0]) && (AppliedOk(d, events[0]); Possible(Applied(d, events[0]), events[1..])))
  }

  ghost function AfterAll(d: Display, events: seq<Event>): Display
    requires DisplayOk(d) && Possible(d, events)
    decreases |events|
  {
    if events == [] then d else AppliedOk(d, events[0]); AfterAll(Applied(d, events[0]), events[1..])
  }

  /** The frame drawn last, unless the terminal has changed since; before any draw, the one given. */
  function LastDrawn(shown: Option<Frame>, events: seq<Event>): Option<Frame>
    decreases |events|
  {
    if events == [] then shown
    else
      var now := match events[0]
                 case Draw(f) => Some(f)
                 case Invalidate => shown
                 case Resize(_) => None;
      LastDrawn(now, events[1..])
  }

  /**
    Over any run of draws, forced redraws and resizes, the screen shows the frame drawn last, even
    when the renderer no longer relies on it.
  */
  lemma {:induction false} ScreenShowsLastDrawn(d: Display, shown: Option<Frame>, events: seq<Event>)
    requires DisplayOk(d) && Possible(d, events) && (shown.Some? ==> Shows(d.terminal, shown.value))
    ensures DisplayOk(AfterAll(d, events))
    ensures var f := LastDrawn(shown, events); f.Some? ==> Shows(AfterAll(d, events).terminal, f.value)
    decreases |events|
  {
    hide Shows, Exec, DrawCode, TerminalOk;
    if events == [] {
    } else {
      var e := events[0];
      AppliedOk(d, e);
      var now := match e
                 case Draw(f) => Some(f)
                 case Invalidate => shown
                 case Resize(_) => None;
      ScreenShowsLastDrawn(Applied(d, e), now, events[1..]);
    }
  }
}
