/** Line-clear, T-spin, combo and drop scores (crates/tetris-core/src/core/scoring.rs). */
module Scoring {
  import opened Types

  const LINE_SCORES: seq<u32> := [0, 40, 100, 300, 1200]
  const COMBO_BASE: u32 := 50

  datatype ScoreResult = ScoreResult(
    lineClearScore: u32,
    comboBonus: u32,
    total: u32,
    qualifiesForB2b: bool,
    b2bApplied: bool)

  function LineScore(lines: nat, level: u32): u32 {
    if lines == 0 || lines > 4 then 0
    else SaturatingMul(LINE_SCORES[lines], SaturatingAdd(level, 1))
  }

  /** Base points of the T-spin table; zero for the combinations it does not list. */
  function TSpinBase(tspin: TSpinKind, lines: nat): u32 {
    match (tspin, lines)
    case (Full, 0) => 400
    case (Full, 1) => 800
    case (Full, 2) => 1200
    case (Full, 3) => 1600
    case (Mini, 0) => 100
    case (Mini, 1) => 200
    case (Mini, 2) => 400
    case _ => 0
  }

  function TSpinScore(tspin: TSpinKind, lines: nat, level: u32): u32 {
    SaturatingMul(TSpinBase(tspin, lines), SaturatingAdd(level, 1))
  }

  function ComboBonus(comboIndex: int): u32
    requires comboIndex <= I32_MAX
  {
    if comboIndex <= 0 then 0 else SaturatingMul(COMBO_BASE, comboIndex)
  }

  predicate QualifiesForB2b(tspin: TSpinKind, lines: nat) {
    (tspin == Full && 1 <= lines <= 4) || (tspin == NoSpin && lines == 4)
  }

  function ApplyB2b(points: u32): u32 {
    SaturatingMul(points, 3) / 2
  }

  function Score(lines: nat, level: u32, tspin: TSpinKind, comboIndex: int, previousB2b: bool): ScoreResult
    requires comboIndex <= I32_MAX
  {
    var qualifies := QualifiesForB2b(tspin, lines);
    var base := if tspin == NoSpin then LineScore(lines, level) else TSpinScore(tspin, lines, level);
    var applied := qualifies && previousB2b;
    var clear := if applied then ApplyB2b(base) else base;
    var bonus := ComboBonus(comboIndex);
    ScoreResult(clear, bonus, SaturatingAdd(clear, bonus), qualifies, applied)
  }

  function DropScore(cells: u32, hard: bool): u32 {
    if hard then SaturatingMul(cells, 2) else cells
  }

  function DropIntervalMs(level: u32): (ms: u32)
    ensures 120 <= ms <= 1000
  {
    var intervals := [1000, 800, 650, 500, 400, 320, 250, 200, 160];
    if level < |intervals| then intervals[level] else 120
  }

  /** Gravity gets strictly faster level by level from one row a second, up to level nine, and stays there. */
  lemma GravitySpeedsUp(a: u32, b: u32)
    requires a < b
    ensures DropIntervalMs(0) == 1000 && DropIntervalMs(9) == 120
    ensures b <= 9 ==> DropIntervalMs(b) < DropIntervalMs(a)
    ensures a >= 9 ==> DropIntervalMs(b) == DropIntervalMs(a)
    ensures DropIntervalMs(b) <= DropIntervalMs(a)
  {
  }

  lemma ScalesUp(base: u32, level: u32)
    requires base >= 40
    ensures 40 <= SaturatingMul(base, SaturatingAdd(level, 1))
  {
    assert base * SaturatingAdd(level, 1) >= base * 1;
  }

  /**
    A clear of one to four lines pays at least forty points in every row of both tables, except
    the two rows a T-spin table does not have: a Mini triple and any T-spin of four lines.
  */
  lemma ClearPays(lines: nat, level: u32, tspin: TSpinKind, comboIndex: int, previousB2b: bool)
    requires 1 <= lines <= 4 && comboIndex <= I32_MAX
    ensures
      var points := Score(lines, level, tspin, comboIndex, previousB2b).lineClearScore;
      && (points == 0 <==> (tspin == Mini && lines >= 3) || (tspin == Full && lines == 4))
      && (points > 0 ==> points >= 40)
  {
    var base := if tspin == NoSpin then LINE_SCORES[lines] else TSpinBase(tspin, lines);
    if base > 0 { ScalesUp(base, level); }
  }
}
