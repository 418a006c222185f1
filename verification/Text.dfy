/** The pieces of Rust text handling the replay format relies on: numbers, split, lines, names. */
module Text {
  import opened Types

  // ---- decimal numbers -------------------------------------------------

  predicate IsDigit(c: char) {
    '0' <= c <= '9'
  }

  predicate AllDigits(s: string) {
    forall i :: 0 <= i < |s| ==> IsDigit(s[i])
  }

  function DigitChar(d: nat): (c: char)
    requires d < 10
    ensures IsDigit(c) && c as int - '0' as int == d
  {
    ('0' as int + d) as char
  }

  /** Shortest decimal form. */
  function ShowNat(n: nat): (s: string)
    ensures s != [] && AllDigits(s)
  {
    if n < 10 then [DigitChar(n)] else ShowNat(n / 10) + [DigitChar(n % 10)]
  }

  function ShowInt(n: int): string {
    if n < 0 then "-" + ShowNat(-n) else ShowNat(n)
  }

  /** Value of a string of digits. */
  function DigitsValue(s: string): nat
    requires AllDigits(s)
  {
    if s == [] then 0 else 10 * DigitsValue(s[..|s| - 1]) + (s[|s| - 1] as int - '0' as int)
  }

  /** `str::parse` for an unsigned type with greatest value max: an optional plus sign, then digits. */
  function ParseUnsigned(s: string, max: nat): Option<nat> {
    var digits := if |s| > 1 && s[0] == '+' then s[1..] else s;
    if digits == [] || !AllDigits(digits) || DigitsValue(digits) > max then None
    else Some(DigitsValue(digits))
  }

  /** `str::parse::<i8>`: an optional sign, then digits. */
  function ParseI8(s: string): (r: Option<int>)
    ensures r.Some? ==> -128 <= r.value < 128
  {
    if |s| > 1 && s[0] == '-' then
      if AllDigits(s[1..]) && DigitsValue(s[1..]) <= 128 then
        var n: int := DigitsValue(s[1..]);
        Some(-n)
      else None
    else
      match ParseUnsigned(s, 127)
      case None => None
      case Some(n) => Some(n)
  }

  lemma {:induction false} DigitsOfShow(n: nat)
    ensures DigitsValue(ShowNat(n)) == n
  {
    var s := ShowNat(n);
    if n >= 10 {
      DigitsOfShow(n / 10);
      assert s[..|s| - 1] == ShowNat(n / 10);
    } else {
      assert s[..|s| - 1] == [];
    }
  }

  lemma UnsignedRoundTrip(n: nat, max: nat)
    requires n <= max
    ensures ParseUnsigned(ShowNat(n), max) == Some(n)
  {
    DigitsOfShow(n);
    assert IsDigit(ShowNat(n)[0]);
  }

  lemma FirstDigit(n: nat)
    ensures ShowNat(n) != [] && ShowNat(n)[0] != '-' && ShowNat(n)[0] != '+'
  {
    assert IsDigit(ShowNat(n)[0]);
  }

  lemma I8RoundTrip(n: int)
    requires -128 <= n < 128
    ensures ParseI8(ShowInt(n)) == Some(n)
  {
    hide ShowNat, DigitsValue, AllDigits, ParseUnsigned;
    if n < 0 {
      DigitsOfShow(-n);
      assert ShowInt(n)[1..] == ShowNat(-n);
    } else {
      UnsignedRoundTrip(n, 127);
      FirstDigit(n);
    }
  }

  function ShowBool(b: bool): string {
    if b then "true" else "false"
  }

  function ParseBool(s: string): Option<bool> {
    if s == "true" then Some(true) else if s == "false" then Some(false) else None
  }

  // ---- split and lines -------------------------------------------------

  /** `str::split`: the pieces between occurrences of c, always at least one. */
  function Split(s: string, c: char): (parts: seq<string>)
    ensures parts != []
  {
    if s == [] then [[]]
    else if s[0] == c then [[]] + Split(s[1..], c)
    else
      var rest := Split(s[1..], c);
      [[s[0]] + rest[0]] + rest[1..]
  }

  function Join(parts: seq<string>, c: char): string {
    if parts == [] then []
    else if |parts| == 1 then parts[0]
    else parts[0] + [c] + Join(parts[1..], c)
  }

  lemma {:induction false} SplitWhole(s: string, c: char)
    requires c !in s
    ensures Split(s, c) == [s]
  {
    if s == [] {
    } else {
      assert s == [s[0]] + s[1..];
      SplitWhole(s[1..], c);
    }
  }

  lemma {:induction false} SplitFirst(a: string, c: char, b: string)
    requires c !in a
    ensures Split(a + [c] + b, c) == [a] + Split(b, c)
  {
    var s := a + [c] + b;
    if a == [] {
      assert s[1..] == b;
    } else {
      assert s[1..] == a[1..] + [c] + b;
      assert a == [a[0]] + a[1..];
      SplitFirst(a[1..], c, b);
      var rest := Split(s[1..], c);
      assert rest[0] == a[1..] && rest[1..] == Split(b, c);
    }
  }

  lemma {:induction false} SplitJoin(parts: seq<string>, c: char)
    requires parts != [] && forall i :: 0 <= i < |parts| ==> c !in parts[i]
    ensures Split(Join(parts, c), c) == parts
  {
    if |parts| == 1 {
      SplitWhole(parts[0], c);
    } else {
      SplitFirst(parts[0], c, Join(parts[1..], c));
      SplitJoin(parts[1..], c);
    }
  }

  function StripCr(s: string): string {
    if s != [] && s[|s| - 1] == '\r' then s[..|s| - 1] else s
  }

  /** `str::lines`: lines end in a newline, optionally after a carriage return; a last bare line counts. */
  function Lines(s: string): seq<string> {
    LinesFrom(s, [])
  }

  /** Lines of s when the line being read already holds cur. */
  function LinesFrom(s: string, cur: string): seq<string>
    decreases |s|
  {
    if s == [] then (if cur == [] then [] else [cur])
    else if s[0] == '\n' then [StripCr(cur)] + LinesFrom(s[1..], [])
    else LinesFrom(s[1..], cur + [s[0]])
  }

  /** Each line followed by a newline. */
  function Unlines(lines: seq<string>): string {
    if lines == [] then [] else lines[0] + ['\n'] + Unlines(lines[1..])
  }

  predicate PlainLine(line: string) {
    '\n' !in line && '\r' !in line
  }

  lemma {:induction false} LinesFirst(line: string, rest: string, cur: string)
    requires PlainLine(line) && PlainLine(cur)
    ensures LinesFrom(line + ['\n'] + rest, cur) == [cur + line] + LinesFrom(rest, [])
    decreases |line|
  {
    var s := line + ['\n'] + rest;
    if line == [] {
      assert s[1..] == rest && cur + line == cur;
    } else {
      assert s[1..] == line[1..] + ['\n'] + rest;
      assert line == [line[0]] + line[1..];
      assert cur + line == (cur + [line[0]]) + line[1..];
      LinesFirst(line[1..], rest, cur + [line[0]]);
    }
  }

  lemma {:induction false} LinesOfUnlines(lines: seq<string>)
    requires forall i :: 0 <= i < |lines| ==> PlainLine(lines[i])
    ensures Lines(Unlines(lines)) == lines
  {
    if lines == [] {
    } else {
      LinesFirst(lines[0], Unlines(lines[1..]), []);
      assert [] + lines[0] == lines[0];
      LinesOfUnlines(lines[1..]);
    }
  }

  lemma {:induction false} UnlinesAppend(a: seq<string>, b: seq<string>)
    ensures Unlines(a + b) == Unlines(a) + Unlines(b)
  {
    if a == [] {
      assert a + b == b;
    } else {
      assert (a + b)[1..] == a[1..] + b;
      UnlinesAppend(a[1..], b);
    }
  }

  // ---- names -----------------------------------------------------------

  function Lower(c: char): char {
    if 'A' <= c <= 'Z' then (c as int - 'A' as int + 'a' as int) as char else c
  }

  predicate EqIgnoreCase(a: string, b: string) {
    |a| == |b| && forall i :: 0 <= i < |a| ==> Lower(a[i]) == Lower(b[i])
  }

  function ActionName(action: GameAction): string {
    match action
    case MoveLeft => "moveLeft"
    case MoveRight => "moveRight"
    case SoftDrop => "softDrop"
    case HardDrop => "hardDrop"
    case RotateCw => "rotateCw"
    case RotateCcw => "rotateCcw"
    case Hold => "hold"
    case Pause => "pause"
    case Restart => "restart"
  }

  const ACTIONS: seq<GameAction> :=
    [MoveLeft, MoveRight, SoftDrop, HardDrop, RotateCw, RotateCcw, Hold, Pause, Restart]

  /** First action of the list whose name is s up to case. */
  function FindAction(s: string, actions: seq<GameAction>): Option<GameAction> {
    if actions == [] then None
    else if EqIgnoreCase(s, ActionName(actions[0])) then Some(actions[0])
    else FindAction(s, actions[1..])
  }

  function ParseAction(s: string): Option<GameAction> {
    FindAction(s, ACTIONS)
  }

  function RotationName(r: Rotation): string {
    match r
    case North => "north"
    case East => "east"
    case South => "south"
    case West => "west"
  }

  function ParseRotation(s: string): Option<Rotation> {
    if EqIgnoreCase(s, "north") || EqIgnoreCase(s, "n") then Some(North)
    else if EqIgnoreCase(s, "east") || EqIgnoreCase(s, "e") then Some(East)
    else if EqIgnoreCase(s, "south") || EqIgnoreCase(s, "s") then Some(South)
    else if EqIgnoreCase(s, "west") || EqIgnoreCase(s, "w") then Some(West)
    else None
  }

  /** Names of one length start with different letters. */
  lemma NamesDiffer(a: GameAction, b: GameAction)
    requires a != b
    ensures !EqIgnoreCase(ActionName(a), ActionName(b))
  {
    assert |ActionName(a)| == |ActionName(b)| ==> Lower(ActionName(a)[0]) != Lower(ActionName(b)[0]);
  }

  lemma {:induction false} FindNamed(a: GameAction, actions: seq<GameAction>)
    requires a in actions
    ensures FindAction(ActionName(a), actions) == Some(a)
  {
    if actions[0] != a {
      NamesDiffer(a, actions[0]);
      FindNamed(a, actions[1..]);
    }
  }

  lemma ActionRoundTrip(a: GameAction)
    ensures ParseAction(ActionName(a)) == Some(a)
  {
    assert ACTIONS[0] == MoveLeft && ACTIONS[1] == MoveRight && ACTIONS[2] == SoftDrop && ACTIONS[3] == HardDrop;
    assert ACTIONS[4] == RotateCw && ACTIONS[5] == RotateCcw && ACTIONS[6] == Hold && ACTIONS[7] == Pause;
    assert ACTIONS[8] == Restart;
    FindNamed(a, ACTIONS);
  }

  lemma RotationRoundTrip(r: Rotation)
    ensures ParseRotation(RotationName(r)) == Some(r)
  {
    assert Lower(RotationName(r)[0]) == RotationName(r)[0];
  }

  /** Characters the format uses as separators. */
  predicate Clean(s: string) {
    forall i :: 0 <= i < |s| ==> s[i] != '\t' && s[i] != '\n' && s[i] != '\r' && s[i] != ','
  }

  lemma NamesClean(a: GameAction, r: Rotation, b: bool)
    ensures Clean(ActionName(a)) && Clean(RotationName(r)) && Clean(ShowBool(b))
  {
  }

  lemma NumbersClean(n: nat, x: int)
    ensures Clean(ShowNat(n)) && Clean(ShowInt(x))
  {
    assert AllDigits(ShowNat(n));
    if x < 0 { assert AllDigits(ShowNat(-x)); }
  }
}
