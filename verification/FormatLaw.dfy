/**
  The replay format line by line (crates/tetris-session/src/engine/replay.rs:125-256): what a tape looks
  like, and exactly which header, step and input lines are read.
*/
module FormatLaws {
  import opened Types
  import opened Text
  import opened Sessions
  import opened Snapshots
  import opened Replays
  import opened ReplayText

  // ---- what is written -------------------------------------------------

  lemma TwoFields(a: string, b: string, c: char)
    ensures Join([a, b], c) == a + [c] + b
  {
    assert [a, b][1..] == [b];
  }

  lemma ThreeFields(a: string, b: string, d: string, c: char)
    ensures Join([a, b, d], c) == a + [c] + b + [c] + d
  {
    assert [a, b, d][1..] == [b, d];
    TwoFields(b, d, c);
  }

  lemma FourFields(a: string, b: string, d: string, e: string, c: char)
    ensures Join([a, b, d, e], c) == a + [c] + b + [c] + d + [c] + e
  {
    hide Join;
    assert [a, b, d, e][1..] == [b, d, e];
    JoinFirst([a, b, d, e], c);
    ThreeFields(b, d, e, c);
  }

  lemma FiveFields(a: string, b: string, d: string, e: string, f: string, c: char)
    ensures Join([a, b, d, e, f], c) == a + [c] + b + [c] + d + [c] + e + [c] + f
  {
    hide Join;
    assert [a, b, d, e, f][1..] == [b, d, e, f];
    JoinFirst([a, b, d, e, f], c);
    FourFields(b, d, e, f, c);
  }

  lemma JoinFirst(parts: seq<string>, c: char)
    requires |parts| > 1
    ensures Join(parts, c) == parts[0] + [c] + Join(parts[1..], c)
  {
  }

  /** Each kind of line, field by field. */
  lemma LinesWritten(seed: u32, r: StepRecord, actions: seq<GameAction>, restart: Option<u32>, x: int,
                     rotation: Rotation, useHold: bool, a: GameAction)
    ensures HeaderLine(seed) == "TTR2" + "\t" + "tui-guideline-2026.1" + "\t" + ShowNat(seed)
    ensures StepLine(r) == "S" + "\t" + ShowNat(r.step) + "\t" + ShowNat(r.stateHash)
    ensures CommandLine(Actions(actions, restart)) ==
      "R" + "\t" + "A" + "\t" + SeedField(restart) + "\t" + Join(ActionNames(actions), ',')
    ensures CommandLine(PlaceAt(x, rotation, useHold)) ==
      "R" + "\t" + "P" + "\t" + ShowInt(x) + "\t" + RotationName(rotation) + "\t" +
      (if useHold then "true" else "false")
    ensures LocalLine(a) == "L" + "\t" + ActionName(a)
    ensures restart.None? ==> SeedField(restart) == "-"
  {
    hide Join, ShowNat, ShowInt, ActionNames, ActionName, RotationName;
    ThreeFields(FORMAT, RULESET, ShowNat(seed), '\t');
    ThreeFields("S", ShowNat(r.step), ShowNat(r.stateHash), '\t');
    FourFields("R", "A", SeedField(restart), Join(ActionNames(actions), ','), '\t');
    FiveFields("R", "P", ShowInt(x), RotationName(rotation), ShowBool(useHold), '\t');
    TwoFields("L", ActionName(a), '\t');
    assert ['\t'] == "\t";
  }

  /** A tape is its header line, then for every record its step line, commands, local actions and an E. */
  lemma TapeWritten(seed: u32, record: StepRecord, rest: seq<StepRecord>, final: Snapshot)
    ensures Encode(Tape(seed, [], final)) == HeaderLine(seed) + "\n"
    ensures RecordsLines([record] + rest) ==
      [StepLine(record)] + CommandLines(record.input.remote) + LocalLines(record.input.local) + ["E"] +
      RecordsLines(rest)
  {
    hide HeaderLine, StepLine, CommandLines, LocalLines;
    assert ([record] + rest)[1..] == rest;
    assert Unlines([HeaderLine(seed)]) == HeaderLine(seed) + ['\n'] + Unlines([]);
  }

  // ---- what is read ----------------------------------------------------

  lemma {:induction false} JoinSplit(s: string, c: char)
    ensures Join(Split(s, c), c) == s
    ensures forall i :: 0 <= i < |Split(s, c)| ==> c !in Split(s, c)[i]
  {
    if s == [] {
    } else {
      var rest := Split(s[1..], c);
      JoinSplit(s[1..], c);
      if s[0] == c {
        assert ([[]] + rest)[1..] == rest;
        assert Join([[]] + rest, c) == [] + [c] + Join(rest, c);
      } else {
        var parts := [[s[0]] + rest[0]] + rest[1..];
        assert parts[1..] == rest[1..];
        if |rest| == 1 {
          assert Join(parts, c) == [s[0]] + rest[0];
        } else {
          assert Join(parts, c) == [s[0]] + rest[0] + [c] + Join(rest[1..], c);
        }
      }
    }
  }

  /** A line's fields are these exactly if none holds a tab and the line is them with tabs between. */
  lemma FieldsExactly(line: string, fields: seq<string>)
    requires fields != []
    ensures Split(line, '\t') == fields <==>
      (forall i :: 0 <= i < |fields| ==> '\t' !in fields[i]) && line == Tabbed(fields)
  {
    hide Split, Join;
    JoinSplit(line, '\t');
    if (forall i :: 0 <= i < |fields| ==> '\t' !in fields[i]) && line == Tabbed(fields) { TabbedFields(fields); }
  }

  /** A numeral: an optional plus sign, zeros, and the shortest decimal form. */
  ghost predicate Numeral(s: string, n: nat) {
    exists plus: bool, zeros: nat :: s == Spelled(plus, zeros, n)
  }

  function Spelled(plus: bool, zeros: nat, n: nat): string {
    (if plus then "+" else "") + Zeros(zeros) + ShowNat(n)
  }

  function Zeros(n: nat): (s: string)
    ensures |s| == n
  {
    seq(n, _ => '0')
  }

  lemma DigitOf(c: char)
    requires IsDigit(c)
    ensures var d := c as int - '0' as int; 0 <= d < 10 && DigitChar(d) == c
  {
  }

  /** A digit more: another zero while there are only zeros, and then the number goes on. */
  lemma DigitMore(zeros: nat, n: nat, d: nat)
    requires d < 10
    ensures n > 0 ==> Spelled(false, zeros, n) + [DigitChar(d)] == Spelled(false, zeros, 10 * n + d)
    ensures n == 0 ==> Spelled(false, zeros, n) + [DigitChar(d)] == Spelled(false, zeros + 1, d)
  {
    if n > 0 {
      ShowMore(n, d);
    } else {
      OneDigit(d);
      OneDigit(0);
      assert Zeros(zeros + 1) == Zeros(zeros) + "0";
    }
  }

  lemma OneDigit(n: nat)
    requires n < 10
    ensures ShowNat(n) == [DigitChar(n)]
  {
  }

  lemma ShowMore(n: nat, d: nat)
    requires n > 0 && d < 10
    ensures ShowNat(10 * n + d) == ShowNat(n) + [DigitChar(d)]
  {
    assert (10 * n + d) / 10 == n && (10 * n + d) % 10 == d;
  }

  lemma ValueMore(s: string)
    requires s != [] && AllDigits(s)
    ensures AllDigits(s[..|s| - 1]) && IsDigit(s[|s| - 1])
    ensures DigitsValue(s) == 10 * DigitsValue(s[..|s| - 1]) + (s[|s| - 1] as int - '0' as int)
  {
  }

  lemma NoValue()
    ensures DigitsValue("") == 0
  {
  }

  lemma {:induction false} DigitsSpelled(s: string) returns (zeros: nat)
    requires s != [] && AllDigits(s)
    ensures s == Spelled(false, zeros, DigitsValue(s))
  {
    hide Spelled, DigitsValue, ShowNat, DigitChar;
    var front, c := s[..|s| - 1], s[|s| - 1];
    ValueMore(s);
    DigitOf(c);
    assert s == front + [c];
    if front == [] {
      zeros := 0;
      NoValue();
      OnlyDigit(c as int - '0' as int);
    } else {
      var z := DigitsSpelled(front);
      DigitMore(z, DigitsValue(front), c as int - '0' as int);
      zeros := if DigitsValue(front) == 0 then z + 1 else z;
    }
  }

  lemma OnlyDigit(d: nat)
    requires d < 10
    ensures Spelled(false, 0, d) == [DigitChar(d)]
  {
    OneDigit(d);
  }

  lemma {:induction false} SpelledValue(zeros: nat, n: nat)
    ensures var s := Zeros(zeros) + ShowNat(n); s != [] && AllDigits(s) && DigitsValue(s) == n
    decreases zeros, n
  {
    var s := Zeros(zeros) + ShowNat(n);
    assert ShowNat(n) != [] && AllDigits(ShowNat(n));
    if n < 10 {
      assert s[..|s| - 1] == Zeros(zeros);
      ZerosValue(zeros);
    } else {
      SpelledValue(zeros, n / 10);
      assert s[..|s| - 1] == Zeros(zeros) + ShowNat(n / 10);
    }
  }

  lemma {:induction false} ZerosValue(zeros: nat)
    ensures var s := Zeros(zeros); AllDigits(s) && DigitsValue(s) == 0
  {
    var s := Zeros(zeros);
    if zeros == 0 {
    } else {
      ZerosValue(zeros - 1);
      assert s[..zeros - 1] == Zeros(zeros - 1);
    }
  }

  lemma ReadNumeral(s: string, max: nat, n: nat)
    requires ParseUnsigned(s, max) == Some(n)
    ensures n <= max && Numeral(s, n)
  {
    hide ShowNat, DigitsValue, Spelled;
    var plus := |s| > 1 && s[0] == '+';
    var digits := if plus then s[1..] else s;
    var zeros := DigitsSpelled(digits);
    PlusSpelled(digits, zeros, n);
    assert plus ==> s == "+" + digits;
    assert s == Spelled(plus, zeros, n);
  }

  lemma PlusSpelled(digits: string, zeros: nat, n: nat)
    requires digits == Spelled(false, zeros, n)
    ensures "+" + digits == Spelled(true, zeros, n)
  {
    hide ShowNat;
  }

  lemma WrittenNumeral(plus: bool, zeros: nat, n: nat, max: nat)
    requires n <= max
    ensures ParseUnsigned(Spelled(plus, zeros, n), max) == Some(n)
  {
    hide ShowNat, DigitsValue;
    SpelledValue(zeros, n);
    var digits := Zeros(zeros) + ShowNat(n);
    var s := Spelled(plus, zeros, n);
    if plus {
      assert s[0] == '+' && s[1..] == digits;
    } else {
      assert s == digits && IsDigit(s[0]);
    }
  }

  /** A field is read as a number exactly if it is a numeral of it that the type can hold. */
  lemma NumbersExactly(s: string, max: nat, n: nat)
    ensures ParseUnsigned(s, max) == Some(n) <==> n <= max && Numeral(s, n)
  {
    hide ParseUnsigned, Spelled;
    if ParseUnsigned(s, max) == Some(n) { ReadNumeral(s, max, n); }
    if n <= max && Numeral(s, n) {
      var plus: bool, zeros: nat :| s == Spelled(plus, zeros, n);
      WrittenNumeral(plus, zeros, n, max);
    }
  }

  /** A header is read exactly if it names the format, the ruleset and a 32-bit seed, and nothing more. */
  lemma HeadersExactly(line: string, seed: u32)
    ensures ParseHeader(line) == Ok(seed) <==>
      exists n :: '\t' !in n && Numeral(n, seed) && line == Tabbed([FORMAT, RULESET, n])
  {
    hide Split, Join, ParseUnsigned, Numeral;
    var f := Split(line, '\t');
    if ParseHeader(line) == Ok(seed) {
      NumbersExactly(f[2], U32_MAX, seed);
      assert f == [FORMAT, RULESET, f[2]];
      FieldsExactly(line, f);
    }
    if n :| '\t' !in n && Numeral(n, seed) && line == Tabbed([FORMAT, RULESET, n]) {
      NumbersExactly(n, U32_MAX, seed);
      assert '\t' !in FORMAT && '\t' !in RULESET;
      FieldsExactly(line, [FORMAT, RULESET, n]);
    }
  }

  /** A step line is read exactly if it is an S, a step number and a hash of 64 bits. */
  lemma StepLinesExactly(line: string, step: u64, hash: u64)
    ensures ParseStepLine(line) == Ok((step, hash)) <==>
      exists m, n :: '\t' !in m && '\t' !in n && Numeral(m, step) && Numeral(n, hash) && line == Tabbed(["S", m, n])
  {
    hide Split, Join, ParseUnsigned, Numeral;
    var f := Split(line, '\t');
    if ParseStepLine(line) == Ok((step, hash)) {
      NumbersExactly(f[1], TWO_TO_64 - 1, step);
      NumbersExactly(f[2], TWO_TO_64 - 1, hash);
      assert f == ["S", f[1], f[2]];
      FieldsExactly(line, f);
    }
    if m, n :| '\t' !in m && '\t' !in n && Numeral(m, step) && Numeral(n, hash) && line == Tabbed(["S", m, n]) {
      NumbersExactly(m, TWO_TO_64 - 1, step);
      NumbersExactly(n, TWO_TO_64 - 1, hash);
      FieldsExactly(line, ["S", m, n]);
    }
  }

  /** A step's line adds a local action exactly if it is an L and the action's name, in any case, with room left. */
  lemma LocalLinesExactly(line: string, input: StepInput, a: GameAction)
    requires |input.local| < MAX_LOCAL
    ensures ParseItem(line, input) == Ok(input.(local := input.local + [a])) <==>
      exists name :: '\t' !in name && EqIgnoreCase(name, ActionName(a)) && line == Tabbed(["L", name])
  {
    hide Split, Join, ActionName, ParseRemoteActions, ParsePlace;
    var f := Split(line, '\t');
    if ParseItem(line, input) == Ok(input.(local := input.local + [a])) {
      NotRemote(line, input, a);
      FoundIsNamed(f[1], ACTIONS, a);
      assert f == ["L", f[1]];
      FieldsExactly(line, f);
    }
    if name :| '\t' !in name && EqIgnoreCase(name, ActionName(a)) && line == Tabbed(["L", name]) {
      FieldsExactly(line, ["L", name]);
      NamedIsFound(name, a);
    }
  }

  /** The lines of commands leave the local actions alone. */
  lemma NotRemote(line: string, input: StepInput, a: GameAction)
    requires ParseItem(line, input) == Ok(input.(local := input.local + [a]))
    ensures var f := Split(line, '\t'); |f| == 2 && f[0] == "L" && ParseAction(f[1]) == Some(a)
  {
    hide Split, ParseSeed, ParseActions, ParseI8, ParseRotation, ParseBool, ParseAction;
    var f := Split(line, '\t');
    assert |input.local + [a]| == |input.local| + 1;
    if |f| == 2 && f[0] == "L" && ParseAction(f[1]).Some? {
      var b := ParseAction(f[1]).value;
      assert (input.local + [a])[|input.local|] == a && (input.local + [b])[|input.local|] == b;
    }
  }

  lemma {:induction false} FoundIsNamed(s: string, actions: seq<GameAction>, a: GameAction)
    requires FindAction(s, actions) == Some(a)
    ensures EqIgnoreCase(s, ActionName(a))
  {
    hide ActionName;
    if !EqIgnoreCase(s, ActionName(actions[0])) { FoundIsNamed(s, actions[1..], a); }
  }

  lemma NamedIsFound(s: string, a: GameAction)
    requires EqIgnoreCase(s, ActionName(a))
    ensures ParseAction(s) == Some(a)
  {
    hide ActionName, FindAction;
    ActionRoundTrip(a);
    SameName(s, ActionName(a), ACTIONS);
  }

  lemma {:induction false} SameName(s: string, t: string, actions: seq<GameAction>)
    requires EqIgnoreCase(s, t)
    ensures FindAction(s, actions) == FindAction(t, actions)
  {
    hide ActionName;
    if actions != [] { SameName(s, t, actions[1..]); }
  }

  /** Lines may end in a carriage return and a newline, and the last one in nothing. */
  lemma LineEnds(line: string, rest: string)
    requires PlainLine(line)
    ensures Lines(line + "\r\n" + rest) == [line] + Lines(rest)
    ensures Lines(line + "\n" + rest) == [line] + Lines(rest)
    ensures line != [] ==> Lines(line) == [line]
  {
    hide LinesFrom;
    LinesFirst(line, rest, []);
    assert [] + line == line && ['\n'] == "\n";
    ReadsOn(line, "\r\n" + rest, []);
    ReturnRead(line, rest);
    assert line + ("\r\n" + rest) == line + "\r\n" + rest;
    ReadsOn(line, [], []);
    assert line + [] == line;
    if line != [] { LastRead(line); }
  }

  lemma {:induction false} ReadsOn(line: string, rest: string, cur: string)
    requires PlainLine(line)
    ensures LinesFrom(line + rest, cur) == LinesFrom(rest, cur + line)
    decreases |line|
  {
    if line == [] {
      assert line + rest == rest && cur + line == cur;
    } else {
      assert (line + rest)[1..] == line[1..] + rest;
      assert cur + line == (cur + [line[0]]) + line[1..];
      ReadsOn(line[1..], rest, cur + [line[0]]);
    }
  }

  lemma ReturnRead(line: string, rest: string)
    requires PlainLine(line)
    ensures LinesFrom("\r\n" + rest, line) == [line] + LinesFrom(rest, [])
  {
    assert ("\r\n" + rest)[1..] == "\n" + rest;
    assert ("\n" + rest)[1..] == rest;
    assert StripCr(line + ['\r']) == line;
  }

  lemma LastRead(line: string)
    requires line != []
    ensures LinesFrom([], line) == [line]
  {
  }

  // ---- lines of commands -----------------------------------------------

  function Minus(zeros: nat, n: nat): string {
    "-" + Spelled(false, zeros, n)
  }

  ghost predicate MinusNumeral(s: string, n: nat) {
    exists zeros: nat :: s == Minus(zeros, n)
  }

  /** A signed byte in decimal: a minus sign and the digits of its amount, or a numeral. */
  ghost predicate ByteNumeral(s: string, x: int) {
    (x >= 0 && Numeral(s, x)) || (x <= 0 && MinusNumeral(s, -x))
  }

  lemma BytesExactly(s: string, x: int)
    requires -128 <= x < 128
    ensures ParseI8(s) == Some(x) <==> ByteNumeral(s, x)
  {
    hide Spelled, DigitsValue, AllDigits, ParseUnsigned, Numeral;
    if |s| > 1 && s[0] == '-' {
      MinusIsNoNumeral(s, x);
      assert s == "-" + s[1..];
      if ParseI8(s) == Some(x) {
        var zeros := DigitsSpelled(s[1..]);
        assert s == Minus(zeros, -x);
      }
      if x <= 0 && MinusNumeral(s, -x) {
        var zeros: nat :| s == Minus(zeros, -x);
        SpelledDigits(zeros, -x);
        assert s[1..] == Spelled(false, zeros, -x);
      }
    } else {
      if x >= 0 { NumbersExactly(s, 127, x); }
      if x <= 0 && MinusNumeral(s, -x) {
        var zeros: nat :| s == Minus(zeros, -x);
        SpelledDigits(zeros, -x);
        assert false;
      }
    }
  }

  lemma SpelledDigits(zeros: nat, n: nat)
    ensures var s := Spelled(false, zeros, n); s != [] && AllDigits(s) && DigitsValue(s) == n
  {
    hide ShowNat, DigitsValue;
    SpelledValue(zeros, n);
    assert Spelled(false, zeros, n) == Zeros(zeros) + ShowNat(n);
  }

  lemma SpelledStart(plus: bool, zeros: nat, n: nat)
    ensures var s := Spelled(plus, zeros, n); s != [] && s[0] != '-'
  {
    hide ShowNat, DigitsValue;
    SpelledValue(zeros, n);
    assert IsDigit((Zeros(zeros) + ShowNat(n))[0]);
    assert Spelled(plus, zeros, n) == (if plus then "+" else "") + (Zeros(zeros) + ShowNat(n));
  }

  lemma MinusIsNoNumeral(s: string, n: int)
    requires s != [] && s[0] == '-'
    ensures n >= 0 ==> !Numeral(s, n)
  {
    hide Spelled;
    if n >= 0 {
      forall plus: bool, zeros: nat
        ensures s != Spelled(plus, zeros, n)
      {
        SpelledStart(plus, zeros, n);
      }
    }
  }

  /** The name of an orientation or its first letter, in any case. */
  predicate Names(s: string, r: Rotation) {
    EqIgnoreCase(s, RotationName(r)) || EqIgnoreCase(s, RotationName(r)[..1])
  }

  /** An orientation is read from its name or the first letter of it, in any case. */
  lemma RotationsExactly(s: string, r: Rotation)
    ensures ParseRotation(s) == Some(r) <==> Names(s, r)
  {
    FirstLetters(s);
  }

  lemma FirstLetters(s: string)
    ensures forall q: Rotation :: Names(s, q) ==> s != [] && Lower(s[0]) == RotationName(q)[0]
    ensures RotationName(North)[..1] == "n" && RotationName(East)[..1] == "e"
    ensures RotationName(South)[..1] == "s" && RotationName(West)[..1] == "w"
  {
    forall q: Rotation | Names(s, q)
      ensures s != [] && Lower(s[0]) == RotationName(q)[0]
    {
      assert RotationName(q)[..1][0] == RotationName(q)[0];
    }
  }

  /** A line adds a placement exactly if it is R, P, a signed byte, an orientation and true or false, with room left. */
  lemma PlaceLinesExactly(line: string, input: StepInput, x: int, rotation: Rotation, useHold: bool)
    requires |input.remote| < MAX_COMMANDS && -128 <= x < 128
    ensures ParseItem(line, input) == Ok(input.(remote := input.remote + [PlaceAt(x, rotation, useHold)])) <==>
      exists n, r ::
        && '\t' !in n && '\t' !in r && ByteNumeral(n, x) && Names(r, rotation)
        && line == Tabbed(["R", "P", n, r, if useHold then "true" else "false"])
  {
    hide Split, Join, ParseI8, ParseRotation, ByteNumeral, Names, ParseRemoteActions, ParseLocal;
    var f := Split(line, '\t');
    if ParseItem(line, input) == Ok(input.(remote := input.remote + [PlaceAt(x, rotation, useHold)])) {
      PlaceFields(line, input, x, rotation, useHold);
      BytesExactly(f[2], x);
      RotationsExactly(f[3], rotation);
      assert f == ["R", "P", f[2], f[3], if useHold then "true" else "false"];
      FieldsExactly(line, f);
    }
    if n, r :|
      && '\t' !in n && '\t' !in r && ByteNumeral(n, x) && Names(r, rotation)
      && line == Tabbed(["R", "P", n, r, if useHold then "true" else "false"])
    {
      BytesExactly(n, x);
      RotationsExactly(r, rotation);
      FieldsExactly(line, ["R", "P", n, r, if useHold then "true" else "false"]);
    }
  }

  lemma PlaceFields(line: string, input: StepInput, x: int, rotation: Rotation, useHold: bool)
    requires ParseItem(line, input) == Ok(input.(remote := input.remote + [PlaceAt(x, rotation, useHold)]))
    ensures var f := Split(line, '\t');
      && |f| == 5 && f[0] == "R" && f[1] == "P" && ParseI8(f[2]) == Some(x)
      && ParseRotation(f[3]) == Some(rotation) && f[4] == if useHold then "true" else "false"
  {
    hide Split, ParseI8, ParseRotation, ParseAction, ParseSeed, ParseActions;
    var wanted := input.(remote := input.remote + [PlaceAt(x, rotation, useHold)]);
    assert wanted.remote[|input.remote|] == PlaceAt(x, rotation, useHold);
  }

  /** A dash for no seed, else a numeral of it. */
  ghost predicate SeedNumeral(s: string, seed: Option<u32>) {
    match seed case None => s == "-" case Some(n) => s != "-" && Numeral(s, n)
  }

  lemma SeedsExactly(s: string, seed: Option<u32>)
    ensures ParseSeed(s) == Ok(seed) <==> SeedNumeral(s, seed)
  {
    hide ParseUnsigned, Numeral;
    if seed.Some? { NumbersExactly(s, U32_MAX, seed.value); }
  }

  /** These are names of the actions, one by one, in any case. */
  predicate NamesOf(names: seq<string>, actions: seq<GameAction>) {
    |names| == |actions| && forall i :: 0 <= i < |names| ==> EqIgnoreCase(names[i], ActionName(actions[i]))
  }

  lemma {:induction false} ActionsExactly(names: seq<string>, parsed: seq<GameAction>, actions: seq<GameAction>)
    requires |parsed| + |actions| <= MAX_ACTIONS
    ensures ParseActions(names, parsed) == Ok(parsed + actions) <==> NamesOf(names, actions)
    decreases |names|
  {
    hide FindAction, EqIgnoreCase, ActionName;
    if names == [] {
      assert parsed + actions == parsed <==> actions == [] by { assert |parsed + actions| == |parsed| + |actions|; }
    } else if actions == [] {
      Longer(names, parsed);
    } else {
      var a := actions[0];
      if ParseAction(names[0]) == Some(a) {
        FoundIsNamed(names[0], ACTIONS, a);
        ActionsExactly(names[1..], parsed + [a], actions[1..]);
        assert parsed + [a] + actions[1..] == parsed + actions;
        assert NamesOf(names, actions) <==> NamesOf(names[1..], actions[1..]) by { FirstNamed(names, actions); }
      } else {
        if EqIgnoreCase(names[0], ActionName(a)) { NamedIsFound(names[0], a); }
        NextOf(parsed, actions);
        if ParseActions(names, parsed) == Ok(parsed + actions) { KeepsParsed(names, parsed); }
      }
    }
  }

  lemma NextOf(parsed: seq<GameAction>, actions: seq<GameAction>)
    requires actions != []
    ensures (parsed + actions)[|parsed|] == actions[0]
  {
  }

  lemma FirstNamed(names: seq<string>, actions: seq<GameAction>)
    requires names != [] && actions != [] && EqIgnoreCase(names[0], ActionName(actions[0]))
    ensures NamesOf(names, actions) <==> NamesOf(names[1..], actions[1..])
  {
    hide EqIgnoreCase, ActionName;
    if NamesOf(names[1..], actions[1..]) {
      forall i | 0 <= i < |names|
        ensures EqIgnoreCase(names[i], ActionName(actions[i]))
      {
        if i > 0 { assert names[i] == names[1..][i - 1] && actions[i] == actions[1..][i - 1]; }
      }
    }
  }

  /** Actions read are added to those read before. */
  lemma {:induction false} KeepsParsed(names: seq<string>, parsed: seq<GameAction>)
    requires |parsed| <= MAX_ACTIONS && ParseActions(names, parsed).Ok?
    ensures var all := ParseActions(names, parsed).value;
      && |all| == |parsed| + |names| && all[..|parsed|] == parsed
      && (names != [] ==> ParseAction(names[0]) == Some(all[|parsed|]))
    decreases |names|
  {
    hide ParseAction;
    if names == [] {
    } else {
      var more := parsed + [ParseAction(names[0]).value];
      KeepsParsed(names[1..], more);
      var all := ParseActions(names, parsed).value;
      assert all[..|parsed|] == all[..|more|][..|parsed|];
      assert all[|parsed|] == all[..|more|][|parsed|];
    }
  }

  lemma Longer(names: seq<string>, parsed: seq<GameAction>)
    requires names != [] && |parsed| <= MAX_ACTIONS
    ensures ParseActions(names, parsed) != Ok(parsed + [])
  {
    if ParseActions(names, parsed).Ok? { KeepsParsed(names, parsed); }
  }

  /** The field of action names: empty for none. */
  function NameList(field: string): seq<string> {
    if field == [] then [] else Split(field, ',')
  }

  /** A line adds an action list exactly if it is R, A, a seed or a dash and the actions' names, with room left. */
  lemma ActionLinesExactly(line: string, input: StepInput, actions: seq<GameAction>, seed: Option<u32>)
    requires |input.remote| < MAX_COMMANDS && |actions| <= MAX_ACTIONS
    ensures ParseItem(line, input) == Ok(input.(remote := input.remote + [Actions(actions, seed)])) <==>
      exists s, names ::
        && '\t' !in s && '\t' !in names && SeedNumeral(s, seed) && NamesOf(NameList(names), actions)
        && line == Tabbed(["R", "A", s, names])
  {
    hide Split, Join, ParseSeed, SeedNumeral, NamesOf, ParseActions, ParsePlace, ParseLocal;
    var f := Split(line, '\t');
    assert [] + actions == actions;
    if ParseItem(line, input) == Ok(input.(remote := input.remote + [Actions(actions, seed)])) {
      ActionFields(line, input, actions, seed);
      SeedsExactly(f[2], seed);
      ActionsExactly(NameList(f[3]), [], actions);
      assert f == ["R", "A", f[2], f[3]];
      FieldsExactly(line, f);
    }
    if s, names :|
      && '\t' !in s && '\t' !in names && SeedNumeral(s, seed) && NamesOf(NameList(names), actions)
      && line == Tabbed(["R", "A", s, names])
    {
      SeedsExactly(s, seed);
      ActionsExactly(NameList(names), [], actions);
      FieldsExactly(line, ["R", "A", s, names]);
    }
  }

  lemma ActionFields(line: string, input: StepInput, actions: seq<GameAction>, seed: Option<u32>)
    requires ParseItem(line, input) == Ok(input.(remote := input.remote + [Actions(actions, seed)]))
    ensures var f := Split(line, '\t');
      && |f| == 4 && f[0] == "R" && f[1] == "A" && ParseSeed(f[2]) == Ok(seed)
      && ParseActions(NameList(f[3]), []) == Ok(actions)
  {
    hide Split, ParseI8, ParseRotation, ParseBool, ParseAction, ParseSeed, ParseActions;
    var wanted := input.(remote := input.remote + [Actions(actions, seed)]);
    assert wanted.remote[|input.remote|] == Actions(actions, seed);
  }

  // ---- whole tapes -----------------------------------------------------

  /** Lines, none of them an E, that add up to this input. */
  predicate AddsUp(items: seq<string>, from: StepInput, input: StepInput) {
    if items == [] then from == input
    else items[0] != "E" && ParseItem(items[0], from).Ok? && AddsUp(items[1..], ParseItem(items[0], from).value, input)
  }

  /** The lines of these records: for each a step line, lines that add up to its input, and an E. */
  ghost predicate Blocks(lines: seq<string>, rs: seq<StepRecord>)
    decreases |rs|
  {
    if rs == [] then lines == [] else exists rest :: FirstBlock(lines, rs[0], rest) && Blocks(rest, rs[1..])
  }

  lemma {:induction false} InputExactly(lines: seq<string>, from: StepInput, input: StepInput, rest: seq<string>)
    ensures ParseInput(lines, from) == Ok((input, rest)) <==>
      exists items :: AddsUp(items, from, input) && lines == items + ["E"] + rest
    decreases |lines|
  {
    hide ParseItem;
    if lines == [] {
    } else if lines[0] == "E" {
      EndsHere(lines, from, input, rest);
    } else {
      var next := ParseItem(lines[0], from);
      if next.Ok? { InputExactly(lines[1..], next.value, input, rest); }
      GoesOn(lines, from, input, rest);
    }
  }

  lemma FirstOf(items: seq<string>, rest: seq<string>)
    ensures var lines := items + ["E"] + rest;
      && lines[0] == (if items == [] then "E" else items[0])
      && lines[1..] == (if items == [] then rest else items[1..] + ["E"] + rest)
  {
  }

  lemma EndsHere(lines: seq<string>, from: StepInput, input: StepInput, rest: seq<string>)
    requires lines != [] && lines[0] == "E"
    ensures from == input && lines[1..] == rest <==>
      exists items :: AddsUp(items, from, input) && lines == items + ["E"] + rest
  {
    hide ParseItem;
    if from == input && lines[1..] == rest {
      assert AddsUp([], from, input);
      assert lines == [] + ["E"] + rest;
    }
    if items :| AddsUp(items, from, input) && lines == items + ["E"] + rest { FirstOf(items, rest); }
  }

  lemma GoesOn(lines: seq<string>, from: StepInput, input: StepInput, rest: seq<string>)
    requires lines != [] && lines[0] != "E"
    ensures (exists items :: AddsUp(items, from, input) && lines == items + ["E"] + rest) <==>
      ParseItem(lines[0], from).Ok?
      && exists items :: AddsUp(items, ParseItem(lines[0], from).value, input) && lines[1..] == items + ["E"] + rest
  {
    hide ParseItem;
    if items :| AddsUp(items, from, input) && lines == items + ["E"] + rest { FirstOf(items, rest); }
    if ParseItem(lines[0], from).Ok? {
      var next := ParseItem(lines[0], from).value;
      if items :| AddsUp(items, next, input) && lines[1..] == items + ["E"] + rest {
        var more := [lines[0]] + items;
        assert more[1..] == items;
        assert AddsUp(more, from, input);
        assert lines == more + ["E"] + rest;
      }
    }
  }

  /** The first record's lines and the rest. */
  ghost predicate FirstBlock(lines: seq<string>, r: StepRecord, rest: seq<string>) {
    exists head, items ::
      && lines == [head] + items + ["E"] + rest
      && ParseStepLine(head) == Ok((r.step, r.stateHash)) && AddsUp(items, EMPTY, r.input)
  }

  lemma BlockRead(lines: seq<string>, r: StepRecord, rest: seq<string>)
    ensures FirstBlock(lines, r, rest) <==>
      && lines != [] && ParseStepLine(lines[0]) == Ok((r.step, r.stateHash))
      && ParseInput(lines[1..], EMPTY) == Ok((r.input, rest))
  {
    hide ParseStepLine, ParseInput, AddsUp;
    if FirstBlock(lines, r, rest) {
      var head, items :|
        && lines == [head] + items + ["E"] + rest
        && ParseStepLine(head) == Ok((r.step, r.stateHash)) && AddsUp(items, EMPTY, r.input);
      assert lines[0] == head && lines[1..] == items + ["E"] + rest;
      InputExactly(lines[1..], EMPTY, r.input, rest);
    }
    if lines != [] {
      InputExactly(lines[1..], EMPTY, r.input, rest);
      if ParseStepLine(lines[0]) == Ok((r.step, r.stateHash)) && ParseInput(lines[1..], EMPTY) == Ok((r.input, rest)) {
        var items :| AddsUp(items, EMPTY, r.input) && lines[1..] == items + ["E"] + rest;
        assert lines == [lines[0]] + items + ["E"] + rest;
      }
    }
  }

  lemma {:induction false} StepsExactly(lines: seq<string>, rs: seq<StepRecord>)
    ensures ParseSteps(lines) == Ok(rs) <==> Blocks(lines, rs)
    decreases |lines|
  {
    hide ParseStepLine, ParseInput, FirstBlock;
    if lines == [] {
      NoBlocks(rs);
    } else {
      if ParseSteps(lines) == Ok(rs) {
        var rest := ParseInput(lines[1..], EMPTY).value.1;
        BlockRead(lines, rs[0], rest);
        StepsExactly(rest, rs[1..]);
      }
      if Blocks(lines, rs) && rs != [] {
        var rest :| FirstBlock(lines, rs[0], rest) && Blocks(rest, rs[1..]);
        BlockRead(lines, rs[0], rest);
        StepsExactly(rest, rs[1..]);
        assert rs == [rs[0]] + rs[1..];
      }
    }
  }

  lemma NoBlocks(rs: seq<StepRecord>)
    ensures Blocks([], rs) <==> rs == []
  {
    hide FirstBlock;
    if rs != [] {
      forall rest
        ensures !FirstBlock([], rs[0], rest)
      {
        BlockRead([], rs[0], rest);
      }
    }
  }

  lemma RebuiltParts(seed: u32, records: seq<StepRecord>)
    ensures Rebuilt(seed, records).seed == seed && Rebuilt(seed, records).records == records
  {
    hide RecordsFrom, RunSession, NewSession;
  }

  /**
    A text is read as a tape exactly if its lines are a header with the tape's seed and the lines of the
    tape's records; its final snapshot is then the one the seed and the inputs lead to.
  */
  lemma DecodesExactly(text: string, tape: Tape)
    ensures Decode(text) == Ok(tape) <==>
      && Lines(text) != [] && ParseHeader(Lines(text)[0]) == Ok(tape.seed)
      && Blocks(Lines(text)[1..], tape.records) && tape == Rebuilt(tape.seed, tape.records)
  {
    hide Lines, ParseHeader, ParseSteps, Blocks, Rebuilt;
    if Decode(text).Ok? {
      RebuiltParts(ParseHeader(Lines(text)[0]).value, ParseSteps(Lines(text)[1..]).value);
    }
    if Lines(text) != [] {
      StepsExactly(Lines(text)[1..], tape.records);
      if Decode(text).Ok? { StepsExactly(Lines(text)[1..], Decode(text).value.records); }
    }
  }
}
