/** The replay file format: printer and parser (crates/tetris-session/src/engine/replay.rs:125-256). */
module ReplayText {
  import opened Types
  import opened Text
  import opened Sessions
  import opened Snapshots
  import opened Replays

  const FORMAT: string := "TTR2"
  const RULESET: string := "tui-guideline-2026.1"

  const MAX_COMMANDS := 32
  const MAX_LOCAL := 64
  const MAX_ACTIONS := 32

  datatype DecodeError =
    | MissingHeader | UnsupportedFormat | MissingRuleset | UnsupportedRuleset | MissingSeed | InvalidHeader
    | InvalidNumber | InvalidStepRecord | Unterminated | InvalidLocalAction | TooManyLocal
    | InvalidRemoteAction | TooManyRemoteActions | TooManyCommands | InvalidRotation | InvalidBool
    | InvalidCommandRecord

  // ---- printer ---------------------------------------------------------

  function Tabbed(fields: seq<string>): string {
    Join(fields, '\t')
  }

  function HeaderLine(seed: u32): string {
    Tabbed([FORMAT, RULESET, ShowNat(seed)])
  }

  function ActionNames(actions: seq<GameAction>): (names: seq<string>)
    ensures |names| == |actions|
  {
    seq(|actions|, i requires 0 <= i < |actions| => ActionName(actions[i]))
  }

  function SeedField(seed: Option<u32>): string {
    match seed
    case None => "-"
    case Some(n) => ShowNat(n)
  }

  function CommandLine(c: Command): string {
    match c
    case Actions(actions, seed) => Tabbed(["R", "A", SeedField(seed), Join(ActionNames(actions), ',')])
    case PlaceAt(x, rotation, useHold) => Tabbed(["R", "P", ShowInt(x), RotationName(rotation), ShowBool(useHold)])
  }

  function CommandLines(cs: seq<Command>): seq<string> {
    if cs == [] then [] else [CommandLine(cs[0])] + CommandLines(cs[1..])
  }

  function LocalLine(action: GameAction): string {
    Tabbed(["L", ActionName(action)])
  }

  function LocalLines(actions: seq<GameAction>): seq<string> {
    if actions == [] then [] else [LocalLine(actions[0])] + LocalLines(actions[1..])
  }

  function StepLine(r: StepRecord): string {
    Tabbed(["S", ShowNat(r.step), ShowNat(r.stateHash)])
  }

  function RecordLines(r: StepRecord): seq<string> {
    [StepLine(r)] + CommandLines(r.input.remote) + LocalLines(r.input.local) + ["E"]
  }

  function RecordsLines(rs: seq<StepRecord>): seq<string> {
    if rs == [] then [] else RecordLines(rs[0]) + RecordsLines(rs[1..])
  }

  /** `encode`. */
  function Encode(tape: Tape): string {
    Unlines([HeaderLine(tape.seed)] + RecordsLines(tape.records))
  }

  // ---- parser ----------------------------------------------------------

  function ParseHeader(line: string): Result<u32, DecodeError> {
    var fields := Split(line, '\t');
    if fields[0] != FORMAT then Err(UnsupportedFormat)
    else if |fields| < 2 then Err(MissingRuleset)
    else if fields[1] != RULESET then Err(UnsupportedRuleset)
    else if |fields| < 3 then Err(MissingSeed)
    else
      match ParseUnsigned(fields[2], U32_MAX)
      case None => Err(InvalidNumber)
      case Some(seed) => if |fields| > 3 then Err(InvalidHeader) else Ok(seed)
  }

  function ParseSeed(field: string): Result<Option<u32>, DecodeError> {
    if field == "-" then Ok(None)
    else
      match ParseUnsigned(field, U32_MAX)
      case None => Err(InvalidNumber)
      case Some(n) => Ok(Some(n))
  }

  function ParseActions(names: seq<string>, parsed: seq<GameAction>): (r: Result<seq<GameAction>, DecodeError>)
    requires |parsed| <= MAX_ACTIONS
    ensures r.Ok? ==> |r.value| <= MAX_ACTIONS
    decreases |names|
  {
    if names == [] then Ok(parsed)
    else
      match ParseAction(names[0])
      case None => Err(InvalidRemoteAction)
      case Some(a) =>
        if |parsed| == MAX_ACTIONS then Err(TooManyRemoteActions) else ParseActions(names[1..], parsed + [a])
  }

  function PushCommand(input: StepInput, c: Command): Result<StepInput, DecodeError> {
    if |input.remote| >= MAX_COMMANDS then Err(TooManyCommands) else Ok(input.(remote := input.remote + [c]))
  }

  function ParseLocal(name: string, input: StepInput): Result<StepInput, DecodeError> {
    match ParseAction(name)
    case None => Err(InvalidLocalAction)
    case Some(a) => if |input.local| >= MAX_LOCAL then Err(TooManyLocal) else Ok(input.(local := input.local + [a]))
  }

  function ParseRemoteActions(seed: string, names: string, input: StepInput): Result<StepInput, DecodeError> {
    match ParseSeed(seed)
    case Err(e) => Err(e)
    case Ok(restartSeed) =>
      match ParseActions(if names == [] then [] else Split(names, ','), [])
      case Err(e) => Err(e)
      case Ok(actions) => PushCommand(input, Actions(actions, restartSeed))
  }

  function ParsePlace(x: string, rotation: string, useHold: string, input: StepInput): Result<StepInput, DecodeError> {
    match ParseI8(x)
    case None => Err(InvalidNumber)
    case Some(n) =>
      match ParseRotation(rotation)
      case None => Err(InvalidRotation)
      case Some(r) =>
        match ParseBool(useHold)
        case None => Err(InvalidBool)
        case Some(b) => PushCommand(input, PlaceAt(n, r, b))
  }

  /** One line of a step added to the input read so far. */
  function ParseItem(line: string, input: StepInput): Result<StepInput, DecodeError> {
    var f := Split(line, '\t');
    if |f| == 2 && f[0] == "L" then ParseLocal(f[1], input)
    else if |f| == 4 && f[0] == "R" && f[1] == "A" then ParseRemoteActions(f[2], f[3], input)
    else if |f| == 5 && f[0] == "R" && f[1] == "P" then ParsePlace(f[2], f[3], f[4], input)
    else Err(InvalidCommandRecord)
  }

  /** The input up to the line "E", and the lines after it. */
  function ParseInput(lines: seq<string>, input: StepInput): (r: Result<(StepInput, seq<string>), DecodeError>)
    ensures r.Ok? ==> |r.value.1| < |lines|
    decreases |lines|
  {
    if lines == [] then Err(Unterminated)
    else if lines[0] == "E" then Ok((input, lines[1..]))
    else
      match ParseItem(lines[0], input)
      case Err(e) => Err(e)
      case Ok(next) => ParseInput(lines[1..], next)
  }

  const EMPTY: StepInput := StepInput([], [])

  /** Step number and hash of a step line. */
  function ParseStepLine(line: string): Result<(u64, u64), DecodeError> {
    var f := Split(line, '\t');
    if |f| != 3 || f[0] != "S" then Err(InvalidStepRecord)
    else
      match ParseUnsigned(f[1], TWO_TO_64 - 1)
      case None => Err(InvalidNumber)
      case Some(step) =>
        match ParseUnsigned(f[2], TWO_TO_64 - 1)
        case None => Err(InvalidNumber)
        case Some(hash) => Ok((step, hash))
  }

  function ParseSteps(lines: seq<string>): Result<seq<StepRecord>, DecodeError>
    decreases |lines|
  {
    if lines == [] then Ok([])
    else
      match ParseStepLine(lines[0])
      case Err(e) => Err(e)
      case Ok((step, hash)) =>
        match ParseInput(lines[1..], EMPTY)
        case Err(e) => Err(e)
        case Ok((input, rest)) =>
          match ParseSteps(rest)
          case Err(e) => Err(e)
          case Ok(records) => Ok([StepRecord(step, input, hash)] + records)
  }

  /** The tape with these records and the final snapshot that its seed and inputs produce. */
  function Rebuilt(seed: u32, records: seq<StepRecord>): Tape {
    Record(seed, Inputs(records)).(records := records)
  }

  /** `decode`, on valid UTF-8. */
  function Decode(text: string): Result<Tape, DecodeError> {
    var lines := Lines(text);
    if lines == [] then Err(MissingHeader)
    else
      match ParseHeader(lines[0])
      case Err(e) => Err(e)
      case Ok(seed) =>
        match ParseSteps(lines[1..])
        case Err(e) => Err(e)
        case Ok(records) => Ok(Rebuilt(seed, records))
  }

  // ---- round trip ------------------------------------------------------

  /** Inputs within their buffers, and the final snapshot the one seed and inputs produce. */
  ghost predicate TapeOk(tape: Tape) {
    && (forall i :: 0 <= i < |tape.records| ==> InputOk(tape.records[i].input))
    && tape == Rebuilt(tape.seed, tape.records)
  }

  lemma TabbedFields(fields: seq<string>)
    requires fields != [] && forall i :: 0 <= i < |fields| ==> '\t' !in fields[i]
    ensures Split(Tabbed(fields), '\t') == fields
  {
    SplitJoin(fields, '\t');
  }

  lemma HeaderRoundTrip(seed: u32)
    ensures ParseHeader(HeaderLine(seed)) == Ok(seed)
    ensures PlainLine(HeaderLine(seed))
  {
    hide Split, Join, ShowNat, ParseUnsigned;
    NumbersClean(seed, 0);
    UnsignedRoundTrip(seed, U32_MAX);
    var fields := [FORMAT, RULESET, ShowNat(seed)];
    TabbedFields(fields);
    JoinPlain(fields);
  }

  lemma {:induction false} JoinPlain(fields: seq<string>)
    requires forall i :: 0 <= i < |fields| ==> PlainLine(fields[i])
    ensures PlainLine(Join(fields, '\t')) && PlainLine(Join(fields, ','))
  {
    if |fields| > 1 { JoinPlain(fields[1..]); }
  }

  lemma {:induction false} JoinNoTab(fields: seq<string>)
    requires forall i :: 0 <= i < |fields| ==> '\t' !in fields[i]
    ensures '\t' !in Join(fields, ',')
  {
    if |fields| > 1 { JoinNoTab(fields[1..]); }
  }

  lemma CleanMeans(s: string)
    requires Clean(s)
    ensures PlainLine(s) && '\t' !in s && ',' !in s
  {
  }

  lemma StepLineRoundTrip(r: StepRecord)
    ensures ParseStepLine(StepLine(r)) == Ok((r.step, r.stateHash))
    ensures PlainLine(StepLine(r))
  {
    hide Split, Join, ShowNat, ParseUnsigned, Clean;
    NumbersClean(r.step, 0);
    NumbersClean(r.stateHash, 0);
    CleanMeans(ShowNat(r.step));
    CleanMeans(ShowNat(r.stateHash));
    UnsignedRoundTrip(r.step, TWO_TO_64 - 1);
    UnsignedRoundTrip(r.stateHash, TWO_TO_64 - 1);
    var fields := ["S", ShowNat(r.step), ShowNat(r.stateHash)];
    TabbedFields(fields);
    JoinPlain(fields);
  }

  lemma {:induction false} ActionsRoundTrip(actions: seq<GameAction>, parsed: seq<GameAction>)
    requires |parsed| + |actions| <= MAX_ACTIONS
    ensures ParseActions(ActionNames(actions), parsed) == Ok(parsed + actions)
    decreases |actions|
  {
    hide ParseAction, ActionName;
    if actions == [] {
      assert parsed + actions == parsed;
    } else {
      ActionRoundTrip(actions[0]);
      assert ActionNames(actions)[1..] == ActionNames(actions[1..]);
      ActionsRoundTrip(actions[1..], parsed + [actions[0]]);
      assert parsed + [actions[0]] + actions[1..] == parsed + actions;
    }
  }

  /** The comma-separated field gives the names back, also when there are none. */
  lemma NamesField(actions: seq<GameAction>)
    ensures var field := Join(ActionNames(actions), ',');
      && (if field == [] then [] else Split(field, ',')) == ActionNames(actions)
      && '\t' !in field && PlainLine(field)
  {
    hide Split, ActionName, Clean;
    var names := ActionNames(actions);
    forall i | 0 <= i < |names| ensures PlainLine(names[i]) && '\t' !in names[i] && ',' !in names[i] && names[i] != [] {
      NamesClean(actions[i], North, true);
      CleanMeans(names[i]);
      NameNotEmpty(actions[i]);
    }
    JoinPlain(names);
    JoinNoTab(names);
    if names != [] {
      SplitJoin(names, ',');
      assert Join(names, ',') != [];
    }
  }

  lemma NameNotEmpty(a: GameAction)
    ensures ActionName(a) != []
  {
  }

  lemma SeedRoundTrip(seed: Option<u32>)
    ensures ParseSeed(SeedField(seed)) == Ok(seed)
    ensures '\t' !in SeedField(seed) && PlainLine(SeedField(seed))
  {
    hide ParseUnsigned, ShowNat;
    match seed
    case None =>
    case Some(n) =>
      UnsignedRoundTrip(n, U32_MAX);
      NumbersClean(n, 0);
      assert IsDigit(ShowNat(n)[0]);
  }

  lemma CommandRoundTrip(c: Command, input: StepInput)
    requires CommandOk(c) && |input.remote| < MAX_COMMANDS
    ensures ParseItem(CommandLine(c), input) == Ok(input.(remote := input.remote + [c]))
    ensures PlainLine(CommandLine(c)) && CommandLine(c) != "E"
  {
    hide Split, Join, ParseActions, ParseSeed, SeedField, ActionNames;
    hide ParseI8, ShowInt, ParseRotation, RotationName, Clean;
    match c
    case Actions(actions, seed) =>
      var fields := ["R", "A", SeedField(seed), Join(ActionNames(actions), ',')];
      SeedRoundTrip(seed);
      NamesField(actions);
      ActionsRoundTrip(actions, []);
      assert [] + actions == actions;
      TabbedFields(fields);
      JoinPlain(fields);
      SplitWhole("E", '\t');
    case PlaceAt(x, rotation, useHold) =>
      var fields := ["R", "P", ShowInt(x), RotationName(rotation), ShowBool(useHold)];
      NumbersClean(0, x);
      NamesClean(MoveLeft, rotation, useHold);
      CleanMeans(ShowInt(x));
      CleanMeans(RotationName(rotation));
      CleanMeans(ShowBool(useHold));
      I8RoundTrip(x);
      RotationRoundTrip(rotation);
      TabbedFields(fields);
      JoinPlain(fields);
      SplitWhole("E", '\t');
  }

  lemma LocalRoundTrip(a: GameAction, input: StepInput)
    requires |input.local| < MAX_LOCAL
    ensures ParseItem(LocalLine(a), input) == Ok(input.(local := input.local + [a]))
    ensures PlainLine(LocalLine(a)) && LocalLine(a) != "E"
  {
    hide Split, Join, ParseAction, ActionName, Clean;
    var fields := ["L", ActionName(a)];
    NamesClean(a, North, true);
    CleanMeans(ActionName(a));
    ActionRoundTrip(a);
    TabbedFields(fields);
    JoinPlain(fields);
    SplitWhole("E", '\t');
  }

  /** Reading goes on after a line that adds to the input. */
  lemma ItemRead(line: string, rest: seq<string>, input: StepInput, next: StepInput)
    requires line != "E" && ParseItem(line, input) == Ok(next)
    ensures ParseInput([line] + rest, input) == ParseInput(rest, next)
  {
    hide ParseItem;
    assert ([line] + rest)[1..] == rest;
  }

  lemma {:induction false} RemoteLinesRead(cs: seq<Command>, tail: seq<string>, input: StepInput)
    requires |input.remote| + |cs| <= MAX_COMMANDS && forall i :: 0 <= i < |cs| ==> CommandOk(cs[i])
    ensures ParseInput(CommandLines(cs) + tail, input) == ParseInput(tail, input.(remote := input.remote + cs))
    decreases |cs|
  {
    hide ParseItem, CommandLine, CommandOk, ParseInput;
    if cs == [] {
      assert CommandLines(cs) + tail == tail && input.remote + cs == input.remote;
    } else {
      CommandRoundTrip(cs[0], input);
      var next := input.(remote := input.remote + [cs[0]]);
      assert CommandLines(cs) + tail == [CommandLine(cs[0])] + (CommandLines(cs[1..]) + tail);
      ItemRead(CommandLine(cs[0]), CommandLines(cs[1..]) + tail, input, next);
      RemoteLinesRead(cs[1..], tail, next);
      assert next.remote + cs[1..] == input.remote + cs;
    }
  }

  lemma {:induction false} LocalLinesRead(actions: seq<GameAction>, tail: seq<string>, input: StepInput)
    requires |input.local| + |actions| <= MAX_LOCAL
    ensures ParseInput(LocalLines(actions) + tail, input) == ParseInput(tail, input.(local := input.local + actions))
    decreases |actions|
  {
    hide ParseItem, LocalLine, ParseInput;
    if actions == [] {
      assert LocalLines(actions) + tail == tail && input.local + actions == input.local;
    } else {
      LocalRoundTrip(actions[0], input);
      var next := input.(local := input.local + [actions[0]]);
      assert LocalLines(actions) + tail == [LocalLine(actions[0])] + (LocalLines(actions[1..]) + tail);
      ItemRead(LocalLine(actions[0]), LocalLines(actions[1..]) + tail, input, next);
      LocalLinesRead(actions[1..], tail, next);
      assert next.local + actions[1..] == input.local + actions;
    }
  }

  lemma InputRead(input: StepInput, rest: seq<string>)
    requires InputOk(input)
    ensures ParseInput(CommandLines(input.remote) + LocalLines(input.local) + ["E"] + rest, EMPTY) == Ok((input, rest))
  {
    hide ParseItem, CommandLines, LocalLines, CommandOk;
    var tail := ["E"] + rest;
    var c, l := CommandLines(input.remote), LocalLines(input.local);
    assert c + l + ["E"] + rest == c + (l + tail);
    RemoteLinesRead(input.remote, l + tail, EMPTY);
    assert [] + input.remote == input.remote && [] + input.local == input.local;
    LocalLinesRead(input.local, tail, StepInput(input.remote, []));
    assert tail[1..] == rest;
  }

  lemma {:induction false} StepsRead(rs: seq<StepRecord>)
    requires forall i :: 0 <= i < |rs| ==> InputOk(rs[i].input)
    ensures ParseSteps(RecordsLines(rs)) == Ok(rs)
    decreases |rs|
  {
    hide ParseStepLine, ParseInput, StepLine, CommandLines, LocalLines, InputOk, RecordsLines;
    NoRecordLines();
    if rs == [] {
    } else {
      var r, rest := rs[0], RecordsLines(rs[1..]);
      StepLineRoundTrip(r);
      InputRead(r.input, rest);
      StepsRead(rs[1..]);
      FirstRecordLines(rs);
      assert rs == [r] + rs[1..];
    }
  }

  lemma NoRecordLines()
    ensures RecordsLines([]) == []
  {
  }

  lemma FirstRecordLines(rs: seq<StepRecord>)
    requires rs != []
    ensures var lines, input := RecordsLines(rs), rs[0].input;
      && |lines| > 0 && lines[0] == StepLine(rs[0])
      && lines[1..] == CommandLines(input.remote) + LocalLines(input.local) + ["E"] + RecordsLines(rs[1..])
  {
    hide StepLine, CommandLines, LocalLines;
    var a, b := [StepLine(rs[0])], CommandLines(rs[0].input.remote);
    var c, d := LocalLines(rs[0].input.local), RecordsLines(rs[1..]);
    assert RecordsLines(rs) == a + (b + c + ["E"] + d);
  }

  lemma {:induction false} CommandLinesPlain(cs: seq<Command>)
    requires forall i :: 0 <= i < |cs| ==> CommandOk(cs[i])
    ensures forall i :: 0 <= i < |CommandLines(cs)| ==> PlainLine(CommandLines(cs)[i])
  {
    hide CommandLine, PlainLine, CommandOk;
    if cs == [] {
    } else {
      CommandRoundTrip(cs[0], EMPTY);
      CommandLinesPlain(cs[1..]);
    }
  }

  lemma {:induction false} LocalLinesPlain(actions: seq<GameAction>)
    ensures forall i :: 0 <= i < |LocalLines(actions)| ==> PlainLine(LocalLines(actions)[i])
  {
    hide LocalLine, PlainLine;
    if actions == [] {
    } else {
      LocalRoundTrip(actions[0], EMPTY);
      LocalLinesPlain(actions[1..]);
    }
  }

  lemma {:induction false} RecordsPlain(rs: seq<StepRecord>)
    requires forall i :: 0 <= i < |rs| ==> InputOk(rs[i].input)
    ensures forall i :: 0 <= i < |RecordsLines(rs)| ==> PlainLine(RecordsLines(rs)[i])
    decreases |rs|
  {
    hide StepLine, PlainLine, CommandLines, LocalLines;
    if rs == [] {
    } else {
      StepLineRoundTrip(rs[0]);
      CommandLinesPlain(rs[0].input.remote);
      LocalLinesPlain(rs[0].input.local);
      assert PlainLine("E") by { PlainEnd(); }
      RecordsPlain(rs[1..]);
      var a, b := RecordLines(rs[0]), RecordsLines(rs[1..]);
      assert forall i :: 0 <= i < |a| ==> PlainLine(a[i]);
    }
  }

  lemma PlainEnd()
    ensures PlainLine("E")
  {
  }

  /**
    Reading back what was written gives the same tape, whatever its step numbers, hashes, signed
    targets, empty action lists and restart seeds.
  */
  lemma RoundTrip(tape: Tape)
    requires TapeOk(tape)
    ensures Decode(Encode(tape)) == Ok(tape)
  {
    hide ParseHeader, ParseSteps, HeaderLine, RecordsLines, Rebuilt, PlainLine, InputOk;
    var lines := [HeaderLine(tape.seed)] + RecordsLines(tape.records);
    HeaderRoundTrip(tape.seed);
    RecordsPlain(tape.records);
    LinesOfUnlines(lines);
    assert lines[1..] == RecordsLines(tape.records);
    StepsRead(tape.records);
  }

  lemma ItemOk(line: string, input: StepInput)
    requires InputOk(input) && ParseItem(line, input).Ok?
    ensures InputOk(ParseItem(line, input).value)
  {
    hide Split, ParseActions, ParseSeed, ParseI8, ParseRotation, ParseBool, ParseAction;
  }

  lemma {:induction false} ParsedInputOk(lines: seq<string>, input: StepInput)
    requires InputOk(input) && ParseInput(lines, input).Ok?
    ensures InputOk(ParseInput(lines, input).value.0)
    decreases |lines|
  {
    hide ParseItem, InputOk;
    if lines[0] != "E" {
      ItemOk(lines[0], input);
      ParsedInputOk(lines[1..], ParseItem(lines[0], input).value);
    }
  }

  lemma {:induction false} ParsedStepsOk(lines: seq<string>)
    requires ParseSteps(lines).Ok?
    ensures forall i :: 0 <= i < |ParseSteps(lines).value| ==> InputOk(ParseSteps(lines).value[i].input)
    decreases |lines|
  {
    hide ParseStepLine, ParseInput, InputOk;
    if lines == [] {
    } else {
      EmptyOk();
      ParsedInputOk(lines[1..], EMPTY);
      ParsedStepsOk(ParseInput(lines[1..], EMPTY).value.1);
    }
  }

  lemma EmptyOk()
    ensures InputOk(EMPTY)
  {
  }

  /** Every decoded tape can be written again and read back without loss. */
  lemma ReencodingLosesNothing(text: string)
    requires Decode(text).Ok?
    ensures TapeOk(Decode(text).value)
    ensures Decode(Encode(Decode(text).value)) == Ok(Decode(text).value)
  {
    hide Lines, ParseHeader, ParseSteps, InputOk, Encode, RecordsFrom, RunSession, NewSession;
    ParsedStepsOk(Lines(text)[1..]);
    RoundTrip(Decode(text).value);
  }

  /** Everything record produces can be written and read back. */
  lemma RecordedRoundTrip(seed: u32, inputs: seq<StepInput>)
    requires forall i :: 0 <= i < |inputs| ==> InputOk(inputs[i])
    ensures Decode(Encode(Record(seed, inputs))) == Ok(Record(seed, inputs))
  {
    hide Decode, Encode, RecordsFrom, InputOk, RunSession, NewSession;
    RecordedFrom(NewSession(seed), inputs, 0);
    var tape := Record(seed, inputs);
    assert Inputs(tape.records) == inputs;
    forall i | 0 <= i < |tape.records| ensures InputOk(tape.records[i].input) {
      assert tape.records[i].input == Inputs(tape.records)[i];
    }
    RoundTrip(tape);
  }

  // ---- implementation --------------------------------------------------

  lemma CommandLinesStep(cs: seq<Command>, i: nat)
    requires i < |cs|
    ensures CommandLines(cs[i..]) == [CommandLine(cs[i])] + CommandLines(cs[i + 1..])
  {
    hide CommandLine;
    assert cs[i..][1..] == cs[i + 1..];
  }

  lemma LocalLinesStep(actions: seq<GameAction>, i: nat)
    requires i < |actions|
    ensures LocalLines(actions[i..]) == [LocalLine(actions[i])] + LocalLines(actions[i + 1..])
  {
    hide LocalLine;
    assert actions[i..][1..] == actions[i + 1..];
  }

  lemma NoLines()
    ensures CommandLines([]) == [] && LocalLines([]) == [] && Unlines([]) == []
  {
  }

  /** The text with one more line, of those still to write. */
  lemma LineAdded(output: string, line: string, rest: seq<string>)
    ensures output + line + "\n" + Unlines(rest) == output + Unlines([line] + rest)
  {
    assert ([line] + rest)[1..] == rest;
  }

  /** The loop over a step's commands. */
  method AppendCommands(output: string, cs: seq<Command>) returns (extended: string)
    ensures extended == output + Unlines(CommandLines(cs))
  {
    hide CommandLine, CommandLines, Unlines;
    NoLines();
    extended := output;
    assert cs[0..] == cs;
    for i := 0 to |cs|
      invariant extended + Unlines(CommandLines(cs[i..])) == output + Unlines(CommandLines(cs))
    {
      CommandLinesStep(cs, i);
      LineAdded(extended, CommandLine(cs[i]), CommandLines(cs[i + 1..]));
      extended := extended + CommandLine(cs[i]) + "\n";
    }
    assert cs[|cs|..] == [];
  }

  /** The loop over a step's local actions. */
  method AppendLocals(output: string, actions: seq<GameAction>) returns (extended: string)
    ensures extended == output + Unlines(LocalLines(actions))
  {
    hide LocalLine, LocalLines, Unlines;
    NoLines();
    extended := output;
    assert actions[0..] == actions;
    for i := 0 to |actions|
      invariant extended + Unlines(LocalLines(actions[i..])) == output + Unlines(LocalLines(actions))
    {
      LocalLinesStep(actions, i);
      LineAdded(extended, LocalLine(actions[i]), LocalLines(actions[i + 1..]));
      extended := extended + LocalLine(actions[i]) + "\n";
    }
    assert actions[|actions|..] == [];
  }

  /** Appends the lines of one step, commands first. */
  method AppendStep(output: string, r: StepRecord) returns (extended: string)
    ensures extended == output + Unlines(RecordLines(r))
  {
    hide CommandLines, LocalLines, StepLine, Unlines;
    extended := output + StepLine(r) + "\n";
    extended := AppendCommands(extended, r.input.remote);
    extended := AppendLocals(extended, r.input.local);
    extended := extended + "E\n";
    OneLine(StepLine(r));
    OneLine("E");
    UnlinesAppend([StepLine(r)], CommandLines(r.input.remote));
    UnlinesAppend([StepLine(r)] + CommandLines(r.input.remote), LocalLines(r.input.local));
    UnlinesAppend([StepLine(r)] + CommandLines(r.input.remote) + LocalLines(r.input.local), ["E"]);
    assert RecordLines(r) == [StepLine(r)] + CommandLines(r.input.remote) + LocalLines(r.input.local) + ["E"];
  }

  lemma OneLine(line: string)
    ensures Unlines([line]) == line + "\n"
  {
  }

  method EncodeTape(tape: Tape) returns (output: string)
    ensures output == Encode(tape)
  {
    hide HeaderLine, RecordLines;
    output := HeaderLine(tape.seed) + "\n";
    ghost var written := [HeaderLine(tape.seed)];
    OneLine(HeaderLine(tape.seed));
    var i := 0;
    assert tape.records[0..] == tape.records;
    while i < |tape.records|
      invariant 0 <= i <= |tape.records|
      invariant output == Unlines(written)
      invariant written + RecordsLines(tape.records[i..]) == [HeaderLine(tape.seed)] + RecordsLines(tape.records)
    {
      var record := tape.records[i];
      output := AppendStep(output, record);
      UnlinesAppend(written, RecordLines(record));
      assert tape.records[i..][1..] == tape.records[i + 1..];
      written := written + RecordLines(record);
      i := i + 1;
    }
    assert written == [HeaderLine(tape.seed)] + RecordsLines(tape.records);
  }

  /** Reads lines from position i up to the end of the step. */
  method ReadInput(lines: seq<string>, start: nat) returns (r: Result<StepInput, DecodeError>, next: nat)
    requires start <= |lines|
    ensures start <= next <= |lines|
    ensures match ParseInput(lines[start..], EMPTY)
      case Ok((input, rest)) => r == Ok(input) && rest == lines[next..] && next > start
      case Err(e) => r == Err(e)
  {
    hide ParseItem;
    var input := EMPTY;
    next := start;
    while true
      invariant start <= next <= |lines|
      invariant ParseInput(lines[next..], input) == ParseInput(lines[start..], EMPTY)
      decreases |lines| - next
    {
      if next >= |lines| { return Err(Unterminated), next; }
      assert lines[next..][1..] == lines[next + 1..];
      var line := lines[next];
      if line == "E" { return Ok(input), next + 1; }
      var item := ParseItem(line, input);
      match item {
        case Err(e) => return Err(e), next;
        case Ok(extended) => input := extended;
      }
      next := next + 1;
    }
  }

  /** What is left to parse, put after what has been parsed. */
  function Resume(records: seq<StepRecord>, rest: Result<seq<StepRecord>, DecodeError>)
    : Result<seq<StepRecord>, DecodeError>
  {
    match rest
    case Ok(more) => Ok(records + more)
    case Err(e) => Err(e)
  }

  method ReadSteps(lines: seq<string>) returns (r: Result<seq<StepRecord>, DecodeError>)
    ensures r == ParseSteps(lines)
  {
    hide ParseStepLine, ParseInput;
    var records := [];
    var i: nat := 0;
    assert lines[0..] == lines;
    assert ParseSteps(lines).Ok? ==> [] + ParseSteps(lines).value == ParseSteps(lines).value;
    while i < |lines|
      invariant i <= |lines|
      invariant Resume(records, ParseSteps(lines[i..])) == ParseSteps(lines)
      decreases |lines| - i
    {
      assert lines[i..][0] == lines[i] && lines[i..][1..] == lines[i + 1..];
      var head := ParseStepLine(lines[i]);
      if head.Err? { return Err(head.error); }
      var input, next := ReadInput(lines, i + 1);
      if input.Err? { return Err(input.error); }
      var record := StepRecord(head.value.0, input.value, head.value.1);
      Grouping(records, record, ParseSteps(lines[next..]));
      records := records + [record];
      i := next;
    }
    assert lines[i..] == [] && records + [] == records;
    r := Ok(records);
  }

  lemma Grouping(records: seq<StepRecord>, record: StepRecord, rest: Result<seq<StepRecord>, DecodeError>)
    ensures Resume(records, Resume([record], rest)) == Resume(records + [record], rest)
  {
    if rest.Ok? { assert records + ([record] + rest.value) == records + [record] + rest.value; }
  }

  method DecodeTape(text: string) returns (r: Result<Tape, DecodeError>)
    ensures r == Decode(text)
  {
    hide ParseHeader, ParseSteps, Lines, Record, InputOk;
    var lines := Lines(text);
    if lines == [] { return Err(MissingHeader); }
    var header := ParseHeader(lines[0]);
    if header.Err? { return Err(header.error); }
    var steps := ReadSteps(lines[1..]);
    if steps.Err? { return Err(steps.error); }
    var records := steps.value;
    ParsedStepsOk(lines[1..]);
    var tape := RecordTape(header.value, Inputs(records));
    r := Ok(tape.(records := records));
  }
}
