/** Recording and verifying replays (crates/tetris-session/src/engine/replay.rs). */
module Replays {
  import opened Types
  import opened GameModel
  import opened GameInvariant
  import opened GameStateModule
  import opened Placing
  import opened Snapshots
  import opened Sessions
  import opened SessionRuntimes

  datatype StepRecord = StepRecord(step: u64, input: StepInput, stateHash: u64)

  datatype Tape = Tape(seed: u32, records: seq<StepRecord>, finalSnapshot: Snapshot)

  datatype Mismatch = Mismatch(step: nat, expected: u64, actual: u64)

  // ---- specification ---------------------------------------------------

  function OutcomeCode(outcome: Outcome): nat {
    match outcome
    case Accepted => 0
    case Rejected(HoldUnavailable) => 1
    case Rejected(RotationBlocked) => 2
    case Rejected(XOutOfBounds) => 3
    case Rejected(XBlocked) => 4
    case Rejected(NotPlayable) => 5
    case Rejected(NoActive) => 6
  }

  function OutcomeCodes(outcomes: seq<Outcome>): seq<nat> {
    seq(|outcomes|, i requires 0 <= i < |outcomes| => OutcomeCode(outcomes[i]))
  }

  /** Hashes of the events, each taken together with the snapshot. */
  function EventHashes(snapshot: Snapshot, events: seq<LockEvent>): seq<nat> {
    if events == [] then []
    else LeBytes(StableHash(snapshot, Some(events[0])), 8) + EventHashes(snapshot, events[1..])
  }

  /** What is folded after the snapshot's own hash. */
  function TransitionBytes(s: Snapshot, step: u64, events: seq<LockEvent>, outcomes: seq<Outcome>): seq<nat> {
    LeBytes(step, 8) + LeBytes(|events|, 8) + EventHashes(s, events) + LeBytes(|outcomes|, 8) + OutcomeCodes(outcomes)
  }

  /** `transition_hash`: a function of everything one transition shows. */
  function TransitionHash(snapshot: Snapshot, logicalStep: u64, events: seq<LockEvent>, outcomes: seq<Outcome>): u64 {
    HashBytes(StableHash(snapshot, None), TransitionBytes(snapshot, logicalStep, events, outcomes))
  }

  function HashAfter(x: Session, t: Transition): u64 {
    TransitionHash(x.store.snapshot, x.logicalStep, t.events, t.outcomes)
  }

  /** Hash the session shows after taking the input. */
  function NextHash(x: Session, input: StepInput): u64 {
    var (y, t) := StepSession(x, input);
    HashAfter(y, t)
  }

  function RecordsFrom(x: Session, inputs: seq<StepInput>, index: nat): (rs: seq<StepRecord>)
    ensures |rs| == |inputs|
    decreases |inputs|
  {
    if inputs == [] then []
    else
      [StepRecord(index % TWO_TO_64, inputs[0], NextHash(x, inputs[0]))] +
      RecordsFrom(StepSession(x, inputs[0]).0, inputs[1..], index + 1)
  }

  /** `ReplayTape::record`. */
  function Record(seed: u32, inputs: seq<StepInput>): Tape {
    Tape(seed, RecordsFrom(NewSession(seed), inputs, 0), RunSession(NewSession(seed), inputs).store.snapshot)
  }

  function Inputs(records: seq<StepRecord>): (inputs: seq<StepInput>)
    ensures |inputs| == |records|
  {
    seq(|records|, i requires 0 <= i < |records| => records[i].input)
  }

  function VerifyFrom(x: Session, records: seq<StepRecord>, index: nat): Result<Session, Mismatch>
    decreases |records|
  {
    if records == [] then Ok(x)
    else
      var actual := NextHash(x, records[0].input);
      if actual != records[0].stateHash then Err(Mismatch(index, records[0].stateHash, actual))
      else VerifyFrom(StepSession(x, records[0].input).0, records[1..], index + 1)
  }

  /** `replay_and_verify`. */
  function Verify(tape: Tape): Result<Session, Mismatch> {
    VerifyFrom(NewSession(tape.seed), tape.records, 0)
  }

  /** `minimal_failure_prefix`; slicing past the end panics, hence the requirement. */
  function MinimalPrefix(tape: Tape, m: Mismatch): Tape
    requires m.step < |tape.records|
  {
    Prefix(tape, m.step + 1)
  }

  /** The first n records, with the final snapshot their inputs produce. */
  function Prefix(tape: Tape, n: nat): Tape
    requires n <= |tape.records|
  {
    Tape(tape.seed, tape.records[..n],
         RunSession(NewSession(tape.seed), Inputs(tape.records[..n])).store.snapshot)
  }

  // ---- properties ------------------------------------------------------

  lemma {:induction false} RecordedFrom(x: Session, inputs: seq<StepInput>, index: nat)
    ensures VerifyFrom(x, RecordsFrom(x, inputs, index), index) == Ok(RunSession(x, inputs))
    ensures Inputs(RecordsFrom(x, inputs, index)) == inputs
    decreases |inputs|
  {
    hide NextHash, StepSession;
    var rs := RecordsFrom(x, inputs, index);
    if inputs == [] {
    } else {
      var y := StepSession(x, inputs[0]).0;
      RecordedFrom(y, inputs[1..], index + 1);
      assert rs[1..] == RecordsFrom(y, inputs[1..], index + 1);
      assert Inputs(rs) == [rs[0].input] + Inputs(rs[1..]);
    }
  }

  /** Whatever was recorded verifies, and ends in the recorded final snapshot. */
  lemma RecordedVerifies(seed: u32, inputs: seq<StepInput>)
    ensures Verify(Record(seed, inputs)) == Ok(RunSession(NewSession(seed), inputs))
    ensures Verify(Record(seed, inputs)).value.store.snapshot == Record(seed, inputs).finalSnapshot
  {
    hide NewSession, RunSession;
    RecordedFrom(NewSession(seed), inputs, 0);
  }

  /** Records are numbered from zero and hold the inputs in order, each with the hash its step shows. */
  lemma {:induction false} RecordsNumbered(x: Session, inputs: seq<StepInput>, index: nat, i: nat)
    requires i < |inputs|
    ensures RecordsFrom(x, inputs, index)[i] ==
      StepRecord((index + i) % TWO_TO_64, inputs[i], NextHash(RunSession(x, inputs[..i]), inputs[i]))
    decreases i
  {
    hide NextHash, StepSession;
    if i == 0 {
      assert inputs[..0] == [];
    } else {
      RecordsNumbered(StepSession(x, inputs[0]).0, inputs[1..], index + 1, i - 1);
      assert inputs[..i][1..] == inputs[1..][..i - 1];
    }
  }

  lemma {:induction false} VerifySplit(x: Session, a: seq<StepRecord>, b: seq<StepRecord>, index: nat)
    ensures VerifyFrom(x, a + b, index) ==
      match VerifyFrom(x, a, index)
      case Ok(y) => VerifyFrom(y, b, index + |a|)
      case Err(m) => Err(m)
    decreases |a|
  {
    hide NextHash, StepSession;
    if a == [] {
      assert a + b == b;
    } else {
      assert (a + b)[1..] == a[1..] + b;
      VerifySplit(StepSession(x, a[0].input).0, a[1..], b, index + 1);
    }
  }

  lemma {:induction false} FailsAt(x: Session, records: seq<StepRecord>, index: nat, m: Mismatch)
    requires VerifyFrom(x, records, index) == Err(m)
    ensures index <= m.step < index + |records|
    ensures VerifyFrom(x, records[..m.step - index], index).Ok?
    ensures var y := VerifyFrom(x, records[..m.step - index], index).value;
      && m.expected == records[m.step - index].stateHash
      && m.actual == NextHash(y, records[m.step - index].input)
      && m.actual != m.expected
    decreases |records|
  {
    hide NextHash, StepSession;
    if NextHash(x, records[0].input) == records[0].stateHash {
      FailsAt(StepSession(x, records[0].input).0, records[1..], index + 1, m);
      var n := m.step - index;
      assert records[..n][1..] == records[1..][..n - 1];
    }
  }

  /**
    A reported mismatch is the first divergence: the failing prefix has it too, with the same
    report, and every shorter prefix verifies.
  */
  lemma MismatchIsFirst(tape: Tape, m: Mismatch)
    requires Verify(tape) == Err(m)
    ensures m.step < |tape.records| && m.expected == tape.records[m.step].stateHash != m.actual
    ensures Verify(MinimalPrefix(tape, m)) == Err(m)
    ensures forall n :: 0 <= n <= m.step ==> Verify(Prefix(tape, n)).Ok?
  {
    hide NextHash, StepSession, NewSession, RunSession;
    var x := NewSession(tape.seed);
    FailsAt(x, tape.records, 0, m);
    var good := tape.records[..m.step];
    assert tape.records[..m.step + 1] == good + [tape.records[m.step]];
    VerifySplit(x, good, [tape.records[m.step]], 0);
    forall n | 0 <= n <= m.step ensures Verify(Prefix(tape, n)).Ok? {
      assert good == tape.records[..n] + good[n..];
      VerifySplit(x, tape.records[..n], good[n..], 0);
    }
  }

  /** Verification succeeds exactly when every record carries the hash its step shows. */
  lemma VerifiesIff(tape: Tape)
    ensures Verify(tape).Ok? <==>
      forall i :: 0 <= i < |tape.records| ==>
        tape.records[i].stateHash ==
          NextHash(RunSession(NewSession(tape.seed), Inputs(tape.records[..i])), tape.records[i].input)
  {
    hide NextHash, StepSession, NewSession, RunSession;
    var x := NewSession(tape.seed);
    if Verify(tape).Ok? {
      forall i | 0 <= i < |tape.records|
        ensures tape.records[i].stateHash == NextHash(RunSession(x, Inputs(tape.records[..i])), tape.records[i].input)
      {
        var a, b := tape.records[..i], tape.records[i..];
        assert tape.records == a + b;
        VerifySplit(x, a, b, 0);
        VerifiedSession(x, a, 0);
        assert b[0] == tape.records[i];
      }
    } else {
      var m := Verify(tape).error;
      FailsAt(x, tape.records, 0, m);
      VerifiedSession(x, tape.records[..m.step], 0);
    }
  }

  lemma {:induction false} VerifiedSession(x: Session, records: seq<StepRecord>, index: nat)
    requires VerifyFrom(x, records, index).Ok?
    ensures VerifyFrom(x, records, index).value == RunSession(x, Inputs(records))
    decreases |records|
  {
    hide NextHash, StepSession;
    if records == [] {
    } else {
      VerifiedSession(StepSession(x, records[0].input).0, records[1..], index + 1);
      assert Inputs(records)[1..] == Inputs(records[1..]);
    }
  }

  // ---- implementation --------------------------------------------------

  lemma EventHashesStep(snapshot: Snapshot, events: seq<LockEvent>, i: nat)
    requires i < |events|
    ensures EventHashes(snapshot, events[..i + 1]) ==
            EventHashes(snapshot, events[..i]) + LeBytes(StableHash(snapshot, Some(events[i])), 8)
  {
    hide StableHash;
    assert events[..i + 1] == events[..i] + [events[i]];
    EventHashesSnoc(snapshot, events[..i], events[i]);
  }

  lemma {:induction false} EventHashesSnoc(snapshot: Snapshot, events: seq<LockEvent>, event: LockEvent)
    ensures EventHashes(snapshot, events + [event]) ==
            EventHashes(snapshot, events) + LeBytes(StableHash(snapshot, Some(event)), 8)
    decreases |events|
  {
    hide StableHash, LeBytes;
    if events == [] {
      assert [event][1..] == [] && [] + [event] == [event];
      assert EventHashes(snapshot, []) == [];
    } else {
      assert (events + [event])[1..] == events[1..] + [event];
      EventHashesSnoc(snapshot, events[1..], event);
    }
  }

  /** The loop over the events of one transition, each hashed together with the snapshot. */
  method FoldEvents(hash: u64, snapshot: Snapshot, events: seq<LockEvent>) returns (r: u64)
    ensures r == HashBytes(hash, EventHashes(snapshot, events))
  {
    hide HashBytes, StableHash, LeBytes;
    r := FoldBytes(hash, []);
    assert events[..0] == [];
    for i := 0 to |events|
      invariant r == HashBytes(hash, EventHashes(snapshot, events[..i]))
    {
      var eventHash := StableStateHash(snapshot, Some(events[i]));
      r := FoldBytes(r, LeBytes(eventHash, 8));
      EventHashesStep(snapshot, events, i);
      HashBytesAppend(hash, EventHashes(snapshot, events[..i]), LeBytes(eventHash, 8));
    }
    assert events[..|events|] == events;
  }

  /** The loop over the outcomes of one transition. */
  method FoldOutcomes(hash: u64, outcomes: seq<Outcome>) returns (r: u64)
    ensures r == HashBytes(hash, OutcomeCodes(outcomes))
  {
    hide HashBytes, OutcomeCode;
    r := FoldBytes(hash, []);
    assert OutcomeCodes([]) == [] && outcomes[..0] == [];
    for i := 0 to |outcomes|
      invariant r == HashBytes(hash, OutcomeCodes(outcomes[..i]))
    {
      r := FoldBytes(r, [OutcomeCode(outcomes[i])]);
      HashBytesAppend(hash, OutcomeCodes(outcomes[..i]), [OutcomeCode(outcomes[i])]);
      assert OutcomeCodes(outcomes[..i + 1]) == OutcomeCodes(outcomes[..i]) + [OutcomeCode(outcomes[i])];
    }
    assert outcomes[..|outcomes|] == outcomes;
  }

  /** `transition_hash`. */
  method ComputeTransitionHash(snapshot: Snapshot, logicalStep: u64, events: seq<LockEvent>, outcomes: seq<Outcome>)
    returns (hash: u64)
    ensures hash == TransitionHash(snapshot, logicalStep, events, outcomes)
  {
    hide HashBytes, StableHash, LeBytes, EventHashes, OutcomeCodes;
    var base := StableStateHash(snapshot, None);
    ghost var a, b, c, d, e := LeBytes(logicalStep, 8), LeBytes(|events|, 8), EventHashes(snapshot, events),
      LeBytes(|outcomes|, 8), OutcomeCodes(outcomes);
    hash := FoldBytes(base, LeBytes(logicalStep, 8));
    hash := FoldBytes(hash, LeBytes(|events|, 8));
    hash := FoldEvents(hash, snapshot, events);
    hash := FoldBytes(hash, LeBytes(|outcomes|, 8));
    hash := FoldOutcomes(hash, outcomes);
    HashBytesAppend(base, a, b);
    HashBytesAppend(base, a + b, c);
    HashBytesAppend(base, a + b + c, d);
    HashBytesAppend(base, a + b + c + d, e);
  }

  method RecordTape(seed: u32, inputs: seq<StepInput>) returns (tape: Tape)
    requires forall i :: 0 <= i < |inputs| ==> InputOk(inputs[i])
    ensures tape == Record(seed, inputs)
  {
    hide NewSession, StepSession, SessionRuntime.Valid, GameState.Valid, SessionRuntime.Abs, InputOk,
      RecordsFrom, RunSession, NextHash, TransitionHash;
    var session := OpenSession(seed);
    ghost var x0 := session.Abs();
    var records := [];
    var i := 0;
    assert inputs[0..] == inputs;
    while i < |inputs|
      invariant 0 <= i <= |inputs| && session.Valid() && fresh(session.Footprint())
      invariant RecordsFrom(x0, inputs, 0) == records + RecordsFrom(session.Abs(), inputs[i..], i)
      invariant RunSession(session.Abs(), inputs[i..]) == RunSession(x0, inputs)
    {
      assert inputs[i..][1..] == inputs[i + 1..];
      ghost var x := session.Abs();
      RecordsStep(x, inputs[i..], i);
      var t := session.Transition(inputs[i]);
      StateIs(session);
      var hash := ComputeTransitionHash(session.snapshots.snapshot, session.logicalStep, t.events, t.outcomes);
      HashIs(x, inputs[i], session.Abs(), t);
      var record := StepRecord(i % TWO_TO_64, inputs[i], hash);
      Regroup(records, record, RecordsFrom(session.Abs(), inputs[i + 1..], i + 1));
      records := records + [record];
      i := i + 1;
    }
    StateIs(session);
    assert inputs[i..] == [];
    RecordsEnd(session.Abs(), i);
    assert records + [] == records;
    tape := Tape(seed, records, session.snapshots.snapshot);
  }

  lemma RecordsStep(x: Session, inputs: seq<StepInput>, index: nat)
    requires inputs != []
    ensures RecordsFrom(x, inputs, index) ==
      [StepRecord(index % TWO_TO_64, inputs[0], NextHash(x, inputs[0]))] +
      RecordsFrom(StepSession(x, inputs[0]).0, inputs[1..], index + 1)
    ensures RunSession(x, inputs) == RunSession(StepSession(x, inputs[0]).0, inputs[1..])
  {
    hide NextHash, StepSession;
  }

  lemma RecordsEnd(x: Session, index: nat)
    ensures RecordsFrom(x, [], index) == [] && RunSession(x, []) == x
  {
  }

  lemma Regroup(a: seq<StepRecord>, r: StepRecord, b: seq<StepRecord>)
    ensures a + ([r] + b) == (a + [r]) + b
  {
  }

  lemma StateIs(session: SessionRuntime)
    requires session.Valid()
    ensures session.Abs().store.snapshot == session.snapshots.snapshot
    ensures session.Abs().logicalStep == session.logicalStep
  {
  }

  lemma HashIs(x: Session, input: StepInput, y: Session, t: Transition)
    requires (y, t) == StepSession(x, input)
    ensures NextHash(x, input) == TransitionHash(y.store.snapshot, y.logicalStep, t.events, t.outcomes)
  {
    hide StepSession, TransitionHash;
  }

  lemma VerifyStep(x: Session, records: seq<StepRecord>, index: nat)
    requires records != []
    ensures var hash, y := NextHash(x, records[0].input), StepSession(x, records[0].input).0;
      VerifyFrom(x, records, index) ==
        if hash != records[0].stateHash then Err(Mismatch(index, records[0].stateHash, hash))
        else VerifyFrom(y, records[1..], index + 1)
  {
    hide StepSession, TransitionHash;
  }

  lemma VerifyEnd(x: Session, index: nat)
    ensures VerifyFrom(x, [], index) == Ok(x)
  {
  }

  method ReplayAndVerify(tape: Tape) returns (r: Result<SessionRuntime, Mismatch>)
    requires forall i :: 0 <= i < |tape.records| ==> InputOk(tape.records[i].input)
    ensures match r
      case Ok(session) => session.Valid() && fresh(session.Footprint()) && Verify(tape) == Ok(session.Abs())
      case Err(m) => Verify(tape) == Err(m)
  {
    hide NewSession, StepSession, HashAfter, SessionRuntime.Valid, GameState.Valid, SessionRuntime.Abs, InputOk;
    hide VerifyFrom, NextHash, TransitionHash;
    var session := OpenSession(tape.seed);
    var i := 0;
    assert tape.records[0..] == tape.records;
    while i < |tape.records|
      invariant 0 <= i <= |tape.records| && session.Valid() && fresh(session.Footprint())
      invariant VerifyFrom(session.Abs(), tape.records[i..], i) == Verify(tape)
    {
      assert tape.records[i..][1..] == tape.records[i + 1..];
      ghost var x := session.Abs();
      var record := tape.records[i];
      VerifyStep(x, tape.records[i..], i);
      var t := session.Transition(record.input);
      StateIs(session);
      var actual := ComputeTransitionHash(session.snapshots.snapshot, session.logicalStep, t.events, t.outcomes);
      HashIs(x, record.input, session.Abs(), t);
      if actual != record.stateHash {
        return Err(Mismatch(i, record.stateHash, actual));
      }
      i := i + 1;
    }
    assert tape.records[i..] == [];
    VerifyEnd(session.Abs(), i);
    r := Ok(session);
  }

  method MinimalFailurePrefix(tape: Tape, m: Mismatch) returns (prefix: Tape)
    requires m.step < |tape.records|
    requires forall i :: 0 <= i < |tape.records| ==> InputOk(tape.records[i].input)
    ensures prefix == MinimalPrefix(tape, m)
  {
    hide NewSession, RunSession, RecordsFrom, InputOk;
    var records := tape.records[..m.step + 1];
    prefix := RecordTape(tape.seed, Inputs(records));
    prefix := prefix.(records := records);
  }
}
