/**
  The two accumulators that pace the program: the fixed-step clock
  (crates/tetris-session/src/engine/fixed_step.rs) and the observation schedule
  (crates/tetris-adapter/src/adapter/observation_schedule.rs).
*/
module Cadence {
  import opened Types
  import opened GameModel
  import opened GameStateModule

  // ---- fixed-step clock ------------------------------------------------

  /** Greatest duration, in nanoseconds. */
  const DURATION_MAX: nat := TWO_TO_64 * 1_000_000_000 - 1

  datatype Clock = Clock(tick: nat, cap: u32, backlog: nat)

  ghost predicate ClockOk(c: Clock) {
    0 < c.tick <= DURATION_MAX && c.cap > 0 && c.backlog <= DURATION_MAX
  }

  function Times(a: nat, b: nat): nat {
    a * b
  }

  function Whole(n: nat, tick: nat): nat
    requires tick > 0
  {
    n / tick
  }

  lemma TimesGrows(tick: nat, a: nat, b: nat)
    requires a <= b
    ensures Times(tick, b) == Times(tick, a) + Times(tick, b - a)
  {
    assert tick * b == tick * a + tick * (b - a);
  }

  lemma TimesNext(tick: nat, a: nat)
    ensures Times(tick, a + 1) == Times(tick, a) + tick
  {
  }

  lemma WholeMeaning(n: nat, tick: nat)
    requires tick > 0
    ensures Times(tick, Whole(n, tick)) <= n < Times(tick, Whole(n, tick)) + tick
  {
    assert n == tick * (n / tick) + n % tick;
  }

  function Burst(c: Clock, elapsed: nat): (r: (Clock, nat))
    requires ClockOk(c) && elapsed <= DURATION_MAX
  {
    var backlog := if c.backlog + elapsed > DURATION_MAX then DURATION_MAX else c.backlog + elapsed;
    var due := if Whole(backlog, c.tick) > c.cap then c.cap else Whole(backlog, c.tick);
    DueFits(c.tick, backlog, due);
    (c.(backlog := backlog - Times(c.tick, due)), due)
  }

  lemma DueFits(tick: nat, backlog: nat, due: nat)
    requires tick > 0 && due <= Whole(backlog, tick)
    ensures Times(tick, due) <= backlog
    ensures due == Whole(backlog, tick) ==> backlog - Times(tick, due) < tick
  {
  }

  function Sum(ns: seq<nat>): nat {
    if ns == [] then 0 else ns[0] + Sum(ns[1..])
  }

  /** Bursts of a sequence of advances, and the clock after them. */
  function Bursts(c: Clock, elapsed: seq<nat>): (r: (Clock, seq<nat>))
    requires ClockOk(c) && forall i :: 0 <= i < |elapsed| ==> elapsed[i] <= DURATION_MAX
    ensures |r.1| == |elapsed|
    decreases |elapsed|
  {
    if elapsed == [] then (c, [])
    else
      var (d, due) := Burst(c, elapsed[0]);
      DueFits(c.tick, if c.backlog + elapsed[0] > DURATION_MAX then DURATION_MAX else c.backlog + elapsed[0], due);
      var (e, rest) := Bursts(d, elapsed[1..]);
      (e, [due] + rest)
  }

  /**
    No time is lost or invented: as long as durations do not saturate, the time put in is the
    whole steps taken out plus the backlog, and no burst exceeds the cap. When the last burst was
    below the cap less than a step is left over, so the steps taken are exactly those due.
  */
  lemma {:induction false} ClockConserves(c: Clock, elapsed: seq<nat>)
    requires ClockOk(c) && forall i :: 0 <= i < |elapsed| ==> elapsed[i] <= DURATION_MAX
    requires c.backlog + Sum(elapsed) <= DURATION_MAX
    ensures var (d, bursts) := Bursts(c, elapsed);
      && c.backlog + Sum(elapsed) == Times(c.tick, Sum(bursts)) + d.backlog
      && d.tick == c.tick && d.cap == c.cap
      && (forall i :: 0 <= i < |bursts| ==> bursts[i] <= c.cap)
      && (elapsed != [] && bursts[|bursts| - 1] < c.cap ==>
            d.backlog < c.tick && Sum(bursts) == Whole(c.backlog + Sum(elapsed), c.tick))
    decreases |elapsed|
  {
    hide ClockOk, Times, Whole, Burst;
    TimesZero(c.tick);
    if elapsed == [] {
    } else {
      OneBurst(c, elapsed[0]);
      var (d, due) := Burst(c, elapsed[0]);
      ClockConserves(d, elapsed[1..]);
      var (e, bursts) := Bursts(c, elapsed);
      var rest := Bursts(d, elapsed[1..]).1;
      assert bursts == [due] + rest && bursts[1..] == rest;
      TimesGrows(c.tick, due, Sum(bursts));
      if |elapsed| == 1 { assert rest == []; }
      if bursts[|bursts| - 1] < c.cap { Quotient(c.tick, Sum(bursts), e.backlog); }
    }
  }

  lemma OneBurst(c: Clock, elapsed: nat)
    requires ClockOk(c) && elapsed <= DURATION_MAX && c.backlog + elapsed <= DURATION_MAX
    ensures var (d, due) := Burst(c, elapsed);
      && c.backlog + elapsed == Times(c.tick, due) + d.backlog && ClockOk(d)
      && d.tick == c.tick && d.cap == c.cap && due <= c.cap
      && (due < c.cap ==> d.backlog < c.tick)
  {
    DueFits(c.tick, c.backlog + elapsed, Burst(c, elapsed).1);
  }

  lemma TimesZero(tick: nat)
    ensures Times(tick, 0) == 0
  {
  }

  lemma Quotient(tick: nat, steps: nat, rest: nat)
    requires rest < tick
    ensures Whole(Times(tick, steps) + rest, tick) == steps
  {
    hide Times, Whole;
    var n := Times(tick, steps) + rest;
    var q := Whole(n, tick);
    WholeMeaning(n, tick);
    if q > steps {
      TimesGrows(tick, steps + 1, q);
      TimesNext(tick, steps);
    } else if q < steps {
      TimesGrows(tick, q + 1, steps);
      TimesNext(tick, q);
    }
  }

  class FixedStepClock {
    const tick: nat
    const maxStepsPerAdvance: u32
    var backlog: nat

    ghost function Abs(): Clock
      reads this
    {
      Clock(tick, maxStepsPerAdvance, backlog)
    }

    constructor (tick: nat, maxStepsPerAdvance: u32)
      requires 0 < tick <= DURATION_MAX && maxStepsPerAdvance > 0
      ensures ClockOk(Abs()) && Abs() == Clock(tick, maxStepsPerAdvance, 0)
    {
      this.tick, this.maxStepsPerAdvance, backlog := tick, maxStepsPerAdvance, 0;
    }

    method Advance(elapsed: nat) returns (due: nat)
      requires ClockOk(Abs()) && elapsed <= DURATION_MAX
      modifies this
      ensures ClockOk(Abs()) && (Abs(), due) == Burst(old(Abs()), elapsed)
    {
      backlog := if backlog + elapsed > DURATION_MAX then DURATION_MAX else backlog + elapsed;
      hide Times, Whole;
      due := Whole(backlog, tick);
      if due > maxStepsPerAdvance { due := maxStepsPerAdvance; }
      DueFits(tick, backlog, due);
      backlog := backlog - Times(tick, due);
    }
  }

  // ---- observation schedule --------------------------------------------

  const MAX_EVENTS := 4

  /** The ids and flags the schedule watches, as it last saw them. */
  datatype Seen = Seen(episode: u32, piece: u32, active: u32, paused: bool, over: bool)

  datatype Schedule = Schedule(hz: u32, units: u32, seqNo: u64, last: Seen, pending: seq<LockEvent>)

  predicate ScheduleOk(c: Schedule) {
    1 <= c.hz <= 60 && c.units < 1000 && |c.pending| <= MAX_EVENTS
  }

  function SeenIn(g: Game): Seen {
    Seen(g.ids.episode, g.ids.piece, g.ids.active, g.flags.paused, g.flags.gameOver)
  }

  /** What makes the next observation immediate: a changed id or flag, or an undelivered event. */
  predicate Critical(c: Schedule, g: Game) {
    c.last != SeenIn(g) || c.pending != []
  }

  function Watched(c: Schedule, g: Game): Schedule {
    c.(last := SeenIn(g))
  }

  function Captured(c: Schedule, event: LockEvent): Schedule {
    c.(pending := (if |c.pending| >= MAX_EVENTS then c.pending[1..] else c.pending) + [event])
  }

  function Emitted(c: Schedule): (Schedule, (u64, seq<LockEvent>)) {
    var n := (c.seqNo + 1) % TWO_TO_64;
    (c.(seqNo := n, pending := []), (n, c.pending))
  }

  function Ticked(c: Schedule, g: Game): (Schedule, Option<(u64, seq<LockEvent>)>) {
    var units := SaturatingAdd(c.units, SaturatingMul(TICK_MS, c.hz));
    var w := Watched(c, g);
    if !Critical(c, g) && units < 1000 then (w.(units := units), None)
    else
      var (d, o) := Emitted(w.(units := if Critical(c, g) then 0 else units - 1000));
      (d, Some(o))
  }

  /** The schedule after a tick for each game state, and how many observations it emitted. */
  function Observed(c: Schedule, games: seq<Game>): (Schedule, nat)
    decreases |games|
  {
    if games == [] then (c, 0)
    else
      var (d, o) := Ticked(c, games[0]);
      var (e, n) := Observed(d, games[1..]);
      (e, n + (if o.Some? then 1 else 0))
  }

  /** No tick of the run meets a reason to observe at once. */
  predicate Uneventful(c: Schedule, games: seq<Game>)
    decreases |games|
  {
    games == [] || (!Critical(c, games[0]) && Uneventful(Ticked(c, games[0]).0, games[1..]))
  }

  lemma TickUnits(c: Schedule, g: Game)
    requires ScheduleOk(c)
    ensures var (d, o) := Ticked(c, g);
      && ScheduleOk(d) && d.hz == c.hz
      && (Critical(c, g) ==> o.Some? && o.value.1 == c.pending && d.units == 0 && d.pending == [])
      && (!Critical(c, g) ==> d.units + 1000 * (if o.Some? then 1 else 0) == c.units + 16 * c.hz)
      && (o.Some? ==> o.value.0 == d.seqNo == (c.seqNo + 1) % TWO_TO_64)
      && (o.None? ==> d.seqNo == c.seqNo)
  {
  }

  /** Frequency units due n ticks after a phase of so many. */
  function Due(units: nat, hz: nat, n: nat): nat {
    units + 16 * hz * n
  }

  /**
    No drift: n uneventful ticks from phase a emit exactly the whole part of (a + 16 hz n) / 1000
    observations, keep the remainder as phase, and number them consecutively.
  */
  lemma {:induction false} CadenceExact(c: Schedule, games: seq<Game>)
    requires ScheduleOk(c) && Uneventful(c, games)
    ensures var (d, n) := Observed(c, games);
      && n == Due(c.units, c.hz, |games|) / 1000
      && d.units == Due(c.units, c.hz, |games|) % 1000
      && d.seqNo == (c.seqNo + n) % TWO_TO_64
      && ScheduleOk(d)
    decreases |games|
  {
    hide Ticked, Critical, Due;
    NoneDue(c.units, c.hz);
    if games == [] {
    } else {
      var (d, o) := Ticked(c, games[0]);
      TickUnits(c, games[0]);
      CadenceExact(d, games[1..]);
      OneMore(c.units, c.hz, |games| - 1, d.units, if o.Some? then 1 else 0);
      SeqOnward(c.seqNo, if o.Some? then 1 else 0, Observed(d, games[1..]).1);
    }
  }

  lemma NoneDue(units: nat, hz: nat)
    ensures Due(units, hz, 0) == units
  {
  }

  lemma OneMore(a: nat, hz: nat, n: nat, b: nat, emitted: nat)
    requires b + 1000 * emitted == a + 16 * hz
    ensures Due(a, hz, n + 1) / 1000 == emitted + Due(b, hz, n) / 1000
    ensures Due(a, hz, n + 1) % 1000 == Due(b, hz, n) % 1000
  {
    assert Due(a, hz, n + 1) == Due(b, hz, n) + 1000 * emitted;
  }

  lemma SeqOnward(s: u64, a: nat, b: nat)
    requires a <= 1
    ensures ((s + a) % TWO_TO_64 + b) % TWO_TO_64 == (s + (a + b)) % TWO_TO_64
  {
  }

  lemma {:induction false} LastSeen(c: Schedule, games: seq<Game>)
    requires games != []
    ensures var d := Observed(c, games).0; d.last == SeenIn(games[|games| - 1]) && d.hz == c.hz
    decreases |games|
  {
    hide Critical, SeenIn;
    if |games| > 1 {
      LastSeen(Ticked(c, games[0]).0, games[1..]);
    } else {
      assert games[1..] == [];
    }
  }

  /**
    A change of episode, piece, active piece, pause or game over from one tick to the next, and an event
    waiting, are observed at once; otherwise the next observation comes when the frequency makes it due.
  */
  lemma ChangesObservedAtOnce(c: Schedule, games: seq<Game>, i: nat)
    requires ScheduleOk(c) && 0 < i < |games|
    ensures var d, before, now := Observed(c, games[..i]).0, games[i - 1], games[i];
      Ticked(d, now).1.Some? <==>
        || now.ids.episode != before.ids.episode || now.ids.piece != before.ids.piece
        || now.ids.active != before.ids.active || now.flags.paused != before.flags.paused
        || now.flags.gameOver != before.flags.gameOver
        || d.pending != [] || d.units + 16 * c.hz >= 1000
  {
    LastSeen(c, games[..i]);
    ObservedOk(c, games[..i]);
    TickUnits(Observed(c, games[..i]).0, games[i]);
  }

  lemma {:induction false} ObservedOk(c: Schedule, games: seq<Game>)
    requires ScheduleOk(c)
    ensures ScheduleOk(Observed(c, games).0)
    decreases |games|
  {
    hide Ticked;
    if games == [] {
    } else {
      TickUnits(c, games[0]);
      ObservedOk(Ticked(c, games[0]).0, games[1..]);
    }
  }

  function CapturedAll(c: Schedule, events: seq<LockEvent>): Schedule
    decreases |events|
  {
    if events == [] then c else CapturedAll(Captured(c, events[0]), events[1..])
  }

  function LastFour(events: seq<LockEvent>): seq<LockEvent> {
    if |events| <= MAX_EVENTS then events else events[|events| - MAX_EVENTS..]
  }

  lemma LastFourShort(events: seq<LockEvent>)
    requires |events| <= MAX_EVENTS
    ensures LastFour(events) == events
  {
  }

  lemma LastFourOnward(pending: seq<LockEvent>, event: LockEvent, rest: seq<LockEvent>)
    requires |pending| <= MAX_EVENTS
    ensures LastFour(pending + ([event] + rest)) ==
            LastFour((if |pending| >= MAX_EVENTS then pending[1..] else pending) + [event] + rest)
  {
    if |pending| < MAX_EVENTS {
      assert pending + ([event] + rest) == pending + [event] + rest;
    } else {
      var whole := pending + ([event] + rest);
      assert whole == [pending[0]] + (pending[1..] + [event] + rest);
    }
  }

  /** Between observations the newest four events survive, in order; the oldest give way. */
  lemma {:induction false} KeepsNewestFour(c: Schedule, events: seq<LockEvent>)
    requires |c.pending| <= MAX_EVENTS
    ensures CapturedAll(c, events).pending == LastFour(c.pending + events)
    decreases |events|
  {
    hide LastFour;
    if events == [] {
      assert c.pending + events == c.pending;
      LastFourShort(c.pending);
    } else {
      KeepsNewestFour(Captured(c, events[0]), events[1..]);
      LastFourOnward(c.pending, events[0], events[1..]);
      assert [events[0]] + events[1..] == events;
    }
  }

  class ObservationSchedule {
    const frequencyHz: u32
    var accumulatedUnits: u32
    var seqNo: u64
    var last: Seen
    var pendingEvents: seq<LockEvent>

    ghost function Abs(): Schedule
      reads this
    {
      Schedule(frequencyHz, accumulatedUnits, seqNo, last, pendingEvents)
    }

    constructor (game: GameState, frequencyHz: u32)
      ensures ScheduleOk(Abs())
      ensures Abs() == Schedule(if frequencyHz < 1 then 1 else if frequencyHz > 60 then 60 else frequencyHz, 0, 0,
        Seen(game.ids.episode, game.ids.piece, game.ids.active, game.flags.paused, game.flags.gameOver), [])
    {
      this.frequencyHz := if frequencyHz < 1 then 1 else if frequencyHz > 60 then 60 else frequencyHz;
      accumulatedUnits, seqNo, pendingEvents := 0, 0, [];
      last := Seen(game.ids.episode, game.ids.piece, game.ids.active, game.flags.paused, game.flags.gameOver);
    }

    method CaptureEvent(event: LockEvent)
      requires ScheduleOk(Abs())
      modifies this
      ensures ScheduleOk(Abs()) && Abs() == Captured(old(Abs()), event)
    {
      if |pendingEvents| == MAX_EVENTS { pendingEvents := pendingEvents[1..]; }
      pendingEvents := pendingEvents + [event];
    }

    method Immediate() returns (observation: (u64, seq<LockEvent>))
      modifies this
      ensures (Abs(), observation) == Emitted(old(Abs()))
    {
      seqNo := (seqNo + 1) % TWO_TO_64;
      observation := (seqNo, pendingEvents);
      pendingEvents := [];
    }

    /** Field by field: a value that differs is overwritten and reported. */
    static method Noted(last: Seen, ids: Ids, flags: Flags) returns (changed: bool, seen: Seen)
      ensures seen == Seen(ids.episode, ids.piece, ids.active, flags.paused, flags.gameOver)
      ensures changed <==> seen != last
    {
      changed, seen := false, last;
      if seen.piece != ids.piece { seen := seen.(piece := ids.piece); changed := true; }
      if seen.active != ids.active { seen := seen.(active := ids.active); changed := true; }
      if seen.episode != ids.episode { seen := seen.(episode := ids.episode); changed := true; }
      if seen.paused != flags.paused { seen := seen.(paused := flags.paused); changed := true; }
      if seen.over != flags.gameOver { seen := seen.(over := flags.gameOver); changed := true; }
    }

    /** Notes the watched values; reports whether any changed or an event is waiting. */
    method Watch(game: GameState) returns (critical: bool)
      requires game.Sound() && this !in game.Footprint()
      modifies this
      ensures Abs() == Watched(old(Abs()), game.Abs())
      ensures critical == Critical(old(Abs()), game.Abs())
    {
      hide GameState.Sound;
      var changed;
      changed, last := Noted(last, game.ids, game.flags);
      critical := changed || pendingEvents != [];
    }

    method AfterTick(game: GameState) returns (observation: Option<(u64, seq<LockEvent>)>)
      requires game.Sound() && this !in game.Footprint() && ScheduleOk(Abs())
      modifies this
      ensures ScheduleOk(Abs()) && (Abs(), observation) == Ticked(old(Abs()), game.Abs())
    {
      hide GameState.Sound, GameState.Abs, Critical;
      TickUnits(Abs(), game.Abs());
      var critical := Watch(game);
      accumulatedUnits := SaturatingAdd(accumulatedUnits, SaturatingMul(TICK_MS, frequencyHz));
      if !critical && accumulatedUnits < 1000 { return None; }
      accumulatedUnits := if critical then 0 else accumulatedUnits - 1000;
      var o := Immediate();
      observation := Some(o);
    }
  }
}
