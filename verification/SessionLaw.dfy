/**
  What one step of a session does to its game and tells of it
  (crates/tetris-session/src/engine/session.rs:145-198).
*/
module SessionLaws {
  import opened Types
  import opened Grids
  import opened Pieces
  import opened QueueModule
  import opened GameModel
  import opened GameInvariant
  import opened LockDelayBudget
  import opened LockResets
  import opened GravityLaws
  import opened ScoreLaws
  import opened Placing
  import opened Snapshots
  import opened Sessions
  import opened SessionRuntimes

  // ---- commands --------------------------------------------------------

  /** Index of the first restart, or the length. */
  function FirstRestart(actions: seq<GameAction>): (n: nat)
    ensures n <= |actions|
    ensures forall i :: 0 <= i < n ==> actions[i] != Restart
    ensures n < |actions| ==> actions[n] == Restart
  {
    if actions == [] || actions[0] == Restart then 0 else 1 + FirstRestart(actions[1..])
  }

  lemma {:induction false} WithoutSeed(s: Game, actions: seq<GameAction>)
    ensures ApplyActions(s, actions, None) == RunActions(s, actions)
    decreases |actions|
  {
    hide Apply, RestartWith;
    if actions == [] {
    } else {
      WithoutSeed(Apply(s, actions[0]).0, actions[1..]);
    }
  }

  /**
    The seed of a command replaces the first restart of its actions and that one only; the actions before
    it and after it are ordinary ones.
  */
  lemma {:induction false} SeedServesFirstRestart(s: Game, actions: seq<GameAction>, seed: u32)
    ensures var n := FirstRestart(actions);
      ApplyActions(s, actions, Some(seed)) ==
        if n == |actions| then RunActions(s, actions)
        else RunActions(RestartWith(RunActions(s, actions[..n]), seed), actions[n + 1..])
    decreases |actions|
  {
    hide Apply, RestartWith;
    var n := FirstRestart(actions);
    if actions == [] {
    } else if actions[0] == Restart {
      WithoutSeed(RestartWith(s, seed), actions[1..]);
      assert actions[..0] == [];
    } else {
      SeedServesFirstRestart(Apply(s, actions[0]).0, actions[1..], seed);
      assert actions[1..][..n - 1] == actions[..n][1..];
      assert n < |actions| ==> actions[1..][n..] == actions[n + 1..];
    }
  }

  function AllActions(cs: seq<Command>): seq<GameAction>
    requires forall i :: 0 <= i < |cs| ==> cs[i].Actions?
  {
    if cs == [] then [] else cs[0].actions + AllActions(cs[1..])
  }

  lemma {:induction false} CommandsFlatten(s: Game, cs: seq<Command>)
    requires forall i :: 0 <= i < |cs| ==> cs[i].Actions? && cs[i].restartSeed.None?
    ensures ApplyCommands(s, cs).0 == RunActions(s, AllActions(cs))
    decreases |cs|
  {
    hide Apply;
    if cs == [] {
    } else {
      WithoutSeed(s, cs[0].actions);
      CommandsFlatten(RunActions(s, cs[0].actions), cs[1..]);
      RunActionsAppend(s, cs[0].actions, AllActions(cs[1..]));
    }
  }

  /** A step plays the remote actions in their order, then the local ones, then one tick of 16 ms. */
  lemma StepFlattens(s: Game, input: StepInput)
    requires forall i :: 0 <= i < |input.remote| ==> input.remote[i].Actions? && input.remote[i].restartSeed.None?
    ensures Played(s, input) == Tick(RunActions(s, AllActions(input.remote) + input.local), 16, false).0
  {
    hide RunActions, ApplyCommands, Tick;
    CommandsFlatten(s, input.remote);
    RunActionsAppend(s, AllActions(input.remote), input.local);
  }

  lemma {:induction false} CommandsSplit(s: Game, cs: seq<Command>, i: nat)
    requires i <= |cs|
    ensures var a, b := ApplyCommands(s, cs[..i]), ApplyCommands(ApplyCommands(s, cs[..i]).0, cs[i..]);
      ApplyCommands(s, cs) == (b.0, a.1 + b.1)
    decreases i
  {
    hide ApplyCommand;
    if i == 0 {
      assert cs[..0] == [] && cs[0..] == cs;
      assert [] + ApplyCommands(s, cs).1 == ApplyCommands(s, cs).1;
    } else {
      var t, outcome := ApplyCommand(s, cs[0]).0, ApplyCommand(s, cs[0]).1;
      CommandsSplit(t, cs[1..], i - 1);
      var a, b := ApplyCommands(t, cs[1..][..i - 1]), ApplyCommands(ApplyCommands(s, cs[..i]).0, cs[i..]);
      assert [outcome] + (a.1 + b.1) == ([outcome] + a.1) + b.1;
      assert cs[..i][1..] == cs[1..][..i - 1] && cs[1..][i - 1..] == cs[i..];
    }
  }

  /**
    Every command gets its own outcome, in order: an action list is accepted, a placement exactly if it
    succeeds in the state the commands before it left, and a refused one leaves that state.
  */
  lemma OutcomeOfEach(s: Game, cs: seq<Command>, i: nat)
    requires i < |cs|
    ensures var a, outcome := ApplyCommands(s, cs[..i]).0, ApplyCommands(s, cs).1[i];
      && (cs[i].Actions? ==> outcome == Accepted)
      && (cs[i].PlaceAt? ==>
            var placed := Place(a, cs[i].x, cs[i].rotation, cs[i].useHold);
            outcome == if placed.Ok? then Accepted else Rejected(placed.error))
      && (outcome.Rejected? ==> ApplyCommands(s, cs[..i + 1]).0 == a)
  {
    hide Place, ApplyActions;
    CommandsSplit(s, cs, i);
    CommandsSplit(s, cs[..i + 1], i);
    assert cs[..i + 1][..i] == cs[..i] && cs[..i + 1][i..] == [cs[i]];
    var a := ApplyCommands(s, cs[..i]).0;
    assert [cs[i]][1..] == [];
    assert ApplyCommands(ApplyCommand(a, cs[i]).0, []).0 == ApplyCommand(a, cs[i]).0;
    assert ApplyCommands(a, [cs[i]]).0 == ApplyCommand(a, cs[i]).0;
    assert cs[i..][0] == cs[i];
  }

  lemma {:induction false} StepsCounted(x: Session, inputs: seq<StepInput>)
    ensures RunSession(x, inputs).logicalStep == (x.logicalStep + |inputs|) % TWO_TO_64
    decreases |inputs|
  {
    hide Played, Refresh, ApplyCommands;
    if inputs == [] {
    } else {
      StepsCounted(StepSession(x, inputs[0]).0, inputs[1..]);
      CountOnward(x.logicalStep, |inputs| - 1);
    }
  }

  lemma CountOnward(a: nat, n: nat)
    ensures ((a + 1) % TWO_TO_64 + n) % TWO_TO_64 == (a + (n + 1)) % TWO_TO_64
  {
  }

  // ---- a step is a run of the core -------------------------------------

  /** Operations as a session performs them. */
  predicate Plain(ops: seq<Op>) {
    forall i :: 0 <= i < |ops| ==> ops[i].Act? || ops[i].RestartSeed?
  }

  function Acts(actions: seq<GameAction>): seq<Op> {
    seq(|actions|, i requires 0 <= i < |actions| => Act(actions[i]))
  }

  lemma {:induction false} ActionsAre(s: Game, actions: seq<GameAction>)
    ensures RunActions(s, actions) == Run(s, Acts(actions))
    decreases |actions|
  {
    hide Apply;
    if actions == [] {
    } else {
      ActionsAre(Apply(s, actions[0]).0, actions[1..]);
      assert Acts(actions)[1..] == Acts(actions[1..]);
    }
  }

  lemma SeededAre(s: Game, actions: seq<GameAction>, seed: u32) returns (ops: seq<Op>)
    ensures ApplyActions(s, actions, Some(seed)) == Run(s, ops) && Plain(ops)
  {
    hide Apply, RestartWith, Run, RunActions;
    var n := FirstRestart(actions);
    SeedServesFirstRestart(s, actions, seed);
    if n == |actions| {
      ops := Acts(actions);
      ActionsAre(s, actions);
    } else {
      var a, b := actions[..n], actions[n + 1..];
      ActionsAre(s, a);
      var t := Run(s, Acts(a));
      ActionsAre(RestartWith(t, seed), b);
      RunOneMore(s, Acts(a), RestartSeed(seed));
      RunAppend(s, Acts(a) + [RestartSeed(seed)], Acts(b));
      ops := Acts(a) + [RestartSeed(seed)] + Acts(b);
    }
  }

  lemma CommandIs(s: Game, c: Command) returns (ops: seq<Op>)
    requires Inv(s) && CommandOk(c)
    ensures ApplyCommand(s, c).0 == Run(s, ops) && Plain(ops)
  {
    hide Inv, Place, Run, RunActions, ApplyActions;
    match c
    case Actions(actions, None) =>
      WithoutSeed(s, actions);
      ActionsAre(s, actions);
      ops := Acts(actions);
    case Actions(actions, Some(seed)) => ops := SeededAre(s, actions, seed);
    case PlaceAt(x, rotation, useHold) =>
      if Place(s, x, rotation, useHold).Ok? {
        var cw, turns, right, shifts := PlaceRefinesActions(s, x, rotation, useHold);
        ops := Acts(Plan(useHold, cw, turns, right, shifts) + [HardDrop]);
        ActionsAre(s, Plan(useHold, cw, turns, right, shifts) + [HardDrop]);
      } else {
        ops := [];
        NoSteps(s);
      }
  }

  lemma {:induction false} CommandsAre(s: Game, cs: seq<Command>) returns (ops: seq<Op>)
    requires Inv(s) && forall i :: 0 <= i < |cs| ==> CommandOk(cs[i])
    ensures ApplyCommands(s, cs).0 == Run(s, ops) && Plain(ops)
    decreases |cs|
  {
    hide Inv, ApplyCommand, Run, CommandOk;
    if cs == [] {
      ops := [];
      NoSteps(s);
    } else {
      var first := CommandIs(s, cs[0]);
      CommandInv(s, cs[0]);
      var rest := CommandsAre(ApplyCommand(s, cs[0]).0, cs[1..]);
      ops := first + rest;
      RunAppend(s, first, rest);
    }
  }

  /** Whatever its commands, placements included, a step plays a run of actions and seeded restarts, then a tick. */
  lemma PlayedIsRun(s: Game, input: StepInput) returns (ops: seq<Op>)
    requires Inv(s) && InputOk(input)
    ensures Played(s, input) == Run(s, ops + [TickBy(TICK_MS, false)]) && Plain(ops)
  {
    hide Inv, ApplyCommands, Run, RunActions, Tick, CommandOk;
    var remote := CommandsAre(s, input.remote);
    var a := ApplyCommands(s, input.remote).0;
    ActionsAre(a, input.local);
    ops := remote + Acts(input.local);
    RunAppend(s, remote, Acts(input.local));
    RunOneMore(s, ops, TickBy(TICK_MS, false));
  }

  // ---- the event of a step ---------------------------------------------

  /** The event waiting after a run: that of its last lock, if no restart came after it. */
  function LastLock(s: Game, ops: seq<Op>, waiting: Option<LockEvent>): Option<LockEvent>
    decreases |ops|
  {
    if ops == [] then waiting
    else
      var t := Step(s, ops[0]);
      LastLock(t, ops[1..], if Restarts(ops[0]) then None else if Locks(s, ops[0]) then t.lastEvent else waiting)
  }

  lemma OtherStep(s: Game, op: Op)
    requires Inv(s) && AirClear(s) && SoftOk(s) && !op.TakeEvent?
    ensures Restarts(op) ==> Step(s, op).lastEvent == None
    ensures !Restarts(op) && !Locks(s, op) ==> Step(s, op).lastEvent == s.lastEvent
  {
    hide Inv, AirClear, SoftOk, Tick, RestartWith, Spawn, Held, TryMove, TryTurn, HardDropped;
    match op
    case Begin => SpawnPays(s.(flags := s.flags.(started := true)));
    case Act(HardDrop) => DropTells(s);
    case Act(SoftDrop) => SoftTells(s);
    case Act(Restart) => RestartKept(s, s.queue.rng);
    case Act(a) => OtherKept(s, a);
    case TickBy(ms, soft) => TickTells(s, ms, soft);
    case RestartSeed(seed) => RestartKept(s, seed);
  }

  lemma SoftTells(s: Game)
    ensures Apply(s, SoftDrop).0.lastEvent == s.lastEvent
  {
    hide Fits, Grounded;
  }

  lemma DropTells(s: Game)
    requires Inv(s)
    ensures var t := Apply(s, HardDrop).0; t.ids.board == s.ids.board ==> t.lastEvent == s.lastEvent
  {
    hide Inv, LockDown, Landed, DropDistance, Fits;
    if !s.flags.paused && !s.flags.gameOver && s.active.Some? {
      var u := Grounding(s.(flags := s.flags.(rotatedLast := false)));
      InvPiece(s);
      LandedFits(s.board, s.active.value);
      LockChangesBoardId(u);
    }
  }

  lemma TickTells(s: Game, ms: u32, soft: bool)
    requires Inv(s) && AirClear(s) && SoftOk(s)
    ensures var t := Tick(s, ms, soft).0; t.ids.board == s.ids.board ==> t.lastEvent == s.lastEvent
  {
    hide Inv, AirClear, SoftOk, Tick, LockDown, LocksByTick, TickRows, DropDistance, Pace, Fits;
    if Plays(s, TickBy(ms, soft)) {
      var e := TickEnds(s, ms, soft);
      if LocksByTick(s, ms, soft) { LockChangesBoardId(e); }
    } else {
      IdleKept(s, ms, soft);
    }
  }

  lemma {:induction false} LastLockIs(s: Game, ops: seq<Op>)
    requires Inv(s) && AirClear(s) && SoftOk(s) && forall i :: 0 <= i < |ops| ==> !ops[i].TakeEvent?
    ensures Run(s, ops).lastEvent == LastLock(s, ops, s.lastEvent)
    decreases |ops|
  {
    hide Inv, AirClear, SoftClock, Step, Asked, Restarts, Locks;
    if ops == [] {
    } else {
      var since :| SoftClock(s, since);
      OtherStep(s, ops[0]);
      StepInv(s, ops[0]);
      StepRule(s, ops[0]);
      SoftDropStep(s, ops[0], since);
      LastLockIs(Step(s, ops[0]), ops[1..]);
    }
  }

  /** Every game of a session is reachable, its event taken. */
  lemma {:induction false} SessionReachable(seed: u32, before: seq<Op>, x: Session, inputs: seq<StepInput>)
    returns (ops: seq<Op>)
    requires x.game == Run(NewGame(seed), before) && x.game.lastEvent.None?
    requires forall i :: 0 <= i < |inputs| ==> InputOk(inputs[i])
    ensures RunSession(x, inputs).game == Run(NewGame(seed), ops) && RunSession(x, inputs).game.lastEvent.None?
    decreases |inputs|
  {
    hide Run, NewGame, InputOk, Played, Refresh, ApplyCommands, Inv;
    if inputs == [] {
      ops := before;
    } else {
      NewGameInv(seed);
      RunInv(NewGame(seed), before);
      var step := PlayedIsRun(x.game, inputs[0]);
      var all := step + [TickBy(TICK_MS, false)];
      RunAppend(NewGame(seed), before, all);
      RunOneMore(NewGame(seed), before + all, TakeEvent);
      ops := SessionReachable(seed, before + all + [TakeEvent], StepSession(x, inputs[0]).0, inputs[1..]);
    }
  }

  lemma SessionStarts(seed: u32)
    ensures NewSession(seed).game == Run(NewGame(seed), [Begin]) && NewSession(seed).game.lastEvent.None?
  {
    hide Spawn, Preview, Fresh, GridCodes, BoardHash, GhostY;
    SpawnPays(NewGame(seed).(flags := NewGame(seed).flags.(started := true)));
    assert Run(NewGame(seed), [Begin]) == Run(Step(NewGame(seed), Begin), []);
  }

  /**
    After any steps of a session, the next step reports at most one event: that of its last lock, unless a
    restart came after it. Events of earlier locks of the same step are lost.
  */
  lemma EventIsLast(seed: u32, inputs: seq<StepInput>, input: StepInput) returns (ops: seq<Op>)
    requires InputOk(input) && forall i :: 0 <= i < |inputs| ==> InputOk(inputs[i])
    ensures var x := RunSession(NewSession(seed), inputs);
      && Played(x.game, input) == Run(x.game, ops)
      && StepSession(x, input).1.events ==
           match LastLock(x.game, ops, None) case None => [] case Some(e) => [e]
  {
    hide Run, RunSession, NewSession, NewGame, InputOk, Inv, AirClear, SoftOk, LastLock, Played, Refresh, ApplyCommands;
    SessionStarts(seed);
    var all := SessionReachable(seed, [Begin], NewSession(seed), inputs);
    var x := RunSession(NewSession(seed), inputs);
    ReachableSoft(x.game);
    var plain := PlayedIsRun(x.game, input);
    ops := plain + [TickBy(TICK_MS, false)];
    LastLockIs(x.game, ops);
  }
}
