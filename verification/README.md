# Verified model of the Tetris engine and of the layers that must agree with it

The program is a deterministic Tetris engine with a session layer (commands, snapshots, replays), a
network adapter for external players and a terminal renderer. This project models those parts in
Dafny and proves what they keep over whole runs.

How it is built:

- **Values and steps.** `Game.dfy` gives the state of a game as a value and every method of the
  source's game state as a function on it; runs are sequences of operations (`Op`, `Step`, `Run`).
  Sessions (`Session.dfy`), replay tapes (`Replay.dfy`, `ReplayText.dfy`), the control broker
  (`Broker.dfy`) and the renderer (`Rendering.dfy`) follow the same pattern. The theorems are about
  these functions and their runs.
- **Objects that change in place.** `Board`, `SimpleRng`, `PieceQueue`, `GameState`,
  `SnapshotStore`, `SessionRuntime`, `FixedStepClock`, `ObservationSchedule`, `BrokerState`,
  `ChunkReader`, `FrameBuffer` and `TerminalRenderer` are classes with the source's loops and updates;
  each method is proved to do what the corresponding function says of its abstract value `Abs()`.
- **Machine integers.** 32- and 64-bit fields wrap or saturate where the source's do. A signed byte
  can wrap in one operation only, the placement of an arbitrary target column: in both sums of its
  bound test and in the subtraction after it. They are modelled with the two's complement result of
  a release build, which the workspace profile leaves unchecked; everywhere else overflow is proved
  impossible. A few targets near 127 thereby pass the bound test and are refused as blocked instead
  of out of bounds: `Placing.TargetErrorExactly` says which.
- **Concurrency.** Each connection of the broker is a task whose sections under the lock are single
  steps; steps of all tasks, channel failures included, interleave freely.

Files: `Types`, `Grids`, `Pieces`, `Board`, `Queue`, `Scoring`, `Game`, `GameState` (engine);
`GameInvariant`, `Accounting`, `LockDelay`, `LockResets`, `Stalling`, `HoldBlocked`, `IdleRun`,
`MoveLaw`, `GravityLaw`, `SpinLaw`, `ScoreLaw`, `HoldOnce`, `EpisodeLaw` (engine theorems); `Place`,
`PlaceLaw`, `Snapshot`, `Session`, `SessionRuntime`, `SessionLaw`, `Replay`, `Text`, `ReplayText`,
`FormatLaw`, `HashCover` (session layer); `Cadence` (clock and observation schedule); `Broker`,
`BrokerTenure`, `BrokerService`, `BrokerState`, `Framing`, `Versions` (adapter); `Rendering`,
`Renderer` (terminal).

What the functions compute is stated a second time, in the player's or the caller's terms: the `Law`
files say how far a piece falls in a time, what a history of locks earns, when a lock is a spin, when a
hold works, what ids and clocks count, which error a placement gets, what a step plays and reports, and
which bytes and lines stand for a snapshot and a tape.

## Where the code and its documentation differ

The model follows the code.

- `docs/architecture.md` says the snapshot store cannot combine current metadata with an obsolete
  board. It can: the store compares board ids only, and a restart resets the id.
  `Sessions.CoherentExactly` gives the exact condition for a step and `Sessions.CoherentOverRuns`
  for a run with any restarts, `SessionRuntimes.StaleFromEverySeed` a stale run from every seed,
  `Sessions.NextIdHeals` when a stale cache recovers and `Sessions.CacheAgrees` the runs for which
  the promise holds.
- The documented timing table of the rules allows 15 lock-delay resets per piece. The counter is
  cleared whenever the piece is in the air, so the limit binds each stretch on the ground
  (`LockResets.FifteenPerStretch`). A piece uses more than 15 exactly if, with 15 used, it has lifted
  off with resets standing and then moves and comes to rest again (`LockResets.LimitExactly`). From
  every seed one piece can be turned up and down on the floor for as long as one likes, using any
  number of resets (`Stalling.StallsFromEverySeed`); what is bounded is the time on the ground
  without a lift-off (`LockDelayBudget.GroundedPieceLocks`).
- A hold whose incoming piece does not fit ends the game with a piece duplicated or lost.
  `Accounting.HoldKeepsPiecesExactly` says exactly when; `HoldBlocked.FailsWithEmptySlot` and
  `HoldBlocked.FailsWithFilledSlot` are games in which each happens. The piece balance of
  `Accounting.Conservation` is stated for games that are not over.
- `docs/adapter-tui-tetris.md` speaks of the eligible client with the lowest id. Eligible means live
  and not asking to observe; the handshake is not looked at. So a controller may not have shaken
  hands (`BrokerTenure.UnshakenExactly` says exactly when, `Broker.PromotionIgnoresHandshake` gives a
  run) and may be an observer, by a claim or by asking to observe after its promotion
  (`BrokerTenure.ObserverExactly`, with the runs `Broker.ObserverMayClaim` and
  `BrokerTenure.PromotedThenObserves`).
- A command is checked and enqueued in separate sections, so its sender may have lost control in
  between: `BrokerTenure.SenderDisplacedExactly` says exactly when, `Broker.LateCommand` gives a run.
- The renderer sends colours and then an attribute reset, which on a terminal that follows the usual
  meaning of that reset discards them (`Rendering.ColoursLost`). The rendering theorems hold for both
  kinds of terminal: glyphs and weight always come out, colours where the reset leaves them.
- `docs/architecture.md` has a step capture zero to four ordered events. It captures one at most, that of
  its last lock (`SessionLaws.EventIsLast`).

## Model

| member | source | states |
|---|---|---|
| Grids.CompactGrid | crates/tetris-core/src/core/board.rs:117-138 | Removing the full rows leaves a 20 by 10 field without a full row and takes exactly ten cells per removed row. |
| Grids.FullRowsMeaning | crates/tetris-core/src/core/board.rs:83-90 | The list of full rows is ascending and holds exactly the indices of the full rows. |
| Grids.FilledStamp | crates/tetris-core/src/core/board.rs:142-163 | Writing k distinct free cells makes exactly k more cells filled. |
| BoardModule.CompactStep | crates/tetris-core/src/core/board.rs:95-138 | Shifting out the next full row of a field whose rows above are already compacted compacts one row more: the invariant of clearing several rows in place. |
| BoardModule.ShiftedRows | crates/tetris-core/src/core/board.rs:95-113 | The overlapping copy of the first y rows by one row width, with the top row emptied, removes row y and moves nothing below it. |
| BoardModule.Board.ClearRow | crates/tetris-core/src/core/board.rs:95-113 | Row y is removed, the rows above move down one, an empty row enters at the top; out of range nothing changes and zero is returned. |
| BoardModule.Board.ClearFullRows | crates/tetris-core/src/core/board.rs:117-138 | The field becomes its stable compaction (as many empty rows as there were full ones, then the other rows in their order), and the full rows of the original field are returned in ascending order. Needs at most four full rows, the capacity of the two buffers. |
| BoardModule.Board.IsRowFull | crates/tetris-core/src/core/board.rs:83-90 | True exactly for an existing row with no empty cell. |
| BoardModule.Board.LockPiece | crates/tetris-core/src/core/board.rs:142-163 | Succeeds exactly when all four cells are free, then fixes them; otherwise changes nothing. |
| BoardModule.Board.Set | crates/tetris-core/src/core/board.rs:57-65 | Writes one cell in bounds and nothing out of bounds, and says which. |
| BoardModule.Board.IsValid | crates/tetris-core/src/core/board.rs:68-70 | True exactly for an empty cell in bounds. |
| BoardModule.Board.Clear | crates/tetris-core/src/core/board.rs:196-200 | The field becomes empty. |
| BoardModule.Board.constructor | crates/tetris-core/src/core/board.rs:24-28 | A new board is the empty field. |
| Pieces.RotationIsUndoable | crates/tetris-core/src/core/pieces.rs:104-206 | From any valid placement on any board, after a turn by any kick the opposite turn succeeds too, with a kick no later in its list; it restores the exact placement if and only if it is that same kick, hence always after a turn in place. |
| Pieces.DropDistanceMeaning | crates/tetris-core/src/core/game_state.rs:394-429 | A fall passes only through free rows and ends where the next row blocks. |
| Pieces.AtMostFourFull | crates/tetris-core/src/core/board.rs:117-138 | Fixing a piece on a field without full rows fills at most four rows, at most three for a T: the four-slot buffers suffice. |
| Pieces.TripleIsFull | crates/tetris-core/src/core/game_state.rs:599-650 | A T that fills three rows after a turn has all corners blocked, so it is classed Full, never Mini. |
| QueueModule.ShuffledKeeps | crates/tetris-core/src/core/rng.rs:38-43 | The shuffle permutes. |
| QueueModule.PreviewIsNextFive | crates/tetris-core/src/core/rng.rs:124-170 | From every queue state the preview equals the next five draws, across the refill. |
| QueueModule.AlignedBlocks | crates/tetris-core/src/core/rng.rs:81-93 | From every queue state, every block of seven draws that starts at a bag boundary is a permutation of the kinds. |
| QueueModule.GapAtMostTwelve | crates/tetris-core/src/core/rng.rs:81-170 | After any draw the same kind returns within thirteen draws, so at most twelve others separate two of a kind. |
| QueueModule.SimpleRng.ShuffleInPlace | crates/tetris-core/src/core/rng.rs:38-43 | The in-place loop leaves the slice and the generator state of the specification's shuffle. |
| QueueModule.PieceQueue.Peek5 | crates/tetris-core/src/core/rng.rs:124-158 | Reads the next five pieces, through a shuffled copy of the coming bag when needed, without touching the queue. |
| QueueModule.PieceQueue.Peek | crates/tetris-core/src/core/rng.rs:96-119 | The piece the next draw will return. |
| QueueModule.PieceQueue.Draw | crates/tetris-core/src/core/rng.rs:161-170 | Returns the front of the queue and advances it by one, refilling when the bag is used up. |
| QueueModule.PieceQueue.RefillBag | crates/tetris-core/src/core/rng.rs:81-93 | A fresh shuffled bag of the seven kinds, the generator advanced. |
| Scoring.ClearPays | crates/tetris-core/src/core/scoring.rs:28-121 | A clear of one to four lines scores zero exactly in the two places the T-spin table has no entry (a Mini of three or more lines, a Full of four), and forty or more everywhere else, saturation, combo and back-to-back included. |
| Scoring.GravitySpeedsUp | crates/tetris-core/src/core/scoring.rs:142-151 | The gravity interval falls strictly level by level from 1000 milliseconds at level 0 to 120 at level 9 and stays there. |
| MoveLaws.ShapeTurns | crates/tetris-core/src/core/pieces.rs:15-97 | The four orientations of a kind are quarter turns of one shape in its box; an O looks the same in all. |
| MoveLaws.MovesExactly | crates/tetris-core/src/core/game_state.rs:309-338 | In play a step aside or down works if and only if the place is free, and then moves the piece and nothing else but a point for a step down; a refused step aside changes nothing. |
| MoveLaws.TurnsExactly | crates/tetris-core/src/core/game_state.rs:341-375 | In play a turn works if and only if the piece is no O and one of its five kicks fits; it takes the first that does, and refused it changes nothing. |
| GravityLaws.TickFalls | crates/tetris-core/src/core/game_state.rs:683-754 | From every reachable state a tick of play lowers the piece by as many rows as whole intervals have run up, but not beyond its landing, and keeps the remainder; it locks if and only if the piece then rests with 450 ms of lock delay; the interval is that of the level, a tenth of it in soft drop. |
| GravityLaws.PaceByLevel | crates/tetris-core/src/core/game_state.rs:298-306 | The interval is a second at level 0, strictly shorter by level down to 120 ms at level 9, constant after, and a tenth of that in soft drop. |
| GravityLaws.SoftDropLasts | crates/tetris-core/src/core/game_state.rs:706-721 | Over every run soft drop is on if and only if it was asked for, by action or tick, and less than 150 ms of play have passed since without a pause or restart. |
| GravityLaws.FallsByTime | crates/tetris-core/src/core/game_state.rs:728-737 | However time is cut into ticks, the rows fallen are the whole intervals passed and the timer holds the remainder, as long as the piece stays in the air. |
| GravityLaws.ReachableFall | crates/tetris-core/src/core/game_state.rs:728-737 | The same from every reachable state of play. |
| GravityLaws.TickOutsidePlay | crates/tetris-core/src/core/game_state.rs:684-704 | While play is off or the pause after a clear lasts, a tick moves nothing and only lets the pause run down. |
| SpinLaws.SpinByNose | crates/tetris-core/src/core/game_state.rs:599-650 | A T turned last is a spin if and only if three corners around its centre are blocked, and Full if and only if both corners beside its nose are; nose and centre are read from its cells. |
| SpinLaws.SpinNeedsTurn | crates/tetris-core/src/core/game_state.rs:309-375 | Over every run a lock can be a spin if and only if the last thing done to the piece was a turn that worked: no step aside and no soft drop since, falling by itself allowed. |
| ScoreLaws.TallyIsHistory | crates/tetris-core/src/core/game_state.rs:554-596 | Over every run the score is the sum of what the episode's locks and soft-drop steps earn: 40, 100, 300, 1200 or the spin's points per level for a clear, half as much again if the clear and the lock before it were both difficult clears, 50 per step of combo, two per row dropped, one per soft-drop step. Lines, level, combo and streak follow from the same history. |
| ScoreLaws.EventIsLastLock | crates/tetris-core/src/core/game_state.rs:519-538 | Over every run the event waiting is that of the last lock since the last take or restart, with its rows, points, spin, combo and streak. |
| HoldOnce.HoldExactly | crates/tetris-core/src/core/game_state.rs:432-475 | Over every run, in play, a hold is refused without change if and only if one was made since the last lock, start or restart; otherwise the active piece goes into the slot, with success reported if and only if the slot was empty or its piece fits. |
| HoldOnce.HoldsApart | crates/tetris-core/src/core/game_state.rs:432-475 | From every reachable state, after a hold that succeeds every further hold is refused until a lock or restart, whatever lies between: between two holds of an episode that succeed there is a lock. |
| HoldOnce.LockFreesHold | crates/tetris-core/src/core/game_state.rs:259-295 | After a lock the piece that came in can be held, if play goes on. |
| EpisodeLaws.IdsCount | crates/tetris-core/src/core/game_state.rs:259-295 | Over every run the episode id counts restarts, the seed is that of the last, the active id counts the pieces that came into play and the step number the ticks since; the pause is 180 ms from the last clear and the flash 120 ms from the last lock. |
| EpisodeLaws.Frozen | crates/tetris-core/src/core/game_state.rs:757-763 | A paused game stays exactly as it is under any moves and ticks, a finished one under everything but a restart. |
| EpisodeLaws.PauseResumes | crates/tetris-core/src/core/game_state.rs:788-796 | Resuming gives back the game as it was paused, with soft drop off. |
| EpisodeLaws.EpisodeRepeats | crates/tetris-core/src/core/game_state.rs:797-815 | After a restart, whatever was played before, the same operations lead to the same game as in a new one with that seed, but for the episode id. |
| GameInvariant.StepInv | crates/tetris-core/src/core/game_state.rs:96-815 | Every operation keeps the invariant of reachable games, from every state that has it. |
| GameInvariant.ReachableGeometry | crates/tetris-core/src/core/game_state.rs:259-544 | In every reachable state the active piece lies on free cells in bounds, no row is full, and a started game that is not over has an active piece. |
| GameInvariant.ReachableLockSucceeds | crates/tetris-core/src/core/board.rs:117-163 | In every reachable state fixing the active piece, where it is or where it would land, succeeds and fills at most four rows. |
| GameInvariant.CoordinatesFitI8 | crates/tetris-core/src/core/game_state.rs:309-375 | No signed-byte sum of coordinates overflows in a reachable state: moves, kicks, drops, corner tests. |
| GameInvariant.ReachablePreview | crates/tetris-core/src/core/game_state.rs:259-295 | In every reachable state the preview shown is the next five draws of the queue. |
| GameInvariant.EveryClearingLockPays | crates/tetris-core/src/core/game_state.rs:478-596 | In every reachable state a lock that clears a row or more reports at least forty points: the empty entries of the T-spin table are unreachable. |
| GameStateModule.GameState.constructor | crates/tetris-core/src/core/game_state.rs:96-130 | A new game is the initial state for its seed. |
| GameStateModule.GameState.Start | crates/tetris-core/src/core/game_state.rs:133-139 | The first piece enters once; a started game is left alone. |
| GameStateModule.GameState.SpawnPiece | crates/tetris-core/src/core/game_state.rs:259-295 | The head of the queue enters at the spawn place, or the game ends with queue and ids untouched. |
| GameStateModule.GameState.TryMove | crates/tetris-core/src/core/game_state.rs:309-338 | The piece moves exactly when the target place fits, with the lock reset and the rotate flag of the specification. |
| GameStateModule.GameState.TryRotate | crates/tetris-core/src/core/game_state.rs:341-375 | The first kick that fits is taken; an O or no fitting kick changes nothing. |
| GameStateModule.GameState.HandleLockReset | crates/tetris-core/src/core/game_state.rs:380-391 | Grounded, the lock timer restarts while resets remain; in the air timer and resets are cleared. |
| GameStateModule.GameState.FallDistance | crates/tetris-core/src/core/game_state.rs:394-429 | The drop loop stops on the first blocked row. |
| GameStateModule.GameState.HardDrop | crates/tetris-core/src/core/game_state.rs:394-429 | The piece locks on its landing row and two points per row are returned. |
| GameStateModule.GameState.GhostY | crates/tetris-core/src/core/game_state.rs:661-680 | The row on which a hard drop would land. |
| GameStateModule.GameState.Hold | crates/tetris-core/src/core/game_state.rs:432-475 | Swap or store with every branch of the source, the two blocked ones included; HoldOnce.HoldExactly says when it is refused. |
| GameStateModule.GameState.LockPiece | crates/tetris-core/src/core/game_state.rs:478-544 | Fix, classify, clear, score, record the event and spawn, in the order of the source. |
| GameStateModule.GameState.FixAndClassify | crates/tetris-core/src/core/game_state.rs:478-506 | First half of a lock: the piece is fixed where it is exactly if it fits there, and a T is classed by its corners before any row goes. |
| GameStateModule.GameState.ClearAndScore | crates/tetris-core/src/core/game_state.rs:508-538 | Second half: the full rows go, the board id counts a change, the clear is paid for and the event is left. |
| GameStateModule.GameState.ApplyLineClear | crates/tetris-core/src/core/game_state.rs:554-596 | Tally, timers and reported points of a clear, which ScoreLaws.TallyIsHistory derives from the locks of the episode. |
| GameStateModule.GameState.DetectTSpin | crates/tetris-core/src/core/game_state.rs:599-650 | T-spin class from the corners of the locked piece, in the meaning of SpinLaws.SpinByNose. |
| GameStateModule.GameState.Tick | crates/tetris-core/src/core/game_state.rs:683-754 | One tick: clocks, line-clear pause, soft drop, gravity loop, lock delay, in the meaning of GravityLaws.TickFalls. |
| GameStateModule.GameState.ApplyAction | crates/tetris-core/src/core/game_state.rs:757-803 | Each action does what the specification says and keeps the invariant of reachable games. |
| GameStateModule.GameState.RestartWithSeed | crates/tetris-core/src/core/game_state.rs:809-815 | A started new game with the next episode id. |
| Accounting.Conservation | crates/tetris-core/src/core/game_state.rs:478-596 | After any run of fewer than 2^32 operations the filled cells are 4 board_id - 10 lines, and while a started game is not over piece_id = board_id + 1, plus one when the hold slot is filled. |
| Accounting.ConservationUnbounded | crates/tetris-core/src/core/game_state.rs:478-596 | Without a bound the same balance holds of unbounded counts whose wrapped and saturated forms are the stored fields. |
| Accounting.HoldKeepsPiecesExactly | crates/tetris-core/src/core/game_state.rs:432-475 | An allowed hold keeps the pieces in play, up to those it draws, if and only if the incoming piece fits; otherwise the game ends with the active piece also held (empty slot) or the held one lost (filled slot). |
| HoldBlocked.FailsWithEmptySlot | crates/tetris-core/src/core/game_state.rs:432-475 | A game of seed 240 in which a hold is allowed, the slot is empty and the next piece does not fit: the hold ends the game with the active piece also held. |
| HoldBlocked.FailsWithFilledSlot | crates/tetris-core/src/core/game_state.rs:432-475 | A game of seed 240 in which the held O does not fit: the hold ends the game and the O is gone. |
| LockDelayBudget.StepBudget | crates/tetris-core/src/core/game_state.rs:380-391 | While one piece stays grounded, (15 - resets) * 450 + (450 - lock timer) drops by at least the effective time of every tick and rises on no action. |
| LockDelayBudget.GroundedPieceLocks | crates/tetris-core/src/core/game_state.rs:683-754 | Under any interleaving of actions and ticks a piece rests on the stack for less than 7200 ms of play outside pauses: 450 ticks. |
| LockResets.ReachableAir | crates/tetris-core/src/core/game_state.rs:380-391 | In every reachable state a piece that can still fall has neither lock time nor resets standing. |
| LockResets.StretchLaw | crates/tetris-core/src/core/game_state.rs:380-391 | The resets one piece has used, with those it started with, are those on its counter and those wiped off at its lift-offs, each of which wipes off between one and fifteen. |
| LockResets.FifteenPerStretch | crates/tetris-core/src/core/game_state.rs:380-391 | From any reachable state one piece uses at most fifteen resets for each stretch between lift-offs with resets standing; fifteen in all if there is none. |
| LockResets.SixteenthExactly | crates/tetris-core/src/core/game_state.rs:380-391 | With fifteen resets used, the next move that comes to rest uses another one if and only if the piece has lifted off with resets standing. |
| LockResets.LimitExactly | crates/tetris-core/src/core/game_state.rs:380-391 | The documented limit fails exactly here: a run of one piece uses more than fifteen resets if and only if at some step fifteen were used, a lift-off with resets standing lay behind, and the step moved the piece to rest. |
| Stalling.StallsFromEverySeed | crates/tetris-core/src/core/game_state.rs:341-391 | From every seed and for every n there is a run of one grounded piece that never locks, takes at least n milliseconds of play and uses at least n resets. |
| IdlePlay.IdleStep | crates/tetris-core/src/core/game_state.rs:683-754 | One idle step brings the lock at least 16 ms nearer or is the lock. |
| IdlePlay.LocksInTime | crates/tetris-core/src/core/game_state.rs:683-754 | The active piece of an idle game locks within its time left, at most 1154 steps after its spawn. |
| IdlePlay.IdleBand | crates/tetris-core/src/core/game_state.rs:478-544 | For every seed and any number of idle steps columns 0-2 and 7-9 stay empty, no line is cleared, and there are at most twenty locks of four cells. |
| IdlePlay.IdleEnds | crates/tetris-core/src/core/game_state.rs:259-295 | For every seed idle play is over after at most 20 * 1154 steps. |
| Placing.PlaceRefinesActions | crates/tetris-session/src/engine/place.rs:50-157 | A successful placement is a run of ordinary actions (a hold if asked, at most three turns one way, at most twelve moves, a hard drop); before the drop the piece has the requested orientation and column on the unchanged field, and it is fixed on its ghost row. For every signed-byte target, the wrapping subtraction included. |
| Placing.PlaceSucceedsExactly | crates/tetris-session/src/engine/place.rs:50-157 | A placement succeeds if and only if play is on, a requested hold works without ending the game, one of the two rotation plans works, and every column on the way is free. |
| Placing.SoftDropsReachGhost | crates/tetris-core/src/core/game_state.rs:661-680 | Repeated soft drops reach exactly the ghost row, each through free cells, and the next one is refused. |
| Placing.OutOfBoundsExactly | crates/tetris-session/src/engine/place.rs:121-131 | A target column passes the bound test if and only if the piece fits between the walls there or the sum of the test on the right wraps while that on the left does not. |
| Placing.TargetErrorExactly | crates/tetris-session/src/engine/place.rs:121-147 | The last leg answers out of bounds exactly for targets outside the field whose bound test does not wrap; those that wrap are answered as blocked. |
| PlaceLaws.TurnsShorterWay | crates/tetris-session/src/engine/place.rs:69-114 | The shorter way of turning is tried first, clockwise of two equal ones, and the other from the start if a turn of it fails. |
| PlaceLaws.PlaceErrorExactly | crates/tetris-session/src/engine/place.rs:50-157 | A placement that fails gets the first error that applies: play off, hold refused, no piece, no way to turn, column out of bounds, way blocked, or the hold ended the game over the very column asked for. |
| Placing.ApplyPlace | crates/tetris-session/src/engine/place.rs:38-48 | Success commits the specified state; every error leaves the whole game as it was. |
| Placing.ApplyPlaceInPlace | crates/tetris-session/src/engine/place.rs:50-157 | The loops over turns and moves compute the specified outcome, each error with its own code. |
| Sessions.CacheAgrees | crates/tetris-session/src/engine/session.rs:88-95 | From a coherent session, over any run of steps without a restart (any commands and local actions within the capacities, failed placements included) the stored snapshot is the game's own. |
| Sessions.CoherentExactly | crates/tetris-session/src/engine/session.rs:88-95 | One step keeps a coherent cache coherent if and only if it ends with another board id or with the same board, restarts included. |
| Sessions.StoredIsLastCopied | crates/tetris-session/src/engine/session.rs:88-95 | After any run, restarts included, the stored board is that of the last step to end with another board id than the cached one, and everything else stored is the game's. |
| Sessions.CoherentOverRuns | crates/tetris-session/src/engine/session.rs:88-95 | From every seed and over any run, restarts included, the stored snapshot is the game's if and only if the board copied last is the game's board. |
| Sessions.NextIdHeals | crates/tetris-session/src/engine/session.rs:88-95 | However stale the cache, a step that ends with another board id makes it coherent again. |
| Sessions.StepLocks | crates/tetris-session/src/engine/session.rs:145-198 | A step without a restart makes at most 1089 locks and the board id counts them, so it cannot come back to its value with another board. |
| SessionLaws.PlayedIsRun | crates/tetris-session/src/engine/session.rs:145-198 | Whatever its commands, placements included, a step plays a run of actions and seeded restarts followed by one tick. |
| SessionLaws.StepFlattens | crates/tetris-session/src/engine/session.rs:145-171 | A step of action lists plays the remote actions in order, then the local ones, then one tick of 16 ms. |
| SessionLaws.SeedServesFirstRestart | crates/tetris-session/src/engine/session.rs:174-198 | A command's seed replaces its first restart and no other. |
| SessionLaws.OutcomeOfEach | crates/tetris-session/src/engine/session.rs:145-198 | Each command gets its own outcome in order: action lists are accepted, a placement if and only if it succeeds in the state the commands before it left, and a refused one leaves that state. |
| SessionLaws.EventIsLast | crates/tetris-session/src/engine/session.rs:158-161 | After any steps of a session a step reports the event of its last lock unless a restart came after it, and no other. |
| SessionLaws.StepsCounted | crates/tetris-session/src/engine/session.rs:145-171 | The logical step counts the steps taken. |
| SessionRuntimes.StaleFromEverySeed | crates/tetris-session/src/engine/session.rs:88-95 | From every seed: drop a piece in one step, restart and drop it one column further left in the next; the stored snapshot then differs from the game's. |
| SessionRuntimes.IdleSessionEnds | crates/tetris-session/src/engine/session.rs:145-171 | A session fed only empty inputs keeps to columns 3-6, clears nothing, locks at most twenty pieces and is over after 23080 steps. |
| SessionRuntimes.SnapshotStore.Refresh | crates/tetris-session/src/engine/session.rs:88-95 | The board is copied only when the board id differs from the cached one, the rest always. |
| SessionRuntimes.SessionRuntime.Transition | crates/tetris-session/src/engine/session.rs:145-171 | Remote commands, then local actions, then one tick, then the event; the store is refreshed and the step counted. |
| SessionRuntimes.ApplyGameCommand | crates/tetris-session/src/engine/session.rs:174-198 | An action list with its restart seed, or a placement, and the outcome reported. |
| SessionRuntimes.OpenSession | crates/tetris-session/src/engine/session.rs:111-130 | A started game whose first snapshot is cached, for any seed. |
| Snapshots.WriteGrid | crates/tetris-core/src/core/board.rs:171-187 | The grid of codes read from the flat cells, row by row. |
| Snapshots.StableStateHash | crates/tetris-core/src/core/state_hash.rs:38-98 | Hashing the fields one after the other is the fold over all bytes of the snapshot and the event, which HashCover.BytesTell says determine them. |
| HashCover.BytesTell | crates/tetris-core/src/core/state_hash.rs:38-98 | What is hashed determines what is shown: equal bytes mean equal board hash and id, active piece, hold, previews, flags, the ten numbers and the event. |
| HashCover.BoardTells | crates/tetris-core/src/core/board.rs:171-187 | The bytes of the board hash determine the board. |
| HashCover.SnapshotTells | crates/tetris-core/src/core/game_state.rs:206-256 | A snapshot tells of its game the board, the pieces, the flags shown, the ids, the seed, the tally and the timers shown. |
| HashCover.TransitionTells | crates/tetris-session/src/engine/replay.rs:26-50 | The bytes of a transition determine its number, the hash of each event and the outcomes. |
| HashCover.OneByteShows | crates/tetris-core/src/core/state_hash.rs:9-14 | A changed byte, wherever it stands, changes the hash. |
| HashCover.ColumnShows | crates/tetris-core/src/core/state_hash.rs:42-53 | Snapshots that differ in the column of the active piece alone have different hashes. |
| HashCover.AlteredMoveCaught | crates/tetris-session/src/engine/replay.rs:259-278 | From every seed a recorded first step to the left does not verify once it is changed to a step to the right. |
| Replays.RecordedVerifies | crates/tetris-session/src/engine/replay.rs:74-95 | Whatever was recorded verifies and ends in the recorded final snapshot, for every seed and input list. |
| Replays.RecordsNumbered | crates/tetris-session/src/engine/replay.rs:74-95 | Records are numbered from zero and hold the inputs in order, each with the hash its step shows. |
| Replays.VerifiesIff | crates/tetris-session/src/engine/replay.rs:259-278 | Verification succeeds if and only if every record carries the hash that its step shows after the steps before it. |
| Replays.MismatchIsFirst | crates/tetris-session/src/engine/replay.rs:113-118 | A reported mismatch is the first: the minimal failing prefix fails with the same report and every shorter prefix verifies. |
| Replays.RecordTape | crates/tetris-session/src/engine/replay.rs:74-95 | The recording loop over a live session builds the specified tape. |
| Replays.ComputeTransitionHash | crates/tetris-session/src/engine/replay.rs:21-50 | The hash of a step, computed piece by piece over events and outcomes, is the specified one. |
| Replays.ReplayAndVerify | crates/tetris-session/src/engine/replay.rs:259-278 | The replay loop returns the session reached, or the specified mismatch. |
| Replays.MinimalFailurePrefix | crates/tetris-session/src/engine/replay.rs:113-118 | The records up to and including the failing one, with the final snapshot they lead to. |
| ReplayText.RoundTrip | crates/tetris-session/src/engine/replay.rs:125-256 | Decoding what was encoded gives the tape back, whatever its step numbers, hashes, signed targets, empty action lists and restart seeds, when its inputs keep the capacities and its snapshot is the one its inputs lead to. |
| ReplayText.ReencodingLosesNothing | crates/tetris-session/src/engine/replay.rs:125-256 | Every text that decodes yields a tape that survives encoding and decoding. |
| ReplayText.RecordedRoundTrip | crates/tetris-session/src/engine/replay.rs:74-163 | Every recorded tape can be written and read back. |
| ReplayText.EncodeTape | crates/tetris-session/src/engine/replay.rs:125-163 | The appending loops write the specified text. |
| ReplayText.DecodeTape | crates/tetris-session/src/engine/replay.rs:165-256 | The reading loops return the specified tape or the specified error. |
| ReplayText.ReadInput | crates/tetris-session/src/engine/replay.rs:199-246 | One step's lines are read up to its end mark; the error and the next line are as specified. |
| FormatLaws.LinesWritten | crates/tetris-session/src/engine/replay.rs:125-163 | Each kind of line written out field by field. |
| FormatLaws.TapeWritten | crates/tetris-session/src/engine/replay.rs:125-163 | A tape is its header line, then for every record its step line, commands, local actions and an E. |
| FormatLaws.NumbersExactly | crates/tetris-session/src/engine/replay.rs:165-198 | A field is read as a number if and only if it is an optional plus, zeros and the shortest form of one the type holds. |
| FormatLaws.HeadersExactly | crates/tetris-session/src/engine/replay.rs:165-190 | A header is read if and only if it is the format, the ruleset and a 32-bit seed. |
| FormatLaws.StepLinesExactly | crates/tetris-session/src/engine/replay.rs:187-197 | A step line is read if and only if it is an S and two 64-bit numbers. |
| FormatLaws.LocalLinesExactly | crates/tetris-session/src/engine/replay.rs:204-209 | A line adds a local action if and only if it is an L and the action's name in any case. |
| FormatLaws.ActionLinesExactly | crates/tetris-session/src/engine/replay.rs:204-231 | A line adds an action list if and only if it is R, A, a seed or a dash, and the names of the actions in any case. |
| FormatLaws.PlaceLinesExactly | crates/tetris-session/src/engine/replay.rs:232-246 | A line adds a placement if and only if it is R, P, a signed byte, an orientation by name or first letter, and true or false. |
| FormatLaws.DecodesExactly | crates/tetris-session/src/engine/replay.rs:165-256 | A text is read as a tape if and only if its lines are a header with the tape's seed and, for every record, a step line, lines that add up to its input, and an E. |
| FormatLaws.LineEnds | crates/tetris-session/src/engine/replay.rs:165-168 | A line may end in a newline, in a carriage return and a newline, or, the last one, in nothing. |
| Text.LinesOfUnlines | crates/tetris-session/src/engine/replay.rs:165-256 | Splitting lines written one by one gives them back. |
| Text.ActionRoundTrip | crates/tetris-core/src/types.rs:365-398 | Every action's name parses to that action, and to no other. |
| Text.I8RoundTrip | crates/tetris-session/src/engine/replay.rs:232-243 | Every signed byte written in decimal parses back. |
| Cadence.ClockConserves | crates/tetris-session/src/engine/fixed_step.rs:27-33 | Over any sequence of advances without saturation the time put in is tick * steps + backlog, no burst exceeds the cap, and after a burst below the cap the steps are exactly those due. |
| Cadence.FixedStepClock.Advance | crates/tetris-session/src/engine/fixed_step.rs:27-33 | One advance takes the specified burst off the backlog. |
| Cadence.CadenceExact | crates/tetris-adapter/src/adapter/observation_schedule.rs:57-80 | n uneventful ticks from phase a emit exactly floor((a + 16 hz n) / 1000) observations, numbered consecutively, and keep the remainder as phase. |
| Cadence.KeepsNewestFour | crates/tetris-adapter/src/adapter/observation_schedule.rs:45-50 | Between observations the newest four events survive, in order. |
| Cadence.ChangesObservedAtOnce | crates/tetris-adapter/src/adapter/observation_schedule.rs:57-80 | A tick is observed if and only if episode, piece, active piece, pause or game over changed since the tick before, an event waits, or the frequency makes it due. |
| Cadence.ObservationSchedule.AfterTick | crates/tetris-adapter/src/adapter/observation_schedule.rs:57-80 | A changed id or flag or a waiting event observes at once and clears the phase; otherwise the accumulated phase decides. |
| Cadence.ObservationSchedule.CaptureEvent | crates/tetris-adapter/src/adapter/observation_schedule.rs:45-50 | The event joins the waiting ones; beyond four the oldest goes. |
| Broker.Safety | crates/tetris-adapter/src/adapter/server.rs:245-352 | Over every interleaving a controller is a registered client, a connection shakes hands at most once and does nothing before, its accepted numbers strictly increase from hello's 1, and each command it got enqueued follows directly on steps that saw it handshaken, accepted its number and saw it controller. |
| Broker.AcceptedExactly | crates/tetris-adapter/src/adapter/server.rs:335-352 | A number is accepted if and only if it exceeds hello's 1 and every number accepted before from that client. |
| Broker.ControlMoves | crates/tetris-adapter/src/adapter/server.rs:245-272 | Control changes only by a hello or claim when the holder is gone or dead, by the holder's release, or by the holder's disconnect, which passes it to exactly the lowest live client that is no observer, or to nobody; no hello and no promotion gives it to an observer. |
| Broker.LiveControllerKeepsControl | crates/tetris-adapter/src/adapter/server.rs:815-984 | No step of another connection takes control from a live controller. |
| Broker.EnqueuedByController | crates/tetris-adapter/src/adapter/server.rs:868-920 | A command enters the queue only for a handshaken sender that is controller at that moment unless its channel has died since its check; BrokerTenure.SenderDisplacedExactly says when a dead one still is. |
| Broker.HelloDecides | crates/tetris-adapter/src/adapter/server.rs:815-834 | Hello leaves control with a live holder, else gives it to a newcomer that does not ask to observe, else to nobody. |
| Broker.ClaimDecides | crates/tetris-adapter/src/adapter/server.rs:932-953 | In every reachable state a claim leaves control with a live holder and otherwise gives it to the claimer. |
| Broker.ReleaseDecides | crates/tetris-adapter/src/adapter/server.rs:966-981 | In every reachable state a release by the controller leaves nobody in control, one by another changes nothing. |
| BrokerService.CommandServed | crates/tetris-adapter/src/adapter/server.rs:868-920 | From every reachable state a command served without interruption is enqueued if and only if its sender has shaken hands, its number is above every one accepted before, its sender is controller, it can be mapped and the queue has room. |
| BrokerService.ClaimServed | crates/tetris-adapter/src/adapter/server.rs:923-957 | A claim served without interruption, in order and after the handshake, takes control if and only if no live client holds it. |
| BrokerService.ReleaseServed | crates/tetris-adapter/src/adapter/server.rs:958-984 | A release served without interruption, in order and after the handshake, leaves its sender without control. |
| BrokerService.HelloServed | crates/tetris-adapter/src/adapter/server.rs:763-866 | A first hello served without interruption shakes hands if and only if version and format are accepted; the record holds what it asked for and control is settled; an incompatible one ends the connection. |
| BrokerService.ShakenByHello | crates/tetris-adapter/src/adapter/server.rs:763-834 | Over every interleaving a registered client has shaken hands if and only if its connection served a hello; there is one such hello, compatible, of known format and number 1, and the record holds its role, mode and stream. |
| Broker.PromotionIgnoresHandshake | crates/tetris-adapter/src/adapter/server.rs:258-271 | A run with no claim or release for the failing side of BrokerTenure.UnshakenExactly: a live controller that has not shaken hands. |
| Broker.ObserverMayClaim | crates/tetris-adapter/src/adapter/server.rs:923-957 | A run for the first route of BrokerTenure.ObserverExactly: an observer claims control and has it. |
| Broker.LateCommand | crates/tetris-adapter/src/adapter/server.rs:876-920 | A run for the failing side of BrokerTenure.SenderDisplacedExactly: a command of a client whose channel died is enqueued after another took control. |
| BrokerTenure.UnshakenExactly | crates/tetris-adapter/src/adapter/server.rs:245-272 | Over every interleaving a controller has not shaken hands if and only if control last changed by another client's disconnect, which promoted it before its handshake, and its hello has not been marked since. |
| BrokerTenure.ObserverExactly | crates/tetris-adapter/src/adapter/server.rs:804-957 | Over every interleaving a controller is on record as an observer if and only if it took control by a claim after asking to observe, or was promoted before its hello and then asked to observe. |
| BrokerTenure.SenderDisplacedExactly | crates/tetris-adapter/src/adapter/server.rs:868-920 | When a checked command is about to be enqueued its sender is no longer controller if and only if, since the step that saw it controller, another client's hello assignment or claim ran while the sender's channel was dead. |
| BrokerTenure.PromotedThenObserves | crates/tetris-adapter/src/adapter/server.rs:804-834 | A run of hellos and disconnects only, for the second route of ObserverExactly: a client promoted before its hello asks to observe and keeps control. |
| BrokerStates.BrokerState.ClearStaleController | crates/tetris-adapter/src/adapter/server.rs:250-256 | Control is dropped exactly when its holder is not a live registered client. |
| BrokerStates.BrokerState.RemoveAndPromote | crates/tetris-adapter/src/adapter/server.rs:258-271 | The client is removed; if it was controller, control passes to the lowest id among the live clients that do not ask to observe. |
| BrokerStates.BrokerState.CheckAndUpdateSeq | crates/tetris-adapter/src/adapter/server.rs:335-352 | Accepts and records a number above the last one, refuses others without change, accepts from an unknown client. |
| BrokerStates.BrokerState.EnforceHandshakeAndSeq | crates/tetris-adapter/src/adapter/server.rs:213-230 | Passes exactly a handshaken client whose number is accepted, which is then recorded; without a handshake nothing is recorded. |
| BrokerStates.BrokerState.MarkHandshaken | crates/tetris-adapter/src/adapter/server.rs:804-813 | The client's record takes the handshake, its number and the requested capabilities; no other record changes. |
| BrokerStates.BrokerState.AssignOnHello | crates/tetris-adapter/src/adapter/server.rs:818-834 | Second section of hello; the role and controller reported are those just decided. |
| BrokerStates.BrokerState.ClaimControl | crates/tetris-adapter/src/adapter/server.rs:932-953 | Acknowledged exactly when the claimer is controller afterwards; a live other holder is left in place. |
| BrokerStates.BrokerState.ReleaseControl | crates/tetris-adapter/src/adapter/server.rs:966-981 | Acknowledged exactly when the caller was controller, who then is not, nobody taking over. |
| BrokerStates.BrokerState.Register | crates/tetris-adapter/src/adapter/server.rs:594-608 | A new record without handshake, role auto; the others stay. |
| Framing.FramesAreSplit | crates/tetris-adapter/src/adapter/server.rs:42-73 | The lines read from a stream are its newline split up to the first line whose payload exceeds 65,536 bytes, which is reported too long exactly when there is one; an unterminated tail counts as a line. |
| Framing.SplitUnique | crates/tetris-adapter/src/adapter/server.rs:42-73 | A stream has only one newline split. |
| Framing.SplitExists | crates/tetris-adapter/src/adapter/server.rs:42-73 | Every stream has a newline split. |
| Framing.ChunkReader.ReadBoundedLine | crates/tetris-adapter/src/adapter/server.rs:42-73 | However the stream is cut into chunks, one read returns what it returns on the whole stream and leaves the same rest; the buffer never exceeds 65,537 bytes. |
| Framing.ServedAreSplit | crates/tetris-adapter/src/adapter/server.rs:722-749 | The lines served are those of the newline split, in order, up to the first that is too long or not text, which is reported; stopped sooner, as many as were allowed. |
| Framing.ChunkReader.DrainLines | crates/tetris-adapter/src/adapter/server.rs:722-749 | However the stream is cut into chunks, the reading loop serves the specified lines and ends for the specified reason: end of input, a line too long, a line that is not text, or shutdown. |
| Versions.CompatibleExactly | crates/tetris-adapter/src/adapter/server.rs:75-125 | A version is accepted if and only if it is a semantic version (sections 2, 9 and 10 of Semantic Versioning 2.0.0) with major number 3 whose other numbers fit 64 bits. |
| Rendering.DiffDraws | crates/tetris-terminal/src/term/renderer.rs:151-172 | On a terminal showing prev the diff code makes it show next, printing on exactly the changed cells, once each and in reading order; colours included where the terminal keeps them through a reset. |
| Rendering.RunsAreMaximal | crates/tetris-terminal/src/term/renderer.rs:195-237 | The runs are the maximal changed stretches: they cover exactly the changed cells, neither neighbour of a run changed, and no two touch. |
| Rendering.DiffEmptyExactly | crates/tetris-terminal/src/term/renderer.rs:151-172 | For frames of one size the diff code is empty if and only if they are equal. |
| Rendering.DiffOfOtherSizeDraws | crates/tetris-terminal/src/term/renderer.rs:200-206 | Against a frame of another size the diff code draws every cell, whatever the terminal showed. |
| Rendering.FullDraws | crates/tetris-terminal/src/term/renderer.rs:124-146 | The full code makes a terminal of the frame's size show it, whatever it showed before, with its colours if the terminal keeps them through a reset. |
| Rendering.ColoursLost | crates/tetris-terminal/src/term/renderer.rs:174-185 | Colours sent before an attribute reset leave no trace on the pen, unless the terminal keeps colours through a reset. |
| Rendering.ScreenShowsLastDrawn | crates/tetris-terminal/src/term/renderer.rs:70-106 | Over any run of draws, forced redraws and terminal changes that force one, the screen shows the frame drawn last. |
| Rendering.DrawsOnlyChanges | crates/tetris-terminal/src/term/renderer.rs:79-106 | Over a frame of the same size on the screen a draw prints on the changed cells only, once each and in reading order, and sends nothing if and only if the frame is the one shown. |
| Renderers.TerminalRenderer.DrawSwap | crates/tetris-terminal/src/term/renderer.rs:79-106 | Sends the full or diff code for the frame against the one drawn last, flushes exactly when there is something to send, keeps the frame as last drawn and hands back the previous cells; a terminal that showed the last frame then shows this one. |
| Renderers.EncodeFullInto | crates/tetris-terminal/src/term/renderer.rs:124-146 | The nested loops with a running style append the specified full code. |
| Renderers.EncodeDiffInto | crates/tetris-terminal/src/term/renderer.rs:151-172 | The loop over runs with a running style appends the specified diff code. |
| Renderers.ChangedRuns | crates/tetris-terminal/src/term/renderer.rs:195-237 | The scanning loops find the specified runs. |
| Renderers.FrameBuffer.Set | crates/tetris-terminal/src/term/fb.rs:97-112 | One cell changes in bounds, nothing out of bounds: no two places share an index. |
| Renderers.FrameBuffer.Get | crates/tetris-terminal/src/term/fb.rs:97-106 | The cell in bounds, nothing out of bounds. |
| Renderers.FrameBuffer.Resize | crates/tetris-terminal/src/term/fb.rs:82-90 | New size with the flat cells kept as far as they go and default cells after; the same size changes nothing. |

## Left out

- Sockets, timers, task scheduling, the writer task, wire logging and status reports: input and output. The broker model keeps the sections run under the lock and treats a channel's liveness as a flag that is dropped at any moment.
- JSON messages, their parsing and their error codes: a line arrives in the broker model as an already parsed message, a rejected line as `Garbled`; a command that cannot be mapped as `mapped == false`.
- Invalid UTF-8: `Framing.ChunkReader.DrainLines` takes the test for valid text as a parameter and the shutdown signal as the number of lines it may still read; a tape is a sequence of characters, since the source refuses bytes that are none before it looks at lines.
- The main loop, the observer program, command-line and environment configuration, files: composition and input and output.
- Drawing the game view (layout, text, colours), `put_str`, `put_u32` and `fill_rect`: they only fill cells of the frame buffer; the frame drawn is arbitrary here.
- Escape sequences: the renderer's commands are abstract, every glyph is one column wide, line wrap is off.
- Held-key repeat and auto-release of the input handler: it reads the clock. The render throttle and key maps: single branches.
- Hash collisions: the bytes hashed determine what is shown (`HashCover.BytesTell`) and a single changed byte always shows (`HashCover.OneByteShows`); that two other byte lists never share a hash is not claimed.
- Fidelity of the piece shapes and kick tables to outside rotation charts: the tables are taken as they stand in the source.
- Messages and names of errors, getters, `Default` implementations: plain field copies.
- `GameStateModule.GameState`: its fields are grouped into the records `Ids`, `Tally`, `Timers` and `Flags` instead of being single variables; each update still happens in place. `Cadence.ObservationSchedule` groups the watched ids and flags in the same way.
- `Renderers.ChangedRuns`: the source hands each run to a closure as it finds it; here the runs are collected and encoded in the same order.
- `Framing.ChunkReader.ReadBoundedLine`: read errors of the source are not modelled; the connection treats them as the end of its input.
- `BrokerStates.BrokerState.EnforceHandshakeAndSeq`: the source takes the lock twice, for the handshake and for the number; the method runs both in one call, the broker's steps (`Broker.Next`) keep them apart.
- `BoardModule.Board.ClearFullRows`: the panic of the four-slot buffers beyond four full rows appears as the requirement of at most four, which `GameInvariant.ReachableLockSucceeds` proves for every reachable lock.
- `Accounting.Conservation`: stated for runs of fewer than 2^32 operations, since the ids wrap; `Accounting.ConservationUnbounded` has no bound.
- `ScoreLaws.TallyIsHistory`: stated below eight million lines in an episode, where no single payment reaches the width of the score; the sum of the payments may, and then the score stands at its greatest value.
- `ScoreLaws.EventIsLastLock`: the same bound, since a payment beyond the width of the field is cut off.
- `GravityLaws.FallsByTime`: stated for times that leave the piece in the air and fit the drop timer; `GravityLaws.TickFalls` covers every single tick, landing, lock and saturation included.
